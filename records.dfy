/**
 * The dictionaries and port objects that the three platform providers pass around:
 * pyserial port records, the `{'dev', 'iface'}` tty entries, the volume entries and
 * the per-board record with its eight keys, plus the list operations the providers
 * use on the pool of serial ports.
 */
module Records {
  import opened Wrappers

  /** The USB vendor and product id pyserial reports for a port (both or neither). */
  datatype UsbId = UsbId(vid: int, pid: int)

  /** One entry of pyserial's `comports()`. */
  datatype SerialPort = SerialPort(
    device: string,
    hwid: Option<UsbId>,
    serialNumber: Option<string>,
    interface: Option<string>,
    description: string,
    manufacturer: string)

  /** `{'dev': ..., 'iface': ...}` */
  datatype Tty = Tty(dev: string, iface: string)

  /** `{'mount_point': ..., 'mains': ...}`; `name` is the key `DeviceInfoDict` reads but no provider writes. */
  datatype Volume = Volume(mountPoint: Option<string>, name: Option<string>, mains: seq<string>)

  /** The record a provider returns for one board; only Windows can leave the serial None. */
  datatype Device = Device(
    name: string,
    vendorId: int,
    productId: int,
    serialNum: Option<string>,
    manufacturer: string,
    ports: seq<Tty>,
    volumes: seq<Volume>,
    version: string)

  /** One entry of `psutil.disk_partitions()`. */
  datatype Partition = Partition(device: string, mountpoint: string)

  /** What the file system shows under one mount point: the file names present and `boot_out.txt`. */
  datatype MountFiles = MountFiles(present: set<string>, bootOut: Option<string>)

  /** The file system, as seen through mount points. */
  type Drives = string -> MountFiles

  // ---------------------------------------------------------------- ports and ttys

  /** `{'dev': port.device, 'iface': port.interface or ""}` */
  function TtyOf(p: SerialPort): Tty {
    Tty(p.device, p.interface.GetOr(""))
  }

  function TtysOf(ports: seq<SerialPort>): (r: seq<Tty>)
    ensures |r| == |ports|
    ensures forall i :: 0 <= i < |ports| ==> r[i] == TtyOf(ports[i])
  {
    if ports == [] then [] else [TtyOf(ports[0])] + TtysOf(ports[1..])
  }

  lemma TtysOfAppend(a: seq<SerialPort>, b: seq<SerialPort>)
    ensures TtysOf(a + b) == TtysOf(a) + TtysOf(b)
  {
  }

  /** Every tty of every record, in order. */
  function AllTtys(devices: seq<Device>): seq<Tty>
  {
    if devices == [] then [] else devices[0].ports + AllTtys(devices[1..])
  }

  lemma {:induction false} AllTtysAppend(a: seq<Device>, b: seq<Device>)
    ensures AllTtys(a + b) == AllTtys(a) + AllTtys(b)
    decreases |a|
  {
    if a == [] {
      assert a + b == b;
    } else {
      assert (a + b)[1..] == a[1..] + b;
      AllTtysAppend(a[1..], b);
    }
  }

  /** `[x for x in comports() if x.vid is not None]` */
  function Identified(ports: seq<SerialPort>): (r: seq<SerialPort>)
    ensures forall p :: p in r <==> p in ports && p.hwid.Some?
  {
    var identified := (p: SerialPort) => p.hwid.Some?;
    FilterMembers(ports, identified);
    Filter(ports, identified)
  }

  // ---------------------------------------------------------------- filtering

  function Last<T>(s: seq<T>): T
    requires s != []
  {
    s[|s| - 1]
  }

  /** The elements of `s` that satisfy `p`, in order. */
  function Filter<T>(s: seq<T>, p: T -> bool): (r: seq<T>)
    ensures |r| <= |s|
  {
    if s == [] then []
    else (if p(s[0]) then [s[0]] else []) + Filter(s[1..], p)
  }

  /** The elements of `s` that do not satisfy `p`, in order. */
  function FilterOut<T>(s: seq<T>, p: T -> bool): (r: seq<T>)
    ensures |r| <= |s|
  {
    if s == [] then []
    else (if p(s[0]) then [] else [s[0]]) + FilterOut(s[1..], p)
  }

  /** `Filter` keeps exactly the elements that pass the test. */
  lemma {:induction false} FilterMembers<T>(s: seq<T>, p: T -> bool)
    ensures forall x :: x in Filter(s, p) <==> x in s && p(x)
    decreases |s|
  {
    if s != [] {
      FilterMembers(s[1..], p);
      assert s == [s[0]] + s[1..];
    }
  }

  /** `FilterOut` keeps exactly the elements that fail the test. */
  lemma {:induction false} FilterOutMembers<T>(s: seq<T>, p: T -> bool)
    ensures forall x :: x in FilterOut(s, p) <==> x in s && !p(x)
    decreases |s|
  {
    if s != [] {
      FilterOutMembers(s[1..], p);
      assert s == [s[0]] + s[1..];
    }
  }

  lemma {:induction false} FilterAppend<T>(a: seq<T>, b: seq<T>, p: T -> bool)
    ensures Filter(a + b, p) == Filter(a, p) + Filter(b, p)
    decreases |a|
  {
    if a == [] {
      assert a + b == b;
    } else {
      var hd := if p(a[0]) then [a[0]] else [];
      assert (a + b)[0] == a[0];
      assert (a + b)[1..] == a[1..] + b;
      calc {
        Filter(a + b, p);
        hd + Filter(a[1..] + b, p);
        { FilterAppend(a[1..], b, p); }
        hd + (Filter(a[1..], p) + Filter(b, p));
        (hd + Filter(a[1..], p)) + Filter(b, p);
      }
    }
  }

  lemma {:induction false} FilterOutAppend<T>(a: seq<T>, b: seq<T>, p: T -> bool)
    ensures FilterOut(a + b, p) == FilterOut(a, p) + FilterOut(b, p)
    decreases |a|
  {
    if a == [] {
      assert a + b == b;
    } else {
      var hd := if p(a[0]) then [] else [a[0]];
      assert (a + b)[0] == a[0];
      assert (a + b)[1..] == a[1..] + b;
      calc {
        FilterOut(a + b, p);
        hd + FilterOut(a[1..] + b, p);
        { FilterOutAppend(a[1..], b, p); }
        hd + (FilterOut(a[1..], p) + FilterOut(b, p));
        (hd + FilterOut(a[1..], p)) + FilterOut(b, p);
      }
    }
  }

  /** Filtering out by `p` and then by `q` is filtering out by "p or q". */
  lemma {:induction false} FilterOutTwice<T>(s: seq<T>, p: T -> bool, q: T -> bool, pq: T -> bool)
    requires forall x :: pq(x) == (p(x) || q(x))
    ensures FilterOut(FilterOut(s, p), q) == FilterOut(s, pq)
    decreases |s|
  {
    if s != [] {
      FilterOutTwice(s[1..], p, q, pq);
      var once := FilterOut(s, p);
      if p(s[0]) {
        assert once == FilterOut(s[1..], p);
      } else {
        assert once == [s[0]] + FilterOut(s[1..], p);
        assert once[1..] == FilterOut(s[1..], p);
      }
    }
  }

  /** Filtering out by a test that every element passes leaves nothing. */
  lemma {:induction false} FilterOutAll<T>(s: seq<T>, p: T -> bool)
    requires forall i :: 0 <= i < |s| ==> p(s[i])
    ensures FilterOut(s, p) == []
    decreases |s|
  {
    if s != [] {
      FilterOutAll(s[1..], p);
    }
  }

  /** Filtering out by a test that no element passes keeps everything. */
  lemma {:induction false} FilterOutNone<T>(s: seq<T>, p: T -> bool)
    requires forall i :: 0 <= i < |s| ==> !p(s[i])
    ensures FilterOut(s, p) == s
    ensures Filter(s, p) == []
    decreases |s|
  {
    if s != [] {
      FilterOutNone(s[1..], p);
    }
  }

  /** One step of a loop that filters a sequence element by element. */
  lemma FilterStep<T>(done: seq<T>, x: T, p: T -> bool)
    ensures Filter(done + [x], p) == Filter(done, p) + (if p(x) then [x] else [])
    ensures FilterOut(done + [x], p) == FilterOut(done, p) + (if p(x) then [] else [x])
  {
    FilterAppend(done, [x], p);
    FilterOutAppend(done, [x], p);
    assert Filter([x], p) == (if p(x) then [x] else []) + Filter([], p);
    assert FilterOut([x], p) == (if p(x) then [] else [x]) + FilterOut([], p);
  }

  /** Splitting a pool by a test loses and duplicates no tty. */
  lemma {:induction false} FilterConserves(s: seq<SerialPort>, p: SerialPort -> bool)
    ensures multiset(TtysOf(Filter(s, p))) + multiset(TtysOf(FilterOut(s, p))) == multiset(TtysOf(s))
    decreases |s|
  {
    if s != [] {
      var rest := s[1..];
      FilterConserves(rest, p);
      var f, g := Filter(rest, p), FilterOut(rest, p);
      var t := TtyOf(s[0]);
      assert TtysOf(s) == [t] + TtysOf(rest);
      if p(s[0]) {
        assert Filter(s, p) == [s[0]] + f;
        assert FilterOut(s, p) == g;
        assert TtysOf([s[0]] + f) == [t] + TtysOf(f);
      } else {
        assert Filter(s, p) == f;
        assert FilterOut(s, p) == [s[0]] + g;
        assert TtysOf([s[0]] + g) == [t] + TtysOf(g);
      }
    }
  }

  // ---------------------------------------------------------------- subsequences

  /** `a` is `b` with some elements left out, the rest in their order. */
  predicate SubseqOf<T(==)>(a: seq<T>, b: seq<T>)
    decreases |b|
  {
    a == [] || (b != [] && ((a[0] == b[0] && SubseqOf(a[1..], b[1..])) || SubseqOf(a, b[1..])))
  }

  lemma {:induction false} SubseqRefl<T>(a: seq<T>)
    ensures SubseqOf(a, a)
    decreases |a|
  {
    if a != [] {
      SubseqRefl(a[1..]);
    }
  }

  lemma {:induction false} SubseqTrans<T>(a: seq<T>, b: seq<T>, c: seq<T>)
    requires SubseqOf(a, b) && SubseqOf(b, c)
    ensures SubseqOf(a, c)
    decreases |c|
  {
    if a != [] {
      assert b != [] && c != [];
      if SubseqOf(b, c[1..]) {
        SubseqTrans(a, b, c[1..]);
      } else {
        assert b[0] == c[0] && SubseqOf(b[1..], c[1..]);
        if a[0] == b[0] && SubseqOf(a[1..], b[1..]) {
          SubseqTrans(a[1..], b[1..], c[1..]);
        } else {
          SubseqTrans(a, b[1..], c[1..]);
        }
      }
    }
  }

  /** The prefix of length `k + 1` is the prefix of length `k` and the element at `k`. */
  lemma TakeSnoc<T>(s: seq<T>, k: nat)
    requires k < |s|
    ensures s[..k + 1] == s[..k] + [s[k]]
  {
  }

  /** A subsequence stays one when the longer sequence grows at its end. */
  lemma {:induction false} SubseqSnocRight<T>(a: seq<T>, b: seq<T>, x: T)
    requires SubseqOf(a, b)
    ensures SubseqOf(a, b + [x])
    decreases |b|
  {
    if a != [] {
      assert b != [] && (b + [x])[1..] == b[1..] + [x];
      if SubseqOf(a, b[1..]) {
        SubseqSnocRight(a, b[1..], x);
      } else {
        SubseqSnocRight(a[1..], b[1..], x);
      }
    }
  }

  /** Appending the same element to both sides keeps a subsequence. */
  lemma {:induction false} SubseqSnoc<T>(a: seq<T>, b: seq<T>, x: T)
    requires SubseqOf(a, b)
    ensures SubseqOf(a + [x], b + [x])
    decreases |b|
  {
    if b == [] {
      assert a == [];
      assert a + [x] == b + [x];
      SubseqRefl([x]);
    } else if a == [] {
      assert (b + [x])[1..] == b[1..] + [x];
      SubseqSnoc(a, b[1..], x);
      assert a + [x] == [x];
    } else {
      assert (b + [x])[1..] == b[1..] + [x];
      assert (a + [x])[1..] == a[1..] + [x];
      if SubseqOf(a, b[1..]) {
        SubseqSnoc(a, b[1..], x);
      } else {
        SubseqSnoc(a[1..], b[1..], x);
      }
    }
  }

  lemma {:induction false} FilterIsSubseq<T>(s: seq<T>, p: T -> bool)
    ensures SubseqOf(Filter(s, p), s)
    ensures SubseqOf(FilterOut(s, p), s)
    decreases |s|
  {
    if s != [] {
      FilterIsSubseq(s[1..], p);
      var f := Filter(s, p);
      var g := FilterOut(s, p);
      if p(s[0]) {
        assert f[0] == s[0] && f[1..] == Filter(s[1..], p);
        assert g == FilterOut(s[1..], p);
      } else {
        assert g[0] == s[0] && g[1..] == FilterOut(s[1..], p);
        assert f == Filter(s[1..], p);
      }
    }
  }

  // ---------------------------------------------------------------- the mount table

  /** `allMounts[part.device] = part.mountpoint` over the partitions, later entries winning. */
  function MountTable(parts: seq<Partition>): (m: map<string, string>)
    ensures forall d :: d in m <==> exists i :: 0 <= i < |parts| && parts[i].device == d
  {
    if parts == [] then map[]
    else
      var last := parts[|parts| - 1];
      var m0 := MountTable(parts[..|parts| - 1]);
      assert forall i :: 0 <= i < |parts| - 1 ==> parts[..|parts| - 1][i] == parts[i];
      m0[last.device := last.mountpoint]
  }

  /** A device path maps to the mount point of the last partition that names it. */
  lemma {:induction false} MountTableLastWins(parts: seq<Partition>, i: nat)
    requires i < |parts|
    requires forall j :: i < j < |parts| ==> parts[j].device != parts[i].device
    ensures parts[i].device in MountTable(parts)
    ensures MountTable(parts)[parts[i].device] == parts[i].mountpoint
    decreases |parts|
  {
    if i < |parts| - 1 {
      var init := parts[..|parts| - 1];
      assert init[i] == parts[i];
      MountTableLastWins(init, i);
    }
  }

  /** The partition loop of the macOS and Linux providers. */
  method BuildMountTable(parts: seq<Partition>) returns (allMounts: map<string, string>)
    ensures allMounts == MountTable(parts)
  {
    allMounts := map[];
    for i := 0 to |parts|
      invariant allMounts == MountTable(parts[..i])
    {
      assert parts[..i + 1][..i] == parts[..i];
      allMounts := allMounts[parts[i].device := parts[i].mountpoint];
    }
    assert parts[..|parts|] == parts;
  }
}
