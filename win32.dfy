/**
 * The Windows provider. Every identified serial port's serial number, followed by the
 * serial number of every USB disk drive, is a candidate. A candidate claims every pool
 * port with that serial number; when it claimed one it becomes a record, named after the
 * last claimed port's description, and collects the removable volumes of the USB disks
 * with the same serial number.
 */
module UsbinfosWin32 {
  import opened Wrappers
  import opened Text
  import opened Records
  import opened UsbinfosCommon

  // ---------------------------------------------------------------- filter_port_description

  /** The text before the first newline: what `.` can match in a regular expression. */
  function FirstLine(s: string): (l: string)
    ensures StartsWith(s, l)
    ensures forall i :: 0 <= i < |l| ==> l[i] != '\n'
    ensures |l| < |s| ==> s[|l|] == '\n'
  {
    if s == [] || s[0] == '\n' then [] else [s[0]] + FirstLine(s[1..])
  }

  /** The index of the last `c` in `s`. */
  function LastIndexOf(s: string, c: char): (r: Option<nat>)
    ensures r.Some? ==> r.value < |s| && s[r.value] == c && forall i :: r.value < i < |s| ==> s[i] != c
    ensures r.None? ==> forall i :: 0 <= i < |s| ==> s[i] != c
  {
    if s == [] then None
    else if s[|s| - 1] == c then Some(|s| - 1)
    else LastIndexOf(s[..|s| - 1], c)
  }

  /** Two `%` signs at `a` and `b` with at least one character between them, as `%(.+)%` needs. */
  predicate PercentPair(line: string, a: int, b: int) {
    0 <= a && a + 2 <= b < |line| && line[a] == '%' && line[b] == '%'
  }

  /** The `%` pair that `re.match(".*%(.+)%.*", ...)` settles on within one line. */
  function GreedyGroup(line: string): Option<(nat, nat)> {
    match LastIndexOf(line, '%')
    case None => None
    case Some(b) =>
      if b < 2 then None
      else
        match LastIndexOf(line[..b - 1], '%')
        case None => None
        case Some(a) => Some((a, b))
  }

  /**
   * The regular expression matches iff the line has a `%` pair, and the greedy `.*` and `.+`
   * pick the pair that lies furthest right in both ends.
   */
  lemma GreedyGroupIsRegexMatch(line: string)
    ensures GreedyGroup(line).None? <==> forall a, b :: !PercentPair(line, a, b)
    ensures GreedyGroup(line).Some? ==>
      && PercentPair(line, GreedyGroup(line).value.0, GreedyGroup(line).value.1)
      && forall a, b :: PercentPair(line, a, b) ==> a <= GreedyGroup(line).value.0 && b <= GreedyGroup(line).value.1
  {
    var last := LastIndexOf(line, '%');
    if last.Some? && last.value >= 2 {
      var b := last.value;
      var head := line[..b - 1];
      var first := LastIndexOf(head, '%');
      forall a', b' | PercentPair(line, a', b')
        ensures first.Some? && a' <= first.value && b' <= b
      {
        assert head[a'] == '%';
      }
      if first.Some? {
        assert head[first.value] == line[first.value];
        assert PercentPair(line, first.value, b);
      }
    }
  }

  /** `filter_port_description(description)` */
  function FilterPortDescription(description: string): (r: string)
    ensures forall i :: 0 <= i < |r| ==> r[i] != '_'
    ensures Title(r) == r
    ensures GreedyGroup(FirstLine(description)).None? ==> r == Title(ReplaceChar(description, '_', ' '))
    ensures GreedyGroup(FirstLine(description)).Some? ==>
      var (a, b) := GreedyGroup(FirstLine(description)).value;
      r == Title(ReplaceChar(FirstLine(description)[a + 1..b], '_', ' '))
  {
    var line := FirstLine(description);
    var name := match GreedyGroup(line)
      case None => description
      case Some((a, b)) => line[a + 1..b];
    var spaced := ReplaceChar(name, '_', ' ');
    TitleIdempotent(spaced);
    Title(spaced)
  }

  // ---------------------------------------------------------------- disks

  /** A `Win32_LogicalDisk`; DriveType 2 is a removable disk. */
  datatype LogicalDisk = LogicalDisk(driveType: int, deviceId: string)

  /** A `Win32_DiskDrive` with the logical disks of each of its partitions. */
  datatype DiskDrive = DiskDrive(interfaceType: string, serialNumber: Option<string>, caption: string, partitions: seq<seq<LogicalDisk>>)

  /** An `allMounts` entry: a USB disk and its removable logical disks. */
  datatype DiskMount = DiskMount(disk: DiskDrive, volumes: seq<LogicalDisk>)

  function IsRemovable(l: LogicalDisk): bool {
    l.driveType == 2
  }

  /** The removable logical disks of the partitions, in order. */
  function Removable(ps: seq<seq<LogicalDisk>>): (r: seq<LogicalDisk>)
    ensures forall l :: l in r ==> l.driveType == 2
  {
    if ps == [] then []
    else
      var last := ps[|ps| - 1];
      FilterMembers(last, IsRemovable);
      Removable(ps[..|ps| - 1]) + Filter(last, IsRemovable)
  }

  /** Every removable logical disk of the partitions is listed. */
  lemma {:induction false} RemovableComplete(ps: seq<seq<LogicalDisk>>, k: nat, l: LogicalDisk)
    requires k < |ps| && l in ps[k] && l.driveType == 2
    ensures l in Removable(ps)
    decreases |ps|
  {
    FilterMembers(ps[|ps| - 1], IsRemovable);
    if k < |ps| - 1 {
      assert ps[..|ps| - 1][k] == ps[k];
      RemovableComplete(ps[..|ps| - 1], k, l);
    }
  }

  function IsUsbDisk(d: DiskDrive): bool {
    d.interfaceType == "USB"
  }

  /** The disk loop: the USB disks with their removable volumes, and their serials appended to `serials`. */
  function ScanDisks(disks: seq<DiskDrive>, serials: seq<Option<string>>): (r: (seq<DiskMount>, seq<Option<string>>))
    ensures |serials| <= |r.1| && r.1[..|serials|] == serials
    ensures forall m :: m in r.0 ==> m.disk in disks && m.disk.interfaceType == "USB" && m.volumes == Removable(m.disk.partitions)
  {
    if disks == [] then ([], serials)
    else
      var (mounts, sns) := ScanDisks(disks[..|disks| - 1], serials);
      var d := disks[|disks| - 1];
      if d.interfaceType != "USB" then (mounts, sns)
      else (mounts + [DiskMount(d, Removable(d.partitions))], sns + [d.serialNumber])
  }

  /** One mount per disk of `usb`, in order, each with its removable volumes. */
  predicate MountsOf(ms: seq<DiskMount>, usb: seq<DiskDrive>) {
    |ms| == |usb| && forall i :: 0 <= i < |usb| ==> ms[i] == DiskMount(usb[i], Removable(usb[i].partitions))
  }

  /** `serials` followed by the serial numbers of the disks of `usb`, in order. */
  predicate SerialsOf(sns: seq<Option<string>>, serials: seq<Option<string>>, usb: seq<DiskDrive>) {
    && |sns| == |serials| + |usb|
    && sns[..|serials|] == serials
    && forall i :: 0 <= i < |usb| ==> sns[|serials| + i] == usb[i].serialNumber
  }

  lemma MountsOfSnoc(ms: seq<DiskMount>, usb: seq<DiskDrive>, d: DiskDrive)
    requires MountsOf(ms, usb)
    ensures MountsOf(ms + [DiskMount(d, Removable(d.partitions))], usb + [d])
  {
    var usb' := usb + [d];
    forall i | 0 <= i < |usb'|
      ensures (ms + [DiskMount(d, Removable(d.partitions))])[i] == DiskMount(usb'[i], Removable(usb'[i].partitions))
    {
      if i < |usb| {
        assert usb'[i] == usb[i];
      }
    }
  }

  lemma SerialsOfSnoc(sns: seq<Option<string>>, serials: seq<Option<string>>, usb: seq<DiskDrive>, d: DiskDrive)
    requires SerialsOf(sns, serials, usb)
    ensures SerialsOf(sns + [d.serialNumber], serials, usb + [d])
  {
    var sns' := sns + [d.serialNumber];
    var usb' := usb + [d];
    assert sns'[..|serials|] == sns[..|serials|];
    forall i | 0 <= i < |usb'|
      ensures sns'[|serials| + i] == usb'[i].serialNumber
    {
      if i < |usb| {
        assert usb'[i] == usb[i];
      }
    }
  }

  /**
   * The disk loop makes one mount per USB disk, in disk order, and the candidates are the
   * port serials in pool order followed by the USB disks' serial numbers in that order.
   */
  lemma {:induction false} ScanDisksExact(disks: seq<DiskDrive>, serials: seq<Option<string>>)
    ensures MountsOf(ScanDisks(disks, serials).0, Filter(disks, IsUsbDisk))
    ensures SerialsOf(ScanDisks(disks, serials).1, serials, Filter(disks, IsUsbDisk))
    decreases |disks|
  {
    if disks == [] {
      assert serials[..|serials|] == serials;
    } else {
      var n := |disks| - 1;
      var d := disks[n];
      ScanDisksExact(disks[..n], serials);
      assert disks[..n] + [d] == disks;
      FilterStep(disks[..n], d, IsUsbDisk);
      var (ms, sns) := ScanDisks(disks[..n], serials);
      if d.interfaceType == "USB" {
        MountsOfSnoc(ms, Filter(disks[..n], IsUsbDisk), d);
        SerialsOfSnoc(sns, serials, Filter(disks[..n], IsUsbDisk), d);
      }
    }
  }

  // ---------------------------------------------------------------- the candidate loop

  /** The test "this port's serial number is `sn`". */
  function SerialIs(sn: Option<string>): SerialPort -> bool {
    (p: SerialPort) => p.serialNumber == sn
  }

  /** The test "this port's serial number is one of `sns`". */
  function SerialIn(sns: seq<Option<string>>): SerialPort -> bool {
    (p: SerialPort) => p.serialNumber in sns
  }

  /** `[{"serial_number": x.serial_number} for x in remainingPorts]` */
  function PortSerials(ports: seq<SerialPort>): (r: seq<Option<string>>)
    ensures |r| == |ports|
    ensures forall i :: 0 <= i < |ports| ==> r[i] == ports[i].serialNumber
  {
    if ports == [] then [] else [ports[0].serialNumber] + PortSerials(ports[1..])
  }

  /** Name, volumes and version gathered over the disks for one candidate. */
  datatype MountAcc = MountAcc(name: string, volumes: seq<Volume>, version: string)

  /** The volume `get_cp_drive_info` makes of a logical disk: mounted at its drive root, unnamed. */
  function VolumeAt(l: LogicalDisk, drives: Drives): Volume {
    Volume(Some(l.deviceId + "\\"), None, DriveInfo(l.deviceId, drives).0)
  }

  function VolumeStep(l: LogicalDisk, acc: MountAcc, drives: Drives): MountAcc {
    acc.(volumes := acc.volumes + [VolumeAt(l, drives)], version := DriveInfo(l.deviceId, drives).1)
  }

  function ScanVolumes(vs: seq<LogicalDisk>, acc: MountAcc, drives: Drives): MountAcc
  {
    if vs == [] then acc else VolumeStep(vs[|vs| - 1], ScanVolumes(vs[..|vs| - 1], acc, drives), drives)
  }

  function MountStep(m: DiskMount, sn: Option<string>, acc: MountAcc, drives: Drives): MountAcc {
    if m.disk.serialNumber != sn then acc
    else ScanVolumes(m.volumes, acc.(name := if acc.name == "" then m.disk.caption else acc.name), drives)
  }

  function ScanMounts(ms: seq<DiskMount>, sn: Option<string>, acc: MountAcc, drives: Drives): MountAcc
  {
    if ms == [] then acc else MountStep(ms[|ms| - 1], sn, ScanMounts(ms[..|ms| - 1], sn, acc, drives), drives)
  }

  /** The candidate loop's state: the records so far and the pool. */
  datatype WinState = WinState(list: seq<Device>, pool: seq<SerialPort>)

  /** The record a candidate makes from the ports it claimed (the pool's ports all have a USB id). */
  function RecordOf(sn: Option<string>, claimed: seq<SerialPort>, ms: seq<DiskMount>, drives: Drives): Device
    requires claimed != []
  {
    var last := Last(claimed);
    var id := last.hwid.GetOr(UsbId(0, 0));
    var acc := ScanMounts(ms, sn, MountAcc(FilterPortDescription(last.description), [], ""), drives);
    Device(acc.name, id.vid, id.pid, sn, last.manufacturer, TtysOf(claimed), acc.volumes, acc.version)
  }

  /** The pool ports a candidate claims. */
  function ClaimedBy(sn: Option<string>, pool: seq<SerialPort>): seq<SerialPort> {
    Filter(pool, SerialIs(sn))
  }

  /** The pool ports a candidate leaves in the pool. */
  function LeftBy(sn: Option<string>, pool: seq<SerialPort>): seq<SerialPort> {
    FilterOut(pool, SerialIs(sn))
  }

  function WinStep(sn: Option<string>, st: WinState, ms: seq<DiskMount>, drives: Drives): WinState {
    var claimed := ClaimedBy(sn, st.pool);
    var rest := LeftBy(sn, st.pool);
    if claimed == [] then WinState(st.list, rest)
    else WinState(st.list + [RecordOf(sn, claimed, ms, drives)], rest)
  }

  function WinScan(cands: seq<Option<string>>, st: WinState, ms: seq<DiskMount>, drives: Drives): WinState
  {
    if cands == [] then st else WinStep(cands[|cands| - 1], WinScan(cands[..|cands| - 1], st, ms, drives), ms, drives)
  }

  /** What `get_devices_list` returns: the records and the ports left in the pool. */
  function DevicesList(comports: seq<SerialPort>, disks: seq<DiskDrive>, drives: Drives): (seq<Device>, seq<SerialPort>) {
    var pool := Identified(comports);
    var (ms, cands) := ScanDisks(disks, PortSerials(pool));
    var st := WinScan(cands, WinState([], pool), ms, drives);
    (st.list, st.pool)
  }

  // ---------------------------------------------------------------- the loops

  /** `[port for port in remainingPorts if port != None]` */
  function Somes<T>(slots: seq<Option<T>>): seq<T>
  {
    if slots == [] then []
    else Somes(slots[..|slots| - 1]) + (if slots[|slots| - 1].Some? then [slots[|slots| - 1].value] else [])
  }

  /** A pool slot once the loop has (`done`) or has not yet visited it: cleared iff the port was claimed. */
  function Cleared<T>(port: T, p: T -> bool, done: bool): Option<T> {
    if done && p(port) then None else Some(port)
  }

  /** Dropping the cleared slots leaves the unclaimed ports, in order. */
  lemma {:induction false} SomesOfCleared<T>(ports: seq<T>, slots: seq<Option<T>>, p: T -> bool)
    requires |slots| == |ports|
    requires forall i :: 0 <= i < |slots| ==> slots[i] == Cleared(ports[i], p, true)
    ensures Somes(slots) == FilterOut(ports, p)
    decreases |ports|
  {
    if ports != [] {
      var n := |ports| - 1;
      SomesOfCleared(ports[..n], slots[..n], p);
      FilterStep(ports[..n], ports[n], p);
      assert ports[..n] + [ports[n]] == ports;
    }
  }

  /** `[Some(p) for p in ports]`: the pool as a list whose slots can be cleared. */
  function Slots<T>(ports: seq<T>): (r: seq<Option<T>>)
    ensures |r| == |ports|
    ensures forall i :: 0 <= i < |ports| ==> r[i] == Some(ports[i])
  {
    if ports == [] then [] else [Some(ports[0])] + Slots(ports[1..])
  }

  /** The last claimed port's fields, as the loop leaves them. */
  datatype PortFields = PortFields(vid: int, pid: int, name: string, manufacturer: string)

  function FieldsOf(p: SerialPort): PortFields {
    var id := p.hwid.GetOr(UsbId(0, 0));
    PortFields(id.vid, id.pid, FilterPortDescription(p.description), p.manufacturer)
  }

  /** The fields of the last claimed port, None when nothing was claimed (the source's `vid == "0"`). */
  function LastFields(claimed: seq<SerialPort>): (r: Option<PortFields>)
    ensures r.None? <==> claimed == []
  {
    if claimed == [] then None else Some(FieldsOf(Last(claimed)))
  }

  /** One visited port: claimed and remembered when its serial number matches, skipped otherwise. */
  lemma ClaimSerialStep(done: seq<SerialPort>, port: SerialPort, sn: Option<string>)
    ensures port.serialNumber == sn ==>
      && Filter(done + [port], SerialIs(sn)) == Filter(done, SerialIs(sn)) + [port]
      && TtysOf(Filter(done + [port], SerialIs(sn))) == TtysOf(Filter(done, SerialIs(sn))) + [TtyOf(port)]
      && Last(Filter(done + [port], SerialIs(sn))) == port
    ensures port.serialNumber != sn ==> Filter(done + [port], SerialIs(sn)) == Filter(done, SerialIs(sn))
  {
    FilterStep(done, port, SerialIs(sn));
    TtysOfAppend(Filter(done, SerialIs(sn)), [port]);
  }

  /**
   * The claim loop for one candidate: a matching port's slot is cleared, then the cleared
   * slots are dropped. `fields` is None when nothing matched (the source's `vid == "0"`);
   * otherwise it holds what the last match assigned, computed once from that port.
   */
  method ClaimSerial(sn: Option<string>, remainingPorts: seq<SerialPort>)
    returns (ttys: seq<Tty>, fields: Option<PortFields>, rest: seq<SerialPort>)
    ensures ttys == TtysOf(Filter(remainingPorts, SerialIs(sn)))
    ensures rest == FilterOut(remainingPorts, SerialIs(sn))
    ensures fields == LastFields(Filter(remainingPorts, SerialIs(sn)))
  {
    ghost var isSn := SerialIs(sn);
    ghost var claimed: seq<SerialPort> := [];
    var slots := Slots(remainingPorts);
    var lastPort: Option<SerialPort> := None;
    ttys := [];
    for x := 0 to |slots|
      invariant |slots| == |remainingPorts|
      invariant forall i :: 0 <= i < |slots| ==> slots[i] == Cleared(remainingPorts[i], isSn, i < x)
      invariant claimed == Filter(remainingPorts[..x], isSn)
      invariant ttys == TtysOf(claimed)
      invariant lastPort.None? <==> claimed == []
      invariant lastPort.Some? ==> lastPort.value == Last(claimed)
    {
      var port := slots[x].value;
      assert port == remainingPorts[x];
      TakeSnoc(remainingPorts, x);
      ClaimSerialStep(remainingPorts[..x], port, sn);
      if port.serialNumber == sn {
        lastPort := Some(port);
        ttys := ttys + [TtyOf(port)];
        claimed := claimed + [port];
        slots := slots[x := None];
      }
    }
    assert remainingPorts[..|slots|] == remainingPorts;
    SomesOfCleared(remainingPorts, slots, isSn);
    rest := Somes(slots);
    fields := if lastPort.Some? then Some(FieldsOf(lastPort.value)) else None;
  }

  /** The volume loop for one candidate over `allMounts`; the caption names a still unnamed device. */
  method CollectVolumes(allMounts: seq<DiskMount>, sn: Option<string>, name: string, drives: Drives)
    returns (deviceVolumes: seq<Volume>, version: string, name': string)
    ensures MountAcc(name', deviceVolumes, version) == ScanMounts(allMounts, sn, MountAcc(name, [], ""), drives)
  {
    deviceVolumes, version, name' := [], "", name;
    for i := 0 to |allMounts|
      invariant MountAcc(name', deviceVolumes, version) == ScanMounts(allMounts[..i], sn, MountAcc(name, [], ""), drives)
    {
      assert allMounts[..i + 1][..i] == allMounts[..i];
      var mount := allMounts[i];
      if mount.disk.serialNumber == sn {
        if name' == "" {
          name' := mount.disk.caption;
        }
        deviceVolumes, version := AddDiskVolumes(mount.volumes, MountAcc(name', deviceVolumes, version), drives);
      }
    }
    assert allMounts[..|allMounts|] == allMounts;
  }

  /** The inner loop of the volume loop: one volume per logical disk of a matching disk. */
  method AddDiskVolumes(vs: seq<LogicalDisk>, acc: MountAcc, drives: Drives) returns (deviceVolumes: seq<Volume>, version: string)
    ensures MountAcc(acc.name, deviceVolumes, version) == ScanVolumes(vs, acc, drives)
  {
    deviceVolumes, version := acc.volumes, acc.version;
    for k := 0 to |vs|
      invariant MountAcc(acc.name, deviceVolumes, version) == ScanVolumes(vs[..k], acc, drives)
    {
      assert vs[..k + 1][..k] == vs[..k];
      var volume := vs[k].deviceId;
      var mains;
      mains, version := GetCpDriveInfo(volume, drives);
      deviceVolumes := deviceVolumes + [Volume(Some(volume + "\\"), None, mains)];
    }
    assert vs[..|vs|] == vs;
  }

  /** The removable logical disks of one disk drive, partition by partition. */
  method RemovableVolumes(disk: DiskDrive) returns (volumes: seq<LogicalDisk>)
    ensures volumes == Removable(disk.partitions)
  {
    volumes := [];
    for i := 0 to |disk.partitions|
      invariant volumes == Removable(disk.partitions[..i])
    {
      assert disk.partitions[..i + 1][..i] == disk.partitions[..i];
      var partition := disk.partitions[i];
      ghost var before := volumes;
      for k := 0 to |partition|
        invariant volumes == before + Filter(partition[..k], IsRemovable)
      {
        assert partition[..k + 1] == partition[..k] + [partition[k]];
        FilterStep(partition[..k], partition[k], IsRemovable);
        if partition[k].driveType == 2 {
          volumes := volumes + [partition[k]];
        }
      }
      assert partition[..|partition|] == partition;
    }
    assert disk.partitions[..|disk.partitions|] == disk.partitions;
  }

  /** `get_devices_list()` over the ports and the disk drives. */
  method GetDevicesList(comports: seq<SerialPort>, disks: seq<DiskDrive>, drives: Drives)
    returns (deviceList: seq<Device>, remainingPorts: seq<SerialPort>)
    ensures (deviceList, remainingPorts) == DevicesList(comports, disks, drives)
  {
    remainingPorts := Identified(comports);
    deviceList := [];
    var serialNumbers := PortSerials(remainingPorts);
    var allMounts: seq<DiskMount> := [];
    for i := 0 to |disks|
      invariant (allMounts, serialNumbers) == ScanDisks(disks[..i], PortSerials(remainingPorts))
    {
      assert disks[..i + 1][..i] == disks[..i];
      var physicalDisk := disks[i];
      if physicalDisk.interfaceType != "USB" {
        continue;
      }
      var volumes := RemovableVolumes(physicalDisk);
      allMounts := allMounts + [DiskMount(physicalDisk, volumes)];
      serialNumbers := serialNumbers + [physicalDisk.serialNumber];
    }
    assert disks[..|disks|] == disks;
    var devices := serialNumbers;
    for i := 0 to |devices|
      invariant WinState(deviceList, remainingPorts) == WinScan(devices[..i], WinState([], Identified(comports)), allMounts, drives)
    {
      assert devices[..i + 1][..i] == devices[..i];
      var sn := devices[i];
      var ttys, fields, rest := ClaimSerial(sn, remainingPorts);
      remainingPorts := rest;
      if fields.None? {
        continue;
      }
      var deviceVolumes, version, name := CollectVolumes(allMounts, sn, fields.value.name, drives);
      deviceList := deviceList + [Device(name, fields.value.vid, fields.value.pid, sn, fields.value.manufacturer, ttys, deviceVolumes, version)];
    }
    assert devices[..|devices|] == devices;
  }

  // ---------------------------------------------------------------- properties

  /** After the candidates in `cands`, the pool holds exactly the ports whose serial number is none of them. */
  lemma {:induction false} WinScanPool(cands: seq<Option<string>>, st: WinState, ms: seq<DiskMount>, drives: Drives)
    ensures WinScan(cands, st, ms, drives).pool == FilterOut(st.pool, SerialIn(cands))
    decreases |cands|
  {
    if cands == [] {
      FilterOutNone(st.pool, SerialIn(cands));
    } else {
      var n := |cands| - 1;
      WinScanPool(cands[..n], st, ms, drives);
      assert cands == cands[..n] + [cands[n]];
      FilterOutTwice(st.pool, SerialIn(cands[..n]), SerialIs(cands[n]), SerialIn(cands));
    }
  }

  /** Every identified port is claimed: its own serial number is one of the candidates. */
  lemma PoolEmptied(comports: seq<SerialPort>, disks: seq<DiskDrive>, drives: Drives)
    ensures DevicesList(comports, disks, drives).1 == []
  {
    var pool := Identified(comports);
    var (ms, cands) := ScanDisks(disks, PortSerials(pool));
    WinScanPool(cands, WinState([], pool), ms, drives);
    forall i | 0 <= i < |pool|
      ensures SerialIn(cands)(pool[i])
    {
      assert cands[i] == PortSerials(pool)[i];
    }
    FilterOutAll(pool, SerialIn(cands));
  }

  /** A candidate step moves the ports it claims from the pool to its record. */
  lemma WinStepMoves(sn: Option<string>, st: WinState, ms: seq<DiskMount>, drives: Drives)
    ensures WinStep(sn, st, ms, drives).pool == LeftBy(sn, st.pool)
    ensures AllTtys(WinStep(sn, st, ms, drives).list) == AllTtys(st.list) + TtysOf(ClaimedBy(sn, st.pool))
  {
    var claimed := ClaimedBy(sn, st.pool);
    if claimed == [] {
      assert AllTtys(st.list) + TtysOf(claimed) == AllTtys(st.list);
    } else {
      var d := RecordOf(sn, claimed, ms, drives);
      AllTtysAppend(st.list, [d]);
      assert AllTtys([d]) == TtysOf(claimed) + AllTtys([]);
    }
  }

  /** No candidate step loses or duplicates a tty: records plus pool keep the same ttys. */
  lemma WinStepConserves(sn: Option<string>, st: WinState, ms: seq<DiskMount>, drives: Drives)
    ensures var st' := WinStep(sn, st, ms, drives);
      multiset(AllTtys(st'.list)) + multiset(TtysOf(st'.pool)) == multiset(AllTtys(st.list)) + multiset(TtysOf(st.pool))
  {
    var claimed := ClaimedBy(sn, st.pool);
    var rest := LeftBy(sn, st.pool);
    FilterConserves(st.pool, SerialIs(sn));
    WinStepMoves(sn, st, ms, drives);
    var st' := WinStep(sn, st, ms, drives);
    calc {
      multiset(AllTtys(st'.list)) + multiset(TtysOf(st'.pool));
      multiset(AllTtys(st.list) + TtysOf(claimed)) + multiset(TtysOf(rest));
      multiset(AllTtys(st.list)) + (multiset(TtysOf(claimed)) + multiset(TtysOf(rest)));
      multiset(AllTtys(st.list)) + multiset(TtysOf(st.pool));
    }
  }

  lemma {:induction false} WinScanConserves(cands: seq<Option<string>>, st: WinState, ms: seq<DiskMount>, drives: Drives)
    ensures var st' := WinScan(cands, st, ms, drives);
      multiset(AllTtys(st'.list)) + multiset(TtysOf(st'.pool)) == multiset(AllTtys(st.list)) + multiset(TtysOf(st.pool))
    decreases |cands|
  {
    if cands != [] {
      var n := |cands| - 1;
      WinScanConserves(cands[..n], st, ms, drives);
      WinStepConserves(cands[n], WinScan(cands[..n], st, ms, drives), ms, drives);
    }
  }

  /** The records hold every identified port's tty, each exactly once. */
  lemma DevicesListConserves(comports: seq<SerialPort>, disks: seq<DiskDrive>, drives: Drives)
    ensures multiset(AllTtys(DevicesList(comports, disks, drives).0)) == multiset(TtysOf(Identified(comports)))
  {
    var pool := Identified(comports);
    var (ms, cands) := ScanDisks(disks, PortSerials(pool));
    var st := WinScan(cands, WinState([], pool), ms, drives);
    WinScanConserves(cands, WinState([], pool), ms, drives);
    PoolEmptied(comports, disks, drives);
    assert st.pool == [] && TtysOf(st.pool) == [];
    assert AllTtys([]) == [];
    calc {
      multiset(AllTtys(st.list));
      multiset(AllTtys(st.list)) + multiset(TtysOf(st.pool));
      multiset(AllTtys([])) + multiset(TtysOf(pool));
      multiset(TtysOf(pool));
    }
  }

  /** Records have distinct serial numbers and at least one port; no pool port carries a record's serial number. */
  ghost predicate Apart(st: WinState) {
    && (forall i, j :: 0 <= i < j < |st.list| ==> st.list[i].serialNum != st.list[j].serialNum)
    && (forall i :: 0 <= i < |st.list| ==> st.list[i].ports != [])
    && (forall i, k :: 0 <= i < |st.list| && 0 <= k < |st.pool| ==> st.pool[k].serialNumber != st.list[i].serialNum)
  }

  lemma WinStepApart(sn: Option<string>, st: WinState, ms: seq<DiskMount>, drives: Drives)
    requires Apart(st)
    ensures Apart(WinStep(sn, st, ms, drives))
  {
    var claimed := Filter(st.pool, SerialIs(sn));
    var rest := FilterOut(st.pool, SerialIs(sn));
    FilterMembers(st.pool, SerialIs(sn));
    FilterOutMembers(st.pool, SerialIs(sn));
    var st' := WinStep(sn, st, ms, drives);
    if claimed != [] {
      var d := RecordOf(sn, claimed, ms, drives);
      assert d.serialNum == sn && |d.ports| == |claimed|;
      assert st'.list == st.list + [d];
    }
    forall i, k | 0 <= i < |st'.list| && 0 <= k < |rest|
      ensures rest[k].serialNumber != st'.list[i].serialNum
    {
      assert rest[k] in st.pool;
    }
    if claimed != [] {
      assert claimed[0] in st.pool;
      var k :| 0 <= k < |st.pool| && st.pool[k] == claimed[0];
      assert forall i :: 0 <= i < |st.list| ==> st.list[i].serialNum != sn;
    }
  }

  lemma {:induction false} WinScanApart(cands: seq<Option<string>>, st: WinState, ms: seq<DiskMount>, drives: Drives)
    requires Apart(st)
    ensures Apart(WinScan(cands, st, ms, drives))
    decreases |cands|
  {
    if cands != [] {
      var n := |cands| - 1;
      WinScanApart(cands[..n], st, ms, drives);
      WinStepApart(cands[n], WinScan(cands[..n], st, ms, drives), ms, drives);
    }
  }

  /**
   * A serial number shared by a port and a disk, or by two ports, makes one record:
   * the records' serial numbers are distinct and every record has a port.
   */
  lemma DevicesListApart(comports: seq<SerialPort>, disks: seq<DiskDrive>, drives: Drives)
    ensures var list := DevicesList(comports, disks, drives).0;
      && (forall i, j :: 0 <= i < j < |list| ==> list[i].serialNum != list[j].serialNum)
      && (forall i :: 0 <= i < |list| ==> list[i].ports != [])
  {
    var pool := Identified(comports);
    var (ms, cands) := ScanDisks(disks, PortSerials(pool));
    WinScanApart(cands, WinState([], pool), ms, drives);
  }

  /** Scanning volumes never renames the device. */
  lemma {:induction false} ScanVolumesKeepsName(vs: seq<LogicalDisk>, acc: MountAcc, drives: Drives)
    ensures ScanVolumes(vs, acc, drives).name == acc.name
    decreases |vs|
  {
    if vs != [] {
      ScanVolumesKeepsName(vs[..|vs| - 1], acc, drives);
    }
  }

  /** A disk's caption names the device only when the port description gave no name. */
  lemma {:induction false} ScanMountsKeepsName(ms: seq<DiskMount>, sn: Option<string>, acc: MountAcc, drives: Drives)
    requires acc.name != ""
    ensures ScanMounts(ms, sn, acc, drives).name == acc.name
    decreases |ms|
  {
    if ms != [] {
      var n := |ms| - 1;
      ScanMountsKeepsName(ms[..n], sn, acc, drives);
      var before := ScanMounts(ms[..n], sn, acc, drives);
      ScanVolumesKeepsName(ms[n].volumes, before, drives);
    }
  }

  /** With no matching disk the name stays the one the port description gave, possibly empty. */
  lemma {:induction false} ScanMountsNoMatch(ms: seq<DiskMount>, sn: Option<string>, acc: MountAcc, drives: Drives)
    requires forall i :: 0 <= i < |ms| ==> ms[i].disk.serialNumber != sn
    ensures ScanMounts(ms, sn, acc, drives) == acc
    decreases |ms|
  {
    if ms != [] {
      ScanMountsNoMatch(ms[..|ms| - 1], sn, acc, drives);
    }
  }

  /** A record is named after its last port's description whenever that gives a name. */
  lemma RecordKeepsPortName(sn: Option<string>, claimed: seq<SerialPort>, ms: seq<DiskMount>, drives: Drives)
    requires claimed != []
    requires FilterPortDescription(Last(claimed).description) != ""
    ensures RecordOf(sn, claimed, ms, drives).name == FilterPortDescription(Last(claimed).description)
  {
    ScanMountsKeepsName(ms, sn, MountAcc(FilterPortDescription(Last(claimed).description), [], ""), drives);
  }

  /** Every volume found is a removable logical disk of a matching disk, mounted at its drive root. */
  predicate VolumeOfDisk(v: Volume, ms: seq<DiskMount>, sn: Option<string>, drives: Drives) {
    exists i, k :: 0 <= i < |ms| && ms[i].disk.serialNumber == sn && 0 <= k < |ms[i].volumes|
      && v == VolumeAt(ms[i].volumes[k], drives)
  }

  /** `vols` is `base` followed by one volume per logical disk of `vs`, in order. */
  predicate Appended(vols: seq<Volume>, base: seq<Volume>, vs: seq<LogicalDisk>, drives: Drives) {
    && |vols| == |base| + |vs|
    && vols[..|base|] == base
    && forall k :: 0 <= k < |vs| ==> vols[|base| + k] == VolumeAt(vs[k], drives)
  }

  lemma AppendedSnoc(vols: seq<Volume>, base: seq<Volume>, vs: seq<LogicalDisk>, l: LogicalDisk, drives: Drives)
    requires Appended(vols, base, vs, drives)
    ensures Appended(vols + [VolumeAt(l, drives)], base, vs + [l], drives)
  {
    var vols' := vols + [VolumeAt(l, drives)];
    assert vols'[..|base|] == vols[..|base|];
    forall k | 0 <= k < |vs + [l]|
      ensures vols'[|base| + k] == VolumeAt((vs + [l])[k], drives)
    {
      if k < |vs| {
        assert (vs + [l])[k] == vs[k];
      }
    }
  }

  /** The volume loop appends exactly one volume per logical disk, in order. */
  lemma {:induction false} ScanVolumesFrom(vs: seq<LogicalDisk>, acc: MountAcc, drives: Drives)
    ensures Appended(ScanVolumes(vs, acc, drives).volumes, acc.volumes, vs, drives)
    decreases |vs|
  {
    if vs != [] {
      var n := |vs| - 1;
      ScanVolumesFrom(vs[..n], acc, drives);
      var r0 := ScanVolumes(vs[..n], acc, drives);
      ScanVolumesSnoc(vs, acc, drives);
      AppendedSnoc(r0.volumes, acc.volumes, vs[..n], vs[n], drives);
      assert vs[..n] + [vs[n]] == vs;
    } else {
      assert acc.volumes[..|acc.volumes|] == acc.volumes;
    }
  }

  /** One more logical disk appends its volume and sets the version from its drive. */
  lemma ScanVolumesSnoc(vs: seq<LogicalDisk>, acc: MountAcc, drives: Drives)
    requires vs != []
    ensures ScanVolumes(vs, acc, drives).volumes == ScanVolumes(vs[..|vs| - 1], acc, drives).volumes + [VolumeAt(Last(vs), drives)]
    ensures ScanVolumes(vs, acc, drives).version == DriveInfo(Last(vs).deviceId, drives).1
  {
  }

  /** Every removable logical disk of every disk with the candidate's serial number becomes a volume. */
  lemma {:induction false} ScanMountsComplete(ms: seq<DiskMount>, sn: Option<string>, acc: MountAcc, drives: Drives, i: nat, k: nat)
    requires i < |ms| && ms[i].disk.serialNumber == sn && k < |ms[i].volumes|
    ensures VolumeAt(ms[i].volumes[k], drives) in ScanMounts(ms, sn, acc, drives).volumes
    decreases |ms|
  {
    var n := |ms| - 1;
    var v := VolumeAt(ms[i].volumes[k], drives);
    var before := ScanMounts(ms[..n], sn, acc, drives);
    var r := ScanMounts(ms, sn, acc, drives);
    assert r == MountStep(ms[n], sn, before, drives);
    MountStepAppends(ms[n], sn, before, drives);
    if i == n {
      assert Appended(r.volumes, before.volumes, ms[n].volumes, drives);
      assert r.volumes[|before.volumes| + k] == v;
    } else {
      assert ms[..n][i] == ms[i];
      ScanMountsComplete(ms[..n], sn, acc, drives, i, k);
      var j :| 0 <= j < |before.volumes| && before.volumes[j] == v;
      if ms[n].disk.serialNumber == sn {
        assert Appended(r.volumes, before.volumes, ms[n].volumes, drives);
        assert r.volumes[j] == r.volumes[..|before.volumes|][j];
      }
    }
  }

  /** One disk step appends, for a matching disk, one volume per removable logical disk; another disk changes nothing. */
  lemma MountStepAppends(m: DiskMount, sn: Option<string>, acc: MountAcc, drives: Drives)
    ensures m.disk.serialNumber == sn ==> Appended(MountStep(m, sn, acc, drives).volumes, acc.volumes, m.volumes, drives)
    ensures m.disk.serialNumber != sn ==> MountStep(m, sn, acc, drives) == acc
  {
    if m.disk.serialNumber == sn {
      var named := acc.(name := if acc.name == "" then m.disk.caption else acc.name);
      assert MountStep(m, sn, acc, drives) == ScanVolumes(m.volumes, named, drives);
      ScanVolumesFrom(m.volumes, named, drives);
    }
  }

  /** Every volume a candidate collects is a removable logical disk of a disk with its serial number. */
  lemma {:induction false} ScanMountsVolumes(ms: seq<DiskMount>, sn: Option<string>, acc: MountAcc, drives: Drives)
    requires acc.volumes == []
    ensures forall v :: v in ScanMounts(ms, sn, acc, drives).volumes ==> VolumeOfDisk(v, ms, sn, drives)
    decreases |ms|
  {
    if ms != [] {
      var n := |ms| - 1;
      ScanMountsVolumes(ms[..n], sn, acc, drives);
      MountStepFromDisks(ms, sn, ScanMounts(ms[..n], sn, acc, drives), drives);
    }
  }

  /** The last disk's step keeps every volume found on the disks so far. */
  lemma MountStepFromDisks(ms: seq<DiskMount>, sn: Option<string>, before: MountAcc, drives: Drives)
    requires ms != []
    requires forall v :: v in before.volumes ==> VolumeOfDisk(v, ms[..|ms| - 1], sn, drives)
    ensures forall v :: v in MountStep(ms[|ms| - 1], sn, before, drives).volumes ==> VolumeOfDisk(v, ms, sn, drives)
  {
    var n := |ms| - 1;
    var m := ms[n];
    var r := MountStep(m, sn, before, drives);
    MountStepAppends(m, sn, before, drives);
    if m.disk.serialNumber != sn {
      forall v | v in r.volumes
        ensures VolumeOfDisk(v, ms, sn, drives)
      {
        VolumeOfDiskWiden(v, ms, n, sn, drives);
      }
    } else {
      AppendedFromDisks(ms, sn, before.volumes, r.volumes, drives);
    }
  }

  /** A matching last disk: the old volumes stay found, and the appended ones are that disk's. */
  lemma AppendedFromDisks(ms: seq<DiskMount>, sn: Option<string>, before: seq<Volume>, after: seq<Volume>, drives: Drives)
    requires ms != [] && ms[|ms| - 1].disk.serialNumber == sn
    requires forall v :: v in before ==> VolumeOfDisk(v, ms[..|ms| - 1], sn, drives)
    requires Appended(after, before, ms[|ms| - 1].volumes, drives)
    ensures forall v :: v in after ==> VolumeOfDisk(v, ms, sn, drives)
  {
    var n := |ms| - 1;
    forall j | 0 <= j < |after|
      ensures VolumeOfDisk(after[j], ms, sn, drives)
    {
      if j < |before| {
        assert after[j] == after[..|before|][j] == before[j];
        assert before[j] in before;
        VolumeOfDiskWiden(after[j], ms, n, sn, drives);
      } else {
        VolumeOfDiskAt(ms, n, j - |before|, sn, drives);
      }
    }
  }

  lemma VolumeOfDiskWiden(v: Volume, ms: seq<DiskMount>, n: nat, sn: Option<string>, drives: Drives)
    requires n <= |ms| && VolumeOfDisk(v, ms[..n], sn, drives)
    ensures VolumeOfDisk(v, ms, sn, drives)
  {
    var i, k :| 0 <= i < n && ms[..n][i].disk.serialNumber == sn && 0 <= k < |ms[..n][i].volumes|
      && v == VolumeAt(ms[..n][i].volumes[k], drives);
    assert ms[..n][i] == ms[i];
  }

  lemma VolumeOfDiskAt(ms: seq<DiskMount>, i: nat, k: nat, sn: Option<string>, drives: Drives)
    requires i < |ms| && ms[i].disk.serialNumber == sn && k < |ms[i].volumes|
    ensures VolumeOfDisk(VolumeAt(ms[i].volumes[k], drives), ms, sn, drives)
  {
  }

  /** A record's volumes are exactly those of the disks' removable logical disks with its serial number. */
  ghost predicate JoinedVolumes(dev: Device, ms: seq<DiskMount>, drives: Drives) {
    forall v :: v in dev.volumes <==> VolumeOfDisk(v, ms, dev.serialNum, drives)
  }

  lemma RecordVolumes(sn: Option<string>, claimed: seq<SerialPort>, ms: seq<DiskMount>, drives: Drives)
    requires claimed != []
    ensures RecordOf(sn, claimed, ms, drives).serialNum == sn
    ensures JoinedVolumes(RecordOf(sn, claimed, ms, drives), ms, drives)
  {
    var acc := MountAcc(FilterPortDescription(Last(claimed).description), [], "");
    var dev := RecordOf(sn, claimed, ms, drives);
    assert dev.volumes == ScanMounts(ms, sn, acc, drives).volumes;
    ScanMountsVolumes(ms, sn, acc, drives);
    forall v | VolumeOfDisk(v, ms, sn, drives)
      ensures v in dev.volumes
    {
      var i, k :| 0 <= i < |ms| && ms[i].disk.serialNumber == sn && 0 <= k < |ms[i].volumes|
        && v == VolumeAt(ms[i].volumes[k], drives);
      ScanMountsComplete(ms, sn, acc, drives, i, k);
    }
  }

  ghost predicate AllJoined(list: seq<Device>, ms: seq<DiskMount>, drives: Drives) {
    forall i :: 0 <= i < |list| ==> JoinedVolumes(list[i], ms, drives)
  }

  lemma WinStepJoins(sn: Option<string>, st: WinState, ms: seq<DiskMount>, drives: Drives)
    requires AllJoined(st.list, ms, drives)
    ensures AllJoined(WinStep(sn, st, ms, drives).list, ms, drives)
  {
    var claimed := ClaimedBy(sn, st.pool);
    if claimed != [] {
      var d := RecordOf(sn, claimed, ms, drives);
      RecordVolumes(sn, claimed, ms, drives);
      assert WinStep(sn, st, ms, drives).list == st.list + [d];
    }
  }

  lemma {:induction false} WinScanJoins(cands: seq<Option<string>>, st: WinState, ms: seq<DiskMount>, drives: Drives)
    requires AllJoined(st.list, ms, drives)
    ensures AllJoined(WinScan(cands, st, ms, drives).list, ms, drives)
    decreases |cands|
  {
    if cands != [] {
      var n := |cands| - 1;
      WinScanJoins(cands[..n], st, ms, drives);
      WinStepJoins(cands[n], WinScan(cands[..n], st, ms, drives), ms, drives);
    }
  }

  /** `v` is a removable logical disk of a USB disk with serial number `sn`, mounted at its drive root. */
  ghost predicate FromUsbDisk(v: Volume, disks: seq<DiskDrive>, sn: Option<string>, drives: Drives) {
    exists d, l :: d in disks && d.interfaceType == "USB" && d.serialNumber == sn && l in Removable(d.partitions) && v == VolumeAt(l, drives)
  }

  /** A volume found on a disk mount is a volume of a USB disk. */
  lemma MountVolumeIsUsb(disks: seq<DiskDrive>, serials: seq<Option<string>>, sn: Option<string>, drives: Drives, v: Volume)
    requires VolumeOfDisk(v, ScanDisks(disks, serials).0, sn, drives)
    ensures FromUsbDisk(v, disks, sn, drives)
  {
    var ms := ScanDisks(disks, serials).0;
    var i, k :| 0 <= i < |ms| && ms[i].disk.serialNumber == sn && 0 <= k < |ms[i].volumes|
      && v == VolumeAt(ms[i].volumes[k], drives);
    assert ms[i] in ms;
    var d := ms[i].disk;
    assert d in disks && d.interfaceType == "USB" && ms[i].volumes == Removable(d.partitions);
    assert ms[i].volumes[k] in Removable(d.partitions);
  }

  /** A volume of a USB disk is found on its disk mount. */
  lemma UsbVolumeIsMount(disks: seq<DiskDrive>, serials: seq<Option<string>>, sn: Option<string>, drives: Drives, v: Volume)
    requires FromUsbDisk(v, disks, sn, drives)
    ensures VolumeOfDisk(v, ScanDisks(disks, serials).0, sn, drives)
  {
    var ms := ScanDisks(disks, serials).0;
    var usb := Filter(disks, IsUsbDisk);
    var d, l :| d in disks && d.interfaceType == "USB" && d.serialNumber == sn
      && l in Removable(d.partitions) && v == VolumeAt(l, drives);
    ScanDisksExact(disks, serials);
    FilterMembers(disks, IsUsbDisk);
    assert d in usb;
    var i :| 0 <= i < |usb| && usb[i] == d;
    assert ms[i] == DiskMount(d, Removable(d.partitions));
    var k :| 0 <= k < |ms[i].volumes| && ms[i].volumes[k] == l;
  }

  /**
   * The disk join: a record's volumes are exactly the removable logical disks of the USB
   * disks whose serial number is the record's, each mounted at its drive root.
   */
  lemma DevicesListVolumes(comports: seq<SerialPort>, disks: seq<DiskDrive>, drives: Drives, j: nat)
    requires j < |DevicesList(comports, disks, drives).0|
    ensures var dev := DevicesList(comports, disks, drives).0[j];
      forall v :: v in dev.volumes <==> FromUsbDisk(v, disks, dev.serialNum, drives)
  {
    var pool := Identified(comports);
    var (ms, cands) := ScanDisks(disks, PortSerials(pool));
    WinScanJoins(cands, WinState([], pool), ms, drives);
    var list := WinScan(cands, WinState([], pool), ms, drives).list;
    assert JoinedVolumes(list[j], ms, drives);
    forall v
      ensures v in list[j].volumes <==> FromUsbDisk(v, disks, list[j].serialNum, drives)
    {
      if v in list[j].volumes {
        MountVolumeIsUsb(disks, PortSerials(pool), list[j].serialNum, drives, v);
      }
      if FromUsbDisk(v, disks, list[j].serialNum, drives) {
        UsbVolumeIsMount(disks, PortSerials(pool), list[j].serialNum, drives, v);
      }
    }
  }
}
