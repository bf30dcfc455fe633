/**
 * The Linux provider: walks the udev `usb_device` list, skips hubs, claims the tty
 * children from the pool of identified serial ports, joins partition children to the
 * mount table, drops earlier records that sit above the current device in the sysfs
 * path, and keeps a record when its vendor id is known or it has a tty.
 */
module UsbinfosLinux {
  import opened Wrappers
  import opened Text
  import opened Records
  import opened UsbinfosCommon

  /** One child of a udev device: its subsystem, DEVTYPE and DEVNAME. */
  datatype UdevChild = UdevChild(subsystem: string, deviceType: Option<string>, devname: Option<string>)

  /**
   * One udev `usb_device`. `typeProp` is the TYPE property ("class/subclass/protocol");
   * `hasParent` says whether `traverse()` yields any ancestor.
   */
  datatype UdevDevice = UdevDevice(
    typeProp: string,
    model: string,
    vendorId: int,
    modelId: int,
    serialShort: Option<string>,
    vendor: Option<string>,
    devpath: string,
    hasParent: bool,
    children: seq<UdevChild>)

  /** A record still carrying its sysfs path, as built inside the loop. */
  datatype LinuxRecord = LinuxRecord(devpath: string, device: Device)

  /** What the child loop has gathered for one device. */
  datatype ChildScan = ChildScan(ttys: seq<Tty>, pool: seq<SerialPort>, volumes: seq<Volume>, version: string)

  /** The main loop's state: the records so far and the remaining ports. */
  datatype LinuxState = LinuxState(list: seq<LinuxRecord>, pool: seq<SerialPort>)

  /** Base class 09 in the TYPE property marks a hub. */
  predicate IsHub(d: UdevDevice) {
    Split(d.typeProp, '/')[0] == "9"
  }

  /** The test "this port's device path is one of `names`". */
  function DeviceIn(names: set<string>): SerialPort -> bool {
    (p: SerialPort) => p.device in names
  }

  /** The test "this record's devpath is a string prefix of `devpath`". */
  function AncestorOf(devpath: string): LinuxRecord -> bool {
    (r: LinuxRecord) => StartsWith(devpath, r.devpath)
  }

  // ---------------------------------------------------------------- specification

  /** One tty child: take every pool port with that device path, or add the bare path. */
  function ClaimTty(tty: string, ttys: seq<Tty>, pool: seq<SerialPort>): (seq<Tty>, seq<SerialPort>) {
    var claimed := Filter(pool, DeviceIn({tty}));
    (if claimed == [] then ttys + [Tty(tty, "")] else ttys + TtysOf(claimed),
     FilterOut(pool, DeviceIn({tty})))
  }

  predicate IsTtyChild(c: UdevChild) {
    c.subsystem == "tty" && c.devname.Some?
  }

  /** A partition child whose DEVNAME (or "") is a device in the mount table. */
  predicate IsMountedPartition(c: UdevChild, mounts: map<string, string>) {
    c.deviceType == Some("partition") && c.devname.GetOr("") in mounts
  }

  function MountedIn(mounts: map<string, string>): UdevChild -> bool {
    (c: UdevChild) => IsMountedPartition(c, mounts)
  }

  /** The mount point of a mounted partition child. */
  function MountOf(c: UdevChild, mounts: map<string, string>): string
    requires IsMountedPartition(c, mounts)
  {
    mounts[c.devname.GetOr("")]
  }

  /** The volume a mounted partition child contributes. */
  function ChildVolume(c: UdevChild, mounts: map<string, string>, drives: Drives): Volume
    requires IsMountedPartition(c, mounts)
  {
    Volume(Some(MountOf(c, mounts)), None, DriveInfo(MountOf(c, mounts), drives).0)
  }

  function ChildStep(c: UdevChild, st: ChildScan, mounts: map<string, string>, drives: Drives): ChildScan {
    var st1 :=
      if IsTtyChild(c) then
        var (t, p) := ClaimTty(c.devname.value, st.ttys, st.pool);
        st.(ttys := t, pool := p)
      else st;
    if IsMountedPartition(c, mounts) then
      st1.(volumes := st1.volumes + [ChildVolume(c, mounts, drives)], version := DriveInfo(MountOf(c, mounts), drives).1)
    else st1
  }

  function ScanChildren(cs: seq<UdevChild>, st: ChildScan, mounts: map<string, string>, drives: Drives): ChildScan
  {
    if cs == [] then st
    else ChildStep(cs[|cs| - 1], ScanChildren(cs[..|cs| - 1], st, mounts, drives), mounts, drives)
  }

  /** The DEVNAMEs of the tty children. */
  function TtyNames(cs: seq<UdevChild>): set<string>
  {
    if cs == [] then {}
    else TtyNames(cs[..|cs| - 1]) + (if IsTtyChild(cs[|cs| - 1]) then {cs[|cs| - 1].devname.value} else {})
  }

  predicate Admitted(vid: int, ttys: seq<Tty>) {
    KnownVid(vid) || ttys != []
  }

  function RecordOf(d: UdevDevice, cs: ChildScan): LinuxRecord {
    LinuxRecord(d.devpath, Device(
      d.model, d.vendorId, d.modelId, Some(d.serialShort.GetOr("")), d.vendor.GetOr(""),
      cs.ttys, cs.volumes, cs.version))
  }

  /** `deviceList` after the ancestor filter for device `d`. */
  function Collapsed(list: seq<LinuxRecord>, d: UdevDevice): seq<LinuxRecord> {
    if d.hasParent then FilterOut(list, AncestorOf(d.devpath)) else list
  }

  function LinuxStep(d: UdevDevice, st: LinuxState, mounts: map<string, string>, drives: Drives): LinuxState {
    if IsHub(d) then st
    else
      var cs := ScanChildren(d.children, ChildScan([], st.pool, [], ""), mounts, drives);
      var kept := Collapsed(st.list, d);
      if Admitted(d.vendorId, cs.ttys) then LinuxState(kept + [RecordOf(d, cs)], cs.pool)
      else LinuxState(kept, cs.pool)
  }

  function Scan(ds: seq<UdevDevice>, st: LinuxState, mounts: map<string, string>, drives: Drives): LinuxState
  {
    if ds == [] then st
    else LinuxStep(ds[|ds| - 1], Scan(ds[..|ds| - 1], st, mounts, drives), mounts, drives)
  }

  /** `del deviceList[i]['devpath']` for every record. */
  function StripDevpaths(list: seq<LinuxRecord>): (r: seq<Device>)
    ensures |r| == |list|
    ensures forall i :: 0 <= i < |list| ==> r[i] == list[i].device
  {
    if list == [] then [] else [list[0].device] + StripDevpaths(list[1..])
  }

  /** What `get_devices_list` returns: the records without devpath, and the ports never claimed. */
  function DevicesList(ds: seq<UdevDevice>, comports: seq<SerialPort>, parts: seq<Partition>, drives: Drives): (seq<Device>, seq<SerialPort>) {
    var st := Scan(ds, LinuxState([], Identified(comports)), MountTable(parts), drives);
    (StripDevpaths(st.list), st.pool)
  }

  // ---------------------------------------------------------------- the loops

  method ClaimTtyPorts(tty: string, ttys: seq<Tty>, pool: seq<SerialPort>) returns (ttys': seq<Tty>, pool': seq<SerialPort>)
    ensures ttys' == ClaimTty(tty, ttys, pool).0
    ensures pool' == ClaimTty(tty, ttys, pool).1
  {
    var found := false;
    ghost var claimed: seq<SerialPort> := [];
    ghost var isTty := DeviceIn({tty});
    ttys', pool' := ttys, [];
    for j := 0 to |pool|
      invariant claimed == Filter(pool[..j], isTty)
      invariant ttys' == ttys + TtysOf(claimed)
      invariant pool' == FilterOut(pool[..j], isTty)
      invariant found <==> claimed != []
    {
      FilterStep(pool[..j], pool[j], isTty);
      assert pool[..j + 1] == pool[..j] + [pool[j]];
      if tty == pool[j].device {
        TtysOfAppend(claimed, [pool[j]]);
        assert TtysOf([pool[j]]) == [TtyOf(pool[j])];
        claimed := claimed + [pool[j]];
        ttys' := ttys' + [TtyOf(pool[j])];
        found := true;
      } else {
        pool' := pool' + [pool[j]];
      }
    }
    assert pool[..|pool|] == pool;
    assert claimed == Filter(pool, isTty);
    if !found {
      ttys' := ttys' + [Tty(tty, "")];
    }
  }

  method ScanChildDevices(cs: seq<UdevChild>, pool: seq<SerialPort>, mounts: map<string, string>, drives: Drives)
    returns (r: ChildScan)
    ensures r == ScanChildren(cs, ChildScan([], pool, [], ""), mounts, drives)
  {
    r := ChildScan([], pool, [], "");
    for i := 0 to |cs|
      invariant r == ScanChildren(cs[..i], ChildScan([], pool, [], ""), mounts, drives)
    {
      assert cs[..i + 1][..i] == cs[..i];
      var child := cs[i];
      if child.subsystem == "tty" && child.devname.Some? {
        var t, p := ClaimTtyPorts(child.devname.value, r.ttys, r.pool);
        assert (t, p) == ClaimTty(child.devname.value, r.ttys, r.pool);
        r := r.(ttys := t, pool := p);
      }
      var node := child.devname.GetOr("");
      if child.deviceType == Some("partition") && node in mounts {
        var mains, version := GetCpDriveInfo(mounts[node], drives);
        r := r.(volumes := r.volumes + [Volume(Some(mounts[node]), None, mains)], version := version);
      }
    }
    assert cs[..|cs|] == cs;
  }

  /** `list(filter(noParent, deviceList))` */
  method DropAncestors(list: seq<LinuxRecord>, d: UdevDevice) returns (kept: seq<LinuxRecord>)
    ensures kept == Collapsed(list, d)
  {
    kept := [];
    for i := 0 to |list|
      invariant kept == Collapsed(list[..i], d)
    {
      assert list[..i + 1] == list[..i] + [list[i]];
      FilterOutAppend(list[..i], [list[i]], AncestorOf(d.devpath));
      var noParent := true;
      if d.hasParent && StartsWith(d.devpath, list[i].devpath) {
        noParent := false;
      }
      if noParent {
        kept := kept + [list[i]];
      }
    }
    assert list[..|list|] == list;
  }

  method GetDevicesList(ds: seq<UdevDevice>, comports: seq<SerialPort>, parts: seq<Partition>, drives: Drives)
    returns (deviceList: seq<Device>, remainingPorts: seq<SerialPort>)
    ensures (deviceList, remainingPorts) == DevicesList(ds, comports, parts, drives)
  {
    var allMounts := BuildMountTable(parts);
    remainingPorts := Identified(comports);
    var list: seq<LinuxRecord> := [];
    for i := 0 to |ds|
      invariant LinuxState(list, remainingPorts) == Scan(ds[..i], LinuxState([], Identified(comports)), allMounts, drives)
    {
      assert ds[..i + 1][..i] == ds[..i];
      var device := ds[i];
      if Split(device.typeProp, '/')[0] == "9" {
        continue;
      }
      var cs := ScanChildDevices(device.children, remainingPorts, allMounts, drives);
      remainingPorts := cs.pool;
      list := DropAncestors(list, device);
      if !KnownVid(device.vendorId) && |cs.ttys| == 0 {
        continue;
      }
      list := list + [RecordOf(device, cs)];
    }
    assert ds[..|ds|] == ds;
    deviceList := [];
    for i := 0 to |list|
      invariant deviceList == StripDevpaths(list[..i])
    {
      StripAppend(list[..i], list[i]);
      assert list[..i + 1] == list[..i] + [list[i]];
      deviceList := deviceList + [list[i].device];
    }
    assert list[..|list|] == list;
  }

  lemma {:induction false} StripAppend(list: seq<LinuxRecord>, r: LinuxRecord)
    ensures StripDevpaths(list + [r]) == StripDevpaths(list) + [r.device]
    decreases |list|
  {
    if list == [] {
      assert list + [r] == [r];
    } else {
      assert (list + [r])[1..] == list[1..] + [r];
      StripAppend(list[1..], r);
    }
  }

  // ---------------------------------------------------------------- properties

  /** A hub changes nothing: no port is claimed, no record is added or removed. */
  lemma HubIsSkipped(d: UdevDevice, st: LinuxState, mounts: map<string, string>, drives: Drives)
    requires IsHub(d)
    ensures LinuxStep(d, st, mounts, drives) == st
  {
  }

  /** After the child loop the pool has lost exactly the ports named by the device's tty children. */
  lemma {:induction false} ScanChildrenPool(cs: seq<UdevChild>, st: ChildScan, mounts: map<string, string>, drives: Drives)
    ensures ScanChildren(cs, st, mounts, drives).pool == FilterOut(st.pool, DeviceIn(TtyNames(cs)))
    decreases |cs|
  {
    if cs == [] {
      FilterOutNone(st.pool, DeviceIn({}));
    } else {
      var init := cs[..|cs| - 1];
      var c := cs[|cs| - 1];
      ScanChildrenPool(init, st, mounts, drives);
      var mid := ScanChildren(init, st, mounts, drives);
      if IsTtyChild(c) {
        FilterOutTwice(st.pool, DeviceIn(TtyNames(init)), DeviceIn({c.devname.value}), DeviceIn(TtyNames(cs)));
      } else {
        assert TtyNames(cs) == TtyNames(init);
      }
    }
  }

  /** A device has a tty entry, matched or not, exactly when it has a tty child with a DEVNAME. */
  lemma {:induction false} ScanChildrenTtys(cs: seq<UdevChild>, st: ChildScan, mounts: map<string, string>, drives: Drives)
    ensures ScanChildren(cs, st, mounts, drives).ttys == [] <==> st.ttys == [] && TtyNames(cs) == {}
    ensures |st.ttys| <= |ScanChildren(cs, st, mounts, drives).ttys|
    decreases |cs|
  {
    if cs != [] {
      var init := cs[..|cs| - 1];
      var c := cs[|cs| - 1];
      ScanChildrenTtys(init, st, mounts, drives);
      if IsTtyChild(c) {
        assert c.devname.value in TtyNames(cs);
      }
    }
  }

  /** `vols` is `base` followed by one volume per mounted partition child in `mp`, in order. */
  predicate JoinedChildren(vols: seq<Volume>, base: seq<Volume>, mp: seq<UdevChild>, mounts: map<string, string>, drives: Drives) {
    && |vols| == |base| + |mp|
    && vols[..|base|] == base
    && forall k :: 0 <= k < |mp| ==>
         IsMountedPartition(mp[k], mounts) && vols[|base| + k] == ChildVolume(mp[k], mounts, drives)
  }

  lemma JoinedChildrenSnoc(vols: seq<Volume>, base: seq<Volume>, mp: seq<UdevChild>, c: UdevChild, mounts: map<string, string>, drives: Drives)
    requires JoinedChildren(vols, base, mp, mounts, drives) && IsMountedPartition(c, mounts)
    ensures JoinedChildren(vols + [ChildVolume(c, mounts, drives)], base, mp + [c], mounts, drives)
  {
    var vols' := vols + [ChildVolume(c, mounts, drives)];
    assert vols'[..|base|] == vols[..|base|];
    forall k | 0 <= k < |mp + [c]|
      ensures IsMountedPartition((mp + [c])[k], mounts) && vols'[|base| + k] == ChildVolume((mp + [c])[k], mounts, drives)
    {
      if k < |mp| {
        assert (mp + [c])[k] == mp[k];
      }
    }
  }

  /**
   * The partition join: one volume per partition child whose DEVNAME is in the mount table,
   * in child order, mounted where the table says; the version is the last such volume's.
   */
  lemma {:induction false} ScanChildrenVolumes(cs: seq<UdevChild>, st: ChildScan, mounts: map<string, string>, drives: Drives)
    ensures var r := ScanChildren(cs, st, mounts, drives);
      var mp := Filter(cs, MountedIn(mounts));
      && JoinedChildren(r.volumes, st.volumes, mp, mounts, drives)
      && r.version == (if mp == [] then st.version else DriveInfo(MountOf(Last(mp), mounts), drives).1)
    decreases |cs|
  {
    if cs != [] {
      var n := |cs| - 1;
      var init := cs[..n];
      var c := cs[n];
      ScanChildrenVolumes(init, st, mounts, drives);
      assert init + [c] == cs;
      FilterStep(init, c, MountedIn(mounts));
      var mid := ScanChildren(init, st, mounts, drives);
      var r := ScanChildren(cs, st, mounts, drives);
      assert r == ChildStep(c, mid, mounts, drives);
      ChildStepVolumes(c, mid, mounts, drives);
      var mp0 := Filter(init, MountedIn(mounts));
      if IsMountedPartition(c, mounts) {
        assert Filter(cs, MountedIn(mounts)) == mp0 + [c];
        JoinedChildrenSnoc(mid.volumes, st.volumes, mp0, c, mounts, drives);
      } else {
        assert Filter(cs, MountedIn(mounts)) == mp0;
      }
    }
  }

  /** A child adds a volume, and sets the version, iff it is a mounted partition. */
  lemma ChildStepVolumes(c: UdevChild, st: ChildScan, mounts: map<string, string>, drives: Drives)
    ensures var r := ChildStep(c, st, mounts, drives);
      && (IsMountedPartition(c, mounts) ==>
            r.volumes == st.volumes + [ChildVolume(c, mounts, drives)] && r.version == DriveInfo(MountOf(c, mounts), drives).1)
      && (!IsMountedPartition(c, mounts) ==> r.volumes == st.volumes && r.version == st.version)
  {
  }

  /** A device's volumes are exactly the volumes of its mounted partition children. */
  lemma ChildVolumesIff(cs: seq<UdevChild>, pool: seq<SerialPort>, mounts: map<string, string>, drives: Drives)
    ensures forall v :: v in ScanChildren(cs, ChildScan([], pool, [], ""), mounts, drives).volumes <==>
      exists i :: 0 <= i < |cs| && IsMountedPartition(cs[i], mounts) && v == ChildVolume(cs[i], mounts, drives)
  {
    ScanChildrenVolumes(cs, ChildScan([], pool, [], ""), mounts, drives);
    MountedMembers(cs, mounts);
    JoinedChildrenIff(ScanChildren(cs, ChildScan([], pool, [], ""), mounts, drives).volumes, cs,
      Filter(cs, MountedIn(mounts)), mounts, drives);
  }

  /** The mounted partitions of `cs` are exactly its children that are mounted partitions. */
  lemma MountedMembers(cs: seq<UdevChild>, mounts: map<string, string>)
    ensures forall c :: c in Filter(cs, MountedIn(mounts)) <==> c in cs && IsMountedPartition(c, mounts)
  {
    FilterMembers(cs, MountedIn(mounts));
  }

  lemma JoinedChildrenIff(vols: seq<Volume>, cs: seq<UdevChild>, mp: seq<UdevChild>, mounts: map<string, string>, drives: Drives)
    requires JoinedChildren(vols, [], mp, mounts, drives)
    requires forall c :: c in mp <==> c in cs && IsMountedPartition(c, mounts)
    ensures forall v :: v in vols <==>
      exists i :: 0 <= i < |cs| && IsMountedPartition(cs[i], mounts) && v == ChildVolume(cs[i], mounts, drives)
  {
    JoinedMembers(vols, mp, mounts, drives);
    forall v | v in vols
      ensures exists i :: 0 <= i < |cs| && IsMountedPartition(cs[i], mounts) && v == ChildVolume(cs[i], mounts, drives)
    {
      var c :| c in mp && IsMountedPartition(c, mounts) && v == ChildVolume(c, mounts, drives);
      var i :| 0 <= i < |cs| && cs[i] == c;
    }
    forall i | 0 <= i < |cs| && IsMountedPartition(cs[i], mounts)
      ensures ChildVolume(cs[i], mounts, drives) in vols
    {
      assert cs[i] in mp;
    }
  }

  /** The volumes of a join over `mp` are exactly the volumes of the children in `mp`. */
  lemma JoinedMembers(vols: seq<Volume>, mp: seq<UdevChild>, mounts: map<string, string>, drives: Drives)
    requires JoinedChildren(vols, [], mp, mounts, drives)
    ensures forall v :: v in vols <==>
      exists c :: c in mp && IsMountedPartition(c, mounts) && v == ChildVolume(c, mounts, drives)
  {
    forall v | v in vols
      ensures exists c :: c in mp && IsMountedPartition(c, mounts) && v == ChildVolume(c, mounts, drives)
    {
      var k :| 0 <= k < |vols| && vols[k] == v;
      assert vols[0 + k] == ChildVolume(mp[k], mounts, drives);
      assert mp[k] in mp;
    }
    forall c | c in mp && IsMountedPartition(c, mounts)
      ensures ChildVolume(c, mounts, drives) in vols
    {
      var k :| 0 <= k < |mp| && mp[k] == c;
      assert vols[0 + k] == ChildVolume(mp[k], mounts, drives);
    }
  }

  /** The tty names of all non-hub devices in `ds`. */
  function ClaimedNames(ds: seq<UdevDevice>): set<string>
  {
    if ds == [] then {}
    else ClaimedNames(ds[..|ds| - 1]) + (if IsHub(ds[|ds| - 1]) then {} else TtyNames(ds[|ds| - 1].children))
  }

  /** The remaining pool is the initial pool minus every port whose path some non-hub device claims. */
  lemma {:induction false} RemainingPool(ds: seq<UdevDevice>, st: LinuxState, mounts: map<string, string>, drives: Drives)
    ensures Scan(ds, st, mounts, drives).pool == FilterOut(st.pool, DeviceIn(ClaimedNames(ds)))
    decreases |ds|
  {
    if ds == [] {
      FilterOutNone(st.pool, DeviceIn({}));
    } else {
      var init := ds[..|ds| - 1];
      var d := ds[|ds| - 1];
      RemainingPool(init, st, mounts, drives);
      var mid := Scan(init, st, mounts, drives);
      if !IsHub(d) {
        ScanChildrenPool(d.children, ChildScan([], mid.pool, [], ""), mounts, drives);
        FilterOutTwice(st.pool, DeviceIn(ClaimedNames(init)), DeviceIn(TtyNames(d.children)), DeviceIn(ClaimedNames(ds)));
      } else {
        assert ClaimedNames(ds) == ClaimedNames(init);
      }
    }
  }

  /** Every kept record passed the gate: a known vendor id or at least one tty. */
  predicate AllAdmitted(list: seq<LinuxRecord>) {
    forall r :: r in list ==> Admitted(r.device.vendorId, r.device.ports)
  }

  lemma {:induction false} GateHolds(ds: seq<UdevDevice>, st: LinuxState, mounts: map<string, string>, drives: Drives)
    requires AllAdmitted(st.list)
    ensures AllAdmitted(Scan(ds, st, mounts, drives).list)
    decreases |ds|
  {
    if ds != [] {
      GateHolds(ds[..|ds| - 1], st, mounts, drives);
      var mid := Scan(ds[..|ds| - 1], st, mounts, drives);
      FilterOutMembers(mid.list, AncestorOf(ds[|ds| - 1].devpath));
    }
  }

  /** No record's devpath is a string prefix of a later record's devpath. */
  predicate PrefixFree(list: seq<LinuxRecord>) {
    forall i, j :: 0 <= i < j < |list| ==> !StartsWith(list[j].devpath, list[i].devpath)
  }

  lemma {:induction false} FilterOutKeepsPrefixFree(list: seq<LinuxRecord>, p: LinuxRecord -> bool)
    requires PrefixFree(list)
    ensures PrefixFree(FilterOut(list, p))
    decreases |list|
  {
    if list != [] {
      var rest := list[1..];
      assert PrefixFree(rest) by {
        forall i, j | 0 <= i < j < |rest|
          ensures !StartsWith(rest[j].devpath, rest[i].devpath)
        {
          assert rest[i] == list[i + 1] && rest[j] == list[j + 1];
        }
      }
      FilterOutKeepsPrefixFree(rest, p);
      var tail := FilterOut(rest, p);
      FilterOutMembers(rest, p);
      if !p(list[0]) {
        var r := FilterOut(list, p);
        assert r == [list[0]] + tail;
        forall i, j | 0 <= i < j < |r|
          ensures !StartsWith(r[j].devpath, r[i].devpath)
        {
          if i == 0 {
            assert r[j] == tail[j - 1] && r[j] in rest;
            var k :| 0 <= k < |rest| && rest[k] == r[j];
            assert list[k + 1] == r[j];
          } else {
            assert r[i] == tail[i - 1] && r[j] == tail[j - 1];
          }
        }
      }
    }
  }

  /**
   * Hub collapse: when every non-hub device has an ancestor to traverse, the records kept
   * are prefix-free in devpath.
   */
  lemma {:induction false} CollapseLeavesPrefixFree(ds: seq<UdevDevice>, st: LinuxState, mounts: map<string, string>, drives: Drives)
    requires forall k :: 0 <= k < |ds| ==> ds[k].hasParent
    requires PrefixFree(st.list)
    ensures PrefixFree(Scan(ds, st, mounts, drives).list)
    decreases |ds|
  {
    if ds != [] {
      var init := ds[..|ds| - 1];
      var d := ds[|ds| - 1];
      CollapseLeavesPrefixFree(init, st, mounts, drives);
      var mid := Scan(init, st, mounts, drives);
      if !IsHub(d) {
        var kept := FilterOut(mid.list, AncestorOf(d.devpath));
        FilterOutKeepsPrefixFree(mid.list, AncestorOf(d.devpath));
        FilterOutMembers(mid.list, AncestorOf(d.devpath));
        var cs := ScanChildren(d.children, ChildScan([], mid.pool, [], ""), mounts, drives);
        var out := kept + [RecordOf(d, cs)];
        forall i, j | 0 <= i < j < |out|
          ensures !StartsWith(out[j].devpath, out[i].devpath)
        {
          if j == |out| - 1 {
            assert out[i] in kept;
          } else {
            assert out[i] == kept[i] && out[j] == kept[j];
          }
        }
      }
    }
  }

  /** The scan of a whole device list, from an empty record list, ends prefix-free. */
  lemma ScanIsPrefixFree(ds: seq<UdevDevice>, comports: seq<SerialPort>, mounts: map<string, string>, drives: Drives)
    requires forall k :: 0 <= k < |ds| ==> ds[k].hasParent
    ensures PrefixFree(Scan(ds, LinuxState([], Identified(comports)), mounts, drives).list)
    ensures AllAdmitted(Scan(ds, LinuxState([], Identified(comports)), mounts, drives).list)
  {
    CollapseLeavesPrefixFree(ds, LinuxState([], Identified(comports)), mounts, drives);
    GateHolds(ds, LinuxState([], Identified(comports)), mounts, drives);
  }
}
