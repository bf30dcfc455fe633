/**
 * The macOS provider: a post-order walk of the `system_profiler SPUSBDataType` tree.
 * Every node with a parsable vendor id claims serial ports from the global pool
 * `remainingPorts`, by (vid, pid, serial) when it has a serial number and by a
 * location-id device-path prefix when it does not; it becomes a record when its vendor
 * id is known or it claimed a port, and then collects its volumes.
 */
module UsbinfosMacos {
  import opened Wrappers
  import opened Text
  import opened Records
  import opened UsbinfosCommon

  /** A `volumes` entry of a `Media` item. */
  datatype MediaVolume = MediaVolume(mountPoint: Option<string>)

  /** A `Media` item; a missing `volumes` key is the empty sequence. */
  datatype Media = Media(volumes: seq<MediaVolume>, bsdName: Option<string>)

  /** A node of the system_profiler tree; missing `_items` or `Media` keys are empty sequences. */
  datatype ProfileNode = ProfileNode(
    name: string,
    vendorId: Option<string>,
    productId: Option<string>,
    serialNum: Option<string>,
    manufacturer: Option<string>,
    locationId: Option<string>,
    media: seq<Media>,
    items: seq<ProfileNode>)

  /** What stays fixed during the walk: the mount table, the file system and the `drive_info` flag. */
  datatype MacEnv = MacEnv(allMounts: map<string, string>, drives: Drives, driveInfo: bool)

  /** The walk's state: the records so far and the global pool. */
  datatype MacState = MacState(devices: seq<Device>, pool: seq<SerialPort>)

  /** What the media loop has gathered; `mains` carries over from one volume to the next. */
  datatype MediaAcc = MediaAcc(volumes: seq<Volume>, mains: seq<string>, version: string)

  const SerialPrefixes: seq<string> := ["/dev/cu.usbmodem", "/dev/cu.usbserial-"]

  // ---------------------------------------------------------------- node fields

  /** `int(vendor_id.split(" ")[0], 16)`, None where that raises. */
  function ParseVid(vendorId: string): Option<nat> {
    ParseHex(Split(vendorId, ' ')[0])
  }

  /** `int(product_id.strip().split(" ")[0], 16)`, 0 where that raises (a missing key included). */
  function ParsePid(productId: Option<string>): (pid: nat)
    ensures productId.None? ==> pid == 0
    ensures productId.Some? && ParseHex(Split(Strip(productId.value), ' ')[0]).None? ==> pid == 0
  {
    match productId
    case None => 0
    case Some(s) => ParseHex(Split(Strip(s), ' ')[0]).GetOr(0)
  }

  /** `location_id[2:].split()[0]`, with the KeyError or IndexError it can raise. */
  function LocationOf(n: ProfileNode): (r: Result<string>)
    ensures r.Ok? ==> r.value != [] && forall i :: 0 <= i < |r.value| ==> !IsSpace(r.value[i])
  {
    match n.locationId
    case None => Err(KeyError("location_id"))
    case Some(l) =>
      match FirstToken(if |l| >= 2 then l[2..] else "")
      case None => Err(IndexError)
      case Some(t) => Ok(t)
  }

  /** A device path that names a serial port by location, under one of the two prefixes. */
  predicate AtLocation(device: string, loc: string) {
    StartsWith(device, SerialPrefixes[0] + loc) || StartsWith(device, SerialPrefixes[1] + loc)
  }

  /** The claim test of one node: serial triple when it has a serial, location prefix otherwise. */
  function ClaimTest(vid: int, pid: int, serial: string, loc: string): SerialPort -> bool {
    (p: SerialPort) =>
      (p.hwid == Some(UsbId(vid, pid)) && serial != "" && p.serialNumber == Some(serial))
      || (serial == "" && AtLocation(p.device, loc))
  }

  /** The location a claim test uses; irrelevant whenever `LocationOf` fails without raising. */
  function LocOrEmpty(n: ProfileNode): string {
    match LocationOf(n)
    case Ok(l) => l
    case Err(_) => ""
  }

  /** The pool ports that a node with these fields claims. */
  function Claimed(n: ProfileNode, vid: int, pid: int, serial: string, pool: seq<SerialPort>): seq<SerialPort> {
    Filter(pool, ClaimTest(vid, pid, serial, LocOrEmpty(n)))
  }

  /** The pool ports that such a node leaves in the pool. */
  function Unclaimed(n: ProfileNode, vid: int, pid: int, serial: string, pool: seq<SerialPort>): seq<SerialPort> {
    FilterOut(pool, ClaimTest(vid, pid, serial, LocOrEmpty(n)))
  }

  /** The ports a node claims and the pool it leaves, or the error its location lookup raises. */
  function Claim(n: ProfileNode, vid: int, pid: int, serial: string, pool: seq<SerialPort>): Result<(seq<SerialPort>, seq<SerialPort>)> {
    if serial == "" && pool != [] && LocationOf(n).Err? then Err(LocationOf(n).error)
    else Ok((Claimed(n, vid, pid, serial, pool), Unclaimed(n, vid, pid, serial, pool)))
  }

  /** One more port visited by the claim loop. */
  lemma ClaimedStep(n: ProfileNode, vid: int, pid: int, serial: string, done: seq<SerialPort>, x: SerialPort)
    ensures Claimed(n, vid, pid, serial, done + [x]) ==
      Claimed(n, vid, pid, serial, done) + (if ClaimTest(vid, pid, serial, LocOrEmpty(n))(x) then [x] else [])
    ensures Unclaimed(n, vid, pid, serial, done + [x]) ==
      Unclaimed(n, vid, pid, serial, done) + (if ClaimTest(vid, pid, serial, LocOrEmpty(n))(x) then [] else [x])
  {
    FilterStep(done, x, ClaimTest(vid, pid, serial, LocOrEmpty(n)));
  }

  // ---------------------------------------------------------------- volumes

  /** `os.path.join("/dev", bsd_name)` */
  function DevPath(bsd: string): string {
    if |bsd| > 0 && bsd[0] == '/' then bsd else "/dev/" + bsd
  }

  function VolumeStep(v: MediaVolume, acc: MediaAcc, env: MacEnv): MediaAcc {
    match v.mountPoint
    case None => acc
    case Some(m) =>
      var acc1 := if env.driveInfo then
          var info := DriveInfo(m, env.drives);
          acc.(mains := info.0, version := info.1)
        else acc;
      acc1.(volumes := acc1.volumes + [Volume(Some(m), None, acc1.mains)])
  }

  function ScanVolumes(vs: seq<MediaVolume>, acc: MediaAcc, env: MacEnv): MediaAcc
  {
    if vs == [] then acc else VolumeStep(vs[|vs| - 1], ScanVolumes(vs[..|vs| - 1], acc, env), env)
  }

  function BsdStep(bsd: Option<string>, acc: MediaAcc, env: MacEnv): MediaAcc {
    match bsd
    case None => acc
    case Some(b) =>
      var disk := DevPath(b);
      if disk in env.allMounts then
        var m := env.allMounts[disk];
        var info := DriveInfo(m, env.drives);
        MediaAcc(acc.volumes + [Volume(Some(m), None, info.0)], info.0, info.1)
      else acc
  }

  function ScanMedia(ms: seq<Media>, acc: MediaAcc, env: MacEnv): MediaAcc
  {
    if ms == [] then acc
    else
      var md := ms[|ms| - 1];
      BsdStep(md.bsdName, ScanVolumes(md.volumes, ScanMedia(ms[..|ms| - 1], acc, env), env), env)
  }

  // ---------------------------------------------------------------- what the media give

  /** A mount point the media loop finds: from a `volumes` entry, or from a `bsd_name` in the mount table. */
  datatype Found = Found(mount: string, bsd: bool)

  /** The mount points of a media's `volumes`, in order. */
  function VolumeFound(vs: seq<MediaVolume>): seq<Found> {
    if vs == [] then []
    else
      var v := vs[|vs| - 1];
      VolumeFound(vs[..|vs| - 1]) + (if v.mountPoint.Some? then [Found(v.mountPoint.value, false)] else [])
  }

  /** The mount of a media's `bsd_name`, when `/dev/<bsd_name>` is in the mount table. */
  function BsdFound(bsd: Option<string>, allMounts: map<string, string>): seq<Found> {
    if bsd.Some? && DevPath(bsd.value) in allMounts then [Found(allMounts[DevPath(bsd.value)], true)] else []
  }

  /** Media by media: the `volumes` mount points, then the `bsd_name` mount. */
  function MediaFound(ms: seq<Media>, allMounts: map<string, string>): seq<Found> {
    if ms == [] then []
    else
      var md := ms[|ms| - 1];
      MediaFound(ms[..|ms| - 1], allMounts) + VolumeFound(md.volumes) + BsdFound(md.bsdName, allMounts)
  }

  /**
   * A volume record for a found mount point: mounted there, without a name, and listing
   * that drive's entry files whenever the drive was read (a bsd join, or `drive_info`).
   */
  predicate Fits(v: Volume, f: Found, env: MacEnv) {
    && v.mountPoint == Some(f.mount)
    && v.name.None?
    && ((f.bsd || env.driveInfo) ==> v.mains == DriveInfo(f.mount, env.drives).0)
  }

  /**
   * `r` extends `acc` by one fitting volume per found mount point, in order. A `volumes`
   * entry read without `drive_info` carries the previous volume's mains (or the starting
   * mains), and the carried mains after the loop are the last volume's.
   */
  predicate Gathered(acc: MediaAcc, r: MediaAcc, fs: seq<Found>, env: MacEnv) {
    var n := |acc.volumes|;
    && |r.volumes| == n + |fs|
    && r.volumes[..n] == acc.volumes
    && (forall i :: 0 <= i < |fs| ==> Fits(r.volumes[n + i], fs[i], env))
    && (forall i :: 0 <= i < |fs| && !fs[i].bsd && !env.driveInfo ==>
          r.volumes[n + i].mains == (if i == 0 then acc.mains else r.volumes[n + i - 1].mains))
    && r.mains == (if fs == [] then acc.mains else r.volumes[|r.volumes| - 1].mains)
  }

  lemma GatheredRefl(acc: MediaAcc, env: MacEnv)
    ensures Gathered(acc, acc, [], env)
  {
  }

  /** Appending one fitting volume keeps every earlier volume fitting its mount point. */
  lemma SnocFits(n: nat, vs: seq<Volume>, fs: seq<Found>, f: Found, x: Volume, env: MacEnv)
    requires |vs| == n + |fs|
    requires forall i :: 0 <= i < |fs| ==> Fits(vs[n + i], fs[i], env)
    requires Fits(x, f, env)
    ensures forall i :: 0 <= i < |fs| + 1 ==> Fits((vs + [x])[n + i], (fs + [f])[i], env)
  {
    forall i | 0 <= i < |fs| + 1
      ensures Fits((vs + [x])[n + i], (fs + [f])[i], env)
    {
      if i < |fs| {
        assert (vs + [x])[n + i] == vs[n + i];
      }
    }
  }

  /** Appending one volume that carries the previous mains keeps the carry relation. */
  lemma SnocCarries(n: nat, start: seq<string>, vs: seq<Volume>, fs: seq<Found>, f: Found, x: Volume, carried: seq<string>, driveInfo: bool)
    requires |vs| == n + |fs|
    requires forall i :: 0 <= i < |fs| && !fs[i].bsd && !driveInfo ==>
      vs[n + i].mains == (if i == 0 then start else vs[n + i - 1].mains)
    requires carried == (if fs == [] then start else vs[|vs| - 1].mains)
    requires !f.bsd && !driveInfo ==> x.mains == carried
    ensures forall i :: 0 <= i < |fs| + 1 && !(fs + [f])[i].bsd && !driveInfo ==>
      (vs + [x])[n + i].mains == (if i == 0 then start else (vs + [x])[n + i - 1].mains)
  {
    var ws := vs + [x];
    var gs := fs + [f];
    forall i | 0 <= i < |gs| && !gs[i].bsd && !driveInfo
      ensures ws[n + i].mains == (if i == 0 then start else ws[n + i - 1].mains)
    {
      if i < |fs| {
        assert ws[n + i] == vs[n + i];
        if i > 0 {
          assert ws[n + i - 1] == vs[n + i - 1];
        }
      } else if i > 0 {
        assert ws[n + i - 1] == vs[|vs| - 1];
      }
    }
  }

  /** Appending one fitting volume extends the correspondence by its mount point. */
  lemma GatheredSnoc(acc: MediaAcc, r: MediaAcc, fs: seq<Found>, f: Found, x: Volume, mains: seq<string>, version: string, env: MacEnv)
    requires Gathered(acc, r, fs, env)
    requires Fits(x, f, env)
    requires !f.bsd && !env.driveInfo ==> x.mains == r.mains
    requires mains == x.mains
    ensures Gathered(acc, MediaAcc(r.volumes + [x], mains, version), fs + [f], env)
  {
    var n := |acc.volumes|;
    assert (r.volumes + [x])[..n] == r.volumes[..n];
    SnocFits(n, r.volumes, fs, f, x, env);
    SnocCarries(n, acc.mains, r.volumes, fs, f, x, r.mains, env.driveInfo);
  }

  lemma GatheredVolumes(acc: MediaAcc, r: MediaAcc, fs: seq<Found>, vs: seq<MediaVolume>, env: MacEnv)
    requires Gathered(acc, r, fs, env)
    ensures Gathered(acc, ScanVolumes(vs, r, env), fs + VolumeFound(vs), env)
    decreases |vs|
  {
    if vs == [] {
      assert fs + [] == fs;
    } else {
      var init := vs[..|vs| - 1];
      var v := vs[|vs| - 1];
      GatheredVolumes(acc, r, fs, init, env);
      var mid := ScanVolumes(init, r, env);
      if v.mountPoint.Some? {
        var m := v.mountPoint.value;
        var acc1 := if env.driveInfo then mid.(mains := DriveInfo(m, env.drives).0, version := DriveInfo(m, env.drives).1) else mid;
        GatheredSnoc(acc, mid, fs + VolumeFound(init), Found(m, false), Volume(Some(m), None, acc1.mains), acc1.mains, acc1.version, env);
        assert fs + VolumeFound(init) + [Found(m, false)] == fs + VolumeFound(vs);
      } else {
        assert fs + VolumeFound(init) + [] == fs + VolumeFound(vs);
      }
    }
  }

  lemma GatheredBsd(acc: MediaAcc, r: MediaAcc, fs: seq<Found>, bsd: Option<string>, env: MacEnv)
    requires Gathered(acc, r, fs, env)
    ensures Gathered(acc, BsdStep(bsd, r, env), fs + BsdFound(bsd, env.allMounts), env)
  {
    if bsd.Some? && DevPath(bsd.value) in env.allMounts {
      var m := env.allMounts[DevPath(bsd.value)];
      var info := DriveInfo(m, env.drives);
      assert BsdStep(bsd, r, env) == MediaAcc(r.volumes + [Volume(Some(m), None, info.0)], info.0, info.1);
      assert BsdFound(bsd, env.allMounts) == [Found(m, true)];
      GatheredSnoc(acc, r, fs, Found(m, true), Volume(Some(m), None, info.0), info.0, info.1, env);
    } else {
      assert BsdStep(bsd, r, env) == r;
      assert BsdFound(bsd, env.allMounts) == [];
      assert fs + [] == fs;
    }
  }

  lemma GatheredMedia(acc: MediaAcc, ms: seq<Media>, env: MacEnv)
    ensures Gathered(acc, ScanMedia(ms, acc, env), MediaFound(ms, env.allMounts), env)
    decreases |ms|
  {
    if ms == [] {
      GatheredRefl(acc, env);
    } else {
      var init := ms[..|ms| - 1];
      var md := ms[|ms| - 1];
      GatheredMedia(acc, init, env);
      var fs := MediaFound(init, env.allMounts);
      GatheredVolumes(acc, ScanMedia(init, acc, env), fs, md.volumes, env);
      GatheredBsd(acc, ScanVolumes(md.volumes, ScanMedia(init, acc, env), env), fs + VolumeFound(md.volumes), md.bsdName, env);
    }
  }

  /** `Gathered` from the media loop's starting state, read index by index. */
  lemma GatheredFromStart(r: MediaAcc, fs: seq<Found>, env: MacEnv)
    requires Gathered(MediaAcc([], [], ""), r, fs, env)
    ensures |r.volumes| == |fs|
    ensures forall i :: 0 <= i < |fs| ==> r.volumes[i].mountPoint == Some(fs[i].mount) && r.volumes[i].name.None?
    ensures forall i :: 0 <= i < |fs| && (fs[i].bsd || env.driveInfo) ==> r.volumes[i].mains == DriveInfo(fs[i].mount, env.drives).0
    ensures forall i :: 0 <= i < |fs| && !fs[i].bsd && !env.driveInfo ==> r.volumes[i].mains == (if i == 0 then [] else r.volumes[i - 1].mains)
  {
    forall i | 0 <= i < |fs|
      ensures Fits(r.volumes[i], fs[i], env)
    {
      assert Fits(r.volumes[0 + i], fs[i], env);
    }
    forall i | 0 <= i < |fs| && !fs[i].bsd && !env.driveInfo
      ensures r.volumes[i].mains == (if i == 0 then [] else r.volumes[i - 1].mains)
    {
      assert r.volumes[0 + i] == r.volumes[i];
    }
  }

  /**
   * The volumes an admitted node collects: one per found mount point, in media order (each
   * media's mounted `volumes`, then its `bsd_name` when `/dev/<bsd_name>` is in the mount
   * table), each mounted there and unnamed. A drive that is read lists its own entry files;
   * without `drive_info`, a `volumes` entry repeats the previous volume's entry files, or
   * none for the first volume.
   */
  lemma ScanMediaVolumes(ms: seq<Media>, env: MacEnv)
    ensures var vols := ScanMedia(ms, MediaAcc([], [], ""), env).volumes;
      var fs := MediaFound(ms, env.allMounts);
      && |vols| == |fs|
      && (forall i :: 0 <= i < |fs| ==> vols[i].mountPoint == Some(fs[i].mount) && vols[i].name.None?)
      && (forall i :: 0 <= i < |fs| && (fs[i].bsd || env.driveInfo) ==> vols[i].mains == DriveInfo(fs[i].mount, env.drives).0)
      && (forall i :: 0 <= i < |fs| && !fs[i].bsd && !env.driveInfo ==> vols[i].mains == (if i == 0 then [] else vols[i - 1].mains))
  {
    var acc := MediaAcc([], [], "");
    GatheredMedia(acc, ms, env);
    GatheredFromStart(ScanMedia(ms, acc, env), MediaFound(ms, env.allMounts), env);
  }

  /** A `volumes` entry's mount point is found iff some entry of that media carries it. */
  lemma VolumeFoundIff(vs: seq<MediaVolume>, f: Found)
    ensures f in VolumeFound(vs) <==> !f.bsd && exists j :: 0 <= j < |vs| && vs[j].mountPoint == Some(f.mount)
    decreases |vs|
  {
    if vs != [] {
      var init := vs[..|vs| - 1];
      VolumeFoundIff(init, f);
      if exists j :: 0 <= j < |vs| && vs[j].mountPoint == Some(f.mount) {
        var j :| 0 <= j < |vs| && vs[j].mountPoint == Some(f.mount);
        if j < |vs| - 1 {
          assert init[j] == vs[j];
        }
      }
      if exists j :: 0 <= j < |init| && init[j].mountPoint == Some(f.mount) {
        var j :| 0 <= j < |init| && init[j].mountPoint == Some(f.mount);
        assert vs[j] == init[j];
      }
    }
  }

  /**
   * The version the media loop leaves: that of the last found mount point whose drive was
   * read (a bsd join, or any volume under `drive_info`), or `v0` when none was.
   */
  function LastRead(fs: seq<Found>, env: MacEnv, v0: string): string {
    if fs == [] then v0
    else
      var f := fs[|fs| - 1];
      if f.bsd || env.driveInfo then DriveInfo(f.mount, env.drives).1 else LastRead(fs[..|fs| - 1], env, v0)
  }

  lemma {:induction false} LastReadAppend(a: seq<Found>, b: seq<Found>, env: MacEnv, v0: string)
    ensures LastRead(a + b, env, v0) == LastRead(b, env, LastRead(a, env, v0))
    decreases |b|
  {
    if b == [] {
      assert a + b == a;
    } else {
      var init := b[..|b| - 1];
      assert (a + b)[..|a + b| - 1] == a + init;
      LastReadAppend(a, init, env, v0);
    }
  }

  lemma {:induction false} ScanVolumesVersion(vs: seq<MediaVolume>, acc: MediaAcc, env: MacEnv)
    ensures ScanVolumes(vs, acc, env).version == LastRead(VolumeFound(vs), env, acc.version)
    decreases |vs|
  {
    if vs != [] {
      var init := vs[..|vs| - 1];
      var v := vs[|vs| - 1];
      ScanVolumesVersion(init, acc, env);
      var tail := if v.mountPoint.Some? then [Found(v.mountPoint.value, false)] else [];
      LastReadAppend(VolumeFound(init), tail, env, acc.version);
    }
  }

  /**
   * An admitted node's version is the `boot_out.txt` version of the last mount point whose
   * drive was read: every bsd join reads it, a `volumes` entry only under `drive_info`.
   * It is "" when no drive was read.
   */
  lemma {:induction false} ScanMediaVersion(ms: seq<Media>, acc: MediaAcc, env: MacEnv)
    ensures ScanMedia(ms, acc, env).version == LastRead(MediaFound(ms, env.allMounts), env, acc.version)
    decreases |ms|
  {
    if ms != [] {
      var init := ms[..|ms| - 1];
      var md := ms[|ms| - 1];
      var fs := MediaFound(init, env.allMounts);
      var mid := ScanMedia(init, acc, env);
      ScanMediaVersion(init, acc, env);
      ScanVolumesVersion(md.volumes, mid, env);
      LastReadAppend(fs, VolumeFound(md.volumes), env, acc.version);
      LastReadAppend(fs + VolumeFound(md.volumes), BsdFound(md.bsdName, env.allMounts), env, acc.version);
    }
  }

  /** The bsd join of one media, as a condition. */
  predicate BsdMounted(md: Media, allMounts: map<string, string>, m: string) {
    md.bsdName.Some? && DevPath(md.bsdName.value) in allMounts && allMounts[DevPath(md.bsdName.value)] == m
  }

  /** A `volumes` entry of one media, as a condition. */
  predicate VolumeMounted(md: Media, m: string) {
    exists j :: 0 <= j < |md.volumes| && md.volumes[j].mountPoint == Some(m)
  }

  /**
   * Both directions of the macOS join: a mount point is found from a `volumes` entry iff
   * some media lists it, and from a `bsd_name` iff some media's `/dev/<bsd_name>` maps to
   * it in the mount table.
   */
  lemma MediaFoundIff(ms: seq<Media>, allMounts: map<string, string>, m: string)
    ensures Found(m, false) in MediaFound(ms, allMounts) <==> exists k :: 0 <= k < |ms| && VolumeMounted(ms[k], m)
    ensures Found(m, true) in MediaFound(ms, allMounts) <==> exists k :: 0 <= k < |ms| && BsdMounted(ms[k], allMounts, m)
  {
    MediaFoundVolumeIff(ms, allMounts, m);
    MediaFoundBsdIff(ms, allMounts, m);
  }

  lemma MediaFoundVolumeIff(ms: seq<Media>, allMounts: map<string, string>, m: string)
    ensures Found(m, false) in MediaFound(ms, allMounts) <==> exists k :: 0 <= k < |ms| && VolumeMounted(ms[k], m)
    decreases |ms|
  {
    if ms != [] {
      var init := ms[..|ms| - 1];
      var md := ms[|ms| - 1];
      MediaFoundVolumeIff(init, allMounts, m);
      VolumeFoundIff(md.volumes, Found(m, false));
      assert Found(m, false) !in BsdFound(md.bsdName, allMounts);
      if exists k :: 0 <= k < |ms| && VolumeMounted(ms[k], m) {
        var k :| 0 <= k < |ms| && VolumeMounted(ms[k], m);
        if k < |ms| - 1 {
          assert init[k] == ms[k];
        }
      }
      if exists k :: 0 <= k < |init| && VolumeMounted(init[k], m) {
        var k :| 0 <= k < |init| && VolumeMounted(init[k], m);
        assert init[k] == ms[k];
      }
    }
  }

  lemma MediaFoundBsdIff(ms: seq<Media>, allMounts: map<string, string>, m: string)
    ensures Found(m, true) in MediaFound(ms, allMounts) <==> exists k :: 0 <= k < |ms| && BsdMounted(ms[k], allMounts, m)
    decreases |ms|
  {
    if ms != [] {
      var init := ms[..|ms| - 1];
      var md := ms[|ms| - 1];
      MediaFoundBsdIff(init, allMounts, m);
      VolumeFoundIff(md.volumes, Found(m, true));
      assert MediaFound(ms, allMounts) == MediaFound(init, allMounts) + VolumeFound(md.volumes) + BsdFound(md.bsdName, allMounts);
      assert Found(m, true) in BsdFound(md.bsdName, allMounts) <==> BsdMounted(md, allMounts, m);
      if exists k :: 0 <= k < |ms| && BsdMounted(ms[k], allMounts, m) {
        var k :| 0 <= k < |ms| && BsdMounted(ms[k], allMounts, m);
        if k < |ms| - 1 {
          assert init[k] == ms[k];
        }
      }
      if exists k :: 0 <= k < |init| && BsdMounted(init[k], allMounts, m) {
        var k :| 0 <= k < |init| && BsdMounted(init[k], allMounts, m);
        assert init[k] == ms[k];
      }
    }
  }

  // ---------------------------------------------------------------- the walk

  /** One node, after its subtree: parse, claim, gate, then volumes. */
  function NodeStep(n: ProfileNode, st: MacState, env: MacEnv): Result<MacState> {
    if n.vendorId.None? then Ok(st)
    else match ParseVid(n.vendorId.value)
    case None => Ok(st)
    case Some(vid) =>
      var pid := ParsePid(n.productId);
      var serial := n.serialNum.GetOr("");
      match Claim(n, vid, pid, serial, st.pool)
      case Err(e) => Err(e)
      case Ok((claimed, rest)) =>
        var ttys := TtysOf(claimed);
        if !(KnownVid(vid) || |ttys| > 0) then Ok(MacState(st.devices, rest))
        else
          var acc := ScanMedia(n.media, MediaAcc([], [], ""), env);
          var rec := Device(n.name, vid, pid, Some(serial), n.manufacturer.GetOr(""), ttys, acc.volumes, acc.version);
          Ok(MacState(st.devices + [rec], rest))
  }

  function WalkSeq(nodes: seq<ProfileNode>, st: MacState, env: MacEnv): Result<MacState>
    decreases nodes
  {
    if nodes == [] then Ok(st)
    else
      match WalkNode(nodes[0], st, env)
      case Err(e) => Err(e)
      case Ok(st1) => WalkSeq(nodes[1..], st1, env)
  }

  /** Depth first: the node's `_items`, then the node itself. */
  function WalkNode(n: ProfileNode, st: MacState, env: MacEnv): Result<MacState>
    decreases n
  {
    match WalkSeq(n.items, st, env)
    case Err(e) => Err(e)
    case Ok(st1) => NodeStep(n, st1, env)
  }

  function DevicePaths(ports: seq<SerialPort>): (r: seq<string>)
    ensures |r| == |ports|
    ensures forall i :: 0 <= i < |ports| ==> r[i] == ports[i].device
  {
    seq(|ports|, i requires 0 <= i < |ports| => ports[i].device)
  }

  /** What `get_devices_list` returns: the records and the device paths of the unclaimed ports. */
  function DevicesList(profile: seq<ProfileNode>, comports: seq<SerialPort>, parts: seq<Partition>, drives: Drives, driveInfo: bool)
    : Result<(seq<Device>, seq<string>)>
  {
    match WalkSeq(profile, MacState([], Identified(comports)), MacEnv(MountTable(parts), drives, driveInfo))
    case Err(e) => Err(e)
    case Ok(st) => Ok((st.devices, DevicePaths(st.pool)))
  }

  // ---------------------------------------------------------------- the profiler

  /** The media loop of one admitted node. */
  method CollectVolumes(ms: seq<Media>, env: MacEnv) returns (deviceVolumes: seq<Volume>, version: string)
    ensures deviceVolumes == ScanMedia(ms, MediaAcc([], [], ""), env).volumes
    ensures version == ScanMedia(ms, MediaAcc([], [], ""), env).version
    ensures version == LastRead(MediaFound(ms, env.allMounts), env, "")
  {
    deviceVolumes, version := [], "";
    var mains: seq<string> := [];
    for i := 0 to |ms|
      invariant MediaAcc(deviceVolumes, mains, version) == ScanMedia(ms[..i], MediaAcc([], [], ""), env)
    {
      assert ms[..i + 1][..i] == ms[..i];
      var media := ms[i];
      ghost var before := MediaAcc(deviceVolumes, mains, version);
      for k := 0 to |media.volumes|
        invariant MediaAcc(deviceVolumes, mains, version) == ScanVolumes(media.volumes[..k], before, env)
      {
        assert media.volumes[..k + 1][..k] == media.volumes[..k];
        var volume := media.volumes[k];
        if volume.mountPoint.Some? {
          var mount := volume.mountPoint.value;
          if env.driveInfo {
            mains, version := GetCpDriveInfo(mount, env.drives);
          }
          deviceVolumes := deviceVolumes + [Volume(Some(mount), None, mains)];
        }
      }
      assert media.volumes[..|media.volumes|] == media.volumes;
      if media.bsdName.Some? {
        var disk := DevPath(media.bsdName.value);
        if disk in env.allMounts {
          var mount := env.allMounts[disk];
          mains, version := GetCpDriveInfo(mount, env.drives);
          deviceVolumes := deviceVolumes + [Volume(Some(mount), None, mains)];
        }
      }
    }
    assert ms[..|ms|] == ms;
    ScanMediaVersion(ms, MediaAcc([], [], ""), env);
  }

  /** The test on one pool port inside the claim loop, where the location lookup can raise. */
  method ClaimsPort(n: ProfileNode, port: SerialPort, vid: int, pid: int, serial: string) returns (r: Result<bool>)
    ensures r.Err? <==> serial == "" && LocationOf(n).Err?
    ensures r.Err? ==> r.error == LocationOf(n).error
    ensures r.Ok? ==> r.value == ClaimTest(vid, pid, serial, LocOrEmpty(n))(port)
  {
    if port.hwid == Some(UsbId(vid, pid)) && serial != "" && port.serialNumber == Some(serial) {
      return Ok(true);
    } else if serial == "" {
      var location := LocationOf(n);
      if location.Err? {
        return Err(location.error);
      }
      var hit := false;
      for k := 0 to |SerialPrefixes|
        invariant hit <==> exists i :: 0 <= i < k && StartsWith(port.device, SerialPrefixes[i] + location.value)
      {
        if StartsWith(port.device, SerialPrefixes[k] + location.value) {
          hit := true;
        }
      }
      return Ok(hit);
    }
    return Ok(false);
  }

  /** The walker, holding the global pool of not yet claimed serial ports. */
  class MacProfiler {
    var remainingPorts: seq<SerialPort>

    /** `remainingPorts = [x for x in comports() if x.vid is not None]` */
    constructor (comports: seq<SerialPort>)
      ensures remainingPorts == Identified(comports)
    {
      remainingPorts := Identified(comports);
    }

    /**
     * The claim loop over a copy of the pool; the claimed ports leave the pool, which is
     * written back once the loop has visited every port.
     */
    method ClaimPorts(n: ProfileNode, vid: int, pid: int, serial: string) returns (r: Result<seq<Tty>>)
      modifies this
      ensures r.Err? ==> Claim(n, vid, pid, serial, old(remainingPorts)) == Err(r.error)
      ensures r.Err? ==> remainingPorts == old(remainingPorts)
      ensures r.Ok? ==> Claim(n, vid, pid, serial, old(remainingPorts)) == Ok((Claimed(n, vid, pid, serial, old(remainingPorts)), remainingPorts))
      ensures r.Ok? ==> r.value == TtysOf(Claimed(n, vid, pid, serial, old(remainingPorts)))
    {
      var ports := remainingPorts;
      var ttys: seq<Tty> := [];
      var kept: seq<SerialPort> := [];
      for j := 0 to |ports|
        invariant kept == Unclaimed(n, vid, pid, serial, ports[..j])
        invariant ttys == TtysOf(Claimed(n, vid, pid, serial, ports[..j]))
        invariant serial == "" && j > 0 ==> LocationOf(n).Ok?
        invariant remainingPorts == old(remainingPorts)
      {
        var port := ports[j];
        assert ports[..j + 1] == ports[..j] + [port];
        ClaimedStep(n, vid, pid, serial, ports[..j], port);
        var claimedHere := ClaimsPort(n, port, vid, pid, serial);
        if claimedHere.Err? {
          return Err(claimedHere.error);
        }
        if claimedHere.value {
          TtysOfAppend(Claimed(n, vid, pid, serial, ports[..j]), [port]);
          ttys := ttys + [TtyOf(port)];
        } else {
          kept := kept + [port];
        }
      }
      assert ports[..|ports|] == ports;
      remainingPorts := kept;
      assert ports == old(remainingPorts);
      return Ok(ttys);
    }

    /** One node after its subtree: the body of the `for subGroup in profile` loop. */
    method ReadNode(n: ProfileNode, devices: seq<Device>, env: MacEnv) returns (r: Result<seq<Device>>)
      modifies this
      ensures r.Err? ==> NodeStep(n, MacState(devices, old(remainingPorts)), env) == Err(r.error)
      ensures r.Ok? ==> NodeStep(n, MacState(devices, old(remainingPorts)), env) == Ok(MacState(r.value, remainingPorts))
    {
      if n.vendorId.None? {
        return Ok(devices);
      }
      var vid := ParseVid(n.vendorId.value);
      if vid.None? {
        return Ok(devices);
      }
      var pid := ParsePid(n.productId);
      var serial := n.serialNum.GetOr("");
      var manufacturer := n.manufacturer.GetOr("");
      var claimed := ClaimPorts(n, vid.value, pid, serial);
      if claimed.Err? {
        return Err(claimed.error);
      }
      var ttys := claimed.value;
      if !(KnownVid(vid.value) || |ttys| > 0) {
        return Ok(devices);
      }
      var deviceVolumes, version := CollectVolumes(n.media, env);
      return Ok(devices + [Device(n.name, vid.value, pid, Some(serial), manufacturer, ttys, deviceVolumes, version)]);
    }

    /** `readSysProfile(profile, devices, allMounts, drive_info)` */
    method ReadSysProfile(profile: seq<ProfileNode>, devices: seq<Device>, env: MacEnv) returns (r: Result<seq<Device>>)
      modifies this
      ensures r.Err? ==> WalkSeq(profile, MacState(devices, old(remainingPorts)), env) == Err(r.error)
      ensures r.Ok? ==> WalkSeq(profile, MacState(devices, old(remainingPorts)), env) == Ok(MacState(r.value, remainingPorts))
      decreases profile
    {
      var devs := devices;
      for i := 0 to |profile|
        invariant WalkSeq(profile, MacState(devices, old(remainingPorts)), env) == WalkSeq(profile[i..], MacState(devs, remainingPorts), env)
      {
        var subGroup := profile[i];
        assert profile[i..][1..] == profile[i + 1..];
        var sub := ReadSysProfile(subGroup.items, devs, env);
        if sub.Err? {
          return Err(sub.error);
        }
        devs := sub.value;
        var step := ReadNode(subGroup, devs, env);
        if step.Err? {
          return Err(step.error);
        }
        devs := step.value;
      }
      return Ok(devs);
    }
  }

  /** `get_devices_list(drive_info)` over the profile, the ports and the partitions. */
  method GetDevicesList(profile: seq<ProfileNode>, comports: seq<SerialPort>, parts: seq<Partition>, drives: Drives, driveInfo: bool)
    returns (r: Result<(seq<Device>, seq<string>)>)
    ensures r == DevicesList(profile, comports, parts, drives, driveInfo)
  {
    var profiler := new MacProfiler(comports);
    var allMounts := BuildMountTable(parts);
    var deviceList := profiler.ReadSysProfile(profile, [], MacEnv(allMounts, drives, driveInfo));
    if deviceList.Err? {
      return Err(deviceList.error);
    }
    var rp := DevicePaths(profiler.remainingPorts);
    return Ok((deviceList.value, rp));
  }

  // ---------------------------------------------------------------- properties

  /** A node without a vendor id, or with one whose first token is not hex, changes nothing. */
  lemma NodeWithoutVidIsSkipped(n: ProfileNode, st: MacState, env: MacEnv)
    requires n.vendorId.None? || ParseVid(n.vendorId.value).None?
    ensures NodeStep(n, st, env) == Ok(st)
  {
  }

  /** With a serial number, a port is claimed iff its vid, pid and serial all match the node's. */
  lemma ClaimBySerial(n: ProfileNode, vid: int, pid: int, serial: string, pool: seq<SerialPort>, p: SerialPort)
    requires serial != ""
    ensures Claim(n, vid, pid, serial, pool).Ok?
    ensures p in Claimed(n, vid, pid, serial, pool) <==>
      p in pool && p.hwid == Some(UsbId(vid, pid)) && p.serialNumber == Some(serial)
  {
    FilterMembers(pool, ClaimTest(vid, pid, serial, LocOrEmpty(n)));
  }

  /** Without a serial number, a port is claimed iff its path starts with a prefix followed by the location. */
  lemma ClaimByLocation(n: ProfileNode, vid: int, pid: int, pool: seq<SerialPort>, p: SerialPort)
    requires LocationOf(n).Ok?
    ensures Claim(n, vid, pid, "", pool).Ok?
    ensures p in Claimed(n, vid, pid, "", pool) <==>
      p in pool && (StartsWith(p.device, "/dev/cu.usbmodem" + LocationOf(n).value)
                    || StartsWith(p.device, "/dev/cu.usbserial-" + LocationOf(n).value))
  {
    FilterMembers(pool, ClaimTest(vid, pid, "", LocOrEmpty(n)));
  }

  /** Without a serial number and with a non-empty pool, a location_id with no token raises. */
  lemma ClaimNeedsLocation(n: ProfileNode, vid: int, pid: int, pool: seq<SerialPort>)
    requires pool != [] && LocationOf(n).Err?
    ensures Claim(n, vid, pid, "", pool).Err?
  {
  }

  /** No path starts with both prefixes, so the prefix loop appends and removes a port at most once. */
  lemma PrefixesExclusive(device: string, loc: string)
    ensures !(StartsWith(device, SerialPrefixes[0] + loc) && StartsWith(device, SerialPrefixes[1] + loc))
  {
    var p0, p1 := SerialPrefixes[0] + loc, SerialPrefixes[1] + loc;
    if StartsWith(device, p0) {
      assert device[11] == device[..|p0|][11] == p0[11] == 'm';
      assert p1[11] == 's';
      assert |p1| <= |device| ==> device[..|p1|][11] != p1[11];
    }
  }

  /**
   * How the walk's state may change: no tty is lost or duplicated between the records and
   * the pool, records are only appended, and the pool keeps its order while it shrinks.
   */
  predicate Evolves(st: MacState, st': MacState) {
    && multiset(AllTtys(st'.devices)) + multiset(TtysOf(st'.pool)) == multiset(AllTtys(st.devices)) + multiset(TtysOf(st.pool))
    && st.devices <= st'.devices
    && SubseqOf(st'.pool, st.pool)
  }

  lemma EvolvesRefl(st: MacState)
    ensures Evolves(st, st)
  {
    SubseqRefl(st.pool);
  }

  lemma EvolvesTrans(a: MacState, b: MacState, c: MacState)
    requires Evolves(a, b) && Evolves(b, c)
    ensures Evolves(a, c)
  {
    SubseqTrans(c.pool, b.pool, a.pool);
  }

  /** A node that passes the gate: its record carries exactly the ports it took from the pool. */
  lemma AdmitEvolves(devices: seq<Device>, pool: seq<SerialPort>, test: SerialPort -> bool, rec: Device)
    requires rec.ports == TtysOf(Filter(pool, test))
    ensures Evolves(MacState(devices, pool), MacState(devices + [rec], FilterOut(pool, test)))
  {
    FilterIsSubseq(pool, test);
    FilterConserves(pool, test);
    AppendRecordTtys(devices, rec);
    MultisetRegroup(AllTtys(devices), TtysOf(Filter(pool, test)), TtysOf(FilterOut(pool, test)), TtysOf(pool));
  }

  lemma AppendRecordTtys(devices: seq<Device>, rec: Device)
    ensures AllTtys(devices + [rec]) == AllTtys(devices) + rec.ports
    ensures devices <= devices + [rec]
  {
    AllTtysAppend(devices, [rec]);
    assert AllTtys([rec]) == rec.ports + AllTtys([]);
  }

  lemma MultisetRegroup(a: seq<Tty>, c: seq<Tty>, r: seq<Tty>, p: seq<Tty>)
    requires multiset(c) + multiset(r) == multiset(p)
    ensures multiset(a + c) + multiset(r) == multiset(a) + multiset(p)
  {
  }

  /** A node that fails the gate: it took nothing from the pool. */
  lemma DropEvolves(devices: seq<Device>, pool: seq<SerialPort>, test: SerialPort -> bool)
    requires Filter(pool, test) == []
    ensures Evolves(MacState(devices, pool), MacState(devices, FilterOut(pool, test)))
  {
    FilterConserves(pool, test);
    FilterIsSubseq(pool, test);
  }

  /** A node that claims a port always passes the gate, so its claimed ports reach its record. */
  lemma {:induction false} NodeStepEvolves(n: ProfileNode, st: MacState, env: MacEnv)
    requires NodeStep(n, st, env).Ok?
    ensures Evolves(st, NodeStep(n, st, env).value)
  {
    if n.vendorId.None? || ParseVid(n.vendorId.value).None? {
      EvolvesRefl(st);
    } else {
      var vid := ParseVid(n.vendorId.value).value;
      var pid := ParsePid(n.productId);
      var serial := n.serialNum.GetOr("");
      var test := ClaimTest(vid, pid, serial, LocOrEmpty(n));
      var claimed := Claimed(n, vid, pid, serial, st.pool);
      if KnownVid(vid) || |TtysOf(claimed)| > 0 {
        var st' := NodeStep(n, st, env).value;
        AdmitEvolves(st.devices, st.pool, test, st'.devices[|st'.devices| - 1]);
      } else {
        DropEvolves(st.devices, st.pool, test);
      }
    }
  }

  lemma {:induction false} WalkSeqEvolves(nodes: seq<ProfileNode>, st: MacState, env: MacEnv)
    requires WalkSeq(nodes, st, env).Ok?
    ensures Evolves(st, WalkSeq(nodes, st, env).value)
    decreases nodes
  {
    if nodes == [] {
      EvolvesRefl(st);
    } else {
      WalkNodeEvolves(nodes[0], st, env);
      var st1 := WalkNode(nodes[0], st, env).value;
      WalkSeqEvolves(nodes[1..], st1, env);
      EvolvesTrans(st, st1, WalkSeq(nodes, st, env).value);
    }
  }

  lemma {:induction false} WalkNodeEvolves(n: ProfileNode, st: MacState, env: MacEnv)
    requires WalkNode(n, st, env).Ok?
    ensures Evolves(st, WalkNode(n, st, env).value)
    decreases n
  {
    WalkSeqEvolves(n.items, st, env);
    var st1 := WalkSeq(n.items, st, env).value;
    NodeStepEvolves(n, st1, env);
    EvolvesTrans(st, st1, WalkNode(n, st, env).value);
  }

  /**
   * Post-order: every record promoted from a node's subtree comes before the node's own
   * record, which, when there is one, is the last and carries the node's name.
   */
  lemma NodeAfterItsSubtree(n: ProfileNode, st: MacState, env: MacEnv)
    requires WalkNode(n, st, env).Ok?
    ensures WalkSeq(n.items, st, env).Ok?
    ensures st.devices <= WalkSeq(n.items, st, env).value.devices <= WalkNode(n, st, env).value.devices
    ensures |WalkNode(n, st, env).value.devices| <= |WalkSeq(n.items, st, env).value.devices| + 1
    ensures |WalkNode(n, st, env).value.devices| == |WalkSeq(n.items, st, env).value.devices| + 1 ==>
      Last(WalkNode(n, st, env).value.devices).name == n.name
  {
    WalkSeqEvolves(n.items, st, env);
    NodeStepEvolves(n, WalkSeq(n.items, st, env).value, env);
  }

  /**
   * The gate: once a node's vendor id parses and its claim succeeds, it becomes a record
   * iff its vendor id is known or it claimed at least one port; either way the claimed
   * ports leave the pool.
   */
  lemma Gate(n: ProfileNode, st: MacState, env: MacEnv)
    requires n.vendorId.Some? && ParseVid(n.vendorId.value).Some?
    requires Claim(n, ParseVid(n.vendorId.value).value, ParsePid(n.productId), n.serialNum.GetOr(""), st.pool).Ok?
    ensures NodeStep(n, st, env).Ok?
    ensures NodeStep(n, st, env).value.pool == Unclaimed(n, ParseVid(n.vendorId.value).value, ParsePid(n.productId), n.serialNum.GetOr(""), st.pool)
    ensures |NodeStep(n, st, env).value.devices| == |st.devices| + 1 <==>
      KnownVid(ParseVid(n.vendorId.value).value) || Claimed(n, ParseVid(n.vendorId.value).value, ParsePid(n.productId), n.serialNum.GetOr(""), st.pool) != []
  {
  }

  /**
   * The record an admitted node adds: its name and ids, its claimed ports as ttys in pool
   * order, and the volumes and version of its media (characterised by ScanMediaVolumes).
   */
  lemma AdmittedRecord(n: ProfileNode, st: MacState, env: MacEnv)
    requires n.vendorId.Some? && ParseVid(n.vendorId.value).Some?
    ensures var vid := ParseVid(n.vendorId.value).value;
      var pid := ParsePid(n.productId);
      var serial := n.serialNum.GetOr("");
      var acc := ScanMedia(n.media, MediaAcc([], [], ""), env);
      var r := NodeStep(n, st, env);
      r.Ok? && |r.value.devices| == |st.devices| + 1 ==>
        && r.value.devices[..|st.devices|] == st.devices
        && Last(r.value.devices) == Device(n.name, vid, pid, Some(serial), n.manufacturer.GetOr(""),
             TtysOf(Claimed(n, vid, pid, serial, st.pool)), acc.volumes, acc.version)
  {
    var r := NodeStep(n, st, env);
    if r.Ok? && |r.value.devices| == |st.devices| + 1 {
      assert r.value.devices[..|st.devices|] == st.devices;
    }
  }

  /** The gate is decided before any media is looked at: media change neither the pool nor whether a record appears. */
  lemma GateIgnoresMedia(n: ProfileNode, media: seq<Media>, st: MacState, env: MacEnv)
    ensures NodeStep(n, st, env).Ok? <==> NodeStep(n.(media := media), st, env).Ok?
    ensures NodeStep(n, st, env).Ok? ==>
      && NodeStep(n, st, env).value.pool == NodeStep(n.(media := media), st, env).value.pool
      && |NodeStep(n, st, env).value.devices| == |NodeStep(n.(media := media), st, env).value.devices|
  {
    var m := n.(media := media);
    assert LocationOf(m) == LocationOf(n);
    assert LocOrEmpty(m) == LocOrEmpty(n);
  }

  /**
   * Over a whole run, every identified port ends up either in exactly one record's ports or
   * among the remaining ports, which keep the pool's order and are returned as device paths.
   */
  lemma DevicesListConserves(profile: seq<ProfileNode>, comports: seq<SerialPort>, parts: seq<Partition>, drives: Drives, driveInfo: bool)
    requires DevicesList(profile, comports, parts, drives, driveInfo).Ok?
    ensures var st := WalkSeq(profile, MacState([], Identified(comports)), MacEnv(MountTable(parts), drives, driveInfo)).value;
      && multiset(AllTtys(st.devices)) + multiset(TtysOf(st.pool)) == multiset(TtysOf(Identified(comports)))
      && SubseqOf(st.pool, Identified(comports))
      && DevicesList(profile, comports, parts, drives, driveInfo).value == (st.devices, DevicePaths(st.pool))
  {
    WalkSeqEvolves(profile, MacState([], Identified(comports)), MacEnv(MountTable(parts), drives, driveInfo));
  }
}
