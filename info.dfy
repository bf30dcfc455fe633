/**
 * The package front end: every provider record is wrapped in a `DeviceInfoDict`, a dict
 * that also exposes its keys and a few derived values as attributes, and the
 * `devices_by_*` helpers filter the wrapped list.
 */
module Usbinfos {
  import opened Wrappers
  import opened Text
  import opened Records

  /**
   * A record as a dict: a key is None when the record lacks it. `serialNum` holds the
   * value, which is itself None for a Windows port without a serial number.
   */
  datatype RecordDict = RecordDict(
    vendorId: Option<int>, productId: Option<int>, serialNum: Option<Option<string>>,
    manufacturer: Option<string>, name: Option<string>, volumes: Option<seq<Volume>>,
    ports: Option<seq<Tty>>, version: Option<string>)

  /** A provider record as a dict: the providers set all eight keys. */
  function DictOf(d: Device): (r: RecordDict)
    ensures r.volumes == Some(d.volumes) && r.ports == Some(d.ports) && r.name == Some(d.name)
  {
    RecordDict(Some(d.vendorId), Some(d.productId), Some(d.serialNum), Some(d.manufacturer), Some(d.name), Some(d.volumes), Some(d.ports), Some(d.version))
  }

  /**
   * A `DeviceInfoDict`: the dict and its attributes. An attribute is None when its key is
   * missing or its value is None (Python does not tell the two apart).
   */
  datatype InfoView = InfoView(
    dict: RecordDict,
    vendorId: Option<int>, productId: Option<int>, serialNum: Option<string>,
    manufacturer: Option<string>, name: Option<string>, volumes: Option<seq<Volume>>,
    ports: Option<seq<Tty>>, version: Option<string>,
    vid: Option<int>, pid: Option<int>,
    drive: Option<string>, volumeName: string, volume: Option<string>,
    data: Option<string>, repl: Option<string>)

  /** `port["iface"].find("CDC2") >= 0`: the port is a board's second (data) CDC interface. */
  predicate IsData(t: Tty) {
    Contains(t.iface, "CDC2")
  }

  /** The index of the last port whose `IsData` is `data`. */
  function LastPort(ports: seq<Tty>, data: bool): (r: Option<nat>)
    ensures r.Some? ==> r.value < |ports| && IsData(ports[r.value]) == data
    ensures r.Some? ==> forall j :: r.value < j < |ports| ==> IsData(ports[j]) != data
    ensures r.None? <==> forall j :: 0 <= j < |ports| ==> IsData(ports[j]) != data
  {
    if ports == [] then None
    else if IsData(ports[|ports| - 1]) == data then Some(|ports| - 1)
    else LastPort(ports[..|ports| - 1], data)
  }

  /** The device path of the last port whose `IsData` is `data`: the loop's last write wins. */
  function LastDev(ports: seq<Tty>, data: bool): Option<string> {
    match LastPort(ports, data)
    case None => None
    case Some(i) => Some(ports[i].dev)
  }

  /** The first volume's mount point and name, or the KeyError reading them raises. */
  function FirstVolume(volumes: seq<Volume>): (r: Result<(Option<string>, string)>)
    requires volumes != []
    ensures r.Err? <==> volumes[0].mountPoint.None? || volumes[0].name.None?
  {
    var v := volumes[0];
    if v.mountPoint.None? then Err(KeyError("mount_point"))
    else if v.name.None? then Err(KeyError("name"))
    else Ok((v.mountPoint, v.name.value))
  }

  /** `DeviceInfoDict(device_info)`: only a missing key can make it raise. */
  function InfoOf(rec: RecordDict): (r: Result<InfoView>)
    ensures r.Err? ==> r.error.KeyError?
    ensures r.Err? <==> rec.volumes.None? || rec.ports.None? || (rec.volumes.value != [] && FirstVolume(rec.volumes.value).Err?)
  {
    var serial := if rec.serialNum.Some? then rec.serialNum.value else None;
    match rec.volumes
    case None => Err(KeyError("volumes"))
    case Some(vols) =>
      var first := if vols == [] then Ok((None, "")) else FirstVolume(vols);
      if first.Err? then Err(first.error)
      else
        match rec.ports
        case None => Err(KeyError("ports"))
        case Some(ports) =>
          var (drive, volumeName) := first.value;
          Ok(InfoView(rec, rec.vendorId, rec.productId, serial, rec.manufacturer, rec.name, rec.volumes, rec.ports, rec.version,
            rec.vendorId, rec.productId, drive, volumeName, drive, LastDev(ports, true), LastDev(ports, false)))
  }

  /** `DeviceInfoDict.__init__`: the attributes in order, then the port loop. */
  method MakeDeviceInfoDict(rec: RecordDict) returns (r: Result<InfoView>)
    ensures r == InfoOf(rec)
  {
    var serialNum := if rec.serialNum.Some? then rec.serialNum.value else None;
    var vid, pid := rec.vendorId, rec.productId;
    var drive: Option<string> := None;
    var volumeName := "";
    if rec.volumes.None? {
      return Err(KeyError("volumes"));
    }
    if rec.volumes.value != [] {
      var v := rec.volumes.value[0];
      if v.mountPoint.None? {
        return Err(KeyError("mount_point"));
      }
      drive := v.mountPoint;
      if v.name.None? {
        return Err(KeyError("name"));
      }
      volumeName := v.name.value;
    }
    var volume := drive;
    var data: Option<string> := None;
    var repl: Option<string> := None;
    if rec.ports.None? {
      return Err(KeyError("ports"));
    }
    var ports := rec.ports.value;
    for i := 0 to |ports|
      invariant data == LastDev(ports[..i], true)
      invariant repl == LastDev(ports[..i], false)
    {
      assert ports[..i + 1][..i] == ports[..i];
      if Contains(ports[i].iface, "CDC2") {
        data := Some(ports[i].dev);
      } else {
        repl := Some(ports[i].dev);
      }
    }
    assert ports[..|ports|] == ports;
    r := Ok(InfoView(rec, rec.vendorId, rec.productId, serialNum, rec.manufacturer, rec.name, rec.volumes, rec.ports, rec.version,
      vid, pid, drive, volumeName, volume, data, repl));
  }

  /** Each listed key becomes an attribute; `vid`/`pid` alias the USB ids and `volume` the drive. */
  lemma InfoAttributes(rec: RecordDict)
    requires InfoOf(rec).Ok?
    ensures var v := InfoOf(rec).value;
      && v.dict == rec && v.vendorId == v.vid == rec.vendorId && v.productId == v.pid == rec.productId
      && v.name == rec.name && v.manufacturer == rec.manufacturer && v.version == rec.version
      && v.volumes == rec.volumes && v.ports == rec.ports && v.volume == v.drive
      && (rec.serialNum.Some? ==> v.serialNum == rec.serialNum.value)
      && (rec.serialNum.None? ==> v.serialNum.None?)
  {
  }

  /** Without volumes there is no drive and the volume name is empty; with them, the first names the drive. */
  lemma InfoDrive(rec: RecordDict)
    requires rec.volumes.Some? && rec.ports.Some?
    ensures rec.volumes.value == [] ==> InfoOf(rec).Ok? && InfoOf(rec).value.drive.None? && InfoOf(rec).value.volumeName == ""
    ensures rec.volumes.value != [] && FirstVolume(rec.volumes.value).Ok? ==>
      InfoOf(rec).Ok? && InfoOf(rec).value.drive == rec.volumes.value[0].mountPoint && InfoOf(rec).value.volumeName == rec.volumes.value[0].name.value
  {
  }

  /**
   * `data` is the last port whose interface names CDC2 and `repl` the last one whose
   * interface does not; with no such port the attribute stays None.
   */
  lemma InfoPorts(rec: RecordDict)
    requires InfoOf(rec).Ok?
    ensures var v := InfoOf(rec).value; var ports := rec.ports.value;
      && (v.data.None? <==> forall j :: 0 <= j < |ports| ==> !IsData(ports[j]))
      && (v.repl.None? <==> forall j :: 0 <= j < |ports| ==> IsData(ports[j]))
      && (v.data.Some? ==>
            exists i :: 0 <= i < |ports| && IsData(ports[i]) && v.data.value == ports[i].dev && (forall j :: i < j < |ports| ==> !IsData(ports[j])))
      && (v.repl.Some? ==>
            exists i :: 0 <= i < |ports| && !IsData(ports[i]) && v.repl.value == ports[i].dev && (forall j :: i < j < |ports| ==> IsData(ports[j])))
  {
    var ports := rec.ports.value;
    var d := LastPort(ports, true);
    var p := LastPort(ports, false);
    if d.Some? {
      assert IsData(ports[d.value]);
    }
    if p.Some? {
      assert !IsData(ports[p.value]);
    }
  }

  /** A provider record with a volume cannot be wrapped: the providers never set a volume's `name`. */
  lemma ProviderVolumesFail(d: Device)
    requires d.volumes != [] && d.volumes[0].mountPoint.Some? && d.volumes[0].name.None?
    ensures InfoOf(DictOf(d)) == Err(KeyError("name"))
  {
  }

  // ---------------------------------------------------------------- get_devices_list

  /** `[DeviceInfoDict(item) for item in liste]`: the first failure ends the comprehension. */
  function WrapAll(liste: seq<RecordDict>): (r: Result<seq<InfoView>>)
    ensures r.Ok? <==> forall i :: 0 <= i < |liste| ==> InfoOf(liste[i]).Ok?
    ensures r.Ok? ==> |r.value| == |liste| && forall i :: 0 <= i < |liste| ==> r.value[i] == InfoOf(liste[i]).value
    ensures r.Err? ==> exists i :: 0 <= i < |liste| && InfoOf(liste[i]) == Err(r.error)
  {
    if liste == [] then Ok([])
    else
      match InfoOf(liste[0])
      case Err(e) => Err(e)
      case Ok(v) =>
        match WrapAll(liste[1..])
        case Err(e) =>
          assert forall i :: 0 <= i < |liste| - 1 ==> liste[1..][i] == liste[i + 1];
          Err(e)
        case Ok(vs) =>
          assert forall i :: 1 <= i < |liste| ==> liste[i] == liste[1..][i - 1];
          Ok([v] + vs)
  }

  /**
   * The platform the package was imported on. It decides which provider `_get_devices_list`
   * names: only the macOS one takes the `drive_info` argument, the Linux and Windows ones
   * take none.
   */
  datatype Platform = Darwin | Linux | Win32

  /** `_get_devices_list(drive_info)`: the one positional argument is accepted only on macOS. */
  predicate TakesDriveInfo(platform: Platform) {
    platform.Darwin?
  }

  /** The error Python raises when a parameterless provider is given `drive_info`. */
  const ProviderArity := TypeError("get_devices_list() takes 0 positional arguments but 1 was given")

  /**
   * `get_devices_list(drive_info)`: the wrapped records, and the remaining ports unchanged.
   * `liste` and `ports` are what the provider returns when the call is accepted.
   */
  function DevicesList(platform: Platform, liste: seq<RecordDict>, ports: seq<string>): (r: Result<(seq<InfoView>, seq<string>)>)
    ensures r.Ok? ==> TakesDriveInfo(platform) && r.value.1 == ports && Ok(r.value.0) == WrapAll(liste)
    ensures r.Err? && r.error.TypeError? <==> !TakesDriveInfo(platform)
    ensures TakesDriveInfo(platform) ==> (r.Err? <==> WrapAll(liste).Err?)
  {
    if !TakesDriveInfo(platform) then Err(ProviderArity)
    else
      match WrapAll(liste)
      case Err(e) => Err(e)
      case Ok(vs) => Ok((vs, ports))
  }

  /** `get_identified_devices(drive_info)`: the wrapped records alone, by the same call. */
  function IdentifiedDevices(platform: Platform, liste: seq<RecordDict>): (r: Result<seq<InfoView>>)
    ensures r.Ok? ==> TakesDriveInfo(platform) && Ok(r.value) == WrapAll(liste)
    ensures r.Err? && r.error.TypeError? <==> !TakesDriveInfo(platform)
    ensures TakesDriveInfo(platform) ==> (r.Err? <==> WrapAll(liste).Err?)
  {
    if !TakesDriveInfo(platform) then Err(ProviderArity) else WrapAll(liste)
  }

  /**
   * With the Linux or Windows provider, both listing functions raise TypeError whatever the
   * provider would have returned: no record is ever wrapped there.
   */
  lemma ParameterlessProvidersFail(platform: Platform, liste: seq<RecordDict>, ports: seq<string>)
    requires platform != Darwin
    ensures DevicesList(platform, liste, ports) == Err(ProviderArity)
    ensures IdentifiedDevices(platform, liste) == Err(ProviderArity)
  {
  }

  /**
   * With the macOS provider, once any record carries a volume, listing the devices fails
   * with KeyError('name'): the macOS provider never sets a volume's name.
   */
  lemma ProviderListFails(devices: seq<Device>, ports: seq<string>, k: nat)
    requires k < |devices|
    requires devices[k].volumes != []
    requires forall i, j :: 0 <= i < |devices| && 0 <= j < |devices[i].volumes| ==>
      devices[i].volumes[j].mountPoint.Some? && devices[i].volumes[j].name.None?
    ensures DevicesList(Darwin, seq(|devices|, i requires 0 <= i < |devices| => DictOf(devices[i])), ports) == Err(KeyError("name"))
  {
    var liste := seq(|devices|, i requires 0 <= i < |devices| => DictOf(devices[i]));
    ProviderVolumesFail(devices[k]);
    assert InfoOf(liste[k]).Err?;
    var r := WrapAll(liste);
    var i :| 0 <= i < |liste| && InfoOf(liste[i]) == Err(r.error);
    if devices[i].volumes != [] {
      ProviderVolumesFail(devices[i]);
    }
  }

  /** `get_unidentified_ports()` reads a name it never defines. */
  function UnidentifiedPorts(): (r: Result<seq<string>>)
    ensures r.Err? && r.error.NameError?
  {
    Err(NameError("drive_info"))
  }

  // ---------------------------------------------------------------- devices_by_*

  /** Case-insensitive comparison of an attribute with a query: substring or whole-string. */
  predicate Matches(value: string, query: string, whole: bool) {
    if whole then Lower(value) == Lower(query) else Contains(Lower(value), Lower(query))
  }

  /** The test a `devices_by_*` loop applies; a None attribute raises before it is compared. */
  function Hit(field: InfoView -> Option<string>, query: string, whole: bool): InfoView -> bool {
    (v: InfoView) => field(v).Some? && Matches(field(v).value, query, whole)
  }

  /** The filter loop of `devices_by_*`: AttributeError on the first device whose attribute is None. */
  function SelectBy(devs: seq<InfoView>, field: InfoView -> Option<string>, query: string, whole: bool): Result<seq<InfoView>> {
    if devs == [] then Ok([])
    else
      match SelectBy(devs[..|devs| - 1], field, query, whole)
      case Err(e) => Err(e)
      case Ok(out) =>
        var dev := devs[|devs| - 1];
        if field(dev).None? then Err(AttributeError("lower"))
        else if Matches(field(dev).value, query, whole) then Ok(out + [dev])
        else Ok(out)
  }

  /** The selection fails iff some device lacks the attribute; otherwise it keeps, in order, the devices that match. */
  lemma {:induction false} SelectByFilters(devs: seq<InfoView>, field: InfoView -> Option<string>, query: string, whole: bool)
    ensures SelectBy(devs, field, query, whole).Err? <==> exists i :: 0 <= i < |devs| && field(devs[i]).None?
    ensures SelectBy(devs, field, query, whole).Ok? ==> SelectBy(devs, field, query, whole).value == Filter(devs, Hit(field, query, whole))
    decreases |devs|
  {
    if devs != [] {
      var n := |devs| - 1;
      SelectByFilters(devs[..n], field, query, whole);
      FilterStep(devs[..n], devs[n], Hit(field, query, whole));
      assert devs[..n] + [devs[n]] == devs;
      if exists i :: 0 <= i < n && field(devs[..n][i]).None? {
        var i :| 0 <= i < n && field(devs[..n][i]).None?;
        assert devs[i] == devs[..n][i];
      }
    }
  }

  /** The `devices_by_*` loop. */
  method DevicesBy(devs: seq<InfoView>, field: InfoView -> Option<string>, query: string, whole: bool) returns (r: Result<seq<InfoView>>)
    ensures r == SelectBy(devs, field, query, whole)
  {
    var out: seq<InfoView> := [];
    for i := 0 to |devs|
      invariant SelectBy(devs[..i], field, query, whole) == Ok(out)
    {
      assert devs[..i + 1][..i] == devs[..i];
      var dev := devs[i];
      if field(dev).None? {
        SelectByErrSticks(devs, i + 1, field, query, whole);
        return Err(AttributeError("lower"));
      }
      if Matches(field(dev).value, query, whole) {
        out := out + [dev];
      }
    }
    assert devs[..|devs|] == devs;
    r := Ok(out);
  }

  lemma {:induction false} SelectByErrSticks(devs: seq<InfoView>, k: nat, field: InfoView -> Option<string>, query: string, whole: bool)
    requires k <= |devs|
    ensures SelectBy(devs[..k], field, query, whole).Err? ==> SelectBy(devs, field, query, whole) == SelectBy(devs[..k], field, query, whole)
    decreases |devs|
  {
    if k < |devs| {
      var n := |devs| - 1;
      assert devs[..n][..k] == devs[..k];
      SelectByErrSticks(devs[..n], k, field, query, whole);
    } else {
      assert devs[..k] == devs;
    }
  }

  function NameOf(v: InfoView): Option<string> { v.name }
  function VolumeNameOf(v: InfoView): Option<string> { Some(v.volumeName) }
  function SerialOf(v: InfoView): Option<string> { v.serialNum }

  /** `devices_by_name(name)`: name contains the query, ignoring case. */
  method DevicesByName(devs: seq<InfoView>, name: string) returns (r: Result<seq<InfoView>>)
    ensures r == SelectBy(devs, NameOf, name, false)
  {
    r := DevicesBy(devs, NameOf, name, false);
  }

  /** `devices_by_drive(drive_name)`: the volume name equals the query, ignoring case. */
  method DevicesByDrive(devs: seq<InfoView>, driveName: string) returns (r: Result<seq<InfoView>>)
    ensures r == SelectBy(devs, VolumeNameOf, driveName, true)
  {
    r := DevicesBy(devs, VolumeNameOf, driveName, true);
  }

  /** `devices_by_serial(serial_number)`: the serial number equals the query, ignoring case. */
  method DevicesBySerial(devs: seq<InfoView>, serialNumber: string) returns (r: Result<seq<InfoView>>)
    ensures r == SelectBy(devs, SerialOf, serialNumber, true)
  {
    r := DevicesBy(devs, SerialOf, serialNumber, true);
  }

  /** The drive filter never fails: every wrapped device has a volume name. */
  lemma ByDriveNeverFails(devs: seq<InfoView>, driveName: string)
    ensures SelectBy(devs, VolumeNameOf, driveName, true).Ok?
    ensures forall v :: v in SelectBy(devs, VolumeNameOf, driveName, true).value <==> v in devs && Lower(v.volumeName) == Lower(driveName)
  {
    SelectByFilters(devs, VolumeNameOf, driveName, true);
    FilterMembers(devs, Hit(VolumeNameOf, driveName, true));
  }

  /**
   * Whole-string matching implies substring matching, but not conversely: substring
   * matching finds a value by any prefix, whole-string matching never by a query of
   * another length.
   */
  lemma SubstringVersusWhole(value: string, query: string, rest: string)
    ensures Matches(value, query, true) ==> Matches(value, query, false)
    ensures |query| != |value| ==> !Matches(value, query, true)
    ensures Matches(query + rest, query, false)
  {
    LowerAppend(query, rest);
    assert StartsWith(Lower(query + rest), Lower(query));
  }
}
