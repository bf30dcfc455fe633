/**
 * The command-line front end's device selection: which records a set of criteria picks,
 * whether any criterion was given at all, and which serial port the `repl` command opens.
 */
module Discotool {
  import opened Wrappers
  import opened Text
  import opened Records

  // ---------------------------------------------------------------- serial interface names

  /** Interface name prefixes of CircuitPython boards (generic, StringCar M0 Express, Sol). */
  const SerialNames: seq<string> := ["CircuitPython", "StringCarM0Ex", "Sol"]
  const ExtRepl: string := " CDC "
  const ExtCdc2: string := " CDC2 "

  /** `any([(n + ext).lower() in iface.lower() for n in names])` */
  function AnyName(names: seq<string>, ext: string, iface: string): bool {
    if names == [] then false
    else Contains(Lower(iface), Lower(names[0] + ext)) || AnyName(names[1..], ext, iface)
  }

  lemma {:induction false} AnyNameIff(names: seq<string>, ext: string, iface: string)
    ensures AnyName(names, ext, iface) <==> exists k :: 0 <= k < |names| && Contains(Lower(iface), Lower(names[k] + ext))
    decreases |names|
  {
    if names != [] {
      AnyNameIff(names[1..], ext, iface);
      if exists k :: 0 <= k < |names| && Contains(Lower(iface), Lower(names[k] + ext)) {
        var k :| 0 <= k < |names| && Contains(Lower(iface), Lower(names[k] + ext));
        if k > 0 {
          assert names[1..][k - 1] == names[k];
        }
      }
    }
  }

  /** `IS_REPL(iface)`: the interface is a board's REPL console. */
  predicate IsRepl(iface: string) {
    AnyName(SerialNames, ExtRepl, iface)
  }

  /** `IS_CDC2(iface)`: the interface is a board's secondary data channel. */
  predicate IsCdc2(iface: string) {
    AnyName(SerialNames, ExtCdc2, iface)
  }

  /** The two tests ignore case and look for a known board name followed by the suffix. */
  lemma SerialInterfaces(iface: string)
    ensures IsRepl(iface) <==> exists k :: 0 <= k < 3 && Contains(Lower(iface), Lower(SerialNames[k] + " CDC "))
    ensures IsCdc2(iface) <==> exists k :: 0 <= k < 3 && Contains(Lower(iface), Lower(SerialNames[k] + " CDC2 "))
  {
    AnyNameIff(SerialNames, ExtRepl, iface);
    AnyNameIff(SerialNames, ExtCdc2, iface);
  }

  /** Case-blind matching finds a board name and suffix wherever they sit in the interface name. */
  lemma KnownInterfaces(before: string, k: nat, after: string)
    requires k < |SerialNames|
    ensures IsRepl(before + SerialNames[k] + ExtRepl + after)
    ensures IsCdc2(before + SerialNames[k] + ExtCdc2 + after)
  {
    AnyNameInside(SerialNames, ExtRepl, before, k, after);
    AnyNameInside(SerialNames, ExtCdc2, before, k, after);
  }

  lemma AnyNameInside(names: seq<string>, ext: string, before: string, k: nat, after: string)
    requires k < |names|
    ensures AnyName(names, ext, before + names[k] + ext + after)
  {
    var iface := before + names[k] + ext + after;
    assert iface == before + (names[k] + ext) + after;
    FoundInside(before, names[k] + ext, after);
    AnyNameIff(names, ext, iface);
  }

  lemma FoundInside(before: string, sub: string, after: string)
    ensures Contains(Lower(before + sub + after), Lower(sub))
  {
    LowerAppend(before + sub, after);
    LowerAppend(before, sub);
    var s := Lower(before + sub + after);
    assert s == Lower(before) + Lower(sub) + Lower(after);
    assert s[|before|..|before| + |sub|] == Lower(sub);
    assert OccursAt(s, Lower(sub), |before|);
    ContainsIff(s, Lower(sub));
  }

  // ---------------------------------------------------------------- find_the_devices

  datatype Criterion = ByName | BySerial | ByMount

  /** A volume takes part in mount matching only when it has a mount point. */
  predicate VolumeHit(v: Volume, query: string) {
    v.mountPoint.Some? && Contains(Lower(v.mountPoint.value), query)
  }

  predicate MountHit(volumes: seq<Volume>, query: string) {
    exists k :: 0 <= k < |volumes| && VolumeHit(volumes[k], query)
  }

  /** Whether a device matches one criterion; a missing serial number cannot be lower-cased. */
  function Hit(c: Criterion, query: string, d: Device): (r: Result<bool>)
    ensures r.Err? <==> c == BySerial && d.serialNum.None?
  {
    match c
    case ByName => Ok(Contains(Lower(d.name), query))
    case BySerial => if d.serialNum.None? then Err(AttributeError("lower")) else Ok(Contains(Lower(d.serialNum.value), query))
    case ByMount => Ok(MountHit(d.volumes, query))
  }

  /** `if device not in selectedDevices: selectedDevices.append(device)` */
  function AddIfNew(sel: seq<Device>, d: Device): (r: seq<Device>)
    ensures d in r && (forall e :: e in r <==> e in sel || e == d)
  {
    if d in sel then sel else sel + [d]
  }

  /** One criterion's loop over the device list, appending the matches not yet selected. */
  function Pass(sel: seq<Device>, list: seq<Device>, c: Criterion, query: string): Result<seq<Device>> {
    if list == [] then Ok(sel)
    else
      match Pass(sel, list[..|list| - 1], c, query)
      case Err(e) => Err(e)
      case Ok(prev) =>
        match Hit(c, query, list[|list| - 1])
        case Err(e) => Err(e)
        case Ok(hit) => Ok(if hit then AddIfNew(prev, list[|list| - 1]) else prev)
  }

  /** A criterion whose query is empty is skipped; an earlier failure stands. */
  function Stage(sel: Result<seq<Device>>, list: seq<Device>, c: Criterion, query: string): Result<seq<Device>> {
    if sel.Err? || query == "" then sel else Pass(sel.value, list, c, query)
  }

  /** With `--auto` and exactly one device, that device is picked first. */
  function AutoPick(list: seq<Device>, auto: bool): seq<Device> {
    if auto && |list| == 1 then [list[0]] else []
  }

  /** `find_the_devices(deviceList, auto, wait, name, serial, mount)` */
  function Selection(list: seq<Device>, auto: bool, name: string, serial: string, mount: string): Result<seq<Device>> {
    var byName := Stage(Ok(AutoPick(list, auto)), list, ByName, name);
    var bySerial := Stage(byName, list, BySerial, serial);
    Stage(bySerial, list, ByMount, mount)
  }

  predicate Distinct<T(==)>(s: seq<T>) {
    forall i, j :: 0 <= i < j < |s| ==> s[i] != s[j]
  }

  lemma DistinctSnoc<T>(s: seq<T>, x: T)
    requires Distinct(s) && x !in s
    ensures Distinct(s + [x])
  {
    forall i, j | 0 <= i < j < |s| + 1
      ensures (s + [x])[i] != (s + [x])[j]
    {
      if j == |s| {
        assert (s + [x])[i] == s[i];
      }
    }
  }

  /** One pass fails iff some device of the list fails the test. */
  lemma {:induction false} PassFails(sel: seq<Device>, list: seq<Device>, c: Criterion, query: string)
    ensures Pass(sel, list, c, query).Err? <==> exists i :: 0 <= i < |list| && Hit(c, query, list[i]).Err?
    decreases |list|
  {
    if list != [] {
      var n := |list| - 1;
      PassFails(sel, list[..n], c, query);
      if Pass(sel, list[..n], c, query).Err? {
        var i :| 0 <= i < n && Hit(c, query, list[..n][i]).Err?;
        assert list[i] == list[..n][i];
      } else if Hit(c, query, list[n]).Ok? {
        forall i | 0 <= i < |list| ensures Hit(c, query, list[i]).Ok? {
          if i < n {
            assert list[i] == list[..n][i];
          }
        }
      }
    }
  }

  /**
   * A pass that succeeds extends the selection with new devices only, and then holds
   * exactly the devices selected before and the matching ones of the list.
   */
  lemma {:induction false} PassSelects(sel: seq<Device>, list: seq<Device>, c: Criterion, query: string)
    requires Distinct(sel)
    ensures Pass(sel, list, c, query).Ok? ==>
      var r := Pass(sel, list, c, query).value;
      && Distinct(r) && sel <= r
      && (forall d :: d in r <==> d in sel || (d in list && Hit(c, query, d) == Ok(true)))
    decreases |list|
  {
    if list != [] {
      var n := |list| - 1;
      var last := list[n];
      assert list == list[..n] + [last];
      PassSelects(sel, list[..n], c, query);
      var p := Pass(sel, list[..n], c, query);
      if p.Ok? && Hit(c, query, last).Ok? && Hit(c, query, last).value && last !in p.value {
        DistinctSnoc(p.value, last);
      }
    }
  }

  /** What a pass adds to the selection comes from the list, in the list's order. */
  lemma {:induction false} PassOrder(sel: seq<Device>, list: seq<Device>, c: Criterion, query: string)
    ensures Pass(sel, list, c, query).Ok? ==>
      var r := Pass(sel, list, c, query).value;
      sel <= r && SubseqOf(r[|sel|..], list)
    decreases |list|
  {
    if list == [] {
      assert sel[|sel|..] == [];
    } else {
      var n := |list| - 1;
      var last := list[n];
      assert list == list[..n] + [last];
      PassOrder(sel, list[..n], c, query);
      var p := Pass(sel, list[..n], c, query);
      if p.Ok? && Hit(c, query, last).Ok? {
        var prev := p.value;
        SubseqSnocRight(prev[|sel|..], list[..n], last);
        if Hit(c, query, last).value && last !in prev {
          assert (prev + [last])[|sel|..] == prev[|sel|..] + [last];
          SubseqSnoc(prev[|sel|..], list[..n], last);
        }
      }
    }
  }

  lemma {:induction false} PassErrSticks(sel: seq<Device>, list: seq<Device>, k: nat, c: Criterion, query: string)
    requires k <= |list|
    ensures Pass(sel, list[..k], c, query).Err? ==> Pass(sel, list, c, query) == Pass(sel, list[..k], c, query)
    decreases |list|
  {
    if k < |list| {
      var n := |list| - 1;
      assert list[..n][..k] == list[..k];
      PassErrSticks(sel, list[..n], k, c, query);
    } else {
      assert list[..k] == list;
    }
  }

  /** The auto pick or one of the non-empty criteria selects `d`. */
  predicate Picked(list: seq<Device>, auto: bool, name: string, serial: string, mount: string, d: Device) {
    || (auto && |list| == 1 && d == list[0])
    || (name != "" && Contains(Lower(d.name), name))
    || (serial != "" && d.serialNum.Some? && Contains(Lower(d.serialNum.value), serial))
    || (mount != "" && MountHit(d.volumes, mount))
  }

  /**
   * The selection fails iff a serial query meets a device without a serial number.
   * Otherwise it holds no device twice, only devices of the list, and exactly those that
   * the auto pick or some non-empty criterion selects; the auto pick comes first, and
   * each criterion's additions follow the previous ones in list order.
   */
  lemma SelectionProps(list: seq<Device>, auto: bool, name: string, serial: string, mount: string)
    ensures Selection(list, auto, name, serial, mount).Err? <==>
      serial != "" && exists i :: 0 <= i < |list| && list[i].serialNum.None?
    ensures Selection(list, auto, name, serial, mount).Ok? ==>
      var r := Selection(list, auto, name, serial, mount).value;
      && Distinct(r) && AutoPick(list, auto) <= r
      && (forall d :: d in r ==> d in list)
      && (forall d :: d in r <==> d in list && Picked(list, auto, name, serial, mount, d))
  {
    var s0 := Ok(AutoPick(list, auto));
    var s1 := Stage(s0, list, ByName, name);
    var s2 := Stage(s1, list, BySerial, serial);
    var s3 := Stage(s2, list, ByMount, mount);
    if name != "" {
      PassSelects(s0.value, list, ByName, name);
      PassFails(s0.value, list, ByName, name);
      assert s1.Ok?;
    }
    assert s1.Ok? && Distinct(s1.value) && AutoPick(list, auto) <= s1.value;
    if serial != "" {
      PassSelects(s1.value, list, BySerial, serial);
      PassFails(s1.value, list, BySerial, serial);
    }
    if s2.Ok? {
      if mount != "" {
        PassSelects(s2.value, list, ByMount, mount);
        PassFails(s2.value, list, ByMount, mount);
        assert s3.Ok?;
      }
      assert AutoPick(list, auto) <= s2.value <= s3.value;
    }
  }

  /** Each criterion's additions keep the list's order; no criterion moves an earlier pick. */
  lemma SelectionOrder(list: seq<Device>, auto: bool, name: string, serial: string, mount: string)
    requires Selection(list, auto, name, serial, mount).Ok?
    ensures var s1 := Stage(Ok(AutoPick(list, auto)), list, ByName, name);
      var s2 := Stage(s1, list, BySerial, serial);
      var r := Selection(list, auto, name, serial, mount).value;
      && s1.Ok? && s2.Ok? && AutoPick(list, auto) <= s1.value <= s2.value <= r
      && SubseqOf(s1.value[|AutoPick(list, auto)|..], list)
      && SubseqOf(s2.value[|s1.value|..], list)
      && SubseqOf(r[|s2.value|..], list)
  {
    var s0 := AutoPick(list, auto);
    var s1 := Stage(Ok(s0), list, ByName, name);
    var s2 := Stage(s1, list, BySerial, serial);
    var r := Selection(list, auto, name, serial, mount).value;
    if name != "" {
      PassOrder(s0, list, ByName, name);
    } else {
      assert s1.value[|s0|..] == [];
    }
    assert s1.Ok?;
    if serial != "" {
      PassOrder(s1.value, list, BySerial, serial);
    } else {
      assert s2.value[|s1.value|..] == [];
    }
    if mount != "" {
      PassOrder(s2.value, list, ByMount, mount);
    } else {
      assert r[|s2.value|..] == [];
    }
  }

  /** `find_the_devices`: the auto pick, then one loop per non-empty criterion. */
  method FindTheDevices(deviceList: seq<Device>, auto: bool, wait: bool, name: string, serial: string, mount: string)
    returns (r: Result<seq<Device>>)
    ensures r == Selection(deviceList, auto, name, serial, mount)
  {
    var selected: seq<Device> := [];
    if auto && |deviceList| == 1 {
      selected := selected + [deviceList[0]];
    }
    assert selected == AutoPick(deviceList, auto);
    if name != "" {
      selected := NameLoop(deviceList, selected, name);
    }
    ghost var byName := Stage(Ok(AutoPick(deviceList, auto)), deviceList, ByName, name);
    assert byName == Ok(selected);
    if serial != "" {
      var bySerial := SerialLoop(deviceList, selected, serial);
      if bySerial.Err? {
        assert Stage(byName, deviceList, BySerial, serial) == bySerial;
        return bySerial;
      }
      selected := bySerial.value;
    }
    if mount != "" {
      selected := MountLoop(deviceList, selected, mount);
    }
    r := Ok(selected);
  }

  /** The name loop of `find_the_devices`. */
  method NameLoop(deviceList: seq<Device>, sel: seq<Device>, name: string) returns (selected: seq<Device>)
    ensures Pass(sel, deviceList, ByName, name) == Ok(selected)
  {
    selected := sel;
    for i := 0 to |deviceList|
      invariant Pass(sel, deviceList[..i], ByName, name) == Ok(selected)
    {
      assert deviceList[..i + 1][..i] == deviceList[..i];
      var device := deviceList[i];
      if Contains(Lower(device.name), name) {
        if device !in selected {
          selected := selected + [device];
        }
      }
    }
    assert deviceList[..|deviceList|] == deviceList;
  }

  /** The serial-number loop of `find_the_devices`; it fails on a device without a serial number. */
  method SerialLoop(deviceList: seq<Device>, sel: seq<Device>, serial: string) returns (r: Result<seq<Device>>)
    ensures r == Pass(sel, deviceList, BySerial, serial)
  {
    var selected := sel;
    for i := 0 to |deviceList|
      invariant Pass(sel, deviceList[..i], BySerial, serial) == Ok(selected)
    {
      assert deviceList[..i + 1][..i] == deviceList[..i];
      var device := deviceList[i];
      if device.serialNum.None? {
        PassErrSticks(sel, deviceList, i + 1, BySerial, serial);
        return Err(AttributeError("lower"));
      }
      if Contains(Lower(device.serialNum.value), serial) {
        if device !in selected {
          selected := selected + [device];
        }
      }
    }
    assert deviceList[..|deviceList|] == deviceList;
    r := Ok(selected);
  }

  /** The mount loop of `find_the_devices`: a device is added at most once, however many volumes match. */
  method MountLoop(deviceList: seq<Device>, sel: seq<Device>, mount: string) returns (selected: seq<Device>)
    ensures Pass(sel, deviceList, ByMount, mount) == Ok(selected)
  {
    selected := sel;
    for i := 0 to |deviceList|
      invariant Pass(sel, deviceList[..i], ByMount, mount) == Ok(selected)
    {
      assert deviceList[..i + 1][..i] == deviceList[..i];
      var device := deviceList[i];
      ghost var before := selected;
      for j := 0 to |device.volumes|
        invariant selected == if exists k :: 0 <= k < j && VolumeHit(device.volumes[k], mount) then AddIfNew(before, device) else before
      {
        var volume := device.volumes[j];
        if volume.mountPoint.Some? && Contains(Lower(volume.mountPoint.value), mount) {
          if device !in selected {
            selected := selected + [device];
          }
        }
      }
    }
    assert deviceList[..|deviceList|] == deviceList;
  }

  // ---------------------------------------------------------------- main: nothing asked

  /** `noCriteria`: no query string survives normalisation and `--auto` is off. */
  predicate NoCriteria(name: string, serial: string, mount: string, auto: bool) {
    LowerStrip(serial) == "" && LowerStrip(name) == "" && LowerStrip(mount) == "" && !auto
  }

  /** The devices the commands act on: all of them when nothing was asked. */
  function MainSelection(list: seq<Device>, auto: bool, name: string, serial: string, mount: string): (r: Result<seq<Device>>)
    ensures NoCriteria(name, serial, mount, auto) ==> r == Ok(list)
  {
    if NoCriteria(name, serial, mount, auto) then Ok(list)
    else Selection(list, auto, LowerStrip(name), LowerStrip(serial), LowerStrip(mount))
  }

  /**
   * "Nothing asked" differs from "nothing found": `--auto` alone with any number of devices
   * other than one selects nothing, and with one device selects it.
   */
  lemma AutoAlone(list: seq<Device>, name: string, serial: string, mount: string)
    requires LowerStrip(name) == "" && LowerStrip(serial) == "" && LowerStrip(mount) == ""
    ensures !NoCriteria(name, serial, mount, true)
    ensures |list| != 1 ==> MainSelection(list, true, name, serial, mount) == Ok([])
    ensures |list| == 1 ==> MainSelection(list, true, name, serial, mount) == Ok(list)
  {
    if |list| == 1 {
      assert [list[0]] == list;
    }
  }

  // ---------------------------------------------------------------- repl

  /** The index of the first port whose interface is a REPL, as `potential_ports[0]` picks. */
  function FirstRepl(ports: seq<Tty>): (r: Option<nat>)
    ensures r.Some? ==> r.value < |ports| && IsRepl(ports[r.value].iface) && forall j :: 0 <= j < r.value ==> !IsRepl(ports[j].iface)
    ensures r.None? ==> forall j :: 0 <= j < |ports| ==> !IsRepl(ports[j].iface)
  {
    if ports == [] then None
    else if IsRepl(ports[0].iface) then Some(0)
    else
      match FirstRepl(ports[1..])
      case None => None
      case Some(i) => Some(i + 1)
  }

  /** The port `repl` opens for one device: none without ports, the only one, the first REPL, or the first port. */
  function ReplPort(ports: seq<Tty>): Option<Tty> {
    if |ports| == 0 then None
    else if |ports| == 1 then Some(ports[0])
    else
      match FirstRepl(ports)
      case None => Some(ports[0])
      case Some(i) => Some(ports[i])
  }

  lemma ReplPortChoice(ports: seq<Tty>)
    ensures ReplPort(ports).None? <==> ports == []
    ensures ReplPort(ports).Some? ==> ReplPort(ports).value in ports
    ensures |ports| > 1 && (exists j :: 0 <= j < |ports| && IsRepl(ports[j].iface)) ==>
      exists i :: 0 <= i < |ports| && ReplPort(ports) == Some(ports[i]) && IsRepl(ports[i].iface) && forall j :: 0 <= j < i ==> !IsRepl(ports[j].iface)
    ensures |ports| > 1 && (forall j :: 0 <= j < |ports| ==> !IsRepl(ports[j].iface)) ==> ReplPort(ports) == Some(ports[0])
  {
    if |ports| > 1 && FirstRepl(ports).Some? {
      var i := FirstRepl(ports).value;
      assert ReplPort(ports) == Some(ports[i]);
    }
  }

  /** The (device name, port) pairs `repl` connects to, in selection order. */
  function ReplTargets(selected: seq<Device>): seq<(string, Tty)> {
    if selected == [] then []
    else
      var prev := ReplTargets(selected[..|selected| - 1]);
      var d := selected[|selected| - 1];
      match ReplPort(d.ports)
      case None => prev
      case Some(port) => prev + [(d.name, port)]
  }

  /** Every selected device that has a port is connected once, to one of its own ports. */
  lemma {:induction false} ReplTargetsCover(selected: seq<Device>)
    ensures |ReplTargets(selected)| == |Filter(selected, (d: Device) => d.ports != [])|
    ensures forall t :: t in ReplTargets(selected) ==> exists d :: d in selected && d.name == t.0 && t.1 in d.ports
    decreases |selected|
  {
    if selected != [] {
      var n := |selected| - 1;
      var d := selected[n];
      ReplTargetsCover(selected[..n]);
      ReplPortChoice(d.ports);
      FilterStep(selected[..n], d, (d: Device) => d.ports != []);
      assert selected[..n] + [d] == selected;
      forall t | t in ReplTargets(selected)
        ensures exists e :: e in selected && e.name == t.0 && t.1 in e.ports
      {
        if t in ReplTargets(selected[..n]) {
          var e :| e in selected[..n] && e.name == t.0 && t.1 in e.ports;
          assert e in selected;
        } else {
          assert d in selected;
        }
      }
    }
  }

  /** `repl`: one serial-terminal connection per selected device that has a port. */
  method Repl(selected: seq<Device>) returns (connections: seq<(string, Tty)>)
    ensures connections == ReplTargets(selected)
  {
    connections := [];
    for i := 0 to |selected|
      invariant connections == ReplTargets(selected[..i])
    {
      assert selected[..i + 1][..i] == selected[..i];
      var device := selected[i];
      var port: Tty;
      if |device.ports| == 0 {
        continue;
      }
      if |device.ports| == 1 {
        port := device.ports[0];
      } else {
        var potential := FilterRepl(device.ports);
        if |potential| == 0 {
          port := device.ports[0];
        } else {
          port := potential[0];
        }
      }
      connections := connections + [(device.name, port)];
    }
    assert selected[..|selected|] == selected;
  }

  /** `[pp for pp in ports if IS_REPL(pp['iface'])]`; its head is the first REPL port. */
  function FilterRepl(ports: seq<Tty>): (r: seq<Tty>)
    ensures (r == []) <==> FirstRepl(ports).None?
    ensures r != [] ==> r[0] == ports[FirstRepl(ports).value]
  {
    if ports == [] then []
    else if IsRepl(ports[0].iface) then [ports[0]] + FilterRepl(ports[1..])
    else FilterRepl(ports[1..])
  }
}
