/**
 * The older `usbtool.py` script: the same selection criteria as the `discotool` command, but
 * without de-duplication, and the choice of which devices backup, circup, the REPL and
 * eject act on.
 */
module Usbtool {
  import opened Wrappers
  import opened Text
  import opened Records

  /** A board record of the older `usbinfos.py`: ports are plain device paths, the serial number a string. */
  datatype Board = Board(name: string, serialNum: string, manufacturer: string, ports: seq<string>, volumes: seq<Volume>, version: string)

  /** The command-line options `run_command_selector` reads. */
  datatype Args = Args(name: string, sn: string, mount: string, auto: bool, eject: bool, backup: Option<string>, circup: Option<string>)

  // ---------------------------------------------------------------- selection

  function NameHit(query: string): Board -> bool {
    (b: Board) => Contains(Lower(b.name), query)
  }

  function SerialHit(query: string): Board -> bool {
    (b: Board) => Contains(Lower(b.serialNum), query)
  }

  /** A volume takes part in mount matching only when it has a mount point. */
  predicate VolumeHit(v: Volume, query: string) {
    v.mountPoint.Some? && Contains(Lower(v.mountPoint.value), query)
  }

  function VolumeHits(query: string): Volume -> bool {
    (v: Volume) => VolumeHit(v, query)
  }

  /** How many of the volumes match the mount query. */
  function VolumeCount(volumes: seq<Volume>, query: string): (k: nat)
    ensures k <= |volumes|
  {
    if volumes == [] then 0
    else VolumeCount(volumes[..|volumes| - 1], query) + (if VolumeHit(volumes[|volumes| - 1], query) then 1 else 0)
  }

  /** The count is the number of volumes with a mount point that contains the query. */
  lemma {:induction false} VolumeCountFilters(volumes: seq<Volume>, query: string)
    ensures VolumeCount(volumes, query) == |Filter(volumes, VolumeHits(query))|
    decreases |volumes|
  {
    if volumes != [] {
      var n := |volumes| - 1;
      VolumeCountFilters(volumes[..n], query);
      FilterStep(volumes[..n], volumes[n], VolumeHits(query));
      assert volumes[..n] + [volumes[n]] == volumes;
    }
  }

  function Repeat(b: Board, k: nat): (r: seq<Board>)
    ensures |r| == k && forall i :: 0 <= i < k ==> r[i] == b
  {
    seq(k, _ => b)
  }

  /** The mount loop: a board is appended once per matching volume. */
  function MountHits(list: seq<Board>, query: string): seq<Board> {
    if list == [] then []
    else
      var b := list[|list| - 1];
      MountHits(list[..|list| - 1], query) + Repeat(b, VolumeCount(b.volumes, query))
  }

  function AutoPick(list: seq<Board>, auto: bool): seq<Board> {
    if auto && |list| == 1 then [list[0]] else []
  }

  /** Part 1 of `run_command_selector`: the auto pick, then every name, serial and mount match, in that order. */
  function Selection(list: seq<Board>, auto: bool, name: string, sn: string, mount: string): seq<Board> {
    AutoPick(list, auto) + Matches(list, name, NameHit(name)) + Matches(list, sn, SerialHit(sn)) + MountMatches(list, mount)
  }

  /** A name or serial-number loop, skipped for an empty query. */
  function Matches(list: seq<Board>, query: string, hit: Board -> bool): seq<Board> {
    if query == "" then [] else Filter(list, hit)
  }

  /** The mount loop, skipped for an empty query. */
  function MountMatches(list: seq<Board>, mount: string): seq<Board> {
    if mount == "" then [] else MountHits(list, mount)
  }

  lemma {:induction false} FilterCount<T>(s: seq<T>, p: T -> bool, x: T)
    ensures multiset(Filter(s, p))[x] == if p(x) then multiset(s)[x] else 0
    decreases |s|
  {
    if s != [] {
      FilterCount(s[1..], p, x);
      assert s == [s[0]] + s[1..];
    }
  }

  lemma MountHitsCount(list: seq<Board>, query: string, x: Board)
    ensures multiset(MountHits(list, query))[x] == multiset(list)[x] * VolumeCount(x.volumes, query)
  {
    MountHitsTimes(list, query, x);
    TimesIsMul(multiset(list)[x], VolumeCount(x.volumes, query));
  }

  lemma SnocMultiset<T>(s: seq<T>)
    requires s != []
    ensures multiset(s) == multiset(s[..|s| - 1]) + multiset{s[|s| - 1]}
  {
    assert s == s[..|s| - 1] + [s[|s| - 1]];
  }

  /** `c` copies of `k`, added up. */
  function Times(c: nat, k: nat): nat {
    if c == 0 then 0 else Times(c - 1, k) + k
  }

  lemma {:induction false} TimesIsMul(c: nat, k: nat)
    ensures Times(c, k) == c * k
  {
    if c > 0 {
      TimesIsMul(c - 1, k);
    }
  }

  lemma {:induction false} MountHitsTimes(list: seq<Board>, query: string, x: Board)
    ensures multiset(MountHits(list, query))[x] == Times(multiset(list)[x], VolumeCount(x.volumes, query))
    decreases |list|
  {
    if list != [] {
      var n := |list| - 1;
      var b := list[n];
      MountHitsTimes(list[..n], query, x);
      MountHitsSnoc(list, query, x);
      assert multiset(list)[x] == multiset(list[..n])[x] + (if b == x then 1 else 0) by {
        SnocMultiset(list);
      }
    }
  }

  /** The last board of the list adds one copy per matching volume, and only of itself. */
  lemma MountHitsSnoc(list: seq<Board>, query: string, x: Board)
    requires list != []
    ensures var b := list[|list| - 1];
      multiset(MountHits(list, query))[x] == multiset(MountHits(list[..|list| - 1], query))[x] + (if b == x then VolumeCount(x.volumes, query) else 0)
  {
    var b := list[|list| - 1];
    var tail := Repeat(b, VolumeCount(b.volumes, query));
    assert MountHits(list, query) == MountHits(list[..|list| - 1], query) + tail;
    RepeatCount(b, VolumeCount(b.volumes, query));
  }

  lemma {:induction false} RepeatCount(b: Board, k: nat)
    ensures multiset(Repeat(b, k))[b] == k
    ensures forall x :: x != b ==> multiset(Repeat(b, k))[x] == 0
    decreases k
  {
    if k > 0 {
      RepeatCount(b, k - 1);
      assert Repeat(b, k) == Repeat(b, k - 1) + [b];
    }
  }

  /**
   * Nothing is de-duplicated: a board appears once for the auto pick, once per occurrence in
   * the list for a name match and for a serial match, and once per occurrence and matching
   * volume for the mount criterion.
   */
  lemma Multiplicity(list: seq<Board>, auto: bool, name: string, sn: string, mount: string, x: Board)
    ensures multiset(Selection(list, auto, name, sn, mount))[x] ==
      (if auto && |list| == 1 && list[0] == x then 1 else 0)
      + (if name != "" && NameHit(name)(x) then multiset(list)[x] else 0)
      + (if sn != "" && SerialHit(sn)(x) then multiset(list)[x] else 0)
      + (if mount != "" then multiset(list)[x] * VolumeCount(x.volumes, mount) else 0)
  {
    var a := AutoPick(list, auto);
    var n := Matches(list, name, NameHit(name));
    var s := Matches(list, sn, SerialHit(sn));
    var m := MountMatches(list, mount);
    ConcatCount(a, n, s, m, x);
    MatchesCount(list, name, NameHit(name), x);
    MatchesCount(list, sn, SerialHit(sn), x);
    if mount != "" {
      MountHitsCount(list, mount, x);
    }
  }

  lemma ConcatCount(a: seq<Board>, b: seq<Board>, c: seq<Board>, d: seq<Board>, x: Board)
    ensures multiset(a + b + c + d)[x] == multiset(a)[x] + multiset(b)[x] + multiset(c)[x] + multiset(d)[x]
  {
    assert multiset(a + b + c + d) == multiset(a) + multiset(b) + multiset(c) + multiset(d);
  }

  lemma MatchesCount(list: seq<Board>, query: string, hit: Board -> bool, x: Board)
    ensures multiset(Matches(list, query, hit))[x] == if query != "" && hit(x) then multiset(list)[x] else 0
  {
    if query != "" {
      FilterCount(list, hit, x);
    }
  }

  /** A board matched by both its name and its serial number is selected twice. */
  lemma SelectedTwice(b: Board, name: string, sn: string)
    requires name != "" && sn != "" && NameHit(name)(b) && SerialHit(sn)(b)
    ensures Selection([b], false, name, sn, "") == [b, b]
  {
  }

  /** Part 1 of `run_command_selector`: the auto pick, then the three append loops. */
  method SelectBoards(deviceList: seq<Board>, auto: bool, name: string, sn: string, mount: string) returns (selected: seq<Board>)
    ensures selected == Selection(deviceList, auto, name, sn, mount)
  {
    selected := [];
    if auto && |deviceList| == 1 {
      selected := selected + [deviceList[0]];
    }
    ghost var a := selected;
    var byName: seq<Board> := [];
    if name != "" {
      byName := MatchLoop(deviceList, NameHit(name));
    }
    assert byName == Matches(deviceList, name, NameHit(name));
    var bySn: seq<Board> := [];
    if sn != "" {
      bySn := MatchLoop(deviceList, SerialHit(sn));
    }
    assert bySn == Matches(deviceList, sn, SerialHit(sn));
    var byMount: seq<Board> := [];
    if mount != "" {
      byMount := MountLoop(deviceList, mount);
    }
    assert byMount == MountMatches(deviceList, mount);
    selected := selected + byName + bySn + byMount;
    assert a == AutoPick(deviceList, auto);
  }

  /** The name and serial-number loops: every matching board is appended, in list order. */
  method MatchLoop(deviceList: seq<Board>, hit: Board -> bool) returns (selected: seq<Board>)
    ensures selected == Filter(deviceList, hit)
  {
    selected := [];
    for i := 0 to |deviceList|
      invariant selected == Filter(deviceList[..i], hit)
    {
      FilterStep(deviceList[..i], deviceList[i], hit);
      assert deviceList[..i + 1] == deviceList[..i] + [deviceList[i]];
      if hit(deviceList[i]) {
        selected := selected + [deviceList[i]];
      }
    }
    assert deviceList[..|deviceList|] == deviceList;
  }

  /** The mount loop: a board is appended once for every volume whose mount point matches. */
  method MountLoop(deviceList: seq<Board>, mount: string) returns (selected: seq<Board>)
    ensures selected == MountHits(deviceList, mount)
  {
    selected := [];
    for i := 0 to |deviceList|
      invariant selected == MountHits(deviceList[..i], mount)
    {
      assert deviceList[..i + 1][..i] == deviceList[..i];
      var device := deviceList[i];
      ghost var before := selected;
      for j := 0 to |device.volumes|
        invariant selected == before + Repeat(device, VolumeCount(device.volumes[..j], mount))
      {
        assert device.volumes[..j + 1][..j] == device.volumes[..j];
        var volume := device.volumes[j];
        if volume.mountPoint.Some? && Contains(Lower(volume.mountPoint.value), mount) {
          assert Repeat(device, VolumeCount(device.volumes[..j], mount)) + [device]
            == Repeat(device, VolumeCount(device.volumes[..j + 1], mount));
          selected := selected + [device];
        }
      }
      assert device.volumes[..|device.volumes|] == device.volumes;
    }
    assert deviceList[..|deviceList|] == deviceList;
  }

  // ---------------------------------------------------------------- actions

  /** The criteria after `.lower().strip()`. */
  datatype Query = Query(name: string, sn: string, mount: string, auto: bool)

  function QueryOf(args: Args): Query {
    Query(LowerStrip(args.name), LowerStrip(args.sn), LowerStrip(args.mount), args.auto)
  }

  /** "Nothing asked": every query is blank after normalisation and `--auto` is off. */
  predicate NoCriteria(q: Query) {
    q.sn == "" && q.name == "" && q.mount == "" && !q.auto
  }

  /**
   * The devices each action of `run_command_selector` acts on. The shell commands, the
   * existence tests on mount points and the copying are not modelled.
   */
  datatype Outcome = Outcome(backedUp: seq<Board>, circupOn: seq<Board>, repl: Option<(string, string)>, ejected: seq<Board>, returned: seq<Board>)

  /** Part 2 of `run_command_selector`, given the selection of part 1. */
  function Act(list: seq<Board>, args: Args, noCriteria: bool, sel: seq<Board>): Result<Outcome> {
    var afterBackup := if args.backup.Some? && noCriteria then list else sel;
    var replOn := args.backup.None? && args.circup.None? && afterBackup != [];
    if replOn && afterBackup[0].ports == [] then Err(IndexError)
    else
      var afterEject := if args.eject && noCriteria then list else afterBackup;
      Ok(Outcome(
        if args.backup.Some? then afterBackup else [],
        if args.circup.Some? then afterBackup else [],
        if replOn then Some((afterBackup[0].name, afterBackup[0].ports[0])) else None,
        if args.eject then afterEject else [],
        afterEject))
  }

  /** `run_command_selector(deviceList, args)` */
  function Run(list: seq<Board>, args: Args): Result<Outcome> {
    var q := QueryOf(args);
    Act(list, args, NoCriteria(q), Selection(list, q.auto, q.name, q.sn, q.mount))
  }

  /** `run_command_selector`, with the actions reduced to the devices they act on. */
  method RunCommandSelector(deviceList: seq<Board>, args: Args) returns (r: Result<Outcome>)
    ensures r == Run(deviceList, args)
  {
    var name := LowerStrip(args.name);
    var sn := LowerStrip(args.sn);
    var mount := LowerStrip(args.mount);
    var noCriteria := sn == "" && name == "" && mount == "" && !args.auto;
    var selected := SelectBoards(deviceList, args.auto, name, sn, mount);
    r := Actions(deviceList, args, noCriteria, selected);
  }

  /** Part 2 of `run_command_selector`: backup, circup, the default REPL, then eject. */
  method Actions(deviceList: seq<Board>, args: Args, noCriteria: bool, sel: seq<Board>) returns (r: Result<Outcome>)
    ensures r == Act(deviceList, args, noCriteria, sel)
  {
    var selected := sel;
    var backedUp: seq<Board> := [];
    var circupOn: seq<Board> := [];
    var repl: Option<(string, string)> := None;
    var ejected: seq<Board> := [];
    if args.backup.Some? {
      if noCriteria {
        selected := deviceList;
      }
      backedUp := selected;
    }
    if args.circup.Some? {
      circupOn := selected;
    }
    if args.backup.None? && args.circup.None? {
      if selected != [] {
        var device := selected[0];
        if device.ports == [] {
          return Err(IndexError);
        }
        repl := Some((device.name, device.ports[0]));
      }
    }
    if args.eject {
      if noCriteria {
        selected := deviceList;
      }
      ejected := selected;
    }
    r := Ok(Outcome(backedUp, circupOn, repl, ejected, selected));
  }

  /** With no criteria nothing is selected: `--auto` is off and every criterion is skipped. */
  lemma NothingAsked(list: seq<Board>, q: Query)
    requires NoCriteria(q)
    ensures Selection(list, q.auto, q.name, q.sn, q.mount) == []
  {
  }

  /**
   * With no criteria, backup and eject act on every device, circup acts on every device
   * only after a backup, and the REPL opens nothing; with criteria every action uses the
   * selection.
   */
  lemma ActTargets(list: seq<Board>, args: Args, noCriteria: bool, sel: seq<Board>)
    requires noCriteria ==> sel == []
    requires Act(list, args, noCriteria, sel).Ok?
    ensures var o := Act(list, args, noCriteria, sel).value;
      && (noCriteria ==> o.repl.None? && o.circupOn == (if args.circup.Some? && args.backup.Some? then list else []))
      && (noCriteria && args.backup.Some? ==> o.backedUp == list)
      && (noCriteria ==> o.ejected == (if args.eject then list else []))
      && (noCriteria ==> o.returned == (if args.eject || args.backup.Some? then list else []))
      && (!noCriteria ==> o.returned == sel && o.backedUp == (if args.backup.Some? then sel else []) && o.ejected == (if args.eject then sel else []))
  {
  }

  /** The default action connects to the first selected device's first port only, and fails if it has none. */
  lemma ActRepl(list: seq<Board>, args: Args, noCriteria: bool, sel: seq<Board>)
    requires args.backup.None? && args.circup.None?
    ensures sel == [] ==> Act(list, args, noCriteria, sel).Ok? && Act(list, args, noCriteria, sel).value.repl.None?
    ensures sel != [] && sel[0].ports == [] ==> Act(list, args, noCriteria, sel) == Err(IndexError)
    ensures sel != [] && sel[0].ports != [] ==> Act(list, args, noCriteria, sel).Ok? && Act(list, args, noCriteria, sel).value.repl == Some((sel[0].name, sel[0].ports[0]))
  {
  }

  // ---------------------------------------------------------------- display

  /** `"-" * k`, empty for a negative count. */
  function Dashes(k: int): (r: string)
    ensures |r| == (if k < 0 then 0 else k) && forall i :: 0 <= i < |r| ==> r[i] == '-'
  {
    if k <= 0 then "" else seq(k, _ => '-')
  }

  /** The device header of `displayTheText`, without its colour codes. */
  function HeaderLine(name: string): (r: string)
    ensures StartsWith(r, "- " + name + " ")
    ensures |name| <= 70 ==> |r| == 73
    ensures |name| > 70 ==> |r| == |name| + 3
  {
    var r := "- " + name + " " + Dashes(70 - |name|);
    assert r[..|"- " + name + " "|] == "- " + name + " ";
    r
  }
}
