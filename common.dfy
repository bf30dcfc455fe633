/**
 * The constants every provider shares and the board-drive probe: which CircuitPython
 * entry files exist on a mounted drive and which firmware version its `boot_out.txt`
 * names.
 */
module UsbinfosCommon {
  import opened Wrappers
  import opened Text
  import opened Records

  /** Vendor ids of the boards worth reporting even without a serial port. */
  const Vids: seq<int> := [0x0483, 0x239a, 0x10c4, 0x0d28, 0x2341, 0x1209, 0x303a]

  predicate KnownVid(vid: int) {
    vid in Vids
  }

  /** The allow-list holds exactly seven vendor ids, with no repeats. */
  lemma VidsAreSevenDistinct()
    ensures |Vids| == 7 && |set v | v in Vids| == 7
    ensures KnownVid(0x239a) && KnownVid(0x2341) && !KnownVid(0x1a86)
  {
    assert (set v | v in Vids) == {0x0483, 0x239a, 0x10c4, 0x0d28, 0x2341, 0x1209, 0x303a};
  }

  /** The entry files CircuitPython runs, in the order they are looked for. */
  const MainNames: seq<string> := ["code.txt", "code.py", "main.py", "main.txt"]

  /** The test "this file exists on the drive". */
  function InMount(present: set<string>): string -> bool {
    (f: string) => f in present
  }

  /** The entry files present on a drive, in the order of `MainNames`. */
  function MainsOf(present: set<string>): seq<string> {
    Filter(MainNames, InMount(present))
  }

  /** The loop that builds `mains`. */
  method ListMains(present: set<string>) returns (mains: seq<string>)
    ensures mains == MainsOf(present)
    ensures SubseqOf(mains, MainNames)
    ensures forall f :: f in mains <==> f in MainNames && f in present
  {
    mains := [];
    for i := 0 to |MainNames|
      invariant mains == Filter(MainNames[..i], InMount(present))
    {
      FilterAppend(MainNames[..i], [MainNames[i]], InMount(present));
      assert MainNames[..i + 1] == MainNames[..i] + [MainNames[i]];
      if MainNames[i] in present {
        mains := mains + [MainNames[i]];
      }
    }
    assert MainNames[..|MainNames|] == MainNames;
    FilterIsSubseq(MainNames, InMount(present));
    FilterMembers(MainNames, InMount(present));
  }

  /**
   * The version read from `boot_out.txt`: the third-from-last space-separated word
   * before the one `;`, or "" when the file is missing (FileNotFoundError), does not
   * hold exactly one `;` (ValueError on unpacking) or has too few words (IndexError).
   */
  function BootVersion(contents: Option<string>): (v: string)
    ensures ' ' !in v && ';' !in v
    ensures contents.None? ==> v == ""
    ensures contents.Some? && Count(contents.value, ';') != 1 ==> v == ""
    ensures contents.Some? && |Split(contents.value, ';')| == 2 && |Split(Split(contents.value, ';')[0], ' ')| < 3 ==> v == ""
  {
    match contents
    case None => ""
    case Some(text) =>
      var halves := Split(text, ';');
      SplitCount(text, ';');
      SplitPiecesHaveNoSeparator(text, ';');
      if |halves| != 2 then ""
      else
        var words := Split(halves[0], ' ');
        SplitPiecesHaveNoSeparator(halves[0], ' ');
        SplitPiecesAvoid(halves[0], ' ', ';');
        if |words| < 3 then "" else words[|words| - 3]
  }

  /** A boot file "<w0> <w1> ... <wn>;<rest>" yields the third-from-last word before the `;`. */
  lemma BootVersionFindsWord(words: seq<string>, rest: string)
    requires |words| >= 3
    requires forall k :: 0 <= k < |words| ==> ' ' !in words[k] && ';' !in words[k]
    requires ';' !in rest
    ensures BootVersion(Some(Join(words, ' ') + ";" + rest)) == words[|words| - 3]
  {
    var head := Join(words, ' ');
    var text := head + ";" + rest;
    assert Split(text, ';') == [head, rest] by {
      JoinAvoids(words, ' ', ';');
      SplitAppend(head, rest, ';');
      SplitNoSeparator(rest, ';');
    }
    assert Split(head, ' ') == words by {
      SplitJoin(words, ' ');
    }
  }

  /** `get_cp_drive_info(mount)` as a value: the entry files and the version. */
  function DriveInfo(mount: string, drives: Drives): (seq<string>, string) {
    (MainsOf(drives(mount).present), BootVersion(drives(mount).bootOut))
  }

  method GetCpDriveInfo(mount: string, drives: Drives) returns (mains: seq<string>, version: string)
    ensures (mains, version) == DriveInfo(mount, drives)
    ensures forall f :: f in mains <==> f in MainNames && f in drives(mount).present
    ensures drives(mount).bootOut.None? ==> version == ""
  {
    mains := ListMains(drives(mount).present);
    version := BootVersion(drives(mount).bootOut);
  }
}
