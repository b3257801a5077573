/**
 The pattern catalog: each rule names a textual marker, how far back from a
 marker occurrence to look for a sentinel byte run, the sentinel itself, and
 the signed offset from the sentinel's start to the flag byte.
 */
module PatchRules {
  import opened ByteSearch

  datatype Rule = Rule(
    name: string,          // for diagnostics only
    marker: seq<byte>,     // `search_string`
    searchBack: nat,       // `search_back_bytes`
    sentinel: seq<byte>,   // `ff_sequence`
    offset: int            // `ff_sequence_offset`
  )

  /** The engine's forward scan only advances for a non-empty marker. */
  predicate WellFormed(r: Rule)
  {
    |r.marker| > 0
  }

  predicate AllWellFormed(rules: seq<Rule>)
  {
    forall k :: 0 <= k < |rules| ==> WellFormed(rules[k])
  }

  /** The bytes of a `b'...'` literal written with characters below 256. */
  function Latin1(s: string): (r: seq<byte>)
    requires forall i :: 0 <= i < |s| ==> s[i] as int < 256
    ensures |r| == |s|
    ensures forall i :: 0 <= i < |s| ==> r[i] == s[i] as int
  {
    seq(|s|, i requires 0 <= i < |s| => s[i] as int)
  }

  /** `bytes([b]) * n` */
  function Repeat(b: byte, n: nat): (r: seq<byte>)
    ensures |r| == n
    ensures forall i :: 0 <= i < n ==> r[i] == b
  {
    if n == 0 then [] else [b] + Repeat(b, n - 1)
  }

  const CheatWillDisable: Rule :=
    Rule("cheat-will-disable", Latin1("cheat-will-disable"), 100, Repeat(0xFF, 16), -3)

  // The last two offsets are not confirmed by the original authors ("may need adjustment").
  const EditorWillDisable: Rule :=
    Rule("editor-will-disable", Latin1("editor"), 300, [0x01] + Repeat(0xFF, 8), -1)

  const CommandRan: Rule :=
    Rule("command-ran", Latin1("command-ran"), 300, [0x01] + Repeat(0xFF, 8), 0)

  /** The built-in rules, in the order the engine applies them. */
  const Catalog: seq<Rule> := [CheatWillDisable, EditorWillDisable, CommandRan]

  /** Bytes 1 .. 8 of an `[0x01] + Repeat(0xFF, 8)` sentinel. */
  predicate FlagThenEightFF(s: seq<byte>)
  {
    |s| == 9 && s[0] == 0x01 && forall i :: 1 <= i < 9 ==> s[i] == 0xFF
  }

  /** The cheat-will-disable rule, byte by byte. */
  lemma CheatWillDisableBytes()
    ensures CheatWillDisable.name == "cheat-will-disable"
    ensures CheatWillDisable.marker ==
      [0x63, 0x68, 0x65, 0x61, 0x74, 0x2D, 0x77, 0x69, 0x6C, 0x6C, 0x2D, 0x64, 0x69, 0x73, 0x61, 0x62, 0x6C, 0x65]
    ensures CheatWillDisable.searchBack == 100 && CheatWillDisable.offset == -3
    ensures |CheatWillDisable.sentinel| == 16 && forall i :: 0 <= i < 16 ==> CheatWillDisable.sentinel[i] == 0xFF
  {
  }

  /** The editor-will-disable rule, byte by byte: its marker is the six bytes of `editor`. */
  lemma EditorWillDisableBytes()
    ensures EditorWillDisable.name == "editor-will-disable"
    ensures EditorWillDisable.marker == [0x65, 0x64, 0x69, 0x74, 0x6F, 0x72]
    ensures EditorWillDisable.searchBack == 300 && EditorWillDisable.offset == -1
    ensures FlagThenEightFF(EditorWillDisable.sentinel)
  {
    var t := Repeat(0xFF, 8);
    assert forall i :: 1 <= i < 9 ==> EditorWillDisable.sentinel[i] == t[i - 1];
  }

  /** The command-ran rule, byte by byte. */
  lemma CommandRanBytes()
    ensures CommandRan.name == "command-ran"
    ensures CommandRan.marker == [0x63, 0x6F, 0x6D, 0x6D, 0x61, 0x6E, 0x64, 0x2D, 0x72, 0x61, 0x6E]
    ensures CommandRan.searchBack == 300 && CommandRan.offset == 0
    ensures FlagThenEightFF(CommandRan.sentinel)
  {
    var t := Repeat(0xFF, 8);
    assert forall i :: 1 <= i < 9 ==> CommandRan.sentinel[i] == t[i - 1];
  }

  /** The catalog's markers are plain ASCII, so each decodes as UTF-8 for the diagnostics that name it. */
  lemma CatalogMarkersAscii()
    ensures forall k, i :: 0 <= k < |Catalog| && 0 <= i < |Catalog[k].marker| ==> Catalog[k].marker[i] < 0x80
  {
    CheatWillDisableBytes();
    EditorWillDisableBytes();
    CommandRanBytes();
  }

  /** Every built-in rule has a non-empty marker, so the engine may run the catalog. */
  lemma CatalogWellFormed()
    ensures AllWellFormed(Catalog)
    ensures |Catalog[0].marker| == 18 && |Catalog[1].marker| == 6 && |Catalog[2].marker| == 11
  {
    var a, b, c := CheatWillDisable.marker, EditorWillDisable.marker, CommandRan.marker;
    assert |a| == 18 && |b| == 6 && |c| == 11;
  }

  /**
   The command-ran rule targets the first byte of its own sentinel, which is
   0x01: clearing it leaves no sentinel at that index any more.
   */
  lemma CommandRanClearBreaksSentinel(s: seq<byte>, j: nat)
    requires MatchesAt(s, CommandRan.sentinel, j)
    ensures j + CommandRan.offset == j && s[j] == 0x01
    ensures !MatchesAt(s[j := 0], CommandRan.sentinel, j)
  {
    assert s[j..j + 9][0] == s[j];
    assert s[j := 0][j..j + 9][0] == 0;
  }
}
