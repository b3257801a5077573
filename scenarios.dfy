/**
 Concrete buffers run through the engine's specification: one each showing
 non-overlapping scanning, rightmost-sentinel anchoring, an out-of-bounds
 target and a successful patch, and a buffer on which a second patching run
 of the whole catalog clears another byte.

 Each buffer is taken through three small steps: the byte facts of the
 buffer itself, the searches those facts decide, and the visit the search
 results decide.
 */
module Scenarios {
  import opened ByteSearch
  import opened PatchRules
  import opened PatchEngine

  /** No occurrence of `sub` can start where `s` holds a byte other than `sub[0]`. */
  lemma NoMatchWhereFirstByteDiffers(s: seq<byte>, sub: seq<byte>, lo: nat, hi: nat)
    requires |sub| > 0 && hi <= |s|
    requires forall k :: lo <= k < hi ==> s[k] != sub[0]
    ensures forall k :: lo <= k < hi ==> !MatchesAt(s, sub, k)
  {
    forall k | lo <= k < hi
      ensures !MatchesAt(s, sub, k)
    {
      Mismatch(s, sub, k, 0);
    }
  }

  /** A marker lying at `p`, whose first byte occurs nowhere before `p`, is the first one found. */
  lemma FoundFirstAt(data: seq<byte>, m: seq<byte>, p: nat)
    requires |m| > 0 && p + |m| <= |data| && data[p..p + |m|] == m
    requires forall k :: 0 <= k < p ==> data[k] != m[0]
    ensures Find(data, m, 0) == p
  {
    MatchesSlice(data, m, p);
    NoMatchWhereFirstByteDiffers(data, m, 0, p);
    FindIs(data, m, 0, p);
  }

  /** A sentinel lying at `q` inside `[lo, hi)`, with no match after it there, is the one found searching backwards. */
  lemma FoundLastAt(data: seq<byte>, sent: seq<byte>, lo: nat, hi: nat, q: nat)
    requires lo <= q && q + |sent| <= hi <= |data| && data[q..q + |sent|] == sent
    requires forall k :: q < k && k + |sent| <= hi ==> !MatchesAt(data, sent, k)
    ensures Rfind(data, sent, lo, hi) == q
  {
    MatchesSlice(data, sent, q);
    RfindIs(data, sent, lo, hi, q);
  }

  // ---------------------------------------------------------------- non-overlapping scan

  /** A rule whose marker is "ab" and whose sentinel never occurs. */
  const AbRule: Rule := Rule("ab", [97, 98], 0, [0xFF], 0)

  /** The searches of "ab" in "ababab" from 0, 2 and 4 stop where they start. */
  lemma AbabFinds(s: seq<byte>)
    requires s == [97, 98, 97, 98, 97, 98]
    ensures |s| == 6
    ensures Find(s, AbRule.marker, 0) == 0 && Find(s, AbRule.marker, 2) == 2 && Find(s, AbRule.marker, 4) == 4
  {
    assert MatchesAt(s, AbRule.marker, 0) && MatchesAt(s, AbRule.marker, 2) && MatchesAt(s, AbRule.marker, 4);
  }

  /** In "ababab" the marker "ab" is found at 0, 2 and 4, and nowhere else. */
  lemma AbabFoundThreeTimes(s: seq<byte>)
    requires s == [97, 98, 97, 98, 97, 98]
    ensures var o := ScanRule(s, 0, AbRule, 0, false);
      |o.log| == 3 && o.log[0].markerAt == 0 && o.log[1].markerAt == 2 && o.log[2].markerAt == 4
  {
    var r := AbRule;
    AbabFinds(s);
    ScanRuleUnfold(s, 0, r, 0, false);
    ScanRuleUnfold(s, 0, r, 2, false);
    ScanRuleUnfold(s, 0, r, 4, false);
    ScanRuleEnd(s, 0, r, 6, false);
  }

  /** "aaa" holds "aa" at 0 and at 1, but the scan reports only the one at 0. */
  lemma OverlappingOccurrenceSkipped()
    ensures var o := ScanRule([97, 97, 97], 0, Rule("aa", [97, 97], 0, [0xFF], 0), 0, false);
      |o.log| == 1 && o.log[0].markerAt == 0
  {
    var s: seq<byte> := [97, 97, 97];
    var r := Rule("aa", [97, 97], 0, [0xFF], 0);
    assert MatchesAt(s, r.marker, 0) && MatchesAt(s, r.marker, 1);
    assert Find(s, r.marker, 0) == 0;
    assert Find(s, r.marker, 2) == -1;
  }

  // ---------------------------------------------------------------- cheat-will-disable

  const Ff16: seq<byte> := Repeat(0xFF, 16)

  /** The cheat-will-disable marker starts with 'c' (0x63), which no byte of these preambles holds. */
  lemma CheatMarkerFacts()
    ensures |CheatWillDisable.marker| == 18 && CheatWillDisable.marker[0] == 0x63
    ensures CheatWillDisable.sentinel == Ff16 && CheatWillDisable.offset == -3
    ensures CheatWillDisable.searchBack == 100
  {
  }

  /** The buffer of 16 x 0xFF, 0x01, then the cheat-will-disable marker. */
  function SentinelFirstBuffer(): (data: seq<byte>)
  {
    Ff16 + [0x01] + CheatWillDisable.marker
  }

  lemma SentinelFirstBytes(data: seq<byte>)
    requires data == SentinelFirstBuffer()
    ensures |data| == 35 && data[17..35] == CheatWillDisable.marker && data[0..16] == Ff16 && data[16] == 0x01
    ensures forall k :: 0 <= k < 17 ==> data[k] != 0x63
  {
    CheatMarkerFacts();
    assert |data| == 35;
    assert data[17..35] == CheatWillDisable.marker;
    assert data[0..16] == Ff16;
    assert forall k :: 0 <= k < 17 ==> data[k] == 0xFF || data[k] == 0x01;
  }

  /** The marker is found at 17. */
  lemma SentinelFirstMarker(data: seq<byte>)
    requires |data| == 35 && data[17..35] == CheatWillDisable.marker
    requires forall k :: 0 <= k < 17 ==> data[k] != 0x63
    ensures Find(data, CheatWillDisable.marker, 0) == 17
  {
    CheatMarkerFacts();
    FoundFirstAt(data, CheatWillDisable.marker, 17);
  }

  /** The only sentinel before the marker is the one at 0: the run at 1 would need a 0xFF at 16. */
  lemma SentinelFirstSentinel(data: seq<byte>)
    requires |data| == 35 && data[0..16] == Ff16 && data[16] == 0x01
    ensures Rfind(data, CheatWillDisable.sentinel, 0, 17) == 0
  {
    CheatMarkerFacts();
    Mismatch(data, Ff16, 1, 15);
    FoundLastAt(data, Ff16, 0, 17, 0);
  }

  /** The sentinel at 0 puts the target at -3, outside the buffer. */
  lemma OutOfBoundsVisit(data: seq<byte>)
    requires |data| == 35 && Rfind(data, CheatWillDisable.sentinel, 0, 17) == 0
    ensures Visit(data, CheatWillDisable, 17, true) == (data, OutOfBounds(0, -3))
  {
    CheatMarkerFacts();
  }

  /**
   16 x 0xFF, 0x01, then the marker: the sentinel is at 0, the target at -3
   is outside the buffer, and the buffer is left as it was.
   */
  lemma SentinelAtStartIsOutOfBounds(data: seq<byte>)
    requires data == SentinelFirstBuffer()
    ensures RunRules(data, [CheatWillDisable], 1, true) == Outcome(data, false, [Event(0, 17, OutOfBounds(0, -3))])
  {
    SentinelFirstBytes(data);
    SentinelFirstMarker(data);
    SentinelFirstSentinel(data);
    OutOfBoundsVisit(data);
    ScanRuleUnfold(data, 0, CheatWillDisable, 0, true);
    ScanRuleEnd(data, 0, CheatWillDisable, 35, true);
  }

  /** A buffer of 14 filler bytes (0x01 at index 12), 0x01, 16 x 0xFF, then the marker. */
  function PatchableBuffer(): (data: seq<byte>)
  {
    [0, 0, 0, 0, 0, 0, 0, 0, 0, 0, 0, 0, 1, 0] + [0x01] + Ff16 + CheatWillDisable.marker
  }

  lemma PatchableBytes(data: seq<byte>)
    requires data == PatchableBuffer()
    ensures |data| == 49 && data[31..49] == CheatWillDisable.marker && data[15..31] == Ff16 && data[12] == 0x01
    ensures forall k :: 0 <= k < 31 ==> data[k] != 0x63
  {
    CheatMarkerFacts();
    assert |data| == 49;
    assert data[31..49] == CheatWillDisable.marker;
    assert data[15..31] == Ff16;
    assert forall k :: 0 <= k < 31 ==> data[k] == 0 || data[k] == 0x01 || data[k] == 0xFF;
  }

  /** The marker is found at 31, and the sentinel closest before it starts at 15. */
  lemma PatchableSearches(data: seq<byte>)
    requires |data| == 49 && data[31..49] == CheatWillDisable.marker && data[15..31] == Ff16
    requires forall k :: 0 <= k < 31 ==> data[k] != 0x63
    ensures Find(data, CheatWillDisable.marker, 0) == 31
    ensures Rfind(data, CheatWillDisable.sentinel, 0, 31) == 15
  {
    CheatMarkerFacts();
    FoundFirstAt(data, CheatWillDisable.marker, 31);
    FoundLastAt(data, Ff16, 0, 31, 15);
  }

  /** The sentinel at 15 puts the target at 12, which holds 0x01: cleared when patching, reported when not. */
  lemma PatchableVisit(data: seq<byte>)
    requires |data| == 49 && Rfind(data, CheatWillDisable.sentinel, 0, 31) == 15 && data[12] == 0x01
    ensures Visit(data, CheatWillDisable, 31, true) == (data[12 := 0], Cleared(15, 12, Window(0, 49)))
    ensures Visit(data, CheatWillDisable, 31, false) == (data, WouldClear(15, 12, Window(0, 49)))
  {
    CheatMarkerFacts();
    assert DumpWindow(49, 12) == Window(0, 49);
  }

  /**
   The sentinel is at 15 and the target at 12 holds 0x01: with patching on,
   exactly that byte is cleared and the file is rewritten.
   */
  lemma FlagBeforeSentinelIsCleared(data: seq<byte>)
    requires data == PatchableBuffer()
    ensures RunRules(data, [CheatWillDisable], 1, true)
      == Outcome(data[12 := 0], true, [Event(0, 31, Cleared(15, 12, Window(0, 49)))])
  {
    PatchableBytes(data);
    PatchableSearches(data);
    PatchableVisit(data);
    ScanRuleUnfold(data, 0, CheatWillDisable, 0, true);
    ScanRuleEnd(data[12 := 0], 0, CheatWillDisable, 49, true);
  }

  /** The same buffer in a dry run: the occurrence is reported as one that would be cleared, and nothing changes. */
  lemma FlagBeforeSentinelDryRun(data: seq<byte>)
    requires data == PatchableBuffer()
    ensures RunRules(data, [CheatWillDisable], 1, false)
      == Outcome(data, false, [Event(0, 31, WouldClear(15, 12, Window(0, 49)))])
  {
    PatchableBytes(data);
    PatchableSearches(data);
    PatchableVisit(data);
    ScanRuleUnfold(data, 0, CheatWillDisable, 0, false);
    ScanRuleEnd(data, 0, CheatWillDisable, 49, false);
  }

  /** Two 16 x 0xFF runs, each followed by 0x00, then the marker. */
  function TwoRunsBuffer(): (data: seq<byte>)
  {
    Ff16 + [0] + Ff16 + [0] + CheatWillDisable.marker
  }

  lemma TwoRunsBytes(data: seq<byte>)
    requires data == TwoRunsBuffer()
    ensures |data| == 52 && data[17..33] == Ff16 && data[33] == 0 && data[14] == 0xFF
  {
    assert |data| == 52;
    assert data[17..33] == Ff16;
  }

  /** The sentinel closest before index 34 is the second run, at 17. */
  lemma TwoRunsSearch(data: seq<byte>)
    requires |data| == 52 && data[17..33] == Ff16 && data[33] == 0
    ensures Rfind(data, CheatWillDisable.sentinel, 0, 34) == 17
  {
    CheatMarkerFacts();
    forall k | 17 < k && k + 16 <= 34
      ensures !MatchesAt(data, Ff16, k)
    {
      Mismatch(data, Ff16, k, 15);
    }
    FoundLastAt(data, Ff16, 0, 34, 17);
  }

  /**
   Two 16 x 0xFF runs before the marker, both inside the window: the engine
   anchors to the second, closer one.
   */
  lemma CloserSentinelChosen(data: seq<byte>)
    requires data == TwoRunsBuffer()
    ensures Visit(data, CheatWillDisable, 34, false).1 == NotSet(17, 14, 0xFF, Window(0, 52))
  {
    CheatMarkerFacts();
    TwoRunsBytes(data);
    TwoRunsSearch(data);
  }

  // ---------------------------------------------------------------- command-ran, patched twice

  const Sent9: seq<byte> := [0x01] + Repeat(0xFF, 8)

  /** The command-ran marker starts with 'c' (0x63); its sentinel is 0x01 then 8 x 0xFF, with offset 0. */
  lemma CommandRanFacts()
    ensures |CommandRan.marker| == 11 && CommandRan.marker[0] == 0x63
    ensures CommandRan.sentinel == Sent9 && CommandRan.offset == 0
    ensures CommandRan.searchBack == 300
  {
  }

  /** Two command-ran sentinels back to back, then the marker. */
  function TwoSentinelBuffer(): (data: seq<byte>)
  {
    Sent9 + Sent9 + CommandRan.marker
  }

  lemma TwoSentinelBytes(data: seq<byte>)
    requires data == TwoSentinelBuffer()
    ensures |data| == 29 && data[18..29] == CommandRan.marker && data[0..9] == Sent9 && data[9..18] == Sent9
    ensures data[0] == 0x01 && data[9] == 0x01
    ensures forall k :: 0 <= k < 18 && k != 0 && k != 9 ==> data[k] == 0xFF
  {
    CommandRanFacts();
    assert |data| == 29;
    assert data[18..29] == CommandRan.marker;
    assert data[0..9] == Sent9;
    assert data[9..18] == Sent9;
  }

  /** Command-ran's marker is found at 18 in a 29-byte buffer ending in it, if no earlier byte is 'c'. */
  lemma CommandRanFoundAt18(data: seq<byte>)
    requires |data| == 29 && data[18..29] == CommandRan.marker
    requires forall k :: 0 <= k < 18 ==> data[k] != 0x63
    ensures Find(data, CommandRan.marker, 0) == 18
  {
    CommandRanFacts();
    FoundFirstAt(data, CommandRan.marker, 18);
  }

  /** A cleared command-ran target with its sentinel at `s` in a 29-byte buffer. */
  lemma CommandRanClears(data: seq<byte>, s: nat)
    requires |data| == 29 && s < 18 && Rfind(data, CommandRan.sentinel, 0, 18) == s && data[s] == 0x01
    ensures Visit(data, CommandRan, 18, true) == (data[s := 0], Cleared(s, s, Window(0, 29)))
  {
    CommandRanFacts();
    assert DumpWindow(29, s) == Window(0, 29);
  }

  /** The first run anchors to the sentinel at 9, whose own first byte is the target. */
  lemma FirstRunSearches(data: seq<byte>)
    requires |data| == 29 && data[18..29] == CommandRan.marker && data[9..18] == Sent9
    requires forall k :: 0 <= k < 18 ==> data[k] != 0x63
    ensures Find(data, CommandRan.marker, 0) == 18
    ensures Rfind(data, CommandRan.sentinel, 0, 18) == 9
  {
    CommandRanFacts();
    CommandRanFoundAt18(data);
    FoundLastAt(data, Sent9, 0, 18, 9);
  }

  /** After that clear the sentinel at 9 is gone, and the second run anchors to the one at 0. */
  lemma SecondRunSearches(data: seq<byte>)
    requires |data| == 29 && data[18..29] == CommandRan.marker && data[0..9] == Sent9
    requires forall k :: 0 <= k < 18 ==> data[k] != 0x63
    requires forall k :: 1 <= k < 10 ==> data[k] != 0x01
    ensures Find(data, CommandRan.marker, 0) == 18
    ensures Rfind(data, CommandRan.sentinel, 0, 18) == 0
  {
    CommandRanFacts();
    CommandRanFoundAt18(data);
    NoMatchWhereFirstByteDiffers(data, Sent9, 1, 10);
    FoundLastAt(data, Sent9, 0, 18, 0);
  }

  /**
   Neither of the first two catalog markers occurs in a 29-byte buffer
   ending in the command-ran marker with no 'c' (0x63) or 'e' (0x65) before
   it: 'e' occurs nowhere, and the only 'c' has too few bytes after it for
   the 18-byte cheat-will-disable marker.
   */
  lemma OtherMarkersAbsent(data: seq<byte>)
    requires |data| == 29 && data[18..29] == CommandRan.marker
    requires forall k :: 0 <= k < 18 ==> data[k] != 0x63 && data[k] != 0x65
    ensures Find(data, CheatWillDisable.marker, 0) == -1
    ensures Find(data, EditorWillDisable.marker, 0) == -1
  {
    CheatWillDisableBytes();
    EditorWillDisableBytes();
    CommandRanBytes();
    forall k | 18 <= k < 29
      ensures data[k] == CommandRan.marker[k - 18]
    {
    }
    NoMatchWhereFirstByteDiffers(data, EditorWillDisable.marker, 0, 29);
    NoMatchWhereFirstByteDiffers(data, CheatWillDisable.marker, 0, 18);
    NoMatchWhereFirstByteDiffers(data, CheatWillDisable.marker, 19, 29);
  }

  /** When the first two markers are absent, the catalog's run is the command-ran rule's scan. */
  lemma CatalogRunIsCommandRan(data: seq<byte>)
    requires Find(data, CheatWillDisable.marker, 0) == -1 && Find(data, EditorWillDisable.marker, 0) == -1
    ensures AllWellFormed(Catalog) && RunRules(data, Catalog, 3, true) == ScanRule(data, 2, CommandRan, 0, true)
  {
    CatalogWellFormed();
    var none := Outcome(data, false, []);
    assert Catalog[0] == CheatWillDisable && Catalog[1] == EditorWillDisable && Catalog[2] == CommandRan;
    ScanRuleEnd(data, 0, CheatWillDisable, 0, true);
    assert RunRules(data, Catalog, 1, true) == Then(none, none) == none;
    ScanRuleEnd(data, 1, EditorWillDisable, 0, true);
    assert RunRules(data, Catalog, 2, true) == Then(none, none) == none;
  }

  /** The first command-ran scan clears byte 9, the first byte of the later sentinel. */
  lemma FirstScanClearsNine(data: seq<byte>)
    requires data == TwoSentinelBuffer()
    ensures var o := ScanRule(data, 2, CommandRan, 0, true); o.modified && o.data == data[9 := 0]
  {
    TwoSentinelBytes(data);
    FirstRunSearches(data);
    CommandRanClears(data, 9);
    ScanRuleUnfold(data, 2, CommandRan, 0, true);
    ScanRuleEnd(data[9 := 0], 2, CommandRan, 29, true);
  }

  /** A second command-ran scan over that output anchors to the sentinel at 0 and clears byte 0. */
  lemma SecondScanClearsZero(data: seq<byte>)
    requires data == TwoSentinelBuffer()
    ensures var d1 := data[9 := 0]; var o := ScanRule(d1, 2, CommandRan, 0, true);
      o.modified && o.data == d1[0 := 0]
  {
    TwoSentinelBytes(data);
    var d1 := data[9 := 0];
    assert d1[18..29] == data[18..29] && d1[0..9] == data[0..9];
    SecondRunSearches(d1);
    CommandRanClears(d1, 0);
    ScanRuleUnfold(d1, 2, CommandRan, 0, true);
    ScanRuleEnd(d1[0 := 0], 2, CommandRan, 29, true);
  }

  /** On the buffer and on the first run's output, the whole catalog does what the command-ran rule does. */
  lemma BothRunsAreCommandRan(data: seq<byte>)
    requires data == TwoSentinelBuffer()
    ensures AllWellFormed(Catalog)
    ensures RunRules(data, Catalog, 3, true) == ScanRule(data, 2, CommandRan, 0, true)
    ensures RunRules(data[9 := 0], Catalog, 3, true) == ScanRule(data[9 := 0], 2, CommandRan, 0, true)
  {
    TwoSentinelBytes(data);
    var d1 := data[9 := 0];
    assert d1[18..29] == data[18..29];
    OtherMarkersAbsent(data);
    OtherMarkersAbsent(d1);
    CatalogRunIsCommandRan(data);
    CatalogRunIsCommandRan(d1);
  }

  /**
   Patching is not idempotent: on two back-to-back command-ran sentinels, a
   patching run of the whole catalog clears byte 9, and a second run over its
   output clears byte 0 and reports the file modified again.
   */
  lemma PatchingTwiceClearsAgain(data: seq<byte>)
    requires data == TwoSentinelBuffer()
    ensures AllWellFormed(Catalog)
    ensures var o1 := RunRules(data, Catalog, 3, true);
      && o1.modified && o1.data == data[9 := 0]
      && var o2 := RunRules(o1.data, Catalog, 3, true);
         o2.modified && o2.data == data[9 := 0][0 := 0]
  {
    BothRunsAreCommandRan(data);
    FirstScanClearsNine(data);
    SecondScanClearsZero(data);
  }
}
