/**
 The marker -> sentinel -> offset patch engine of `process_level_dat_file`.

 For every rule, in catalog order, the engine scans the buffer left to right
 for non-overlapping marker occurrences. For each occurrence it anchors to
 the rightmost sentinel inside a bounded window before the marker, adds the
 rule's signed offset, and clears the byte there when it is exactly 0x01 and
 patching is on. Console diagnostics become a log of `Event`s, one per marker
 occurrence, each carrying the clamped hex-dump window the original prints.

 `Visit`, `ScanRule` and `RunRules` are the specification; `ScanAndPatch` is
 the loop `process_level_dat_file` in factorio_savegame_fix.py runs, proved
 equal to it.
 */
module PatchEngine {
  import opened ByteSearch
  import opened PatchRules

  /** Half-width of the hex dumps printed around a marker or a target. */
  const DumpRadius: nat := 250

  /** A hex-dump range `[lo, hi)` of the buffer. */
  datatype Window = Window(lo: nat, hi: nat)

  /** What happened at one marker occurrence. */
  datatype Kind =
    | SentinelNotFound(dump: Window)
    | OutOfBounds(sentinelAt: nat, target: int)
    | NotSet(sentinelAt: nat, target: int, found: byte, dump: Window)
    | WouldClear(sentinelAt: nat, target: int, dump: Window)   // byte is 0x01, dry run
    | Cleared(sentinelAt: nat, target: int, dump: Window)      // byte 0x01 set to 0x00

  /** One marker occurrence of rule number `rule`, found at `markerAt`. */
  datatype Event = Event(rule: nat, markerAt: nat, kind: Kind)

  /** The buffer after a scan, the `data_modified` flag, and the diagnostics. */
  datatype Outcome = Outcome(data: seq<byte>, modified: bool, log: seq<Event>)

  /** The outcome of running `a` and then `b` on the buffer `a` left. */
  function Then(a: Outcome, b: Outcome): Outcome
  {
    Outcome(b.data, a.modified || b.modified, a.log + b.log)
  }

  /** `max(0, i - back)`: the first index of the backward sentinel window. */
  function WindowStart(i: nat, back: nat): (lo: nat)
    ensures lo <= i && i - lo <= back
    ensures lo == 0 || i - lo == back
  {
    if i - back > 0 then i - back else 0
  }

  /** `[max(0, p - 250), min(n, p + 250))`, the dump range around position `p`. */
  function DumpWindow(n: nat, p: nat): (w: Window)
    requires p < n
    ensures w.lo <= p < w.hi <= n
    ensures p - w.lo <= DumpRadius && w.hi - p <= DumpRadius
    ensures w.lo == 0 || p - w.lo == DumpRadius
    ensures w.hi == n || w.hi - p == DumpRadius
  {
    Window(if p - DumpRadius > 0 then p - DumpRadius else 0,
           if n < p + DumpRadius then n else p + DumpRadius)
  }

  /** `s` is the rightmost sentinel of `r` lying wholly inside the window before `i`. */
  ghost predicate RightmostSentinel(data: seq<byte>, r: Rule, i: nat, s: int)
  {
    && WindowStart(i, r.searchBack) <= s
    && s + |r.sentinel| <= i
    && MatchesAt(data, r.sentinel, s)
    && forall j :: s < j && j + |r.sentinel| <= i ==> !MatchesAt(data, r.sentinel, j)
  }

  /** What each classification of a marker occurrence at `i` in `data` means. */
  ghost predicate Classified(data: seq<byte>, r: Rule, i: nat, k: Kind)
    requires i < |data|
  {
    match k
    case SentinelNotFound(w) =>
      && (forall j :: WindowStart(i, r.searchBack) <= j && j + |r.sentinel| <= i ==> !MatchesAt(data, r.sentinel, j))
      && w == DumpWindow(|data|, i)
    case OutOfBounds(s, t) =>
      RightmostSentinel(data, r, i, s) && t == s + r.offset && (t < 0 || t >= |data|)
    case NotSet(s, t, b, w) =>
      && RightmostSentinel(data, r, i, s) && t == s + r.offset && 0 <= t < |data|
      && data[t] == b && b != 0x01 && w == DumpWindow(|data|, t)
    case WouldClear(s, t, w) =>
      && RightmostSentinel(data, r, i, s) && t == s + r.offset && 0 <= t < |data|
      && data[t] == 0x01 && w == DumpWindow(|data|, t)
    case Cleared(s, t, w) =>
      && RightmostSentinel(data, r, i, s) && t == s + r.offset && 0 <= t < |data|
      && data[t] == 0x01 && w == DumpWindow(|data|, t)
  }

  /**
   One marker occurrence at `i`: locate the sentinel, compute and check the
   target, and clear it if it holds 0x01 and `doPatch` is set.
   */
  function Visit(data: seq<byte>, r: Rule, i: nat, doPatch: bool): (res: (seq<byte>, Kind))
    requires i < |data|
    ensures res.1.Cleared? ==> doPatch && 0 <= res.1.target < |data| && data[res.1.target] == 0x01
    ensures res.1.WouldClear? ==> !doPatch
    ensures |res.0| == |data|
    ensures res.0 == if res.1.Cleared? then data[res.1.target := 0] else data
  {
    var s := Rfind(data, r.sentinel, WindowStart(i, r.searchBack), i);
    if s == -1 then (data, SentinelNotFound(DumpWindow(|data|, i)))
    else
      var t := s + r.offset;
      if t < 0 || t >= |data| then (data, OutOfBounds(s, t))
      else if data[t] != 0x01 then (data, NotSet(s, t, data[t], DumpWindow(|data|, t)))
      else if doPatch then (data[t := 0], Cleared(s, t, DumpWindow(|data|, t)))
      else (data, WouldClear(s, t, DumpWindow(|data|, t)))
  }

  /**
   All marker occurrences of rule `r` (number `ri`) at or after `from`, each
   search resuming just past the previous occurrence, each over the buffer
   as the previous occurrence left it.
   */
  function ScanRule(data: seq<byte>, ri: nat, r: Rule, from: nat, doPatch: bool): (o: Outcome)
    requires WellFormed(r)
    ensures |o.data| == |data|
    decreases |data| - from
  {
    var i := Find(data, r.marker, from);
    if i == -1 then Outcome(data, false, [])
    else
      var (d, k) := Visit(data, r, i, doPatch);
      var rest := ScanRule(d, ri, r, i + |r.marker|, doPatch);
      Outcome(rest.data, k.Cleared? || rest.modified, [Event(ri, i, k)] + rest.log)
  }

  /** The first `n` rules of `rules`, in order, each over the buffer the previous one left. */
  function RunRules(data: seq<byte>, rules: seq<Rule>, n: nat, doPatch: bool): (o: Outcome)
    requires n <= |rules| && AllWellFormed(rules)
    ensures |o.data| == |data|
  {
    if n == 0 then Outcome(data, false, [])
    else
      var o := RunRules(data, rules, n - 1, doPatch);
      Then(o, ScanRule(o.data, n - 1, rules[n - 1], 0, doPatch))
  }

  /** Lines 56-96 of factorio_savegame_fix.py: the work done at one marker occurrence at `at`. */
  method VisitOccurrence(data: seq<byte>, r: Rule, at: nat, doPatch: bool)
    returns (newData: seq<byte>, kind: Kind)
    requires at < |data|
    ensures (newData, kind) == Visit(data, r, at, doPatch)
  {
    newData := data;
    var searchStart := if at - r.searchBack > 0 then at - r.searchBack else 0;
    var sentinelAt := Rfind(data, r.sentinel, searchStart, at);
    if sentinelAt == -1 {
      kind := SentinelNotFound(DumpWindow(|data|, at));
      return;
    }
    var target := sentinelAt + r.offset;
    if target < 0 || target >= |data| {
      kind := OutOfBounds(sentinelAt, target);
      return;
    }
    var dump := DumpWindow(|data|, target);
    var originalByte := data[target];
    if originalByte == 0x01 {
      if doPatch {
        newData := data[..target] + [0] + data[target + 1..];
        assert newData == data[target := 0];
        kind := Cleared(sentinelAt, target, dump);
      } else {
        kind := WouldClear(sentinelAt, target, dump);
      }
    } else {
      kind := NotSet(sentinelAt, target, originalByte, dump);
    }
  }

  /** No further marker occurrence: the scan leaves everything as it is. */
  lemma ScanRuleEnd(data: seq<byte>, ri: nat, r: Rule, from: nat, doPatch: bool)
    requires WellFormed(r) && Find(data, r.marker, from) == -1
    ensures ScanRule(data, ri, r, from, doPatch) == Outcome(data, false, [])
  {
  }

  /** One occurrence visited: the scan reports it first and then continues past its end. */
  lemma ScanRuleUnfold(data: seq<byte>, ri: nat, r: Rule, from: nat, doPatch: bool)
    requires WellFormed(r) && Find(data, r.marker, from) != -1
    ensures
      var i := Find(data, r.marker, from);
      var v := Visit(data, r, i, doPatch);
      var o := ScanRule(data, ri, r, from, doPatch);
      var rest := ScanRule(v.0, ri, r, i + |r.marker|, doPatch);
      && o.data == rest.data
      && o.modified == (v.1.Cleared? || rest.modified)
      && o.log == [Event(ri, i, v.1)] + rest.log
  {
  }

  /** One occurrence visited: what is done so far and the rest of the scan compose. */
  lemma ScanRuleStep(acc: Outcome, ri: nat, r: Rule, from: nat, doPatch: bool)
    requires WellFormed(r) && Find(acc.data, r.marker, from) != -1
    ensures
      var i := Find(acc.data, r.marker, from);
      var v := Visit(acc.data, r, i, doPatch);
      Then(acc, ScanRule(acc.data, ri, r, from, doPatch))
        == Then(Outcome(v.0, acc.modified || v.1.Cleared?, acc.log + [Event(ri, i, v.1)]),
                ScanRule(v.0, ri, r, i + |r.marker|, doPatch))
  {
    var i := Find(acc.data, r.marker, from);
    var v := Visit(acc.data, r, i, doPatch);
    var rest := ScanRule(v.0, ri, r, i + |r.marker|, doPatch);
    ScanRuleUnfold(acc.data, ri, r, from, doPatch);
    assert acc.log + ([Event(ri, i, v.1)] + rest.log) == acc.log + [Event(ri, i, v.1)] + rest.log;
  }

  /**
   Lines 45-98 of factorio_savegame_fix.py: the `while True` loop for one rule `r` (number
   `ri`), continuing the buffer, `data_modified` flag and diagnostics given.
   */
  method ScanOccurrences(data0: seq<byte>, modified0: bool, log0: seq<Event>, ri: nat, r: Rule, doPatch: bool)
    returns (data: seq<byte>, modified: bool, log: seq<Event>)
    requires WellFormed(r)
    ensures Outcome(data, modified, log) == Then(Outcome(data0, modified0, log0), ScanRule(data0, ri, r, 0, doPatch))
  {
    data, modified, log := data0, modified0, log0;
    var index := 0;
    while true
      invariant index <= |data| == |data0|
      invariant Then(Outcome(data, modified, log), ScanRule(data, ri, r, index, doPatch))
             == Then(Outcome(data0, modified0, log0), ScanRule(data0, ri, r, 0, doPatch))
      decreases |data| - index
    {
      var at := Find(data, r.marker, index);
      if at == -1 {
        ScanRuleEnd(data, ri, r, index, doPatch);
        break;
      }
      ghost var before := Outcome(data, modified, log);
      var kind;
      data, kind := VisitOccurrence(data, r, at, doPatch);
      if kind.Cleared? {
        modified := true;
      }
      log := log + [Event(ri, at, kind)];
      ScanRuleStep(before, ri, r, index, doPatch);
      index := at + |r.marker|;
    }
  }

  /** The scan-and-patch loop of `process_level_dat_file` over an already decompressed buffer. */
  method ScanAndPatch(input: seq<byte>, rules: seq<Rule>, doPatch: bool)
    returns (data: seq<byte>, modified: bool, log: seq<Event>)
    requires AllWellFormed(rules)
    ensures Outcome(data, modified, log) == RunRules(input, rules, |rules|, doPatch)
  {
    data, modified, log := input, false, [];
    for n := 0 to |rules|
      invariant Outcome(data, modified, log) == RunRules(input, rules, n, doPatch)
    {
      data, modified, log := ScanOccurrences(data, modified, log, n, rules[n], doPatch);
    }
  }
}
