/**
 What the patch engine guarantees, proved about its specification
 (`Visit`, `ScanRule`, `RunRules`) and hence, through the contract of
 `ScanAndPatch`, about the loop `process_level_dat_file` in
 factorio_savegame_fix.py runs.

 The log is read as a record of the run: replaying its cleared events on
 the input gives the output buffer (`ApplyAll`), and the per-byte facts are
 proved once about that replay. Properties of one rule's log are stated
 recursively, one event at a time as the scan produces them, and turned into
 statements about every index where all rules are combined.
 */
module EngineProperties {
  import opened ByteSearch
  import opened PatchRules
  import opened PatchEngine

  // ---------------------------------------------------------------- the log as a record of the buffer

  /** The buffer after event `e`: its target set to 0x00 if it cleared one. */
  function Apply(data: seq<byte>, e: Event): (d: seq<byte>)
    ensures |d| == |data|
  {
    if e.kind.Cleared? && 0 <= e.kind.target < |data| then data[e.kind.target := 0] else data
  }

  /** The buffer after the clears of `log`, applied in order. */
  function ApplyAll(data: seq<byte>, log: seq<Event>): (d: seq<byte>)
    ensures |d| == |data|
    decreases |log|
  {
    if |log| == 0 then data else ApplyAll(Apply(data, log[0]), log[1..])
  }

  /** Each cleared event of `log` targets a byte inside the buffer that held 0x01 when it was cleared. */
  ghost predicate ClearsHeld(data: seq<byte>, log: seq<Event>)
    decreases |log|
  {
    || |log| == 0
    || (&& (log[0].kind.Cleared? ==> 0 <= log[0].kind.target < |data| && data[log[0].kind.target] == 0x01)
        && ClearsHeld(Apply(data, log[0]), log[1..]))
  }

  /** Some event of `log` cleared a byte. */
  ghost predicate AnyCleared(log: seq<Event>)
    decreases |log|
  {
    |log| > 0 && (log[0].kind.Cleared? || AnyCleared(log[1..]))
  }

  /** Some event of `log` cleared the byte at `k`. */
  ghost predicate ClearedAt(log: seq<Event>, k: int)
    decreases |log|
  {
    |log| > 0 && ((log[0].kind.Cleared? && log[0].kind.target == k) || ClearedAt(log[1..], k))
  }

  /** `b` is `a` with zero or more bytes that held 0x01 set to 0x00, and nothing else changed. */
  ghost predicate OnlyCleared(a: seq<byte>, b: seq<byte>)
  {
    |a| == |b| && forall k :: 0 <= k < |a| ==> b[k] == a[k] || (a[k] == 0x01 && b[k] == 0x00)
  }

  /** The head and tail of a log that starts with `e`. */
  lemma LogCons(e: Event, log: seq<Event>)
    ensures |[e] + log| == |log| + 1 && ([e] + log)[0] == e && ([e] + log)[1..] == log
  {
  }

  /** Replaying `a + b` is replaying `a` and then `b`. */
  lemma {:induction false} ApplyAllAppend(data: seq<byte>, a: seq<Event>, b: seq<Event>)
    ensures ApplyAll(data, a + b) == ApplyAll(ApplyAll(data, a), b)
    decreases |a|
  {
    if |a| == 0 {
      assert a + b == b;
    } else {
      assert (a + b)[0] == a[0] && (a + b)[1..] == a[1..] + b;
      ApplyAllAppend(Apply(data, a[0]), a[1..], b);
    }
  }

  /** The clears of `a + b` held 0x01 exactly when those of `a` did and then those of `b` did. */
  lemma {:induction false} ClearsHeldAppend(data: seq<byte>, a: seq<Event>, b: seq<Event>)
    ensures ClearsHeld(data, a + b) <==> ClearsHeld(data, a) && ClearsHeld(ApplyAll(data, a), b)
    decreases |a|
  {
    if |a| == 0 {
      assert a + b == b;
    } else {
      assert (a + b)[0] == a[0] && (a + b)[1..] == a[1..] + b;
      ClearsHeldAppend(Apply(data, a[0]), a[1..], b);
    }
  }

  /** A run that records its changes, followed by another on the buffer it left, records the changes of both. */
  lemma RecordsThen(data: seq<byte>, a: Outcome, b: Outcome)
    requires a.data == ApplyAll(data, a.log) && ClearsHeld(data, a.log)
    requires b.data == ApplyAll(a.data, b.log) && ClearsHeld(a.data, b.log)
    ensures Then(a, b).data == ApplyAll(data, Then(a, b).log) && ClearsHeld(data, Then(a, b).log)
  {
    ApplyAllAppend(data, a.log, b.log);
    ClearsHeldAppend(data, a.log, b.log);
  }

  /** Some event of `a + b` clears a byte exactly when one of `a` or one of `b` does. */
  lemma {:induction false} AnyClearedAppend(a: seq<Event>, b: seq<Event>)
    ensures AnyCleared(a + b) <==> AnyCleared(a) || AnyCleared(b)
    decreases |a|
  {
    if |a| == 0 {
      assert a + b == b;
    } else {
      assert (a + b)[0] == a[0] && (a + b)[1..] == a[1..] + b;
      AnyClearedAppend(a[1..], b);
    }
  }

  /**
   When every clear found 0x01, replaying the log changes a byte exactly
   where some event cleared it, and each changed byte went from 0x01 to 0x00.
   */
  lemma {:induction false} ClearsTakeEffect(data: seq<byte>, log: seq<Event>)
    requires ClearsHeld(data, log)
    ensures forall k :: 0 <= k < |data| ==> (ApplyAll(data, log)[k] != data[k] <==> ClearedAt(log, k))
    ensures forall k :: 0 <= k < |data| && ApplyAll(data, log)[k] != data[k] ==>
      data[k] == 0x01 && ApplyAll(data, log)[k] == 0x00
    decreases |log|
  {
    if |log| > 0 {
      var e := log[0];
      var d := Apply(data, e);
      var out := ApplyAll(data, log);
      assert out == ApplyAll(d, log[1..]);
      ClearsTakeEffect(d, log[1..]);
      forall k | 0 <= k < |data|
        ensures (out[k] != data[k] <==> ClearedAt(log, k))
        ensures out[k] != data[k] ==> data[k] == 0x01 && out[k] == 0x00
      {
        if e.kind.Cleared? && e.kind.target == k {
          assert d[k] == 0x00 && data[k] == 0x01;
        } else {
          assert d[k] == data[k];
        }
      }
    }
  }

  /** When every clear found its byte inside the buffer, a log that clears something clears a byte of the buffer. */
  lemma {:induction false} AnyClearedSomewhere(data: seq<byte>, log: seq<Event>)
    requires ClearsHeld(data, log) && AnyCleared(log)
    ensures exists k :: 0 <= k < |data| && ClearedAt(log, k)
    decreases |log|
  {
    if log[0].kind.Cleared? {
      assert ClearedAt(log, log[0].kind.target);
    } else {
      AnyClearedSomewhere(Apply(data, log[0]), log[1..]);
      var k :| 0 <= k < |data| && ClearedAt(log[1..], k);
      assert ClearedAt(log, k);
    }
  }

  /** A log that clears nothing leaves the buffer as it was. */
  lemma {:induction false} NoClearNoChange(data: seq<byte>, log: seq<Event>)
    requires !AnyCleared(log)
    ensures ApplyAll(data, log) == data
    decreases |log|
  {
    if |log| > 0 {
      NoClearNoChange(Apply(data, log[0]), log[1..]);
    }
  }

  // ---------------------------------------------------------------- what one rule's log says

  /** `s` starts a sentinel lying wholly inside the backward window of the marker at `i`. */
  ghost predicate InWindow(r: Rule, i: nat, s: int)
  {
    WindowStart(i, r.searchBack) <= s && s + |r.sentinel| <= i
  }

  /**
   What an event of rule `r` (number `ri`) says about a buffer of length `n`,
   whatever its bytes: the marker lies inside the buffer, the sentinel inside
   the window, the target is the sentinel plus the offset, and the hex dumps
   are the clamped windows around the marker or the target.
   */
  ghost predicate Shaped(n: nat, ri: nat, r: Rule, e: Event)
  {
    && e.rule == ri
    && e.markerAt < n && e.markerAt + |r.marker| <= n
    && match e.kind
       case SentinelNotFound(w) => w == DumpWindow(n, e.markerAt)
       case OutOfBounds(s, t) => InWindow(r, e.markerAt, s) && t == s + r.offset && (t < 0 || t >= n)
       case NotSet(s, t, b, w) =>
         InWindow(r, e.markerAt, s) && t == s + r.offset && 0 <= t < n && b != 0x01 && w == DumpWindow(n, t)
       case WouldClear(s, t, w) => InWindow(r, e.markerAt, s) && t == s + r.offset && 0 <= t < n && w == DumpWindow(n, t)
       case Cleared(s, t, w) => InWindow(r, e.markerAt, s) && t == s + r.offset && 0 <= t < n && w == DumpWindow(n, t)
  }

  /** Every event of `log` is shaped as an event of rule `r`, number `ri`, over `n` bytes. */
  ghost predicate AllShaped(n: nat, ri: nat, r: Rule, log: seq<Event>)
    decreases |log|
  {
    |log| == 0 || (Shaped(n, ri, r, log[0]) && AllShaped(n, ri, r, log[1..]))
  }

  /**
   The occurrences in `log` are at or after `from`, left to right, each one
   starting at or after the end of the previous occurrence of length `m`.
   */
  ghost predicate LeftToRight(log: seq<Event>, m: nat, from: nat)
    decreases |log|
  {
    |log| == 0 || (from <= log[0].markerAt && LeftToRight(log[1..], m, log[0].markerAt + m))
  }

  /**
   `log` lists the occurrences of `m` in `data` that a greedy left-to-right
   search from `from` finds: each is the first match at or after the end of
   the one before, and there is no match after the last.
   */
  ghost predicate Greedy(data: seq<byte>, m: seq<byte>, log: seq<Event>, from: nat)
    decreases |log|
  {
    if |log| == 0 then forall j :: from <= j ==> !MatchesAt(data, m, j)
    else
      && from <= log[0].markerAt
      && MatchesAt(data, m, log[0].markerAt)
      && (forall j :: from <= j < log[0].markerAt ==> !MatchesAt(data, m, j))
      && Greedy(data, m, log[1..], log[0].markerAt + |m|)
  }

  /**
   As `Greedy`, over the buffer as the events before each one left it: each
   occurrence is the first match at or after the end of the previous one in
   the buffer after the previous clears, and there is no match after the last
   in the buffer after all of them.
   */
  ghost predicate PatchedGreedy(data: seq<byte>, m: seq<byte>, log: seq<Event>, from: nat)
    decreases |log|
  {
    if |log| == 0 then forall j :: from <= j ==> !MatchesAt(data, m, j)
    else
      && from <= log[0].markerAt
      && MatchesAt(data, m, log[0].markerAt)
      && (forall j :: from <= j < log[0].markerAt ==> !MatchesAt(data, m, j))
      && PatchedGreedy(Apply(data, log[0]), m, log[1..], log[0].markerAt + |m|)
  }

  /**
   `log` is what visiting its occurrences of `r` in order does to `data`:
   each event is a marker occurrence in the buffer as the events before it
   left it, classified as visiting it there classifies it.
   */
  ghost predicate Replays(data: seq<byte>, r: Rule, doPatch: bool, log: seq<Event>)
    decreases |log|
  {
    || |log| == 0
    || (&& log[0].markerAt < |data|
        && MatchesAt(data, r.marker, log[0].markerAt)
        && log[0].kind == Visit(data, r, log[0].markerAt, doPatch).1
        && Replays(Apply(data, log[0]), r, doPatch, log[1..]))
  }

  /** As `Replays`, for events of several rules, each visited with the rule it names. */
  ghost predicate RulesReplay(data: seq<byte>, rules: seq<Rule>, doPatch: bool, log: seq<Event>)
    decreases |log|
  {
    || |log| == 0
    || (&& log[0].rule < |rules|
        && log[0].markerAt < |data|
        && MatchesAt(data, rules[log[0].rule].marker, log[0].markerAt)
        && log[0].kind == Visit(data, rules[log[0].rule], log[0].markerAt, doPatch).1
        && RulesReplay(Apply(data, log[0]), rules, doPatch, log[1..]))
  }

  /** A replay of rule number `ri` whose events all name `ri` is a replay of the rule list. */
  lemma {:induction false} ReplaysLift(data: seq<byte>, rules: seq<Rule>, ri: nat, doPatch: bool, log: seq<Event>)
    requires ri < |rules| && Replays(data, rules[ri], doPatch, log) && AllShaped(|data|, ri, rules[ri], log)
    ensures RulesReplay(data, rules, doPatch, log)
    decreases |log|
  {
    if |log| > 0 {
      ReplaysLift(Apply(data, log[0]), rules, ri, doPatch, log[1..]);
    }
  }

  /** Replaying `a` and then, on the buffer it leaves, `b`, is replaying `a + b`. */
  lemma {:induction false} RulesReplayAppend(data: seq<byte>, rules: seq<Rule>, doPatch: bool, a: seq<Event>, b: seq<Event>)
    requires RulesReplay(data, rules, doPatch, a) && RulesReplay(ApplyAll(data, a), rules, doPatch, b)
    ensures RulesReplay(data, rules, doPatch, a + b)
    decreases |a|
  {
    if |a| == 0 {
      assert a + b == b;
    } else {
      assert (a + b)[0] == a[0] && (a + b)[1..] == a[1..] + b;
      RulesReplayAppend(Apply(data, a[0]), rules, doPatch, a[1..], b);
    }
  }

  /**
   A replayed log, read at every index: event `a` is a marker occurrence in
   the buffer as events `0 .. a - 1` left it, and is classified there.
   */
  lemma {:induction false} RulesReplayEach(data: seq<byte>, rules: seq<Rule>, doPatch: bool, log: seq<Event>)
    requires RulesReplay(data, rules, doPatch, log)
    ensures forall a :: 0 <= a < |log| ==>
      && log[a].rule < |rules|
      && log[a].markerAt < |data|
      && MatchesAt(ApplyAll(data, log[..a]), rules[log[a].rule].marker, log[a].markerAt)
      && log[a].kind == Visit(ApplyAll(data, log[..a]), rules[log[a].rule], log[a].markerAt, doPatch).1
    decreases |log|
  {
    if |log| > 0 {
      var d := Apply(data, log[0]);
      RulesReplayEach(d, rules, doPatch, log[1..]);
      assert log[..0] == [];
      forall a | 0 < a < |log|
        ensures log[a] == log[1..][a - 1] && ApplyAll(data, log[..a]) == ApplyAll(d, log[1..][..a - 1])
      {
        assert log[..a][0] == log[0] && log[..a][1..] == log[1..][..a - 1];
      }
    }
  }

  /** A shaped event in front of a shaped log. */
  lemma AllShapedCons(n: nat, ri: nat, r: Rule, e: Event, log: seq<Event>)
    requires Shaped(n, ri, r, e) && AllShaped(n, ri, r, log)
    ensures AllShaped(n, ri, r, [e] + log)
  {
    LogCons(e, log);
  }

  /** A shaped log is shaped at every index. */
  lemma {:induction false} AllShapedEach(n: nat, ri: nat, r: Rule, log: seq<Event>)
    requires AllShaped(n, ri, r, log)
    ensures forall a :: 0 <= a < |log| ==> Shaped(n, ri, r, log[a])
    decreases |log|
  {
    if |log| > 0 {
      AllShapedEach(n, ri, r, log[1..]);
      forall a | 0 < a < |log|
        ensures log[a] == log[1..][a - 1]
      {
      }
    }
  }

  /** Left to right from `from`: every occurrence is at or after `from`, and any two are ordered and disjoint. */
  lemma {:induction false} LeftToRightPairs(log: seq<Event>, m: nat, from: nat)
    requires LeftToRight(log, m, from)
    ensures forall a :: 0 <= a < |log| ==> from <= log[a].markerAt
    ensures forall a, b :: 0 <= a < b < |log| ==> log[a].markerAt + m <= log[b].markerAt
    decreases |log|
  {
    if |log| > 0 {
      LeftToRightPairs(log[1..], m, log[0].markerAt + m);
      forall a | 0 < a < |log|
        ensures log[a] == log[1..][a - 1]
      {
      }
    }
  }

  /** A greedy log misses no occurrence: each match at or after `from` lies inside a listed occurrence. */
  lemma {:induction false} GreedyCovers(data: seq<byte>, m: seq<byte>, log: seq<Event>, from: nat)
    requires Greedy(data, m, log, from)
    ensures forall j :: from <= j && MatchesAt(data, m, j) ==>
      exists a :: 0 <= a < |log| && log[a].markerAt <= j < log[a].markerAt + |m|
    decreases |log|
  {
    if |log| > 0 {
      GreedyCovers(data, m, log[1..], log[0].markerAt + |m|);
      forall j | from <= j && MatchesAt(data, m, j)
        ensures exists a :: 0 <= a < |log| && log[a].markerAt <= j < log[a].markerAt + |m|
      {
        if j >= log[0].markerAt + |m| {
          var a :| 0 <= a < |log[1..]| && log[1..][a].markerAt <= j < log[1..][a].markerAt + |m|;
          assert log[a + 1] == log[1..][a];
        } else {
          assert log[0].markerAt <= j;
        }
      }
    }
  }

  // ---------------------------------------------------------------- one occurrence

  /**
   The classification of one occurrence means what it says: the sentinel is
   the rightmost one in the window (or there is none), the target is the
   sentinel plus the offset, and the byte there was inspected.
   */
  lemma VisitClassified(data: seq<byte>, r: Rule, i: nat, doPatch: bool)
    requires i < |data|
    ensures Classified(data, r, i, Visit(data, r, i, doPatch).1)
  {
    RfindGreatest(data, r.sentinel, WindowStart(i, r.searchBack), i);
  }

  /** The rightmost-sentinel choice: any other sentinel in the window lies at or before the chosen one. */
  lemma VisitAnchorsRightmost(data: seq<byte>, r: Rule, i: nat, doPatch: bool, j: int)
    requires i < |data|
    requires WindowStart(i, r.searchBack) <= j && j + |r.sentinel| <= i && MatchesAt(data, r.sentinel, j)
    ensures !Visit(data, r, i, doPatch).1.SentinelNotFound?
    ensures j <= Visit(data, r, i, doPatch).1.sentinelAt
  {
    VisitClassified(data, r, i, doPatch);
  }

  /** A target outside the buffer, or a byte other than 0x01, leaves the buffer as it was. */
  lemma VisitGuarded(data: seq<byte>, r: Rule, i: nat, doPatch: bool)
    requires i < |data|
    ensures var v := Visit(data, r, i, doPatch);
      && |v.0| == |data|
      && (v.0 != data <==> v.1.Cleared?)
      && (v.1.Cleared? ==> doPatch && data[v.1.target] == 0x01 && v.0 == data[v.1.target := 0x00])
  {
    var v := Visit(data, r, i, doPatch);
    if v.1.Cleared? {
      assert v.0[v.1.target] != data[v.1.target];
    }
  }

  /** The event of an occurrence lying inside the buffer is shaped as its classification requires. */
  lemma VisitShaped(data: seq<byte>, ri: nat, r: Rule, i: nat, doPatch: bool)
    requires i + |r.marker| <= |data| && i < |data|
    ensures Shaped(|data|, ri, r, Event(ri, i, Visit(data, r, i, doPatch).1))
  {
    VisitClassified(data, r, i, doPatch);
  }

  /** The event of an occurrence inside the buffer, in front of a shaped log. */
  lemma VisitShapedCons(data: seq<byte>, ri: nat, r: Rule, i: nat, doPatch: bool, log: seq<Event>)
    requires i + |r.marker| <= |data| && i < |data|
    requires AllShaped(|data|, ri, r, log)
    ensures AllShaped(|data|, ri, r, [Event(ri, i, Visit(data, r, i, doPatch).1)] + log)
  {
    VisitShaped(data, ri, r, i, doPatch);
    AllShapedCons(|data|, ri, r, Event(ri, i, Visit(data, r, i, doPatch).1), log);
  }

  // ---------------------------------------------------------------- one rule

  /** The event of a visit in front of a log that records the changes after it records the visit's change too. */
  lemma RecordsCons(data: seq<byte>, ri: nat, r: Rule, i: nat, doPatch: bool, rest: Outcome)
    requires i < |data|
    requires var d := Visit(data, r, i, doPatch).0; rest.data == ApplyAll(d, rest.log) && ClearsHeld(d, rest.log)
    ensures var log := [Event(ri, i, Visit(data, r, i, doPatch).1)] + rest.log;
      rest.data == ApplyAll(data, log) && ClearsHeld(data, log)
  {
    VisitApplied(data, ri, r, i, doPatch);
    RecordsEvent(data, Event(ri, i, Visit(data, r, i, doPatch).1), rest);
  }

  /** Replaying the event of a visit gives the buffer the visit left; a clear it reports found 0x01 inside the buffer. */
  lemma VisitApplied(data: seq<byte>, ri: nat, r: Rule, i: nat, doPatch: bool)
    requires i < |data|
    ensures var v := Visit(data, r, i, doPatch);
      && Apply(data, Event(ri, i, v.1)) == v.0
      && (v.1.Cleared? ==> 0 <= v.1.target < |data| && data[v.1.target] == 0x01)
  {
    VisitGuarded(data, r, i, doPatch);
  }

  /** An event whose clear found 0x01, in front of a log recording the changes after it. */
  lemma RecordsEvent(data: seq<byte>, e: Event, rest: Outcome)
    requires e.kind.Cleared? ==> 0 <= e.kind.target < |data| && data[e.kind.target] == 0x01
    requires var d := Apply(data, e); rest.data == ApplyAll(d, rest.log) && ClearsHeld(d, rest.log)
    ensures rest.data == ApplyAll(data, [e] + rest.log) && ClearsHeld(data, [e] + rest.log)
  {
    LogCons(e, rest.log);
  }

  /**
   A rule's log records its changes: replaying its cleared events on the
   input gives the output, and each of them found 0x01.
   */
  lemma {:induction false} ScanRuleRecords(data: seq<byte>, ri: nat, r: Rule, from: nat, doPatch: bool)
    requires WellFormed(r)
    ensures var o := ScanRule(data, ri, r, from, doPatch);
      o.data == ApplyAll(data, o.log) && ClearsHeld(data, o.log)
    decreases |data| - from
  {
    var i := Find(data, r.marker, from);
    if i == -1 {
      ScanRuleEnd(data, ri, r, from, doPatch);
    } else {
      ScanRuleRecords(Visit(data, r, i, doPatch).0, ri, r, i + |r.marker|, doPatch);
      ScanRuleRecordsStep(data, ri, r, from, doPatch);
    }
  }

  /** The induction step of `ScanRuleRecords`: an occurrence found, the rest of the scan recording its changes. */
  lemma ScanRuleRecordsStep(data: seq<byte>, ri: nat, r: Rule, from: nat, doPatch: bool)
    requires WellFormed(r) && Find(data, r.marker, from) != -1
    requires var i := Find(data, r.marker, from); var d := Visit(data, r, i, doPatch).0;
      var rest := ScanRule(d, ri, r, i + |r.marker|, doPatch);
      rest.data == ApplyAll(d, rest.log) && ClearsHeld(d, rest.log)
    ensures var o := ScanRule(data, ri, r, from, doPatch);
      o.data == ApplyAll(data, o.log) && ClearsHeld(data, o.log)
  {
    var i := Find(data, r.marker, from);
    ScanRuleUnfold(data, ri, r, from, doPatch);
    RecordsCons(data, ri, r, i, doPatch, ScanRule(Visit(data, r, i, doPatch).0, ri, r, i + |r.marker|, doPatch));
  }

  /** A visit's clear, in front of a log whose `modified` flag is faithful, keeps the flag faithful. */
  lemma ModifiedCons(data: seq<byte>, ri: nat, r: Rule, i: nat, doPatch: bool, rest: Outcome)
    requires i < |data|
    requires (rest.modified <==> AnyCleared(rest.log)) && (!doPatch ==> !AnyCleared(rest.log))
    ensures var k := Visit(data, r, i, doPatch).1; var log := [Event(ri, i, k)] + rest.log;
      && (k.Cleared? || rest.modified <==> AnyCleared(log))
      && (!doPatch ==> !AnyCleared(log))
  {
    LogCons(Event(ri, i, Visit(data, r, i, doPatch).1), rest.log);
  }

  /** A rule's `modified` result says exactly whether one of its events cleared a byte; a dry run clears none. */
  lemma {:induction false} ScanRuleModified(data: seq<byte>, ri: nat, r: Rule, from: nat, doPatch: bool)
    requires WellFormed(r)
    ensures var o := ScanRule(data, ri, r, from, doPatch);
      && (o.modified <==> AnyCleared(o.log))
      && (!doPatch ==> !AnyCleared(o.log))
    decreases |data| - from
  {
    var i := Find(data, r.marker, from);
    if i == -1 {
      ScanRuleEnd(data, ri, r, from, doPatch);
    } else {
      ScanRuleModified(Visit(data, r, i, doPatch).0, ri, r, i + |r.marker|, doPatch);
      ScanRuleModifiedStep(data, ri, r, from, doPatch);
    }
  }

  /** The induction step of `ScanRuleModified`. */
  lemma ScanRuleModifiedStep(data: seq<byte>, ri: nat, r: Rule, from: nat, doPatch: bool)
    requires WellFormed(r) && Find(data, r.marker, from) != -1
    requires var i := Find(data, r.marker, from); var d := Visit(data, r, i, doPatch).0;
      var rest := ScanRule(d, ri, r, i + |r.marker|, doPatch);
      (rest.modified <==> AnyCleared(rest.log)) && (!doPatch ==> !AnyCleared(rest.log))
    ensures var o := ScanRule(data, ri, r, from, doPatch);
      && (o.modified <==> AnyCleared(o.log))
      && (!doPatch ==> !AnyCleared(o.log))
  {
    var i := Find(data, r.marker, from);
    ScanRuleUnfold(data, ri, r, from, doPatch);
    ModifiedCons(data, ri, r, i, doPatch, ScanRule(Visit(data, r, i, doPatch).0, ri, r, i + |r.marker|, doPatch));
  }

  /**
   Each occurrence a rule's scan reports lies wholly inside the buffer and is
   shaped as its classification requires.
   */
  lemma {:induction false} ScanRuleShaped(data: seq<byte>, ri: nat, r: Rule, from: nat, doPatch: bool)
    requires WellFormed(r)
    ensures AllShaped(|data|, ri, r, ScanRule(data, ri, r, from, doPatch).log)
    decreases |data| - from
  {
    var i := Find(data, r.marker, from);
    if i == -1 {
      ScanRuleEnd(data, ri, r, from, doPatch);
    } else {
      ScanRuleShaped(Visit(data, r, i, doPatch).0, ri, r, i + |r.marker|, doPatch);
      ScanRuleShapedStep(data, ri, r, from, doPatch);
    }
  }

  /** The induction step of `ScanRuleShaped`. */
  lemma ScanRuleShapedStep(data: seq<byte>, ri: nat, r: Rule, from: nat, doPatch: bool)
    requires WellFormed(r) && Find(data, r.marker, from) != -1
    requires var i := Find(data, r.marker, from); var d := Visit(data, r, i, doPatch).0;
      var rest := ScanRule(d, ri, r, i + |r.marker|, doPatch);
      AllShaped(|d|, ri, r, rest.log)
    ensures AllShaped(|data|, ri, r, ScanRule(data, ri, r, from, doPatch).log)
  {
    var i := Find(data, r.marker, from);
    ScanRuleUnfold(data, ri, r, from, doPatch);
    VisitShapedCons(data, ri, r, i, doPatch, ScanRule(Visit(data, r, i, doPatch).0, ri, r, i + |r.marker|, doPatch).log);
  }

  /** An occurrence at or after `from`, in front of occurrences left to right from its end. */
  lemma LeftToRightCons(e: Event, log: seq<Event>, m: nat, from: nat)
    requires from <= e.markerAt && LeftToRight(log, m, e.markerAt + m)
    ensures LeftToRight([e] + log, m, from)
  {
    LogCons(e, log);
  }

  /**
   A rule's occurrences are reported left to right from `from` on, and never
   overlap: each search resumes at the end of the previous occurrence.
   */
  lemma {:induction false} ScanRuleNonOverlapping(data: seq<byte>, ri: nat, r: Rule, from: nat, doPatch: bool)
    requires WellFormed(r)
    ensures LeftToRight(ScanRule(data, ri, r, from, doPatch).log, |r.marker|, from)
    decreases |data| - from
  {
    var i := Find(data, r.marker, from);
    if i == -1 {
      ScanRuleEnd(data, ri, r, from, doPatch);
    } else {
      ScanRuleNonOverlapping(Visit(data, r, i, doPatch).0, ri, r, i + |r.marker|, doPatch);
      ScanRuleNonOverlappingStep(data, ri, r, from, doPatch);
    }
  }

  /** The induction step of `ScanRuleNonOverlapping`. */
  lemma ScanRuleNonOverlappingStep(data: seq<byte>, ri: nat, r: Rule, from: nat, doPatch: bool)
    requires WellFormed(r) && Find(data, r.marker, from) != -1
    requires var i := Find(data, r.marker, from); var d := Visit(data, r, i, doPatch).0;
      var rest := ScanRule(d, ri, r, i + |r.marker|, doPatch);
      LeftToRight(rest.log, |r.marker|, i + |r.marker|)
    ensures LeftToRight(ScanRule(data, ri, r, from, doPatch).log, |r.marker|, from)
  {
    var i := Find(data, r.marker, from);
    var v := Visit(data, r, i, doPatch);
    ScanRuleUnfold(data, ri, r, from, doPatch);
    LeftToRightCons(Event(ri, i, v.1), ScanRule(v.0, ri, r, i + |r.marker|, doPatch).log, |r.marker|, from);
  }

  /**
   In a dry run a rule's scan is the greedy left-to-right search: each
   occurrence it reports is the first match at or after the end of the
   previous one, and none is left after the last.
   */
  lemma {:induction false} ScanRuleGreedy(data: seq<byte>, ri: nat, r: Rule, from: nat)
    requires WellFormed(r)
    ensures Greedy(data, r.marker, ScanRule(data, ri, r, from, false).log, from)
    decreases |data| - from
  {
    var i := Find(data, r.marker, from);
    if i == -1 {
      FindLeast(data, r.marker, from);
      ScanRuleEnd(data, ri, r, from, false);
    } else {
      ScanRuleGreedy(data, ri, r, i + |r.marker|);
      ScanRuleGreedyStep(data, ri, r, from);
    }
  }

  /** The induction step of `ScanRuleGreedy`: a dry visit leaves the buffer as it was. */
  lemma ScanRuleGreedyStep(data: seq<byte>, ri: nat, r: Rule, from: nat)
    requires WellFormed(r) && Find(data, r.marker, from) != -1
    requires var i := Find(data, r.marker, from);
      Greedy(data, r.marker, ScanRule(data, ri, r, i + |r.marker|, false).log, i + |r.marker|)
    ensures Greedy(data, r.marker, ScanRule(data, ri, r, from, false).log, from)
  {
    FindLeast(data, r.marker, from);
    var i := Find(data, r.marker, from);
    var v := Visit(data, r, i, false);
    VisitGuarded(data, r, i, false);
    assert v.0 == data;
    ScanRuleUnfold(data, ri, r, from, false);
    LogCons(Event(ri, i, v.1), ScanRule(data, ri, r, i + |r.marker|, false).log);
  }

  /**
   In either mode a rule's scan is the greedy left-to-right search over the
   buffer as its own earlier clears left it: a clear can only change what
   later searches of the same rule find.
   */
  lemma {:induction false} ScanRulePatchedGreedy(data: seq<byte>, ri: nat, r: Rule, from: nat, doPatch: bool)
    requires WellFormed(r)
    ensures PatchedGreedy(data, r.marker, ScanRule(data, ri, r, from, doPatch).log, from)
    decreases |data| - from
  {
    var i := Find(data, r.marker, from);
    if i == -1 {
      FindLeast(data, r.marker, from);
      ScanRuleEnd(data, ri, r, from, doPatch);
    } else {
      ScanRulePatchedGreedy(Visit(data, r, i, doPatch).0, ri, r, i + |r.marker|, doPatch);
      ScanRulePatchedGreedyStep(data, ri, r, from, doPatch);
    }
  }

  /** The induction step of `ScanRulePatchedGreedy`. */
  lemma ScanRulePatchedGreedyStep(data: seq<byte>, ri: nat, r: Rule, from: nat, doPatch: bool)
    requires WellFormed(r) && Find(data, r.marker, from) != -1
    requires var i := Find(data, r.marker, from); var d := Visit(data, r, i, doPatch).0;
      PatchedGreedy(d, r.marker, ScanRule(d, ri, r, i + |r.marker|, doPatch).log, i + |r.marker|)
    ensures PatchedGreedy(data, r.marker, ScanRule(data, ri, r, from, doPatch).log, from)
  {
    FindLeast(data, r.marker, from);
    var i := Find(data, r.marker, from);
    ScanRuleUnfold(data, ri, r, from, doPatch);
    PatchedGreedyCons(data, ri, r, i, doPatch, ScanRule(Visit(data, r, i, doPatch).0, ri, r, i + |r.marker|, doPatch).log, from);
  }

  /** The first match from `from` on, in front of a greedy search of the buffer its visit left, is a greedy search. */
  lemma PatchedGreedyCons(data: seq<byte>, ri: nat, r: Rule, i: nat, doPatch: bool, log: seq<Event>, from: nat)
    requires from <= i < |data| && MatchesAt(data, r.marker, i)
    requires forall j :: from <= j < i ==> !MatchesAt(data, r.marker, j)
    requires PatchedGreedy(Visit(data, r, i, doPatch).0, r.marker, log, i + |r.marker|)
    ensures PatchedGreedy(data, r.marker, [Event(ri, i, Visit(data, r, i, doPatch).1)] + log, from)
  {
    VisitApplied(data, ri, r, i, doPatch);
    LogCons(Event(ri, i, Visit(data, r, i, doPatch).1), log);
  }

  /** A visit of a marker occurrence, in front of a replay of the buffer the visit left, is a replay. */
  lemma ReplaysCons(data: seq<byte>, ri: nat, r: Rule, i: nat, doPatch: bool, log: seq<Event>)
    requires i < |data| && MatchesAt(data, r.marker, i)
    requires Replays(Visit(data, r, i, doPatch).0, r, doPatch, log)
    ensures Replays(data, r, doPatch, [Event(ri, i, Visit(data, r, i, doPatch).1)] + log)
  {
    VisitApplied(data, ri, r, i, doPatch);
    LogCons(Event(ri, i, Visit(data, r, i, doPatch).1), log);
  }

  /**
   A rule's scan is the replay of its log: each occurrence is found in, and
   classified against, the buffer as the earlier occurrences of the same
   rule left it.
   */
  lemma {:induction false} ScanRuleReplays(data: seq<byte>, ri: nat, r: Rule, from: nat, doPatch: bool)
    requires WellFormed(r)
    ensures Replays(data, r, doPatch, ScanRule(data, ri, r, from, doPatch).log)
    decreases |data| - from
  {
    var i := Find(data, r.marker, from);
    if i == -1 {
      ScanRuleEnd(data, ri, r, from, doPatch);
    } else {
      ScanRuleReplays(Visit(data, r, i, doPatch).0, ri, r, i + |r.marker|, doPatch);
      ScanRuleReplaysStep(data, ri, r, from, doPatch);
    }
  }

  /** The induction step of `ScanRuleReplays`. */
  lemma ScanRuleReplaysStep(data: seq<byte>, ri: nat, r: Rule, from: nat, doPatch: bool)
    requires WellFormed(r) && Find(data, r.marker, from) != -1
    requires var i := Find(data, r.marker, from); var d := Visit(data, r, i, doPatch).0;
      var rest := ScanRule(d, ri, r, i + |r.marker|, doPatch);
      Replays(d, r, doPatch, rest.log)
    ensures Replays(data, r, doPatch, ScanRule(data, ri, r, from, doPatch).log)
  {
    var i := Find(data, r.marker, from);
    ScanRuleUnfold(data, ri, r, from, doPatch);
    ReplaysCons(data, ri, r, i, doPatch, ScanRule(Visit(data, r, i, doPatch).0, ri, r, i + |r.marker|, doPatch).log);
  }

  // ---------------------------------------------------------------- what the log of several rules says

  /**
   The events of the first `n` rules come rule by rule in catalog order, and
   within one rule left to right without overlap.
   */
  ghost predicate InCatalogOrder(log: seq<Event>, rules: seq<Rule>, n: nat)
  {
    && (forall a :: 0 <= a < |log| ==> log[a].rule < n && log[a].rule < |rules|)
    && (forall a, b :: 0 <= a < b < |log| ==> log[a].rule <= log[b].rule)
    && (forall a, b :: 0 <= a < b < |log| && log[a].rule == log[b].rule && log[a].rule < |rules| ==>
          log[a].markerAt + |rules[log[a].rule].marker| <= log[b].markerAt)
  }

  /** Every event of `log` belongs to one of the first `n` rules and is shaped as that rule's event over `size` bytes. */
  ghost predicate RulesShaped(size: nat, rules: seq<Rule>, n: nat, log: seq<Event>)
  {
    forall a :: 0 <= a < |log| ==>
      log[a].rule < n && log[a].rule < |rules| && Shaped(size, log[a].rule, rules[log[a].rule], log[a])
  }

  /** Every occurrence in `data` of the marker of one of the first `n` rules lies inside a reported occurrence of that rule. */
  ghost predicate RulesCover(data: seq<byte>, rules: seq<Rule>, n: nat, log: seq<Event>)
  {
    forall ri, j :: 0 <= ri < n && ri < |rules| && MatchesAt(data, rules[ri].marker, j) ==>
      exists a :: 0 <= a < |log| && log[a].rule == ri && log[a].markerAt <= j < log[a].markerAt + |rules[ri].marker|
  }

  /** The events of rule `n - 1`, left to right, after those of the first `n - 1` rules keep catalog order. */
  lemma InCatalogOrderThen(size: nat, rules: seq<Rule>, n: nat, p: Outcome, s: Outcome)
    requires 0 < n <= |rules|
    requires InCatalogOrder(p.log, rules, n - 1)
    requires AllShaped(size, n - 1, rules[n - 1], s.log) && LeftToRight(s.log, |rules[n - 1].marker|, 0)
    ensures InCatalogOrder(Then(p, s).log, rules, n)
  {
    AllShapedEach(size, n - 1, rules[n - 1], s.log);
    LeftToRightPairs(s.log, |rules[n - 1].marker|, 0);
    var o := Then(p, s).log;
    assert o == p.log + s.log;
    forall a | |p.log| <= a < |o|
      ensures o[a] == s.log[a - |p.log|]
    {
    }
    forall a | 0 <= a < |p.log|
      ensures o[a] == p.log[a]
    {
    }
  }

  /** Shaped events of rule `n - 1` after those of the first `n - 1` rules. */
  lemma RulesShapedThen(size: nat, rules: seq<Rule>, n: nat, p: Outcome, s: Outcome)
    requires 0 < n <= |rules|
    requires RulesShaped(size, rules, n - 1, p.log)
    requires AllShaped(size, n - 1, rules[n - 1], s.log)
    ensures RulesShaped(size, rules, n, Then(p, s).log)
  {
    AllShapedEach(size, n - 1, rules[n - 1], s.log);
    var o := Then(p, s).log;
    assert o == p.log + s.log;
    forall a | 0 <= a < |o|
      ensures o[a].rule < n && o[a].rule < |rules| && Shaped(size, o[a].rule, rules[o[a].rule], o[a])
    {
      if a < |p.log| {
        assert o[a] == p.log[a];
      } else {
        assert o[a] == s.log[a - |p.log|];
      }
    }
  }

  /** Rule `n - 1`'s coverage added to that of the first `n - 1` rules. */
  lemma RulesCoverThen(data: seq<byte>, rules: seq<Rule>, n: nat, p: Outcome, s: Outcome)
    requires 0 < n <= |rules|
    requires p.data == data && RulesCover(data, rules, n - 1, p.log)
    requires AllShaped(|p.data|, n - 1, rules[n - 1], s.log) && Greedy(p.data, rules[n - 1].marker, s.log, 0)
    ensures RulesCover(data, rules, n, Then(p, s).log)
  {
    var m := rules[n - 1].marker;
    AllShapedEach(|data|, n - 1, rules[n - 1], s.log);
    GreedyCovers(data, m, s.log, 0);
    var o := Then(p, s).log;
    assert o == p.log + s.log;
    forall ri, j | 0 <= ri < n && ri < |rules| && MatchesAt(data, rules[ri].marker, j)
      ensures exists a :: 0 <= a < |o| && o[a].rule == ri && o[a].markerAt <= j < o[a].markerAt + |rules[ri].marker|
    {
      if ri < n - 1 {
        var a :| 0 <= a < |p.log| && p.log[a].rule == ri && p.log[a].markerAt <= j < p.log[a].markerAt + |rules[ri].marker|;
        assert o[a] == p.log[a];
      } else {
        var a :| 0 <= a < |s.log| && s.log[a].markerAt <= j < s.log[a].markerAt + |m|;
        assert o[a + |p.log|] == s.log[a];
      }
    }
  }

  // ---------------------------------------------------------------- all rules

  /**
   The whole log records the changes: replaying the cleared events of all
   rules, in order, on the input gives the output, and each found 0x01.
   */
  lemma {:induction false} RunRulesRecords(data: seq<byte>, rules: seq<Rule>, n: nat, doPatch: bool)
    requires n <= |rules| && AllWellFormed(rules)
    ensures var o := RunRules(data, rules, n, doPatch);
      o.data == ApplyAll(data, o.log) && ClearsHeld(data, o.log)
  {
    if n > 0 {
      RunRulesRecords(data, rules, n - 1, doPatch);
      var p := RunRules(data, rules, n - 1, doPatch);
      ScanRuleRecords(p.data, n - 1, rules[n - 1], 0, doPatch);
      RecordsThen(data, p, ScanRule(p.data, n - 1, rules[n - 1], 0, doPatch));
    }
  }

  /** The `data_modified` flag says exactly whether some event cleared a byte; a dry run clears none. */
  lemma {:induction false} RunRulesModified(data: seq<byte>, rules: seq<Rule>, n: nat, doPatch: bool)
    requires n <= |rules| && AllWellFormed(rules)
    ensures var o := RunRules(data, rules, n, doPatch);
      && (o.modified <==> AnyCleared(o.log))
      && (!doPatch ==> !AnyCleared(o.log))
  {
    if n > 0 {
      RunRulesModified(data, rules, n - 1, doPatch);
      var p := RunRules(data, rules, n - 1, doPatch);
      ScanRuleModified(p.data, n - 1, rules[n - 1], 0, doPatch);
      var s := ScanRule(p.data, n - 1, rules[n - 1], 0, doPatch);
      AnyClearedAppend(p.log, s.log);
    }
  }

  /** Every event of the first `n` rules is shaped as its classification requires over a buffer of `|data|` bytes. */
  lemma {:induction false} RunRulesShaped(data: seq<byte>, rules: seq<Rule>, n: nat, doPatch: bool)
    requires n <= |rules| && AllWellFormed(rules)
    ensures RulesShaped(|data|, rules, n, RunRules(data, rules, n, doPatch).log)
  {
    if n > 0 {
      RunRulesShaped(data, rules, n - 1, doPatch);
      var p := RunRules(data, rules, n - 1, doPatch);
      ScanRuleShaped(p.data, n - 1, rules[n - 1], 0, doPatch);
      var s := ScanRule(p.data, n - 1, rules[n - 1], 0, doPatch);
      RulesShapedThen(|data|, rules, n, p, s);
    }
  }

  /** Rules run in catalog order, each one's occurrences left to right without overlap. */
  lemma {:induction false} RunRulesOrdered(data: seq<byte>, rules: seq<Rule>, n: nat, doPatch: bool)
    requires n <= |rules| && AllWellFormed(rules)
    ensures InCatalogOrder(RunRules(data, rules, n, doPatch).log, rules, n)
  {
    if n > 0 {
      RunRulesOrdered(data, rules, n - 1, doPatch);
      var p := RunRules(data, rules, n - 1, doPatch);
      var r := rules[n - 1];
      ScanRuleShaped(p.data, n - 1, r, 0, doPatch);
      ScanRuleNonOverlapping(p.data, n - 1, r, 0, doPatch);
      var s := ScanRule(p.data, n - 1, r, 0, doPatch);
      InCatalogOrderThen(|p.data|, rules, n, p, s);
    }
  }

  /** A dry run of the first `n` rules leaves the buffer untouched. */
  lemma RunRulesDryRunKeeps(data: seq<byte>, rules: seq<Rule>, n: nat)
    requires n <= |rules| && AllWellFormed(rules)
    ensures RunRules(data, rules, n, false).data == data
  {
    RunRulesRecords(data, rules, n, false);
    RunRulesModified(data, rules, n, false);
    NoClearNoChange(data, RunRules(data, rules, n, false).log);
  }

  /** Rule `n - 1` extends the coverage of a dry run of the first `n - 1` rules. */
  lemma RunRulesDryRunCoversStep(data: seq<byte>, rules: seq<Rule>, n: nat)
    requires 0 < n <= |rules| && AllWellFormed(rules)
    requires var p := RunRules(data, rules, n - 1, false); p.data == data && RulesCover(data, rules, n - 1, p.log)
    ensures RulesCover(data, rules, n, RunRules(data, rules, n, false).log)
  {
    var p := RunRules(data, rules, n - 1, false);
    ScanRuleGreedy(p.data, n - 1, rules[n - 1], 0);
    ScanRuleShaped(p.data, n - 1, rules[n - 1], 0, false);
    RulesCoverThen(data, rules, n, p, ScanRule(p.data, n - 1, rules[n - 1], 0, false));
  }

  /**
   In a dry run no occurrence of any rule's marker is missed: each one is
   reported or overlaps a reported occurrence of the same rule.
   */
  lemma {:induction false} RunRulesDryRunCovers(data: seq<byte>, rules: seq<Rule>, n: nat)
    requires n <= |rules| && AllWellFormed(rules)
    ensures RulesCover(data, rules, n, RunRules(data, rules, n, false).log)
  {
    if n > 0 {
      RunRulesDryRunCovers(data, rules, n - 1);
      RunRulesDryRunKeeps(data, rules, n - 1);
      RunRulesDryRunCoversStep(data, rules, n);
    }
  }

  /** A replayed run of the first rules, followed by a replayed scan on the buffer it left. */
  lemma ReplayThen(data: seq<byte>, rules: seq<Rule>, ri: nat, doPatch: bool, p: Outcome, s: Outcome)
    requires p.data == ApplyAll(data, p.log) && RulesReplay(data, rules, doPatch, p.log)
    requires ri < |rules| && Replays(p.data, rules[ri], doPatch, s.log) && AllShaped(|p.data|, ri, rules[ri], s.log)
    ensures RulesReplay(data, rules, doPatch, Then(p, s).log)
  {
    ReplaysLift(p.data, rules, ri, doPatch, s.log);
    RulesReplayAppend(data, rules, doPatch, p.log, s.log);
  }

  /** Rule `n - 1`, scanned over the buffer a replayed run `p` left, continues the replay. */
  lemma RunRulesReplayStep(data: seq<byte>, rules: seq<Rule>, n: nat, doPatch: bool, p: Outcome)
    requires 0 < n <= |rules| && AllWellFormed(rules)
    requires p.data == ApplyAll(data, p.log) && RulesReplay(data, rules, doPatch, p.log)
    ensures RulesReplay(data, rules, doPatch, Then(p, ScanRule(p.data, n - 1, rules[n - 1], 0, doPatch)).log)
  {
    ScanRuleReplays(p.data, n - 1, rules[n - 1], 0, doPatch);
    ScanRuleShaped(p.data, n - 1, rules[n - 1], 0, doPatch);
    ReplayThen(data, rules, n - 1, doPatch, p, ScanRule(p.data, n - 1, rules[n - 1], 0, doPatch));
  }

  /**
   Every rule, and every occurrence within a rule, sees the buffer as all
   earlier patches left it: the whole log is a replay of the input.
   */
  lemma {:induction false} RunRulesReplays(data: seq<byte>, rules: seq<Rule>, n: nat, doPatch: bool)
    requires n <= |rules| && AllWellFormed(rules)
    ensures RulesReplay(data, rules, doPatch, RunRules(data, rules, n, doPatch).log)
  {
    if n > 0 {
      RunRulesReplays(data, rules, n - 1, doPatch);
      RunRulesRecords(data, rules, n - 1, doPatch);
      RunRulesReplayStep(data, rules, n, doPatch, RunRules(data, rules, n - 1, doPatch));
    }
  }

  /** The log of the first `m` rules is a prefix of the log of the first `n`. */
  lemma {:induction false} RunRulesPrefix(data: seq<byte>, rules: seq<Rule>, m: nat, n: nat, doPatch: bool)
    requires m <= n <= |rules| && AllWellFormed(rules)
    ensures var a := RunRules(data, rules, m, doPatch).log; var b := RunRules(data, rules, n, doPatch).log;
      |a| <= |b| && b[..|a|] == a
    decreases n
  {
    if m < n {
      RunRulesPrefix(data, rules, m, n - 1, doPatch);
      var a := RunRules(data, rules, m, doPatch).log;
      var p := RunRules(data, rules, n - 1, doPatch);
      var s := ScanRule(p.data, n - 1, rules[n - 1], 0, doPatch);
      assert (p.log + s.log)[..|a|] == p.log[..|a|];
    }
  }

  /**
   Rule `ri`'s events are a contiguous stretch `log[k..k']` of the whole
   log, starting where the first `ri` rules' events end and as long as the
   rule's own scan (which `RuleSegment` places before the next rule's), and
   they are the greedy search of its marker over the buffer as the events
   before `k` left it, each later search seeing the clears of the earlier
   ones: in either mode no occurrence is skipped.
   */
  lemma EachRuleScansGreedily(data: seq<byte>, rules: seq<Rule>, ri: nat, doPatch: bool)
    requires AllWellFormed(rules) && ri < |rules|
    ensures var log := RunRules(data, rules, |rules|, doPatch).log;
      var p := RunRules(data, rules, ri, doPatch);
      var k := |p.log|;
      var k' := k + |ScanRule(p.data, ri, rules[ri], 0, doPatch).log|;
      && k' <= |log|
      && (forall a :: k <= a < k' ==> log[a].rule == ri)
      && PatchedGreedy(ApplyAll(data, log[..k]), rules[ri].marker, log[k..k'], 0)
  {
    var log := RunRules(data, rules, |rules|, doPatch).log;
    var p := RunRules(data, rules, ri, doPatch);
    var s := ScanRule(p.data, ri, rules[ri], 0, doPatch);
    RuleSegment(data, rules, ri, doPatch);
    RunRulesRecords(data, rules, ri, doPatch);
    ScanRulePatchedGreedy(p.data, ri, rules[ri], 0, doPatch);
    ScanRuleShaped(p.data, ri, rules[ri], 0, doPatch);
    SegmentOfRule(|p.data|, ri, rules[ri], s.log, log, |p.log|);
  }

  /** A shaped log of rule `ri` that sits in `log` from `k` on carries the rule `ri` at every index it covers. */
  lemma SegmentOfRule(n: nat, ri: nat, r: Rule, seg: seq<Event>, log: seq<Event>, k: nat)
    requires k + |seg| <= |log| && log[k..k + |seg|] == seg && AllShaped(n, ri, r, seg)
    ensures forall a :: k <= a < k + |seg| ==> log[a].rule == ri
  {
    AllShapedEach(n, ri, r, seg);
    forall a | k <= a < k + |seg|
      ensures log[a] == seg[a - k]
    {
    }
  }

  /** Rule `ri`'s scan fills the stretch of the whole log between the logs of the first `ri` and `ri + 1` rules. */
  lemma RuleSegment(data: seq<byte>, rules: seq<Rule>, ri: nat, doPatch: bool)
    requires AllWellFormed(rules) && ri < |rules|
    ensures var log := RunRules(data, rules, |rules|, doPatch).log;
      var p := RunRules(data, rules, ri, doPatch);
      var s := ScanRule(p.data, ri, rules[ri], 0, doPatch);
      && |RunRules(data, rules, ri + 1, doPatch).log| == |p.log| + |s.log| <= |log|
      && log[..|p.log|] == p.log
      && log[|p.log|..|p.log| + |s.log|] == s.log
  {
    var p := RunRules(data, rules, ri, doPatch);
    var s := ScanRule(p.data, ri, rules[ri], 0, doPatch);
    RunRulesPrefix(data, rules, ri + 1, |rules|, doPatch);
    PrefixSplits(RunRules(data, rules, |rules|, doPatch).log, p.log, s.log);
  }

  /** A log that starts with `a + b` holds `a` and then `b`. */
  lemma PrefixSplits(log: seq<Event>, a: seq<Event>, b: seq<Event>)
    requires |a| + |b| <= |log| && log[..|a| + |b|] == a + b
    ensures log[..|a|] == a && log[|a|..|a| + |b|] == b
  {
    assert log[..|a|] == (a + b)[..|a|];
    assert log[|a|..|a| + |b|] == (a + b)[|a|..];
  }

  // ---------------------------------------------------------------- the whole engine

  /** Dry-run purity: with patching off the buffer is returned unchanged, nothing is cleared, and the result is False. */
  lemma DryRunPure(data: seq<byte>, rules: seq<Rule>)
    requires AllWellFormed(rules)
    ensures var o := RunRules(data, rules, |rules|, false);
      o.data == data && !o.modified && !AnyCleared(o.log)
  {
    RunRulesDryRunKeeps(data, rules, |rules|);
    RunRulesModified(data, rules, |rules|, false);
  }

  /**
   Each occurrence is handled against the buffer as earlier patches left it,
   those of earlier rules and earlier occurrences of the same rule: it is a
   marker occurrence there, and its classification holds there.
   */
  lemma EachOccurrenceSeesEarlierPatches(data: seq<byte>, rules: seq<Rule>, doPatch: bool)
    requires AllWellFormed(rules)
    ensures var log := RunRules(data, rules, |rules|, doPatch).log;
      forall a :: 0 <= a < |log| ==>
        && log[a].rule < |rules|
        && log[a].markerAt < |data|
        && MatchesAt(ApplyAll(data, log[..a]), rules[log[a].rule].marker, log[a].markerAt)
        && Classified(ApplyAll(data, log[..a]), rules[log[a].rule], log[a].markerAt, log[a].kind)
  {
    var log := RunRules(data, rules, |rules|, doPatch).log;
    RunRulesReplays(data, rules, |rules|, doPatch);
    RulesReplayEach(data, rules, doPatch, log);
    forall a | 0 <= a < |log|
      ensures Classified(ApplyAll(data, log[..a]), rules[log[a].rule], log[a].markerAt, log[a].kind)
    {
      VisitClassified(ApplyAll(data, log[..a]), rules[log[a].rule], log[a].markerAt, doPatch);
    }
  }

  /**
   In a dry run every event is an occurrence of its rule's marker in the
   input buffer, and its classification holds of the input buffer:
   rightmost sentinel in the window, target at the signed offset, and the
   byte found there.
   */
  lemma DryRunClassified(data: seq<byte>, rules: seq<Rule>)
    requires AllWellFormed(rules)
    ensures var o := RunRules(data, rules, |rules|, false);
      forall a :: 0 <= a < |o.log| ==>
        && o.log[a].rule < |rules|
        && o.log[a].markerAt < |data|
        && MatchesAt(data, rules[o.log[a].rule].marker, o.log[a].markerAt)
        && Classified(data, rules[o.log[a].rule], o.log[a].markerAt, o.log[a].kind)
  {
    var log := RunRules(data, rules, |rules|, false).log;
    EachOccurrenceSeesEarlierPatches(data, rules, false);
    RunRulesModified(data, rules, |rules|, false);
    forall a | 0 <= a < |log|
      ensures ApplyAll(data, log[..a]) == data
    {
      assert log[..a] + log[a..] == log;
      AnyClearedAppend(log[..a], log[a..]);
      NoClearNoChange(data, log[..a]);
    }
  }

  /** The first `n` rules only clear bytes that held 0x01. */
  lemma RunRulesOnlyClears(data: seq<byte>, rules: seq<Rule>, n: nat, doPatch: bool)
    requires n <= |rules| && AllWellFormed(rules)
    ensures OnlyCleared(data, RunRules(data, rules, n, doPatch).data)
  {
    var o := RunRules(data, rules, n, doPatch);
    RunRulesRecords(data, rules, n, doPatch);
    ClearsTakeEffect(data, o.log);
  }

  /**
   Guarded mutation: the result differs from the input exactly at the targets
   of cleared events, each such byte went from 0x01 to 0x00, the length is
   kept, and `data_modified` is set exactly when the buffer changed.
   */
  lemma ModifiedIffBufferChanged(data: seq<byte>, rules: seq<Rule>, doPatch: bool)
    requires AllWellFormed(rules)
    ensures var o := RunRules(data, rules, |rules|, doPatch);
      && |o.data| == |data|
      && (forall k :: 0 <= k < |data| ==> (o.data[k] != data[k] <==> ClearedAt(o.log, k)))
      && (forall k :: 0 <= k < |data| && o.data[k] != data[k] ==> data[k] == 0x01 && o.data[k] == 0x00)
      && (o.modified <==> o.data != data)
      && (o.modified ==> doPatch)
  {
    var o := RunRules(data, rules, |rules|, doPatch);
    RunRulesRecords(data, rules, |rules|, doPatch);
    RunRulesModified(data, rules, |rules|, doPatch);
    ClearsTakeEffect(data, o.log);
    if o.modified {
      AnyClearedSomewhere(data, o.log);
      var k :| 0 <= k < |data| && ClearedAt(o.log, k);
      assert o.data[k] != data[k];
    } else {
      NoClearNoChange(data, o.log);
    }
  }

  /** Every hex dump the engine prints lies inside the buffer and contains the position it is centred on. */
  lemma DumpWindowsInsideBuffer(data: seq<byte>, rules: seq<Rule>, doPatch: bool)
    requires AllWellFormed(rules)
    ensures var log := RunRules(data, rules, |rules|, doPatch).log;
      forall a :: 0 <= a < |log| ==>
        match log[a].kind
        case SentinelNotFound(w) => w.lo <= log[a].markerAt < w.hi <= |data|
        case OutOfBounds(_, t) => t < 0 || t >= |data|
        case NotSet(_, t, _, w) => w.lo <= t < w.hi <= |data|
        case WouldClear(_, t, w) => w.lo <= t < w.hi <= |data|
        case Cleared(_, t, w) => w.lo <= t < w.hi <= |data|
  {
    RunRulesShaped(data, rules, |rules|, doPatch);
  }

  /**
   When every rule's offset points before the end of its sentinel, every
   target the engine computes lies before the marker occurrence it came from.
   */
  lemma TargetsPrecedeMarkers(data: seq<byte>, rules: seq<Rule>, doPatch: bool)
    requires AllWellFormed(rules)
    requires forall ri :: 0 <= ri < |rules| ==> rules[ri].offset < |rules[ri].sentinel|
    ensures var log := RunRules(data, rules, |rules|, doPatch).log;
      forall a :: 0 <= a < |log| && !log[a].kind.SentinelNotFound? ==> log[a].kind.target < log[a].markerAt
  {
    RunRulesShaped(data, rules, |rules|, doPatch);
  }

  /** The built-in catalog's offsets (-3, -1 and 0) all point before the end of their sentinels, so its targets lie before their markers. */
  lemma CatalogTargetsPrecedeMarkers(data: seq<byte>, doPatch: bool)
    ensures AllWellFormed(Catalog)
    ensures var log := RunRules(data, Catalog, |Catalog|, doPatch).log;
      forall a :: 0 <= a < |log| && !log[a].kind.SentinelNotFound? ==> log[a].kind.target < log[a].markerAt
  {
    CatalogWellFormed();
    assert forall ri :: 0 <= ri < |Catalog| ==> Catalog[ri].offset < |Catalog[ri].sentinel|;
    TargetsPrecedeMarkers(data, Catalog, doPatch);
  }
}
