/**
 Byte buffers and the two substring searches the patch engine relies on:
 `bytes.find(sub, start)` and `bytes.rfind(sub, start, end)`, each given a
 recursive definition together with the characterisation Python documents
 (least match at or after `start`, greatest match inside `[start, end)`).
 */
module ByteSearch {

  /** One byte of a decompressed level file. */
  type byte = x: int | 0 <= x < 256

  /** `sub` occurs in `s` starting at index `j`, entirely inside `s`. */
  predicate MatchesAt(s: seq<byte>, sub: seq<byte>, j: int)
  {
    0 <= j && j + |sub| <= |s| && AgreeFrom(s, sub, j, 0)
  }

  /** `s` agrees with `sub` placed at `j` from the `k`-th byte of `sub` on. */
  predicate AgreeFrom(s: seq<byte>, sub: seq<byte>, j: nat, k: nat)
    requires j + |sub| <= |s|
    decreases |sub| - k
  {
    k >= |sub| || (s[j + k] == sub[k] && AgreeFrom(s, sub, j, k + 1))
  }

  /** Agreement from `k` on is equality of the remaining slices. */
  lemma {:induction false} AgreeFromSlice(s: seq<byte>, sub: seq<byte>, j: nat, k: nat)
    requires j + |sub| <= |s| && k <= |sub|
    ensures AgreeFrom(s, sub, j, k) <==> s[j + k..j + |sub|] == sub[k..]
    decreases |sub| - k
  {
    if k < |sub| {
      AgreeFromSlice(s, sub, j, k + 1);
      assert s[j + k..j + |sub|] == [s[j + k]] + s[j + k + 1..j + |sub|];
      assert sub[k..] == [sub[k]] + sub[k + 1..];
    }
  }

  /** A match is an occurrence of `sub` as a slice of `s`. */
  lemma MatchesSlice(s: seq<byte>, sub: seq<byte>, j: int)
    ensures MatchesAt(s, sub, j) <==> 0 <= j && j + |sub| <= |s| && s[j..j + |sub|] == sub
  {
    if 0 <= j && j + |sub| <= |s| {
      AgreeFromSlice(s, sub, j, 0);
    }
  }

  /** One differing byte rules a match out. */
  lemma Mismatch(s: seq<byte>, sub: seq<byte>, j: int, k: nat)
    requires k < |sub| && 0 <= j + k < |s| && s[j + k] != sub[k]
    ensures !MatchesAt(s, sub, j)
  {
    MatchesSlice(s, sub, j);
    if 0 <= j && j + |sub| <= |s| {
      assert s[j..j + |sub|][k] == s[j + k];
    }
  }

  /**
   `s.find(sub, from)` for a non-negative start: the least index `j >= from`
   at which `sub` occurs, or -1 when there is none.
   */
  function Find(s: seq<byte>, sub: seq<byte>, from: nat): (r: int)
    ensures r == -1 || (from <= r && MatchesAt(s, sub, r))
    decreases |s| - from
  {
    if from + |sub| > |s| then -1
    else if MatchesAt(s, sub, from) then from
    else Find(s, sub, from + 1)
  }

  /**
   `s.rfind(sub, lo, hi)` for non-negative bounds: the greatest index `j`
   with `lo <= j` and `j + |sub| <= hi` at which `sub` occurs, or -1.
   An `hi` beyond the end of `s` behaves as `|s|`, as in Python.
   */
  function Rfind(s: seq<byte>, sub: seq<byte>, lo: nat, hi: nat): (r: int)
    ensures r == -1 || (lo <= r && r + |sub| <= hi && MatchesAt(s, sub, r))
    decreases hi
  {
    if hi < lo + |sub| then -1
    else if MatchesAt(s, sub, hi - |sub|) then hi - |sub|
    else Rfind(s, sub, lo, hi - 1)
  }

  /** Find skips no occurrence: nothing at or after `from` matches before its answer. */
  lemma {:induction false} FindLeast(s: seq<byte>, sub: seq<byte>, from: nat)
    ensures Find(s, sub, from) == -1 ==> forall j :: from <= j ==> !MatchesAt(s, sub, j)
    ensures Find(s, sub, from) != -1 ==> forall j :: from <= j < Find(s, sub, from) ==> !MatchesAt(s, sub, j)
    decreases |s| - from
  {
    if from + |sub| <= |s| && !MatchesAt(s, sub, from) {
      FindLeast(s, sub, from + 1);
    }
  }

  /** Rfind skips no occurrence: nothing inside the window lies after its answer. */
  lemma {:induction false} RfindGreatest(s: seq<byte>, sub: seq<byte>, lo: nat, hi: nat)
    ensures Rfind(s, sub, lo, hi) == -1 ==> forall j :: lo <= j && j + |sub| <= hi ==> !MatchesAt(s, sub, j)
    ensures Rfind(s, sub, lo, hi) != -1 ==>
      forall j :: Rfind(s, sub, lo, hi) < j && j + |sub| <= hi ==> !MatchesAt(s, sub, j)
    decreases hi
  {
    if hi >= lo + |sub| && !MatchesAt(s, sub, hi - |sub|) {
      RfindGreatest(s, sub, lo, hi - 1);
    }
  }

  /** Find is determined by its characterisation: a match with none before it is the answer. */
  lemma FindIs(s: seq<byte>, sub: seq<byte>, from: nat, j: nat)
    requires from <= j && MatchesAt(s, sub, j)
    requires forall k :: from <= k < j ==> !MatchesAt(s, sub, k)
    ensures Find(s, sub, from) == j
  {
    FindLeast(s, sub, from);
  }

  /** Rfind is determined by its characterisation: a match with none after it is the answer. */
  lemma RfindIs(s: seq<byte>, sub: seq<byte>, lo: nat, hi: nat, j: nat)
    requires lo <= j && j + |sub| <= hi && MatchesAt(s, sub, j)
    requires forall k :: j < k && k + |sub| <= hi ==> !MatchesAt(s, sub, k)
    ensures Rfind(s, sub, lo, hi) == j
  {
    RfindGreatest(s, sub, lo, hi);
  }
}
