/** Stable ranking by descending score. Java's `sorted(comparing(score).reversed())`
    and Python's `list.sort(key=score, reverse=True)` are both stable: equal
    scores keep their input order. The ranking is therefore the sort of the
    positions 0..n-1 by the strict order "higher score first, then lower
    position first", computed here by insertion. */
module Ranking {

  predicate InRange(scores: seq<real>, idx: seq<nat>) {
    forall k :: 0 <= k < |idx| ==> idx[k] < |scores|
  }

  /** Position `i` is ranked ahead of position `j`. */
  predicate Before(scores: seq<real>, i: nat, j: nat)
    requires i < |scores| && j < |scores|
  {
    scores[i] > scores[j] || (scores[i] == scores[j] && i < j)
  }

  /** Every earlier entry is ranked ahead of every later one. */
  predicate Ranked(scores: seq<real>, idx: seq<nat>)
    requires InRange(scores, idx)
  {
    forall p, q :: 0 <= p < q < |idx| ==> Before(scores, idx[p], idx[q])
  }

  function Insert(scores: seq<real>, i: nat, idx: seq<nat>): (r: seq<nat>)
    requires i < |scores| && InRange(scores, idx) && Ranked(scores, idx)
    requires i !in idx
    ensures |r| == |idx| + 1
    ensures InRange(scores, r) && Ranked(scores, r)
    ensures forall j :: j in r <==> j == i || j in idx
  {
    if idx == [] then [i]
    else if Before(scores, i, idx[0]) then [i] + idx
    else
      var rest := Insert(scores, i, idx[1..]);
      assert Before(scores, idx[0], i);
      HeadBeforeRest(scores, i, idx, rest);
      [idx[0]] + rest
  }

  lemma HeadBeforeRest(scores: seq<real>, i: nat, idx: seq<nat>, rest: seq<nat>)
    requires i < |scores| && idx != [] && InRange(scores, idx) && Ranked(scores, idx)
    requires Before(scores, idx[0], i)
    requires InRange(scores, rest)
    requires forall j :: j in rest <==> j == i || j in idx[1..]
    ensures forall q :: 0 <= q < |rest| ==> Before(scores, idx[0], rest[q])
  {
    forall q | 0 <= q < |rest|
      ensures Before(scores, idx[0], rest[q])
    {
      if rest[q] != i {
        assert rest[q] in idx[1..];
        var p :| 0 <= p < |idx[1..]| && idx[1..][p] == rest[q];
        assert idx[p + 1] == rest[q];
      }
    }
  }

  /** The ranking of positions 0..n-1. */
  function RankPrefix(scores: seq<real>, n: nat): (r: seq<nat>)
    requires n <= |scores|
    ensures |r| == n
    ensures InRange(scores, r) && Ranked(scores, r)
    ensures forall j: nat :: j in r <==> j < n
  {
    if n == 0 then []
    else
      var prev := RankPrefix(scores, n - 1);
      assert n - 1 !in prev;
      Insert(scores, n - 1, prev)
  }

  /** The positions of the `k` best scores, best first (`sorted(...)[:k]`). */
  function TopK(scores: seq<real>, k: nat): (r: seq<nat>)
    ensures |r| == if k < |scores| then k else |scores|
    ensures InRange(scores, r) && Ranked(scores, r)
    ensures forall p, q :: 0 <= p < q < |r| ==> r[p] != r[q]
    ensures forall p, q :: 0 <= p < q < |r| ==> scores[r[p]] >= scores[r[q]]
    ensures forall p, q :: 0 <= p < q < |r| && scores[r[p]] == scores[r[q]] ==> r[p] < r[q]
  {
    var all := RankPrefix(scores, |scores|);
    if k < |all| then all[..k] else all
  }

  /** Nothing left out of the top k outscores anything in it, and a left-out
      position that ties with a chosen one comes after it: at the cut the
      earlier of two equal scores is kept. */
  lemma TopKDominates(scores: seq<real>, k: nat, p: nat, j: nat)
    requires p < |TopK(scores, k)| && j < |scores| && j !in TopK(scores, k)
    ensures scores[TopK(scores, k)[p]] >= scores[j]
    ensures Before(scores, TopK(scores, k)[p], j)
    ensures scores[TopK(scores, k)[p]] == scores[j] ==> TopK(scores, k)[p] < j
  {
    var all := RankPrefix(scores, |scores|);
    var r := TopK(scores, k);
    assert j in all;
    var q :| 0 <= q < |all| && all[q] == j;
    assert r == all[..|r|];
    assert q >= |r|;
    assert Before(scores, all[p], all[q]);
  }

  /** With no cut, every position appears in the ranking. */
  lemma TopKComplete(scores: seq<real>, k: nat, j: nat)
    requires |scores| <= k && j < |scores|
    ensures j in TopK(scores, k)
  {
  }
}
