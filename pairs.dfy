/**
 * The order in which the planet sketches' nested draw loops visit pairs
 * of planets: for i from 0 while i < n - 1, for j from i + 1 while j < n.
 * The sketches' frames are specified as a fold over this sequence.
 */
module Pairs {
  import opened Common

  /** The inner loop of row i from j = from on: the pairs (i, from), (i, from + 1), ..., (i, n - 1). */
  function Row(i: nat, from: nat, n: nat): (r: seq<(nat, nat)>)
    ensures |r| == if from < n then n - from else 0
    decreases n - from
  {
    if n <= from then [] else [(i, from)] + Row(i, from + 1, n)
  }

  /** The pairs visited from row i on. */
  function PairsFrom(i: nat, n: nat): seq<(nat, nat)>
    decreases n - i
  {
    if n <= i + 1 then [] else Row(i, i + 1, n) + PairsFrom(i + 1, n)
  }

  /** The pairs one frame of the nested loops visits, over n planets, in visiting order. */
  function AllPairs(n: nat): seq<(nat, nat)>
  {
    PairsFrom(0, n)
  }

  /** Row i from j = from holds exactly the pairs (i, j) with from <= j < n, each once. */
  lemma {:induction false} RowExactly(i: nat, from: nat, n: nat)
    ensures forall p :: p in Row(i, from, n) <==> p.0 == i && from <= p.1 < n
    ensures Distinct(Row(i, from, n))
    decreases n - from
  {
    if from < n {
      RowExactly(i, from + 1, n);
      var r, rest := Row(i, from, n), Row(i, from + 1, n);
      assert r == [(i, from)] + rest;
      forall k, l | 0 <= k < l < |r| ensures r[k] != r[l] {
        assert r[l] == rest[l - 1] && rest[l - 1] in rest;
        if k > 0 {
          assert r[k] == rest[k - 1];
        }
      }
    }
  }

  /** The rows from i on hold exactly the pairs i <= a < b < n, each once. */
  lemma {:induction false} PairsFromExactly(i: nat, n: nat)
    ensures forall p :: p in PairsFrom(i, n) <==> i <= p.0 < p.1 < n
    ensures Distinct(PairsFrom(i, n))
    decreases n - i
  {
    if i + 1 < n {
      RowExactly(i, i + 1, n);
      PairsFromExactly(i + 1, n);
      DistinctConcat(Row(i, i + 1, n), PairsFrom(i + 1, n));
    }
  }

  /** One frame visits every unordered pair of distinct planets exactly once, the smaller index first. */
  lemma EveryPairOnce(n: nat)
    ensures forall p :: p in AllPairs(n) <==> p.0 < p.1 < n
    ensures Distinct(AllPairs(n))
  {
    PairsFromExactly(0, n);
  }

  /** One pass of a nested loop's body on the pair (i, j), as a function of the whole list. */
  type Step<!T> = (seq<T>, nat, nat) -> seq<T>

  /** The pairs ps visited in order, each by step. */
  function Fold<T>(bs: seq<T>, ps: seq<(nat, nat)>, step: Step<T>): seq<T>
    decreases |ps|
  {
    if ps == [] then bs else Fold(step(bs, ps[0].0, ps[0].1), ps[1..], step)
  }

  /** The inner loop of row i, from j up to n, as the loop runs it. */
  function RowFold<T>(bs: seq<T>, i: nat, j: nat, n: nat, step: Step<T>): seq<T>
    decreases n - j
  {
    if n <= j then bs else RowFold(step(bs, i, j), i, j + 1, n, step)
  }

  /** The outer loop, from row i on, over n elements, as the loop runs it. */
  function RowsFold<T>(bs: seq<T>, i: nat, n: nat, step: Step<T>): seq<T>
    decreases n - i
  {
    if n <= i + 1 then bs else RowsFold(RowFold(bs, i, i + 1, n, step), i + 1, n, step)
  }

  /** Running row i from j on visits the pairs Row(i, j, n), in order. */
  lemma {:induction false} RowFoldIsFold<T>(bs: seq<T>, i: nat, j: nat, n: nat, rest: seq<(nat, nat)>, step: Step<T>)
    ensures Fold(bs, Row(i, j, n) + rest, step) == Fold(RowFold(bs, i, j, n, step), rest, step)
    decreases n - j
  {
    if j < n {
      var tail := Row(i, j + 1, n) + rest;
      assert Row(i, j, n) + rest == [(i, j)] + tail;
      assert ([(i, j)] + tail)[1..] == tail;
      RowFoldIsFold(step(bs, i, j), i, j + 1, n, rest, step);
    } else {
      assert Row(i, j, n) + rest == rest;
    }
  }

  /** Running the outer loop from row i on visits the pairs PairsFrom(i, n), in order. */
  lemma {:induction false} RowsFoldIsFold<T>(bs: seq<T>, i: nat, n: nat, step: Step<T>)
    ensures Fold(bs, PairsFrom(i, n), step) == RowsFold(bs, i, n, step)
    decreases n - i
  {
    if i + 1 < n {
      RowFoldIsFold(bs, i, i + 1, n, PairsFrom(i + 1, n), step);
      RowsFoldIsFold(RowFold(bs, i, i + 1, n, step), i + 1, n, step);
    }
  }

  lemma DistinctConcat<T>(a: seq<T>, b: seq<T>)
    requires Distinct(a) && Distinct(b)
    requires forall x :: x in a ==> x !in b
    ensures Distinct(a + b)
  {
    var c := a + b;
    forall k, l | 0 <= k < l < |c| ensures c[k] != c[l] {
      if l < |a| {
        assert c[k] == a[k] && c[l] == a[l];
      } else if |a| <= k {
        assert c[k] == b[k - |a|] && c[l] == b[l - |a|];
      } else {
        assert c[k] == a[k] && c[l] == b[l - |a|] && c[l] in b;
      }
    }
  }
}
