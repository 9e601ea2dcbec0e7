/** Counting facts about finite collections of integers, shared by the
    elimination-tree walk and the Kalman filter's prediction list. */
module Counting {

  predicate Distinct(xs: seq<int>)
  {
    forall a, b :: 0 <= a < b < |xs| ==> xs[a] != xs[b]
  }

  /** A repeat-free sequence of nodes in `[0, k)` has at most `k` elements. */
  lemma DistinctBound(xs: seq<int>, k: int)
    requires 0 <= k && Distinct(xs)
    requires forall a :: 0 <= a < |xs| ==> 0 <= xs[a] < k
    ensures |xs| <= k
  {
    DistinctCard(xs);
    SetBound((set x | x in xs), k);
  }

  lemma {:induction false} DistinctCard(xs: seq<int>)
    requires Distinct(xs)
    ensures |set x | x in xs| == |xs|
  {
    if |xs| > 0 {
      var front := xs[..|xs| - 1];
      DistinctCard(front);
      assert (set x | x in xs) == (set x | x in front) + {xs[|xs| - 1]};
      assert xs[|xs| - 1] !in (set x | x in front);
    }
  }

  /** A set of integers in `[0, k)` has at most `k` elements. */
  lemma {:induction false} SetBound(S: set<int>, k: int)
    requires 0 <= k
    requires forall x :: x in S ==> 0 <= x < k
    ensures |S| <= k
    decreases k
  {
    if k == 0 {
      assert forall x :: x !in S;
      assert S == {};
    } else {
      SetBound(S - {k - 1}, k - 1);
    }
  }

  /** A set that gains an element it lacked grows. */
  lemma StrictSuperset(A: set<int>, B: set<int>, e: int)
    requires A <= B && e in B && e !in A
    ensures |A| < |B|
  {
    var C := B - A;
    assert B == A + C;
    assert e in C;
  }
}
