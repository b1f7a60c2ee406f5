/** Finite sets of indices. */
module Counting {
  ghost function Below(n: nat): (r: set<nat>)
    ensures forall i: nat :: i in r <==> i < n
    ensures |r| == n
  {
    if n == 0 then {} else Below(n - 1) + {n - 1}
  }

  lemma {:induction false} SubsetSize(a: set<nat>, b: set<nat>)
    requires a <= b
    ensures |a| <= |b|
    ensures |a| == |b| ==> a == b
  {
    var rest := b - a;
    assert b == a + rest;
    if |a| == |b| {
      assert |rest| == 0;
    }
  }

  /** n different indices below n are all of them. */
  lemma {:induction false} FullSet(a: set<nat>, n: nat)
    requires forall i :: i in a ==> i < n
    ensures |a| <= n
    ensures |a| == n <==> forall i: nat :: i < n ==> i in a
  {
    SubsetSize(a, Below(n));
    if forall i: nat :: i < n ==> i in a {
      assert a == Below(n);
    }
  }

  /** Two sets of indices below n overlap in at least what their sizes exceed n by. */
  lemma {:induction false} Overlap(a: set<nat>, b: set<nat>, n: nat)
    requires forall i :: i in a + b ==> i < n
    ensures |a * b| >= |a| + |b| - n
  {
    SubsetSize(a + b, Below(n));
    assert |a + b| == |a| + |b| - |a * b|;
  }
}
