/** Sizes of finite sets of thread numbers. */
module FiniteSets {
  lemma {:induction false} CountBelow(S: set<nat>, k: nat)
    requires forall p :: p in S ==> p < k
    ensures |S| <= k
    decreases k
  {
    if k == 0 {
      assert S == {};
    } else {
      CountBelow(S - {k - 1}, k - 1);
      assert S <= (S - {k - 1}) + {k - 1};
    }
  }

  lemma SubsetSize(S: set<nat>, T: set<nat>)
    requires S <= T
    ensures |S| <= |T|
  {
    assert T == S + (T - S);
  }

  /** Disjoint sets of threads together count at most k. */
  lemma CountBoth(S: set<nat>, T: set<nat>, k: nat)
    requires S !! T && forall p :: p in S + T ==> p < k
    ensures |S| + |T| <= k
  {
    assert |S + T| == |S| + |T|;
    CountBelow(S + T, k);
  }
}
