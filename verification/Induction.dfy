/** Induction over the steps of a run, apart from what the steps are. */
module Induction {

  /** What holds at step j, and is kept by every step up to k, holds at step k. */
  lemma {:induction false} Persists(holds: nat -> bool, j: nat, k: nat)
    requires j <= k && holds(j) && forall m :: j <= m < k && holds(m) ==> holds(m + 1)
    ensures holds(k)
    decreases k
  {
    if j < k {
      Persists(holds, j, k - 1);
    }
  }

  /** What holds at j, and then survives a step exactly if the step does not break it, holds up to n exactly if no step breaks it. */
  lemma {:induction false} ThroughoutIff(good: nat -> bool, breaks: nat -> bool, j: nat, n: nat)
    requires j <= n && good(j) && forall k :: j <= k < n && good(k) ==> (good(k + 1) <==> !breaks(k))
    ensures (forall k :: j <= k <= n ==> good(k)) <==> (forall k :: j <= k < n ==> !breaks(k))
    decreases n
  {
    if j < n {
      var m := n - 1;
      ThroughoutIff(good, breaks, j, m);
      assert good(m) ==> (good(m + 1) <==> !breaks(m));
      assert (forall k :: j <= k <= n ==> good(k)) <==> (forall k :: j <= k <= m ==> good(k)) && good(n);
      assert (forall k :: j <= k < n ==> !breaks(k)) <==> (forall k :: j <= k < m ==> !breaks(k)) && !breaks(m);
    }
  }
}
