/**
 * First-fit placement of the sorted files: TierEngineTiering::simulate_tier and
 * Tier::full_test, as a function of the file sizes in sorted order and the quotas.
 * Tier number |quotas| stands for "could not fit in any tier".
 */
module Placement {
  import opened Sums

  predicate Full(used: nat, quota: nat, size: nat) {
    used + size > quota
  }

  /** The first tier from k on that is not full for the file. */
  function FirstFit(used: seq<nat>, quotas: seq<nat>, size: nat, k: nat := 0): (r: nat)
    requires |used| == |quotas| && k <= |quotas|
    ensures k <= r <= |quotas|
    ensures r < |quotas| ==> !Full(used[r], quotas[r], size)
    ensures forall j :: k <= j < r ==> Full(used[j], quotas[j], size)
    decreases |quotas| - k
  {
    if k == |quotas| || !Full(used[k], quotas[k], size) then k
    else FirstFit(used, quotas, size, k + 1)
  }

  lemma FirstFitIs(used: seq<nat>, quotas: seq<nat>, size: nat, k: nat)
    requires |used| == |quotas| && k <= |quotas|
    requires forall j :: 0 <= j < k ==> Full(used[j], quotas[j], size)
    requires k < |quotas| ==> !Full(used[k], quotas[k], size)
    ensures FirstFit(used, quotas, size) == k
  {
  }

  function Charge(used: seq<nat>, k: nat, size: nat): seq<nat> {
    if k < |used| then used[k := used[k] + size] else used
  }

  /** Simulated usage of every tier after the first n files. */
  function SimAfter(sizes: seq<nat>, quotas: seq<nat>, n: nat): (used: seq<nat>)
    requires n <= |sizes|
    ensures |used| == |quotas|
  {
    if n == 0 then seq(|quotas|, _ => 0)
    else
      var before := SimAfter(sizes, quotas, n - 1);
      Charge(before, FirstFit(before, quotas, sizes[n - 1]), sizes[n - 1])
  }

  /** The tier chosen for file i, or |quotas|. */
  function TierFor(sizes: seq<nat>, quotas: seq<nat>, i: nat): (r: nat)
    requires i < |sizes|
    ensures r <= |quotas|
  {
    FirstFit(SimAfter(sizes, quotas, i), quotas, sizes[i])
  }

  function Assignment(sizes: seq<nat>, quotas: seq<nat>): (a: seq<nat>)
    ensures |a| == |sizes|
    ensures forall i :: 0 <= i < |a| ==> a[i] == TierFor(sizes, quotas, i)
  {
    seq(|sizes|, i requires 0 <= i < |sizes| => TierFor(sizes, quotas, i))
  }

  /** Simulated usage never shrinks. */
  lemma {:induction false} SimGrows(sizes: seq<nat>, quotas: seq<nat>, i: nat, j: nat, k: nat)
    requires i <= j <= |sizes| && k < |quotas|
    ensures SimAfter(sizes, quotas, i)[k] <= SimAfter(sizes, quotas, j)[k]
    decreases j
  {
    if i < j {
      SimGrows(sizes, quotas, i, j - 1, k);
    }
  }

  /** Placing file m adds its size to its tier. */
  lemma SimStep(sizes: seq<nat>, quotas: seq<nat>, m: nat, k: nat)
    requires m < |sizes| && k < |quotas|
    ensures SimAfter(sizes, quotas, m + 1)[k]
         == SimAfter(sizes, quotas, m)[k] + (if TierFor(sizes, quotas, m) == k then sizes[m] else 0)
  {
  }

  /** Simulated usage never exceeds the quota. */
  lemma {:induction false} WithinQuota(sizes: seq<nat>, quotas: seq<nat>, n: nat, k: nat)
    requires n <= |sizes| && k < |quotas|
    ensures SimAfter(sizes, quotas, n)[k] <= quotas[k]
  {
    if n > 0 {
      WithinQuota(sizes, quotas, n - 1, k);
    }
  }

  /** Simulated usage is exactly the sizes of the files assigned to the tier. */
  lemma {:induction false} SimIsShare(sizes: seq<nat>, quotas: seq<nat>, n: nat, k: nat)
    requires n <= |sizes| && k < |quotas|
    ensures SimAfter(sizes, quotas, n)[k] == Share(sizes[..n], Assignment(sizes, quotas)[..n], k)
  {
    if n > 0 {
      SimIsShare(sizes, quotas, n - 1, k);
      var a := Assignment(sizes, quotas);
      assert sizes[..n][..n - 1] == sizes[..n - 1] && a[..n][..n - 1] == a[..n - 1];
    }
  }

  /**
   * First fit holds against the final state: no earlier tier than the chosen one has
   * room for the file even at the end, and an unplaced file fits nowhere at the end.
   */
  lemma NoEarlierRoomAtEnd(sizes: seq<nat>, quotas: seq<nat>, i: nat, k: nat)
    requires i < |sizes| && k < |quotas| && k < TierFor(sizes, quotas, i)
    ensures Full(SimAfter(sizes, quotas, |sizes|)[k], quotas[k], sizes[i])
  {
    SimGrows(sizes, quotas, i, |sizes|, k);
  }

  /** A file that ends up below a later, placed file is strictly larger than it. */
  lemma LaterTierMeansLarger(sizes: seq<nat>, quotas: seq<nat>, i: nat, j: nat)
    requires i < j < |sizes|
    requires TierFor(sizes, quotas, j) < TierFor(sizes, quotas, i)
    ensures sizes[j] < sizes[i]
  {
    SimGrows(sizes, quotas, i, j, TierFor(sizes, quotas, j));
  }

  /** The top k files are all assigned to tier 0 exactly when together they fit its quota. */
  lemma {:induction false} TopFilesShareTopTier(sizes: seq<nat>, quotas: seq<nat>, k: nat)
    requires k <= |sizes| && |quotas| > 0
    ensures (forall i :: 0 <= i < k ==> TierFor(sizes, quotas, i) == 0) <==> Sum(sizes[..k]) <= quotas[0]
    ensures Sum(sizes[..k]) <= quotas[0] ==> SimAfter(sizes, quotas, k)[0] == Sum(sizes[..k])
  {
    if k > 0 {
      TopFilesShareTopTier(sizes, quotas, k - 1);
      assert sizes[..k][..k - 1] == sizes[..k - 1];
      if forall i :: 0 <= i < k ==> TierFor(sizes, quotas, i) == 0 {
        assert TierFor(sizes, quotas, k - 1) == 0;
      }
    }
  }

  // ------------------------------------------------------------------ queues

  /** The files among the first n queued for tier t: assigned there and not there already. */
  function Queue(target: seq<nat>, current: seq<nat>, t: nat, n: nat): (q: seq<nat>)
    requires |target| == |current| && n <= |target|
    ensures forall x: nat :: x in q <==> x < n && target[x] == t && current[x] != t
    ensures forall i :: 0 <= i < |q| ==> q[i] < n && target[q[i]] == t && current[q[i]] != t
    ensures forall i, j :: 0 <= i < j < |q| ==> q[i] < q[j]
  {
    if n == 0 then []
    else
      var q := Queue(target, current, t, n - 1);
      if target[n - 1] == t && current[n - 1] != t then q + [n - 1] else q
  }

  /** The queues of n tiers after the first m files. */
  function Queues(target: seq<nat>, current: seq<nat>, n: nat, m: nat): (r: seq<seq<nat>>)
    requires |target| == |current| && m <= |target|
    ensures |r| == n && forall t :: 0 <= t < n ==> r[t] == Queue(target, current, t, m)
  {
    seq(n, t requires 0 <= t => Queue(target, current, t, m))
  }

  /** Placing file m charges and queues it as simulate_tier does. */
  lemma PlacingOne(sizes: seq<nat>, quotas: seq<nat>, current: seq<nat>, m: nat)
    requires |sizes| == |current| && m < |sizes|
    ensures var k := FirstFit(SimAfter(sizes, quotas, m), quotas, sizes[m]);
      var target := Assignment(sizes, quotas);
      && SimAfter(sizes, quotas, m + 1) == Charge(SimAfter(sizes, quotas, m), k, sizes[m])
      && Queues(target, current, |quotas|, m + 1)
           == Enqueued(Queues(target, current, |quotas|, m), k, current[m], m)
  {
  }

  function Enqueued(queues: seq<seq<nat>>, to: nat, from: nat, file: nat): seq<seq<nat>> {
    if to < |queues| && to != from then queues[to := queues[to] + [file]] else queues
  }

  /** A file is queued at most once over all tiers. */
  lemma QueuedAtMostOnce(target: seq<nat>, current: seq<nat>, t: nat, i: nat, u: nat, j: nat)
    requires |target| == |current|
    requires i < |Queue(target, current, t, |target|)| && j < |Queue(target, current, u, |target|)|
    requires Queue(target, current, t, |target|)[i] == Queue(target, current, u, |target|)[j]
    ensures t == u && i == j
  {
  }

  /** Where every file is after a pass in which every queued file moved. */
  function AllMoved(target: seq<nat>, current: seq<nat>, tiers: nat): (r: seq<nat>)
    requires |target| == |current|
    ensures |r| == |current|
  {
    seq(|current|, i requires 0 <= i < |current| => if target[i] < tiers then target[i] else current[i])
  }

  /** Placing again after everything moved queues nothing in any tier. */
  lemma {:induction false} SecondPassQueuesNothing(
      sizes: seq<nat>, quotas: seq<nat>, current: seq<nat>, t: nat, n: nat)
    requires |current| == |sizes| && n <= |sizes| && t < |quotas|
    ensures var a := Assignment(sizes, quotas); Queue(a, AllMoved(a, current, |quotas|), t, n) == []
  {
    if n > 0 {
      SecondPassQueuesNothing(sizes, quotas, current, t, n - 1);
    }
  }
}
