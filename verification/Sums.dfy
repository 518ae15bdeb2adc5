/** Sums over sequences of sizes, and the share of a sum that belongs to one owner. */
module Sums {

  function Sum(s: seq<nat>): nat {
    if |s| == 0 then 0 else Sum(s[..|s| - 1]) + s[|s| - 1]
  }

  /** The sizes of the entries whose owner is k, added up. */
  function Share(sizes: seq<nat>, owner: seq<nat>, k: nat): nat
    requires |sizes| == |owner|
  {
    if |sizes| == 0 then 0
    else
      var n := |sizes| - 1;
      Share(sizes[..n], owner[..n], k) + (if owner[n] == k then sizes[n] else 0)
  }

  /** Changing one owner moves exactly that entry's size between shares. */
  lemma {:induction false} ShareUpdate(sizes: seq<nat>, owner: seq<nat>, i: nat, v: nat, k: nat)
    requires |sizes| == |owner| && i < |owner|
    ensures Share(sizes, owner[i := v], k) + (if owner[i] == k then sizes[i] else 0)
         == Share(sizes, owner, k) + (if v == k then sizes[i] else 0)
  {
    var n := |sizes| - 1;
    if i == n {
      assert owner[i := v][..n] == owner[..n];
    } else {
      assert owner[i := v][..n] == owner[..n][i := v];
      ShareUpdate(sizes[..n], owner[..n], i, v, k);
    }
  }

  /** An entry is no larger than its owner's share. */
  lemma {:induction false} ShareAtLeast(sizes: seq<nat>, owner: seq<nat>, i: nat)
    requires |sizes| == |owner| && i < |owner|
    ensures sizes[i] <= Share(sizes, owner, owner[i])
  {
    var n := |sizes| - 1;
    if i < n {
      ShareAtLeast(sizes[..n], owner[..n], i);
    }
  }

  /** Taking one entry out of the list takes its size out of its owner's share. */
  lemma {:induction false} ShareRemove(sizes: seq<nat>, owner: seq<nat>, i: nat, k: nat)
    requires |sizes| == |owner| && i < |owner|
    ensures Share(sizes, owner, k)
         == Share(sizes[..i] + sizes[i + 1..], owner[..i] + owner[i + 1..], k)
            + (if owner[i] == k then sizes[i] else 0)
  {
    var n := |sizes| - 1;
    if i == n {
      assert sizes[..i] + sizes[i + 1..] == sizes[..n] && owner[..i] + owner[i + 1..] == owner[..n];
    } else {
      ShareRemove(sizes[..n], owner[..n], i, k);
      RemoveThenInit(sizes, i);
      RemoveThenInit(owner, i);
    }
  }

  lemma RemoveThenInit<T>(s: seq<T>, i: nat)
    requires i < |s| - 1
    ensures (s[..i] + s[i + 1..])[..|s| - 2] == s[..|s| - 1][..i] + s[..|s| - 1][i + 1..]
    ensures (s[..i] + s[i + 1..])[|s| - 2] == s[|s| - 1]
  {
  }

  /** Share, added over owners 0 to n - 1. */
  function ShareTotal(sizes: seq<nat>, owner: seq<nat>, n: nat): nat
    requires |sizes| == |owner|
  {
    if n == 0 then 0 else ShareTotal(sizes, owner, n - 1) + Share(sizes, owner, n - 1)
  }

  lemma {:induction false} ShareTotalStep(sizes: seq<nat>, owner: seq<nat>, n: nat)
    requires |sizes| == |owner| && |sizes| > 0
    ensures ShareTotal(sizes, owner, n)
         == ShareTotal(sizes[..|sizes| - 1], owner[..|sizes| - 1], n)
            + (if owner[|sizes| - 1] < n then sizes[|sizes| - 1] else 0)
  {
    if n > 0 {
      ShareTotalStep(sizes, owner, n - 1);
    }
  }

  /** When every entry has one of n owners, the shares add up to the whole. */
  lemma {:induction false} ShareTotalIsSum(sizes: seq<nat>, owner: seq<nat>, n: nat)
    requires |sizes| == |owner|
    requires forall i :: 0 <= i < |owner| ==> owner[i] < n
    ensures ShareTotal(sizes, owner, n) == Sum(sizes)
  {
    if |sizes| == 0 {
      ShareTotalEmpty(n);
    } else {
      var m := |sizes| - 1;
      ShareTotalStep(sizes, owner, n);
      ShareTotalIsSum(sizes[..m], owner[..m], n);
    }
  }

  lemma {:induction false} ShareTotalEmpty(n: nat)
    ensures ShareTotal([], [], n) == 0
  {
    if n > 0 {
      ShareTotalEmpty(n - 1);
    }
  }

  function SumInt(s: seq<int>): int {
    if |s| == 0 then 0 else SumInt(s[..|s| - 1]) + s[|s| - 1]
  }

  lemma {:induction false} SumIntUpdate(s: seq<int>, i: nat, v: int)
    requires i < |s|
    ensures SumInt(s[i := v]) == SumInt(s) - s[i] + v
  {
    var n := |s| - 1;
    if i == n {
      assert s[i := v][..n] == s[..n];
    } else {
      assert s[i := v][..n] == s[..n][i := v];
      SumIntUpdate(s[..n], i, v);
    }
  }

  /** A sum of non-negative terms vanishes exactly when every term does. */
  lemma {:induction false} SumIntZero(s: seq<int>)
    requires forall i :: 0 <= i < |s| ==> s[i] >= 0
    ensures SumInt(s) >= 0
    ensures SumInt(s) == 0 <==> forall i :: 0 <= i < |s| ==> s[i] == 0
  {
    if |s| > 0 {
      var n := |s| - 1;
      SumIntZero(s[..n]);
      if SumInt(s) == 0 {
        forall i | 0 <= i < |s| ensures s[i] == 0 {
          assert i < n ==> s[i] == s[..n][i];
        }
      }
    }
  }
}
