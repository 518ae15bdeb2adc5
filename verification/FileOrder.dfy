/**
 * The order of TierEngineTiering::sort: popularity first, then access time, both
 * descending. std::sort is unstable, so its result is any arrangement `Sorts` allows.
 */
module FileOrder {
  import opened Placement
  import opened Sums

  datatype Rank = Rank(popularity: real, sec: int, usec: int)

  /** The comparator handed to std::sort. */
  predicate Before(a: Rank, b: Rank) {
    if a.popularity == b.popularity then
      if a.sec == b.sec then a.usec > b.usec else a.sec > b.sec
    else a.popularity > b.popularity
  }

  predicate Tied(a: Rank, b: Rank) {
    !Before(a, b) && !Before(b, a)
  }

  /**
   * std::sort demands a strict weak ordering; ties are exactly equal ranks, so ties are
   * transitive too.
   */
  lemma StrictWeakOrder(a: Rank, b: Rank, c: Rank)
    ensures !Before(a, a)
    ensures Before(a, b) && Before(b, c) ==> Before(a, c)
    ensures Tied(a, b) <==> a == b
    ensures Before(a, b) ==> Before(a, c) || Before(c, b)
  {
  }

  /** order lists every index of ranks once. */
  predicate Permutes(order: seq<nat>, n: nat) {
    && |order| == n
    && (forall i :: 0 <= i < n ==> order[i] < n)
    && (forall i, j :: 0 <= i < j < n ==> order[i] != order[j])
    && (forall x: nat :: x < n ==> x in order)
  }

  /** No later file precedes an earlier one. */
  predicate Ordered(ranks: seq<Rank>, order: seq<nat>) {
    && (forall i :: 0 <= i < |order| ==> order[i] < |ranks|)
    && (forall i, j :: 0 <= i < j < |order| ==> !Before(ranks[order[j]], ranks[order[i]]))
  }

  /** What std::sort leaves. */
  predicate Sorts(ranks: seq<Rank>, order: seq<nat>) {
    Permutes(order, |ranks|) && Ordered(ranks, order)
  }

  /** Where a new last file goes in a sorted arrangement of the others. */
  function Slot(ranks: seq<Rank>, order: seq<nat>, x: Rank): (k: nat)
    requires forall i :: 0 <= i < |order| ==> order[i] < |ranks|
    ensures k <= |order|
    ensures forall i :: 0 <= i < k ==> !Before(x, ranks[order[i]])
    ensures k < |order| ==> Before(x, ranks[order[k]])
  {
    if |order| == 0 || Before(x, ranks[order[0]]) then 0
    else 1 + Slot(ranks, order[1..], x)
  }

  /** One arrangement std::sort may leave, built by inserting the files one by one. */
  function SortedOrder(ranks: seq<Rank>): (order: seq<nat>)
    ensures Sorts(ranks, order)
  {
    if |ranks| == 0 then []
    else
      var n := |ranks| - 1;
      var rest := SortedOrder(ranks[..n]);
      var k := Slot(ranks, rest, ranks[n]);
      InsertOrdered(ranks, rest, k, n);
      InsertPermutes(rest, k, n);
      Insert(rest, k, n)
  }

  function Insert(order: seq<nat>, k: nat, x: nat): seq<nat>
    requires k <= |order|
  {
    order[..k] + [x] + order[k..]
  }

  lemma InsertAt(rest: seq<nat>, k: nat, x: nat, i: nat)
    requires k <= |rest| && i <= |rest|
    ensures Insert(rest, k, x)[i] == if i < k then rest[i] else if i == k then x else rest[i - 1]
  {
  }

  /** From its slot on, no file precedes the new one. */
  lemma AfterSlot(ranks: seq<Rank>, rest: seq<nat>, x: nat, j: nat)
    requires x < |ranks| && Ordered(ranks, rest) && Slot(ranks, rest, ranks[x]) <= j < |rest|
    ensures !Before(ranks[rest[j]], ranks[x])
  {
  }

  lemma InsertOrdered(ranks: seq<Rank>, rest: seq<nat>, k: nat, x: nat)
    requires x < |ranks| && Ordered(ranks, rest) && k == Slot(ranks, rest, ranks[x])
    ensures Ordered(ranks, Insert(rest, k, x))
  {
    var order := Insert(rest, k, x);
    forall i | 0 <= i < |order| ensures order[i] < |ranks| {
      InsertAt(rest, k, x, i);
    }
    forall i, j | 0 <= i < j < |order| ensures !Before(ranks[order[j]], ranks[order[i]]) {
      InsertAt(rest, k, x, i);
      InsertAt(rest, k, x, j);
      if i == k {
        AfterSlot(ranks, rest, x, j - 1);
      }
    }
  }

  lemma InsertPermutes(rest: seq<nat>, k: nat, n: nat)
    requires Permutes(rest, n) && k <= n
    ensures Permutes(Insert(rest, k, n), n + 1)
  {
    var order := Insert(rest, k, n);
    forall x: nat | x < n + 1 ensures x in order {
      var i: nat := k;
      if x < n {
        assert x in rest;
        i :| i < n && rest[i] == x;
        i := if i < k then i else i + 1;
      }
      InsertAt(rest, k, n, i);
      assert order[i] == x;
    }
    forall i | 0 <= i < n + 1 ensures order[i] < n + 1 {
      InsertAt(rest, k, n, i);
    }
    forall i, j | 0 <= i < j < n + 1 ensures order[i] != order[j] {
      InsertAt(rest, k, n, i);
      InsertAt(rest, k, n, j);
    }
  }

  /** With no two equal ranks the sorted arrangement is unique. */
  lemma {:induction false} SortUnique(ranks: seq<Rank>, p: seq<nat>, q: seq<nat>, n: nat)
    requires Sorts(ranks, p) && Sorts(ranks, q) && n <= |ranks|
    requires forall i, j :: 0 <= i < j < |ranks| ==> ranks[i] != ranks[j]
    ensures p[..n] == q[..n]
  {
    if n > 0 {
      SortUnique(ranks, p, q, n - 1);
      var i := n - 1;
      if p[i] != q[i] {
        var j := FindLater(p, q, i);
        var k := FindLater(q, p, i);
        StrictWeakOrder(ranks[p[i]], ranks[q[i]], ranks[p[i]]);
        assert false;
      }
    }
  }

  /** If two permutations agree before i and differ at i, p[i] is found in q after i. */
  lemma FindLater(p: seq<nat>, q: seq<nat>, i: nat) returns (j: nat)
    requires Permutes(p, |p|) && Permutes(q, |p|) && i < |p|
    requires p[..i] == q[..i] && p[i] != q[i]
    ensures i < j < |q| && q[j] == p[i]
  {
    assert p[i] in q;
    j :| 0 <= j < |q| && q[j] == p[i];
    forall m | 0 <= m < i ensures p[m] == q[m] {
      assert p[m] == p[..i][m];
    }
  }

  /** A list rearranged into sorted order. */
  function Arrange<T>(items: seq<T>, order: seq<nat>): (r: seq<T>)
    requires Permutes(order, |items|)
    ensures |r| == |items|
    ensures forall i :: 0 <= i < |r| ==> r[i] == items[order[i]]
  {
    seq(|items|, i requires 0 <= i < |items| => items[order[i]])
  }

  lemma RemovePermutes(order: seq<nat>, n: nat, j: nat)
    requires Permutes(order, n + 1) && j <= n && order[j] == n
    ensures Permutes(order[..j] + order[j + 1..], n)
  {
    var rest := order[..j] + order[j + 1..];
    forall i | 0 <= i < n ensures rest[i] == order[if i < j then i else i + 1] {
    }
    forall x: nat | x < n ensures x in rest {
      assert x in order;
      var i :| 0 <= i < n + 1 && order[i] == x;
      assert rest[if i < j then i else i - 1] == x;
    }
  }

  lemma ArrangeRemove<T>(items: seq<T>, order: seq<nat>, j: nat)
    requires |items| > 0 && Permutes(order, |items|) && j < |items| && order[j] == |items| - 1
    requires Permutes(order[..j] + order[j + 1..], |items| - 1)
    ensures Arrange(items, order)[..j] + Arrange(items, order)[j + 1..]
         == Arrange(items[..|items| - 1], order[..j] + order[j + 1..])
  {
  }

  /** Taking the last file out of an arrangement takes its size out of its owner's share. */
  lemma TakeLastOut(sizes: seq<nat>, owner: seq<nat>, order: seq<nat>, k: nat) returns (rest: seq<nat>)
    requires |sizes| == |owner| > 0 && Permutes(order, |sizes|)
    ensures Permutes(rest, |sizes| - 1)
    ensures Share(Arrange(sizes, order), Arrange(owner, order), k)
         == Share(Arrange(sizes[..|sizes| - 1], rest), Arrange(owner[..|sizes| - 1], rest), k)
            + (if owner[|sizes| - 1] == k then sizes[|sizes| - 1] else 0)
  {
    var n := |sizes| - 1;
    assert n in order;
    var j: nat :| j <= n && order[j] == n;
    rest := order[..j] + order[j + 1..];
    RemovePermutes(order, n, j);
    ShareRemove(Arrange(sizes, order), Arrange(owner, order), j, k);
    ArrangeRemove(sizes, order, j);
    ArrangeRemove(owner, order, j);
  }

  /** Rearranging the files leaves every tier's share as it was. */
  lemma {:induction false} ShareArranged(sizes: seq<nat>, owner: seq<nat>, order: seq<nat>, k: nat)
    requires |sizes| == |owner| && Permutes(order, |sizes|)
    ensures Share(Arrange(sizes, order), Arrange(owner, order), k) == Share(sizes, owner, k)
    decreases |sizes|
  {
    if |sizes| > 0 {
      var n := |sizes| - 1;
      var rest := TakeLastOut(sizes, owner, order, k);
      ShareArranged(sizes[..n], owner[..n], rest, k);
    }
  }

  /** More popular; or as popular and used at a later second; or in the same second, later in it. */
  predicate GoesFirst(a: Rank, b: Rank) {
    || a.popularity > b.popularity
    || (a.popularity == b.popularity && a.sec > b.sec)
    || (a.popularity == b.popularity && a.sec == b.sec && a.usec > b.usec)
  }

  /** The sort puts the more popular file first, and among equals the one used later. */
  lemma SortedByPopularityThenTime(ranks: seq<Rank>, order: seq<nat>, i: nat, j: nat)
    requires Sorts(ranks, order) && i < |ranks| && j < |ranks|
    ensures ranks[order[i]].popularity > ranks[order[j]].popularity ==> i < j
    ensures ranks[order[i]].popularity == ranks[order[j]].popularity && ranks[order[i]].sec > ranks[order[j]].sec ==>
      i < j
    ensures ranks[order[i]].popularity == ranks[order[j]].popularity && ranks[order[i]].sec == ranks[order[j]].sec
            && ranks[order[i]].usec > ranks[order[j]].usec ==>
      i < j
    ensures GoesFirst(ranks[order[i]], ranks[order[j]]) ==> i < j
  {
  }

  /**
   * Priority through sort and placement: a more popular file, or one as popular and used later, that
   * still gets a worse tier (or none) is strictly larger.
   */
  lemma WorseTierOnlyIfLarger(
      ranks: seq<Rank>, sizes: seq<nat>, quotas: seq<nat>, order: seq<nat>, i: nat, j: nat)
    requires |sizes| == |ranks| && Sorts(ranks, order) && i < |ranks| && j < |ranks|
    requires GoesFirst(ranks[order[i]], ranks[order[j]])
    requires TierFor(Arrange(sizes, order), quotas, j) < TierFor(Arrange(sizes, order), quotas, i)
    ensures sizes[order[j]] < sizes[order[i]]
  {
    SortedByPopularityThenTime(ranks, order, i, j);
    LaterTierMeansLarger(Arrange(sizes, order), quotas, i, j);
  }

  /**
   * Two files of equal rank and sizes 1 and 2 over quotas 2 and 2 may be arranged either way round.
   * Once the first arrangement has been carried out, the second queues each file for the other's tier.
   */
  lemma TiesCanSwap()
    ensures var ranks := [Rank(0.0, 0, 0), Rank(0.0, 0, 0)];
            && Sorts(ranks, [0, 1]) && Sorts(ranks, [1, 0])
            && Assignment(Arrange([1, 2], [0, 1]), [2, 2]) == [0, 1]
            && Assignment(Arrange([1, 2], [1, 0]), [2, 2]) == [0, 1]
            && Arrange([0, 1], [1, 0]) == [1, 0]
            && 0 in Queue([0, 1], [1, 0], 0, 2) && 1 in Queue([0, 1], [1, 0], 1, 2)
  {
    var r := Rank(0.0, 0, 0);
    PermutesTwo([0, 1]);
    PermutesTwo([1, 0]);
    assert Sorts([r, r], [0, 1]) && Sorts([r, r], [1, 0]) by {
      StrictWeakOrder(r, r, r);
    }
    ArrangeTwo(1, 2);
    ArrangeTwo(0, 1);
    PlaceTwo(1, 2);
    PlaceTwo(2, 1);
  }

  lemma PermutesTwo(order: seq<nat>)
    requires order == [0, 1] || order == [1, 0]
    ensures Permutes(order, 2)
  {
  }

  lemma ArrangeTwo(a: nat, b: nat)
    requires Permutes([0, 1], 2) && Permutes([1, 0], 2)
    ensures Arrange([a, b], [0, 1]) == [a, b]
    ensures Arrange([a, b], [1, 0]) == [b, a]
  {
  }

  lemma PlaceTwo(a: nat, b: nat)
    requires a <= 2 && b <= 2 && a + b == 3
    ensures Assignment([a, b], [2, 2]) == [0, 1]
  {
    assert SimAfter([a, b], [2, 2], 0) == [0, 0];
    assert TierFor([a, b], [2, 2], 0) == 0;
    assert SimAfter([a, b], [2, 2], 1) == [a, 0];
    assert TierFor([a, b], [2, 2], 1) == 1;
  }
}
