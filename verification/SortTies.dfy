/**
 * When the unstable sort matters: std::sort may leave files of equal rank in any order. Every
 * result gives every file the same tier exactly when, in one of them, no file would get another
 * tier by coming first among its ties.
 */
module SortTies {
  import opened Sums
  import opened Placement
  import opened FileOrder

  /** The first place in the order with the rank found at place i. */
  function TieStart(ranks: seq<Rank>, order: seq<nat>, i: nat): (s: nat)
    requires i < |order| && forall k :: 0 <= k < |order| ==> order[k] < |ranks|
    ensures s <= i && forall k :: s <= k <= i ==> ranks[order[k]] == ranks[order[i]]
    ensures s > 0 ==> ranks[order[s - 1]] != ranks[order[i]]
  {
    if i == 0 || ranks[order[i - 1]] != ranks[order[i]] then i else TieStart(ranks, order, i - 1)
  }

  /** The tier of the file at place i, were it first among its ties. */
  function TierIfFirst(ranks: seq<Rank>, sizes: seq<nat>, quotas: seq<nat>, order: seq<nat>, i: nat): nat
    requires |sizes| == |ranks| && Permutes(order, |ranks|) && i < |order|
  {
    var sorted := Arrange(sizes, order);
    FirstFit(SimAfter(sorted, quotas, TieStart(ranks, order, i)), quotas, sorted[i])
  }

  /** No file would get another tier by coming first among its ties. */
  predicate Settled(ranks: seq<Rank>, sizes: seq<nat>, quotas: seq<nat>, order: seq<nat>)
    requires |sizes| == |ranks| && Permutes(order, |ranks|)
  {
    forall i :: 0 <= i < |order| ==>
      TierFor(Arrange(sizes, order), quotas, i) == TierIfFirst(ranks, sizes, quotas, order, i)
  }

  /** Both arrangements give every file the same tier. */
  predicate SameTiers(sizes: seq<nat>, quotas: seq<nat>, a: seq<nat>, b: seq<nat>)
    requires Permutes(a, |sizes|) && Permutes(b, |sizes|)
  {
    forall i, j :: 0 <= i < |a| && 0 <= j < |b| && a[i] == b[j] ==>
      TierFor(Arrange(sizes, a), quotas, i) == TierFor(Arrange(sizes, b), quotas, j)
  }

  // ---------------------------------------------- bytes of a set of files

  /** The bytes of those files of m that have tier k. */
  function BytesIn(sizes: seq<nat>, target: seq<nat>, m: set<nat>, k: nat): nat
    requires |sizes| == |target|
  {
    if |sizes| == 0 then 0
    else
      var n := |sizes| - 1;
      BytesIn(sizes[..n], target[..n], m, k) + (if n in m && target[n] == k then sizes[n] else 0)
  }

  lemma {:induction false} BytesInGrows(sizes: seq<nat>, target: seq<nat>, m: set<nat>, more: set<nat>, k: nat)
    requires |sizes| == |target| && m <= more
    ensures BytesIn(sizes, target, m, k) <= BytesIn(sizes, target, more, k)
  {
    if |sizes| > 0 {
      BytesInGrows(sizes[..|sizes| - 1], target[..|sizes| - 1], m, more, k);
    }
  }

  lemma {:induction false} BytesInAdd(sizes: seq<nat>, target: seq<nat>, m: set<nat>, x: nat, k: nat)
    requires |sizes| == |target| && x !in m
    ensures BytesIn(sizes, target, m + {x}, k)
         == BytesIn(sizes, target, m, k) + (if x < |sizes| && target[x] == k then sizes[x] else 0)
  {
    if |sizes| > 0 {
      BytesInAdd(sizes[..|sizes| - 1], target[..|sizes| - 1], m, x, k);
    }
  }

  lemma {:induction false} BytesInNone(sizes: seq<nat>, target: seq<nat>, k: nat)
    requires |sizes| == |target|
    ensures BytesIn(sizes, target, {}, k) == 0
  {
    if |sizes| > 0 {
      BytesInNone(sizes[..|sizes| - 1], target[..|sizes| - 1], k);
    }
  }

  /** The files at the first m places. */
  function FirstFiles(order: seq<nat>, m: nat): set<nat>
    requires m <= |order|
  {
    set i | 0 <= i < m :: order[i]
  }

  lemma FirstFilesStep(order: seq<nat>, m: nat)
    requires Permutes(order, |order|) && m < |order|
    ensures FirstFiles(order, m + 1) == FirstFiles(order, m) + {order[m]} && order[m] !in FirstFiles(order, m)
  {
  }

  lemma BytesStep(sizes: seq<nat>, target: seq<nat>, order: seq<nat>, m: nat, k: nat)
    requires Permutes(order, |sizes|) && |target| == |sizes| && m < |sizes|
    ensures BytesIn(sizes, target, FirstFiles(order, m + 1), k)
         == BytesIn(sizes, target, FirstFiles(order, m), k) + (if target[order[m]] == k then sizes[order[m]] else 0)
  {
    FirstFilesStep(order, m);
    BytesInAdd(sizes, target, FirstFiles(order, m), order[m], k);
  }

  lemma FirstFilesAll(order: seq<nat>, m: set<nat>)
    requires Permutes(order, |order|) && forall x :: x in m ==> x < |order|
    ensures m <= FirstFiles(order, |order|)
  {
    forall x | x in m ensures x in FirstFiles(order, |order|) {
      var p := PlaceOf(order, x);
    }
  }

  /** target names the tiers of the files at the first m places. */
  predicate TiersAre(sizes: seq<nat>, quotas: seq<nat>, order: seq<nat>, target: seq<nat>, m: nat)
    requires Permutes(order, |sizes|) && |target| == |sizes| && m <= |sizes|
  {
    forall i :: 0 <= i < m ==> target[order[i]] == TierFor(Arrange(sizes, order), quotas, i)
  }

  /** Simulated usage after m files depends only on which files they are and on their tiers. */
  lemma {:induction false} SimIsBytesIn(
      sizes: seq<nat>, quotas: seq<nat>, order: seq<nat>, target: seq<nat>, m: nat, k: nat)
    requires Permutes(order, |sizes|) && |target| == |sizes| && m <= |sizes| && k < |quotas|
    requires TiersAre(sizes, quotas, order, target, m)
    ensures SimAfter(Arrange(sizes, order), quotas, m)[k] == BytesIn(sizes, target, FirstFiles(order, m), k)
  {
    if m == 0 {
      assert FirstFiles(order, 0) == {};
      BytesInNone(sizes, target, k);
    } else {
      var sorted, n := Arrange(sizes, order), m - 1;
      assert SimAfter(sorted, quotas, n)[k] == BytesIn(sizes, target, FirstFiles(order, n), k) by {
        SimIsBytesIn(sizes, quotas, order, target, n, k);
      }
      assert target[order[n]] == TierFor(sorted, quotas, n) && sorted[n] == sizes[order[n]];
      SimStep(sorted, quotas, n, k);
      BytesStep(sizes, target, order, n, k);
    }
  }

  // ------------------------------------------------ settled, so no matter

  /** The tiers by file number. */
  function Targets(sizes: seq<nat>, quotas: seq<nat>, order: seq<nat>): (target: seq<nat>)
    requires Permutes(order, |sizes|)
    ensures |target| == |sizes|
    ensures TiersAre(sizes, quotas, order, target, |sizes|)
  {
    var a := Assignment(Arrange(sizes, order), quotas);
    seq(|sizes|, f requires 0 <= f < |sizes| => a[PlaceOf(order, f)])
  }

  function PlaceOf(order: seq<nat>, f: nat): (i: nat)
    requires Permutes(order, |order|) && f < |order|
    ensures i < |order| && order[i] == f
  {
    assert f in order;
    var i: nat :| i < |order| && order[i] == f;
    i
  }

  lemma BeforeItsTies(ranks: seq<Rank>, order: seq<nat>, i: nat, a: nat)
    requires Sorts(ranks, order) && i < |ranks| && a < TieStart(ranks, order, i)
    ensures Before(ranks[order[a]], ranks[order[i]])
  {
    var s := TieStart(ranks, order, i);
    StrictWeakOrder(ranks[order[s - 1]], ranks[order[i]], ranks[order[a]]);
  }

  lemma BeforeComesFirst(ranks: seq<Rank>, order: seq<nat>, i: nat, j: nat)
    requires Sorts(ranks, order) && i < |ranks| && j < |ranks| && Before(ranks[order[i]], ranks[order[j]])
    ensures i < j
  {
    StrictWeakOrder(ranks[order[i]], ranks[order[j]], ranks[order[i]]);
  }

  lemma EarlierPlace(ranks: seq<Rank>, order: seq<nat>, again: seq<nat>, i: nat, j: nat, a: nat)
    requires Sorts(ranks, order) && Sorts(ranks, again) && i < |ranks| && j < |ranks| && order[i] == again[j]
    requires a < TieStart(ranks, order, i)
    ensures PlaceOf(again, order[a]) < j
  {
    BeforeItsTies(ranks, order, i, a);
    BeforeComesFirst(ranks, again, PlaceOf(again, order[a]), j);
  }

  /** Whatever stands before its ties in one sorted order stands before it in any. */
  lemma EarlierRanksFirst(ranks: seq<Rank>, order: seq<nat>, again: seq<nat>, i: nat, j: nat)
    requires Sorts(ranks, order) && Sorts(ranks, again) && i < |ranks| && j < |ranks| && order[i] == again[j]
    ensures FirstFiles(order, TieStart(ranks, order, i)) <= FirstFiles(again, j)
  {
    var s := TieStart(ranks, order, i);
    forall a | 0 <= a < s
      ensures order[a] in FirstFiles(again, j)
    {
      EarlierPlace(ranks, order, again, i, j, a);
    }
  }

  /** The next file of `again` gets its settled tier, if all before it did. */
  lemma NextAgrees(
      ranks: seq<Rank>, sizes: seq<nat>, quotas: seq<nat>, order: seq<nat>, again: seq<nat>, target: seq<nat>, j: nat)
    requires |sizes| == |ranks| && Sorts(ranks, order) && Sorts(ranks, again) && Settled(ranks, sizes, quotas, order)
    requires |target| == |sizes| && TiersAre(sizes, quotas, order, target, |sizes|)
    requires j < |sizes| && TiersAre(sizes, quotas, again, target, j)
    ensures TierFor(Arrange(sizes, again), quotas, j) == target[again[j]]
  {
    var f, i := again[j], PlaceOf(order, again[j]);
    var s, t := TieStart(ranks, order, i), target[f];
    var used := SimAfter(Arrange(sizes, again), quotas, j);
    assert t == TierIfFirst(ranks, sizes, quotas, order, i);
    forall k: nat | k < t
      ensures Full(used[k], quotas[k], sizes[f])
    {
      SimIsBytesIn(sizes, quotas, order, target, s, k);
      SimIsBytesIn(sizes, quotas, again, target, j, k);
      EarlierRanksFirst(ranks, order, again, i, j);
      BytesInGrows(sizes, target, FirstFiles(order, s), FirstFiles(again, j), k);
    }
    if t < |quotas| {
      RoomAmongAll(sizes, quotas, order, again, target, j);
    }
    FirstFitIs(used, quotas, sizes[f], t);
  }

  lemma TierFits(sizes: seq<nat>, quotas: seq<nat>, order: seq<nat>, target: seq<nat>, m: set<nat>, t: nat)
    requires Permutes(order, |sizes|) && |target| == |sizes| && t < |quotas|
    requires TiersAre(sizes, quotas, order, target, |sizes|) && forall x :: x in m ==> x < |sizes|
    ensures BytesIn(sizes, target, m, t) <= quotas[t]
  {
    var n := |sizes|;
    FirstFilesAll(order, m);
    BytesInGrows(sizes, target, m, FirstFiles(order, n), t);
    SimIsBytesIn(sizes, quotas, order, target, n, t);
    WithinQuota(Arrange(sizes, order), quotas, n, t);
  }

  /** All files of a tier fit its quota together, so any of them fits beside any of the others. */
  lemma RoomAmongAll(
      sizes: seq<nat>, quotas: seq<nat>, order: seq<nat>, again: seq<nat>, target: seq<nat>, j: nat)
    requires Permutes(order, |sizes|) && Permutes(again, |sizes|) && |target| == |sizes| && j < |sizes|
    requires TiersAre(sizes, quotas, order, target, |sizes|) && TiersAre(sizes, quotas, again, target, j)
    requires target[again[j]] < |quotas|
    ensures var t := target[again[j]];
      !Full(SimAfter(Arrange(sizes, again), quotas, j)[t], quotas[t], sizes[again[j]])
  {
    var t := target[again[j]];
    SimIsBytesIn(sizes, quotas, again, target, j, t);
    BytesStep(sizes, target, again, j, t);
    TierFits(sizes, quotas, order, target, FirstFiles(again, j + 1), t);
  }

  lemma {:induction false} SettledAgrees(
      ranks: seq<Rank>, sizes: seq<nat>, quotas: seq<nat>, order: seq<nat>, again: seq<nat>, target: seq<nat>, m: nat)
    requires |sizes| == |ranks| && Sorts(ranks, order) && Sorts(ranks, again) && Settled(ranks, sizes, quotas, order)
    requires |target| == |sizes| && TiersAre(sizes, quotas, order, target, |sizes|) && m <= |sizes|
    ensures TiersAre(sizes, quotas, again, target, m)
  {
    if m > 0 {
      SettledAgrees(ranks, sizes, quotas, order, again, target, m - 1);
      NextAgrees(ranks, sizes, quotas, order, again, target, m - 1);
    }
  }

  // -------------------------------------------- not settled, so it matters

  /** The file at place i put before the ones from place s on. */
  function Advanced(order: seq<nat>, s: nat, i: nat): (r: seq<nat>)
    requires s <= i < |order|
    ensures |r| == |order| && r[..s] == order[..s] && r[s] == order[i]
  {
    order[..s] + [order[i]] + order[s..i] + order[i + 1..]
  }

  /** Where the entry at place a came from. */
  function Source(s: nat, i: nat, a: nat): nat {
    if a < s then a else if a == s then i else if a <= i then a - 1 else a
  }

  lemma AdvancedAt(order: seq<nat>, s: nat, i: nat, a: nat)
    requires s <= i < |order| && a < |order|
    ensures Advanced(order, s, i)[a] == order[Source(s, i, a)]
  {
  }

  lemma AdvancedPermutes(order: seq<nat>, n: nat, s: nat, i: nat)
    requires Permutes(order, n) && s <= i < n
    ensures Permutes(Advanced(order, s, i), n)
  {
    var r := Advanced(order, s, i);
    forall a | 0 <= a < n ensures r[a] < n {
      AdvancedAt(order, s, i, a);
    }
    forall a, b | 0 <= a < b < n ensures r[a] != r[b] {
      AdvancedAt(order, s, i, a);
      AdvancedAt(order, s, i, b);
      assert Source(s, i, a) != Source(s, i, b);
    }
    forall x: nat | x < n ensures x in r {
      var p := PlaceOf(order, x);
      var a := if p < s || p > i then p else if p == i then s else p + 1;
      AdvancedAt(order, s, i, a);
      assert r[a] == x;
    }
  }

  /** Putting a file before its ties leaves a result of the sort. */
  lemma AdvancedSorts(ranks: seq<Rank>, order: seq<nat>, i: nat)
    requires Sorts(ranks, order) && i < |ranks|
    ensures Sorts(ranks, Advanced(order, TieStart(ranks, order, i), i))
  {
    var s := TieStart(ranks, order, i);
    var r := Advanced(order, s, i);
    AdvancedPermutes(order, |ranks|, s, i);
    forall a, b | 0 <= a < b < |r|
      ensures !Before(ranks[r[b]], ranks[r[a]])
    {
      AdvancedAt(order, s, i, a);
      AdvancedAt(order, s, i, b);
      StrictWeakOrder(ranks[order[i]], ranks[order[i]], ranks[order[i]]);
    }
  }

  lemma {:induction false} SimOfPrefix(a: seq<nat>, b: seq<nat>, quotas: seq<nat>, n: nat)
    requires n <= |a| && n <= |b| && a[..n] == b[..n]
    ensures SimAfter(a, quotas, n) == SimAfter(b, quotas, n)
  {
    if n > 0 {
      assert a[..n - 1] == a[..n][..n - 1] == b[..n][..n - 1] == b[..n - 1];
      assert a[n - 1] == a[..n][n - 1] == b[..n][n - 1] == b[n - 1];
      SimOfPrefix(a, b, quotas, n - 1);
    }
  }

  /** First among its ties, the file does get the tier said. */
  lemma AdvancedTier(ranks: seq<Rank>, sizes: seq<nat>, quotas: seq<nat>, order: seq<nat>, i: nat)
    requires |sizes| == |ranks| && Sorts(ranks, order) && i < |ranks|
    ensures var s := TieStart(ranks, order, i);
      var r := Advanced(order, s, i);
      && Sorts(ranks, r) && r[s] == order[i]
      && TierFor(Arrange(sizes, r), quotas, s) == TierIfFirst(ranks, sizes, quotas, order, i)
  {
    var s := TieStart(ranks, order, i);
    var r := Advanced(order, s, i);
    AdvancedSorts(ranks, order, i);
    forall a | 0 <= a < s ensures Arrange(sizes, r)[a] == Arrange(sizes, order)[a] {
      AdvancedAt(order, s, i, a);
    }
    assert Arrange(sizes, r)[..s] == Arrange(sizes, order)[..s];
    SimOfPrefix(Arrange(sizes, r), Arrange(sizes, order), quotas, s);
  }

  // --------------------------------------------------------- the condition

  ghost predicate EverySortAgrees(ranks: seq<Rank>, sizes: seq<nat>, quotas: seq<nat>)
    requires |sizes| == |ranks|
  {
    forall a, b :: Sorts(ranks, a) && Sorts(ranks, b) ==> SameTiers(sizes, quotas, a, b)
  }

  /** Every result of the sort gives every file the same tier exactly when some result is settled. */
  lemma TiesHarmlessIff(ranks: seq<Rank>, sizes: seq<nat>, quotas: seq<nat>, order: seq<nat>)
    requires |sizes| == |ranks| && Sorts(ranks, order)
    ensures EverySortAgrees(ranks, sizes, quotas) <==> Settled(ranks, sizes, quotas, order)
  {
    if EverySortAgrees(ranks, sizes, quotas) {
      forall i | 0 <= i < |order|
        ensures TierFor(Arrange(sizes, order), quotas, i) == TierIfFirst(ranks, sizes, quotas, order, i)
      {
        AdvancedTier(ranks, sizes, quotas, order, i);
        var s := TieStart(ranks, order, i);
        assert SameTiers(sizes, quotas, order, Advanced(order, s, i));
      }
    }
    if Settled(ranks, sizes, quotas, order) {
      var target := Targets(sizes, quotas, order);
      forall a, b | Sorts(ranks, a) && Sorts(ranks, b)
        ensures SameTiers(sizes, quotas, a, b)
      {
        SettledAgrees(ranks, sizes, quotas, order, a, target, |sizes|);
        SettledAgrees(ranks, sizes, quotas, order, b, target, |sizes|);
      }
    }
  }

  /** Distinct ranks are settled. */
  lemma DistinctRanksSettled(ranks: seq<Rank>, sizes: seq<nat>, quotas: seq<nat>, order: seq<nat>)
    requires |sizes| == |ranks| && Sorts(ranks, order)
    requires forall i, j :: 0 <= i < j < |ranks| ==> ranks[i] != ranks[j]
    ensures Settled(ranks, sizes, quotas, order)
  {
    forall i | 0 <= i < |order| ensures TieStart(ranks, order, i) == i {
    }
  }

  /** Ties that all fit the first tier are settled too. */
  lemma AllFitSettled(ranks: seq<Rank>, sizes: seq<nat>, quotas: seq<nat>, order: seq<nat>)
    requires |sizes| == |ranks| && Sorts(ranks, order) && |quotas| > 0
    requires Sum(Arrange(sizes, order)) <= quotas[0]
    ensures Settled(ranks, sizes, quotas, order)
  {
    var sorted := Arrange(sizes, order);
    assert sorted[..|sorted|] == sorted;
    TopFilesShareTopTier(sorted, quotas, |sorted|);
    forall i | 0 <= i < |order|
      ensures TierFor(sorted, quotas, i) == TierIfFirst(ranks, sizes, quotas, order, i)
    {
      SimGrows(sorted, quotas, TieStart(ranks, order, i), i, 0);
    }
  }

  // ------------------------------------------------------- the fixed point

  /** The tier of every file, by number, after every queued file moved. */
  function MovedTo(sizes: seq<nat>, quotas: seq<nat>, current: seq<nat>, order: seq<nat>): (r: seq<nat>)
    requires |current| == |sizes| && Permutes(order, |sizes|)
    ensures |r| == |sizes|
  {
    AllMoved(Targets(sizes, quotas, order), current, |quotas|)
  }

  /** After the moves of one sorted pass, a pass with the given sort queues nothing in any tier. */
  ghost predicate QueuesNothing(sizes: seq<nat>, quotas: seq<nat>, moved: seq<nat>, again: seq<nat>)
    requires |moved| == |sizes| && Permutes(again, |sizes|)
  {
    forall t: nat :: t < |quotas| ==>
      Queue(Assignment(Arrange(sizes, again), quotas), Arrange(moved, again), t, |sizes|) == []
  }

  lemma QueuesNothingMeans(sizes: seq<nat>, quotas: seq<nat>, moved: seq<nat>, again: seq<nat>)
    requires |moved| == |sizes| && Permutes(again, |sizes|)
    ensures QueuesNothing(sizes, quotas, moved, again) <==>
      forall j :: 0 <= j < |sizes| ==>
        var t := TierFor(Arrange(sizes, again), quotas, j); t < |quotas| ==> t == moved[again[j]]
  {
    var target, at := Assignment(Arrange(sizes, again), quotas), Arrange(moved, again);
    if QueuesNothing(sizes, quotas, moved, again) {
      forall j: nat | j < |sizes| && target[j] < |quotas|
        ensures target[j] == moved[again[j]]
      {
        assert j !in Queue(target, at, target[j], |sizes|);
      }
    } else {
      var t: nat :| t < |quotas| && Queue(target, at, t, |sizes|) != [];
      var j := Queue(target, at, t, |sizes|)[0];
      assert target[j] == t && at[j] != t;
    }
  }

  /** Coming first among its ties never costs a file its tier. */
  lemma FirstIsBest(ranks: seq<Rank>, sizes: seq<nat>, quotas: seq<nat>, order: seq<nat>, i: nat)
    requires |sizes| == |ranks| && Sorts(ranks, order) && i < |ranks|
    ensures TierIfFirst(ranks, sizes, quotas, order, i) <= TierFor(Arrange(sizes, order), quotas, i)
  {
    var sorted, s := Arrange(sizes, order), TieStart(ranks, order, i);
    var t := TierFor(sorted, quotas, i);
    if t < |quotas| {
      SimGrows(sorted, quotas, s, i, t);
    }
  }

  /** Whatever was left unplaced, a settled order is a fixed point. */
  lemma SettledQueuesNothing(
      ranks: seq<Rank>, sizes: seq<nat>, quotas: seq<nat>, current: seq<nat>, order: seq<nat>, again: seq<nat>)
    requires |sizes| == |ranks| == |current| && Sorts(ranks, order) && Sorts(ranks, again)
    requires Settled(ranks, sizes, quotas, order)
    ensures QueuesNothing(sizes, quotas, MovedTo(sizes, quotas, current, order), again)
  {
    var target := Targets(sizes, quotas, order);
    SettledAgrees(ranks, sizes, quotas, order, again, target, |sizes|);
    QueuesNothingMeans(sizes, quotas, MovedTo(sizes, quotas, current, order), again);
  }

  /** With no two equal ranks a second pass queues nothing. */
  lemma DistinctRanksFixedPoint(
      ranks: seq<Rank>, sizes: seq<nat>, quotas: seq<nat>, current: seq<nat>, order: seq<nat>, again: seq<nat>)
    requires |sizes| == |ranks| == |current| && Sorts(ranks, order) && Sorts(ranks, again)
    requires forall i, j :: 0 <= i < j < |ranks| ==> ranks[i] != ranks[j]
    ensures QueuesNothing(sizes, quotas, MovedTo(sizes, quotas, current, order), again)
  {
    DistinctRanksSettled(ranks, sizes, quotas, order);
    SettledQueuesNothing(ranks, sizes, quotas, current, order, again);
  }

  /** Otherwise the sort that puts the file first queues it. */
  lemma UnsettledQueues(
      ranks: seq<Rank>, sizes: seq<nat>, quotas: seq<nat>, order: seq<nat>, moved: seq<nat>, i: nat)
    requires |sizes| == |ranks| == |moved| && Sorts(ranks, order) && i < |ranks|
    requires TierFor(Arrange(sizes, order), quotas, i) == moved[order[i]] < |quotas|
    requires moved[order[i]] != TierIfFirst(ranks, sizes, quotas, order, i)
    ensures var again := Advanced(order, TieStart(ranks, order, i), i);
      Sorts(ranks, again) && !QueuesNothing(sizes, quotas, moved, again)
  {
    var s := TieStart(ranks, order, i);
    AdvancedTier(ranks, sizes, quotas, order, i);
    FirstIsBest(ranks, sizes, quotas, order, i);
    QueuesNothingMeans(sizes, quotas, moved, Advanced(order, s, i));
  }

  /**
   * Fixed point: once every file is placed and moved, sorting and placing again queues nothing,
   * whatever the second sort leaves, exactly when the first order was settled.
   */
  lemma FixedPointIff(ranks: seq<Rank>, sizes: seq<nat>, quotas: seq<nat>, current: seq<nat>, order: seq<nat>)
    requires |sizes| == |ranks| == |current| && Sorts(ranks, order)
    requires forall i :: 0 <= i < |order| ==> TierFor(Arrange(sizes, order), quotas, i) < |quotas|
    ensures (forall again :: Sorts(ranks, again) ==>
              QueuesNothing(sizes, quotas, MovedTo(sizes, quotas, current, order), again))
       <==> Settled(ranks, sizes, quotas, order)
  {
    var moved := MovedTo(sizes, quotas, current, order);
    if Settled(ranks, sizes, quotas, order) {
      forall again | Sorts(ranks, again) ensures QueuesNothing(sizes, quotas, moved, again) {
        SettledQueuesNothing(ranks, sizes, quotas, current, order, again);
      }
    } else {
      var i: nat :| i < |order|
        && TierFor(Arrange(sizes, order), quotas, i) != TierIfFirst(ranks, sizes, quotas, order, i);
      assert moved[order[i]] == Targets(sizes, quotas, order)[order[i]];
      UnsettledQueues(ranks, sizes, quotas, order, moved, i);
    }
  }
}
