/** What one tiering pass does to every listed file, told from the listing alone. */
module PassTheorem {
  import opened Sums
  import opened FileOrder
  import opened Placement
  import opened Transfer
  import opened PassResult
  import opened Crawl
  import opened PassPlan
  import Popularity

  /** A pass as TieringPass.TierEngine.RunPass describes it. */
  ghost predicate Passed(
      listing: seq<seq<Entry>>, index: map<string, Metadata>, disk: set<(nat, string)>,
      period: real, now: int, quotas: seq<nat>, outcome: string -> Outcome,
      found: seq<Found>, order: seq<nat>, p: Plan, s: State)
  {
    && DistinctListing(listing) && DiskMatches(disk, listing) && IndexMatches(index, listing)
    && |quotas| == |listing|
    && Selected(found, listing, index, period, now, order)
    && p == PlanOf(found, quotas, PinnedOf(listing, index), outcome)
    && Finished(p, StartOf(found, UsageOf(listing), disk, index), s)
  }

  /** An unpinned listed file is among the selected ones. */
  lemma SelectedHolds(
      listing: seq<seq<Entry>>, index: map<string, Metadata>, period: real, now: int,
      found: seq<Found>, order: seq<nat>, t: nat, i: nat) returns (f: nat)
    requires Selected(found, listing, index, period, now, order)
    requires t < |listing| && i < |listing[t]| && !Lookup(index, listing[t][i].path, t).pinned
    ensures f < |found| && found[f].entry == listing[t][i] && found[f].tier == t
  {
    var crawled := Crawled(listing, index, |listing|);
    CrawledHolds(listing, index, |listing|, t, i);
    var k: nat :| k < |crawled| && crawled[k] == Found(listing[t][i], t, Lookup(index, listing[t][i].path, t));
    assert k in order;
    f :| f < |order| && order[f] == k;
  }

  /** A pinned listed file is not. */
  lemma PinnedNotSelected(
      listing: seq<seq<Entry>>, index: map<string, Metadata>, period: real, now: int,
      found: seq<Found>, order: seq<nat>, t: nat, i: nat)
    requires DistinctListing(listing) && Selected(found, listing, index, period, now, order)
    requires t < |listing| && i < |listing[t]| && Lookup(index, listing[t][i].path, t).pinned
    ensures listing[t][i].path !in Paths(found)
  {
    var crawled := Crawled(listing, index, |listing|);
    CrawledAre(listing, index, |listing|);
    forall f | 0 <= f < |found| ensures found[f].entry.path != listing[t][i].path {
      var x := crawled[order[f]];
      assert x in crawled && x.entry == found[f].entry;
      assert FromTier(listing, index, x.tier, |listing[x.tier]|, x);
      var j :| 0 <= j < |listing[x.tier]| && FoundAt(listing, index, x, j);
      assert x.tier != t || j != i;
    }
  }

  /**
   * After a pass every listed file has an entry naming the one tier that holds it. A
   * pinned file, moreover, is where it was with the entry it had.
   */
  lemma EveryFileIndexed(
      listing: seq<seq<Entry>>, index: map<string, Metadata>, disk: set<(nat, string)>,
      period: real, now: int, quotas: seq<nat>, outcome: string -> Outcome,
      found: seq<Found>, order: seq<nat>, p: Plan, s: State, t: nat, i: nat)
    requires Passed(listing, index, disk, period, now, quotas, outcome, found, order, p, s)
    requires t < |listing| && i < |listing[t]|
    ensures var k, after := listing[t][i].path, UpdateAll(s.index, p.paths, s.metadata, |p.paths|);
      && k in after
      && (forall u :: (u, k) in s.disk <==> u == after[k].tierPath)
      && (Lookup(index, k, t).pinned ==> k in index && after[k] == index[k] && after[k].tierPath == t)
  {
    var k := listing[t][i].path;
    var s0 := StartOf(found, UsageOf(listing), disk, index);
    if Lookup(index, k, t).pinned {
      PinnedNotSelected(listing, index, period, now, found, order, t, i);
      OutsidersKept(p, s0, s, k);
    } else {
      var f := SelectedHolds(listing, index, period, now, found, order, t, i);
      SelectedDistinct(found, listing, index, period, now, order);
      EntriesNameHolders(p, s0, s, f);
    }
  }

  /**
   * Where a listed, unpinned file ends: in the tier first fit chose, unless it fits
   * nowhere, is there already, is open, or its copy fails; then it stays.
   */
  lemma EveryFilePlaced(
      listing: seq<seq<Entry>>, index: map<string, Metadata>, disk: set<(nat, string)>,
      period: real, now: int, quotas: seq<nat>, outcome: string -> Outcome,
      found: seq<Found>, order: seq<nat>, p: Plan, s: State, t: nat, i: nat) returns (f: nat)
    requires Passed(listing, index, disk, period, now, quotas, outcome, found, order, p, s)
    requires t < |listing| && i < |listing[t]| && !Lookup(index, listing[t][i].path, t).pinned
    ensures f < |found| && found[f].entry == listing[t][i]
    ensures var k, chosen := listing[t][i].path, TierFor(Sizes(found), quotas, f);
      var home := if chosen < |quotas| && outcome(k) == Moves then chosen else t;
      forall u :: (u, k) in s.disk <==> u == home
  {
    f := SelectedHolds(listing, index, period, now, found, order, t, i);
    assert p.paths[f] == listing[t][i].path && p.target[f] == TierFor(Sizes(found), quotas, f);
    assert p.outcome[f] == outcome(p.paths[f]) && p.origin[f] == t;
  }

  lemma MovingKeepsUpdate(m: Metadata, aged: Metadata, after: Metadata, period: real, age: nat)
    requires PopularityUpdated(m, aged, period, age) && after == aged.(tierPath := after.tierPath)
    ensures PopularityUpdated(m, after, period, age)
  {
  }

  lemma FoundIsAged(
      listing: seq<seq<Entry>>, index: map<string, Metadata>, period: real, now: int,
      found: seq<Found>, order: seq<nat>, f: nat)
    requires DistinctListing(listing) && Selected(found, listing, index, period, now, order) && f < |found|
    ensures found[f].entry.ctime <= now
    ensures found[f].metadata
         == Aged(Lookup(index, found[f].entry.path, found[f].tier), period, now - found[f].entry.ctime)
  {
    var crawled := Crawled(listing, index, |listing|);
    CrawledAre(listing, index, |listing|);
    var x := crawled[order[f]];
    assert x in crawled && FromTier(listing, index, x.tier, |listing[x.tier]|, x);
  }

  /** The entry of a selected file after a pass: its metadata from the sort on, but for the tier. */
  lemma EntryOfSelected(
      listing: seq<seq<Entry>>, index: map<string, Metadata>, disk: set<(nat, string)>,
      period: real, now: int, quotas: seq<nat>, outcome: string -> Outcome,
      found: seq<Found>, order: seq<nat>, p: Plan, s: State, t: nat, i: nat) returns (f: nat, after: Metadata)
    requires Passed(listing, index, disk, period, now, quotas, outcome, found, order, p, s)
    requires t < |listing| && i < |listing[t]| && !Lookup(index, listing[t][i].path, t).pinned
    ensures f < |found| && found[f].entry == listing[t][i] && found[f].tier == t
    ensures after == found[f].metadata.(tierPath := after.tierPath)
    ensures var entries := UpdateAll(s.index, p.paths, s.metadata, |p.paths|);
      listing[t][i].path in entries && entries[listing[t][i].path] == after
  {
    f := SelectedHolds(listing, index, period, now, found, order, t, i);
    SelectedDistinct(found, listing, index, period, now, order);
    EntriesNameHolders(p, StartOf(found, UsageOf(listing), disk, index), s, f);
    after := found[f].metadata.(tierPath := p.FinalTier(f));
  }

  /**
   * After a pass the entry of every unpinned listed file has its access count cleared and the mean of
   * its old popularity and of the hourly rate at which it was accessed; a new file counts as never
   * accessed and of average popularity.
   */
  lemma EveryFileAged(
      listing: seq<seq<Entry>>, index: map<string, Metadata>, disk: set<(nat, string)>,
      period: real, now: int, quotas: seq<nat>, outcome: string -> Outcome,
      found: seq<Found>, order: seq<nat>, p: Plan, s: State, t: nat, i: nat)
    returns (before: Metadata, after: Metadata, age: nat)
    requires Passed(listing, index, disk, period, now, quotas, outcome, found, order, p, s)
    requires t < |listing| && i < |listing[t]| && !Lookup(index, listing[t][i].path, t).pinned
    ensures before == Lookup(index, listing[t][i].path, t) && age == now - listing[t][i].ctime
    ensures var k, entries := listing[t][i].path, UpdateAll(s.index, p.paths, s.metadata, |p.paths|);
      k in entries && entries[k] == after
    ensures PopularityUpdated(before, after, period, age)
  {
    var f;
    f, after := EntryOfSelected(listing, index, disk, period, now, quotas, outcome, found, order, p, s, t, i);
    before, age := UpdatedOf(listing, index, period, now, found, order, f, after);
  }

  lemma UpdatedOf(
      listing: seq<seq<Entry>>, index: map<string, Metadata>, period: real, now: int,
      found: seq<Found>, order: seq<nat>, f: nat, after: Metadata) returns (before: Metadata, age: nat)
    requires DistinctListing(listing) && Selected(found, listing, index, period, now, order) && f < |found|
    requires after == found[f].metadata.(tierPath := after.tierPath)
    ensures before == Lookup(index, found[f].entry.path, found[f].tier) && age == now - found[f].entry.ctime
    ensures PopularityUpdated(before, after, period, age)
  {
    FoundIsAged(listing, index, period, now, found, order, f);
    before, age := Lookup(index, found[f].entry.path, found[f].tier), now - found[f].entry.ctime;
    AgedIsUpdated(before, period, age);
    MovingKeepsUpdate(before, found[f].metadata, after, period, age);
  }

  /** One selected file goes before another: more popular by now, or as popular and used later. */
  predicate MoreWanted(a: Found, b: Found) {
    || a.metadata.popularity > b.metadata.popularity
    || (a.metadata.popularity == b.metadata.popularity && a.entry.sec > b.entry.sec)
    || (a.metadata.popularity == b.metadata.popularity && a.entry.sec == b.entry.sec && a.entry.usec > b.entry.usec)
  }

  /** The selected files are in that order, and a file that gets a worse tier than a later one is larger. */
  lemma PriorityInPass(
      listing: seq<seq<Entry>>, index: map<string, Metadata>, disk: set<(nat, string)>,
      period: real, now: int, quotas: seq<nat>, outcome: string -> Outcome,
      found: seq<Found>, order: seq<nat>, p: Plan, s: State, f: nat, g: nat)
    requires Passed(listing, index, disk, period, now, quotas, outcome, found, order, p, s)
    requires f < |found| && g < |found|
    ensures found[f].metadata.popularity > found[g].metadata.popularity ==> f < g
    ensures MoreWanted(found[f], found[g]) ==> f < g
    ensures MoreWanted(found[f], found[g]) && p.target[g] < p.target[f] ==>
      found[g].entry.size < found[f].entry.size
  {
    var aged := AgedAll(Crawled(listing, index, |listing|), period, now);
    SortedByPopularityThenTime(RanksOf(aged), order, f, g);
    if MoreWanted(found[f], found[g]) && p.target[g] < p.target[f] {
      LaterTierMeansLarger(Sizes(found), quotas, f, g);
    }
  }

  /** All the bytes the crawl sees. */
  function CrawledBytes(listing: seq<seq<Entry>>): int {
    SumInt(UsageOf(listing))
  }

  /** After a pass the tiers' usages add up to all the listed bytes. */
  lemma TotalFromListing(
      listing: seq<seq<Entry>>, index: map<string, Metadata>, disk: set<(nat, string)>,
      period: real, now: int, quotas: seq<nat>, outcome: string -> Outcome,
      found: seq<Found>, order: seq<nat>, p: Plan, s: State)
    requires Passed(listing, index, disk, period, now, quotas, outcome, found, order, p, s)
    ensures SumInt(s.usage) == CrawledBytes(listing)
  {
    var s0 := StartOf(found, UsageOf(listing), disk, index);
    StartIsInitial(found, listing, index, disk, period, now, order, quotas, outcome);
    TotalAtStart(p, s0);
    TotalAfterPass(p, s0, s);
  }

  /**
   * Each tier's usage is at most its quota, its pinned bytes and the bytes of the files left in it
   * without being assigned to it, and exceeds the quota exactly when pinned bytes and strays exceed
   * the room the placement left there together with the bytes that did not arrive.
   */
  lemma UsageFromListing(
      listing: seq<seq<Entry>>, index: map<string, Metadata>, disk: set<(nat, string)>,
      period: real, now: int, quotas: seq<nat>, outcome: string -> Outcome,
      found: seq<Found>, order: seq<nat>, p: Plan, s: State, t: nat)
    requires Passed(listing, index, disk, period, now, quotas, outcome, found, order, p, s)
    requires t < |listing|
    ensures var pinned := PinnedBytes(listing[t], index, t, |listing[t]|);
      && s.usage[t] <= quotas[t] + pinned + Share(p.sizes, Strays(p), t)
      && (s.usage[t] > quotas[t] <==> Overfills(p, quotas, pinned, t))
  {
    UsageAfterPass(p, StartOf(found, UsageOf(listing), disk, index), s, quotas, t);
    assert p.pinned[t] == PinnedBytes(listing[t], index, t, |listing[t]|);
  }

  function TwoFiles(a: nat, b: nat): seq<seq<Entry>> {
    [[Entry("p", a, 0, 0, 0), Entry("f", b, 0, 0, 0)]]
  }

  const ONE_PINNED: map<string, Metadata> := map["p" := Transfer.Metadata(0, 0, 0.0, true)]

  function TheOther(b: nat): seq<Found> {
    [Found(Entry("f", b, 0, 0, 0), 0, Lookup(ONE_PINNED, "f", 0))]
  }

  lemma {:induction false} TwoFilesSelected(a: nat, b: nat)
    ensures Selected(TheOther(b), TwoFiles(a, b), ONE_PINNED, 0.0, 0, [0])
    ensures PinnedBytes(TwoFiles(a, b)[0], ONE_PINNED, 0, 2) == a
    ensures TotalBytes(TwoFiles(a, b)[0], 2) == a + b
  {
    var listing, found := TwoFiles(a, b), TheOther(b);
    assert Unpinned(listing[0], ONE_PINNED, 0, 1) == [];
    assert Unpinned(listing[0], ONE_PINNED, 0, 2) == found;
    assert Crawled(listing, ONE_PINNED, 0) == [];
    assert Crawled(listing, ONE_PINNED, 1) == found;
    assert AgedAll(found, 0.0, 0) == found;
    assert [0][0] in [0];
    assert TotalBytes(listing[0], 0) == 0 && TotalBytes(listing[0], 1) == a;
    assert Lookup(ONE_PINNED, "p", 0).pinned && !Lookup(ONE_PINNED, "f", 0).pinned;
    assert PinnedBytes(listing[0], ONE_PINNED, 0, 0) == 0;
    assert PinnedBytes(listing[0], ONE_PINNED, 0, 1) == a;
  }

  /** A tier that one file fills to its quota ends above it by all its pinned bytes. */
  lemma {:induction false} PinnedOverQuota(a: nat, b: nat) returns (p: Plan, s: State)
    ensures Passed(TwoFiles(a, b), ONE_PINNED, {(0, "p"), (0, "f")}, 0.0, 0, [b], _ => Moves, TheOther(b), [0], p, s)
    ensures s.usage == [b + a]
  {
    var listing, found, disk, outcome := TwoFiles(a, b), TheOther(b), {(0, "p"), (0, "f")}, (_: string) => Moves;
    TwoFilesSelected(a, b);
    p := PlanOf(found, [b], PinnedOf(listing, ONE_PINNED), outcome);
    s := StartOf(found, UsageOf(listing), disk, ONE_PINNED);
    StartIsInitial(found, listing, ONE_PINNED, disk, 0.0, 0, [0], [b], outcome);
    assert TierFor(Sizes(found), [b], 0) == 0;
    StaysAsItIs(p, s);
  }
}
