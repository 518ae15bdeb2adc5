/** The transfer plan and starting state that the crawl, the sort and the placement give. */
module PassPlan {
  import opened Sums
  import opened Placement
  import opened FileOrder
  import opened Transfer
  import opened Crawl
  import Popularity

  /** Metadata after File::calc_popularity. */
  function Aged(m: Metadata, period: real, age: nat): Metadata {
    if period <= 0.0 then m
    else m.(popularity := Popularity.Next(m.popularity, m.accessCount, period, age as real), accessCount := 0)
  }

  /**
   * A pass over a positive period clears the access count and replaces the popularity by the mean of
   * the old one and the hourly rate of the accesses counted; over no period it changes nothing.
   */
  lemma AgedMeans(m: Metadata, period: real, age: nat)
    ensures period > 0.0 ==>
      && Aged(m, period, age).accessCount == 0
      && Aged(m, period, age).popularity
           == Popularity.Mean(Popularity.Weight(period, age as real), m.popularity,
                              Popularity.Hourly(m.accessCount, period))
    ensures Aged(m, period, age).tierPath == m.tierPath && Aged(m, period, age).pinned == m.pinned
    ensures period <= 0.0 ==> Aged(m, period, age) == m
  {
    if period > 0.0 {
      Popularity.NextIsWeightedMean(m.popularity, m.accessCount, period, age as real);
    }
  }

  /** Popularity and access count after a pass, for a file whose entry was m before. */
  function UpdatedPopularity(m: Metadata, period: real, age: nat): (real, nat) {
    if period > 0.0 then
      (Popularity.Mean(Popularity.Weight(period, age as real), m.popularity,
                       Popularity.Hourly(m.accessCount, period)), 0)
    else (m.popularity, m.accessCount)
  }

  ghost predicate PopularityUpdated(m: Metadata, after: Metadata, period: real, age: nat) {
    (after.popularity, after.accessCount) == UpdatedPopularity(m, period, age) && after.pinned == m.pinned
  }

  lemma AgedIsUpdated(m: Metadata, period: real, age: nat)
    ensures PopularityUpdated(m, Aged(m, period, age), period, age)
  {
    AgedMeans(m, period, age);
  }

  ghost predicate Older(found: seq<Found>, now: int) {
    forall i :: 0 <= i < |found| ==> found[i].entry.ctime <= now
  }

  function AgedAll(found: seq<Found>, period: real, now: int): (r: seq<Found>)
    requires forall i :: 0 <= i < |found| ==> found[i].entry.ctime <= now
    ensures |r| == |found|
    ensures forall i :: 0 <= i < |r| ==>
      r[i] == found[i].(metadata := Aged(found[i].metadata, period, now - found[i].entry.ctime))
  {
    seq(|found|, i requires 0 <= i < |found| =>
      found[i].(metadata := Aged(found[i].metadata, period, now - found[i].entry.ctime)))
  }

  function RanksOf(found: seq<Found>): (r: seq<Rank>)
    ensures |r| == |found|
    ensures forall i :: 0 <= i < |r| ==>
      r[i] == Rank(found[i].metadata.popularity, found[i].entry.sec, found[i].entry.usec)
  {
    seq(|found|, i requires 0 <= i < |found| =>
      Rank(found[i].metadata.popularity, found[i].entry.sec, found[i].entry.usec))
  }

  function Paths(found: seq<Found>): (r: seq<string>)
    ensures |r| == |found| && forall i :: 0 <= i < |r| ==> r[i] == found[i].entry.path
  {
    seq(|found|, i requires 0 <= i < |found| => found[i].entry.path)
  }

  function Metas(found: seq<Found>): (r: seq<Metadata>)
    ensures |r| == |found| && forall i :: 0 <= i < |r| ==> r[i] == found[i].metadata
  {
    seq(|found|, i requires 0 <= i < |found| => found[i].metadata)
  }

  /** The pinned bytes of every tier. */
  function PinnedOf(listing: seq<seq<Entry>>, index: map<string, Metadata>): (r: seq<nat>)
    ensures |r| == |listing|
    ensures forall t :: 0 <= t < |r| ==> r[t] == PinnedBytes(listing[t], index, t, |listing[t]|)
  {
    seq(|listing|, t requires 0 <= t < |listing| => PinnedBytes(listing[t], index, t, |listing[t]|))
  }

  function UsageOf(listing: seq<seq<Entry>>): (r: seq<int>)
    ensures |r| == |listing| && forall t :: 0 <= t < |r| ==> r[t] == TotalBytes(listing[t], |listing[t]|)
  {
    seq(|listing|, t requires 0 <= t < |listing| => TotalBytes(listing[t], |listing[t]|))
  }

  function PlanOf(found: seq<Found>, quotas: seq<nat>, pinned: seq<nat>, outcome: string -> Outcome): Plan {
    Plan(Sizes(found), Paths(found), Tiers(found), Assignment(Sizes(found), quotas),
         seq(|found|, i requires 0 <= i < |found| => outcome(found[i].entry.path)), pinned)
  }

  function StartOf(found: seq<Found>, usage: seq<int>, disk: set<(nat, string)>, index: map<string, Metadata>): State {
    State(Tiers(found), Metas(found), usage, disk, index,
          seq(|usage|, _ => 0), seq(|usage|, _ => Ready))
  }

  /** Aging and sorting rearrange the crawled files, so every tier's share stays. */
  lemma ArrangedShare(crawled: seq<Found>, period: real, now: int, order: seq<nat>, t: nat)
    requires Older(crawled, now) && Permutes(order, |crawled|)
    ensures var found := Arrange(AgedAll(crawled, period, now), order);
            Share(Sizes(found), Tiers(found), t) == Share(Sizes(crawled), Tiers(crawled), t)
  {
    var found := Arrange(AgedAll(crawled, period, now), order);
    assert Sizes(found) == Arrange(Sizes(crawled), order);
    assert Tiers(found) == Arrange(Tiers(crawled), order);
    ShareArranged(Sizes(crawled), Tiers(crawled), order, t);
  }

  /** The backend files are the listed ones, as far as listed paths go. */
  ghost predicate DiskMatches(disk: set<(nat, string)>, listing: seq<seq<Entry>>) {
    forall t, i, u :: 0 <= t < |listing| && 0 <= i < |listing[t]| ==>
      ((u, listing[t][i].path) in disk <==> u == t)
  }

  /** Every stored entry of a listed path names the tier the path is listed in. */
  ghost predicate IndexMatches(index: map<string, Metadata>, listing: seq<seq<Entry>>) {
    forall t, i :: 0 <= t < |listing| && 0 <= i < |listing[t]| && listing[t][i].path in index ==>
      index[listing[t][i].path].tierPath == t
  }

  /** What is known of the sorted list of files that a pass works on. */
  ghost predicate Selected(
      found: seq<Found>, listing: seq<seq<Entry>>, index: map<string, Metadata>,
      period: real, now: int, order: seq<nat>)
  {
    var crawled := Crawled(listing, index, |listing|);
    && Older(crawled, now)
    && Sorts(RanksOf(AgedAll(crawled, period, now)), order)
    && found == Arrange(AgedAll(crawled, period, now), order)
  }

  lemma SelectedDistinct(
      found: seq<Found>, listing: seq<seq<Entry>>, index: map<string, Metadata>,
      period: real, now: int, order: seq<nat>)
    requires DistinctListing(listing) && Selected(found, listing, index, period, now, order)
    ensures DistinctPaths(found)
    ensures forall f :: 0 <= f < |found| ==>
      && found[f].tier < |listing|
      && exists i :: 0 <= i < |listing[found[f].tier]| && listing[found[f].tier][i] == found[f].entry
    ensures IndexMatches(index, listing) ==>
      forall f :: 0 <= f < |found| ==> found[f].metadata.tierPath == found[f].tier
  {
    var crawled := Crawled(listing, index, |listing|);
    CrawledAre(listing, index, |listing|);
    forall f | 0 <= f < |found|
      ensures found[f].tier < |listing|
      ensures exists i :: 0 <= i < |listing[found[f].tier]| && listing[found[f].tier][i] == found[f].entry
      ensures IndexMatches(index, listing) ==> found[f].metadata.tierPath == found[f].tier
    {
      var x := crawled[order[f]];
      assert x in crawled && found[f].entry == x.entry && found[f].tier == x.tier;
      assert FromTier(listing, index, x.tier, |listing[x.tier]|, x);
      var i :| 0 <= i < |listing[x.tier]| && FoundAt(listing, index, x, i);
      assert listing[found[f].tier][i] == found[f].entry;
    }
    forall k, l | 0 <= k < l < |found| ensures found[k].entry.path != found[l].entry.path {
      assert order[k] != order[l];
      assert found[k].entry == crawled[order[k]].entry && found[l].entry == crawled[order[l]].entry;
    }
  }

  /** The pass starts as Transfer.Initial demands. */
  lemma StartIsInitial(
      found: seq<Found>, listing: seq<seq<Entry>>, index: map<string, Metadata>, disk: set<(nat, string)>,
      period: real, now: int, order: seq<nat>, quotas: seq<nat>, outcome: string -> Outcome)
    requires DistinctListing(listing) && Selected(found, listing, index, period, now, order)
    requires DiskMatches(disk, listing) && |quotas| == |listing|
    ensures Initial(PlanOf(found, quotas, PinnedOf(listing, index), outcome),
                    StartOf(found, UsageOf(listing), disk, index))
  {
    SelectedDistinct(found, listing, index, period, now, order);
    var p := PlanOf(found, quotas, PinnedOf(listing, index), outcome);
    var s := StartOf(found, UsageOf(listing), disk, index);
    forall t | 0 <= t < |listing| ensures s.usage[t] == p.pinned[t] + Share(p.sizes, p.origin, t) {
      CrawlUsage(listing, index, |listing|, t);
      ArrangedShare(Crawled(listing, index, |listing|), period, now, order, t);
    }
    forall f, t | 0 <= f < |p.sizes| ensures (t, p.paths[f]) in s.disk <==> t == p.origin[f] {
      var i :| 0 <= i < |listing[found[f].tier]| && listing[found[f].tier][i] == found[f].entry;
      assert listing[found[f].tier][i].path == p.paths[f];
    }
  }
}
