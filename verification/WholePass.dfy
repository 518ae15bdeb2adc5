/** What tier() does to the database and the backend disks, told on the objects themselves. */
module WholePass {
  import opened Sums
  import opened Transfer
  import opened PassResult
  import opened Crawl
  import opened PassPlan
  import opened PassTheorem
  import opened TieringPass

  /** Every listed file has an entry naming the one tier that holds it; a pinned one has kept both. */
  ghost predicate Indexed(
      listing: seq<seq<Entry>>, before: map<string, Metadata>,
      after: map<string, Metadata>, present: set<(nat, string)>)
  {
    forall t: nat, i: nat :: t < |listing| && i < |listing[t]| ==>
      FileIndexed(listing[t][i].path, t, before, after, present)
  }

  ghost predicate FileIndexed(
      k: string, t: nat, before: map<string, Metadata>, after: map<string, Metadata>, present: set<(nat, string)>)
  {
    && k in after
    && (forall u :: (u, k) in present <==> u == after[k].tierPath)
    && (Lookup(before, k, t).pinned ==> k in before && after[k] == before[k] && after[k].tierPath == t)
  }

  /** The entry m of a file has become `after`, age seconds after its last change. */
  ghost predicate EntryUpdated(m: Metadata, after: Metadata, period: real, age: nat) {
    PopularityUpdated(m, after, period, age)
  }

  /** The unpinned file e of tier t has an entry with its popularity updated and its accesses cleared. */
  ghost predicate FileAged(
      e: Entry, t: nat, before: map<string, Metadata>, after: map<string, Metadata>, period: real, now: int)
  {
    exists m, updated, age: nat ::
      && EntryUpdated(m, updated, period, age)
      && m == Lookup(before, e.path, t) && e.path in after && updated == after[e.path] && age == now - e.ctime
  }

  ghost predicate AllAged(
      listing: seq<seq<Entry>>, before: map<string, Metadata>, after: map<string, Metadata>, period: real, now: int)
  {
    forall t: nat, i: nat ::
      t < |listing| && i < |listing[t]| && !Lookup(before, listing[t][i].path, t).pinned ==>
      FileAged(listing[t][i], t, before, after, period, now)
  }

  /** The same for the time from one pass, begun at last, to the next. */
  ghost predicate AgedSince(
      listing: seq<seq<Entry>>, before: map<string, Metadata>, after: map<string, Metadata>,
      last: real, tierTime: real, now: int)
  {
    AllAged(listing, before, after, tierTime - last, now)
  }

  lemma AgedBetween(
      listing: seq<seq<Entry>>, before: map<string, Metadata>, after: map<string, Metadata>,
      period: real, last: real, tierTime: real, now: int)
    requires AllAged(listing, before, after, period, now) && period == tierTime - last
    ensures AgedSince(listing, before, after, last, tierTime, now)
  {
  }

  lemma PassAges(
      listing: seq<seq<Entry>>, index: map<string, Metadata>, disk: set<(nat, string)>,
      period: real, now: int, quotas: seq<nat>, outcome: string -> Outcome,
      found: seq<Found>, order: seq<nat>, p: Plan, s: State)
    requires Passed(listing, index, disk, period, now, quotas, outcome, found, order, p, s)
    ensures AllAged(listing, index, UpdateAll(s.index, p.paths, s.metadata, |p.paths|), period, now)
  {
    var entries := UpdateAll(s.index, p.paths, s.metadata, |p.paths|);
    forall t: nat, i: nat | t < |listing| && i < |listing[t]| && !Lookup(index, listing[t][i].path, t).pinned
      ensures FileAged(listing[t][i], t, index, entries, period, now)
    {
      var before, after, age :=
        EveryFileAged(listing, index, disk, period, now, quotas, outcome, found, order, p, s, t, i);
      assert EntryUpdated(before, after, period, age);
    }
  }

  predicate Listed(listing: seq<seq<Entry>>, k: string) {
    exists t, i :: 0 <= t < |listing| && 0 <= i < |listing[t]| && listing[t][i].path == k
  }

  lemma PassIndexes(
      listing: seq<seq<Entry>>, index: map<string, Metadata>, disk: set<(nat, string)>,
      period: real, now: int, quotas: seq<nat>, outcome: string -> Outcome,
      found: seq<Found>, order: seq<nat>, p: Plan, s: State)
    requires Passed(listing, index, disk, period, now, quotas, outcome, found, order, p, s)
    ensures Indexed(listing, index, UpdateAll(s.index, p.paths, s.metadata, |p.paths|), s.disk)
  {
    var after := UpdateAll(s.index, p.paths, s.metadata, |p.paths|);
    forall t: nat, i: nat | t < |listing| && i < |listing[t]|
      ensures FileIndexed(listing[t][i].path, t, index, after, s.disk)
    {
      EveryFileIndexed(listing, index, disk, period, now, quotas, outcome, found, order, p, s, t, i);
    }
  }

  lemma PassKeepsOthers(
      listing: seq<seq<Entry>>, index: map<string, Metadata>, disk: set<(nat, string)>,
      period: real, now: int, quotas: seq<nat>, outcome: string -> Outcome,
      found: seq<Found>, order: seq<nat>, p: Plan, s: State, k: string)
    requires Passed(listing, index, disk, period, now, quotas, outcome, found, order, p, s)
    requires !Listed(listing, k)
    ensures SameAt(UpdateAll(s.index, p.paths, s.metadata, |p.paths|), index, k)
    ensures forall t :: (t, k) in s.disk <==> (t, k) in disk
  {
    SelectedDistinct(found, listing, index, period, now, order);
    OutsidersKept(p, StartOf(found, UsageOf(listing), disk, index), s, k);
  }

  /** Entries and backend files of paths not listed are as they were. */
  ghost predicate OthersKept(
      listing: seq<seq<Entry>>, before: map<string, Metadata>, after: map<string, Metadata>,
      present: set<(nat, string)>, now: set<(nat, string)>)
  {
    forall k :: !Listed(listing, k) ==> SameAt(after, before, k) && forall t :: (t, k) in now <==> (t, k) in present
  }

  lemma PassKeepsAllOthers(
      listing: seq<seq<Entry>>, index: map<string, Metadata>, disk: set<(nat, string)>,
      period: real, now: int, quotas: seq<nat>, outcome: string -> Outcome,
      found: seq<Found>, order: seq<nat>, p: Plan, s: State)
    requires Passed(listing, index, disk, period, now, quotas, outcome, found, order, p, s)
    ensures OthersKept(listing, index, UpdateAll(s.index, p.paths, s.metadata, |p.paths|), disk, s.disk)
  {
    forall k | !Listed(listing, k)
      ensures SameAt(UpdateAll(s.index, p.paths, s.metadata, |p.paths|), index, k)
      ensures forall t :: (t, k) in s.disk <==> (t, k) in disk
    {
      PassKeepsOthers(listing, index, disk, period, now, quotas, outcome, found, order, p, s, k);
    }
  }

  lemma PassLeaves(
      listing: seq<seq<Entry>>, index: map<string, Metadata>, disk: set<(nat, string)>,
      period: real, now: int, quotas: seq<nat>, outcome: string -> Outcome,
      found: seq<Found>, order: seq<nat>, p: Plan, s: State, last: real, tierTime: real)
    requires Passed(listing, index, disk, period, now, quotas, outcome, found, order, p, s)
    requires period == tierTime - last
    ensures var entries := UpdateAll(s.index, p.paths, s.metadata, |p.paths|);
      && Indexed(listing, index, entries, s.disk)
      && AgedSince(listing, index, entries, last, tierTime, now)
      && OthersKept(listing, index, entries, disk, s.disk)
    ensures SumInt(s.usage) == CrawledBytes(listing)
  {
    PassIndexes(listing, index, disk, period, now, quotas, outcome, found, order, p, s);
    PassAges(listing, index, disk, period, now, quotas, outcome, found, order, p, s);
    AgedBetween(listing, index, UpdateAll(s.index, p.paths, s.metadata, |p.paths|), period, last, tierTime, now);
    TotalFromListing(listing, index, disk, period, now, quotas, outcome, found, order, p, s);
    PassKeepsAllOthers(listing, index, disk, period, now, quotas, outcome, found, order, p, s);
  }

  /**
   * One pass, from a listing of distinct paths and an index that names the right tiers: afterwards
   * the database and the disks agree on every listed file, popularities are updated, everything else
   * is as it was, and the usage counters hold exactly the listed bytes.
   */
  method TierOnce(engine: TierEngine, listing: seq<seq<Entry>>, tierTime: real, now: int, outcome: string -> Outcome)
    returns (ghost usage: seq<int>)
    requires engine.AtRest(engine.db.entries, engine.disk.present) && |listing| == |engine.tiers|
    requires Older(Crawled(listing, engine.db.entries, |listing|), now)
    requires DistinctListing(listing) && DiskMatches(engine.disk.present, listing)
    requires IndexMatches(engine.db.entries, listing)
    modifies engine, engine.tiers, engine.db, engine.disk
    ensures engine.AtRest(engine.db.entries, engine.disk.present) && engine.lastTierTime == tierTime
    ensures Indexed(listing, old(engine.db.entries), engine.db.entries, engine.disk.present)
    ensures AgedSince(listing, old(engine.db.entries), engine.db.entries, old(engine.lastTierTime), tierTime, now)
    ensures OthersKept(listing, old(engine.db.entries), engine.db.entries,
                       old(engine.disk.present), engine.disk.present)
    ensures engine.UsageHolds(usage) && SumInt(usage) == CrawledBytes(listing)
  {
    ghost var index, disk, quotas := engine.db.entries, engine.disk.present, engine.Quotas();
    ghost var last := engine.lastTierTime;
    ghost var found, period, order, p, s0, s := engine.RunPass(listing, tierTime, now, outcome, index, disk);
    usage := s.usage;
    PassLeaves(listing, index, disk, period, now, quotas, outcome, found, order, p, s, last, tierTime);
  }
}
