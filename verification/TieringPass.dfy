/**
 * The objects of a tiering pass: File, Tier, the database, the backend disks and
 * TierEngineTiering. Each method is proved against the functions of Crawl, FileOrder,
 * Placement and Transfer.
 */
module TieringPass {
  import opened Placement
  import opened FileOrder
  import opened Transfer
  import opened PassResult
  import opened Crawl
  import opened PassPlan
  import Popularity

  /** The RocksDB database of path metadata. */
  class Database {
    var entries: map<string, Metadata>

    constructor ()
      ensures entries == map[]
    {
      entries := map[];
    }

    method Put(key: string, value: Metadata)
      modifies this
      ensures entries == old(entries)[key := value]
    {
      entries := entries[key := value];
    }
  }

  /** The backend file systems: which relative path is present in which tier. */
  class Disk {
    var present: set<(nat, string)>

    constructor ()
      ensures present == {}
    {
      present := {};
    }

    /** A successful Tier::move_file without a conflict. */
    method Move(path: string, from: nat, to: nat)
      modifies this
      ensures present == old(present) - {(from, path)} + {(to, path)}
    {
      present := present - {(from, path)} + {(to, path)};
    }
  }

  class Tier {
    const number: nat
    const quota: nat
    var usage: int
    var simUsage: nat
    var incomingFiles: seq<File>

    constructor (number: nat, quota: nat)
      ensures this.number == number && this.quota == quota
      ensures usage == 0 && simUsage == 0 && incomingFiles == []
    {
      this.number, this.quota := number, quota;
      usage, simUsage, incomingFiles := 0, 0, [];
    }

    predicate FullTest(size: nat)
      reads this
    {
      Full(simUsage, quota, size)
    }

    method AddFileSize(size: nat)
      modifies this`usage
      ensures usage == old(usage) + size
    {
      usage := usage + size;
    }

    method SubtractFileSize(size: nat)
      modifies this`usage
      ensures usage == old(usage) - size
    {
      usage := usage - size;
    }

    method AddFileSizeSim(size: nat)
      modifies this`simUsage
      ensures simUsage == old(simUsage) + size
    {
      simUsage := simUsage + size;
    }

    method EnqueueFilePtr(file: File)
      modifies this`incomingFiles
      ensures incomingFiles == old(incomingFiles) + [file]
    {
      incomingFiles := incomingFiles + [file];
    }
  }

  class File {
    const relativePath: string
    const size: nat
    const sec: int
    const usec: int
    const ctime: int
    var tierPtr: Tier
    var metadata: Metadata

    constructor (e: Entry, db: Database, tier: Tier)
      ensures relativePath == e.path && size == e.size && sec == e.sec && usec == e.usec && ctime == e.ctime
      ensures tierPtr == tier && metadata == Lookup(db.entries, e.path, tier.number)
    {
      relativePath, size, sec, usec, ctime := e.path, e.size, e.sec, e.usec, e.ctime;
      tierPtr := tier;
      metadata := Lookup(db.entries, e.path, tier.number);
    }

    function Rank(): Rank
      reads this
    {
      FileOrder.Rank(metadata.popularity, sec, usec)
    }

    method CalcPopularity(period: real, now: int)
      requires ctime <= now
      modifies this`metadata
      ensures metadata == Aged(old(metadata), period, now - ctime)
      ensures PopularityUpdated(old(metadata), metadata, period, now - ctime)
    {
      if period > 0.0 {
        metadata := metadata.(
          popularity := Popularity.Next(metadata.popularity, metadata.accessCount, period, (now - ctime) as real),
          accessCount := 0);
      }
      AgedIsUpdated(old(metadata), period, now - ctime);
    }
  }


  ghost predicate Distinct(files: seq<File>) {
    forall i, j :: 0 <= i < j < |files| ==> files[i] != files[j]
  }

  /** The File objects carry what the crawl found. */
  ghost predicate Mirrors(files: seq<File>, found: seq<Found>, tiers: seq<Tier>)
    reads files
  {
    && |files| == |found|
    && (forall i :: 0 <= i < |files| ==>
          && files[i].relativePath == found[i].entry.path
          && files[i].size == found[i].entry.size
          && files[i].sec == found[i].entry.sec
          && files[i].usec == found[i].entry.usec
          && files[i].ctime == found[i].entry.ctime
          && found[i].tier < |tiers|
          && files[i].tierPtr == tiers[found[i].tier]
          && files[i].metadata == found[i].metadata)
  }

  class TierEngine {
    const tiers: seq<Tier>
    const db: Database
    const disk: Disk
    var files: seq<File>
    var lastTierTime: real

    ghost predicate Numbered() {
      forall k :: 0 <= k < |tiers| ==> tiers[k].number == k
    }

    constructor (tiers: seq<Tier>, db: Database, disk: Disk)
      requires forall k :: 0 <= k < |tiers| ==> tiers[k].number == k
      ensures this.tiers == tiers && this.db == db && this.disk == disk
      ensures Numbered() && files == []
    {
      this.tiers, this.db, this.disk := tiers, db, disk;
      files, lastTierTime := [], 0.0;
    }

    // -------------------------------------------------------------- crawl

    /** crawl with emplace_file over one tier; the entries stand for the directory walk. */
    method CrawlTier(entries: seq<Entry>, t: nat, ghost before: seq<Found>) returns (usage: nat)
      requires Numbered() && t < |tiers|
      requires Distinct(files) && Mirrors(files, before, tiers)
      modifies this`files
      ensures usage == TotalBytes(entries, |entries|)
      ensures Distinct(files)
      ensures Mirrors(files, before + Unpinned(entries, db.entries, t, |entries|), tiers)
      ensures |old(files)| <= |files| && files[..|old(files)|] == old(files)
      ensures forall i :: |old(files)| <= i < |files| ==> fresh(files[i])
    {
      usage := 0;
      for n := 0 to |entries|
        invariant usage == TotalBytes(entries, n)
        invariant Distinct(files)
        invariant Mirrors(files, before + Unpinned(entries, db.entries, t, n), tiers)
        invariant |old(files)| <= |files| && files[..|old(files)|] == old(files)
        invariant forall i :: |old(files)| <= i < |files| ==> fresh(files[i])
        invariant forall i :: 0 <= i < |files| ==> allocated(files[i])
      {
        var f := new File(entries[n], db, tiers[t]);
        usage := usage + f.size;
        if !f.metadata.pinned {
          files := files + [f];
        }
      }
    }

    method LaunchCrawlers(listing: seq<seq<Entry>>)
      requires Numbered() && |listing| == |tiers| && files == []
      modifies this`files, tiers`usage
      ensures Distinct(files) && Mirrors(files, Crawled(listing, db.entries, |listing|), tiers)
      ensures forall i :: 0 <= i < |files| ==> fresh(files[i])
      ensures forall k :: 0 <= k < |tiers| ==> tiers[k].usage == TotalBytes(listing[k], |listing[k]|)
    {
      for n := 0 to |tiers|
        invariant Distinct(files) && Mirrors(files, Crawled(listing, db.entries, n), tiers)
        invariant forall i :: 0 <= i < |files| ==> fresh(files[i])
        invariant forall k :: 0 <= k < n ==> tiers[k].usage == TotalBytes(listing[k], |listing[k]|)
      {
        var usage := CrawlTier(listing[n], n, Crawled(listing, db.entries, n));
        tiers[n].usage := usage;
      }
    }

    method CalcPopularity(tierTime: real, now: int)
      requires Distinct(files) && forall i :: 0 <= i < |files| ==> files[i].ctime <= now
      modifies this`lastTierTime, files
      ensures lastTierTime == tierTime
      ensures forall i :: 0 <= i < |files| ==>
        && files[i].metadata == Aged(old(files[i].metadata), tierTime - old(lastTierTime), now - files[i].ctime)
        && files[i].tierPtr == old(files[i].tierPtr)
    {
      var period := tierTime - lastTierTime;
      lastTierTime := tierTime;
      for n := 0 to |files|
        invariant lastTierTime == tierTime
        invariant forall i :: 0 <= i < n ==>
          files[i].metadata == Aged(old(files[i].metadata), period, now - files[i].ctime)
        invariant forall i :: n <= i < |files| ==> files[i].metadata == old(files[i].metadata)
        invariant forall i :: 0 <= i < |files| ==> files[i].tierPtr == old(files[i].tierPtr)
      {
        files[n].CalcPopularity(period, now);
      }
    }

    function Ranks(): (r: seq<Rank>)
      reads this, files
      ensures |r| == |files| && forall i :: 0 <= i < |r| ==> r[i] == files[i].Rank()
    {
      seq(|files|, i requires 0 <= i < |files| reads this, files => files[i].Rank())
    }

    /** std::sort over files_: only what Sorts promises is known of the arrangement. */
    method Sort() returns (ghost order: seq<nat>)
      modifies this`files
      ensures Sorts(old(Ranks()), order) && files == Arrange(old(files), order)
    {
      var o := SortedOrder(Ranks());
      files := Arrange(files, o);
      order := o;
    }

    // ---------------------------------------------------------- placement

    function FileSizes(): (r: seq<nat>)
      reads this
      ensures |r| == |files| && forall i :: 0 <= i < |r| ==> r[i] == files[i].size
    {
      seq(|files|, i requires 0 <= i < |files| reads this => files[i].size)
    }

    function Quotas(): (r: seq<nat>)
      ensures |r| == |tiers| && forall k :: 0 <= k < |r| ==> r[k] == tiers[k].quota
    {
      seq(|tiers|, k requires 0 <= k < |tiers| => tiers[k].quota)
    }

    /** The number of the tier each file is in. */
    function FileTiers(): (r: seq<nat>)
      reads this, files
      ensures |r| == |files| && forall i :: 0 <= i < |r| ==> r[i] == files[i].tierPtr.number
    {
      seq(|files|, i requires 0 <= i < |files| reads this, files => files[i].tierPtr.number)
    }

    ghost predicate InTiers()
      reads this, files
    {
      forall i :: 0 <= i < |files| ==>
        files[i].tierPtr.number < |tiers| && files[i].tierPtr == tiers[files[i].tierPtr.number]
    }

    /** The File objects with the given numbers. */
    function Pick(q: seq<nat>): (r: seq<File>)
      requires forall i :: 0 <= i < |q| ==> q[i] < |files|
      reads this
      ensures |r| == |q| && forall i :: 0 <= i < |r| ==> r[i] == files[q[i]]
    {
      seq(|q|, i requires 0 <= i < |q| && q[i] < |files| reads this => files[q[i]])
    }

    /** The simulated usage and the queues of all tiers. */
    ghost predicate SimHolds(used: seq<nat>, queues: seq<seq<nat>>)
      reads this, tiers
    {
      && |used| == |queues| == |tiers|
      && (forall k, i :: 0 <= k < |queues| && 0 <= i < |queues[k]| ==> queues[k][i] < |files|)
      && (forall k :: 0 <= k < |tiers| ==>
            tiers[k].simUsage == used[k] && tiers[k].incomingFiles == Pick(queues[k]))
    }

    /** Finds the first tier that is not full, and queues the file unless it is there already. */
    method PlaceFile(n: nat, ghost used: seq<nat>, ghost queues: seq<seq<nat>>)
      requires Numbered() && InTiers() && n < |files| && SimHolds(used, queues)
      modifies tiers
      ensures InTiers() && FileTiers() == old(FileTiers()) && FileSizes() == old(FileSizes())
      ensures var k := FirstFit(used, Quotas(), files[n].size);
        SimHolds(Charge(used, k, files[n].size), Enqueued(queues, k, files[n].tierPtr.number, n))
      ensures forall k :: 0 <= k < |tiers| ==> tiers[k].usage == old(tiers[k].usage)
    {
      var file := files[n];
      var k := 0;
      while k < |tiers| && tiers[k].FullTest(file.size)
        invariant k <= |tiers|
        invariant forall j :: 0 <= j < k ==> Full(used[j], Quotas()[j], file.size)
      {
        k := k + 1;
      }
      FirstFitIs(used, Quotas(), file.size, k);
      if k < |tiers| {
        tiers[k].AddFileSizeSim(file.size);
        if file.tierPtr != tiers[k] {
          tiers[k].EnqueueFilePtr(file);
        }
      }
    }

    method ResetSim()
      requires Numbered()
      modifies tiers
      ensures forall k :: 0 <= k < |tiers| ==>
        && tiers[k].simUsage == 0
        && tiers[k].incomingFiles == old(tiers[k].incomingFiles)
        && tiers[k].usage == old(tiers[k].usage)
    {
      for k := 0 to |tiers|
        invariant forall j :: 0 <= j < k ==> tiers[j].simUsage == 0
        invariant forall j :: 0 <= j < |tiers| ==>
          tiers[j].incomingFiles == old(tiers[j].incomingFiles) && tiers[j].usage == old(tiers[j].usage)
      {
        tiers[k].simUsage := 0;
      }
    }

    /** The simulation has placed the first n files, of the given sizes and in the given tiers. */
    ghost predicate Placed(n: nat, sizes: seq<nat>, at: seq<nat>)
      reads this, files, tiers
    {
      && Numbered() && InTiers() && n <= |files| && sizes == FileSizes() && at == FileTiers()
      && SimHolds(SimAfter(sizes, Quotas(), n), Queues(Assignment(sizes, Quotas()), at, |tiers|, n))
    }

    method PlaceNext(n: nat, ghost sizes: seq<nat>, ghost at: seq<nat>)
      requires n < |files| && Placed(n, sizes, at)
      modifies tiers
      ensures Placed(n + 1, sizes, at)
      ensures forall k :: 0 <= k < |tiers| ==> tiers[k].usage == old(tiers[k].usage)
    {
      PlacingOne(sizes, Quotas(), at, n);
      PlaceFile(n, SimAfter(sizes, Quotas(), n), Queues(Assignment(sizes, Quotas()), at, |tiers|, n));
    }

    method StartSim(ghost sizes: seq<nat>, ghost at: seq<nat>)
      requires Numbered() && InTiers() && sizes == FileSizes() && at == FileTiers()
      requires forall k :: 0 <= k < |tiers| ==> tiers[k].incomingFiles == []
      modifies tiers
      ensures Placed(0, sizes, at)
      ensures forall k :: 0 <= k < |tiers| ==> tiers[k].usage == old(tiers[k].usage)
    {
      ResetSim();
    }

    method SimulateTier()
      requires Numbered() && InTiers()
      requires forall k :: 0 <= k < |tiers| ==> tiers[k].incomingFiles == []
      modifies tiers
      ensures Placed(|files|, old(FileSizes()), old(FileTiers()))
      ensures forall k :: 0 <= k < |tiers| ==> tiers[k].usage == old(tiers[k].usage)
    {
      ghost var sizes, at := FileSizes(), FileTiers();
      StartSim(sizes, at);
      for n := 0 to |files|
        invariant Placed(n, sizes, at)
        invariant forall k :: 0 <= k < |tiers| ==> tiers[k].usage == old(tiers[k].usage)
      {
        PlaceNext(n, sizes, at);
      }
    }

    // ---------------------------------------------------------- transfers

    ghost predicate FilesHold(p: Plan, ptr: seq<nat>, metadata: seq<Metadata>)
      reads this, files
    {
      && |files| == |p.sizes| == |p.paths| == |ptr| == |metadata|
      && (forall f :: 0 <= f < |files| ==>
            && files[f].size == p.sizes[f]
            && files[f].relativePath == p.paths[f]
            && ptr[f] < |tiers| && files[f].tierPtr == tiers[ptr[f]]
            && files[f].metadata == metadata[f])
    }

    ghost predicate UsageHolds(usage: seq<int>)
      reads tiers
    {
      && |tiers| == |usage|
      && (forall t :: 0 <= t < |tiers| ==> tiers[t].usage == usage[t])
    }

    ghost predicate QueuesHold(p: Plan)
      requires p.Valid() && |files| == |p.sizes| && |tiers| == |p.pinned|
      reads this, tiers
    {
      forall t :: 0 <= t < |tiers| ==> tiers[t].incomingFiles == Pick(p.QueueOf(t))
    }

    /** The objects hold the state s of a transfer run of plan p. */
    ghost predicate Represents(p: Plan, s: State)
      reads this, files, tiers, db, disk
    {
      && Shaped(p, s)
      && FilesHold(p, s.tierPtr, s.metadata)
      && UsageHolds(s.usage)
      && QueuesHold(p)
      && disk.present == s.disk
      && db.entries == s.index
    }

    method AddUsage(k: nat, size: int, ghost usage: seq<int>)
      requires Numbered() && k < |tiers| && UsageHolds(usage)
      modifies tiers
      ensures UsageHolds(usage[k := usage[k] + size])
      ensures forall j :: 0 <= j < |tiers| ==> tiers[j].incomingFiles == old(tiers[j].incomingFiles)
    {
      if size >= 0 {
        tiers[k].AddFileSize(size);
      } else {
        tiers[k].SubtractFileSize(-size);
      }
    }

    method Repoint(file: File, t: nat, ghost f: nat, ghost p: Plan, ghost ptr: seq<nat>, ghost metadata: seq<Metadata>)
      requires Distinct(files) && FilesHold(p, ptr, metadata) && f < |files| && file == files[f] && t < |tiers|
      modifies file
      ensures FilesHold(p, ptr[f := t], metadata)
    {
      file.tierPtr := tiers[t];
    }

    method RecordTier(
        file: File, t: nat, ghost f: nat, ghost p: Plan, ghost ptr: seq<nat>, ghost metadata: seq<Metadata>)
      requires Distinct(files) && FilesHold(p, ptr, metadata) && f < |files| && file == files[f]
      modifies file, db
      ensures FilesHold(p, ptr, metadata[f := metadata[f].(tierPath := t)])
      ensures db.entries == old(db.entries)[p.paths[f] := metadata[f].(tierPath := t)]
    {
      file.metadata := file.metadata.(tierPath := t);
      db.Put(file.relativePath, file.metadata);
    }

    /** The thread of tier t is at the given file, in the given phase. */
    ghost predicate At(p: Plan, s: State, t: nat, file: File, phase: Phase)
      reads this, files, tiers, db, disk
    {
      && Numbered() && Distinct(files) && Represents(p, s) && Enabled(p, s, t)
      && file == files[Current(p, s, t)] && phase == s.phase[t]
    }

    method CopyAcross(file: File, t: nat, outcome: Outcome, ghost p: Plan, ghost s: State) returns (copied: bool)
      requires At(p, s, t, file, Ready) && outcome == p.outcome[Current(p, s, t)]
      modifies disk
      ensures Represents(p, Step(p, s, t)) && copied == (outcome == Moves)
    {
      copied := outcome == Moves;
      if copied {
        disk.Move(file.relativePath, file.tierPtr.number, t);
      }
    }

    method DebitOrigin(file: File, t: nat, ghost p: Plan, ghost s: State)
      requires At(p, s, t, file, Copied)
      modifies tiers
      ensures Represents(p, Step(p, s, t))
    {
      AddUsage(file.tierPtr.number, -(file.size as int), s.usage);
    }

    method PointToTier(file: File, t: nat, ghost p: Plan, ghost s: State)
      requires At(p, s, t, file, Debited)
      modifies file
      ensures Represents(p, Step(p, s, t))
    {
      Repoint(file, t, Current(p, s, t), p, s.tierPtr, s.metadata);
    }

    method CreditTier(file: File, t: nat, ghost p: Plan, ghost s: State)
      requires At(p, s, t, file, Repointed)
      modifies tiers
      ensures Represents(p, Step(p, s, t))
    {
      AddUsage(t, file.size, s.usage);
    }

    method RecordTransfer(file: File, t: nat, ghost p: Plan, ghost s: State)
      requires At(p, s, t, file, Credited)
      modifies file, db
      ensures Represents(p, Step(p, s, t))
    {
      ghost var f, r := Current(p, s, t), Step(p, s, t);
      assert r.tierPtr == s.tierPtr && r.usage == s.usage && r.disk == s.disk;
      assert r.metadata == s.metadata[f := s.metadata[f].(tierPath := t)];
      RecordTier(file, t, f, p, s.tierPtr, s.metadata);
    }

    /** The next action of the thread of tier t. */
    method Advance(t: nat, next: nat, phase: Phase, outcome: string -> Outcome, ghost p: Plan, ghost s: State)
      returns (next': nat, phase': Phase)
      requires Numbered() && Distinct(files) && Represents(p, s) && Enabled(p, s, t)
      requires next == s.next[t] && phase == s.phase[t]
      requires forall f :: 0 <= f < |p.paths| ==> p.outcome[f] == outcome(p.paths[f])
      modifies files, tiers, db, disk
      ensures Represents(p, Step(p, s, t))
      ensures next' == Step(p, s, t).next[t] && phase' == Step(p, s, t).phase[t]
    {
      var file := tiers[t].incomingFiles[next];
      assert At(p, s, t, file, phase);
      match phase
      case Ready =>
        var copied := CopyAcross(file, t, outcome(file.relativePath), p, s);
        next', phase' := if copied then next else next + 1, if copied then Copied else Ready;
      case Copied =>
        DebitOrigin(file, t, p, s);
        next', phase' := next, Debited;
      case Debited =>
        PointToTier(file, t, p, s);
        next', phase' := next, Repointed;
      case Repointed =>
        CreditTier(file, t, p, s);
        next', phase' := next, Credited;
      case Credited =>
        RecordTransfer(file, t, p, s);
        next', phase' := next + 1, Ready;
    }

    /** next and phase are where the threads stand in state s of a run from s0. */
    ghost predicate Running(p: Plan, s0: State, s: State, next: seq<nat>, phase: seq<Phase>)
      reads this, files, tiers, db, disk
    {
      && Numbered() && Distinct(files) && Represents(p, s) && Inv(p, s0, s)
      && next == s.next && phase == s.phase
    }

    /** Some thread is not finished. */
    predicate Unfinished(next: seq<nat>)
      reads tiers
    {
      exists t :: 0 <= t < |tiers| && t < |next| && next[t] < |tiers[t].incomingFiles|
    }

    lemma AllJoined(p: Plan, s0: State, s: State, next: seq<nat>, phase: seq<Phase>)
      requires Running(p, s0, s, next, phase) && !Unfinished(next)
      ensures Finished(p, s0, s)
    {
      forall t | 0 <= t < |p.pinned| ensures !Enabled(p, s, t) {
        assert |tiers[t].incomingFiles| == |p.QueueOf(t)|;
      }
      DoneIsFinished(p, s0, s);
    }

    /** Some thread that is not finished takes its next action. */
    method Round(next: seq<nat>, phase: seq<Phase>, outcome: string -> Outcome,
                 ghost p: Plan, ghost s0: State, ghost s: State)
      returns (next': seq<nat>, phase': seq<Phase>, ghost s': State)
      requires Running(p, s0, s, next, phase) && Unfinished(next)
      requires forall f :: 0 <= f < |p.paths| ==> p.outcome[f] == outcome(p.paths[f])
      modifies files, tiers, db, disk
      ensures Running(p, s0, s', next', phase')
      ensures 0 <= Remaining(p, s') < Remaining(p, s)
    {
      var t: nat :| t < |tiers| && t < |next| && next[t] < |tiers[t].incomingFiles|;
      StepInv(p, s0, s, t);
      StepCosts(p, s, t);
      StepThread(p, s, t);
      NothingLeft(p, s0, Step(p, s, t));
      var n, ph := Advance(t, next[t], phase[t], outcome, p, s);
      s' := Step(p, s, t);
      next', phase' := next[t := n], phase[t := ph];
    }

    lemma NoneStarted(p: Plan, s0: State, next: seq<nat>, phase: seq<Phase>)
      requires Numbered() && Distinct(files) && Represents(p, s0) && Initial(p, s0)
      requires |next| == |phase| == |tiers|
      requires forall t :: 0 <= t < |tiers| ==> next[t] == 0 && phase[t] == Ready
      ensures Running(p, s0, s0, next, phase)
    {
      InitialInv(p, s0);
      assert next == s0.next && phase == s0.phase;
    }

    /**
     * move_files: the threads take their actions in any order until all have joined. The
     * choice in Round is free, so what is ensured holds for every interleaving.
     */
    method MoveFiles(outcome: string -> Outcome, ghost p: Plan, ghost s0: State) returns (ghost s: State)
      requires Numbered() && Distinct(files) && Represents(p, s0) && Initial(p, s0)
      requires forall f :: 0 <= f < |p.paths| ==> p.outcome[f] == outcome(p.paths[f])
      modifies files, tiers, db, disk
      ensures Represents(p, s) && Finished(p, s0, s) && lastTierTime == old(lastTierTime)
    {
      var next: seq<nat>, phase: seq<Phase> := seq(|tiers|, _ => 0), seq(|tiers|, _ => Ready);
      s := s0;
      NoneStarted(p, s0, next, phase);
      while Unfinished(next)
        invariant Running(p, s0, s, next, phase)
        decreases Remaining(p, s)
      {
        next, phase, s := Round(next, phase, outcome, p, s0, s);
      }
      AllJoined(p, s0, s, next, phase);
    }

    // ------------------------------------------------------- whole pass

    /** The end of every transfer_files. */
    method ClearQueues()
      requires Numbered()
      modifies tiers
      ensures forall k :: 0 <= k < |tiers| ==>
        && tiers[k].incomingFiles == [] && tiers[k].simUsage == 0
        && tiers[k].usage == old(tiers[k].usage)
    {
      for n := 0 to |tiers|
        invariant forall k :: 0 <= k < n ==> tiers[k].incomingFiles == [] && tiers[k].simUsage == 0
        invariant forall k :: 0 <= k < |tiers| ==> tiers[k].usage == old(tiers[k].usage)
      {
        tiers[n].incomingFiles, tiers[n].simUsage := [], 0;
      }
    }

    method UpdateDb(ghost paths: seq<string>, ghost metadata: seq<Metadata>)
      requires |files| == |paths| == |metadata|
      requires forall f :: 0 <= f < |files| ==>
        files[f].relativePath == paths[f] && files[f].metadata == metadata[f]
      modifies db
      ensures db.entries == UpdateAll(old(db.entries), paths, metadata, |files|)
    {
      for n := 0 to |files|
        invariant db.entries == UpdateAll(old(db.entries), paths, metadata, n)
      {
        db.Put(files[n].relativePath, files[n].metadata);
      }
    }

    /** Between passes; index and present are what the database and the disks hold. */
    ghost predicate AtRest(index: map<string, Metadata>, present: set<(nat, string)>)
      reads this, tiers, db, disk
    {
      && Numbered() && files == [] && index == db.entries && present == disk.present
      && (forall k :: 0 <= k < |tiers| ==> tiers[k].incomingFiles == [])
    }

    method AgeFiles(tierTime: real, now: int, ghost crawled: seq<Found>) returns (ghost aged: seq<Found>)
      requires Distinct(files) && Mirrors(files, crawled, tiers) && Older(crawled, now)
      modifies this`lastTierTime, files
      ensures aged == AgedAll(crawled, tierTime - old(lastTierTime), now) && lastTierTime == tierTime
      ensures Mirrors(files, aged, tiers)
    {
      aged := AgedAll(crawled, tierTime - lastTierTime, now);
      CalcPopularity(tierTime, now);
    }

    /** launch_crawlers and calc_popularity. */
    method Collect(listing: seq<seq<Entry>>, tierTime: real, now: int, ghost index: map<string, Metadata>)
      returns (ghost aged: seq<Found>)
      requires Numbered() && |listing| == |tiers| && files == [] && index == db.entries
      requires Older(Crawled(listing, index, |listing|), now)
      modifies this, tiers
      ensures aged == AgedAll(Crawled(listing, index, |listing|), tierTime - old(lastTierTime), now)
      ensures lastTierTime == tierTime
      ensures Distinct(files) && Mirrors(files, aged, tiers)
      ensures forall f :: 0 <= f < |files| ==> fresh(files[f])
      ensures UsageHolds(UsageOf(listing))
      ensures forall k :: 0 <= k < |tiers| ==> tiers[k].incomingFiles == old(tiers[k].incomingFiles)
    {
      LaunchCrawlers(listing);
      aged := AgeFiles(tierTime, now, Crawled(listing, index, |listing|));
    }

    method SortCollected(ghost aged: seq<Found>) returns (ghost order: seq<nat>)
      requires Distinct(files) && Mirrors(files, aged, tiers)
      modifies this`files
      ensures Sorts(RanksOf(aged), order)
      ensures Distinct(files) && Mirrors(files, Arrange(aged, order), tiers)
      ensures forall f :: 0 <= f < |files| ==> files[f] in old(files)
    {
      assert Ranks() == RanksOf(aged);
      order := Sort();
    }

    /** Crawl, popularity calculation and sort: files_ holds the selected files in order. */
    method Select(listing: seq<seq<Entry>>, tierTime: real, now: int, ghost index: map<string, Metadata>)
      returns (ghost found: seq<Found>, ghost period: real, ghost order: seq<nat>)
      requires Numbered() && |listing| == |tiers| && files == [] && index == db.entries
      requires Older(Crawled(listing, index, |listing|), now)
      modifies this, tiers
      ensures Distinct(files) && Mirrors(files, found, tiers)
      ensures forall f :: 0 <= f < |files| ==> fresh(files[f])
      ensures period == tierTime - old(lastTierTime) && lastTierTime == tierTime
      ensures Selected(found, listing, index, period, now, order)
      ensures UsageHolds(UsageOf(listing))
      ensures forall k :: 0 <= k < |tiers| ==> tiers[k].incomingFiles == old(tiers[k].incomingFiles)
    {
      period := tierTime - lastTierTime;
      ghost var aged := Collect(listing, tierTime, now, index);
      order := SortCollected(aged);
      found := Arrange(aged, order);
    }

    lemma MirrorsInTiers(found: seq<Found>)
      requires Numbered() && Mirrors(files, found, tiers)
      ensures InTiers() && FileSizes() == Sizes(found) && FileTiers() == Tiers(found)
    {
    }

    /** Places the selected files; they themselves stay as they are. */
    method Place(ghost found: seq<Found>)
      requires Numbered() && Mirrors(files, found, tiers)
      requires forall k :: 0 <= k < |tiers| ==> tiers[k].incomingFiles == []
      modifies tiers
      ensures Mirrors(files, found, tiers) && Placed(|files|, Sizes(found), Tiers(found))
      ensures forall k :: 0 <= k < |tiers| ==> tiers[k].usage == old(tiers[k].usage)
    {
      MirrorsInTiers(found);
      SimulateTier();
    }

    /** After selection and placement the objects hold the starting state of the plan. */
    lemma StartRepresented(found: seq<Found>, p: Plan, s0: State, outcome: string -> Outcome, pinned: seq<nat>)
      requires Mirrors(files, found, tiers) && Placed(|files|, Sizes(found), Tiers(found))
      requires p == PlanOf(found, Quotas(), pinned, outcome) && Shaped(p, s0)
      requires s0 == StartOf(found, s0.usage, disk.present, db.entries) && UsageHolds(s0.usage)
      ensures Represents(p, s0)
    {
      var target := Assignment(Sizes(found), Quotas());
      forall t | 0 <= t < |tiers| ensures tiers[t].incomingFiles == Pick(p.QueueOf(t)) {
        assert Queues(target, Tiers(found), |tiers|, |files|)[t] == p.QueueOf(t);
      }
    }

    /** A plan and its starting state come from the given selection. */
    ghost predicate Planned(
        p: Plan, s0: State, found: seq<Found>, listing: seq<seq<Entry>>, index: map<string, Metadata>,
        present: set<(nat, string)>, outcome: string -> Outcome)
    {
      && p == PlanOf(found, Quotas(), PinnedOf(listing, index), outcome)
      && s0 == StartOf(found, UsageOf(listing), present, index)
    }

    /** simulate_tier after the selection: the stage is set for move_files. */
    method Stage(listing: seq<seq<Entry>>, outcome: string -> Outcome, ghost found: seq<Found>,
                 ghost index: map<string, Metadata>, ghost present: set<(nat, string)>)
      returns (ghost p: Plan, ghost s0: State)
      requires Numbered() && |listing| == |tiers| && Mirrors(files, found, tiers)
      requires index == db.entries && present == disk.present && UsageHolds(UsageOf(listing))
      requires forall k :: 0 <= k < |tiers| ==> tiers[k].incomingFiles == []
      requires Initial(PlanOf(found, Quotas(), PinnedOf(listing, index), outcome),
                       StartOf(found, UsageOf(listing), present, index))
      modifies tiers
      ensures Planned(p, s0, found, listing, index, present, outcome)
      ensures Represents(p, s0) && Initial(p, s0)
    {
      Place(found);
      p := PlanOf(found, Quotas(), PinnedOf(listing, index), outcome);
      s0 := StartOf(found, UsageOf(listing), present, index);
      StartRepresented(found, p, s0, outcome, PinnedOf(listing, index));
    }

    /** Everything up to move_files. */
    method Prepare(listing: seq<seq<Entry>>, tierTime: real, now: int, outcome: string -> Outcome,
                   ghost index: map<string, Metadata>, ghost present: set<(nat, string)>)
      returns (ghost found: seq<Found>, ghost period: real, ghost order: seq<nat>, ghost p: Plan, ghost s0: State)
      requires AtRest(index, present) && |listing| == |tiers|
      requires Older(Crawled(listing, index, |listing|), now)
      requires DistinctListing(listing) && DiskMatches(present, listing)
      modifies this, tiers
      ensures forall f :: 0 <= f < |files| ==> fresh(files[f])
      ensures period == tierTime - old(lastTierTime) && lastTierTime == tierTime
      ensures Selected(found, listing, index, period, now, order)
      ensures Planned(p, s0, found, listing, index, present, outcome)
      ensures Numbered() && Distinct(files) && Represents(p, s0) && Initial(p, s0)
    {
      found, period, order := Select(listing, tierTime, now, index);
      StartIsInitial(found, listing, index, present, period, now, order, Quotas(), outcome);
      p, s0 := Stage(listing, outcome, found, index, present);
    }

    /** update_db, and everything the pass kept is dropped. */
    method Finish(ghost p: Plan, ghost s: State)
      requires Numbered() && Represents(p, s)
      modifies this`files, tiers, db
      ensures AtRest(UpdateAll(s.index, p.paths, s.metadata, |p.paths|), s.disk) && UsageHolds(s.usage)
      ensures lastTierTime == old(lastTierTime)
    {
      UpdateDb(p.paths, s.metadata);
      ClearQueues();
      files := [];
    }

    /**
     * tier(): one whole pass. The listing is what the crawler meets; outcome says, path by
     * path, whether the file is open and whether its copy succeeds.
     */
    method RunPass(listing: seq<seq<Entry>>, tierTime: real, now: int, outcome: string -> Outcome,
                   ghost index: map<string, Metadata>, ghost present: set<(nat, string)>)
      returns (ghost found: seq<Found>, ghost period: real, ghost order: seq<nat>,
               ghost p: Plan, ghost s0: State, ghost s: State)
      requires AtRest(index, present) && |listing| == |tiers|
      requires Older(Crawled(listing, index, |listing|), now)
      requires DistinctListing(listing) && DiskMatches(present, listing)
      modifies this, tiers, db, disk
      ensures period == tierTime - old(lastTierTime) && lastTierTime == tierTime
      ensures Selected(found, listing, index, period, now, order)
      ensures Planned(p, s0, found, listing, index, present, outcome)
      ensures Finished(p, s0, s) && UsageHolds(s.usage)
      ensures AtRest(UpdateAll(s.index, p.paths, s.metadata, |p.paths|), s.disk)
    {
      found, period, order, p, s0 := Prepare(listing, tierTime, now, outcome, index, present);
      s := MoveFiles(outcome, p, s0);
      Finish(p, s);
    }
  }
}
