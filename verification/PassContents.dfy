/**
 * The bytes of the files over a pass: MoveFile's before-and-after relation taken as the disk action of
 * a transfer, in any schedule.
 */
module PassContents {
  import opened Transfer
  import opened PassResult
  import opened Crawl
  import opened PassPlan
  import opened PassTheorem
  import opened FileCopy
  import opened MoveFile

  // ------------------------------------------------------------ full paths

  /** Where the file name begins. */
  function NameStart(k: string): (n: nat)
    ensures n <= |k|
    ensures n == 0 || k[n - 1] == '/'
    ensures forall i :: n <= i < |k| ==> k[i] != '/'
  {
    if k == "" then 0 else if k[|k| - 1] == '/' then |k| else NameStart(k[..|k| - 1])
  }

  /** The relative path k in tier t. */
  function At(t: nat, k: string): Path {
    Path(t, k[..NameStart(k)], k[NameStart(k)..])
  }

  /** The path is split at its last '/'. */
  lemma SplitAtLastSlash(t: nat, k: string)
    ensures At(t, k).dir + At(t, k).name == k && '/' !in At(t, k).name
    ensures At(t, k).dir == "" || At(t, k).dir[|At(t, k).dir| - 1] == '/'
  {
    assert k[..NameStart(k)] + k[NameStart(k)..] == k;
  }

  lemma AtInjective(t: nat, k: string, u: nat, l: string)
    ensures At(t, k) == At(u, l) <==> t == u && k == l
  {
    assert k == k[..NameStart(k)] + k[NameStart(k)..] && l == l[..NameStart(l)] + l[NameStart(l)..];
  }

  /** l is the hidden name of k. */
  predicate Hides(k: string, l: string) {
    HiddenName(At(0, k)) == At(0, l)
  }

  lemma NotHidden(t: nat, k: string, u: nat, l: string)
    requires !Hides(k, l)
    ensures HiddenName(At(t, k)) != At(u, l)
  {
    assert At(0, k) == At(t, k).(tier := 0) && At(0, l) == At(u, l).(tier := 0);
  }

  // --------------------------------------------------------------- one step

  /** One call of move_file, from tier u to tier t, that succeeds or not. */
  ghost predicate OneMove(
      before: map<Path, Bytes>, after: map<Path, Bytes>, u: nat, t: nat, k: string, moved: bool, configured: nat)
  {
    exists origTier, r ::
      MoveSpec(before, after, At(u, k), At(t, k), configured, origTier, r) && (r.Moved? <==> moved)
  }

  /** What the disks do while thread t takes its next action. */
  ghost predicate DiskStep(
      p: Plan, s: State, t: nat, before: map<Path, Bytes>, after: map<Path, Bytes>, configured: nat)
    requires Shaped(p, s) && Enabled(p, s, t)
  {
    var f := Current(p, s, t);
    if s.phase[t] == Ready && p.outcome[f] != IsOpen then
      OneMove(before, after, s.tierPtr[f], t, p.paths[f], p.outcome[f] == Moves, configured)
    else after == before
  }

  ghost predicate NoneHidden(paths: seq<string>) {
    forall f, g :: 0 <= f < |paths| && 0 <= g < |paths| ==> !Hides(paths[f], paths[g])
  }

  /** Each file's bytes are where the disk state of the pass says it is, and nowhere else. */
  ghost predicate BytesAt(p: Plan, s: State, start: map<Path, Bytes>, now: map<Path, Bytes>, f: nat)
    requires f < |p.paths| && f < |p.origin| && At(p.origin[f], p.paths[f]) in start
  {
    forall t :: InPlace(s.disk, start[At(p.origin[f], p.paths[f])], now, t, p.paths[f])
  }

  ghost predicate InPlace(disk: set<(nat, string)>, data: Bytes, now: map<Path, Bytes>, t: nat, k: string) {
    ((t, k) in disk <==> At(t, k) in now) && ((t, k) in disk ==> now[At(t, k)] == data)
  }

  ghost predicate Present(p: Plan, start: map<Path, Bytes>) {
    |p.paths| == |p.origin| && forall f :: 0 <= f < |p.paths| ==> At(p.origin[f], p.paths[f]) in start
  }

  /** A path that no move of the pass uses. */
  ghost predicate Foreign(p: Plan, q: Path) {
    forall f, t :: 0 <= f < |p.paths| ==> q != At(t, p.paths[f]) && q != HiddenName(At(t, p.paths[f]))
  }

  ghost predicate ForeignKept(p: Plan, start: map<Path, Bytes>, now: map<Path, Bytes>) {
    forall q :: Foreign(p, q) ==> (q in now <==> q in start) && (q in now ==> now[q] == start[q])
  }

  ghost predicate BytesHold(p: Plan, s: State, start: map<Path, Bytes>, now: map<Path, Bytes>) {
    && Present(p, start)
    && (forall f :: 0 <= f < |p.paths| ==> BytesAt(p, s, start, now, f))
    && ForeignKept(p, start, now)
  }

  /** A move without a conflict, as far as the names of one file go. */
  lemma MoveOfOne(
      before: map<Path, Bytes>, after: map<Path, Bytes>, u: nat, t: nat, k: string, moved: bool, configured: nat)
    requires OneMove(before, after, u, t, k, moved, configured) && ToInt(configured) != 0 && At(t, k) !in before
    ensures moved ==> At(u, k) in before && after == (before - {At(u, k)})[At(t, k) := before[At(u, k)]]
    ensures !moved ==> SameBut(after, before, {HiddenName(At(t, k))})
  {
  }

  /** A move leaves every name but its own as it was, and takes the bytes along. */
  lemma InPlaceAfter(
      disk: set<(nat, string)>, data: Bytes, before: map<Path, Bytes>, after: map<Path, Bytes>,
      u: nat, t: nat, k: string, moved: bool, configured: nat, v: nat, l: string)
    requires OneMove(before, after, u, t, k, moved, configured) && ToInt(configured) != 0
    requires u != t && (t, k) !in disk && At(t, k) !in before && !Hides(k, l)
    requires InPlace(disk, data, before, v, l)
    requires l == k ==> (u, k) in disk && InPlace(disk, data, before, u, k)
    ensures InPlace(if moved then disk - {(u, k)} + {(t, k)} else disk, data, after, v, l)
  {
    MoveOfOne(before, after, u, t, k, moved, configured);
    AtInjective(v, l, t, k);
    AtInjective(v, l, u, k);
    AtInjective(t, k, u, k);
    NotHidden(t, k, v, l);
  }

  /** Where a thread stands before a copy. */
  lemma AtStart(p: Plan, s0: State, s: State, t: nat, start: map<Path, Bytes>, before: map<Path, Bytes>)
    requires Inv(p, s0, s) && Enabled(p, s, t) && s.phase[t] == Ready && BytesHold(p, s, start, before)
    ensures var f := Current(p, s, t);
      && var u, k := s.tierPtr[f], p.paths[f];
      && u == p.origin[f] != t && (t, k) !in s.disk && (u, k) in s.disk && At(t, k) !in before
      && InPlace(s.disk, start[At(u, k)], before, u, k)
  {
    var f := Current(p, s, t);
    assert FileAt(p, s0, s, f, Stage(p, s, f)) && BytesAt(p, s, start, before, f);
    assert InPlace(s.disk, start[At(p.origin[f], p.paths[f])], before, t, p.paths[f]);
    assert InPlace(s.disk, start[At(p.origin[f], p.paths[f])], before, p.origin[f], p.paths[f]);
  }

  lemma StepDisk(p: Plan, s: State, t: nat)
    requires Shaped(p, s) && Enabled(p, s, t)
    ensures var f := Current(p, s, t);
      Step(p, s, t).disk ==
        if s.phase[t] == Ready && p.outcome[f] == Moves then
          s.disk - {(s.tierPtr[f], p.paths[f])} + {(t, p.paths[f])}
        else s.disk
  {
  }

  lemma StepBytes(
      p: Plan, s0: State, s: State, t: nat, start: map<Path, Bytes>, before: map<Path, Bytes>,
      after: map<Path, Bytes>, configured: nat, g: nat)
    requires Inv(p, s0, s) && Enabled(p, s, t) && BytesHold(p, s, start, before)
    requires DiskStep(p, s, t, before, after, configured) && ToInt(configured) != 0 && NoneHidden(p.paths)
    requires g < |p.paths|
    ensures BytesAt(p, Step(p, s, t), start, after, g)
  {
    var f := Current(p, s, t);
    var k, l, u, data := p.paths[f], p.paths[g], s.tierPtr[f], start[At(p.origin[g], p.paths[g])];
    var disk := Step(p, s, t).disk;
    assert !Hides(k, l) && (l == k ==> f == g);
    StepDisk(p, s, t);
    if s.phase[t] == Ready && p.outcome[f] != IsOpen {
      AtStart(p, s0, s, t, start, before);
    }
    forall v: nat ensures InPlace(disk, data, after, v, l) {
      assert BytesAt(p, s, start, before, g) && InPlace(s.disk, data, before, v, l);
      if s.phase[t] == Ready && p.outcome[f] != IsOpen {
        InPlaceAfter(s.disk, data, before, after, u, t, k, p.outcome[f] == Moves, configured, v, l);
      }
    }
  }

  lemma ForeignBytes(
      p: Plan, s0: State, s: State, t: nat, start: map<Path, Bytes>, before: map<Path, Bytes>,
      after: map<Path, Bytes>, configured: nat)
    requires Inv(p, s0, s) && Enabled(p, s, t) && BytesHold(p, s, start, before)
    requires DiskStep(p, s, t, before, after, configured) && ToInt(configured) != 0
    ensures ForeignKept(p, start, after)
  {
    var f := Current(p, s, t);
    if s.phase[t] == Ready && p.outcome[f] != IsOpen {
      AtStart(p, s0, s, t, start, before);
      var k, u := p.paths[f], s.tierPtr[f];
      MoveOfOne(before, after, u, t, k, p.outcome[f] == Moves, configured);
      forall q | Foreign(p, q) ensures q != At(u, k) && q != At(t, k) && q != HiddenName(At(t, k)) {
      }
    }
  }

  lemma StepHoldsBytes(
      p: Plan, s0: State, s: State, t: nat, start: map<Path, Bytes>, before: map<Path, Bytes>,
      after: map<Path, Bytes>, configured: nat)
    requires Inv(p, s0, s) && Enabled(p, s, t) && BytesHold(p, s, start, before)
    requires DiskStep(p, s, t, before, after, configured) && ToInt(configured) != 0 && NoneHidden(p.paths)
    ensures BytesHold(p, Step(p, s, t), start, after)
  {
    forall g | 0 <= g < |p.paths| ensures BytesAt(p, Step(p, s, t), start, after, g) {
      StepBytes(p, s0, s, t, start, before, after, configured, g);
    }
    ForeignBytes(p, s0, s, t, start, before, after, configured);
  }

  // ------------------------------------------------------------- whole runs

  /** What the disks hold before each action of a schedule, and after the last. */
  ghost predicate Carried(p: Plan, s: State, schedule: seq<nat>, disks: seq<map<Path, Bytes>>, configured: nat)
    requires Shaped(p, s) && Runs(p, s, schedule)
    decreases |schedule|
  {
    && |disks| == |schedule| + 1
    && (schedule != [] ==>
          && DiskStep(p, s, schedule[0], disks[0], disks[1], configured)
          && Carried(p, Step(p, s, schedule[0]), schedule[1..], disks[1..], configured))
  }

  /** After any schedule every file's bytes are in the tier the disk state names, and nowhere else. */
  lemma {:induction false} RunHoldsBytes(
      p: Plan, s0: State, s: State, schedule: seq<nat>, start: map<Path, Bytes>, disks: seq<map<Path, Bytes>>,
      configured: nat)
    requires Inv(p, s0, s) && Runs(p, s, schedule) && Carried(p, s, schedule, disks, configured)
    requires BytesHold(p, s, start, disks[0]) && ToInt(configured) != 0 && NoneHidden(p.paths)
    ensures BytesHold(p, Run(p, s, schedule), start, disks[|disks| - 1])
    decreases |schedule|
  {
    if schedule != [] {
      var t := schedule[0];
      StepHoldsBytes(p, s0, s, t, start, disks[0], disks[1], configured);
      StepInv(p, s0, s, t);
      RunHoldsBytes(p, s0, Step(p, s, t), schedule[1..], start, disks[1..], configured);
    }
  }

  /** The disks hold exactly the files of the starting state. */
  ghost predicate DisksMatch(p: Plan, s: State, disk: map<Path, Bytes>) {
    forall f, t: nat :: 0 <= f < |p.paths| ==> ((t, p.paths[f]) in s.disk <==> At(t, p.paths[f]) in disk)
  }

  lemma StartHoldsBytes(p: Plan, s: State, disk: map<Path, Bytes>)
    requires Initial(p, s) && DisksMatch(p, s, disk)
    ensures BytesHold(p, s, disk, disk)
  {
    forall f | 0 <= f < |p.paths|
      ensures At(p.origin[f], p.paths[f]) in disk && BytesAt(p, s, disk, disk, f)
    {
      assert (p.origin[f], p.paths[f]) in s.disk;
    }
  }

  /**
   * Once all threads have joined, in whatever order they acted, the bytes each file began with are
   * under its path in its final tier and in no other, and every other path is as it was.
   */
  lemma BytesFollowFiles(
      p: Plan, s: State, schedule: seq<nat>, disks: seq<map<Path, Bytes>>, configured: nat)
    requires Initial(p, s) && Runs(p, s, schedule) && Done(p, Run(p, s, schedule))
    requires Carried(p, s, schedule, disks, configured) && DisksMatch(p, s, disks[0])
    requires ToInt(configured) != 0 && NoneHidden(p.paths)
    ensures var end := disks[|disks| - 1];
      && Present(p, disks[0]) && ForeignKept(p, disks[0], end)
      && forall f, t :: 0 <= f < |p.paths| ==>
           && (At(t, p.paths[f]) in end <==> t == p.FinalTier(f))
           && (t == p.FinalTier(f) ==> end[At(t, p.paths[f])] == disks[0][At(p.origin[f], p.paths[f])])
  {
    var r, end := Run(p, s, schedule), disks[|disks| - 1];
    InitialInv(p, s);
    StartHoldsBytes(p, s, disks[0]);
    RunHoldsBytes(p, s, s, schedule, disks[0], disks, configured);
    RunInv(p, s, s, schedule);
    DoneIsFinished(p, s, r);
    forall f, t | 0 <= f < |p.paths|
      ensures At(t, p.paths[f]) in end <==> t == p.FinalTier(f)
      ensures t == p.FinalTier(f) ==> end[At(t, p.paths[f])] == disks[0][At(p.origin[f], p.paths[f])]
    {
      assert BytesAt(p, r, disks[0], end, f);
      assert InPlace(r.disk, disks[0][At(p.origin[f], p.paths[f])], end, t, p.paths[f]);
    }
  }

  // ---------------------------------------------------- from the listing

  /** No listed path is the hidden name of a listed path. */
  ghost predicate NoneHiddenListed(listing: seq<seq<Entry>>) {
    forall t, i, u, j :: 0 <= t < |listing| && 0 <= i < |listing[t]| && 0 <= u < |listing| && 0 <= j < |listing[u]| ==>
      !Hides(listing[t][i].path, listing[u][j].path)
  }

  /** The disks hold the listed files, as far as listed paths go. */
  ghost predicate DisksList(listing: seq<seq<Entry>>, disk: map<Path, Bytes>) {
    forall t, i, u: nat :: 0 <= t < |listing| && 0 <= i < |listing[t]| ==>
      (At(u, listing[t][i].path) in disk <==> u == t)
  }

  /** How the disks change over the transfers of a pass. */
  ghost predicate PassCarried(
      listing: seq<seq<Entry>>, index: map<string, Metadata>, disk: set<(nat, string)>, found: seq<Found>,
      p: Plan, s: State, schedule: seq<nat>, disks: seq<map<Path, Bytes>>, configured: nat)
  {
    var s0 := StartOf(found, UsageOf(listing), disk, index);
    && Initial(p, s0) && Runs(p, s0, schedule) && s == Run(p, s0, schedule) && Done(p, s)
    && Carried(p, s0, schedule, disks, configured) && DisksList(listing, disks[0])
    && ToInt(configured) != 0 && NoneHiddenListed(listing)
  }

  lemma FoundListed(
      listing: seq<seq<Entry>>, index: map<string, Metadata>, period: real, now: int,
      found: seq<Found>, order: seq<nat>, f: nat) returns (i: nat)
    requires DistinctListing(listing) && Selected(found, listing, index, period, now, order) && f < |found|
    ensures found[f].tier < |listing| && i < |listing[found[f].tier]|
    ensures listing[found[f].tier][i] == found[f].entry
  {
    SelectedDistinct(found, listing, index, period, now, order);
    i :| 0 <= i < |listing[found[f].tier]| && listing[found[f].tier][i] == found[f].entry;
  }

  lemma PassStartsMatched(
      listing: seq<seq<Entry>>, index: map<string, Metadata>, disk: set<(nat, string)>,
      period: real, now: int, quotas: seq<nat>, outcome: string -> Outcome,
      found: seq<Found>, order: seq<nat>, p: Plan, s: State, schedule: seq<nat>,
      disks: seq<map<Path, Bytes>>, configured: nat)
    requires Passed(listing, index, disk, period, now, quotas, outcome, found, order, p, s)
    requires PassCarried(listing, index, disk, found, p, s, schedule, disks, configured)
    ensures DisksMatch(p, StartOf(found, UsageOf(listing), disk, index), disks[0]) && NoneHidden(p.paths)
  {
    forall f, t: nat | 0 <= f < |p.paths|
      ensures (t, p.paths[f]) in disk <==> At(t, p.paths[f]) in disks[0]
    {
      var i := FoundListed(listing, index, period, now, found, order, f);
      assert listing[found[f].tier][i].path == p.paths[f];
    }
    forall f, g | 0 <= f < |p.paths| && 0 <= g < |p.paths|
      ensures !Hides(p.paths[f], p.paths[g])
    {
      var i := FoundListed(listing, index, period, now, found, order, f);
      var j := FoundListed(listing, index, period, now, found, order, g);
    }
  }

  lemma UnselectedForeign(
      listing: seq<seq<Entry>>, index: map<string, Metadata>, period: real, now: int,
      found: seq<Found>, order: seq<nat>, p: Plan, t: nat, i: nat)
    requires DistinctListing(listing) && Selected(found, listing, index, period, now, order)
    requires NoneHiddenListed(listing) && p.paths == Paths(found)
    requires t < |listing| && i < |listing[t]| && listing[t][i].path !in p.paths
    ensures Foreign(p, At(t, listing[t][i].path))
  {
    var k := listing[t][i].path;
    forall f, u: nat | 0 <= f < |p.paths|
      ensures At(t, k) != At(u, p.paths[f]) && At(t, k) != HiddenName(At(u, p.paths[f]))
    {
      AtInjective(t, k, u, p.paths[f]);
      var j := FoundListed(listing, index, period, now, found, order, f);
      assert !Hides(listing[found[f].tier][j].path, k);
      NotHidden(u, p.paths[f], t, k);
    }
  }

  /**
   * After a whole pass the entry of every listed file, pinned or not and however its move went, leads
   * to exactly the bytes the file had before.
   */
  lemma EntriesLeadToBytes(
      listing: seq<seq<Entry>>, index: map<string, Metadata>, disk: set<(nat, string)>,
      period: real, now: int, quotas: seq<nat>, outcome: string -> Outcome,
      found: seq<Found>, order: seq<nat>, p: Plan, s: State, schedule: seq<nat>,
      disks: seq<map<Path, Bytes>>, configured: nat, t: nat, i: nat)
    requires Passed(listing, index, disk, period, now, quotas, outcome, found, order, p, s)
    requires PassCarried(listing, index, disk, found, p, s, schedule, disks, configured)
    requires t < |listing| && i < |listing[t]|
    ensures var k, after := listing[t][i].path, UpdateAll(s.index, p.paths, s.metadata, |p.paths|);
      && var end := disks[|disks| - 1];
      && At(t, k) in disks[0] && k in after
      && At(after[k].tierPath, k) in end && end[At(after[k].tierPath, k)] == disks[0][At(t, k)]
  {
    var k, s0 := listing[t][i].path, StartOf(found, UsageOf(listing), disk, index);
    EveryFileIndexed(listing, index, disk, period, now, quotas, outcome, found, order, p, s, t, i);
    PassStartsMatched(
      listing, index, disk, period, now, quotas, outcome, found, order, p, s, schedule, disks, configured);
    BytesFollowFiles(p, s0, schedule, disks, configured);
    if Lookup(index, k, t).pinned {
      PinnedNotSelected(listing, index, period, now, found, order, t, i);
      UnselectedForeign(listing, index, period, now, found, order, p, t, i);
    } else {
      var f := SelectedHolds(listing, index, period, now, found, order, t, i);
      SelectedDistinct(found, listing, index, period, now, order);
      EntriesNameHolders(p, s0, s, f);
    }
  }
}
