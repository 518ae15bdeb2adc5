/**
 * TierEngineTiering::move_files: one thread per tier, each running Tier::transfer_files
 * over its own queue. A thread advances by one atomic action at a time, and any thread
 * may be next. Tiers and files are numbered; a file's number is its place in files_.
 */
module Transfer {
  import opened Sums
  import opened Placement

  /** What Metadata::serialize stores; tierPath is the number of the tier at that path. */
  datatype Metadata = Metadata(tierPath: nat, accessCount: nat, popularity: real, pinned: bool)

  /** What happens when a queued file's turn comes. */
  datatype Outcome = Moves | IsOpen | CopyFails

  /** A pass after simulate_tier. pinned holds the bytes pinned in each tier. */
  datatype Plan = Plan(
    sizes: seq<nat>, paths: seq<string>, origin: seq<nat>, target: seq<nat>,
    outcome: seq<Outcome>, pinned: seq<nat>)
  {
    ghost predicate Valid() {
      && |sizes| == |paths| == |origin| == |target| == |outcome|
      && (forall f :: 0 <= f < |origin| ==> origin[f] < |pinned|)
      && (forall f :: 0 <= f < |target| ==> target[f] <= |pinned|)
      && (forall f, g :: 0 <= f < g < |paths| ==> paths[f] != paths[g])
    }

    function QueueOf(t: nat): (q: seq<nat>)
      requires |origin| == |target|
    {
      Queue(target, origin, t, |target|)
    }

    /** The file is queued somewhere and its move succeeds. */
    predicate Moved(f: nat)
      requires f < |target| && f < |origin| && f < |outcome|
    {
      target[f] < |pinned| && target[f] != origin[f] && outcome[f] == Moves
    }

    function FinalTier(f: nat): (t: nat)
      requires f < |target| && f < |origin| && f < |outcome|
    {
      if Moved(f) then target[f] else origin[f]
    }

    function FinalTiers(): (r: seq<nat>)
      requires |origin| == |target| == |outcome|
      ensures |r| == |origin|
      ensures forall f :: 0 <= f < |r| ==> r[f] == FinalTier(f)
    {
      seq(|origin|, f requires 0 <= f < |origin| => FinalTier(f))
    }
  }

  /** Where a thread stands within the current entry of its queue. */
  datatype Phase = Ready | Copied | Debited | Repointed | Credited

  datatype State = State(
    tierPtr: seq<nat>,             // tier_ptr_ of every file
    metadata: seq<Metadata>,       // metadata_ of every file
    usage: seq<int>,               // usage_ of every tier
    disk: set<(nat, string)>,      // the backend files: (tier, relative path)
    index: map<string, Metadata>,  // the database
    next: seq<nat>,                // how far every thread is in its queue
    phase: seq<Phase>)

  ghost predicate Shaped(p: Plan, s: State) {
    && p.Valid()
    && |s.tierPtr| == |s.metadata| == |p.sizes|
    && |s.usage| == |s.next| == |s.phase| == |p.pinned|
    && (forall t :: 0 <= t < |p.pinned| ==> s.next[t] <= |p.QueueOf(t)|)
    && (forall t :: 0 <= t < |p.pinned| && s.next[t] == |p.QueueOf(t)| ==> s.phase[t] == Ready)
    && (forall f :: 0 <= f < |s.tierPtr| ==> s.tierPtr[f] < |p.pinned|)
  }

  ghost predicate Enabled(p: Plan, s: State, t: nat)
    requires Shaped(p, s)
  {
    t < |p.pinned| && s.next[t] < |p.QueueOf(t)|
  }

  ghost predicate Done(p: Plan, s: State)
    requires Shaped(p, s)
  {
    forall t :: 0 <= t < |p.pinned| ==> !Enabled(p, s, t)
  }

  /** The file thread t is working on. */
  ghost function Current(p: Plan, s: State, t: nat): (f: nat)
    requires Shaped(p, s) && Enabled(p, s, t)
    ensures f < |p.sizes| && p.target[f] == t && p.origin[f] != t
  {
    p.QueueOf(t)[s.next[t]]
  }

  /**
   * One action of thread t: test for an open file and copy it across (tier.cpp:114-122),
   * then the statements of File::transfer_to_tier (file.cpp:130-136) one by one.
   */
  ghost function Step(p: Plan, s: State, t: nat): (r: State)
    requires Shaped(p, s) && Enabled(p, s, t)
    ensures Shaped(p, r)
  {
    var f := Current(p, s, t);
    match s.phase[t]
    case Ready =>
      if p.outcome[f] == Moves then
        s.(disk := s.disk - {(s.tierPtr[f], p.paths[f])} + {(t, p.paths[f])}, phase := s.phase[t := Copied])
      else s.(next := s.next[t := s.next[t] + 1])
    case Copied =>
      var from := s.tierPtr[f];
      s.(usage := s.usage[from := s.usage[from] - p.sizes[f]], phase := s.phase[t := Debited])
    case Debited =>
      s.(tierPtr := s.tierPtr[f := t], phase := s.phase[t := Repointed])
    case Repointed =>
      s.(usage := s.usage[t := s.usage[t] + p.sizes[f]], phase := s.phase[t := Credited])
    case Credited =>
      var m := s.metadata[f].(tierPath := t);
      s.(metadata := s.metadata[f := m], index := s.index[p.paths[f] := m],
         next := s.next[t := s.next[t] + 1], phase := s.phase[t := Ready])
  }

  // ------------------------------------------------------------- invariant

  predicate Queued(p: Plan, f: nat)
    requires f < |p.target| && f < |p.origin|
  {
    p.target[f] < |p.pinned| && p.target[f] != p.origin[f]
  }

  /** How far file f has come: 0 is untouched, 5 is moved. Queues hold ascending numbers. */
  ghost function Stage(p: Plan, s: State, f: nat): (r: nat)
    requires Shaped(p, s) && f < |p.sizes|
    ensures r <= 5
  {
    var t := p.target[f];
    if !Queued(p, f) then 0
    else if !Enabled(p, s, t) || f < Current(p, s, t) then (if p.outcome[f] == Moves then 5 else 0)
    else if f > Current(p, s, t) then 0
    else match s.phase[t]
      case Ready => 0
      case Copied => 1
      case Debited => 2
      case Repointed => 3
      case Credited => 4
  }

  /** The tier each file is counted in; number |pinned| between its debit and its credit. */
  ghost function Owners(p: Plan, s: State): (r: seq<nat>)
    requires Shaped(p, s)
    ensures |r| == |p.sizes|
    ensures forall f :: 0 <= f < |r| ==>
      r[f] == if Stage(p, s, f) == 2 || Stage(p, s, f) == 3 then |p.pinned| else s.tierPtr[f]
  {
    seq(|p.sizes|, f requires 0 <= f < |p.sizes| =>
      if Stage(p, s, f) == 2 || Stage(p, s, f) == 3 then |p.pinned| else s.tierPtr[f])
  }

  /** usage_ is the pinned bytes plus the sizes of the files counted in the tier. */
  ghost predicate UsageAgrees(p: Plan, s: State)
    requires Shaped(p, s)
  {
    forall t :: 0 <= t < |p.pinned| ==> s.usage[t] == p.pinned[t] + Share(p.sizes, Owners(p, s), t)
  }

  ghost predicate SameAt(a: map<string, Metadata>, b: map<string, Metadata>, k: string) {
    (k in a <==> k in b) && (k in a ==> a[k] == b[k])
  }

  /** What stage r of file f looks like in memory, on disk and in the index. */
  ghost predicate FileAt(p: Plan, s0: State, s: State, f: nat, r: nat)
    requires Shaped(p, s0) && Shaped(p, s) && f < |p.sizes|
  {
    var from, to, k := p.origin[f], p.target[f], p.paths[f];
    && s.tierPtr[f] == (if r >= 3 then to else from)
    && s.metadata[f] == (if r >= 5 then s0.metadata[f].(tierPath := to) else s0.metadata[f])
    && (forall t :: (t, k) in s.disk <==> t == if r >= 1 then to else from)
    && (if r >= 5 then k in s.index && s.index[k] == s.metadata[f] else SameAt(s.index, s0.index, k))
  }

  /** Keys and backend files that are not of the pass. */
  ghost predicate OutsideUntouched(p: Plan, s0: State, s: State) {
    && (forall k :: k !in p.paths ==> SameAt(s.index, s0.index, k))
    && (forall t, k :: k !in p.paths ==> ((t, k) in s.disk <==> (t, k) in s0.disk))
  }

  ghost predicate Inv(p: Plan, s0: State, s: State) {
    && Shaped(p, s0) && Shaped(p, s)
    && UsageAgrees(p, s)
    && OutsideUntouched(p, s0, s)
    && (forall f :: 0 <= f < |p.sizes| ==> FileAt(p, s0, s, f, Stage(p, s, f)))
    && (forall t :: 0 <= t < |p.pinned| && s.phase[t] != Ready ==> p.outcome[Current(p, s, t)] == Moves)
  }

  /** How move_files starts: right after the crawl and the simulation. */
  ghost predicate Initial(p: Plan, s: State) {
    && Shaped(p, s)
    && s.tierPtr == p.origin
    && (forall t :: 0 <= t < |p.pinned| ==> s.next[t] == 0 && s.phase[t] == Ready)
    && (forall t :: 0 <= t < |p.pinned| ==> s.usage[t] == p.pinned[t] + Share(p.sizes, p.origin, t))
    && (forall f, t :: 0 <= f < |p.sizes| ==> ((t, p.paths[f]) in s.disk <==> t == p.origin[f]))
  }

  lemma InitialInv(p: Plan, s: State)
    requires Initial(p, s)
    ensures Inv(p, s, s)
  {
    forall f | 0 <= f < |p.sizes| ensures Stage(p, s, f) == 0 {
      if Queued(p, f) {
        assert f in p.QueueOf(p.target[f]);
      }
    }
    assert Owners(p, s) == p.origin;
  }

  // ------------------------------------------------------ one step keeps it

  ghost predicate CurrentMoves(p: Plan, s: State, t: nat)
    requires Shaped(p, s) && Enabled(p, s, t)
  {
    s.phase[t] != Ready ==> p.outcome[Current(p, s, t)] == Moves
  }

  /** Moving a thread on by one entry leaves no queued file between its old and new entry. */
  lemma NoneBetween(p: Plan, t: nat, n: nat, g: nat)
    requires p.Valid() && n < |p.QueueOf(t)| && g < |p.sizes| && Queued(p, g) && p.target[g] == t
    ensures n + 1 == |p.QueueOf(t)| ==> g <= p.QueueOf(t)[n]
    ensures n + 1 < |p.QueueOf(t)| ==>
              p.QueueOf(t)[n] < p.QueueOf(t)[n + 1] && (g <= p.QueueOf(t)[n] || g >= p.QueueOf(t)[n + 1])
  {
  }

  /** A step moves only its own thread, by one phase or to its next entry. */
  lemma StepThread(p: Plan, s: State, t: nat)
    requires Shaped(p, s) && Enabled(p, s, t)
    ensures Step(p, s, t).next == s.next[t := Step(p, s, t).next[t]]
    ensures Step(p, s, t).phase == s.phase[t := Step(p, s, t).phase[t]]
    ensures Step(p, s, t).next[t] == s.next[t]
         || (Step(p, s, t).next[t] == s.next[t] + 1 && Step(p, s, t).phase[t] == Ready)
  {
  }

  /** A file's stage is decided by its own thread, and only while that thread is at the file. */
  lemma StageOther(p: Plan, s: State, r: State, t: nat, g: nat)
    requires Shaped(p, s) && Shaped(p, r) && Enabled(p, s, t) && g < |p.sizes|
    requires g != Current(p, s, t)
    requires forall u :: 0 <= u < |p.pinned| && u != t ==> r.next[u] == s.next[u] && r.phase[u] == s.phase[u]
    requires r.next[t] == s.next[t] || (r.next[t] == s.next[t] + 1 && r.phase[t] == Ready)
    ensures Stage(p, r, g) == Stage(p, s, g)
  {
    if Queued(p, g) && p.target[g] == t {
      NoneBetween(p, t, s.next[t], g);
    }
  }

  /** A step advances the stage of its own file, or skips the file. */
  lemma StageOwn(p: Plan, s: State, t: nat)
    requires Shaped(p, s) && Enabled(p, s, t) && CurrentMoves(p, s, t)
    ensures var f := Current(p, s, t);
            Stage(p, Step(p, s, t), f) == if p.outcome[f] == Moves then Stage(p, s, f) + 1 else 0
  {
    NoneBetween(p, t, s.next[t], Current(p, s, t));
  }

  lemma StageStep(p: Plan, s: State, t: nat, g: nat)
    requires Shaped(p, s) && Enabled(p, s, t) && CurrentMoves(p, s, t) && g < |p.sizes|
    ensures var f := Current(p, s, t);
            Stage(p, Step(p, s, t), g) ==
              if g != f then Stage(p, s, g)
              else if p.outcome[f] == Moves then Stage(p, s, f) + 1 else 0
  {
    if g == Current(p, s, t) {
      StageOwn(p, s, t);
    } else {
      StepThread(p, s, t);
      StageOther(p, s, Step(p, s, t), t, g);
    }
  }

  /** A step leaves every file but its own as it is. */
  lemma StepOtherFile(p: Plan, s0: State, s: State, t: nat, g: nat, r: nat)
    requires Shaped(p, s0) && Shaped(p, s) && Enabled(p, s, t) && g < |p.sizes|
    requires p.paths[g] != p.paths[Current(p, s, t)] && FileAt(p, s0, s, g, r)
    ensures FileAt(p, s0, Step(p, s, t), g, r)
  {
  }

  lemma StepFile(p: Plan, s0: State, s: State, t: nat, g: nat)
    requires Inv(p, s0, s) && Enabled(p, s, t) && g < |p.sizes|
    ensures FileAt(p, s0, Step(p, s, t), g, Stage(p, Step(p, s, t), g))
  {
    StageStep(p, s, t, g);
    var f := Current(p, s, t);
    assert FileAt(p, s0, s, g, Stage(p, s, g));
    if g != f {
      assert p.paths[g] != p.paths[f];
      StepOtherFile(p, s0, s, t, g, Stage(p, s, g));
    }
  }

  /** usage_ never goes below zero, and the debit of a step is covered. */
  lemma NoUnderflow(p: Plan, s0: State, s: State, t: nat)
    requires Inv(p, s0, s) && t < |p.pinned|
    ensures s.usage[t] >= p.pinned[t]
    ensures Enabled(p, s, t) && s.phase[t] == Copied ==>
              s.usage[s.tierPtr[Current(p, s, t)]] >= p.sizes[Current(p, s, t)]
  {
    if Enabled(p, s, t) && s.phase[t] == Copied {
      ShareAtLeast(p.sizes, Owners(p, s), Current(p, s, t));
    }
  }

  lemma StepOwners(p: Plan, s0: State, s: State, t: nat)
    requires Inv(p, s0, s) && Enabled(p, s, t)
    ensures var f := Current(p, s, t);
            Owners(p, Step(p, s, t)) ==
              match s.phase[t]
              case Copied => Owners(p, s)[f := |p.pinned|]
              case Repointed => Owners(p, s)[f := t]
              case _ => Owners(p, s)
  {
    var f, r := Current(p, s, t), Step(p, s, t);
    forall g | 0 <= g < |p.sizes| && g != f ensures Owners(p, r)[g] == Owners(p, s)[g] {
      StageStep(p, s, t, g);
    }
    StageStep(p, s, t, f);
    assert FileAt(p, s0, s, f, Stage(p, s, f));
  }

  lemma StepUsage(p: Plan, s0: State, s: State, t: nat)
    requires Inv(p, s0, s) && Enabled(p, s, t)
    ensures UsageAgrees(p, Step(p, s, t))
  {
    var f, r := Current(p, s, t), Step(p, s, t);
    StepOwners(p, s0, s, t);
    assert FileAt(p, s0, s, f, Stage(p, s, f));
    forall u | 0 <= u < |p.pinned|
      ensures r.usage[u] == p.pinned[u] + Share(p.sizes, Owners(p, r), u)
    {
      ShareUpdate(p.sizes, Owners(p, s), f, |p.pinned|, u);
      ShareUpdate(p.sizes, Owners(p, s), f, t, u);
    }
  }

  lemma StepOutside(p: Plan, s0: State, s: State, t: nat)
    requires Inv(p, s0, s) && Enabled(p, s, t)
    ensures OutsideUntouched(p, s0, Step(p, s, t))
  {
    assert p.paths[Current(p, s, t)] in p.paths;
  }

  lemma StepPhases(p: Plan, s: State, t: nat)
    requires Shaped(p, s) && Enabled(p, s, t) && CurrentMoves(p, s, t)
    requires forall u :: 0 <= u < |p.pinned| && s.phase[u] != Ready ==> p.outcome[Current(p, s, u)] == Moves
    ensures forall u :: 0 <= u < |p.pinned| && Step(p, s, t).phase[u] != Ready
              ==> p.outcome[Current(p, Step(p, s, t), u)] == Moves
  {
    var r := Step(p, s, t);
    forall u | 0 <= u < |p.pinned| && r.phase[u] != Ready
      ensures p.outcome[Current(p, r, u)] == Moves
    {
      assert u != t ==> Current(p, r, u) == Current(p, s, u);
    }
  }

  lemma StepInv(p: Plan, s0: State, s: State, t: nat)
    requires Inv(p, s0, s) && Enabled(p, s, t)
    ensures Inv(p, s0, Step(p, s, t))
  {
    var r := Step(p, s, t);
    StepUsage(p, s0, s, t);
    StepOutside(p, s0, s, t);
    forall g | 0 <= g < |p.sizes| ensures FileAt(p, s0, r, g, Stage(p, r, g)) {
      StepFile(p, s0, s, t, g);
    }
    StepPhases(p, s, t);
  }

  // ------------------------------------------------------------- whole runs

  /** A schedule names the thread that acts at each moment; it must be able to act. */
  ghost predicate Runs(p: Plan, s: State, schedule: seq<nat>)
    requires Shaped(p, s)
    decreases |schedule|
  {
    schedule != [] ==> Enabled(p, s, schedule[0]) && Runs(p, Step(p, s, schedule[0]), schedule[1..])
  }

  ghost function Run(p: Plan, s: State, schedule: seq<nat>): (r: State)
    requires Shaped(p, s) && Runs(p, s, schedule)
    ensures Shaped(p, r)
    decreases |schedule|
  {
    if schedule == [] then s else Run(p, Step(p, s, schedule[0]), schedule[1..])
  }

  /** The invariant, and with it the exact usage counters, holds after any schedule. */
  lemma {:induction false} RunInv(p: Plan, s0: State, s: State, schedule: seq<nat>)
    requires Inv(p, s0, s) && Runs(p, s, schedule)
    ensures Inv(p, s0, Run(p, s, schedule))
    decreases |schedule|
  {
    if schedule != [] {
      StepInv(p, s0, s, schedule[0]);
      RunInv(p, s0, Step(p, s, schedule[0]), schedule[1..]);
    }
  }

  /** Everything a finished pass leaves, told without reference to any schedule. */
  ghost predicate Finished(p: Plan, s0: State, s: State) {
    && Shaped(p, s0) && Shaped(p, s)
    && s.tierPtr == p.FinalTiers()
    && (forall f :: 0 <= f < |p.sizes| ==>
          s.metadata[f] == if p.Moved(f) then s0.metadata[f].(tierPath := p.target[f]) else s0.metadata[f])
    && (forall t :: 0 <= t < |p.pinned| ==>
          s.usage[t] == p.pinned[t] + Share(p.sizes, p.FinalTiers(), t))
    && (forall f, t :: 0 <= f < |p.sizes| ==> ((t, p.paths[f]) in s.disk <==> t == p.FinalTier(f)))
    && (forall f :: 0 <= f < |p.sizes| ==>
          if p.Moved(f) then p.paths[f] in s.index && s.index[p.paths[f]] == s.metadata[f]
          else SameAt(s.index, s0.index, p.paths[f]))
    && OutsideUntouched(p, s0, s)
    && (forall t :: 0 <= t < |p.pinned| ==> s.next[t] == |p.QueueOf(t)| && s.phase[t] == Ready)
  }

  lemma DoneIsFinished(p: Plan, s0: State, s: State)
    requires Inv(p, s0, s) && Done(p, s)
    ensures Finished(p, s0, s)
  {
    forall f | 0 <= f < |p.sizes|
      ensures Stage(p, s, f) == (if p.Moved(f) then 5 else 0) && FileAt(p, s0, s, f, Stage(p, s, f))
    {
    }
    forall t | 0 <= t < |p.pinned| ensures s.next[t] == |p.QueueOf(t)| && s.phase[t] == Ready {
      assert !Enabled(p, s, t);
    }
    assert s.tierPtr == p.FinalTiers();
    assert Owners(p, s) == p.FinalTiers();
  }

  /** Two finished states of the same pass are the same state. */
  lemma FinishedIsUnique(p: Plan, s0: State, a: State, b: State)
    requires Finished(p, s0, a) && Finished(p, s0, b)
    ensures a == b
  {
    assert a.metadata == b.metadata && a.usage == b.usage && a.next == b.next && a.phase == b.phase;
    forall e: (nat, string) ensures e in a.disk <==> e in b.disk {
      var (t, k) := e;
      if k in p.paths {
        var f :| 0 <= f < |p.paths| && p.paths[f] == k;
      }
    }
    assert a.disk == b.disk;
    forall k ensures (k in a.index <==> k in b.index) && SameAt(a.index, b.index, k) {
      if k in p.paths {
        var f :| 0 <= f < |p.paths| && p.paths[f] == k;
      }
    }
    assert a.index.Keys == b.index.Keys;
    assert a.index == b.index;
  }

  /** For fixed outcomes every schedule ends in the same state: placement, counters, disk and index. */
  lemma SchedulesAgree(p: Plan, s: State, one: seq<nat>, other: seq<nat>)
    requires Initial(p, s) && Runs(p, s, one) && Runs(p, s, other)
    requires Done(p, Run(p, s, one)) && Done(p, Run(p, s, other))
    ensures Run(p, s, one) == Run(p, s, other)
  {
    InitialInv(p, s);
    RunInv(p, s, s, one);
    RunInv(p, s, s, other);
    DoneIsFinished(p, s, Run(p, s, one));
    DoneIsFinished(p, s, Run(p, s, other));
    FinishedIsUnique(p, s, Run(p, s, one), Run(p, s, other));
  }

  // ------------------------------------------------- how long a run can be

  /** Actions a thread still takes for the entries of its queue from i on. */
  ghost function WorkFrom(p: Plan, t: nat, i: nat): nat
    requires p.Valid() && i <= |p.QueueOf(t)|
    decreases |p.QueueOf(t)| - i
  {
    if i == |p.QueueOf(t)| then 0
    else (if p.outcome[p.QueueOf(t)[i]] == Moves then 5 else 1) + WorkFrom(p, t, i + 1)
  }

  function PhaseNumber(ph: Phase): nat {
    match ph
    case Ready => 0
    case Copied => 1
    case Debited => 2
    case Repointed => 3
    case Credited => 4
  }

  /** Actions still to come in one thread. */
  ghost function ThreadWork(p: Plan, s: State, t: nat): int
    requires Shaped(p, s) && t < |p.pinned|
  {
    WorkFrom(p, t, s.next[t]) - PhaseNumber(s.phase[t])
  }

  ghost function ThreadWorks(p: Plan, s: State): (r: seq<int>)
    requires Shaped(p, s)
    ensures |r| == |p.pinned|
    ensures forall t :: 0 <= t < |r| ==> r[t] == ThreadWork(p, s, t)
  {
    seq(|p.pinned|, t requires 0 <= t < |p.pinned| => ThreadWork(p, s, t))
  }

  /** Actions still to come in the whole pass. */
  ghost function Remaining(p: Plan, s: State): int
    requires Shaped(p, s)
  {
    SumInt(ThreadWorks(p, s))
  }

  lemma StepCostsOne(p: Plan, s: State, t: nat)
    requires Shaped(p, s) && Enabled(p, s, t) && CurrentMoves(p, s, t)
    ensures ThreadWork(p, Step(p, s, t), t) == ThreadWork(p, s, t) - 1
  {
    var q := p.QueueOf(t);
    assert WorkFrom(p, t, s.next[t])
        == (if p.outcome[q[s.next[t]]] == Moves then 5 else 1) + WorkFrom(p, t, s.next[t] + 1);
  }

  lemma SameWork(p: Plan, s: State, r: State, t: nat)
    requires Shaped(p, s) && Shaped(p, r) && t < |p.pinned|
    requires r.next[t] == s.next[t] && r.phase[t] == s.phase[t]
    ensures ThreadWork(p, r, t) == ThreadWork(p, s, t)
  {
  }

  /** Work is lost only by the thread that acts. */
  lemma OneThreadWorks(p: Plan, s: State, r: State, t: nat)
    requires Shaped(p, s) && Shaped(p, r) && t < |p.pinned|
    requires ThreadWork(p, r, t) == ThreadWork(p, s, t) - 1
    requires forall u :: 0 <= u < |p.pinned| && u != t ==> r.next[u] == s.next[u] && r.phase[u] == s.phase[u]
    ensures Remaining(p, r) == Remaining(p, s) - 1
  {
    var before, after := ThreadWorks(p, s), ThreadWorks(p, r);
    forall u | 0 <= u < |p.pinned| ensures after[u] == before[t := before[t] - 1][u] {
      if u != t {
        SameWork(p, s, r, u);
      }
    }
    assert after == before[t := before[t] - 1];
    SumIntUpdate(before, t, before[t] - 1);
  }

  lemma StepCosts(p: Plan, s: State, t: nat)
    requires Shaped(p, s) && Enabled(p, s, t) && CurrentMoves(p, s, t)
    ensures Remaining(p, Step(p, s, t)) == Remaining(p, s) - 1
  {
    StepCostsOne(p, s, t);
    StepThread(p, s, t);
    OneThreadWorks(p, s, Step(p, s, t), t);
  }

  /** The schedule's length is the work it did, so no schedule goes on for ever. */
  lemma {:induction false} RunLength(p: Plan, s0: State, s: State, schedule: seq<nat>)
    requires Inv(p, s0, s) && Runs(p, s, schedule)
    ensures |schedule| == Remaining(p, s) - Remaining(p, Run(p, s, schedule))
    decreases |schedule|
  {
    if schedule != [] {
      StepCosts(p, s, schedule[0]);
      StepInv(p, s0, s, schedule[0]);
      RunLength(p, s0, Step(p, s, schedule[0]), schedule[1..]);
    }
  }

  lemma WorkLeft(p: Plan, s: State, t: nat)
    requires Shaped(p, s) && t < |p.pinned|
    requires Enabled(p, s, t) ==> CurrentMoves(p, s, t)
    ensures if Enabled(p, s, t) then ThreadWork(p, s, t) > 0 else ThreadWork(p, s, t) == 0
  {
    if Enabled(p, s, t) {
      assert WorkFrom(p, t, s.next[t])
          == (if p.outcome[Current(p, s, t)] == Moves then 5 else 1) + WorkFrom(p, t, s.next[t] + 1);
    }
  }

  lemma NothingLeft(p: Plan, s0: State, s: State)
    requires Inv(p, s0, s)
    ensures Remaining(p, s) >= 0
    ensures Remaining(p, s) == 0 <==> Done(p, s)
  {
    forall t | 0 <= t < |p.pinned|
      ensures if Enabled(p, s, t) then ThreadWork(p, s, t) > 0 else ThreadWork(p, s, t) == 0
    {
      WorkLeft(p, s, t);
    }
    SumIntZero(ThreadWorks(p, s));
    if Remaining(p, s) == 0 {
      forall t | 0 <= t < |p.pinned| ensures !Enabled(p, s, t) {
        assert ThreadWorks(p, s)[t] == 0;
      }
    }
  }

  /**
   * A schedule never exceeds the work of the plan, has done all of it exactly when every
   * thread has joined, and otherwise some thread can go on.
   */
  lemma SchedulesEnd(p: Plan, s: State, schedule: seq<nat>)
    requires Initial(p, s) && Runs(p, s, schedule)
    ensures |schedule| <= Remaining(p, s)
    ensures |schedule| == Remaining(p, s) <==> Done(p, Run(p, s, schedule))
    ensures !Done(p, Run(p, s, schedule)) ==> exists t :: Runs(p, s, schedule + [t])
  {
    InitialInv(p, s);
    RunInv(p, s, s, schedule);
    RunLength(p, s, s, schedule);
    var r := Run(p, s, schedule);
    NothingLeft(p, s, r);
    if !Done(p, r) {
      var t :| 0 <= t < |p.pinned| && Enabled(p, r, t);
      RunsExtend(p, s, schedule, t);
    }
  }

  lemma {:induction false} RunsExtend(p: Plan, s: State, schedule: seq<nat>, t: nat)
    requires Shaped(p, s) && Runs(p, s, schedule) && Enabled(p, Run(p, s, schedule), t)
    ensures Runs(p, s, schedule + [t])
    decreases |schedule|
  {
    var more := schedule + [t];
    if schedule == [] {
      assert more[1..] == [] && Runs(p, Step(p, s, t), []);
    } else {
      var r := Step(p, s, schedule[0]);
      assert more[0] == schedule[0] && more[1..] == schedule[1..] + [t];
      RunsExtend(p, r, schedule[1..], t);
    }
  }
}
