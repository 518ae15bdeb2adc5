/**
 * The transfers with the space they need. A copy into a full tier is retried without limit
 * (tier.cpp:169-181), waiting for another thread to free space, so here a copy can be made only when
 * the file fits. A pass may then get stuck; whether it does is not a matter of the schedule.
 */
module TransferSpace {
  import opened Sums
  import opened Placement
  import opened Transfer

  /** free is the unused space of every tier. */
  datatype Space = Space(s: State, free: seq<int>)

  ghost predicate Fitted(p: Plan, x: Space) {
    Shaped(p, x.s) && |x.free| == |p.pinned|
  }

  /** The thread's next action is a copy. */
  ghost predicate AtCopy(p: Plan, s: State, t: nat)
    requires Shaped(p, s) && Enabled(p, s, t)
  {
    s.phase[t] == Ready && p.outcome[Current(p, s, t)] == Moves
  }

  ghost predicate CanAct(p: Plan, x: Space, t: nat)
    requires Fitted(p, x)
  {
    Enabled(p, x.s, t) && (AtCopy(p, x.s, t) ==> p.sizes[Current(p, x.s, t)] <= x.free[t])
  }

  /** A copy takes the file's size from its new tier; removing the old file gives it to the old tier. */
  ghost function Act(p: Plan, x: Space, t: nat): (y: Space)
    requires Fitted(p, x) && CanAct(p, x, t)
    ensures Fitted(p, y) && y.s == Step(p, x.s, t)
  {
    var f := Current(p, x.s, t);
    Space(Step(p, x.s, t),
          if AtCopy(p, x.s, t) then
            var taken := x.free[t := x.free[t] - p.sizes[f]];
            taken[p.origin[f] := taken[p.origin[f]] + p.sizes[f]]
          else x.free)
  }

  /** The tier whose disk holds each file. */
  ghost function Holders(p: Plan, s: State): (r: seq<nat>)
    requires Shaped(p, s)
    ensures |r| == |p.sizes|
    ensures forall f :: 0 <= f < |r| ==> r[f] == if Stage(p, s, f) >= 1 then p.target[f] else p.origin[f]
  {
    seq(|p.sizes|, f requires 0 <= f < |p.sizes| => if Stage(p, s, f) >= 1 then p.target[f] else p.origin[f])
  }

  /** Free space and the files' bytes together are what each tier has for them. */
  ghost predicate Balanced(p: Plan, x: Space, room: seq<int>)
    requires Fitted(p, x)
  {
    |room| == |p.pinned| && forall t :: 0 <= t < |room| ==> x.free[t] + Share(p.sizes, Holders(p, x.s), t) == room[t]
  }

  lemma ActHolders(p: Plan, s0: State, x: Space, t: nat)
    requires Fitted(p, x) && Inv(p, s0, x.s) && CanAct(p, x, t)
    ensures Holders(p, Step(p, x.s, t)) ==
      if AtCopy(p, x.s, t) then Holders(p, x.s)[Current(p, x.s, t) := t] else Holders(p, x.s)
  {
    var f, r := Current(p, x.s, t), Step(p, x.s, t);
    forall g | 0 <= g < |p.sizes| && g != f ensures Holders(p, r)[g] == Holders(p, x.s)[g] {
      StageStep(p, x.s, t, g);
    }
    StageStep(p, x.s, t, f);
  }

  lemma ActBalanced(p: Plan, s0: State, x: Space, t: nat, room: seq<int>)
    requires Fitted(p, x) && Inv(p, s0, x.s) && CanAct(p, x, t) && Balanced(p, x, room)
    ensures Balanced(p, Act(p, x, t), room)
  {
    ActHolders(p, s0, x, t);
    if AtCopy(p, x.s, t) {
      var f, h := Current(p, x.s, t), Holders(p, x.s);
      assert h[f] == p.origin[f] != t;
      forall u | 0 <= u < |room|
        ensures Act(p, x, t).free[u] + Share(p.sizes, h[f := t], u) == room[u]
      {
        ShareUpdate(p.sizes, h, f, t, u);
      }
    }
  }

  // ------------------------------------------------------------- whole runs

  ghost predicate SpaceRuns(p: Plan, x: Space, schedule: seq<nat>)
    requires Fitted(p, x)
    decreases |schedule|
  {
    schedule != [] ==> CanAct(p, x, schedule[0]) && SpaceRuns(p, Act(p, x, schedule[0]), schedule[1..])
  }

  ghost function SpaceRun(p: Plan, x: Space, schedule: seq<nat>): (y: Space)
    requires Fitted(p, x) && SpaceRuns(p, x, schedule)
    ensures Fitted(p, y)
    decreases |schedule|
  {
    if schedule == [] then x else SpaceRun(p, Act(p, x, schedule[0]), schedule[1..])
  }

  /** Every run with space is a run without, so all that holds there holds here. */
  lemma {:induction false} SpaceRunIsRun(p: Plan, x: Space, schedule: seq<nat>)
    requires Fitted(p, x) && SpaceRuns(p, x, schedule)
    ensures Runs(p, x.s, schedule) && SpaceRun(p, x, schedule).s == Run(p, x.s, schedule)
    decreases |schedule|
  {
    if schedule != [] {
      SpaceRunIsRun(p, Act(p, x, schedule[0]), schedule[1..]);
    }
  }

  /** Space is neither made nor lost. */
  lemma {:induction false} SpaceRunBalanced(p: Plan, s0: State, x: Space, schedule: seq<nat>, room: seq<int>)
    requires Fitted(p, x) && Inv(p, s0, x.s) && Balanced(p, x, room) && SpaceRuns(p, x, schedule)
    ensures Balanced(p, SpaceRun(p, x, schedule), room) && Inv(p, s0, SpaceRun(p, x, schedule).s)
    decreases |schedule|
  {
    if schedule != [] {
      ActBalanced(p, s0, x, schedule[0], room);
      StepInv(p, s0, x.s, schedule[0]);
      SpaceRunBalanced(p, s0, Act(p, x, schedule[0]), schedule[1..], room);
    }
  }

  // ------------------------------------------------------------------ stuck

  ghost predicate Halted(p: Plan, x: Space)
    requires Fitted(p, x)
  {
    forall t :: 0 <= t < |p.pinned| ==> !CanAct(p, x, t)
  }

  ghost predicate Stuck(p: Plan, x: Space)
    requires Fitted(p, x)
  {
    Halted(p, x) && !Done(p, x.s)
  }

  /** An unfinished thread at a copy that does not fit. */
  ghost predicate Waits(p: Plan, x: Space, t: nat)
    requires Fitted(p, x)
  {
    Enabled(p, x.s, t) && AtCopy(p, x.s, t) && p.sizes[Current(p, x.s, t)] > x.free[t]
  }

  /** An unfinished pass is stuck exactly when each unfinished thread is at a copy that does not fit. */
  lemma StuckIff(p: Plan, x: Space)
    requires Fitted(p, x) && !Done(p, x.s)
    ensures Stuck(p, x) <==> forall t :: 0 <= t < |p.pinned| && Enabled(p, x.s, t) ==> Waits(p, x, t)
  {
    forall t: nat | t < |p.pinned|
      ensures Enabled(p, x.s, t) ==> (CanAct(p, x, t) <==> !Waits(p, x, t))
      ensures CanAct(p, x, t) ==> Enabled(p, x.s, t)
    {
    }
  }

  // ------------------------------------- every schedule halts in one state

  /** Every thread has come no further in a than in b. */
  ghost predicate Behind(p: Plan, a: State, b: State)
    requires Shaped(p, a) && Shaped(p, b)
  {
    forall t :: 0 <= t < |p.pinned| ==> ThreadBehind(a, b, t)
  }

  predicate ThreadBehind(a: State, b: State, t: nat)
    requires t < |a.next| && t < |a.phase| && t < |b.next| && t < |b.phase|
  {
    a.next[t] < b.next[t] || (a.next[t] == b.next[t] && PhaseNumber(a.phase[t]) <= PhaseNumber(b.phase[t]))
  }

  predicate ThreadLevel(a: State, b: State, t: nat)
    requires t < |a.next| && t < |a.phase| && t < |b.next| && t < |b.phase|
  {
    a.next[t] == b.next[t] && a.phase[t] == b.phase[t]
  }

  lemma CopiedStays(p: Plan, s0: State, a: State, b: State, f: nat)
    requires Inv(p, s0, a) && Inv(p, s0, b) && Behind(p, a, b) && f < |p.sizes|
    ensures Stage(p, a, f) >= 1 ==> Stage(p, b, f) >= 1
  {
    var u := p.target[f];
    if Queued(p, f) && Enabled(p, b, u) {
      assert ThreadBehind(a, b, u);
      var q := p.QueueOf(u);
      assert a.next[u] < b.next[u] ==> q[a.next[u]] < q[b.next[u]];
    }
  }

  lemma LevelStage(p: Plan, a: State, b: State, f: nat)
    requires Shaped(p, a) && Shaped(p, b) && f < |p.sizes|
    requires p.target[f] < |p.pinned| ==> ThreadLevel(a, b, p.target[f])
    ensures Stage(p, a, f) == Stage(p, b, f)
  {
  }

  lemma {:induction false} ShareLess(sizes: seq<nat>, a: seq<nat>, b: seq<nat>, k: nat)
    requires |sizes| == |a| == |b| && forall i :: 0 <= i < |a| && a[i] == k ==> b[i] == k
    ensures Share(sizes, a, k) <= Share(sizes, b, k)
  {
    if |sizes| > 0 {
      var n := |sizes| - 1;
      ShareLess(sizes[..n], a[..n], b[..n], k);
    }
  }

  /** Only its own thread takes a tier's space; the others can only have freed more of it. */
  lemma NoLessFree(p: Plan, s0: State, a: Space, b: Space, t: nat, room: seq<int>)
    requires Fitted(p, a) && Fitted(p, b) && Inv(p, s0, a.s) && Inv(p, s0, b.s)
    requires Balanced(p, a, room) && Balanced(p, b, room)
    requires Behind(p, a.s, b.s) && t < |p.pinned| && ThreadLevel(a.s, b.s, t)
    ensures a.free[t] <= b.free[t]
  {
    var h, k := Holders(p, a.s), Holders(p, b.s);
    forall f | 0 <= f < |p.sizes| && k[f] == t
      ensures h[f] == t
    {
      CopiedStays(p, s0, a.s, b.s, f);
      if p.target[f] == t {
        LevelStage(p, a.s, b.s, f);
      }
    }
    ShareLess(p.sizes, k, h, t);
  }

  lemma LevelCanAct(p: Plan, s0: State, a: Space, b: Space, t: nat, room: seq<int>)
    requires Fitted(p, a) && Fitted(p, b) && Inv(p, s0, a.s) && Inv(p, s0, b.s)
    requires Balanced(p, a, room) && Balanced(p, b, room)
    requires Behind(p, a.s, b.s) && t < |p.pinned| && ThreadLevel(a.s, b.s, t)
    ensures CanAct(p, a, t) ==> CanAct(p, b, t)
  {
    NoLessFree(p, s0, a, b, t, room);
    assert Enabled(p, a.s, t) ==> Current(p, a.s, t) == Current(p, b.s, t);
  }

  /** A thread that has not caught up does not overtake with one action. */
  lemma ActCatchesUp(p: Plan, s0: State, a: State, b: State, t: nat)
    requires Inv(p, s0, a) && Inv(p, s0, b) && Enabled(p, a, t)
    requires ThreadBehind(a, b, t) && !ThreadLevel(a, b, t)
    ensures ThreadBehind(Step(p, a, t), b, t)
  {
    if a.next[t] == b.next[t] {
      assert Current(p, a, t) == Current(p, b, t);
    }
  }

  /** A run cannot overtake a halted state. */
  lemma ActStaysBehind(p: Plan, s0: State, a: Space, b: Space, t: nat, room: seq<int>)
    requires Fitted(p, a) && Fitted(p, b) && Inv(p, s0, a.s) && Inv(p, s0, b.s)
    requires Balanced(p, a, room) && Balanced(p, b, room)
    requires Behind(p, a.s, b.s) && Halted(p, b) && CanAct(p, a, t)
    ensures Behind(p, Act(p, a, t).s, b.s)
  {
    if ThreadLevel(a.s, b.s, t) {
      LevelCanAct(p, s0, a, b, t, room);
    }
    assert ThreadBehind(a.s, b.s, t);
    ActCatchesUp(p, s0, a.s, b.s, t);
    StepThread(p, a.s, t);
    forall u | 0 <= u < |p.pinned|
      ensures ThreadBehind(Step(p, a.s, t), b.s, u)
    {
      assert ThreadBehind(a.s, b.s, u);
    }
  }

  lemma {:induction false} RunStaysBehind(
      p: Plan, s0: State, a: Space, b: Space, schedule: seq<nat>, room: seq<int>)
    requires Fitted(p, a) && Fitted(p, b) && Inv(p, s0, a.s) && Inv(p, s0, b.s)
    requires Balanced(p, a, room) && Balanced(p, b, room)
    requires Behind(p, a.s, b.s) && Halted(p, b) && SpaceRuns(p, a, schedule)
    ensures Behind(p, SpaceRun(p, a, schedule).s, b.s)
    decreases |schedule|
  {
    if schedule != [] {
      ActStaysBehind(p, s0, a, b, schedule[0], room);
      ActBalanced(p, s0, a, schedule[0], room);
      StepInv(p, s0, a.s, schedule[0]);
      RunStaysBehind(p, s0, Act(p, a, schedule[0]), b, schedule[1..], room);
    }
  }

  lemma StartIsBehind(p: Plan, a: State, b: State)
    requires Initial(p, a) && Shaped(p, b)
    ensures Behind(p, a, b)
  {
  }

  lemma BothBehindIsLevel(p: Plan, a: State, b: State)
    requires Shaped(p, a) && Shaped(p, b) && Behind(p, a, b) && Behind(p, b, a)
    ensures a.next == b.next && a.phase == b.phase
  {
    forall t | 0 <= t < |p.pinned| ensures a.next[t] == b.next[t] && a.phase[t] == b.phase[t] {
      assert ThreadBehind(a, b, t) && ThreadBehind(b, a, t);
    }
  }

  lemma SameFile(p: Plan, s0: State, a: State, b: State, f: nat)
    requires Inv(p, s0, a) && Inv(p, s0, b) && f < |p.sizes| && Stage(p, a, f) == Stage(p, b, f)
    ensures a.tierPtr[f] == b.tierPtr[f] && a.metadata[f] == b.metadata[f]
    ensures SameAt(a.index, b.index, p.paths[f])
    ensures forall t :: (t, p.paths[f]) in a.disk <==> (t, p.paths[f]) in b.disk
  {
    assert FileAt(p, s0, a, f, Stage(p, a, f)) && FileAt(p, s0, b, f, Stage(p, b, f));
  }

  lemma SameAnyPath(p: Plan, s0: State, a: State, b: State, k: string)
    requires Inv(p, s0, a) && Inv(p, s0, b) && forall f :: 0 <= f < |p.sizes| ==> Stage(p, a, f) == Stage(p, b, f)
    ensures SameAt(a.index, b.index, k) && forall t :: (t, k) in a.disk <==> (t, k) in b.disk
  {
    if k in p.paths {
      var f :| 0 <= f < |p.paths| && p.paths[f] == k;
      SameFile(p, s0, a, b, f);
    }
  }

  lemma SameElsewhere(p: Plan, s0: State, a: State, b: State)
    requires Inv(p, s0, a) && Inv(p, s0, b) && forall f :: 0 <= f < |p.sizes| ==> Stage(p, a, f) == Stage(p, b, f)
    ensures a.disk == b.disk && a.index == b.index
  {
    forall e: (nat, string) ensures e in a.disk <==> e in b.disk {
      SameAnyPath(p, s0, a, b, e.1);
      assert (e.0, e.1) in a.disk <==> (e.0, e.1) in b.disk;
    }
    forall k: string ensures (k in a.index <==> k in b.index) && (k in a.index ==> a.index[k] == b.index[k]) {
      SameAnyPath(p, s0, a, b, k);
    }
    assert a.index.Keys == b.index.Keys;
  }

  /** How far the threads have come decides everything else. */
  lemma ProgressDecides(p: Plan, s0: State, a: State, b: State)
    requires Inv(p, s0, a) && Inv(p, s0, b) && a.next == b.next && a.phase == b.phase
    ensures a == b
  {
    forall f | 0 <= f < |p.sizes|
      ensures Stage(p, a, f) == Stage(p, b, f)
      ensures a.tierPtr[f] == b.tierPtr[f] && a.metadata[f] == b.metadata[f]
    {
      LevelStage(p, a, b, f);
      SameFile(p, s0, a, b, f);
    }
    assert a.tierPtr == b.tierPtr && a.metadata == b.metadata;
    assert Owners(p, a) == Owners(p, b);
    assert a.usage == b.usage;
    SameElsewhere(p, s0, a, b);
  }

  /** What each tier has for the files of the pass. */
  ghost function RoomFor(p: Plan, x: Space): (room: seq<int>)
    requires Fitted(p, x)
    ensures Balanced(p, x, room)
  {
    seq(|p.pinned|, t requires 0 <= t < |p.pinned| => x.free[t] + Share(p.sizes, Holders(p, x.s), t))
  }

  lemma SameSpace(p: Plan, a: Space, b: Space, room: seq<int>)
    requires Fitted(p, a) && Fitted(p, b) && a.s == b.s && Balanced(p, a, room) && Balanced(p, b, room)
    ensures a == b
  {
    assert a.free == b.free;
  }

  lemma HaltedNotBehind(p: Plan, x: Space, schedule: seq<nat>, end: Space)
    requires Fitted(p, x) && Initial(p, x.s) && SpaceRuns(p, x, schedule)
    requires Fitted(p, end) && Inv(p, x.s, end.s) && Balanced(p, end, RoomFor(p, x)) && Halted(p, end)
    ensures Behind(p, SpaceRun(p, x, schedule).s, end.s)
  {
    InitialInv(p, x.s);
    StartIsBehind(p, x.s, end.s);
    RunStaysBehind(p, x.s, x, end, schedule, RoomFor(p, x));
  }

  /**
   * Whether a pass finishes or gets stuck, and in which state, is the same for every schedule that
   * goes on as long as it can.
   */
  lemma SchedulesHaltAlike(p: Plan, x: Space, one: seq<nat>, other: seq<nat>)
    requires Fitted(p, x) && Initial(p, x.s) && SpaceRuns(p, x, one) && SpaceRuns(p, x, other)
    requires Halted(p, SpaceRun(p, x, one)) && Halted(p, SpaceRun(p, x, other))
    ensures SpaceRun(p, x, one) == SpaceRun(p, x, other)
  {
    var a, b, room := SpaceRun(p, x, one), SpaceRun(p, x, other), RoomFor(p, x);
    InitialInv(p, x.s);
    SpaceRunBalanced(p, x.s, x, one, room);
    SpaceRunBalanced(p, x.s, x, other, room);
    HaltedNotBehind(p, x, one, b);
    HaltedNotBehind(p, x, other, a);
    BothBehindIsLevel(p, a.s, b.s);
    ProgressDecides(p, x.s, a.s, b.s);
    SameSpace(p, a, b, room);
  }

  // -------------------------------------------------------- who gets stuck

  /** The tier each moving file goes to; number |pinned| for the others. */
  function Incoming(p: Plan): (r: seq<nat>)
    requires |p.origin| == |p.target| == |p.outcome|
    ensures |r| == |p.target|
    ensures forall f :: 0 <= f < |r| ==> r[f] == if p.Moved(f) then p.target[f] else |p.pinned|
  {
    seq(|p.target|, f requires 0 <= f < |p.target| => if p.Moved(f) then p.target[f] else |p.pinned|)
  }

  lemma {:induction false} ShareSplit(sizes: seq<nat>, a: seq<nat>, b: seq<nat>, c: seq<nat>, k: nat)
    requires |sizes| == |a| == |b| == |c| && forall i :: 0 <= i < |a| && a[i] == k ==> b[i] == k || c[i] == k
    ensures Share(sizes, a, k) <= Share(sizes, b, k) + Share(sizes, c, k)
  {
    if |sizes| > 0 {
      var n := |sizes| - 1;
      ShareSplit(sizes[..n], a[..n], b[..n], c[..n], k);
    }
  }

  lemma NextCopyFits(p: Plan, s0: State, y: Space, room: seq<int>, t: nat)
    requires Fitted(p, y) && Inv(p, s0, y.s) && Balanced(p, y, room) && Enabled(p, y.s, t)
    requires Share(p.sizes, p.origin, t) + Share(p.sizes, Incoming(p), t) <= room[t]
    ensures CanAct(p, y, t)
  {
    if AtCopy(p, y.s, t) {
      var f, h := Current(p, y.s, t), Holders(p, y.s);
      ShareUpdate(p.sizes, h, f, t, t);
      ShareSplit(p.sizes, h[f := t], p.origin, Incoming(p), t);
    }
  }

  /** A pass in which every tier has free space for all it is to receive never gets stuck. */
  lemma EnoughRoomNeverStuck(p: Plan, x: Space, schedule: seq<nat>)
    requires Fitted(p, x) && Initial(p, x.s) && SpaceRuns(p, x, schedule)
    requires forall t :: 0 <= t < |p.pinned| ==> Share(p.sizes, Incoming(p), t) <= x.free[t]
    ensures !Stuck(p, SpaceRun(p, x, schedule))
  {
    var y, room := SpaceRun(p, x, schedule), RoomFor(p, x);
    InitialInv(p, x.s);
    SpaceRunBalanced(p, x.s, x, schedule, room);
    NothingHeldAtStart(p, x.s);
    forall t: nat | t < |p.pinned| && Enabled(p, y.s, t)
      ensures CanAct(p, y, t)
    {
      NextCopyFits(p, x.s, y, room, t);
    }
  }

  lemma NothingHeldAtStart(p: Plan, s: State)
    requires Initial(p, s)
    ensures Holders(p, s) == p.origin
  {
    forall f | 0 <= f < |p.sizes| ensures Stage(p, s, f) == 0 {
      if Queued(p, f) {
        assert f in p.QueueOf(p.target[f]);
      }
    }
  }

  /** Two tiers, each with a file of n bytes for the other. */
  function Swap(n: nat): Plan {
    Plan([n, n], ["a", "b"], [0, 1], [1, 0], [Moves, Moves], [0, 0])
  }

  function SwapStart(n: nat): State {
    var m := Transfer.Metadata(0, 0, 0.0, false);
    State([0, 1], [m, m.(tierPath := 1)], [n, n], {(0, "a"), (1, "b")}, map["a" := m, "b" := m.(tierPath := 1)],
          [0, 0], [Ready, Ready])
  }

  lemma SwapQueues(n: nat)
    ensures Swap(n).QueueOf(0) == [1] && Swap(n).QueueOf(1) == [0]
  {
    assert Queue([1, 0], [0, 1], 0, 1) == [] && Queue([1, 0], [0, 1], 1, 1) == [0];
  }

  lemma ShareOfTwo(sizes: seq<nat>, owner: seq<nat>, k: nat)
    requires |sizes| == |owner| == 2
    ensures Share(sizes, owner, k) == (if owner[0] == k then sizes[0] else 0) + (if owner[1] == k then sizes[1] else 0)
  {
    var s, o := sizes[..1], owner[..1];
    assert Share(s[..0], o[..0], k) == 0;
    assert Share(s, o, k) == if o[0] == k then s[0] else 0;
  }

  lemma SwapShares(n: nat)
    ensures Share([n, n], [0, 1], 0) == n && Share([n, n], [0, 1], 1) == n
  {
    ShareOfTwo([n, n], [0, 1], 0);
    ShareOfTwo([n, n], [0, 1], 1);
  }

  lemma SwapShaped(n: nat)
    ensures Shaped(Swap(n), SwapStart(n))
  {
    SwapQueues(n);
    assert "a" != "b";
  }

  lemma SwapStarts(n: nat)
    ensures Initial(Swap(n), SwapStart(n))
  {
    SwapShaped(n);
    SwapShares(n);
    assert "a" != "b";
  }

  lemma SwapWaits(n: nat, free: seq<int>, t: nat)
    requires |free| == 2 && t < 2 && free[t] < n && Shaped(Swap(n), SwapStart(n))
    ensures Waits(Swap(n), Space(SwapStart(n), free), t)
  {
    SwapQueues(n);
  }

  /** Tiers that exchange files neither has space for are stuck from the start. */
  lemma FullTiersCannotSwap(n: nat, free: seq<int>)
    requires |free| == 2 && free[0] < n && free[1] < n
    ensures Fitted(Swap(n), Space(SwapStart(n), free)) && Initial(Swap(n), SwapStart(n))
    ensures Stuck(Swap(n), Space(SwapStart(n), free))
  {
    SwapStarts(n);
    SwapWaits(n, free, 0);
    SwapWaits(n, free, 1);
    StuckIff(Swap(n), Space(SwapStart(n), free));
  }
}
