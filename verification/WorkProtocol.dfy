/**
 * The ad hoc work queue line by line: any number of threads asking for work, interleaved with the
 * one tiering thread that pops it. Only the queue itself is locked; oneshot_in_queue_ is tested,
 * set and cleared on separate lines.
 */
module WorkProtocol {
  import opened WorkQueue

  /** The line a requesting thread is about to run. */
  datatype Producer =
    | Idle
    | Testing             // enqueue_work: if (oneshot_in_queue_)
    | Setting             // enqueue_work: oneshot_in_queue_ = true
    | Emplacing           // enqueue_work: adhoc_work_.emplace
    | Checking            // process_oneshot: if (currently_tiering())
    | Pushing(job: Job)   // process_oneshot, process_pin_unpin: adhoc_work_.push

  /** The line the tiering thread is about to run. */
  datatype Consumer =
    | Resting                  // begin: outside execute_queued_work
    | Looping                  // execute_queued_work: while (!empty())
    | Popping
    | Popped(job: Job)         // the switch; a one-shot's next line clears the flag
    | Cleared                  // about to call tier()
    | Tiering(queued: bool)    // inside tier(), called for a queued job or by begin
    | PinTesting | PinSetting | PinEmplacing   // enqueue_work at the end of pin_files

  /** starts counts the tiering passes begun so far. */
  datatype State = State(queue: seq<Job>, flag: bool, producers: seq<Producer>, consumer: Consumer,
                         strict: bool, starts: nat)

  predicate Initial(s: State) {
    && s.queue == [] && !s.flag && s.consumer == Resting && s.starts == 0
    && forall p :: p in s.producers ==> p == Idle
  }

  predicate ProducerStep(s: State, t: State, i: nat) {
    && i < |s.producers| == |t.producers|
    && var p, q := s.producers[i], t.producers[i];
    && t.producers == s.producers[i := q]
    && (t.consumer, t.strict, t.starts) == (s.consumer, s.strict, s.starts)
    && match p {
         case Idle =>
           && (t.queue, t.flag) == (s.queue, s.flag)
           && (q == Testing || q == Checking || q == Pushing(Unpin) || (q.Pushing? && q.job.Pin?))
         case Testing =>
           (t.queue, t.flag) == (s.queue, s.flag) && q == (if s.flag then Idle else Setting)
         case Setting =>
           (t.queue, t.flag) == (s.queue, true) && q == Emplacing
         case Emplacing =>
           (t.queue, t.flag) == (s.queue + [Oneshot], s.flag) && q == Idle
         case Checking =>
           // currently_tiering_ becomes true some lines into tier()
           (t.queue, t.flag) == (s.queue, s.flag) && (q == Pushing(Oneshot) || (s.consumer.Tiering? && q == Idle))
         case Pushing(job) =>
           (t.queue, t.flag) == (s.queue + [job], s.flag) && q == Idle
       }
  }

  predicate ConsumerStep(s: State, t: State) {
    && (t.producers, t.strict) == (s.producers, s.strict)
    && match s.consumer {
         case Resting =>
           (t.queue, t.flag) == (s.queue, s.flag)
           && ((t.consumer == Looping && t.starts == s.starts)
               || (t.consumer == Tiering(false) && t.starts == s.starts + 1))
         case Looping =>
           t == s.(consumer := if s.queue == [] then Resting else Popping)
         case Popping =>
           s.queue != [] && t == s.(queue := s.queue[1..], consumer := Popped(s.queue[0]))
         case Popped(job) =>
           (match job {
              case Oneshot => t == s.(flag := false, consumer := Cleared)
              case Pin(reachesEnd) => t == s.(consumer := if reachesEnd && !s.strict then PinTesting else Looping)
              case Unpin => t == s.(consumer := Looping)
            })
         case Cleared =>
           t == s.(consumer := Tiering(true), starts := s.starts + 1)
         case Tiering(queued) =>
           t == s.(consumer := if queued then Looping else Resting)
         case PinTesting =>
           t == s.(consumer := if s.flag then Looping else PinSetting)
         case PinSetting =>
           t == s.(flag := true, consumer := PinEmplacing)
         case PinEmplacing =>
           t == s.(queue := s.queue + [Oneshot], consumer := Looping)
       }
  }

  ghost predicate Step(s: State, t: State) {
    ConsumerStep(s, t) || exists i :: ProducerStep(s, t, i)
  }

  /** A one-shot that still has to clear the flag is queued, popped, or about to be queued. */
  predicate Held(s: State) {
    || Oneshot in s.queue
    || Emplacing in s.producers
    || s.consumer == Popped(Oneshot)
    || s.consumer == PinEmplacing
  }

  /** A tiering pass is still owed. */
  predicate Pending(s: State) {
    Held(s) || s.consumer == Cleared
  }

  predicate Inv(s: State) {
    && (s.flag ==> Held(s))
    && (s.consumer == Popping ==> s.queue != [])
  }

  lemma ProducerKeeps(s: State, t: State, i: nat)
    requires Inv(s) && ProducerStep(s, t, i)
    ensures Inv(t) && (Pending(s) ==> Pending(t))
  {
    if s.producers[i] == Emplacing {
      assert t.queue[|s.queue|] == Oneshot;
    } else if s.producers[i] == Setting {
      assert t.producers[i] == Emplacing;
    }
    if Emplacing in s.producers && s.producers[i] != Emplacing {
      var j :| 0 <= j < |s.producers| && s.producers[j] == Emplacing;
      assert t.producers[j] == Emplacing;
    }
    if Oneshot in s.queue {
      var k :| 0 <= k < |s.queue| && s.queue[k] == Oneshot;
      assert t.queue[k] == Oneshot;
    }
  }

  lemma ConsumerKeeps(s: State, t: State)
    requires Inv(s) && ConsumerStep(s, t)
    ensures Inv(t)
    ensures s.starts <= t.starts && (t.starts == s.starts && Pending(s) ==> Pending(t))
  {
    match s.consumer {
      case Popping => assert s.queue == [s.queue[0]] + s.queue[1..];
      case PinEmplacing => assert t.queue[|s.queue|] == Oneshot;
      case _ =>
    }
  }

  lemma StepKeeps(s: State, t: State)
    requires Inv(s) && Step(s, t)
    ensures Inv(t) && s.starts <= t.starts
    ensures t.starts == s.starts && Pending(s) ==> Pending(t)
  {
    if ConsumerStep(s, t) {
      ConsumerKeeps(s, t);
    } else {
      var i :| ProducerStep(s, t, i);
      ProducerKeeps(s, t, i);
    }
  }

  ghost predicate StepAt(run: seq<State>, k: nat)
    requires k + 1 < |run|
  {
    Step(run[k], run[k + 1])
  }

  ghost predicate Steps(run: seq<State>) {
    forall k: nat :: k + 1 < |run| ==> StepAt(run, k)
  }

  ghost predicate Run(run: seq<State>) {
    run != [] && Initial(run[0]) && Steps(run)
  }

  /** A set flag always has its one-shot, and pop is never called on an empty queue. */
  lemma {:induction false} RunInv(run: seq<State>, k: nat)
    requires Run(run) && k < |run|
    ensures Inv(run[k])
  {
    if k > 0 {
      RunInv(run, k - 1);
      assert StepAt(run, k - 1);
      StepKeeps(run[k - 1], run[k]);
    }
  }

  lemma RunStepKeeps(run: seq<State>, k: nat)
    requires Run(run) && k + 1 < |run|
    ensures run[k].starts <= run[k + 1].starts
    ensures run[k + 1].starts == run[k].starts && Pending(run[k]) ==> Pending(run[k + 1])
  {
    RunInv(run, k);
    assert StepAt(run, k);
    StepKeeps(run[k], run[k + 1]);
  }

  /** A pass that is owed stays owed until one starts. */
  lemma {:induction false} PendingUntilStart(run: seq<State>, k: nat, n: nat)
    requires Run(run) && k <= n < |run| && Pending(run[k])
    ensures run[k].starts <= run[n].starts
    ensures Pending(run[n]) || run[k].starts < run[n].starts
    decreases n
  {
    if k < n {
      PendingUntilStart(run, k, n - 1);
      RunStepKeeps(run, n - 1);
    }
  }

  /** The line on which a request for a pass returns to its caller. */
  predicate Answers(s: State, t: State, i: nat) {
    && ProducerStep(s, t, i)
    && s.producers[i] in [Testing, Emplacing, Pushing(Oneshot)]
    && t.producers[i] == Idle
  }

  predicate AtRest(s: State) {
    s.queue == [] && s.consumer == Resting && forall p :: p in s.producers ==> p != Emplacing
  }

  /**
   * No request is lost, coalesced or queued, whatever the interleaving: once everything has been
   * drained, a tiering pass has started after the request was answered.
   */
  lemma NoRequestLost(run: seq<State>, k: nat, i: nat, n: nat)
    requires Run(run) && k < n < |run|
    requires Answers(run[k], run[k + 1], i)
    requires AtRest(run[n])
    ensures run[k].starts < run[n].starts
    ensures !run[n].flag
  {
    RunInv(run, k);
    var s, t := run[k], run[k + 1];
    if s.producers[i] == Testing {
      ProducerKeeps(s, t, i);
    } else {
      assert t.queue[|s.queue|] == Oneshot;
    }
    assert Pending(t);
    PendingUntilStart(run, k + 1, n);
    RunInv(run, n);
  }

  /** A pass is owed, or a pin batch outside strict mode is on its way to ask for one. */
  predicate Owed(s: State) {
    Pending(s) || (!s.strict && s.consumer in [Popped(Pin(true)), PinTesting, PinSetting])
  }

  lemma OwedKept(s: State, t: State)
    requires Inv(s) && Step(s, t) && Owed(s) && t.starts == s.starts
    ensures Owed(t)
  {
    StepKeeps(s, t);
    if !ConsumerStep(s, t) {
      var i :| ProducerStep(s, t, i);
    }
  }

  lemma {:induction false} OwedUntilStart(run: seq<State>, k: nat, n: nat)
    requires Run(run) && k <= n < |run| && Owed(run[k])
    ensures run[k].starts <= run[n].starts
    ensures Owed(run[n]) || run[k].starts < run[n].starts
    decreases n
  {
    if k < n {
      OwedUntilStart(run, k, n - 1);
      RunStepKeeps(run, n - 1);
      RunInv(run, n - 1);
      assert StepAt(run, n - 1);
      if Owed(run[n - 1]) && run[n].starts == run[n - 1].starts {
        OwedKept(run[n - 1], run[n]);
      }
    }
  }

  /** Outside strict mode a pin batch that gets to its end is followed by a pass, coalesced or not. */
  lemma PinBringsPass(run: seq<State>, k: nat, n: nat)
    requires Run(run) && k <= n < |run| && run[k].consumer == Popped(Pin(true)) && !run[k].strict
    requires AtRest(run[n])
    ensures run[k].starts < run[n].starts
  {
    OwedUntilStart(run, k, n);
  }

  /** In strict mode the tiering thread never asks itself for a pass. */
  lemma {:induction false} StrictNeverAsks(run: seq<State>, n: nat)
    requires Run(run) && n < |run| && run[0].strict
    ensures run[n].strict && run[n].consumer !in [PinTesting, PinSetting, PinEmplacing]
  {
    if n > 0 {
      StrictNeverAsks(run, n - 1);
      assert StepAt(run, n - 1);
    }
  }

  /** What a line puts at the end of the queue, and the job it takes out to run. */
  function Queued(s: State, t: State): seq<Job> {
    if |s.queue| < |t.queue| then t.queue[|s.queue|..] else []
  }

  function Taken(s: State, t: State): seq<Job> {
    if s.consumer == Popping && t.consumer.Popped? then [t.consumer.job] else []
  }

  ghost function AllQueued(run: seq<State>, n: nat): seq<Job>
    requires n < |run|
  {
    if n == 0 then [] else AllQueued(run, n - 1) + Queued(run[n - 1], run[n])
  }

  ghost function AllTaken(run: seq<State>, n: nat): seq<Job>
    requires n < |run|
  {
    if n == 0 then [] else AllTaken(run, n - 1) + Taken(run[n - 1], run[n])
  }

  lemma StepFifo(s: State, t: State)
    requires Step(s, t)
    ensures Taken(s, t) + t.queue == s.queue + Queued(s, t)
  {
    if ConsumerStep(s, t) {
      if s.consumer == Popping {
        assert s.queue == [s.queue[0]] + s.queue[1..];
      }
    }
  }

  lemma RunStepFifo(run: seq<State>, k: nat)
    requires Run(run) && k + 1 < |run|
    ensures Taken(run[k], run[k + 1]) + run[k + 1].queue == run[k].queue + Queued(run[k], run[k + 1])
  {
    assert StepAt(run, k);
    StepFifo(run[k], run[k + 1]);
  }

  lemma Regroup(taken: seq<Job>, more: seq<Job>, before: seq<Job>, after: seq<Job>, all: seq<Job>, added: seq<Job>)
    requires taken + before == all && more + after == before + added
    ensures (taken + more) + after == all + added
  {
    assert (taken + more) + after == taken + (more + after);
    assert taken + (before + added) == (taken + before) + added;
  }

  lemma OrderGrows(run: seq<State>, n: nat)
    requires 0 < n < |run| && AllTaken(run, n - 1) + run[n - 1].queue == AllQueued(run, n - 1)
    requires Taken(run[n - 1], run[n]) + run[n].queue == run[n - 1].queue + Queued(run[n - 1], run[n])
    ensures AllTaken(run, n) + run[n].queue == AllQueued(run, n)
  {
    var s, t := run[n - 1], run[n];
    Regroup(AllTaken(run, n - 1), Taken(s, t), s.queue, t.queue, AllQueued(run, n - 1), Queued(s, t));
  }

  /** Whatever is interleaved, jobs are taken in the order they were queued, and none is lost or made up. */
  lemma {:induction false} TakenInOrder(run: seq<State>, n: nat)
    requires Run(run) && n < |run|
    ensures AllTaken(run, n) + run[n].queue == AllQueued(run, n)
  {
    if n > 0 {
      TakenInOrder(run, n - 1);
      RunStepFifo(run, n - 1);
      OrderGrows(run, n);
    }
  }

  /** Two requesting threads, and a queue of one-shots. */
  function Spread(queued: nat, flag: bool, a: Producer, b: Producer, consumer: Consumer, starts: nat): State {
    State(seq(queued, _ => Oneshot), flag, [a, b], consumer, false, starts)
  }

  /** Both threads test the flag before either sets it. */
  function Race(q: nat, c: Consumer, n: nat): seq<State> {
    [Spread(q, false, Testing, Idle, c, n),
     Spread(q, false, Testing, Testing, c, n),
     Spread(q, false, Setting, Testing, c, n),
     Spread(q, false, Setting, Setting, c, n),
     Spread(q, true, Emplacing, Setting, c, n),
     Spread(q, true, Emplacing, Emplacing, c, n),
     Spread(q + 1, true, Idle, Emplacing, c, n),
     Spread(q + 2, true, Idle, Idle, c, n)]
  }

  /** The tiering thread takes one job and starts its pass. */
  function Serve(q: nat, n: nat): seq<State> {
    [Spread(q + 2, true, Idle, Idle, Looping, n),
     Spread(q + 2, true, Idle, Idle, Popping, n),
     Spread(q + 1, true, Idle, Idle, Popped(Oneshot), n),
     Spread(q + 1, false, Idle, Idle, Cleared, n),
     Spread(q + 1, false, Idle, Idle, Tiering(true), n + 1)]
  }

  /** No request here goes past the flag, and no pin batch queues a one-shot. */
  predicate OnlyFlagged(run: seq<State>) {
    forall s <- run :: forall p <- s.producers :: !p.Pushing?
  }

  lemma RaceSteps(q: nat, c: Consumer, n: nat)
    ensures Steps([Spread(q, false, Idle, Idle, c, n)] + Race(q, c, n)) && OnlyFlagged(Race(q, c, n))
  {
    var r := [Spread(q, false, Idle, Idle, c, n)] + Race(q, c, n);
    assert ProducerStep(r[0], r[1], 0);
    assert ProducerStep(r[1], r[2], 1);
    assert ProducerStep(r[2], r[3], 0);
    assert ProducerStep(r[3], r[4], 1);
    assert ProducerStep(r[4], r[5], 0);
    assert ProducerStep(r[5], r[6], 1);
    assert r[6].queue + [Oneshot] == r[7].queue;
    assert ProducerStep(r[6], r[7], 0);
    assert r[7].queue + [Oneshot] == r[8].queue;
    assert ProducerStep(r[7], r[8], 1);
  }

  lemma ServeSteps(q: nat, c: Consumer, n: nat)
    requires c == Resting || c == Tiering(true)
    ensures Steps([Spread(q + 2, true, Idle, Idle, c, n)] + Serve(q, n)) && OnlyFlagged(Serve(q, n))
  {
    var r := [Spread(q + 2, true, Idle, Idle, c, n)] + Serve(q, n);
    assert ConsumerStep(r[0], r[1]);
    assert ConsumerStep(r[1], r[2]);
    assert r[2].queue[1..] == r[3].queue;
    assert ConsumerStep(r[2], r[3]);
    assert ConsumerStep(r[3], r[4]);
    assert ConsumerStep(r[4], r[5]);
  }

  lemma StepsJoin(a: seq<State>, b: seq<State>)
    requires Steps(a) && a != [] && Steps([a[|a| - 1]] + b)
    ensures Steps(a + b)
  {
    var joined, tail := a + b, [a[|a| - 1]] + b;
    forall k: nat | k + 1 < |joined|
      ensures StepAt(joined, k)
    {
      if k < |a| - 1 {
        assert StepAt(a, k);
      } else {
        assert StepAt(tail, k - (|a| - 1));
      }
    }
  }

  /** One more round: one more one-shot is left behind. */
  lemma RoundSteps(before: seq<State>, q: nat, c: Consumer, n: nat) returns (run: seq<State>)
    requires before != [] && Steps(before) && OnlyFlagged(before) && (c == Resting || c == Tiering(true))
    requires before[|before| - 1] == Spread(q, false, Idle, Idle, c, n)
    ensures Steps(run) && OnlyFlagged(run) && before <= run
    ensures run[|run| - 1] == Spread(q + 1, false, Idle, Idle, Tiering(true), n + 1)
  {
    RaceSteps(q, c, n);
    StepsJoin(before, Race(q, c, n));
    ServeSteps(q, c, n);
    StepsJoin(before + Race(q, c, n), Serve(q, n));
    run := before + Race(q, c, n) + Serve(q, n);
  }

  /**
   * Line by line the flag bounds nothing: for every number there is a run of two requesting
   * threads, with no direct push, that leaves that many one-shots queued while the flag is clear.
   */
  lemma {:induction false} CoalescingIsUnbounded(k: nat) returns (run: seq<State>)
    ensures Run(run) && OnlyFlagged(run)
    ensures run[|run| - 1] == Spread(k, false, Idle, Idle, if k == 0 then Resting else Tiering(true), k)
  {
    if k == 0 {
      run := [Spread(0, false, Idle, Idle, Resting, 0)];
    } else {
      var before := CoalescingIsUnbounded(k - 1);
      var c := if k == 1 then Resting else Tiering(true);
      run := RoundSteps(before, k - 1, c, k - 1);
    }
  }
}
