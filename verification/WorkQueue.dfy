/**
 * The ad hoc work queue with whole calls taken as atomic: ConcurrentQueue, enqueue_work,
 * process_oneshot and execute_queued_work.
 */
module WorkQueue {

  /** Pin carries whether its batch reaches the enqueue_work call at the end of pin_files. */
  datatype Job = Oneshot | Pin(reachesEnd: bool) | Unpin

  class ConcurrentQueue<T> {
    var queue: seq<T>

    constructor ()
      ensures queue == []
    {
      queue := [];
    }

    method Empty() returns (empty: bool)
      ensures empty == (queue == [])
    {
      empty := queue == [];
    }

    method Push(val: T)
      modifies this
      ensures queue == old(queue) + [val]
    {
      queue := queue + [val];
    }

    /** No guard against an empty queue: callers ask Empty first. */
    method Pop() returns (val: T)
      requires queue != []
      modifies this
      ensures val == old(queue)[0] && queue == old(queue)[1..]
    {
      val, queue := queue[0], queue[1..];
    }
  }

  function Oneshots(queue: seq<Job>): nat {
    if queue == [] then 0 else (if queue[0] == Oneshot then 1 else 0) + Oneshots(queue[1..])
  }

  lemma {:induction false} OneshotsAppend(queue: seq<Job>, job: Job)
    ensures Oneshots(queue + [job]) == Oneshots(queue) + (if job == Oneshot then 1 else 0)
    ensures Oneshots(queue) > 0 <==> Oneshot in queue
  {
    if queue != [] {
      OneshotsAppend(queue[1..], job);
      assert (queue + [job])[1..] == queue[1..] + [job];
      assert queue == [queue[0]] + queue[1..];
    } else {
      assert ([job])[1..] == [];
    }
  }

  /** The queue and the flag after enqueue_work. */
  function Enqueue(queue: seq<Job>, flag: bool, job: Job): (seq<Job>, bool) {
    if job == Oneshot && flag then (queue, flag)
    else (queue + [job], flag || job == Oneshot)
  }

  /** Turns of the loop still to come at most: a pin batch may add one tiering run. */
  function Weight(queue: seq<Job>): nat {
    if queue == [] then 0 else (if queue[0].Pin? then 2 else 1) + Weight(queue[1..])
  }

  lemma {:induction false} WeightAppend(queue: seq<Job>, job: Job)
    ensures Weight(queue + [job]) == Weight(queue) + (if job.Pin? then 2 else 1)
  {
    if queue == [] {
      assert ([job])[1..] == [];
    } else {
      WeightAppend(queue[1..], job);
      assert (queue + [job])[1..] == queue[1..] + [job];
    }
  }

  /** The queue and the flag after the first job has been popped and executed. */
  function ExecuteFirst(queue: seq<Job>, flag: bool, strict: bool): (r: (seq<Job>, bool))
    requires queue != []
    ensures Weight(r.0) < Weight(queue)
  {
    match queue[0]
    case Oneshot => (queue[1..], false)
    case Unpin => (queue[1..], flag)
    case Pin(reachesEnd) =>
      WeightAppend(queue[1..], Oneshot);
      if reachesEnd && !strict then Enqueue(queue[1..], flag, Oneshot) else (queue[1..], flag)
  }

  /** The jobs execute_queued_work runs, in order; Oneshot stands for a call of tier(). */
  function Drain(queue: seq<Job>, flag: bool, strict: bool): seq<Job>
    decreases Weight(queue)
  {
    if queue == [] then []
    else
      var next := ExecuteFirst(queue, flag, strict);
      [queue[0]] + Drain(next.0, next.1, strict)
  }

  /** If the flag is set a one-shot is queued. */
  predicate FlagHonest(queue: seq<Job>, flag: bool) {
    flag ==> Oneshot in queue
  }

  lemma FlagStaysHonest(queue: seq<Job>, flag: bool, strict: bool)
    requires queue != [] && FlagHonest(queue, flag)
    ensures FlagHonest(ExecuteFirst(queue, flag, strict).0, ExecuteFirst(queue, flag, strict).1)
  {
  }

  /** The queued jobs are run in the order they were queued. */
  lemma {:induction false} DrainIsFifo(queue: seq<Job>, flag: bool, strict: bool)
    ensures queue <= Drain(queue, flag, strict)
    decreases Weight(queue)
  {
    if queue != [] {
      var next := ExecuteFirst(queue, flag, strict);
      DrainIsFifo(next.0, next.1, strict);
      assert queue[1..] <= next.0;
      assert queue == [queue[0]] + queue[1..];
    }
  }

  /** In strict mode only the queued jobs are run: a pin batch queues no tiering run. */
  lemma {:induction false} StrictRunsQueued(queue: seq<Job>, flag: bool)
    ensures Drain(queue, flag, true) == queue
  {
    if queue != [] {
      StrictRunsQueued(queue[1..], ExecuteFirst(queue, flag, true).1);
      assert queue == [queue[0]] + queue[1..];
    }
  }

  function PinsToEnd(queue: seq<Job>): nat {
    if queue == [] then 0 else (if queue[0] == Pin(true) then 1 else 0) + PinsToEnd(queue[1..])
  }

  lemma {:induction false} PinsAppend(queue: seq<Job>)
    ensures PinsToEnd(queue + [Oneshot]) == PinsToEnd(queue)
  {
    if queue == [] {
      assert ([Oneshot])[1..] == [];
    } else {
      PinsAppend(queue[1..]);
      assert (queue + [Oneshot])[1..] == queue[1..] + [Oneshot];
    }
  }

  /** What is run beyond the queued jobs are tiering runs, at most one for each pin batch. */
  lemma {:induction false} DrainAdds(queue: seq<Job>, flag: bool, strict: bool)
    ensures |queue| <= |Drain(queue, flag, strict)| <= |queue| + PinsToEnd(queue)
    ensures forall i :: |queue| <= i < |Drain(queue, flag, strict)| ==> Drain(queue, flag, strict)[i] == Oneshot
    decreases Weight(queue)
  {
    if queue != [] {
      var next := ExecuteFirst(queue, flag, strict);
      DrainAdds(next.0, next.1, strict);
      DrainIsFifo(next.0, next.1, strict);
      PinsAppend(queue[1..]);
    }
  }

  /** Every pin batch that gets to its end is followed by a tiering run, coalesced or not. */
  lemma {:induction false} PinThenTier(queue: seq<Job>, flag: bool, strict: bool, i: nat) returns (j: nat)
    requires FlagHonest(queue, flag) && !strict
    requires i < |Drain(queue, flag, strict)| && Drain(queue, flag, strict)[i] == Pin(true)
    ensures i < j < |Drain(queue, flag, strict)| && Drain(queue, flag, strict)[j] == Oneshot
    decreases Weight(queue)
  {
    var next := ExecuteFirst(queue, flag, strict);
    FlagStaysHonest(queue, flag, strict);
    if i > 0 {
      j := PinThenTier(next.0, next.1, strict, i - 1);
      j := j + 1;
    } else {
      assert Oneshot in next.0 by {
        assert queue == [queue[0]] + queue[1..];
      }
      DrainIsFifo(next.0, next.1, strict);
      var k: nat :| k < |next.0| && next.0[k] == Oneshot;
      assert Drain(next.0, next.1, strict)[k] == next.0[k];
      j := k + 1;
    }
  }

  // ------------------------------------------------- any sequence of calls

  /** A whole call: enqueue_work, a push past the flag, or one turn of execute_queued_work. */
  datatype Call = Request(job: Job) | DirectPush(job: Job) | TakeJob

  datatype Work = Work(queue: seq<Job>, flag: bool, pushes: nat)

  function Called(w: Work, call: Call, strict: bool): Work {
    match call
    case Request(job) =>
      var r := Enqueue(w.queue, w.flag, job);
      Work(r.0, r.1, w.pushes)
    case DirectPush(job) =>
      Work(w.queue + [job], w.flag, w.pushes + (if job == Oneshot then 1 else 0))
    case TakeJob =>
      if w.queue == [] then w
      else
        var r := ExecuteFirst(w.queue, w.flag, strict);
        Work(r.0, r.1, w.pushes)
  }

  function AfterCalls(calls: seq<Call>, strict: bool): Work {
    if calls == [] then Work([], false, 0)
    else Called(AfterCalls(calls[..|calls| - 1], strict), calls[|calls| - 1], strict)
  }

  /**
   * With whole calls atomic, the one-shots queued never exceed those pushed past the flag so far,
   * plus one if the flag is set; and a set flag has its one-shot.
   */
  lemma {:induction false} AtomicBound(calls: seq<Call>, strict: bool)
    ensures var w := AfterCalls(calls, strict);
      Oneshots(w.queue) <= w.pushes + (if w.flag then 1 else 0) && FlagHonest(w.queue, w.flag)
  {
    if calls != [] {
      var w, call := AfterCalls(calls[..|calls| - 1], strict), calls[|calls| - 1];
      AtomicBound(calls[..|calls| - 1], strict);
      match call {
        case Request(job) => OneshotsAppend(w.queue, job);
        case DirectPush(job) => OneshotsAppend(w.queue, job);
        case TakeJob =>
          if w.queue != [] {
            FlagStaysHonest(w.queue, w.flag, strict);
            OneshotsAppend(w.queue[1..], Oneshot);
          }
      }
    }
  }

  class AdhocEngine {
    const work: ConcurrentQueue<Job>
    const strictPeriod: bool
    var oneshotInQueue: bool
    ghost var pushes: nat        // one-shots pushed past the flag so far
    ghost var executed: seq<Job>

    constructor (work: ConcurrentQueue<Job>, strictPeriod: bool)
      requires work.queue == []
      ensures this.work == work && this.strictPeriod == strictPeriod && Valid() && executed == [] && pushes == 0
    {
      this.work, this.strictPeriod, oneshotInQueue := work, strictPeriod, false;
      pushes, executed := 0, [];
    }

    /** Queued one-shots never exceed the direct pushes so far, plus one if the flag is set. */
    ghost predicate Valid()
      reads this, work
    {
      && FlagHonest(work.queue, oneshotInQueue)
      && Oneshots(work.queue) <= pushes + (if oneshotInQueue then 1 else 0)
    }

    method EnqueueWork(job: Job)
      requires Valid()
      modifies this, work
      ensures Valid() && pushes == old(pushes) && executed == old(executed)
      ensures (work.queue, oneshotInQueue) == Enqueue(old(work.queue), old(oneshotInQueue), job)
      ensures if job == Oneshot && old(oneshotInQueue) then work.queue == old(work.queue) && oneshotInQueue
              else work.queue == old(work.queue) + [job] && oneshotInQueue == (old(oneshotInQueue) || job == Oneshot)
    {
      if job == Oneshot {
        if oneshotInQueue {
          return;
        }
        oneshotInQueue := true;
      }
      OneshotsAppend(work.queue, job);
      work.Push(job);
    }

    /** Pushes past the flag, unless the command has arguments or a pass is under way. */
    method ProcessOneshot(hasArgs: bool, currentlyTiering: bool) returns (ok: bool)
      requires Valid()
      modifies this, work
      ensures Valid() && executed == old(executed) && oneshotInQueue == old(oneshotInQueue)
      ensures ok == (!hasArgs && !currentlyTiering)
      ensures work.queue == old(work.queue) + (if ok then [Oneshot] else [])
      ensures pushes == old(pushes) + (if ok then 1 else 0)
    {
      if hasArgs || currentlyTiering {
        return false;
      }
      OneshotsAppend(work.queue, Oneshot);
      work.Push(Oneshot);
      pushes := pushes + 1;
      ok := true;
    }

    /** The first queued job is popped and run. */
    method ExecuteJob()
      requires Valid() && work.queue != []
      modifies this, work
      ensures Valid() && pushes == old(pushes)
      ensures (work.queue, oneshotInQueue) == ExecuteFirst(old(work.queue), old(oneshotInQueue), strictPeriod)
      ensures executed == old(executed) + [old(work.queue)[0]]
    {
      FlagStaysHonest(work.queue, oneshotInQueue, strictPeriod);
      var job := work.Pop();
      executed := executed + [job];
      match job {
        case Oneshot => oneshotInQueue := false;
        case Unpin =>
        case Pin(reachesEnd) =>
          if reachesEnd && !strictPeriod {
            EnqueueWork(Oneshot);
          }
      }
    }

    /** Pops and runs jobs until the queue is empty; nothing else is queued meanwhile. */
    method ExecuteQueuedWork()
      requires Valid()
      modifies this, work
      ensures Valid() && work.queue == [] && !oneshotInQueue && pushes == old(pushes)
      ensures executed == old(executed) + Drain(old(work.queue), old(oneshotInQueue), strictPeriod)
    {
      var empty := work.Empty();
      while !empty
        invariant Valid() && pushes == old(pushes) && empty == (work.queue == [])
        invariant executed + Drain(work.queue, oneshotInQueue, strictPeriod)
               == old(executed) + Drain(old(work.queue), old(oneshotInQueue), strictPeriod)
        decreases Weight(work.queue)
      {
        ghost var queue, flag := work.queue, oneshotInQueue;
        ExecuteJob();
        assert Drain(queue, flag, strictPeriod) == [queue[0]] + Drain(work.queue, oneshotInQueue, strictPeriod);
        empty := work.Empty();
      }
      assert Drain(work.queue, oneshotInQueue, strictPeriod) == [];
    }
  }
}
