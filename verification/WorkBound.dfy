/**
 * What the flag of the work queue does bound, line by line: one-shots held against direct pushes
 * and against the times a thread sets the flag while it is already set.
 */
module WorkBound {
  import opened WorkQueue
  import opened WorkProtocol

  function Count(producers: seq<Producer>, p: Producer): nat {
    if producers == [] then 0 else (if producers[0] == p then 1 else 0) + Count(producers[1..], p)
  }

  lemma {:induction false} CountUpdate(producers: seq<Producer>, i: nat, q: Producer, p: Producer)
    requires i < |producers|
    ensures Count(producers[i := q], p)
         == Count(producers, p) - (if producers[i] == p then 1 else 0) + (if q == p then 1 else 0)
  {
    if i == 0 {
      assert producers[i := q][1..] == producers[1..];
    } else {
      CountUpdate(producers[1..], i - 1, q, p);
      assert producers[i := q][1..] == producers[1..][i - 1 := q];
    }
  }

  lemma {:induction false} CountPositive(producers: seq<Producer>, p: Producer)
    ensures Count(producers, p) > 0 <==> p in producers
  {
    if producers != [] {
      CountPositive(producers[1..], p);
      assert producers == [producers[0]] + producers[1..];
    }
  }

  /** One-shots queued, popped with the flag still to be cleared, or about to be emplaced. */
  function OneshotsHeld(s: State): nat {
    Oneshots(s.queue) + Count(s.producers, Emplacing)
    + (if s.consumer == Popped(Oneshot) || s.consumer == PinEmplacing then 1 else 0)
  }

  /** A line that pushes a one-shot past the flag. */
  ghost predicate PushesPast(s: State, t: State) {
    exists i: nat :: ProducerStep(s, t, i) && s.producers[i] == Pushing(Oneshot)
  }

  /** A line that sets the flag although it is set. */
  ghost predicate SetsAgain(s: State, t: State) {
    s.flag && ((ConsumerStep(s, t) && s.consumer == PinSetting)
               || exists i: nat :: ProducerStep(s, t, i) && s.producers[i] == Setting)
  }

  ghost function Pushes(run: seq<State>, n: nat): nat
    requires n < |run|
  {
    if n == 0 then 0 else Pushes(run, n - 1) + (if PushesPast(run[n - 1], run[n]) then 1 else 0)
  }

  ghost function Resets(run: seq<State>, n: nat): nat
    requires n < |run|
  {
    if n == 0 then 0 else Resets(run, n - 1) + (if SetsAgain(run[n - 1], run[n]) then 1 else 0)
  }

  function Bit(b: bool): nat {
    if b then 1 else 0
  }

  lemma ProducerHolds(s: State, t: State, i: nat)
    requires ProducerStep(s, t, i)
    ensures OneshotsHeld(t) - Bit(t.flag) ==
      OneshotsHeld(s) - Bit(s.flag) + Bit(s.producers[i] == Pushing(Oneshot)) + Bit(s.flag && s.producers[i] == Setting)
  {
    CountUpdate(s.producers, i, t.producers[i], Emplacing);
    OneshotsAppend(s.queue, Oneshot);
    if s.producers[i].Pushing? {
      OneshotsAppend(s.queue, s.producers[i].job);
    }
  }

  lemma ConsumerHolds(s: State, t: State)
    requires ConsumerStep(s, t)
    ensures OneshotsHeld(t) - Bit(t.flag) <= OneshotsHeld(s) - Bit(s.flag) + Bit(s.flag && s.consumer == PinSetting)
    ensures s.consumer == PinSetting ==> OneshotsHeld(t) == OneshotsHeld(s) + 1
  {
    OneshotsAppend(s.queue, Oneshot);
  }

  lemma StepHolds(s: State, t: State)
    requires Step(s, t)
    ensures OneshotsHeld(t) - Bit(t.flag)
         <= OneshotsHeld(s) - Bit(s.flag) + Bit(PushesPast(s, t)) + Bit(SetsAgain(s, t))
  {
    if ConsumerStep(s, t) {
      ConsumerHolds(s, t);
    } else if i: nat :| ProducerStep(s, t, i) {
      ProducerHolds(s, t, i);
    }
  }

  /**
   * At every state of every run the one-shots held are at most the direct pushes so far, plus the
   * times the flag was set while already set, plus one if the flag is set.
   */
  lemma {:induction false} HeldBound(run: seq<State>, n: nat)
    requires Run(run) && n < |run|
    ensures OneshotsHeld(run[n]) <= Pushes(run, n) + Resets(run, n) + Bit(run[n].flag)
  {
    if n == 0 {
      CountPositive(run[0].producers, Emplacing);
    } else {
      HeldBound(run, n - 1);
      assert StepAt(run, n - 1);
      StepHolds(run[n - 1], run[n]);
    }
  }

  lemma SetAgainHoldsTwo(s: State, t: State)
    requires Inv(s) && SetsAgain(s, t)
    ensures OneshotsHeld(t) >= 2
  {
    HeldCounted(s);
    if ConsumerStep(s, t) && s.consumer == PinSetting {
      ConsumerHolds(s, t);
    } else {
      var i: nat :| ProducerStep(s, t, i) && s.producers[i] == Setting;
      ProducerHolds(s, t, i);
    }
  }

  lemma HeldCounted(s: State)
    ensures Held(s) <==> OneshotsHeld(s) > 0
  {
    OneshotsAppend(s.queue, Oneshot);
    CountPositive(s.producers, Emplacing);
  }

  lemma {:induction false} NoneCounted(run: seq<State>, n: nat)
    requires n < |run|
    ensures Pushes(run, n) == 0 <==> forall k :: 0 < k <= n ==> !PushesPast(run[k - 1], run[k])
    ensures Resets(run, n) == 0 <==> forall k :: 0 < k <= n ==> !SetsAgain(run[k - 1], run[k])
  {
    if n > 0 {
      NoneCounted(run, n - 1);
    }
  }

  /**
   * Without direct pushes at most one one-shot is ever held exactly when no thread sets the flag
   * while it is already set.
   */
  lemma AtMostOneIff(run: seq<State>)
    requires Run(run) && forall k :: 0 < k < |run| ==> !PushesPast(run[k - 1], run[k])
    ensures (forall n :: 0 <= n < |run| ==> OneshotsHeld(run[n]) <= 1)
       <==> (forall k :: 0 < k < |run| ==> !SetsAgain(run[k - 1], run[k]))
  {
    if forall k :: 0 < k < |run| ==> !SetsAgain(run[k - 1], run[k]) {
      forall n | 0 <= n < |run| ensures OneshotsHeld(run[n]) <= 1 {
        HeldBound(run, n);
        NoneCounted(run, n);
      }
    } else {
      var k: nat :| 0 < k < |run| && SetsAgain(run[k - 1], run[k]);
      RunInv(run, k - 1);
      SetAgainHoldsTwo(run[k - 1], run[k]);
    }
  }
}
