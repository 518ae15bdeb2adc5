/** What a whole tiering pass leaves: usage against quota, total bytes, and the index. */
module PassResult {
  import opened Sums
  import opened Placement
  import opened Transfer

  // ------------------------------------------------------------------ usage

  /** The holders of the files left where they were not assigned; |pinned| for the others. */
  function Strays(p: Plan): (r: seq<nat>)
    requires |p.origin| == |p.target| == |p.outcome|
    ensures |r| == |p.target|
    ensures forall f :: 0 <= f < |r| ==>
      r[f] == if p.FinalTier(f) == p.target[f] then |p.pinned| else p.FinalTier(f)
  {
    seq(|p.target|, f requires 0 <= f < |p.target| =>
      if p.FinalTier(f) == p.target[f] then |p.pinned| else p.FinalTier(f))
  }

  /** The tiers that files were assigned to and did not reach. */
  function Absent(p: Plan): (r: seq<nat>)
    requires |p.origin| == |p.target| == |p.outcome|
    ensures |r| == |p.target|
    ensures forall f :: 0 <= f < |r| ==>
      r[f] == if p.FinalTier(f) == p.target[f] then |p.pinned| else p.target[f]
  {
    seq(|p.target|, f requires 0 <= f < |p.target| =>
      if p.FinalTier(f) == p.target[f] then |p.pinned| else p.target[f])
  }

  lemma {:induction false} ShareBalance(
      sizes: seq<nat>, held: seq<nat>, wanted: seq<nat>, stray: seq<nat>, absent: seq<nat>, k: nat)
    requires |sizes| == |held| == |wanted| == |stray| == |absent|
    requires forall i :: 0 <= i < |held| ==>
      if held[i] == wanted[i] then stray[i] != k && absent[i] != k
      else stray[i] == held[i] && absent[i] == wanted[i]
    ensures Share(sizes, held, k) + Share(sizes, absent, k) == Share(sizes, wanted, k) + Share(sizes, stray, k)
  {
    if |sizes| > 0 {
      var n := |sizes| - 1;
      ShareBalance(sizes[..n], held[..n], wanted[..n], stray[..n], absent[..n], k);
    }
  }

  /**
   * After a pass a tier's usage is its simulated usage plus its pinned bytes, plus the
   * strays in it, minus the files that did not reach it; so it is at most quota plus
   * pinned plus strays.
   */
  lemma UsageAfterPass(p: Plan, s0: State, s: State, quotas: seq<nat>, t: nat)
    requires Finished(p, s0, s) && |quotas| == |p.pinned| && t < |quotas|
    requires p.target == Assignment(p.sizes, quotas)
    ensures s.usage[t] == SimAfter(p.sizes, quotas, |p.sizes|)[t] + p.pinned[t]
                          + Share(p.sizes, Strays(p), t) - Share(p.sizes, Absent(p), t)
    ensures s.usage[t] <= quotas[t] + p.pinned[t] + Share(p.sizes, Strays(p), t)
  {
    var n := |p.sizes|;
    SimIsShare(p.sizes, quotas, n, t);
    assert p.sizes[..n] == p.sizes && p.target[..n] == p.target;
    ShareBalance(p.sizes, p.FinalTiers(), p.target, Strays(p), Absent(p), t);
    WithinQuota(p.sizes, quotas, n, t);
  }

  lemma {:induction false} TotalUpTo(p: Plan, s: State, owner: seq<nat>, n: nat)
    requires Shaped(p, s) && |owner| == |p.sizes| && n <= |p.pinned|
    requires forall t :: 0 <= t < n ==> s.usage[t] == p.pinned[t] + Share(p.sizes, owner, t)
    ensures SumInt(s.usage[..n]) == Sum(p.pinned[..n]) + ShareTotal(p.sizes, owner, n)
  {
    if n > 0 {
      TotalUpTo(p, s, owner, n - 1);
      assert s.usage[..n][..n - 1] == s.usage[..n - 1] && p.pinned[..n][..n - 1] == p.pinned[..n - 1];
    }
  }

  lemma InvConserves(p: Plan, s0: State, r: State)
    requires Inv(p, s0, r)
    ensures SumInt(r.usage) + Share(p.sizes, Owners(p, r), |p.pinned|) == Sum(p.pinned) + Sum(p.sizes)
  {
    var n := |p.pinned|;
    TotalUpTo(p, r, Owners(p, r), n);
    assert r.usage[..n] == r.usage && p.pinned[..n] == p.pinned;
    ShareTotalIsSum(p.sizes, Owners(p, r), n + 1);
  }

  /**
   * At every moment of every schedule the counters together hold all the crawled bytes
   * except those of the files between their debit and their credit.
   */
  lemma BytesConserved(p: Plan, s: State, schedule: seq<nat>)
    requires Initial(p, s) && Runs(p, s, schedule)
    ensures var r := Run(p, s, schedule);
            SumInt(r.usage) + Share(p.sizes, Owners(p, r), |p.pinned|) == Sum(p.pinned) + Sum(p.sizes)
  {
    InitialInv(p, s);
    RunInv(p, s, s, schedule);
    InvConserves(p, s, Run(p, s, schedule));
  }

  /** Room the placement leaves in a tier. */
  function Room(p: Plan, quotas: seq<nat>, t: nat): nat
    requires t < |quotas|
  {
    WithinQuota(p.sizes, quotas, |p.sizes|, t);
    quotas[t] - SimAfter(p.sizes, quotas, |p.sizes|)[t]
  }

  /** Pinned bytes and strays exceed the room left and the bytes that did not arrive. */
  predicate Overfills(p: Plan, quotas: seq<nat>, pinned: nat, t: nat)
    requires t < |quotas| && |p.sizes| == |p.origin| == |p.target| == |p.outcome|
  {
    pinned + Share(p.sizes, Strays(p), t) > Room(p, quotas, t) + Share(p.sizes, Absent(p), t)
  }

  lemma TotalAtStart(p: Plan, s: State)
    requires Initial(p, s)
    ensures SumInt(s.usage) == Sum(p.pinned) + Sum(p.sizes)
  {
    var n := |p.pinned|;
    TotalUpTo(p, s, p.origin, n);
    assert s.usage[..n] == s.usage && p.pinned[..n] == p.pinned;
    ShareTotalIsSum(p.sizes, p.origin, n);
  }

  lemma QueueHoldsQueued(p: Plan, t: nat)
    requires p.Valid() && t < |p.pinned|
    ensures p.QueueOf(t) != [] ==> exists f :: 0 <= f < |p.sizes| && Queued(p, f)
  {
    if p.QueueOf(t) != [] {
      assert Queued(p, p.QueueOf(t)[0]);
    }
  }

  /** With nothing queued the start is the end. */
  lemma StaysAsItIs(p: Plan, s: State)
    requires Initial(p, s) && forall f :: 0 <= f < |p.sizes| ==> !Queued(p, f)
    ensures Finished(p, s, s)
  {
    InitialInv(p, s);
    forall t | 0 <= t < |p.pinned| ensures p.QueueOf(t) == [] {
      QueueHoldsQueued(p, t);
    }
    DoneIsFinished(p, s, s);
  }

  lemma TotalAfterPass(p: Plan, s0: State, s: State)
    requires Finished(p, s0, s)
    ensures SumInt(s.usage) == Sum(p.pinned) + Sum(p.sizes)
  {
    var n := |p.pinned|;
    TotalUpTo(p, s, p.FinalTiers(), n);
    assert s.usage[..n] == s.usage && p.pinned[..n] == p.pinned;
    ShareTotalIsSum(p.sizes, p.FinalTiers(), n);
  }

  // ------------------------------------------------------------------ index

  /** TierEngineTiering::update_db over the first n files. */
  function UpdateAll(index: map<string, Metadata>, paths: seq<string>, metadata: seq<Metadata>, n: nat)
    : (r: map<string, Metadata>)
    requires |paths| == |metadata| && n <= |paths|
    ensures forall k :: k !in paths[..n] ==> SameAt(r, index, k)
    ensures forall k :: k in r <==> k in index || k in paths[..n]
  {
    if n == 0 then index
    else
      assert paths[..n] == paths[..n - 1] + [paths[n - 1]];
      UpdateAll(index, paths, metadata, n - 1)[paths[n - 1] := metadata[n - 1]]
  }

  lemma {:induction false} UpdateAllAt(
      index: map<string, Metadata>, paths: seq<string>, metadata: seq<Metadata>, n: nat, f: nat)
    requires |paths| == |metadata| && f < n <= |paths|
    requires forall f, g :: 0 <= f < g < |paths| ==> paths[f] != paths[g]
    ensures paths[f] in UpdateAll(index, paths, metadata, n)
    ensures UpdateAll(index, paths, metadata, n)[paths[f]] == metadata[f]
  {
    var before := UpdateAll(index, paths, metadata, n - 1);
    assert UpdateAll(index, paths, metadata, n) == before[paths[n - 1] := metadata[n - 1]];
    if f < n - 1 {
      UpdateAllAt(index, paths, metadata, n - 1, f);
      assert paths[f] != paths[n - 1];
    }
  }

  /**
   * After the pass every crawled file has an entry naming the one tier that holds it,
   * however its move went, and every other key and backend file is as it was.
   */
  lemma EntriesNameHolders(p: Plan, s0: State, s: State, f: nat)
    requires Finished(p, s0, s) && f < |p.sizes|
    requires s0.metadata[f].tierPath == p.origin[f]
    ensures var index := UpdateAll(s.index, p.paths, s.metadata, |p.paths|);
            var k := p.paths[f];
            && k in index && index[k].tierPath == p.FinalTier(f)
            && index[k] == s0.metadata[f].(tierPath := p.FinalTier(f))
            && (forall t :: (t, k) in s.disk <==> t == index[k].tierPath)
  {
    UpdateAllAt(s.index, p.paths, s.metadata, |p.paths|, f);
  }

  lemma OutsidersKept(p: Plan, s0: State, s: State, k: string)
    requires Finished(p, s0, s) && k !in p.paths
    ensures SameAt(UpdateAll(s.index, p.paths, s.metadata, |p.paths|), s0.index, k)
    ensures forall t :: (t, k) in s.disk <==> (t, k) in s0.disk
  {
    assert p.paths[..|p.paths|] == p.paths;
  }

  /** A correct index stays correct over a pass, for pinned and unpinned files alike. */
  lemma CorrectIndexStaysCorrect(p: Plan, s0: State, s: State)
    requires Finished(p, s0, s)
    requires forall f :: 0 <= f < |p.sizes| ==> s0.metadata[f].tierPath == p.origin[f]
    requires forall k :: k in s0.index ==> (s0.index[k].tierPath, k) in s0.disk
    ensures var index := UpdateAll(s.index, p.paths, s.metadata, |p.paths|);
            forall k :: k in index ==> (index[k].tierPath, k) in s.disk
  {
    var index := UpdateAll(s.index, p.paths, s.metadata, |p.paths|);
    forall k | k in index ensures (index[k].tierPath, k) in s.disk {
      if k in p.paths {
        var f :| 0 <= f < |p.paths| && p.paths[f] == k;
        EntriesNameHolders(p, s0, s, f);
      } else {
        OutsidersKept(p, s0, s, k);
      }
    }
  }
}
