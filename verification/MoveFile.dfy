/**
 * Tier::move_file: the copy of FileCopy into a hidden temporary file, and the remove-then-rename
 * that follows. The kernel's history records the backend after every change to it, so a crash, a
 * kill or an exception at any point leaves one of the recorded states.
 */
module MoveFile {
  import opened FileCopy

  /** The hidden name a file is copied to. */
  function HiddenName(p: Path): Path {
    p.(name := "." + p.name + ".autotier.hide")
  }

  function ConflictName(p: Path, origTier: string): Path {
    p.(name := p.name + ".autotier_conflict." + origTier)
  }

  /** The three names a move may use at its destination are different, whatever the file is called. */
  lemma NamesDiffer(p: Path, origTier: string)
    ensures HiddenName(p) != p && ConflictName(p, origTier) != p
    ensures HiddenName(p) != ConflictName(p, origTier)
  {
  }

  /** Files left beside one another by moves from different tiers have different names. */
  lemma ConflictsApart(p: Path, origTier: string, otherTier: string)
    ensures ConflictName(p, origTier) == ConflictName(p, otherTier) <==> origTier == otherTier
    ensures HiddenName(p) == Path(p.tier, p.dir, "." + p.name + ".autotier.hide")
    ensures ConflictName(p, "SSD").name == p.name + ".autotier_conflict.SSD"
  {
    var n := |p.name| + |".autotier_conflict."|;
    assert origTier == ConflictName(p, origTier).name[n..] && otherTier == ConflictName(p, otherTier).name[n..];
  }

  /** Where the file ends up: at its own name, or beside a file that is already there. */
  function FinalName(files: map<Path, Bytes>, to: Path, origTier: string): Path {
    if to in files then ConflictName(to, origTier) else to
  }

  // ------------------------------------------------------------- the move

  datatype MoveResult = Moved(conflicted: bool) | Failed | Threw

  /** The contents are somewhere under a name the move knows. */
  ghost predicate Recoverable(files: map<Path, Bytes>, from: Path, to: Path, last: Path, data: Bytes) {
    || (from in files && files[from] == data)
    || (HiddenName(to) in files && files[HiddenName(to)] == data)
    || (last in files && files[last] == data)
  }

  ghost predicate SameBut(a: map<Path, Bytes>, b: map<Path, Bytes>, names: set<Path>) {
    forall q :: q !in names ==> ((q in a <==> q in b) && (q in a ==> a[q] == b[q]))
  }

  /** tier.cpp:137-217. configured is the copy buffer size as the configuration has it. */
  method MoveFile(kernel: Kernel, from: Path, to: Path, configured: nat, origTier: string) returns (r: MoveResult)
    requires from.tier != to.tier
    modifies kernel
    ensures MoveSpec(old(kernel.files), kernel.files, from, to, configured, origTier, r)
    ensures var k, files := old(kernel.faults), old(kernel.files);
      r.Moved? <==>
        && CanMove(files, from, to, configured) && !k.openFails && !k.createFails && !k.closeFails
        && CopyRun(|files[from]|, ToInt(configured), 0, k).ok
    ensures r.Moved? ==>
      var last := if r.conflicted then to.(name := to.name + ".autotier_conflict." + origTier) else to;
      && r.conflicted == (to in old(kernel.files)) && from !in kernel.files && HiddenName(to) !in kernel.files
      && last in kernel.files && from in old(kernel.files)
      && (Lossless(old(kernel.files)[from], configured) ==> kernel.files[last] == old(kernel.files)[from])
      && (r.conflicted ==> to in kernel.files && kernel.files[to] == old(kernel.files)[to])
    ensures CanMove(old(kernel.files), from, to, configured) && !old(kernel.faults).openFails
            && !old(kernel.faults).createFails ==>
      r.Moved? || HiddenName(to) in kernel.files
    ensures old(kernel.history) <= kernel.history
    ensures forall i :: |old(kernel.history)| <= i < |kernel.history| ==>
      OnTheWay(old(kernel.files), kernel.history[i], from, to, configured, origTier)
  {
    NamesDiffer(to, origTier);
    ghost var before, begun := kernel.files, kernel.history;
    var tmp, buffSz := HiddenName(to), ToInt(configured);
    if buffSz < 0 {
      return Threw;
    }
    var ok := CopyToHidden(kernel, from, tmp, buffSz);
    forall i | |begun| <= i < |kernel.history|
      ensures OnTheWay(before, kernel.history[i], from, to, configured, origTier)
    {
      PrefixOnTheWay(before, kernel.history[i], from, to, configured, origTier);
    }
    if !ok {
      return Failed;
    }
    var conflicted := PutInPlace(kernel, from, to, configured, origTier, before);
    r := Moved(conflicted);
  }

  lemma PrefixOnTheWay(
      before: map<Path, Bytes>, now: map<Path, Bytes>, from: Path, to: Path, configured: nat, origTier: string)
    requires from.tier != to.tier && from in before && PrefixCopy(now, before, from, HiddenName(to))
    ensures OnTheWay(before, now, from, to, configured, origTier)
  {
  }

  predicate BothOpen(files: map<Path, Bytes>, k: Faults, from: Path, tmp: Path) {
    from in files && tmp !in files && !k.openFails && !k.createFails
  }

  /** tier.cpp:157-193: open both files, copy, close both. */
  method CopyToHidden(kernel: Kernel, from: Path, tmp: Path, buffSz: nat) returns (ok: bool)
    requires from != tmp
    modifies kernel
    ensures var k, files := old(kernel.faults), old(kernel.files);
      if BothOpen(files, k, from, tmp) then
        && (ok <==> !k.closeFails && CopyRun(|files[from]|, buffSz, 0, k).ok)
        && tmp in kernel.files && PrefixCopy(kernel.files, files, from, tmp)
        && (ok ==> kernel.files[tmp] == if buffSz == 0 then [] else files[from])
      else !ok && kernel.files == files && kernel.history == old(kernel.history)
    ensures from in old(kernel.files) ==> kernel.Logged(old(kernel.history), old(kernel.files), from, tmp)
  {
    if kernel.faults.openFails || from !in kernel.files {
      return false;
    }
    var source := new Descriptor(from);
    if kernel.faults.createFails || tmp in kernel.files {
      return false;
    }
    ghost var before := kernel.files;
    kernel.Set(kernel.files[tmp := []]);
    var dest := new Descriptor(tmp);
    ghost var created, begun := kernel.files, kernel.history;
    assert created == before[tmp := before[from][..0]] && PrefixCopy(created, before, from, tmp);
    var rounds, turns;
    ok, rounds, turns := kernel.CopyLoop(source, dest, buffSz);
    ghost var copy := kernel.files[tmp];
    assert kernel.files == created[tmp := copy] == before[tmp := copy] && kernel.files[from] == before[from];
    assert copy == before[from][..|copy|];
    forall i | |begun| <= i < |kernel.history|
      ensures PrefixCopy(kernel.history[i], before, from, tmp)
    {
      assert PrefixCopy(kernel.history[i], created, from, tmp);
      var n :| 0 <= n <= |created[from]| && kernel.history[i] == created[tmp := created[from][..n]];
      assert kernel.history[i] == before[tmp := before[from][..n]];
    }
    if ok && kernel.faults.closeFails {
      return false;
    }
  }

  /** tier.cpp:196-206: the old file is removed, then the copy takes its final name. */
  method PutInPlace(kernel: Kernel, from: Path, to: Path, configured: nat, origTier: string,
                    ghost before: map<Path, Bytes>)
    returns (conflicted: bool)
    requires from.tier != to.tier && from in before && HiddenName(to) !in before
    requires kernel.files == before[HiddenName(to) := Copied(before[from], configured)]
    modifies kernel
    ensures conflicted == (to in before)
    ensures kernel.files == (before - {from})[FinalName(before, to, origTier) := Copied(before[from], configured)]
    ensures old(kernel.history) <= kernel.history
    ensures forall i :: |old(kernel.history)| <= i < |kernel.history| ==>
      OnTheWay(before, kernel.history[i], from, to, configured, origTier)
  {
    NamesDiffer(to, origTier);
    kernel.Set(kernel.files - {from});
    assert OnTheWay(before, kernel.files, from, to, configured, origTier);
    conflicted := to in kernel.files;
    var last := if conflicted then ConflictName(to, origTier) else to;
    kernel.Set((kernel.files - {HiddenName(to)})[last := kernel.files[HiddenName(to)]]);
    assert OnTheWay(before, kernel.files, from, to, configured, origTier);
  }

  // -------------------------------------------------------- what it means

  /** Nothing stands in the way of a move before the copy. */
  predicate CanMove(files: map<Path, Bytes>, from: Path, to: Path, configured: nat) {
    from in files && HiddenName(to) !in files && ToInt(configured) >= 0
  }

  /** The copied contents; a buffer size that converts to 0 copies nothing and calls it done. */
  function Copied(data: Bytes, configured: nat): Bytes {
    if ToInt(configured) == 0 then [] else data
  }

  predicate Lossless(data: Bytes, configured: nat) {
    ToInt(configured) != 0 || data == []
  }

  /** Before and after of one move_file. */
  ghost predicate MoveSpec(
      before: map<Path, Bytes>, after: map<Path, Bytes>, from: Path, to: Path,
      configured: nat, origTier: string, r: MoveResult)
  {
    if r.Moved? then
      && CanMove(before, from, to, configured)
      && r.conflicted == (to in before)
      && after == (before - {from})[FinalName(before, to, origTier) := Copied(before[from], configured)]
    else
      && SameBut(after, before, {HiddenName(to)})
      && (!CanMove(before, from, to, configured) ==> after == before)
  }

  /** What holds at every moment of a move. */
  ghost predicate OnTheWay(
      before: map<Path, Bytes>, now: map<Path, Bytes>, from: Path, to: Path, configured: nat, origTier: string)
  {
    var last := FinalName(before, to, origTier);
    && SameBut(now, before, {from, HiddenName(to), last})
    && (from in before && Lossless(before[from], configured) ==> Recoverable(now, from, to, last, before[from]))
  }

  /** A file already at the target path is left as it was, at every moment of the move. */
  lemma TargetLeftAlone(
      before: map<Path, Bytes>, now: map<Path, Bytes>, from: Path, to: Path, configured: nat, origTier: string)
    requires from.tier != to.tier && OnTheWay(before, now, from, to, configured, origTier) && to in before
    ensures to in now && now[to] == before[to]
  {
  }

  /** Every file's contents are still there: under its own name, or the moved one's under its final name. */
  ghost predicate NothingLost(before: map<Path, Bytes>, after: map<Path, Bytes>, from: Path, last: Path) {
    forall q :: q in before ==>
      || (q in after && after[q] == before[q])
      || (q == from && last in after && after[last] == before[from])
  }

  /**
   * A successful move loses nothing exactly when the buffer is not zero or the file is
   * empty, and no different file holds the conflict name it has to use.
   */
  lemma MoveLosesNothingIff(
      before: map<Path, Bytes>, after: map<Path, Bytes>, from: Path, to: Path,
      configured: nat, origTier: string, r: MoveResult)
    requires from.tier != to.tier && MoveSpec(before, after, from, to, configured, origTier, r) && r.Moved?
    ensures var last := FinalName(before, to, origTier);
      NothingLost(before, after, from, last) <==>
        Lossless(before[from], configured) && (last in before ==> before[last] == Copied(before[from], configured))
  {
  }

  // --------------------------------------------------- leftover hidden files

  datatype Attempt = Attempt(from: Path, to: Path, configured: nat, origTier: string, result: MoveResult)

  lemma HiddenNameInjective(p: Path, q: Path)
    requires HiddenName(p) == HiddenName(q)
    ensures p == q
  {
    var n := |HiddenName(p).name| - |".autotier.hide"|;
    assert p.name == HiddenName(p).name[1..n] && q.name == HiddenName(q).name[1..n];
  }

  /** A move that succeeds in carrying the hidden file of `to` away. */
  predicate TakesHidden(a: Attempt, to: Path) {
    a.result.Moved? && a.from == HiddenName(to)
  }

  ghost predicate Attempted(before: map<Path, Bytes>, after: map<Path, Bytes>, a: Attempt) {
    MoveSpec(before, after, a.from, a.to, a.configured, a.origTier, a.result)
  }

  /** Whatever is moved where, a hidden file stays exactly if it is not itself the file moved away. */
  lemma HiddenFileStaysIff(before: map<Path, Bytes>, after: map<Path, Bytes>, a: Attempt, to: Path)
    requires a.from.tier != a.to.tier && Attempted(before, after, a) && HiddenName(to) in before
    ensures HiddenName(to) in after <==> !TakesHidden(a, to)
    ensures a.to == to ==> !a.result.Moved? && after == before
  {
    NamesDiffer(a.to, a.origTier);
    if HiddenName(a.to) == HiddenName(to) {
      HiddenNameInjective(a.to, to);
    }
  }

  ghost predicate Attempts(states: seq<map<Path, Bytes>>, attempts: seq<Attempt>) {
    && |states| == |attempts| + 1
    && forall i :: 0 <= i < |attempts| ==>
         attempts[i].from.tier != attempts[i].to.tier && Attempted(states[i], states[i + 1], attempts[i])
  }

  /**
   * A hidden file left by a failed copy stays exactly until a successful move takes it away; and as
   * long as it is there, every attempt to move anything to its path fails and changes nothing.
   */
  lemma {:induction false} HiddenFileBlocksIff(states: seq<map<Path, Bytes>>, to: Path, attempts: seq<Attempt>, n: nat)
    requires Attempts(states, attempts) && n < |states| && HiddenName(to) in states[0]
    ensures (forall i :: 0 <= i <= n ==> HiddenName(to) in states[i])
       <==> (forall i :: 0 <= i < n ==> !TakesHidden(attempts[i], to))
    ensures n < |attempts| && HiddenName(to) in states[n] && attempts[n].to == to ==>
      !attempts[n].result.Moved? && states[n + 1] == states[n]
  {
    if n < |attempts| && HiddenName(to) in states[n] {
      HiddenFileStaysIff(states[n], states[n + 1], attempts[n], to);
    }
    if n > 0 {
      var m := n - 1;
      HiddenFileBlocksIff(states, to, attempts, m);
      if HiddenName(to) in states[m] {
        HiddenFileStaysIff(states[m], states[n], attempts[m], to);
      }
      assert (forall i :: 0 <= i < n ==> !TakesHidden(attempts[i], to))
        <==> (forall i :: 0 <= i < m ==> !TakesHidden(attempts[i], to)) && !TakesHidden(attempts[m], to);
      assert (forall i :: 0 <= i <= n ==> HiddenName(to) in states[i])
        <==> (forall i :: 0 <= i <= m ==> HiddenName(to) in states[i]) && HiddenName(to) in states[n];
    }
  }

  /** The way out: the hidden file, crawled like any other, is moved to another tier, and then f fits. */
  lemma HiddenFileFreed(data: Bytes, part: Bytes) returns (states: seq<map<Path, Bytes>>, attempts: seq<Attempt>)
    ensures var f, to := Path(0, "", "f"), Path(1, "", "f");
      && Attempts(states, attempts) && |attempts| == 2
      && states[0] == map[f := data, HiddenName(to) := part]
      && TakesHidden(attempts[0], to)
      && attempts[1].from == f && attempts[1].to == to && attempts[1].result == Moved(false)
      && to in states[2] && states[2][to] == data
  {
    var f, to := Path(0, "", "f"), Path(1, "", "f");
    var hidden := HiddenName(to);
    var away := hidden.(tier := 0);
    NamesDiffer(away, "");
    NamesDiffer(to, "");
    states := [map[f := data, hidden := part], map[f := data, away := part], map[to := data, away := part]];
    attempts := [Attempt(hidden, away, 1, "", Moved(false)), Attempt(f, to, 1, "", Moved(false))];
    assert |hidden.name| == 16 && |HiddenName(away).name| == 31;
    assert (states[0] - {hidden})[away := part] == states[1];
    assert (states[1] - {f})[to := data] == states[2];
    assert Attempted(states[0], states[1], attempts[0]);
    assert Attempted(states[1], states[2], attempts[1]);
  }

  /** A configured size of 4 GiB converts to 0: a one-byte file is then replaced by an empty one. */
  lemma FourGiBLosesData()
    ensures ToInt(0x1_0000_0000) == 0 && ToInt(1024 * 1024) == 1024 * 1024
    ensures var from, to := Path(0, "", "f"), Path(1, "", "f");
      var before: map<Path, Bytes> := map[from := [7]];
      var after: map<Path, Bytes> := map[to := []];
      MoveSpec(before, after, from, to, 0x1_0000_0000, "", Moved(false)) && !NothingLost(before, after, from, to)
  {
  }
}
