/**
 * The name-changing FUSE operations and the tier transfer, each seen as one step on the
 * path index and the backend files. Paths are index keys: no leading '/'.
 */
module Namespace {
  import opened PathOrder
  import opened PathIndex

  /** index gives the recorded tier of a key; backend holds (tier, path) of every regular file. */
  datatype Fs = Fs(index: map<string, nat>, backend: set<(nat, string)>, tiers: nat)

  /**
   * An operation together with the kernel's answers to it. fails means that the backend
   * call fails; for a directory rename failsAt is the first tier whose rename fails.
   */
  datatype Op =
    | Create(path: string, fails: bool)
    | Open(path: string, creating: bool, fails: bool)
    | RenameFile(from: string, to: string, fails: bool)
    | RenameDir(from: string, to: string, failsAt: nat)
    | Unlink(path: string, fails: bool)
    | Transfer(path: string, source: nat, target: nat)

  /** Every index entry's tier holds a file at that path. */
  ghost predicate NoDangling(s: Fs) {
    forall k :: k in s.index ==> (s.index[k], k) in s.backend
  }

  /** The index and the backend agree in both directions. */
  ghost predicate Exact(s: Fs) {
    forall t, k :: (t, k) in s.backend <==> k in s.index && s.index[k] == t
  }

  // ------------------------------------------------------- directory renames

  /**
   * rename(2) of a directory in one tier: refused if nested or if the new one holds files; onto
   * itself it does nothing.
   */
  predicate KernelRenames(backend: set<(nat, string)>, t: nat, p: string, q: string) {
    p == q
    || (!StartsWith(p, q) && !StartsWith(q, p) && forall e :: e in backend && e.0 == t ==> !StartsWith(e.1, q))
  }

  /** The files of the first n tiers moved from under p to under q. */
  function MoveTiers(backend: set<(nat, string)>, p: string, q: string, n: nat): (r: set<(nat, string)>)
    ensures forall t, x :: (t, x) in r <==>
      if t < n && StartsWith(x, q) && (t, Image(x, q, p)) in backend then true
      else (t, x) in backend && !(t < n && StartsWith(x, p))
  {
    var moved := set e | e in backend && e.0 < n && StartsWith(e.1, p) :: (e.0, Image(e.1, p, q));
    var kept := set e | e in backend && !(e.0 < n && StartsWith(e.1, p));
    forall t: nat, x: string
      ensures (t, x) in moved <==> t < n && StartsWith(x, q) && (t, Image(x, q, p)) in backend
    {
      if t < n && StartsWith(x, q) && (t, Image(x, q, p)) in backend {
        ImageBack(x, q, p);
        assert (t, Image(Image(x, q, p), p, q)) in moved;
      }
      if e :| e in backend && e.0 < n && StartsWith(e.1, p) && (e.0, Image(e.1, p, q)) == (t, x) {
        ImageBack(e.1, p, q);
      }
    }
    moved + kept
  }

  /** How many tiers a directory rename gets through. */
  ghost function TiersMoved(s: Fs, p: string, q: string, failsAt: nat, n: nat): (r: nat)
    requires n <= s.tiers
    ensures r <= n
    ensures r == n ==> forall t :: 0 <= t < n ==> KernelRenames(s.backend, t, p, q)
  {
    if n == 0 then 0
    else
      var before := TiersMoved(s, p, q, failsAt, n - 1);
      if before == n - 1 && failsAt != n - 1 && KernelRenames(s.backend, n - 1, p, q) then n else before
  }

  // -------------------------------------------------------------- operations

  /** Whether the operation returns success. */
  ghost predicate Succeeds(s: Fs, op: Op) {
    match op
    case Create(path, fails) => !fails
    case Open(path, creating, fails) =>
      path in s.index && !fails && (creating || (s.index[path], path) in s.backend)
    case RenameFile(from, to, fails) =>
      from in s.index && !fails && (s.index[from], from) in s.backend
    case RenameDir(from, to, failsAt) => TiersMoved(s, from, to, failsAt, s.tiers) == s.tiers
    case Unlink(path, fails) => path in s.index && !fails && (s.index[path], path) in s.backend
    case Transfer(path, source, target) => (source, path) in s.backend && target < s.tiers
  }

  /** The state after the operation. Only a failing directory rename leaves a trace. */
  ghost function Exec(s: Fs, op: Op): (r: Fs)
    ensures r.tiers == s.tiers
  {
    if !Succeeds(s, op) then
      if op.RenameDir? then
        s.(backend := MoveTiers(s.backend, op.from, op.to, TiersMoved(s, op.from, op.to, op.failsAt, s.tiers)))
      else s
    else
      match op
      case Create(path, _) =>
        s.(backend := s.backend + {(0, path)}, index := if path in s.index then s.index else s.index[path := 0])
      case Open(path, _, _) => s.(backend := s.backend + {(s.index[path], path)})
      case RenameFile(from, to, _) =>
        var t := s.index[from];
        Fs((s.index - {from})[to := t], s.backend - {(t, from)} + {(t, to)}, s.tiers)
      case RenameDir(from, to, _) =>
        Fs(Relabel(s.index, from, to), MoveTiers(s.backend, from, to, s.tiers), s.tiers)
      case Unlink(path, _) => Fs(s.index - {path}, s.backend - {(s.index[path], path)}, s.tiers)
      case Transfer(path, source, target) =>
        Fs(s.index[path := target], s.backend - {(source, path)} + {(target, path)}, s.tiers)
  }

  /**
   * A transfer succeeds when the file and the other tier exist. Then the file is gone from the one
   * tier, is in the other, and its entry says so.
   */
  lemma TransferEffect(s: Fs, path: string, source: nat, target: nat)
    requires source != target
    ensures var r := Exec(s, Transfer(path, source, target));
      if (source, path) !in s.backend || target >= s.tiers then r == s else
      && path in r.index && r.index[path] == target
      && (target, path) in r.backend && (source, path) !in r.backend
      && s.index - {path} == r.index - {path}
      && forall e :: e != (source, path) && e != (target, path) ==> (e in r.backend <==> e in s.backend)
  {
  }

  /** The names an operation is about. */
  predicate Names(op: Op, k: string) {
    match op
    case RenameFile(from, to, _) => k == from || k == to
    case RenameDir(from, to, _) => StartsWith(k, from) || StartsWith(k, to)
    case _ => k == op.path
  }

  lemma StepUntouched(s: Fs, op: Op, k: string)
    requires !Names(op, k)
    ensures k in Exec(s, op).index <==> k in s.index
    ensures k in s.index ==> Exec(s, op).index[k] == s.index[k]
    ensures forall t: nat :: (t, k) in Exec(s, op).backend <==> (t, k) in s.backend
  {
  }

  /** A name that no operation of a run is about keeps its entry and its files, failures included. */
  lemma {:induction false} UntouchedKept(states: seq<Fs>, ops: seq<Op>, n: nat, k: string)
    requires Run(states, ops) && n < |states| && forall i :: 0 <= i < n ==> !Names(ops[i], k)
    ensures k in states[n].index <==> k in states[0].index
    ensures k in states[0].index ==> states[n].index[k] == states[0].index[k]
    ensures forall t: nat :: (t, k) in states[n].backend <==> (t, k) in states[0].backend
  {
    if n > 0 {
      UntouchedKept(states, ops, n - 1, k);
      StepUntouched(states[n - 1], ops[n - 1], k);
    }
  }

  /** Recorded tiers are configured tiers. */
  ghost predicate TiersKnown(s: Fs) {
    s.tiers > 0 && forall t, k :: (t, k) in s.backend ==> t < s.tiers
  }

  /** A file moves between tiers only from where the index says it is. */
  predicate Fitting(s: Fs, op: Op) {
    op.Transfer? ==>
      (op.target, op.path) !in s.backend && (op.path in s.index ==> s.index[op.path] == op.source)
  }

  lemma DirRenameKeeps(s: Fs, op: Op)
    requires NoDangling(s) && TiersKnown(s) && op.RenameDir? && Succeeds(s, op)
    ensures NoDangling(Exec(s, op)) && TiersKnown(Exec(s, op))
    ensures Exact(s) ==> Exact(Exec(s, op))
  {
    var p, q, r := op.from, op.to, Exec(s, op);
    forall k | k in r.index ensures (r.index[k], k) in r.backend {
      if IsImage(s.index, k, p, q) {
        assert (s.index[Image(k, q, p)], Image(k, q, p)) in s.backend;
      }
    }
    if Exact(s) {
      forall t, k | (t, k) in r.backend ensures k in r.index && r.index[k] == t {
        assert t < s.tiers && KernelRenames(s.backend, t, p, q);
      }
    }
  }

  /** In the first n tiers the file at d/rest is at e/rest now, for every rest; all else is as it was. */
  ghost predicate FilesMoved(before: set<(nat, string)>, after: set<(nat, string)>, n: nat, d: string, e: string) {
    && (forall t: nat, rest: string :: t < n && (t, d + "/" + rest) in before ==>
          (t, d + "/" + rest) !in after && (t, e + "/" + rest) in after)
    && (forall f :: f in before && !(f.0 < n && StartsWith(f.1, d + "/")) ==> f in after)
    && (forall f :: f in after && f !in before ==>
          f.0 < n && StartsWith(f.1, e + "/") && (f.0, d + "/" + f.1[|e| + 1..]) in before)
  }

  lemma MoveTiersMovesFiles(backend: set<(nat, string)>, n: nat, d: string, e: string)
    requires Outside(d, e)
    ensures FilesMoved(backend, MoveTiers(backend, d + "/", e + "/", n), n, d, e)
  {
    var p, q := d + "/", e + "/";
    var r := MoveTiers(backend, p, q, n);
    forall t: nat, rest: string | t < n && (t, p + rest) in backend
      ensures (t, p + rest) !in r && (t, q + rest) in r
    {
      UnderBoth(rest, p, q);
    }
  }

  lemma MoveToSelf(backend: set<(nat, string)>, p: string, n: nat)
    ensures MoveTiers(backend, p, p, n) == backend
  {
    forall e: (nat, string) ensures e in MoveTiers(backend, p, p, n) <==> e in backend {
      var (t, x) := e;
      if StartsWith(x, p) {
        assert x == x[..|p|] + x[|p|..];
      }
    }
  }

  /** A directory rename fails, if it does, before reaching a tier that an entry under it names. */
  ghost predicate HarmlessFailure(s: Fs, op: Op) {
    op.RenameDir? && op.from != op.to && !Succeeds(s, op) ==>
      forall k :: k in s.index && StartsWith(k, op.from) ==>
        s.index[k] >= TiersMoved(s, op.from, op.to, op.failsAt, s.tiers)
  }

  /** An operation leaves no dangling entry exactly when it is not a harmful failure. */
  lemma StepKeepsIff(s: Fs, op: Op)
    requires NoDangling(s) && TiersKnown(s) && Fitting(s, op)
    ensures NoDangling(Exec(s, op)) <==> HarmlessFailure(s, op)
    ensures TiersKnown(Exec(s, op))
  {
    if op.RenameDir? {
      if Succeeds(s, op) {
        DirRenameKeeps(s, op);
      } else {
        PartialRenameDanglesIff(s, op);
      }
    }
  }

  /** The states a run goes through. */
  ghost predicate Run(states: seq<Fs>, ops: seq<Op>) {
    && |states| == |ops| + 1
    && (forall i :: 0 <= i < |ops| ==> Fitting(states[i], ops[i]) && states[i + 1] == Exec(states[i], ops[i]))
  }

  /**
   * A run of creates, opens, renames, unlinks and transfers never has a dangling entry exactly when
   * each of its directory renames succeeds or fails before reaching a tier that an entry names.
   */
  lemma {:induction false} NoDanglingAlwaysIff(states: seq<Fs>, ops: seq<Op>, n: nat)
    requires Run(states, ops) && n < |states|
    requires NoDangling(states[0]) && TiersKnown(states[0])
    ensures (forall i :: 0 <= i <= n ==> NoDangling(states[i]))
       <==> (forall i :: 0 <= i < n ==> HarmlessFailure(states[i], ops[i]))
    ensures (forall i :: 0 <= i <= n ==> NoDangling(states[i])) ==> TiersKnown(states[n])
  {
    if n > 0 {
      var m := n - 1;
      NoDanglingAlwaysIff(states, ops, m);
      assert (forall i :: 0 <= i < n ==> HarmlessFailure(states[i], ops[i]))
        <==> (forall i :: 0 <= i < m ==> HarmlessFailure(states[i], ops[i])) && HarmlessFailure(states[m], ops[m]);
      if forall i :: 0 <= i <= m ==> NoDangling(states[i]) {
        assert NoDangling(states[m]);
        StepKeepsIff(states[m], ops[m]);
        assert NoDangling(states[n]) <==> HarmlessFailure(states[m], ops[m]);
      }
    }
  }

  /**
   * A directory rename that fails part-way leaves a dangling entry exactly when some entry
   * under the directory names a tier that was renamed, to another name, before the failure.
   */
  lemma PartialRenameDanglesIff(s: Fs, op: Op)
    requires NoDangling(s) && op.RenameDir? && !Succeeds(s, op)
    ensures var n := TiersMoved(s, op.from, op.to, op.failsAt, s.tiers);
      NoDangling(Exec(s, op)) <==>
        op.from == op.to || forall k :: k in s.index && StartsWith(k, op.from) ==> s.index[k] >= n
  {
    var p, q, r := op.from, op.to, Exec(s, op);
    var n := TiersMoved(s, p, q, op.failsAt, s.tiers);
    MovedTiersAllowed(s, p, q, op.failsAt, s.tiers);
    if p == q {
      MoveToSelf(s.backend, p, n);
    } else if k :| k in s.index && StartsWith(k, p) && s.index[k] < n {
      assert KernelRenames(s.backend, s.index[k], p, q);
      if StartsWith(k, q) {
        PrefixesNest(k, p, q);
      }
      assert (r.index[k], k) !in r.backend;
    } else {
      forall k | k in r.index ensures (r.index[k], k) in r.backend {
        assert (s.index[k], k) in s.backend;
      }
    }
  }

  lemma {:induction false} MovedTiersAllowed(s: Fs, p: string, q: string, failsAt: nat, n: nat)
    requires n <= s.tiers
    ensures forall t :: 0 <= t < TiersMoved(s, p, q, failsAt, n) ==> KernelRenames(s.backend, t, p, q)
  {
    if n > 0 {
      MovedTiersAllowed(s, p, q, failsAt, n - 1);
    }
  }

  /** When an operation puts a name somewhere, no other tier already uses the name. */
  ghost predicate NameFree(s: Fs, op: Op) {
    match op
    case Create(path, _) => path in s.index ==> s.index[path] == 0
    case RenameFile(from, to, _) => to in s.index ==> from in s.index && s.index[to] == s.index[from]
    case Transfer(path, source, target) => path in s.index
    case _ => true
  }

  /** A successful operation keeps index and backend in exact agreement exactly when the name is free. */
  lemma ExactKeptIff(s: Fs, op: Op)
    requires Exact(s) && TiersKnown(s) && Succeeds(s, op) && Fitting(s, op)
    ensures Exact(Exec(s, op)) <==> NameFree(s, op)
  {
    var r := Exec(s, op);
    match op
    case Create(path, _) =>
      assert (0, path) in r.backend;
      if path in s.index {
        assert (s.index[path], path) in s.backend;
      }
    case Open(path, _, _) =>
      assert (s.index[path], path) in s.backend;
      assert r == s;
    case RenameFile(from, to, _) =>
      if to in s.index && s.index[to] != s.index[from] {
        assert (s.index[to], to) in r.backend;
      }
    case RenameDir(from, to, _) =>
      assert NoDangling(s);
      DirRenameKeeps(s, op);
    case Unlink(path, _) =>
    case Transfer(path, source, target) =>
      assert (source, path) in s.backend;
  }

  /** A file renamed over one recorded in another tier leaves that one unindexed. */
  lemma RenameOverHidesFile()
    ensures var s := Fs(map["a" := 0, "b" := 1], {(0, "a"), (1, "b")}, 2);
      Exact(s) && !Exact(Exec(s, RenameFile("a", "b", false)))
      && (1, "b") in Exec(s, RenameFile("a", "b", false)).backend
      && Exec(s, RenameFile("a", "b", false)).index["b"] == 0
  {
  }

  // ------------------------------------------------------- the FUSE methods

  /** The index key of a FUSE path. */
  function Key(path: string): string
    requires path != ""
  {
    path[1..]
  }

  /** Of the first n tiers, m is the first whose rename from p to q fails, or n when none does. */
  ghost predicate StopsAt(backend: set<(nat, string)>, p: string, q: string, failsAt: nat, m: nat, n: nat) {
    && (forall t: nat :: t < m ==> t != failsAt && KernelRenames(backend, t, p, q))
    && (m < n ==> m == failsAt || !KernelRenames(backend, m, p, q))
  }

  /**
   * A directory rename gets through every tier up to the first that refuses, and moves the entries
   * too if none does. Onto itself it changes nothing.
   */
  ghost predicate DirectoryEffect(s: Fs, r: Fs, ok: bool, d: string, e: string, failsAt: nat) {
    if d == e then r == s
    else exists n: nat ::
      && n <= s.tiers && ok == (n == s.tiers) && StopsAt(s.backend, d + "/", e + "/", failsAt, n, s.tiers)
      && FilesMoved(s.backend, r.backend, n, d, e)
      && if ok then DirectoryMoved(s.index, r.index, d, e) else r.index == s.index
  }

  lemma {:induction false} MovedStopsAt(s: Fs, p: string, q: string, failsAt: nat, n: nat)
    requires n <= s.tiers
    ensures StopsAt(s.backend, p, q, failsAt, TiersMoved(s, p, q, failsAt, n), n)
  {
    if n > 0 {
      MovedStopsAt(s, p, q, failsAt, n - 1);
      var m := TiersMoved(s, p, q, failsAt, n - 1);
      var allowed := KernelRenames(s.backend, n - 1, p, q);
      assert TiersMoved(s, p, q, failsAt, n) == if m == n - 1 && failsAt != n - 1 && allowed then n else m;
      if m == n - 1 && !allowed {
        assert !KernelRenames(s.backend, m, p, q);
      }
    }
  }

  lemma NoneMoved(backend: set<(nat, string)>, d: string, e: string)
    ensures FilesMoved(backend, backend, 0, d, e)
  {
  }

  lemma RenameToSelf(s: Fs, p: string, failsAt: nat)
    ensures Exec(s, Op.RenameDir(p, p, failsAt)) == s
  {
    MoveToSelf(s.backend, p, TiersMoved(s, p, p, failsAt, s.tiers));
    assert Succeeds(s, Op.RenameDir(p, p, failsAt)) ==> MoveTiers(s.backend, p, p, s.tiers) == s.backend;
    var r := Relabel(s.index, p, p);
    forall x ensures (x in r <==> x in s.index) && (x in r ==> r[x] == s.index[x]) {
      if StartsWith(x, p) {
        assert x == x[..|p|] + x[|p|..];
      }
    }
    assert r == s.index;
  }

  lemma NamesDiffer(d: string, e: string)
    requires d != e
    ensures d + "/" != e + "/"
  {
    assert d == (d + "/")[..|d|] && e == (e + "/")[..|e|];
  }

  lemma ExecMovesDirectory(s: Fs, d: string, e: string, failsAt: nat)
    requires s.tiers > 0
    ensures var op := Op.RenameDir(d + "/", e + "/", failsAt);
      DirectoryEffect(s, Exec(s, op), Succeeds(s, op), d, e, failsAt)
  {
    var p, q := d + "/", e + "/";
    var n := TiersMoved(s, p, q, failsAt, s.tiers);
    MovedStopsAt(s, p, q, failsAt, s.tiers);
    if d == e {
      RenameToSelf(s, p, failsAt);
    } else if n == 0 {
      MoveNone(s.backend, p, q);
      NoneMoved(s.backend, d, e);
    } else {
      assert KernelRenames(s.backend, 0, p, q);
      NamesDiffer(d, e);
      MoveTiersMovesFiles(s.backend, n, d, e);
      RelabelMovesDirectory(s.index, d, e);
    }
  }

  /** The FUSE operations as far as names, backend files and the index go. */
  class NamedFiles {
    const tiers: nat
    const store: Store<nat>
    var backend: set<(nat, string)>

    ghost function State(): Fs
      reads this, store
    {
      Fs(store.entries, backend, tiers)
    }

    constructor (tiers: nat, store: Store<nat>)
      ensures this.tiers == tiers && this.store == store && backend == {}
    {
      this.tiers, this.store, backend := tiers, store, {};
    }

    /** create.cpp: the file appears in the top tier; an entry that exists already is kept. */
    method Create(path: string, fails: bool) returns (ok: bool)
      requires path != ""
      modifies this, store
      ensures State() == Exec(old(State()), Op.Create(Key(path), fails))
      ensures ok == Succeeds(old(State()), Op.Create(Key(path), fails))
      ensures ok == !fails
      ensures ok ==> var k := path[1..];
        && backend == old(backend) + {(0, k)}
        && k in store.entries && store.entries[k] == (if k in old(store.entries) then old(store.entries)[k] else 0)
        && store.entries - {k} == old(store.entries) - {k}
      ensures !ok ==> backend == old(backend) && store.entries == old(store.entries)
    {
      if fails {
        return false;
      }
      var key := Key(path);
      backend := backend + {(0, key)};
      var tier := if key in store.entries then store.entries[key] else 0;
      store.Write([Put(key, tier)]);
      ApplyOne(old(store.entries), Put(key, tier));
      assert key in old(store.entries) ==> old(store.entries)[key := tier] == old(store.entries);
      ok := true;
    }

    /** open.cpp, for a regular file: the entry says where to look, and is written back. */
    method Open(path: string, creating: bool, fails: bool) returns (ok: bool)
      requires path != ""
      modifies this, store
      ensures State() == Exec(old(State()), Op.Open(Key(path), creating, fails))
      ensures ok == Succeeds(old(State()), Op.Open(Key(path), creating, fails))
      ensures store.entries == old(store.entries)
      ensures ok <==> var k := path[1..];
        k in store.entries && !fails && (creating || (store.entries[k], k) in old(backend))
      ensures ok ==> var k := path[1..]; backend == old(backend) + {(store.entries[k], k)}
      ensures !ok || !creating ==> backend == old(backend)
    {
      var key := Key(path);
      if key !in store.entries {
        return false;
      }
      var tier := store.entries[key];
      if (tier, key) !in backend && !creating {
        return false;
      }
      if fails {
        return false;
      }
      backend := backend + {(tier, key)};
      store.Write([Put(key, tier)]);
      ApplyOne(old(store.entries), Put(key, tier));
      assert old(store.entries)[key := tier] == old(store.entries);
      ok := true;
    }

    /** unlink.cpp: the file goes first, its entry after it. */
    method Unlink(path: string, fails: bool) returns (ok: bool)
      requires path != ""
      modifies this, store
      ensures State() == Exec(old(State()), Op.Unlink(Key(path), fails))
      ensures ok == Succeeds(old(State()), Op.Unlink(Key(path), fails))
      ensures ok <==> var k := path[1..];
        k in old(store.entries) && !fails && (old(store.entries)[k], k) in old(backend)
      ensures ok ==> var k := path[1..];
        && k !in store.entries && store.entries == old(store.entries) - {k}
        && (old(store.entries)[k], k) !in backend && backend == old(backend) - {(old(store.entries)[k], k)}
      ensures !ok ==> backend == old(backend) && store.entries == old(store.entries)
    {
      var key := Key(path);
      if key !in store.entries {
        return false;
      }
      var tier := store.entries[key];
      if (tier, key) !in backend || fails {
        return false;
      }
      backend := backend - {(tier, key)};
      store.Write([Delete(key)]);
      ApplyOne(old(store.entries), Delete(key));
      ok := true;
    }

    /** rename.cpp for anything that is not a directory in the first tier. */
    method RenameFile(from: string, to: string, fails: bool) returns (ok: bool)
      requires from != "" && to != ""
      modifies this, store
      ensures State() == Exec(old(State()), Op.RenameFile(Key(from), Key(to), fails))
      ensures ok == Succeeds(old(State()), Op.RenameFile(Key(from), Key(to), fails))
      ensures ok <==> var k := from[1..];
        k in old(store.entries) && !fails && (old(store.entries)[k], k) in old(backend)
      ensures ok ==>
        var k, l := from[1..], to[1..]; var t := old(store.entries)[k];
        && l in store.entries && store.entries[l] == t && (k != l ==> k !in store.entries)
        && store.entries - {k, l} == old(store.entries) - {k, l}
        && (t, l) in backend && (k != l ==> (t, k) !in backend)
        && backend - {(t, k), (t, l)} == old(backend) - {(t, k), (t, l)}
      ensures !ok ==> backend == old(backend) && store.entries == old(store.entries)
    {
      var key, newKey := Key(from), Key(to);
      if key !in store.entries {
        return false;
      }
      var tier := store.entries[key];
      if (tier, key) !in backend || fails {
        return false;
      }
      backend := backend - {(tier, key)} + {(tier, newKey)};
      var batch := [Delete(key), Put(newKey, tier)];
      store.Write(batch);
      assert batch[..1] == [Delete(key)];
      ApplyOne(old(store.entries), Delete(key));
      ok := true;
    }

    /**
     * rename.cpp for a directory: one rename(2) per tier, returning at the first that
     * fails; only then are the keys updated.
     */
    method RenameDir(from: string, to: string, failsAt: nat) returns (ok: bool)
      requires |from| > 1 && |to| > 1 && Key(from) != "/" && Key(to) != "/" && tiers > 0
      modifies this, store
      ensures var op := Op.RenameDir(AsDirectory(Key(from)), AsDirectory(Key(to)), failsAt);
        State() == Exec(old(State()), op) && ok == Succeeds(old(State()), op)
      ensures Plain(Key(from)) && Plain(Key(to)) ==>
        DirectoryEffect(old(State()), State(), ok, Key(from), Key(to), failsAt)
    {
      ghost var s := State();
      var p, q := AsDirectory(Key(from)), AsDirectory(Key(to));
      MoveNone(backend, p, q);
      for t := 0 to tiers
        invariant store.entries == s.index && backend == MoveTiers(s.backend, p, q, t)
        invariant TiersMoved(s, p, q, failsAt, t) == t
        invariant t > 0 ==> KernelRenames(s.backend, 0, p, q)
      {
        LaterTierSame(s.backend, t, p, q);
        if t == failsAt || !KernelRenames(backend, t, p, q) {
          StaysAt(s, p, q, failsAt, t, tiers);
          if Plain(Key(from)) && Plain(Key(to)) {
            RenameDirEffect(s, Key(from), Key(to), failsAt);
          }
          return false;
        }
        MoveNext(s.backend, p, q, t);
        backend := MoveTier(backend, p, q, t);
      }
      var visited := store.UpdateKeysInDirectory(Key(from), Key(to));
      if Plain(Key(from)) && Plain(Key(to)) {
        RenameDirEffect(s, Key(from), Key(to), failsAt);
      }
      ok := true;
    }
  }

  lemma RenameDirEffect(s: Fs, d: string, e: string, failsAt: nat)
    requires Plain(d) && Plain(e) && s.tiers > 0
    ensures var op := Op.RenameDir(AsDirectory(d), AsDirectory(e), failsAt);
      DirectoryEffect(s, Exec(s, op), Succeeds(s, op), d, e, failsAt)
  {
    NamedScans(d, d);
    NamedScans(e, e);
    ExecMovesDirectory(s, d, e, failsAt);
  }

  lemma ApplyOne(m: map<string, nat>, op: PathIndex.Op<nat>)
    ensures Apply(m, [op]) == ApplyOp(m, op)
  {
  }

  /** The files of tier t alone moved from under p to under q. */
  function MoveTier(backend: set<(nat, string)>, p: string, q: string, t: nat): set<(nat, string)> {
    (set e | e in backend && e.0 == t && StartsWith(e.1, p) :: (e.0, Image(e.1, p, q)))
    + (set e | e in backend && !(e.0 == t && StartsWith(e.1, p)))
  }

  lemma MoveNone(backend: set<(nat, string)>, p: string, q: string)
    ensures MoveTiers(backend, p, q, 0) == backend
  {
  }

  lemma LaterTierSame(backend: set<(nat, string)>, t: nat, p: string, q: string)
    ensures KernelRenames(MoveTiers(backend, p, q, t), t, p, q) == KernelRenames(backend, t, p, q)
  {
  }

  lemma MoveNext(backend: set<(nat, string)>, p: string, q: string, t: nat)
    ensures MoveTiers(backend, p, q, t + 1) == MoveTier(MoveTiers(backend, p, q, t), p, q, t)
  {
  }

  lemma {:induction false} StaysAt(s: Fs, p: string, q: string, failsAt: nat, t: nat, n: nat)
    requires t < n <= s.tiers && TiersMoved(s, p, q, failsAt, t) == t
    requires t == failsAt || !KernelRenames(s.backend, t, p, q)
    ensures TiersMoved(s, p, q, failsAt, n) == t
  {
    if n > t + 1 {
      StaysAt(s, p, q, failsAt, t, n - 1);
    }
  }
}

