/**
 * The database as a sorted map with atomic batches, and l::update_keys_in_directory:
 * a prefix scan that moves every key under one directory to another.
 */
module PathIndex {
  import opened PathOrder

  datatype Op<V> = Delete(key: string) | Put(key: string, value: V)

  function ApplyOp<V>(m: map<string, V>, op: Op<V>): map<string, V> {
    match op
    case Delete(k) => m - {k}
    case Put(k, v) => m[k := v]
  }

  /** A write batch takes effect operation by operation. */
  function Apply<V>(m: map<string, V>, batch: seq<Op<V>>): map<string, V> {
    if batch == [] then m else ApplyOp(Apply(m, batch[..|batch| - 1]), batch[|batch| - 1])
  }

  /** The key k moved from directory p to directory q; both end in '/'. */
  function Image(k: string, p: string, q: string): string
    requires StartsWith(k, p)
  {
    q + k[|p|..]
  }

  lemma ImageInjective(k: string, l: string, p: string, q: string)
    requires StartsWith(k, p) && StartsWith(l, p) && Image(k, p, q) == Image(l, p, q)
    ensures k == l
  {
    assert k[|p|..] == Image(k, p, q)[|q|..] && l[|p|..] == Image(l, p, q)[|q|..];
    assert k == k[..|p|] + k[|p|..] && l == l[..|p|] + l[|p|..];
  }

  lemma ImageBack(k: string, p: string, q: string)
    requires StartsWith(k, p)
    ensures StartsWith(Image(k, p, q), q) && Image(Image(k, p, q), q, p) == k
  {
  }

  /** x is the new name of some key. */
  predicate IsImage<V>(m: map<string, V>, x: string, p: string, q: string) {
    StartsWith(x, q) && Image(x, q, p) in m
  }

  /** Every key under p renamed to lie under q at once; a moved entry wins over one in its way. */
  function Relabel<V>(m: map<string, V>, p: string, q: string): (r: map<string, V>)
    ensures forall x :: x in r <==> IsImage(m, x, p, q) || (x in m && !StartsWith(x, p))
    ensures forall x :: x in r ==> r[x] == if IsImage(m, x, p, q) then m[Image(x, q, p)] else m[x]
  {
    var moved := map k | k in m && StartsWith(k, p) :: Image(k, p, q);
    var keys := (set k | k in m && !StartsWith(k, p)) + (set k | k in moved :: moved[k]);
    forall x ensures x in keys <==> IsImage(m, x, p, q) || (x in m && !StartsWith(x, p)) {
      if IsImage(m, x, p, q) {
        ImageBack(x, q, p);
        assert Image(x, q, p) in moved;
      }
      if k :| k in moved && moved[k] == x {
        ImageBack(k, p, q);
      }
    }
    map x | x in keys :: if IsImage(m, x, p, q) then m[Image(x, q, p)] else m[x]
  }

  // ------------------------------------------------- the batch of a rename

  /** The batch built for the first n visited keys: delete the old name, put the new one. */
  function RenameBatch<V>(m: map<string, V>, visited: seq<string>, p: string, q: string, n: nat): (b: seq<Op<V>>)
    requires n <= |visited| && forall i :: 0 <= i < |visited| ==> visited[i] in m && StartsWith(visited[i], p)
  {
    if n == 0 then []
    else
      var k := visited[n - 1];
      RenameBatch(m, visited, p, q, n - 1) + [Delete(k), Put(Image(k, p, q), m[k])]
  }

  /** The database after the batch for the first n visited keys. */
  function Renamed<V>(m: map<string, V>, visited: seq<string>, p: string, q: string, n: nat): map<string, V>
    requires n <= |visited| && forall i :: 0 <= i < |visited| ==> visited[i] in m && StartsWith(visited[i], p)
  {
    if n == 0 then m
    else
      var k := visited[n - 1];
      (Renamed(m, visited, p, q, n - 1) - {k})[Image(k, p, q) := m[k]]
  }

  lemma {:induction false} BatchRenames<V>(m: map<string, V>, visited: seq<string>, p: string, q: string, n: nat)
    requires n <= |visited| && forall i :: 0 <= i < |visited| ==> visited[i] in m && StartsWith(visited[i], p)
    ensures Apply(m, RenameBatch(m, visited, p, q, n)) == Renamed(m, visited, p, q, n)
  {
    if n > 0 {
      BatchRenames(m, visited, p, q, n - 1);
      var k := visited[n - 1];
      var b, all := RenameBatch(m, visited, p, q, n - 1), RenameBatch(m, visited, p, q, n);
      assert all[..|all| - 1] == b + [Delete(k)] && (b + [Delete(k)])[..|b|] == b;
      assert all[|all| - 1] == Put(Image(k, p, q), m[k]);
    }
  }

  /** The visited keys are the keys under p, each once. */
  ghost predicate Visits<V>(m: map<string, V>, visited: seq<string>, p: string) {
    && (forall i :: 0 <= i < |visited| ==> visited[i] in m && StartsWith(visited[i], p))
    && (forall i, j :: 0 <= i < j < |visited| ==> visited[i] != visited[j])
    && (forall k :: k in m && StartsWith(k, p) ==> k in visited)
  }

  /** No key is given a name that is deleted later in the batch. */
  ghost predicate NoLaterClash(visited: seq<string>, p: string, q: string)
    requires forall i :: 0 <= i < |visited| ==> StartsWith(visited[i], p)
  {
    forall i, j :: 0 <= i < j < |visited| ==> Image(visited[i], p, q) != visited[j]
  }

  /** One of the first n keys has been given the name x. */
  ghost predicate NamedBy(visited: seq<string>, p: string, q: string, n: nat, x: string)
    requires n <= |visited| && forall i :: 0 <= i < |visited| ==> StartsWith(visited[i], p)
  {
    exists i :: 0 <= i < n && Image(visited[i], p, q) == x
  }

  lemma {:induction false} RenamedKeys<V>(
      m: map<string, V>, visited: seq<string>, p: string, q: string, n: nat, x: string)
    requires n <= |visited| && Visits(m, visited, p) && NoLaterClash(visited, p, q)
    ensures x in Renamed(m, visited, p, q, n) <==>
      NamedBy(visited, p, q, n, x) || (x in m && x !in visited[..n])
    ensures x in Renamed(m, visited, p, q, n) && !NamedBy(visited, p, q, n, x) ==>
      Renamed(m, visited, p, q, n)[x] == m[x]
  {
    if n > 0 {
      RenamedKeys(m, visited, p, q, n - 1, x);
      NamedStep(visited, p, q, n, x);
    }
  }

  lemma {:induction false} RenamedAt<V>(
      m: map<string, V>, visited: seq<string>, p: string, q: string, n: nat, i: nat)
    requires i < n <= |visited| && Visits(m, visited, p) && NoLaterClash(visited, p, q)
    ensures var x := Image(visited[i], p, q);
      x in Renamed(m, visited, p, q, n) && Renamed(m, visited, p, q, n)[x] == m[visited[i]]
  {
    if i < n - 1 {
      RenamedAt(m, visited, p, q, n - 1, i);
      if Image(visited[i], p, q) == Image(visited[n - 1], p, q) {
        ImageInjective(visited[i], visited[n - 1], p, q);
      }
    }
  }

  lemma NamedStep(visited: seq<string>, p: string, q: string, n: nat, x: string)
    requires 0 < n <= |visited| && forall i :: 0 <= i < |visited| ==> StartsWith(visited[i], p)
    ensures NamedBy(visited, p, q, n, x) <==>
      NamedBy(visited, p, q, n - 1, x) || x == Image(visited[n - 1], p, q)
    ensures x in visited[..n] <==> x in visited[..n - 1] || x == visited[n - 1]
    ensures NoLaterClash(visited, p, q) && NamedBy(visited, p, q, n - 1, x) ==> x != visited[n - 1]
  {
  }

  /** A name that is given and later deleted is gone from the result. */
  lemma {:induction false} ClashLosesKey<V>(
      m: map<string, V>, visited: seq<string>, p: string, q: string, i: nat, j: nat, n: nat)
    requires i < j < n <= |visited| && Visits(m, visited, p)
    requires Image(visited[i], p, q) == visited[j]
    ensures visited[j] !in Renamed(m, visited, p, q, n)
  {
    var k := visited[n - 1];
    if Image(k, p, q) == visited[j] {
      ImageInjective(visited[i], k, p, q);
    }
    if n > j + 1 {
      ClashLosesKey(m, visited, p, q, i, j, n - 1);
    }
  }

  /**
   * The batch, applied operation by operation, is the simultaneous relabelling exactly
   * when no key is given a name that is deleted later in the batch.
   */
  lemma BatchRelabelsIff<V>(m: map<string, V>, visited: seq<string>, p: string, q: string)
    requires Visits(m, visited, p)
    ensures Apply(m, RenameBatch(m, visited, p, q, |visited|)) == Relabel(m, p, q)
      <==> NoLaterClash(visited, p, q)
  {
    var n := |visited|;
    BatchRenames(m, visited, p, q, n);
    if NoLaterClash(visited, p, q) {
      var r := Renamed(m, visited, p, q, n);
      forall x ensures (x in r <==> x in Relabel(m, p, q)) && (x in r ==> r[x] == Relabel(m, p, q)[x]) {
        RenamedKeys(m, visited, p, q, n, x);
        NamedIsImage(m, visited, p, q, x);
        assert visited[..n] == visited;
        if IsImage(m, x, p, q) {
          var i: nat :| i < n && Image(visited[i], p, q) == x && visited[i] == Image(x, q, p);
          RenamedAt(m, visited, p, q, n, i);
        }
      }
      assert r.Keys == Relabel(m, p, q).Keys;
      assert r == Relabel(m, p, q);
    } else {
      var i, j :| 0 <= i < j < n && Image(visited[i], p, q) == visited[j];
      ClashLosesKey(m, visited, p, q, i, j, n);
      ImageBack(visited[i], p, q);
      assert visited[j] in Relabel(m, p, q);
    }
  }

  lemma NamedIsImage<V>(m: map<string, V>, visited: seq<string>, p: string, q: string, x: string)
    requires Visits(m, visited, p)
    ensures NamedBy(visited, p, q, |visited|, x) <==> IsImage(m, x, p, q)
    ensures IsImage(m, x, p, q) ==>
      exists i :: 0 <= i < |visited| && Image(visited[i], p, q) == x && visited[i] == Image(x, q, p)
  {
    if NamedBy(visited, p, q, |visited|, x) {
      var i :| 0 <= i < |visited| && Image(visited[i], p, q) == x;
      ImageBack(visited[i], p, q);
    }
    if IsImage(m, x, p, q) {
      ImageBack(x, q, p);
      var k := Image(x, q, p);
      assert k in visited;
      var i :| 0 <= i < |visited| && visited[i] == k;
      assert Image(visited[i], p, q) == x;
    }
  }

  /** Neither directory lies under the other, or they are the same. */
  predicate Apart(p: string, q: string) {
    p == q || (!StartsWith(p, q) && !StartsWith(q, p))
  }

  lemma ApartNeverClashes(visited: seq<string>, p: string, q: string)
    requires forall i :: 0 <= i < |visited| ==> StartsWith(visited[i], p)
    requires forall i, j :: 0 <= i < j < |visited| ==> visited[i] != visited[j]
    requires Apart(p, q)
    ensures NoLaterClash(visited, p, q)
  {
  }

  /**
   * Moving p/ to p/d/ would lose an entry: p/c is put at p/d/c, which is deleted next.
   * rename(2) refuses such a move before the index is touched.
   */
  lemma NestedRenameLosesEntry()
    ensures var m := map["p/c" := 1, "p/d/c" := 2];
      var visited := ["p/c", "p/d/c"];
      Sorted(visited) && Visits(m, visited, "p/")
      && "p/d/c" in Relabel(m, "p/", "p/d/")
      && "p/d/c" !in Apply(m, RenameBatch(m, visited, "p/", "p/d/", 2))
  {
    var m, v := map["p/c" := 1, "p/d/c" := 2], ["p/c", "p/d/c"];
    assert Less("c", "d/c") && Less("/c"[1..], "/d/c"[1..]) && Less("p/c"[1..], "p/d/c"[1..]);
    assert Image("p/c", "p/", "p/d/") == "p/d/c";
    ImageBack("p/c", "p/", "p/d/");
    ClashLosesKey(m, v, "p/", "p/d/", 0, 1, 2);
    BatchRenames(m, v, "p/", "p/d/", 2);
  }

  // -------------------------------------- renaming into an unused directory

  /** Both names are outside each other and nothing is indexed under the new one. */
  ghost predicate FreshTarget<V>(m: map<string, V>, p: string, q: string) {
    && !StartsWith(p, q) && !StartsWith(q, p)
    && forall k :: k in m ==> !StartsWith(k, q)
  }

  /** Every moved key keeps its value, every other key is untouched, and nothing else appears. */
  lemma RelabelMeans<V>(m: map<string, V>, p: string, q: string, k: string)
    requires FreshTarget(m, p, q) && k in m
    ensures var k' := if StartsWith(k, p) then Image(k, p, q) else k;
      k' in Relabel(m, p, q) && Relabel(m, p, q)[k'] == m[k]
    ensures StartsWith(k, p) ==> k !in Relabel(m, p, q)
  {
    if StartsWith(k, p) {
      ImageBack(k, p, q);
      assert IsImage(m, Image(k, p, q), p, q);
    }
  }

  /** Renaming back restores the original entries. */
  lemma RelabelBack<V>(m: map<string, V>, p: string, q: string)
    requires FreshTarget(m, p, q)
    ensures Relabel(Relabel(m, p, q), q, p) == m
  {
    var r := Relabel(m, p, q);
    var b := Relabel(r, q, p);
    forall x ensures (x in b <==> x in m) && (x in b ==> b[x] == m[x]) {
      if StartsWith(x, p) {
        ImageBack(x, p, q);
        if StartsWith(x, q) {
          PrefixesNest(x, p, q);
        }
      }
    }
    assert b.Keys == m.Keys;
  }

  lemma {:induction false} RenamedCount<V>(m: map<string, V>, visited: seq<string>, p: string, q: string, n: nat)
    requires n <= |visited| && Visits(m, visited, p) && FreshTarget(m, p, q)
    ensures |Renamed(m, visited, p, q, n)| == |m|
  {
    if n > 0 {
      RenamedCount(m, visited, p, q, n - 1);
      var k := visited[n - 1];
      NextNameIsNew(m, visited, p, q, n);
      SwapKey(Renamed(m, visited, p, q, n - 1), k, Image(k, p, q), m[k]);
    }
  }

  /** The key about to be renamed is still there, and its new name is not. */
  lemma NextNameIsNew<V>(m: map<string, V>, visited: seq<string>, p: string, q: string, n: nat)
    requires 0 < n <= |visited| && Visits(m, visited, p) && FreshTarget(m, p, q)
    ensures visited[n - 1] in Renamed(m, visited, p, q, n - 1)
    ensures Image(visited[n - 1], p, q) !in Renamed(m, visited, p, q, n - 1)
  {
    ApartNeverClashes(visited, p, q);
    KeyStillThere(m, visited, p, q, n);
    RenamedKeys(m, visited, p, q, n - 1, Image(visited[n - 1], p, q));
    NameNotTaken(m, visited, p, q, n);
    ImageBack(visited[n - 1], p, q);
  }

  lemma KeyStillThere<V>(m: map<string, V>, visited: seq<string>, p: string, q: string, n: nat)
    requires 0 < n <= |visited| && Visits(m, visited, p) && NoLaterClash(visited, p, q)
    ensures visited[n - 1] in Renamed(m, visited, p, q, n - 1)
  {
    RenamedKeys(m, visited, p, q, n - 1, visited[n - 1]);
    assert visited[n - 1] !in visited[..n - 1];
  }

  lemma NameNotTaken<V>(m: map<string, V>, visited: seq<string>, p: string, q: string, n: nat)
    requires 0 < n <= |visited| && Visits(m, visited, p)
    ensures !NamedBy(visited, p, q, n - 1, Image(visited[n - 1], p, q))
  {
    forall i | 0 <= i < n - 1
      ensures Image(visited[i], p, q) != Image(visited[n - 1], p, q)
    {
      if Image(visited[i], p, q) == Image(visited[n - 1], p, q) {
        ImageInjective(visited[i], visited[n - 1], p, q);
      }
    }
  }

  lemma SwapKey<V>(m: map<string, V>, k: string, x: string, v: V)
    requires k in m && x !in m
    ensures |(m - {k})[x := v]| == |m|
  {
  }

  /** The number of entries is kept. */
  lemma RelabelCount<V>(m: map<string, V>, visited: seq<string>, p: string, q: string)
    requires Visits(m, visited, p) && FreshTarget(m, p, q)
    ensures |Relabel(m, p, q)| == |m|
  {
    ApartNeverClashes(visited, p, q);
    BatchRelabelsIff(m, visited, p, q);
    BatchRenames(m, visited, p, q, |visited|);
    RenamedCount(m, visited, p, q, |visited|);
  }

  /** The directory as the scan uses it: no leading '/', one at the end. */
  function AsDirectory(d: string): (r: string)
    requires d != "" && d != "/"
    ensures r != "" && r[|r| - 1] == '/'
  {
    var stripped := if d[0] == '/' then d[1..] else d;
    if stripped[|stripped| - 1] == '/' then stripped else stripped + "/"
  }

  /** A directory's name without '/' at either end. */
  predicate Plain(d: string) {
    d != "" && d[0] != '/' && d[|d| - 1] != '/'
  }

  /** The argument names the directory d, with or without a '/' at either end. */
  predicate Named(arg: string, d: string) {
    Plain(d) && (arg == d || arg == "/" + d || arg == d + "/" || arg == "/" + d + "/")
  }

  /** A '/' before or after the name makes no difference. */
  lemma NamedScans(arg: string, d: string)
    requires Named(arg, d)
    ensures arg != "" && arg != "/" && AsDirectory(arg) == d + "/"
  {
  }

  /** Neither directory is the other or lies under it. */
  predicate Outside(d: string, e: string) {
    !StartsWith(d + "/", e + "/") && !StartsWith(e + "/", d + "/")
  }

  /** The entry at d/rest is at e/rest now, for every rest, and every other entry is as it was. */
  ghost predicate DirectoryMoved<V>(before: map<string, V>, after: map<string, V>, d: string, e: string) {
    && (forall rest: string :: d + "/" + rest in before ==>
          && d + "/" + rest !in after
          && e + "/" + rest in after && after[e + "/" + rest] == before[d + "/" + rest])
    && (forall k :: k in before && !StartsWith(k, d + "/") && !Replaced(before, k, d, e) ==>
          k in after && after[k] == before[k])
    && (forall k :: k in after && k !in before ==> Replaced(before, k, d, e))
  }

  /** k lies under e and has a counterpart under d. */
  predicate Replaced<V>(before: map<string, V>, k: string, d: string, e: string) {
    StartsWith(k, e + "/") && d + "/" + k[|e| + 1..] in before
  }

  lemma RelabelMovesDirectory<V>(m: map<string, V>, d: string, e: string)
    requires Outside(d, e)
    ensures DirectoryMoved(m, Relabel(m, d + "/", e + "/"), d, e)
  {
    var p, q, r := d + "/", e + "/", Relabel(m, d + "/", e + "/");
    forall rest: string | p + rest in m
      ensures p + rest !in r && q + rest in r && r[q + rest] == m[p + rest]
    {
      UnderBoth(rest, p, q);
      assert IsImage(m, q + rest, p, q);
    }
  }

  lemma UnderBoth(rest: string, p: string, q: string)
    requires !StartsWith(p, q) && !StartsWith(q, p)
    ensures StartsWith(q + rest, q) && Image(q + rest, q, p) == p + rest
    ensures StartsWith(p + rest, p) && !StartsWith(p + rest, q)
  {
    if StartsWith(p + rest, q) {
      PrefixesNest(p + rest, p, q);
    }
  }

  /** A sibling whose name merely begins with the directory's name is never touched. */
  lemma SiblingsKept<V>(m: map<string, V>, d: string, rest: string, q: string)
    requires d != "" && d[0] != '/' && d[|d| - 1] != '/'
    requires rest != "" && rest[0] != '/' && d + rest in m && FreshTarget(m, AsDirectory(d), q)
    ensures d + rest in Relabel(m, AsDirectory(d), q) && Relabel(m, AsDirectory(d), q)[d + rest] == m[d + rest]
  {
  }

  // ------------------------------------------------------------ the store

  class Store<V> {
    var entries: map<string, V>

    constructor (entries: map<string, V>)
      ensures this.entries == entries
    {
      this.entries := entries;
    }

    /** A snapshot of the keys in key order, as an iterator walks them. */
    method NewIterator() returns (keys: seq<string>)
      ensures Enumerates(keys, entries.Keys)
    {
      keys := [];
      var todo := entries.Keys;
      while todo != {}
        invariant todo <= entries.Keys && Enumerates(keys, entries.Keys - todo)
        decreases |todo|
      {
        var k :| k in todo;
        InsertedSorted(keys, k);
        forall x ensures x in Inserted(keys, k) <==> x in keys || x == k {
          InsertedHolds(keys, k, x);
        }
        keys, todo := Inserted(keys, k), todo - {k};
      }
    }

    /** Iterator::Seek: the first key not below the target. */
    method Seek(keys: seq<string>, target: string) returns (i: nat)
      ensures i <= |keys|
      ensures forall j :: 0 <= j < i ==> Less(keys[j], target)
      ensures i < |keys| ==> !Less(keys[i], target)
    {
      i := Place(keys, target);
    }

    method Write(batch: seq<Op<V>>)
      modifies this
      ensures entries == Apply(old(entries), batch)
    {
      entries := Apply(entries, batch);
    }

    /** The iterator loop, helpers.cpp:92-98. */
    method CollectBatch(keys: seq<string>, p: string, q: string)
      returns (batch: seq<Op<V>>, ghost visited: seq<string>)
      requires Enumerates(keys, entries.Keys)
      ensures Sorted(visited) && Visits(entries, visited, p)
      ensures batch == RenameBatch(entries, visited, p, q, |visited|)
    {
      var seek := Seek(keys, p);
      var i := seek;
      batch, visited := [], [];
      while i < |keys| && StartsWith(keys[i], p)
        invariant seek <= i <= |keys|
        invariant visited == keys[seek..i]
        invariant forall j :: 0 <= j < |visited| ==> visited[j] in entries && StartsWith(visited[j], p)
        invariant batch == RenameBatch(entries, visited, p, q, |visited|)
      {
        assert keys[i] in keys;
        BatchPrefix(entries, visited, keys[i], p, q, |visited|);
        visited := visited + [keys[i]];
        batch := batch + [Delete(keys[i]), Put(Image(keys[i], p, q), entries[keys[i]])];
        i := i + 1;
      }
      forall j | seek <= j < i ensures StartsWith(keys[j], p) {
        assert visited[j - seek] == keys[j];
      }
      SeekLoopVisitsPrefix(keys, p, seek, i);
      BlockVisits(entries, keys, p, seek, i);
    }

    method UpdateKeysInDirectory(oldDirectory: string, newDirectory: string) returns (ghost visited: seq<string>)
      requires oldDirectory != "" && oldDirectory != "/" && newDirectory != "" && newDirectory != "/"
      modifies this
      ensures var p, q := AsDirectory(oldDirectory), AsDirectory(newDirectory);
        && Sorted(visited) && Visits(old(entries), visited, p)
        && entries == Apply(old(entries), RenameBatch(old(entries), visited, p, q, |visited|))
        && (Apart(p, q) ==> entries == Relabel(old(entries), p, q))
      ensures forall d, e :: Named(oldDirectory, d) && Named(newDirectory, e) && Outside(d, e) ==>
        DirectoryMoved(old(entries), entries, d, e)
    {
      var p, q := AsDirectory(oldDirectory), AsDirectory(newDirectory);
      var keys := NewIterator();
      var batch;
      batch, visited := CollectBatch(keys, p, q);
      BatchRelabelsIff(entries, visited, p, q);
      if Apart(p, q) {
        ApartNeverClashes(visited, p, q);
      }
      ghost var before := entries;
      Write(batch);
      forall d, e | Named(oldDirectory, d) && Named(newDirectory, e) && Outside(d, e)
        ensures DirectoryMoved(before, entries, d, e)
      {
        NamedScans(oldDirectory, d);
        NamedScans(newDirectory, e);
        RelabelMovesDirectory(before, d, e);
      }
    }
  }

  lemma {:induction false} BatchPrefix<V>(
      m: map<string, V>, visited: seq<string>, k: string, p: string, q: string, n: nat)
    requires forall i :: 0 <= i < |visited| ==> visited[i] in m && StartsWith(visited[i], p)
    requires k in m && StartsWith(k, p) && n <= |visited|
    ensures RenameBatch(m, visited + [k], p, q, n) == RenameBatch(m, visited, p, q, n)
  {
    if n > 0 {
      BatchPrefix(m, visited, k, p, q, n - 1);
    }
  }

  lemma BlockVisits<V>(m: map<string, V>, keys: seq<string>, p: string, seek: nat, stop: nat)
    requires Enumerates(keys, m.Keys) && seek <= stop <= |keys|
    requires forall i :: 0 <= i < |keys| ==> (StartsWith(keys[i], p) <==> seek <= i < stop)
    ensures Sorted(keys[seek..stop]) && Visits(m, keys[seek..stop], p)
  {
    var v := keys[seek..stop];
    forall i, j | 0 <= i < j < |v| ensures v[i] != v[j] {
      SortedDistinct(keys, seek + i, seek + j);
    }
    forall i | 0 <= i < |v| ensures v[i] in m && StartsWith(v[i], p) {
      assert keys[seek + i] in keys;
    }
    forall k | k in m && StartsWith(k, p) ensures k in v {
      assert k in keys;
      var i :| 0 <= i < |keys| && keys[i] == k;
      assert v[i - seek] == k;
    }
  }
}
