/**
 * What launch_crawlers and emplace_file collect: the unpinned files over all tiers, each
 * with the tier it was found in and its metadata, and the bytes seen in each tier.
 */
module Crawl {
  import opened Sums
  import opened Transfer
  import Popularity

  /** A regular file met by the crawler, with what lstat says about it. */
  datatype Entry = Entry(path: string, size: nat, sec: int, usec: int, ctime: int)

  datatype Found = Found(entry: Entry, tier: nat, metadata: Metadata)

  /** The Metadata constructor: the stored entry as it is, or a fresh one naming the tier. */
  function Lookup(index: map<string, Metadata>, path: string, tier: nat): (m: Metadata)
    ensures path in index ==> m == index[path]
    ensures path !in index ==> m.tierPath == tier && !m.pinned && m.accessCount == 0 && m.popularity == 856.8
  {
    if path in index then index[path]
    else Metadata(tier, 0, Popularity.INITIAL_POPULARITY, false)
  }

  /** The unpinned files among the first n of a tier, in the order met. */
  function Unpinned(entries: seq<Entry>, index: map<string, Metadata>, tier: nat, n: nat): seq<Found>
    requires n <= |entries|
  {
    if n == 0 then []
    else
      var e := entries[n - 1];
      var m := Lookup(index, e.path, tier);
      Unpinned(entries, index, tier, n - 1) + (if m.pinned then [] else [Found(e, tier, m)])
  }

  /** The unpinned files of the first n tiers. */
  function Crawled(listing: seq<seq<Entry>>, index: map<string, Metadata>, n: nat): seq<Found>
    requires n <= |listing|
  {
    if n == 0 then []
    else Crawled(listing, index, n - 1) + Unpinned(listing[n - 1], index, n - 1, |listing[n - 1]|)
  }

  function PinnedBytes(entries: seq<Entry>, index: map<string, Metadata>, tier: nat, n: nat): nat
    requires n <= |entries|
  {
    if n == 0 then 0
    else
      var e := entries[n - 1];
      PinnedBytes(entries, index, tier, n - 1)
      + (if Lookup(index, e.path, tier).pinned then e.size else 0)
  }

  function TotalBytes(entries: seq<Entry>, n: nat): nat
    requires n <= |entries|
  {
    if n == 0 then 0 else TotalBytes(entries, n - 1) + entries[n - 1].size
  }

  /** Every regular file counts, pinned or not. */
  lemma {:induction false} EveryEntryCounts(entries: seq<Entry>, n: nat)
    requires n <= |entries|
    ensures TotalBytes(entries, n) == Sum(seq(n, i requires 0 <= i < n => entries[i].size))
  {
    if n > 0 {
      EveryEntryCounts(entries, n - 1);
      assert seq(n, i requires 0 <= i < n => entries[i].size)[..n - 1]
          == seq(n - 1, i requires 0 <= i < n - 1 => entries[i].size);
    }
  }

  function Sizes(found: seq<Found>): (r: seq<nat>)
    ensures |r| == |found| && forall i :: 0 <= i < |r| ==> r[i] == found[i].entry.size
  {
    seq(|found|, i requires 0 <= i < |found| => found[i].entry.size)
  }

  function Tiers(found: seq<Found>): (r: seq<nat>)
    ensures |r| == |found| && forall i :: 0 <= i < |r| ==> r[i] == found[i].tier
  {
    seq(|found|, i requires 0 <= i < |found| => found[i].tier)
  }

  lemma ShareLast(found: seq<Found>, t: nat)
    requires |found| > 0
    ensures var n := |found| - 1;
      Share(Sizes(found), Tiers(found), t)
        == Share(Sizes(found[..n]), Tiers(found[..n]), t) + (if found[n].tier == t then found[n].entry.size else 0)
  {
    var n := |found| - 1;
    assert Sizes(found)[..n] == Sizes(found[..n]) && Tiers(found)[..n] == Tiers(found[..n]);
  }

  lemma {:induction false} ShareAppend(found: seq<Found>, more: seq<Found>, t: nat)
    ensures Share(Sizes(found + more), Tiers(found + more), t)
         == Share(Sizes(found), Tiers(found), t) + Share(Sizes(more), Tiers(more), t)
  {
    if |more| == 0 {
      assert found + more == found;
    } else {
      var n, all := |more| - 1, found + more;
      ShareAppend(found, more[..n], t);
      assert all[..|all| - 1] == found + more[..n];
      ShareLast(all, t);
      ShareLast(more, t);
    }
  }

  lemma {:induction false} UnpinnedBytes(entries: seq<Entry>, index: map<string, Metadata>, tier: nat, n: nat, t: nat)
    requires n <= |entries|
    ensures Share(Sizes(Unpinned(entries, index, tier, n)), Tiers(Unpinned(entries, index, tier, n)), t)
         == if t == tier then TotalBytes(entries, n) - PinnedBytes(entries, index, tier, n) else 0
  {
    if n > 0 {
      UnpinnedBytes(entries, index, tier, n - 1, t);
      var e := entries[n - 1];
      var m := Lookup(index, e.path, tier);
      var last := if m.pinned then [] else [Found(e, tier, m)];
      ShareAppend(Unpinned(entries, index, tier, n - 1), last, t);
      assert !m.pinned ==> Sizes(last) == [e.size] && Tiers(last) == [tier];
      assert !m.pinned ==> Sizes(last)[..0] == [] && Tiers(last)[..0] == [];
    }
  }

  /** Usage after the crawl is the pinned bytes plus the sizes of the tier's crawled files. */
  lemma {:induction false} CrawlUsage(listing: seq<seq<Entry>>, index: map<string, Metadata>, n: nat, t: nat)
    requires t < |listing| && n <= |listing|
    ensures Share(Sizes(Crawled(listing, index, n)), Tiers(Crawled(listing, index, n)), t)
         == if t < n then TotalBytes(listing[t], |listing[t]|) - PinnedBytes(listing[t], index, t, |listing[t]|)
            else 0
  {
    if n > 0 {
      CrawlUsage(listing, index, n - 1, t);
      UnpinnedBytes(listing[n - 1], index, n - 1, |listing[n - 1]|, t);
      ShareAppend(Crawled(listing, index, n - 1),
        Unpinned(listing[n - 1], index, n - 1, |listing[n - 1]|), t);
    }
  }

  // ------------------------------------------------ which files are found

  /** No relative path is listed twice, in one tier or in two. */
  ghost predicate DistinctListing(listing: seq<seq<Entry>>) {
    forall t, i, u, j ::
      0 <= t < |listing| && 0 <= i < |listing[t]| && 0 <= u < |listing| && 0 <= j < |listing[u]| && (t != u || i != j)
      ==> listing[t][i].path != listing[u][j].path
  }

  /** x is the unpinned entry i of its tier. */
  ghost predicate FoundAt(listing: seq<seq<Entry>>, index: map<string, Metadata>, x: Found, i: int) {
    && x.tier < |listing| && 0 <= i < |listing[x.tier]| && listing[x.tier][i] == x.entry
    && x.metadata == Lookup(index, x.entry.path, x.tier) && !x.metadata.pinned
  }

  /** x is one of the first n unpinned entries of tier t. */
  ghost predicate FromTier(listing: seq<seq<Entry>>, index: map<string, Metadata>, t: nat, n: nat, x: Found) {
    x.tier == t && exists i :: 0 <= i < n && FoundAt(listing, index, x, i)
  }

  ghost predicate DistinctPaths(found: seq<Found>) {
    forall k, l :: 0 <= k < l < |found| ==> found[k].entry.path != found[l].entry.path
  }

  lemma {:induction false} UnpinnedAre(listing: seq<seq<Entry>>, index: map<string, Metadata>, t: nat, n: nat)
    requires DistinctListing(listing) && t < |listing| && n <= |listing[t]|
    ensures forall x :: x in Unpinned(listing[t], index, t, n) ==> FromTier(listing, index, t, n, x)
    ensures DistinctPaths(Unpinned(listing[t], index, t, n))
  {
    if n > 0 {
      UnpinnedAre(listing, index, t, n - 1);
      var before, u := Unpinned(listing[t], index, t, n - 1), Unpinned(listing[t], index, t, n);
      forall x | x in u ensures FromTier(listing, index, t, n, x) {
        if x !in before {
          assert FoundAt(listing, index, x, n - 1);
        } else {
          assert FromTier(listing, index, t, n - 1, x);
        }
      }
      forall k, l | 0 <= k < l < |u| ensures u[k].entry.path != u[l].entry.path {
        assert u[k] == before[k] && u[k] in before;
        assert FromTier(listing, index, t, n - 1, u[k]);
      }
    }
  }

  lemma TiersApart(listing: seq<seq<Entry>>, index: map<string, Metadata>, x: Found, y: Found)
    requires DistinctListing(listing) && x.tier < y.tier < |listing|
    requires FromTier(listing, index, x.tier, |listing[x.tier]|, x)
    requires FromTier(listing, index, y.tier, |listing[y.tier]|, y)
    ensures x.entry.path != y.entry.path
  {
  }

  /** The crawl finds only listed, unpinned files, and no path twice. */
  lemma {:induction false} CrawledAre(listing: seq<seq<Entry>>, index: map<string, Metadata>, n: nat)
    requires DistinctListing(listing) && n <= |listing|
    ensures forall x :: x in Crawled(listing, index, n) ==>
              x.tier < n && FromTier(listing, index, x.tier, |listing[x.tier]|, x)
    ensures DistinctPaths(Crawled(listing, index, n))
  {
    if n > 0 {
      CrawledAre(listing, index, n - 1);
      UnpinnedAre(listing, index, n - 1, |listing[n - 1]|);
      var before, u := Crawled(listing, index, n - 1), Unpinned(listing[n - 1], index, n - 1, |listing[n - 1]|);
      forall x, y | x in before && y in u ensures x.entry.path != y.entry.path {
        TiersApart(listing, index, x, y);
      }
      assert Crawled(listing, index, n) == before + u;
    }
  }

  lemma {:induction false} UnpinnedHolds(entries: seq<Entry>, index: map<string, Metadata>, t: nat, n: nat, i: nat)
    requires i < n <= |entries| && !Lookup(index, entries[i].path, t).pinned
    ensures Found(entries[i], t, Lookup(index, entries[i].path, t)) in Unpinned(entries, index, t, n)
  {
    if i < n - 1 {
      UnpinnedHolds(entries, index, t, n - 1, i);
    }
  }

  /** The crawl finds every listed, unpinned file. */
  lemma {:induction false} CrawledHolds(
      listing: seq<seq<Entry>>, index: map<string, Metadata>, n: nat, t: nat, i: nat)
    requires t < n <= |listing| && i < |listing[t]|
    requires !Lookup(index, listing[t][i].path, t).pinned
    ensures Found(listing[t][i], t, Lookup(index, listing[t][i].path, t)) in Crawled(listing, index, n)
  {
    if t < n - 1 {
      CrawledHolds(listing, index, n - 1, t, i);
    } else {
      UnpinnedHolds(listing[t], index, t, |listing[t]|, i);
    }
  }
}
