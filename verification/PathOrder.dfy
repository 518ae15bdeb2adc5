/**
 * The order of database keys (byte by byte, a prefix first), and what it does to keys
 * that share a prefix.
 */
module PathOrder {

  predicate Less(a: string, b: string) {
    |b| > 0 && (|a| == 0 || a[0] < b[0] || (a[0] == b[0] && Less(a[1..], b[1..])))
  }

  predicate StartsWith(k: string, p: string) {
    |p| <= |k| && k[..|p|] == p
  }

  lemma {:induction false} LessIrreflexive(a: string)
    ensures !Less(a, a)
  {
    if |a| > 0 {
      LessIrreflexive(a[1..]);
    }
  }

  lemma {:induction false} LessTransitive(a: string, b: string, c: string)
    requires Less(a, b) && Less(b, c)
    ensures Less(a, c)
  {
    if |a| > 0 && a[0] == b[0] == c[0] {
      LessTransitive(a[1..], b[1..], c[1..]);
    }
  }

  lemma {:induction false} LessTotal(a: string, b: string)
    ensures Less(a, b) || Less(b, a) || a == b
  {
    if |a| > 0 && |b| > 0 && a[0] == b[0] {
      LessTotal(a[1..], b[1..]);
      assert a == [a[0]] + a[1..] && b == [b[0]] + b[1..];
    }
  }

  /** The first byte in which two keys differ decides; a key that ends there is the lower one. */
  lemma {:induction false} FirstDifferenceDecides(a: string, b: string, n: nat)
    requires n <= |a| && n < |b| && a[..n] == b[..n]
    requires n < |a| ==> a[n] != b[n]
    ensures Less(a, b) <==> n == |a| || a[n] < b[n]
  {
    if n > 0 {
      assert a[0] == a[..n][0] == b[..n][0] == b[0];
      assert a[1..][..n - 1] == a[..n][1..] && b[1..][..n - 1] == b[..n][1..];
      FirstDifferenceDecides(a[1..], b[1..], n - 1);
    }
  }

  /** A key is not below any of its prefixes. */
  lemma {:induction false} PrefixNotAbove(k: string, p: string)
    requires StartsWith(k, p)
    ensures !Less(k, p)
  {
    if |p| > 0 {
      assert k[0] == k[..|p|][0] == p[0];
      assert k[1..][..|p| - 1] == k[..|p|][1..];
      PrefixNotAbove(k[1..], p[1..]);
    }
  }

  /** Whatever lies between a prefix and a key with that prefix has the prefix too. */
  lemma {:induction false} PrefixConvex(p: string, a: string, k: string)
    requires StartsWith(k, p) && !Less(a, p) && !Less(k, a)
    ensures StartsWith(a, p)
  {
    if |p| > 0 {
      assert k[0] == k[..|p|][0] == p[0];
      assert k[1..][..|p| - 1] == k[..|p|][1..];
      assert |a| > 0;
      assert a[0] == p[0];
      PrefixConvex(p[1..], a[1..], k[1..]);
      assert a == [a[0]] + a[1..];
      assert a[..|p|] == [a[0]] + a[1..][..|p| - 1];
      assert p == [p[0]] + p[1..];
    }
  }

  /** Two prefixes of one string are prefixes of one another. */
  lemma PrefixesNest(k: string, p: string, q: string)
    requires StartsWith(k, p) && StartsWith(k, q)
    ensures StartsWith(p, q) || StartsWith(q, p)
  {
  }

  // ------------------------------------------------------- sorted key lists

  predicate Sorted(keys: seq<string>) {
    forall i, j :: 0 <= i < j < |keys| ==> Less(keys[i], keys[j])
  }

  /** The keys in the order an iterator meets them. */
  ghost predicate Enumerates(keys: seq<string>, dom: set<string>) {
    Sorted(keys) && forall k :: k in keys <==> k in dom
  }

  lemma SortedDistinct(keys: seq<string>, i: nat, j: nat)
    requires Sorted(keys) && i < j < |keys|
    ensures keys[i] != keys[j]
  {
    LessIrreflexive(keys[i]);
  }

  /** The keys that start with p lie in one block: a position is in it or on a known side of it. */
  lemma PrefixBlock(keys: seq<string>, p: string, i: nat, j: nat)
    requires Sorted(keys) && i <= j < |keys| && StartsWith(keys[j], p)
    ensures StartsWith(keys[i], p) <==> !Less(keys[i], p)
  {
    if StartsWith(keys[i], p) {
      PrefixNotAbove(keys[i], p);
    } else if !Less(keys[i], p) {
      if Less(keys[j], keys[i]) {
        LessIrreflexive(keys[i]);
        if i < j {
          LessTransitive(keys[i], keys[j], keys[i]);
        }
      }
      PrefixConvex(p, keys[i], keys[j]);
    }
  }

  /**
   * The loop `for (Seek(p); Valid() && starts_with(p); Next())` visits exactly the keys
   * that start with p: seek is the first key not below p, stop the first without p.
   */
  lemma SeekLoopVisitsPrefix(keys: seq<string>, p: string, seek: nat, stop: nat)
    requires Sorted(keys) && seek <= stop <= |keys|
    requires forall i :: 0 <= i < seek ==> Less(keys[i], p)
    requires seek < |keys| ==> !Less(keys[seek], p)
    requires forall i :: seek <= i < stop ==> StartsWith(keys[i], p)
    requires stop < |keys| ==> !StartsWith(keys[stop], p)
    ensures forall i :: 0 <= i < |keys| ==> (StartsWith(keys[i], p) <==> seek <= i < stop)
  {
    forall i | 0 <= i < |keys| ensures StartsWith(keys[i], p) <==> seek <= i < stop {
      if i < seek && StartsWith(keys[i], p) {
        PrefixNotAbove(keys[i], p);
      } else if stop <= i && StartsWith(keys[i], p) {
        NotBelowAfter(keys, p, seek, stop);
        PrefixBlock(keys, p, stop, i);
      }
    }
  }

  lemma NotBelowAfter(keys: seq<string>, p: string, seek: nat, i: nat)
    requires Sorted(keys) && seek <= i < |keys| && !Less(keys[seek], p)
    ensures !Less(keys[i], p)
  {
    if seek < i && Less(keys[i], p) {
      LessTransitive(keys[seek], keys[i], p);
    }
  }

  /** Where a key goes in a sorted list. */
  function Place(keys: seq<string>, k: string): (n: nat)
    ensures n <= |keys|
    ensures forall i :: 0 <= i < n ==> Less(keys[i], k)
    ensures n < |keys| ==> !Less(keys[n], k)
  {
    if |keys| == 0 || !Less(keys[0], k) then 0 else 1 + Place(keys[1..], k)
  }

  function Inserted(keys: seq<string>, k: string): seq<string> {
    var n := Place(keys, k);
    keys[..n] + [k] + keys[n..]
  }

  lemma InsertedHolds(keys: seq<string>, k: string, x: string)
    ensures x in Inserted(keys, k) <==> x in keys || x == k
  {
  }

  lemma InsertedSorted(keys: seq<string>, k: string)
    requires Sorted(keys) && k !in keys
    ensures Sorted(Inserted(keys, k))
  {
    var n := Place(keys, k);
    var all := Inserted(keys, k);
    forall j | n <= j < |keys| ensures Less(k, keys[j]) {
      LessTotal(k, keys[n]);
      if n < j {
        LessTransitive(k, keys[n], keys[j]);
      }
    }
    forall i | 0 <= i < |all| ensures all[i] == if i < n then keys[i] else if i == n then k else keys[i - 1] {
    }
  }
}

