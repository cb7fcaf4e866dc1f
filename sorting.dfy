/**
 * Ordering of query results. The database's `order_by` on a timestamp is modelled as
 * an insertion sort of row ids by an integer key; rows with equal keys keep a fixed
 * order (smaller id first), which the source leaves to the database.
 */
module Sorting {

  /** `a` is listed before `b`: smaller key first, then smaller id. */
  predicate Precedes(key: nat -> int, a: nat, b: nat) {
    key(a) < key(b) || (key(a) == key(b) && a < b)
  }

  predicate SortedBy(s: seq<nat>, key: nat -> int) {
    forall i, j :: 0 <= i < j < |s| ==> Precedes(key, s[i], s[j])
  }

  predicate Distinct(s: seq<nat>) {
    forall i, j :: 0 <= i < j < |s| ==> s[i] != s[j]
  }

  lemma SortedIsDistinct(s: seq<nat>, key: nat -> int)
    requires SortedBy(s, key)
    ensures Distinct(s)
  {
  }

  /** Any run of consecutive elements of a sorted list is sorted. */
  lemma SliceSorted(s: seq<nat>, lo: nat, hi: nat, key: nat -> int)
    requires SortedBy(s, key) && lo <= hi <= |s|
    ensures SortedBy(s[lo..hi], key)
  {
    forall i, j | 0 <= i < j < hi - lo
      ensures Precedes(key, s[lo..hi][i], s[lo..hi][j])
    {
      assert s[lo..hi][i] == s[lo + i] && s[lo..hi][j] == s[lo + j];
    }
  }

  /** Two lists with the same multiset hold the same elements. */
  lemma SameElements(r: seq<nat>, s: seq<nat>)
    requires multiset(r) == multiset(s)
    ensures forall x :: x in r <==> x in s
  {
    forall x
      ensures x in r <==> x in s
    {
      assert x in r <==> x in multiset(r);
      assert x in s <==> x in multiset(s);
    }
  }

  function Insert(x: nat, s: seq<nat>, key: nat -> int): (r: seq<nat>)
    requires SortedBy(s, key) && x !in s
    ensures multiset(r) == multiset(s) + multiset{x}
    ensures SortedBy(r, key)
    decreases |s|
  {
    if s == [] then [x]
    else if Precedes(key, x, s[0]) then [x] + s
    else
      var t := Insert(x, s[1..], key);
      assert s == [s[0]] + s[1..];
      HeadPrecedes(x, s, key, t);
      [s[0]] + t
  }

  /** The head of a sorted list that `x` does not precede precedes every element after inserting `x` into its tail. */
  lemma HeadPrecedes(x: nat, s: seq<nat>, key: nat -> int, t: seq<nat>)
    requires SortedBy(s, key) && x !in s && s != [] && !Precedes(key, x, s[0])
    requires multiset(t) == multiset(s[1..]) + multiset{x}
    ensures forall k :: 0 <= k < |t| ==> Precedes(key, s[0], t[k])
  {
    forall k | 0 <= k < |t|
      ensures Precedes(key, s[0], t[k])
    {
      assert t[k] in multiset(t);
      if t[k] != x {
        assert t[k] in multiset(s[1..]);
        var j :| 0 <= j < |s[1..]| && s[1..][j] == t[k];
        assert s[j + 1] == t[k];
      } else {
        assert x != s[0];
      }
    }
  }

  /** The ids of `s` in key order. */
  function SortBy(s: seq<nat>, key: nat -> int): (r: seq<nat>)
    requires Distinct(s)
    ensures SortedBy(r, key)
    ensures multiset(r) == multiset(s)
    decreases |s|
  {
    if s == [] then []
    else
      assert s == [s[0]] + s[1..];
      var t := SortBy(s[1..], key);
      assert s[0] !in multiset(s[1..]);
      Insert(s[0], t, key)
  }
}
