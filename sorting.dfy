/**
 * `sort({ field: 1 | -1 })` / `$sort` on one numeric key: the result is ordered
 * by the key and is a permutation of the input.  Documents with equal keys may
 * come back in any order from the database; this model keeps them in the
 * order insertion sort leaves them.
 */
module Sorting {

  /** `a` may precede `b`: ascending or descending by `key`. */
  predicate InOrder<T>(key: T -> int, descending: bool, a: T, b: T) {
    if descending then key(a) >= key(b) else key(a) <= key(b)
  }

  predicate SortedBy<T>(s: seq<T>, key: T -> int, descending: bool) {
    forall i, j :: 0 <= i < j < |s| ==> InOrder(key, descending, s[i], s[j])
  }

  function Insert<T(==)>(x: T, s: seq<T>, key: T -> int, descending: bool): (r: seq<T>)
    ensures multiset(r) == multiset(s) + multiset{x}
  {
    if s == [] || InOrder(key, descending, x, s[0]) then
      [x] + s
    else
      assert s == [s[0]] + s[1..];
      [s[0]] + Insert(x, s[1..], key, descending)
  }

  /** Inserting into a sorted sequence keeps it sorted. */
  lemma {:induction false} InsertSorted<T>(x: T, s: seq<T>, key: T -> int, descending: bool)
    requires SortedBy(s, key, descending)
    ensures SortedBy(Insert(x, s, key, descending), key, descending)
  {
    if s == [] || InOrder(key, descending, x, s[0]) {
      var r := [x] + s;
      forall i, j | 0 <= i < j < |r| ensures InOrder(key, descending, r[i], r[j]) {
        if i > 0 {
          assert r[i] == s[i - 1] && r[j] == s[j - 1];
        } else if j > 1 {
          assert InOrder(key, descending, s[0], s[j - 1]);
        }
      }
    } else {
      var rest := Insert(x, s[1..], key, descending);
      InsertSorted(x, s[1..], key, descending);
      var r := [s[0]] + rest;
      forall j | 0 <= j < |rest| ensures InOrder(key, descending, s[0], rest[j]) {
        assert rest[j] in multiset(rest);
        assert rest[j] == x || rest[j] in multiset(s[1..]);
        if rest[j] != x {
          var k :| 0 <= k < |s[1..]| && s[1..][k] == rest[j];
          assert s[k + 1] == rest[j];
        }
      }
      forall i, j | 0 <= i < j < |r| ensures InOrder(key, descending, r[i], r[j]) {
        if i > 0 {
          assert r[i] == rest[i - 1] && r[j] == rest[j - 1];
        } else {
          assert r[j] == rest[j - 1];
        }
      }
    }
  }

  /** Insertion sort by `key`. */
  function SortBy<T(==)>(s: seq<T>, key: T -> int, descending: bool): (r: seq<T>)
    ensures multiset(r) == multiset(s)
  {
    if s == [] then []
    else
      assert s == [s[0]] + s[1..];
      Insert(s[0], SortBy(s[1..], key, descending), key, descending)
  }

  /** The result of `SortBy` is ordered by the key. */
  lemma {:induction false} SortBySorted<T>(s: seq<T>, key: T -> int, descending: bool)
    ensures SortedBy(SortBy(s, key, descending), key, descending)
  {
    if s != [] {
      SortBySorted(s[1..], key, descending);
      InsertSorted(s[0], SortBy(s[1..], key, descending), key, descending);
    }
  }

  /** Sorting keeps the documents: same length, same members. */
  lemma SortByElements<T>(s: seq<T>, key: T -> int, descending: bool)
    ensures |SortBy(s, key, descending)| == |s|
    ensures forall x :: x in SortBy(s, key, descending) <==> x in s
  {
    var r := SortBy(s, key, descending);
    assert |multiset(r)| == |multiset(s)|;
    forall x ensures x in r <==> x in s {
      assert x in r <==> x in multiset(r);
      assert x in s <==> x in multiset(s);
    }
  }

  /**
   * When every key is equal (a sort path no document has), sorting leaves the
   * documents in their natural order.
   */
  lemma {:induction false} SortByTies<T>(s: seq<T>, key: T -> int, descending: bool)
    requires forall i :: 0 <= i < |s| ==> key(s[i]) == key(s[0])
    ensures SortBy(s, key, descending) == s
  {
    if s != [] {
      SortByTies(s[1..], key, descending);
      assert s == [s[0]] + s[1..];
    }
  }

  /** A contiguous slice of a sorted sequence is sorted and draws its members from it. */
  lemma WindowOfSorted<T>(s: seq<T>, w: seq<T>, skip: int, key: T -> int, descending: bool)
    requires SortedBy(s, key, descending)
    requires forall k :: 0 <= k < |w| ==> skip + k < |s| && 0 <= skip + k && w[k] == s[skip + k]
    ensures SortedBy(w, key, descending)
    ensures forall x :: x in w ==> x in s
  {
    forall i, j | 0 <= i < j < |w| ensures InOrder(key, descending, w[i], w[j]) {
      assert 0 <= skip + i < |s| && w[i] == s[skip + i];
      assert 0 <= skip + j < |s| && w[j] == s[skip + j];
    }
    forall x | x in w ensures x in s {
      var k :| 0 <= k < |w| && w[k] == x;
      assert 0 <= skip + k < |s| && s[skip + k] == x;
    }
  }
}
