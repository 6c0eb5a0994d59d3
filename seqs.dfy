/**
 * Collection operations the database queries reduce to once a collection is a
 * sequence of documents in insertion (natural) order.
 *
 *  - `find(filter)` / `deleteMany(filter)` / a `$lookup` + `$size`: `Filter`, `Count`;
 *  - `findOne(filter)` + `findByIdAndDelete`: `FirstIndex`, `RemoveAt`;
 *  - the "look up, then delete or create" toggles: `Toggle`;
 *  - `$addToSet` with `$each` and `$pull` on an array field: `AddToSet`, `Pull`.
 */
module Seqs {
  import opened Wrappers

  /** The documents of `s` satisfying `p`, in their original order. */
  function Filter<T(!new)>(s: seq<T>, p: T -> bool): (r: seq<T>)
    ensures |r| <= |s|
    ensures forall k :: 0 <= k < |r| ==> p(r[k])
  {
    if s == [] then [] else (if p(s[0]) then [s[0]] else []) + Filter(s[1..], p)
  }

  /** A document is selected exactly when it is in the collection and satisfies `p`. */
  lemma {:induction false} FilterMembership<T(!new)>(s: seq<T>, p: T -> bool)
    ensures forall x :: x in Filter(s, p) <==> x in s && p(x)
  {
    if s != [] {
      FilterMembership(s[1..], p);
      assert s == [s[0]] + s[1..];
    }
  }

  /** Number of documents satisfying `p` (the `$size` of a `$lookup`, `countDocuments`). */
  function Count<T(!new)>(s: seq<T>, p: T -> bool): nat {
    |Filter(s, p)|
  }

  function Not<T(!new)>(p: T -> bool): T -> bool {
    x => !p(x)
  }

  function Sum(s: seq<int>): int {
    if s == [] then 0 else s[0] + Sum(s[1..])
  }

  predicate NoDuplicates<T(==,!new)>(s: seq<T>) {
    forall i, j :: 0 <= i < j < |s| ==> s[i] != s[j]
  }

  lemma {:induction false} FilterAppend<T(!new)>(a: seq<T>, b: seq<T>, p: T -> bool)
    ensures Filter(a + b, p) == Filter(a, p) + Filter(b, p)
  {
    if a != [] {
      var ab := a + b;
      assert ab[0] == a[0] && ab[1..] == a[1..] + b;
      FilterAppend(a[1..], b, p);
      var head := if p(a[0]) then [a[0]] else [];
      calc {
        Filter(ab, p);
        head + Filter(a[1..] + b, p);
        head + (Filter(a[1..], p) + Filter(b, p));
        (head + Filter(a[1..], p)) + Filter(b, p);
        Filter(a, p) + Filter(b, p);
      }
    } else {
      assert a + b == b;
    }
  }

  /** Filtering twice is filtering once by both conditions (two successive `deleteMany`s). */
  lemma {:induction false} FilterFilter<T(!new)>(s: seq<T>, p: T -> bool, q: T -> bool, both: T -> bool)
    requires forall x :: both(x) == (p(x) && q(x))
    ensures Filter(Filter(s, p), q) == Filter(s, both)
  {
    if s != [] {
      FilterFilter(s[1..], p, q, both);
      var fp := Filter(s, p);
      if p(s[0]) {
        assert fp == [s[0]] + Filter(s[1..], p);
        assert fp[0] == s[0] && fp[1..] == Filter(s[1..], p);
        calc {
          Filter(fp, q);
          (if q(s[0]) then [s[0]] else []) + Filter(Filter(s[1..], p), q);
          (if both(s[0]) then [s[0]] else []) + Filter(s[1..], both);
          Filter(s, both);
        }
      } else {
        assert fp == Filter(s[1..], p);
      }
    }
  }

  /** Two conditions that agree on every element of `s` select the same documents. */
  lemma {:induction false} FilterAgree<T(!new)>(s: seq<T>, p: T -> bool, q: T -> bool)
    requires forall x :: x in s ==> p(x) == q(x)
    ensures Filter(s, p) == Filter(s, q)
  {
    if s != [] {
      FilterAgree(s[1..], p, q);
    }
  }

  /** A condition every document satisfies removes nothing. */
  lemma {:induction false} FilterAll<T(!new)>(s: seq<T>, p: T -> bool)
    requires forall x :: x in s ==> p(x)
    ensures Filter(s, p) == s
  {
    if s != [] {
      FilterAll(s[1..], p);
    }
  }

  /** Filtering keeps distinct documents distinct. */
  lemma {:induction false} FilterNoDuplicates<T(!new)>(s: seq<T>, p: T -> bool)
    requires NoDuplicates(s)
    ensures NoDuplicates(Filter(s, p))
  {
    if s != [] {
      FilterNoDuplicates(s[1..], p);
      FilterMembership(s[1..], p);
      assert s[0] !in s[1..];
      assert s[0] !in Filter(s[1..], p);
    }
  }

  lemma CountAppendOne<T(!new)>(s: seq<T>, x: T, p: T -> bool)
    ensures Count(s + [x], p) == Count(s, p) + (if p(x) then 1 else 0)
  {
    FilterAppend(s, [x], p);
    assert Filter([x], p) == (if p(x) then [x] else []) + Filter([], p);
  }

  /** `s` without its `i`-th document. */
  function RemoveAt<T(!new)>(s: seq<T>, i: nat): (r: seq<T>)
    requires i < |s|
    ensures |r| == |s| - 1
    ensures forall k :: 0 <= k < i ==> r[k] == s[k]
    ensures forall k :: i <= k < |r| ==> r[k] == s[k + 1]
  {
    s[..i] + s[i + 1..]
  }

  lemma CountRemoveAt<T(!new)>(s: seq<T>, i: nat, p: T -> bool)
    requires i < |s|
    ensures Count(RemoveAt(s, i), p) == Count(s, p) - (if p(s[i]) then 1 else 0)
  {
    assert s == s[..i] + [s[i]] + s[i + 1..];
    FilterAppend(s[..i] + [s[i]], s[i + 1..], p);
    FilterAppend(s[..i], [s[i]], p);
    FilterAppend(s[..i], s[i + 1..], p);
    assert Filter([s[i]], p) == (if p(s[i]) then [s[i]] else []) + Filter([], p);
  }

  /** Removing a document that fails `p` leaves the documents satisfying `p` as they were. */
  lemma {:induction false} FilterRemoveAtOther<T(!new)>(s: seq<T>, i: nat, p: T -> bool)
    requires i < |s| && !p(s[i])
    ensures Filter(RemoveAt(s, i), p) == Filter(s, p)
  {
    var front, back := s[..i], s[i + 1..];
    var tail := [s[i]] + back;
    assert s == front + tail;
    assert RemoveAt(s, i) == front + back;
    FilterAppend(front, tail, p);
    FilterAppend(front, back, p);
    assert Filter(tail, p) == Filter(back, p) by {
      assert tail[0] == s[i] && tail[1..] == back;
    }
  }

  /** Distinct entries that are all equal to the first: there is at most one. */
  lemma SameEverywhere<T(!new)>(s: seq<T>)
    requires NoDuplicates(s)
    requires forall a :: 0 <= a < |s| ==> s[a] == s[0]
    ensures |s| <= 1
  {
    if s != [] {
      var second := if |s| > 1 then 1 else 0;
      assert s[second] == s[0];
    }
  }

  /** `findOne(filter)` on a collection in natural order: the first matching position. */
  function FirstIndex<T(!new)>(s: seq<T>, p: T -> bool): (r: Option<nat>)
    ensures r.Some? ==> r.value < |s| && p(s[r.value])
    ensures r.Some? ==> forall k :: 0 <= k < r.value ==> !p(s[k])
    ensures r.None? <==> forall k :: 0 <= k < |s| ==> !p(s[k])
  {
    if s == [] then None
    else if p(s[0]) then Some(0)
    else match FirstIndex(s[1..], p)
      case None => None
      case Some(i) => Some(i + 1)
  }

  lemma {:induction false} CountZeroIffNone<T(!new)>(s: seq<T>, p: T -> bool)
    ensures Count(s, p) == 0 <==> FirstIndex(s, p).None?
  {
    if s != [] {
      CountZeroIffNone(s[1..], p);
    }
  }

  /** Appending a match to a collection with none makes it the first match. */
  lemma {:induction false} FirstIndexAfterNone<T(!new)>(s: seq<T>, p: T -> bool, x: T)
    requires FirstIndex(s, p).None? && p(x)
    ensures FirstIndex(s + [x], p) == Some(|s|)
  {
    if s != [] {
      assert (s + [x])[1..] == s[1..] + [x];
      FirstIndexAfterNone(s[1..], p, x);
    }
  }

  /**
   * Check-then-act on a collection: delete the first document matching `p` when
   * there is one, otherwise insert `added`.
   */
  function Toggle<T(!new)>(s: seq<T>, p: T -> bool, added: T): (r: seq<T>)
    ensures FirstIndex(s, p).Some? ==> |r| == |s| - 1
    ensures FirstIndex(s, p).None? ==> r == s + [added]
  {
    match FirstIndex(s, p)
    case Some(i) => RemoveAt(s, i)
    case None => s + [added]
  }

  /** A toggle removes one matching document or adds one, when `added` matches. */
  lemma ToggleCount<T(!new)>(s: seq<T>, p: T -> bool, added: T)
    requires p(added)
    ensures Count(s, p) > 0 ==> Count(Toggle(s, p, added), p) == Count(s, p) - 1
    ensures Count(s, p) == 0 ==> Count(Toggle(s, p, added), p) == 1
  {
    CountZeroIffNone(s, p);
    match FirstIndex(s, p)
    case Some(i) => CountRemoveAt(s, i, p);
    case None => CountAppendOne(s, added, p); assert Filter(s, p) == [];
  }

  /** A toggle leaves every document that does not match `p` in place and in order. */
  lemma ToggleKeepsOthers<T(!new)>(s: seq<T>, p: T -> bool, added: T)
    requires p(added)
    ensures Filter(Toggle(s, p, added), Not(p)) == Filter(s, Not(p))
  {
    match FirstIndex(s, p)
    case Some(i) => FilterRemoveAtOther(s, i, Not(p));
    case None =>
      FilterAppend(s, [added], Not(p));
      assert Filter([added], Not(p)) == [];
  }

  /** If at most one document matched before a toggle, at most one matches after it. */
  lemma ToggleAtMostOne<T(!new)>(s: seq<T>, p: T -> bool, added: T)
    requires p(added) && Count(s, p) <= 1
    ensures Count(Toggle(s, p, added), p) <= 1
  {
    ToggleCount(s, p, added);
  }

  /**
   * Toggling twice restores whether a matching document exists, provided there
   * was at most one; from a collection with no match it restores the collection.
   */
  lemma ToggleTwice<T(!new)>(s: seq<T>, p: T -> bool, added1: T, added2: T)
    requires p(added1) && p(added2) && Count(s, p) <= 1
    ensures (Count(Toggle(Toggle(s, p, added1), p, added2), p) > 0) == (Count(s, p) > 0)
    ensures Count(s, p) == 0 ==> Toggle(Toggle(s, p, added1), p, added2) == s
  {
    var once := Toggle(s, p, added1);
    ToggleCount(s, p, added1);
    ToggleCount(once, p, added2);
    if Count(s, p) == 0 {
      CountZeroIffNone(s, p);
      assert once == s + [added1];
      FirstIndexAfterNone(s, p, added1);
      assert RemoveAt(once, |s|) == s;
    }
  }

  /**
   * `$addToSet: { field: { $each: ys } }`: each value of `ys` in turn is appended
   * unless the array already holds it.
   */
  function AddToSet<T(==,!new)>(xs: seq<T>, ys: seq<T>): (r: seq<T>)
    ensures |xs| <= |r| && r[..|xs|] == xs
    ensures forall k :: |xs| <= k < |r| ==> r[k] in ys && r[k] !in xs
    ensures NoDuplicates(r[|xs|..])
    ensures forall x :: x in r <==> x in xs || x in ys
    ensures NoDuplicates(xs) ==> NoDuplicates(r)
    decreases |ys|
  {
    if ys == [] then xs
    else
      var next := if ys[0] in xs then xs else xs + [ys[0]];
      var r := AddToSet(next, ys[1..]);
      assert ys == [ys[0]] + ys[1..];
      assert next[..|xs|] == xs;
      assert r[..|xs|] == r[..|next|][..|xs|];
      assert forall k :: |xs| <= k < |r| ==> r[k] in ys && r[k] !in xs by {
        forall k | |xs| <= k < |r| ensures r[k] in ys && r[k] !in xs {
          if k < |next| {
            assert r[k] == r[..|next|][k] == next[k] == ys[0];
          } else {
            assert r[k] in ys[1..];
            assert forall x :: x in xs ==> x in next;
          }
        }
      }
      assert NoDuplicates(r[|xs|..]) by {
        forall i, j | |xs| <= i < j < |r| ensures r[i] != r[j] {
          if i < |next| {
            assert r[i] == r[..|next|][i] == next[i];
            assert next[i] in next;
          } else {
            assert r[|next|..][i - |next|] == r[i] && r[|next|..][j - |next|] == r[j];
          }
        }
      }
      r
  }

  /** The values of `s`, each kept at its first occurrence only. */
  function Dedup<T(==,!new)>(s: seq<T>): seq<T>
    decreases |s|
  {
    if s == [] then [] else [s[0]] + Dedup(Filter(s[1..], Other(s[0])))
  }

  function Other<T(==,!new)>(y: T): T -> bool {
    x => x != y
  }

  /**
   * The values `$addToSet` appends are those of `ys` the array did not hold,
   * in the order of their first occurrence in `ys`.
   */
  lemma {:induction false} AddToSetOrder<T(!new)>(xs: seq<T>, ys: seq<T>)
    ensures AddToSet(xs, ys) == xs + Dedup(Filter(ys, NotIn(xs)))
    decreases |ys|
  {
    if ys == [] {
      assert xs + Dedup(Filter(ys, NotIn(xs))) == xs + [];
    } else if ys[0] in xs {
      AddToSetOrder(xs, ys[1..]);
      assert Filter(ys, NotIn(xs)) == Filter(ys[1..], NotIn(xs)) by {
        assert Filter(ys, NotIn(xs)) == [] + Filter(ys[1..], NotIn(xs));
      }
    } else {
      AddToSetOrder(xs + [ys[0]], ys[1..]);
      DedupNewValue(xs, ys);
    }
  }

  /** A first value the array lacks is appended first; the rest are deduplicated against it. */
  lemma DedupNewValue<T(!new)>(xs: seq<T>, ys: seq<T>)
    requires ys != [] && ys[0] !in xs
    ensures Dedup(Filter(ys, NotIn(xs))) == [ys[0]] + Dedup(Filter(ys[1..], NotIn(xs + [ys[0]])))
  {
    var y, rest := ys[0], ys[1..];
    var added := Filter(ys, NotIn(xs));
    assert added == [y] + Filter(rest, NotIn(xs));
    assert added[0] == y && added[1..] == Filter(rest, NotIn(xs));
    assert Dedup(added) == [y] + Dedup(Filter(Filter(rest, NotIn(xs)), Other(y)));
    NotInAppend(xs, y);
    FilterFilter(rest, NotIn(xs), Other(y), NotIn(xs + [y]));
  }

  lemma NotInAppend<T(!new)>(xs: seq<T>, y: T)
    ensures forall x :: NotIn(xs + [y])(x) == (NotIn(xs)(x) && Other(y)(x))
  {
  }

  function NotIn<T(==,!new)>(ys: seq<T>): T -> bool {
    x => x !in ys
  }

  /** `$pull` of every value in `ys`: all occurrences go, the rest keep their order. */
  function Pull<T(==,!new)>(xs: seq<T>, ys: seq<T>): (r: seq<T>)
    ensures forall x :: x in r <==> x in xs && x !in ys
    ensures |r| <= |xs|
  {
    FilterMembership(xs, NotIn(ys));
    Filter(xs, NotIn(ys))
  }

  /** Pulling distributes over concatenation, so the entries left keep their relative order. */
  lemma PullAppend<T(!new)>(xs: seq<T>, zs: seq<T>, ys: seq<T>)
    ensures Pull(xs + zs, ys) == Pull(xs, ys) + Pull(zs, ys)
  {
    FilterAppend(xs, zs, NotIn(ys));
  }

  /**
   * Adding values the array did not hold and then pulling the same values
   * gives the array back.
   */
  lemma PullAfterAddToSet<T(!new)>(xs: seq<T>, ys: seq<T>)
    requires forall x :: x in xs ==> x !in ys
    ensures Pull(AddToSet(xs, ys), ys) == xs
  {
    var r := AddToSet(xs, ys);
    var extra := r[|xs|..];
    assert r == xs + extra;
    PullAppend(xs, extra, ys);
    FilterAll(xs, NotIn(ys));
    assert forall k :: 0 <= k < |extra| ==> extra[k] == r[|xs| + k];
    FilterNone(extra, NotIn(ys));
  }

  /** A condition no document satisfies selects nothing. */
  lemma FilterNone<T(!new)>(s: seq<T>, p: T -> bool)
    requires forall k :: 0 <= k < |s| ==> !p(s[k])
    ensures Filter(s, p) == []
  {
    FilterMembership(s, p);
  }
}
