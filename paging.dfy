/**
 * Pagination as the handlers ask the database for it: `skip((page - 1) * limit)`
 * then `limit(limit)` on a `find` cursor, or `$skip` / `$limit` stages in an
 * aggregation pipeline.  The two refuse different arguments.
 */
module Paging {
  import opened Wrappers

  /** The `(page - 1) * limit` every handler computes from the query string. */
  function SkipFor(page: int, limit: int): int {
    (page - 1) * limit
  }

  function Abs(n: int): nat {
    if n < 0 then -n else n
  }

  function Min(a: nat, b: nat): nat {
    if a < b then a else b
  }

  /** At most `cap` documents of `s` starting at position `skip`. */
  function Window<T>(s: seq<T>, skip: nat, cap: nat): (r: seq<T>)
    ensures |r| == if skip <= |s| then Min(|s| - skip, cap) else 0
    ensures forall k :: 0 <= k < |r| ==> skip + k < |s| && r[k] == s[skip + k]
  {
    if skip >= |s| then [] else s[skip..][..Min(|s| - skip, cap)]
  }

  /**
   * `r` is exactly the page of `s` that starts at position `skip` and holds
   * `cap` documents, or fewer when `s` runs out first.
   */
  ghost predicate IsWindow<T>(s: seq<T>, skip: int, cap: int, r: seq<T>) {
    0 <= skip && 0 <= cap
    && |r| == (if skip >= |s| then 0 else if |s| - skip < cap then |s| - skip else cap)
    && forall k :: 0 <= k < |r| ==> skip + k < |s| && r[k] == s[skip + k]
  }

  /** The page a `find` cursor returns: `limit(0)` means no limit, a negative limit its absolute value. */
  ghost predicate FindPage<T>(s: seq<T>, skip: int, limit: int, r: seq<T>) {
    IsWindow(s, skip, if limit == 0 then |s| else Abs(limit), r)
  }

  /**
   * `cursor.skip(skip).limit(limit)`: the server refuses a negative skip (the
   * query fails), `limit(0)` means no limit and a negative limit is read as its
   * absolute value.
   */
  function FindWindow<T>(s: seq<T>, skip: int, limit: int): (r: Option<seq<T>>)
    ensures r.None? <==> skip < 0
    ensures r.Some? && limit == 0 ==> r.value == (if skip <= |s| then s[skip..] else [])
    ensures r.Some? && limit != 0 ==> |r.value| <= Abs(limit)
    ensures r.Some? ==> forall k :: 0 <= k < |r.value| ==> skip + k < |s| && r.value[k] == s[skip + k]
    ensures r.Some? && limit != 0 && skip + Abs(limit) <= |s| ==> |r.value| == Abs(limit)
    ensures r.Some? ==> FindPage(s, skip, limit, r.value)
  {
    if skip < 0 then None
    else if limit == 0 then Some(Window(s, skip, |s|))
    else Some(Window(s, skip, Abs(limit)))
  }

  /**
   * `{ $skip: skip }, { $limit: limit }`: the pipeline fails unless the skip is
   * non-negative and the limit positive.
   */
  function AggregateWindow<T>(s: seq<T>, skip: int, limit: int): (r: Option<seq<T>>)
    ensures r.None? <==> skip < 0 || limit <= 0
    ensures r.Some? ==> |r.value| <= limit
    ensures r.Some? ==> forall k :: 0 <= k < |r.value| ==> skip + k < |s| && r.value[k] == s[skip + k]
    ensures r.Some? && skip + limit <= |s| ==> |r.value| == limit
    ensures r.Some? ==> IsWindow(s, skip, limit, r.value)
  {
    if skip < 0 || limit <= 0 then None else Some(Window(s, skip, limit))
  }
}
