/**
 * Sorting by a comparator and summing over a sequence.  The dashboard sorts
 * twice (records by rank, type counts by count); both are modelled as one
 * insertion sort, of which only the order and the permutation are specified:
 * the order among ties is left open, as pandas does not promise a stable sort.
 */
module Sorting {

  /** `before` orders every pair one way or the other and is transitive. */
  ghost predicate TotalPreorder<T(!new)>(before: (T, T) -> bool) {
    && (forall a, b :: before(a, b) || before(b, a))
    && (forall a, b, c :: before(a, b) && before(b, c) ==> before(a, c))
  }

  ghost predicate Sorted<T>(s: seq<T>, before: (T, T) -> bool) {
    forall i, j :: 0 <= i < j < |s| ==> before(s[i], s[j])
  }

  ghost predicate Distinct<T>(s: seq<T>) {
    forall i, j :: 0 <= i < j < |s| ==> s[i] != s[j]
  }

  /** Puts `x` in front of the first element it may come before. */
  function InsertBy<T>(x: T, s: seq<T>, before: (T, T) -> bool): (r: seq<T>)
    ensures multiset(r) == multiset(s) + multiset{x}
  {
    if s == [] || before(x, s[0]) then [x] + s
    else
      assert s == [s[0]] + s[1..];
      [s[0]] + InsertBy(x, s[1..], before)
  }

  function SortBy<T>(s: seq<T>, before: (T, T) -> bool): (r: seq<T>)
    ensures multiset(r) == multiset(s)
    ensures |r| == |s|
  {
    if s == [] then []
    else
      assert s == [s[0]] + s[1..];
      InsertBy(s[0], SortBy(s[1..], before), before)
  }

  lemma {:induction false} InsertBySorted<T(!new)>(x: T, s: seq<T>, before: (T, T) -> bool)
    requires TotalPreorder(before)
    requires Sorted(s, before)
    ensures Sorted(InsertBy(x, s, before), before)
  {
    if s == [] || before(x, s[0]) {
    } else {
      var tail := InsertBy(x, s[1..], before);
      InsertBySorted(x, s[1..], before);
      forall k | 0 <= k < |tail|
        ensures before(s[0], tail[k])
      {
        assert tail[k] in multiset(tail);
        if tail[k] != x {
          assert tail[k] in multiset(s[1..]);
          var m :| 0 <= m < |s[1..]| && s[1..][m] == tail[k];
          assert s[m + 1] == tail[k];
        }
      }
    }
  }

  lemma {:induction false} SortBySorted<T(!new)>(s: seq<T>, before: (T, T) -> bool)
    requires TotalPreorder(before)
    ensures Sorted(SortBy(s, before), before)
  {
    if s != [] {
      SortBySorted(s[1..], before);
      InsertBySorted(s[0], SortBy(s[1..], before), before);
    }
  }

  lemma {:induction false} InsertByDistinct<T>(x: T, s: seq<T>, before: (T, T) -> bool)
    requires Distinct(s) && x !in s
    ensures Distinct(InsertBy(x, s, before))
  {
    if s == [] || before(x, s[0]) {
    } else {
      var tail := InsertBy(x, s[1..], before);
      InsertByDistinct(x, s[1..], before);
      assert s[0] !in multiset(s[1..]) + multiset{x};
      assert s[0] !in multiset(tail);
    }
  }

  lemma {:induction false} SortByDistinct<T>(s: seq<T>, before: (T, T) -> bool)
    requires Distinct(s)
    ensures Distinct(SortBy(s, before))
  {
    if s != [] {
      var rest := SortBy(s[1..], before);
      SortByDistinct(s[1..], before);
      assert s[0] !in multiset(rest);
      InsertByDistinct(s[0], rest, before);
    }
  }

  /**
   * A sequence whose neighbours are already strictly in order is left as it
   * is.  Strictness matters: on ties this insertion sort keeps input order,
   * which the sort it models does not promise.
   */
  lemma {:induction false} SortByInOrder<T>(s: seq<T>, before: (T, T) -> bool)
    requires forall i :: 0 <= i < |s| - 1 ==> before(s[i], s[i + 1]) && !before(s[i + 1], s[i])
    ensures SortBy(s, before) == s
  {
    if s != [] {
      SortByInOrder(s[1..], before);
      assert s == [s[0]] + s[1..];
    }
  }

  /** The sum of `f` over the elements of `s`. */
  function SumBy<T>(s: seq<T>, f: T -> int): int {
    if s == [] then 0 else f(s[0]) + SumBy(s[1..], f)
  }

  lemma {:induction false} SumByAppend<T>(a: seq<T>, b: seq<T>, f: T -> int)
    ensures SumBy(a + b, f) == SumBy(a, f) + SumBy(b, f)
  {
    if a == [] {
      assert a + b == b;
    } else {
      assert (a + b)[1..] == a[1..] + b;
      SumByAppend(a[1..], b, f);
    }
  }

  lemma {:induction false} InsertBySum<T>(x: T, s: seq<T>, before: (T, T) -> bool, f: T -> int)
    ensures SumBy(InsertBy(x, s, before), f) == f(x) + SumBy(s, f)
  {
    if s == [] || before(x, s[0]) {
      assert ([x] + s)[1..] == s;
    } else {
      InsertBySum(x, s[1..], before, f);
      assert ([s[0]] + InsertBy(x, s[1..], before))[1..] == InsertBy(x, s[1..], before);
    }
  }

  /** Sorting does not change a sum. */
  lemma {:induction false} SortBySum<T>(s: seq<T>, before: (T, T) -> bool, f: T -> int)
    ensures SumBy(SortBy(s, before), f) == SumBy(s, f)
  {
    if s != [] {
      SortBySum(s[1..], before, f);
      InsertBySum(s[0], SortBy(s[1..], before), before, f);
    }
  }
}
