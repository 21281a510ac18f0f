/**
 * The data step of the line/area chart: the table sorted ascending by rank,
 * with a running total of `members` alongside.
 */
module Cumulative {
  import opened Wrappers
  import opened Sorting
  import opened Fetch

  /**
   * Ascending order on rank as pandas sorts a numeric column: a missing rank
   * (NaN) goes after every present one.
   */
  predicate RankBefore(a: Record, b: Record) {
    match (a.rank, b.rank)
    case (_, None) => true
    case (None, Some(_)) => false
    case (Some(x), Some(y)) => x <= y
  }

  lemma RankBeforeIsTotalPreorder()
    ensures TotalPreorder(RankBefore)
  {
  }

  /** `df.sort_values(by='rank', ascending=True)`. */
  function SortByRank(t: Table): (r: Table)
    ensures multiset(r) == multiset(t) && |r| == |t|
  {
    SortBy(t, RankBefore)
  }

  /** After the sort, ranks do not decrease and missing ranks come last. */
  lemma SortByRankSorted(t: Table)
    ensures Sorted(SortByRank(t), RankBefore)
  {
    RankBeforeIsTotalPreorder();
    SortBySorted(t, RankBefore);
  }

  /** A record's members, counted as 0 when missing (skipped by the sum). */
  function MembersOrZero(r: Record): int {
    r.members.GetOr(0)
  }

  /**
   * pandas' `cumsum` with `acc` carried in: a missing value stays missing in
   * the output and adds nothing to the total that follows.
   */
  function CumSum(t: Table, acc: int): (c: seq<Option<int>>)
    ensures |c| == |t|
  {
    if t == [] then []
    else
      var total := acc + MembersOrZero(t[0]);
      [if t[0].members.Some? then Some(total) else None] + CumSum(t[1..], total)
  }

  /** The `cumulative_members` column of a table. */
  function RunningMembers(t: Table): (c: seq<Option<int>>)
    ensures |c| == |t|
  {
    CumSum(t, 0)
  }

  /** Entry `i` of the running sum is the sum over records 0..i. */
  lemma {:induction false} CumSumAt(t: Table, acc: int, i: nat)
    requires i < |t|
    ensures CumSum(t, acc)[i] ==
      if t[i].members.Some? then Some(acc + SumBy(t[..i + 1], MembersOrZero)) else None
  {
    if i == 0 {
      assert t[..1][1..] == [];
    } else {
      var total := acc + MembersOrZero(t[0]);
      CumSumAt(t[1..], total, i - 1);
      assert t[..i + 1][1..] == t[1..][..i];
    }
  }

  lemma RunningMembersAt(t: Table, i: nat)
    requires i < |t|
    ensures RunningMembers(t)[i] ==
      if t[i].members.Some? then Some(SumBy(t[..i + 1], MembersOrZero)) else None
  {
    CumSumAt(t, 0, i);
  }

  /** The sorted table with its running-sum column. */
  datatype LineAreaData = LineAreaData(sorted: Table, cumulative: seq<Option<int>>)

  /** Lines 84-85 of the line/area builder. */
  function CumulativeMembers(t: Table): (d: LineAreaData)
    ensures |d.sorted| == |d.cumulative| == |t|
  {
    var sorted := SortByRank(t);
    LineAreaData(sorted, RunningMembers(sorted))
  }

  /**
   * The line/area data: a rank-ordered permutation of the table, whose
   * cumulative entry i sums the members of sorted records 0..i.
   */
  lemma CumulativeSpec(t: Table)
    ensures var d := CumulativeMembers(t);
      && multiset(d.sorted) == multiset(t)
      && Sorted(d.sorted, RankBefore)
      && forall i :: 0 <= i < |t| ==>
           d.cumulative[i] ==
             if d.sorted[i].members.Some? then Some(SumBy(d.sorted[..i + 1], MembersOrZero)) else None
  {
    var d := CumulativeMembers(t);
    SortByRankSorted(t);
    forall i | 0 <= i < |t|
      ensures d.cumulative[i] ==
        if d.sorted[i].members.Some? then Some(SumBy(d.sorted[..i + 1], MembersOrZero)) else None
    {
      RunningMembersAt(d.sorted, i);
    }
  }

  /** The last cumulative entry, when present, is the total of all members. */
  lemma CumulativeTotal(t: Table)
    requires |t| > 0
    ensures var d := CumulativeMembers(t);
      d.sorted[|t| - 1].members.Some? ==>
        d.cumulative[|t| - 1] == Some(SumBy(t, MembersOrZero))
  {
    RunningMembersLast(SortByRank(t));
    SortBySum(t, RankBefore, MembersOrZero);
  }

  lemma RunningMembersLast(s: Table)
    requires |s| > 0
    ensures s[|s| - 1].members.Some? ==> RunningMembers(s)[|s| - 1] == Some(SumBy(s, MembersOrZero))
  {
    assert s[..|s|] == s;
    RunningMembersAt(s, |s| - 1);
  }

  /** Prefix sums of non-negative values do not decrease. */
  lemma {:induction false} PrefixSumGrows(t: Table, i: nat, j: nat)
    requires i <= j <= |t|
    requires forall k :: 0 <= k < |t| ==> MembersOrZero(t[k]) >= 0
    ensures SumBy(t[..i], MembersOrZero) <= SumBy(t[..j], MembersOrZero)
  {
    if i < j {
      PrefixSumGrows(t, i, j - 1);
      assert t[..j] == t[..j - 1] + [t[j - 1]];
      SumByAppend(t[..j - 1], [t[j - 1]], MembersOrZero);
    }
  }

  /** On non-negative members, present running-sum entries do not decrease. */
  lemma RunningMembersGrow(s: Table)
    requires forall k :: 0 <= k < |s| ==> MembersOrZero(s[k]) >= 0
    ensures var c := RunningMembers(s);
      forall i, j :: 0 <= i < j < |s| && c[i].Some? && c[j].Some? ==> c[i].value <= c[j].value
  {
    var c := RunningMembers(s);
    forall i, j | 0 <= i < j < |s| && c[i].Some? && c[j].Some?
      ensures c[i].value <= c[j].value
    {
      RunningMembersAt(s, i);
      RunningMembersAt(s, j);
      PrefixSumGrows(s, i + 1, j + 1);
    }
  }

  /** With non-negative member counts the cumulative column never decreases. */
  lemma CumulativeMonotone(t: Table)
    requires forall k :: 0 <= k < |t| ==> t[k].members.Some? ==> t[k].members.value >= 0
    ensures var d := CumulativeMembers(t);
      forall i, j :: 0 <= i < j < |t| && d.cumulative[i].Some? && d.cumulative[j].Some? ==>
        d.cumulative[i].value <= d.cumulative[j].value
  {
    var sorted := SortByRank(t);
    forall k | 0 <= k < |sorted|
      ensures MembersOrZero(sorted[k]) >= 0
    {
      assert sorted[k] in multiset(t);
    }
    RunningMembersGrow(sorted);
  }
}
