/**
 * The two per-type aggregations: `value_counts` on `type` for the pie chart
 * and the sum of `chapters` per `type` for the bar chart.  Both are one
 * group-by that adds a weight per record into the group of its type;
 * records without a type belong to no group, as pandas drops missing keys.
 */
module Aggregate {
  import opened Wrappers
  import opened Sorting
  import opened Fetch

  /** One output row: a type and the sum of the weights of its records. */
  datatype Group = Group(key: string, total: int)

  function Total(g: Group): int {
    g.total
  }

  ghost function Keys(gs: seq<Group>): set<string> {
    set g | g in gs :: g.key
  }

  ghost predicate DistinctKeys(gs: seq<Group>) {
    forall i, j :: 0 <= i < j < |gs| ==> gs[i].key != gs[j].key
  }

  /** The types present in a table. */
  ghost function PresentKeys(t: Table): set<string> {
    set r | r in t && r.kind.Some? :: r.kind.value
  }

  /** Reference definition: the sum of `weight` over the records of type `key`. */
  function KeyTotal(t: Table, key: string, weight: Record -> int): int {
    if t == [] then 0
    else KeyTotal(t[..|t| - 1], key, weight) + (if t[|t| - 1].kind == Some(key) then weight(t[|t| - 1]) else 0)
  }

  /** Reference definition: the sum of `weight` over the records that have a type. */
  function TypedTotal(t: Table, weight: Record -> int): int {
    if t == [] then 0
    else TypedTotal(t[..|t| - 1], weight) + (if t[|t| - 1].kind.Some? then weight(t[|t| - 1]) else 0)
  }

  /** Adds `w` to the group of `key`, opening that group at the end if it is new. */
  function Accumulate(gs: seq<Group>, key: string, w: int): (r: seq<Group>)
    ensures key in Keys(gs) ==> |r| == |gs|
    ensures key !in Keys(gs) ==> r == gs + [Group(key, w)]
  {
    if gs == [] then [Group(key, w)]
    else if gs[0].key == key then [Group(key, gs[0].total + w)] + gs[1..]
    else
      assert gs == [gs[0]] + gs[1..];
      assert key in Keys(gs[1..]) ==> key in Keys(gs);
      [gs[0]] + Accumulate(gs[1..], key, w)
  }

  /** The group-by: groups in order of first appearance. */
  function GroupSum(t: Table, weight: Record -> int): (gs: seq<Group>)
    ensures |gs| <= |t|
  {
    if t == [] then []
    else
      var gs := GroupSum(t[..|t| - 1], weight);
      var last := t[|t| - 1];
      if last.kind.Some? then Accumulate(gs, last.kind.value, weight(last)) else gs
  }

  /** With distinct keys, Accumulate changes exactly the group of `key`. */
  lemma {:induction false} AccumulateAt(gs: seq<Group>, key: string, w: int)
    requires DistinctKeys(gs)
    requires key in Keys(gs)
    ensures var r := Accumulate(gs, key, w);
      forall i :: 0 <= i < |gs| ==>
        r[i] == if gs[i].key == key then Group(key, gs[i].total + w) else gs[i]
  {
    if gs[0].key != key {
      assert gs == [gs[0]] + gs[1..];
      assert key in Keys(gs[1..]);
      AccumulateAt(gs[1..], key, w);
    }
  }

  lemma {:induction false} AccumulateSum(gs: seq<Group>, key: string, w: int)
    ensures SumBy(Accumulate(gs, key, w), Total) == SumBy(gs, Total) + w
  {
    if gs == [] {
    } else if gs[0].key == key {
      assert ([Group(key, gs[0].total + w)] + gs[1..])[1..] == gs[1..];
    } else {
      AccumulateSum(gs[1..], key, w);
      assert ([gs[0]] + Accumulate(gs[1..], key, w))[1..] == Accumulate(gs[1..], key, w);
    }
  }

  lemma {:induction false} KeyTotalAbsent(t: Table, key: string, weight: Record -> int)
    requires key !in PresentKeys(t)
    ensures KeyTotal(t, key, weight) == 0
  {
    if t != [] {
      assert t[|t| - 1] in t;
      assert PresentKeys(t[..|t| - 1]) <= PresentKeys(t);
      KeyTotalAbsent(t[..|t| - 1], key, weight);
    }
  }

  lemma KeysCons(g: Group, gs: seq<Group>)
    ensures Keys([g] + gs) == {g.key} + Keys(gs)
  {
  }

  /** Accumulate adds `key` to the keys. */
  lemma {:induction false} AccumulateKeys(gs: seq<Group>, key: string, w: int)
    ensures Keys(Accumulate(gs, key, w)) == Keys(gs) + {key}
  {
    if gs == [] {
      assert Keys([Group(key, w)]) == {key} by {
        KeysCons(Group(key, w), []);
      }
    } else {
      assert gs == [gs[0]] + gs[1..];
      KeysCons(gs[0], gs[1..]);
      if gs[0].key != key {
        AccumulateKeys(gs[1..], key, w);
        KeysCons(gs[0], Accumulate(gs[1..], key, w));
      } else {
        KeysCons(Group(key, gs[0].total + w), gs[1..]);
      }
    }
  }

  /** In a sequence with distinct keys, the first key is not among the rest. */
  lemma HeadKeyNotInTail(gs: seq<Group>)
    requires gs != [] && DistinctKeys(gs)
    ensures gs[0].key !in Keys(gs[1..])
  {
  }

  /** Accumulate keeps keys distinct. */
  lemma {:induction false} AccumulateDistinct(gs: seq<Group>, key: string, w: int)
    requires DistinctKeys(gs)
    ensures DistinctKeys(Accumulate(gs, key, w))
  {
    if gs != [] && gs[0].key != key {
      var tail := Accumulate(gs[1..], key, w);
      AccumulateDistinct(gs[1..], key, w);
      AccumulateKeys(gs[1..], key, w);
      HeadKeyNotInTail(gs);
      assert gs[0].key !in Keys(tail);
      forall i | 0 <= i < |tail| ensures tail[i].key != gs[0].key {
        assert tail[i] in tail;
      }
    }
  }

  /** One step of the group-by keeps every group's total equal to its reference total. */
  lemma GroupSumStepTotals(init: Table, last: Record, weight: Record -> int)
    requires last.kind.Some?
    requires var prev := GroupSum(init, weight);
      && DistinctKeys(prev)
      && Keys(prev) == PresentKeys(init)
      && forall i :: 0 <= i < |prev| ==> prev[i].total == KeyTotal(init, prev[i].key, weight)
    ensures var t := init + [last];
      var gs := GroupSum(t, weight);
      forall i :: 0 <= i < |gs| ==> gs[i].total == KeyTotal(t, gs[i].key, weight)
  {
    var t := init + [last];
    assert t[..|t| - 1] == init;
    var prev := GroupSum(init, weight);
    var key := last.kind.value;
    var gs := GroupSum(t, weight);
    assert gs == Accumulate(prev, key, weight(last));
    if key in Keys(prev) {
      AccumulateAt(prev, key, weight(last));
    } else {
      KeyTotalAbsent(init, key, weight);
      forall i | 0 <= i < |prev| ensures prev[i].key != key {
        assert prev[i] in prev;
      }
    }
  }

  /**
   * The group-by is correct: one group per present type, each holding the
   * total of its records, and no weight of a typed record is lost.
   */
  lemma {:induction false} GroupSumSpec(t: Table, weight: Record -> int)
    ensures var gs := GroupSum(t, weight);
      && DistinctKeys(gs)
      && Keys(gs) == PresentKeys(t)
      && (forall i :: 0 <= i < |gs| ==> gs[i].total == KeyTotal(t, gs[i].key, weight))
      && SumBy(gs, Total) == TypedTotal(t, weight)
  {
    if t != [] {
      var init := t[..|t| - 1];
      var last := t[|t| - 1];
      var prev := GroupSum(init, weight);
      GroupSumSpec(init, weight);
      assert t == init + [last];
      assert PresentKeys(t) == PresentKeys(init) + (if last.kind.Some? then {last.kind.value} else {});
      if last.kind.Some? {
        AccumulateSum(prev, last.kind.value, weight(last));
        AccumulateKeys(prev, last.kind.value, weight(last));
        AccumulateDistinct(prev, last.kind.value, weight(last));
        GroupSumStepTotals(init, last, weight);
      }
    }
  }

  // ---------------------------------------------------------------
  // value_counts on `type` (pie chart)
  // ---------------------------------------------------------------

  function One(r: Record): int {
    1
  }

  /** Larger counts first. */
  predicate CountBefore(a: Group, b: Group) {
    a.total >= b.total
  }

  /** `df['type'].value_counts()`: (type, count) rows, larger counts first. */
  function TypeCounts(t: Table): (rows: seq<Group>)
    ensures |rows| <= |t|
  {
    SortBy(GroupSum(t, One), CountBefore)
  }

  /** A reordering of groups has the same groups and the same keys. */
  lemma PermutedGroups(gs: seq<Group>, rows: seq<Group>)
    requires multiset(rows) == multiset(gs)
    ensures forall g :: g in rows <==> g in gs
    ensures Keys(rows) == Keys(gs)
  {
    forall g | g in rows ensures g in gs {
      assert g in multiset(rows);
    }
    forall g | g in gs ensures g in rows {
      assert g in multiset(gs);
    }
  }

  /**
   * One row per distinct present type, carrying the number of records of
   * that type.
   */
  lemma TypeCountsRows(t: Table)
    ensures var rows := TypeCounts(t);
      && DistinctKeys(rows)
      && Keys(rows) == PresentKeys(t)
      && (forall i :: 0 <= i < |rows| ==> rows[i].total == KeyTotal(t, rows[i].key, One) >= 1)
  {
    var gs := GroupSum(t, One);
    var rows := TypeCounts(t);
    GroupSumSpec(t, One);
    PermutedGroups(gs, rows);
    forall i | 0 <= i < |rows|
      ensures rows[i].total == KeyTotal(t, rows[i].key, One) >= 1
    {
      assert rows[i] in gs;
      var j :| 0 <= j < |gs| && gs[j] == rows[i];
      assert rows[i].key in Keys(gs);
      KeyTotalPresent(t, rows[i].key);
    }
    assert Distinct(gs) by {
      forall i, j | 0 <= i < j < |gs| ensures gs[i] != gs[j] {
        assert gs[i].key != gs[j].key;
      }
    }
    SortByDistinct(gs, CountBefore);
    forall i, j | 0 <= i < j < |rows| ensures rows[i].key != rows[j].key {
      assert rows[i] != rows[j];
    }
  }

  /**
   * The rows of `value_counts` come by non-increasing count, and the counts
   * add up to the number of records that have a type.
   */
  lemma TypeCountsOrder(t: Table)
    ensures var rows := TypeCounts(t);
      && (forall i, j :: 0 <= i < j < |rows| ==> rows[i].total >= rows[j].total)
      && SumBy(rows, Total) == TypedTotal(t, One)
  {
    var gs := GroupSum(t, One);
    GroupSumSpec(t, One);
    assert TotalPreorder(CountBefore);
    SortBySorted(gs, CountBefore);
    SortBySum(gs, CountBefore, Total);
  }

  lemma {:induction false} KeyTotalPresent(t: Table, key: string)
    requires key in PresentKeys(t)
    ensures KeyTotal(t, key, One) >= 1
  {
    var init := t[..|t| - 1];
    assert t == init + [t[|t| - 1]];
    if t[|t| - 1].kind != Some(key) {
      assert key in PresentKeys(init);
      KeyTotalPresent(init, key);
    } else {
      KeyTotalNonNegative(init, key);
    }
  }

  lemma {:induction false} KeyTotalNonNegative(t: Table, key: string)
    ensures KeyTotal(t, key, One) >= 0
  {
    if t != [] {
      KeyTotalNonNegative(t[..|t| - 1], key);
    }
  }

  /**
   * The number of typed records is at most the table's length, and equal to
   * it exactly when every record has a type.
   */
  lemma {:induction false} TypedCount(t: Table)
    ensures 0 <= TypedTotal(t, One) <= |t|
    ensures TypedTotal(t, One) == |t| <==> forall i :: 0 <= i < |t| ==> t[i].kind.Some?
  {
    if t != [] {
      var init := t[..|t| - 1];
      TypedCount(init);
      assert forall i :: 0 <= i < |init| ==> init[i] == t[i];
    }
  }

  // ---------------------------------------------------------------
  // Sum of chapters per type (stacked bar chart)
  // ---------------------------------------------------------------

  function Chapters(r: Record): int {
    r.chapters
  }

  /** `df.groupby('type')['chapters'].sum()`. */
  function ChapterTotals(t: Table): (rows: seq<Group>)
    ensures |rows| <= |t|
  {
    GroupSum(t, Chapters)
  }

  /**
   * One row per distinct present type with the sum of its chapters, zeros
   * included; the rows add up to the chapters of all typed records.
   */
  lemma ChapterTotalsSpec(t: Table)
    ensures var rows := ChapterTotals(t);
      && DistinctKeys(rows)
      && Keys(rows) == PresentKeys(t)
      && (forall i :: 0 <= i < |rows| ==> rows[i].total == KeyTotal(t, rows[i].key, Chapters))
      && SumBy(rows, Total) == TypedTotal(t, Chapters)
  {
    GroupSumSpec(t, Chapters);
  }
}
