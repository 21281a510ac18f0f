/**
 * The main block of the page: the chart selection is attempted only on a
 * non-empty table, one of five fixed labels picks one chart builder, and the
 * first ten rows are previewed whichever chart is shown.
 */
module Dashboard {
  import opened Wrappers
  import opened Sorting
  import opened Fetch
  import opened Cumulative
  import opened Aggregate

  const BarLabel: string := "1. Bar Chart (Skor vs Rank)"
  const LineAreaLabel: string := "2. Line/Area Chart (Members Kumulatif)"
  const PieLabel: string := "3. Pie Chart (Distribusi Tipe)"
  const StackedBarLabel: string := "4. Stacked Bar (Total Chapters)"
  const ScatterLabel: string := "5. Scatter Plot (Skor vs Members)"

  /** The options of the dropdown, in the order shown. */
  const Labels: seq<string> := [BarLabel, LineAreaLabel, PieLabel, StackedBarLabel, ScatterLabel]

  /** The rows of the table the page previews. */
  const PreviewRows: nat := 10

  /**
   * The data each builder hands to the chart library.  The bar and scatter
   * builders plot the table's records unaggregated; the stacked bar carries
   * the per-type chapter totals its encoding computes.
   */
  datatype Chart =
    | Bar(records: Table)
    | LineArea(data: LineAreaData)
    | Pie(counts: seq<Group>)
    | StackedBar(totals: seq<Group>)
    | Scatter(records: Table)

  /** The position of a chart's label in `Labels`. */
  function Position(c: Chart): nat {
    match c
    case Bar(_) => 0
    case LineArea(_) => 1
    case Pie(_) => 2
    case StackedBar(_) => 3
    case Scatter(_) => 4
  }

  /** The builder a chart kind comes from, applied to the table. */
  function Build(k: nat, t: Table): (c: Chart)
    requires k < |Labels|
    ensures Position(c) == k
  {
    if k == 0 then Bar(t)
    else if k == 1 then LineArea(CumulativeMembers(t))
    else if k == 2 then Pie(TypeCounts(t))
    else if k == 3 then StackedBar(ChapterTotals(t))
    else Scatter(t)
  }

  /** The if/elif chain on the selected label; no branch matches an unknown label. */
  function Dispatch(choice: string, t: Table): (c: Option<Chart>)
    ensures c.Some? <==> choice in Labels
  {
    if choice == BarLabel then Some(Build(0, t))
    else if choice == LineAreaLabel then Some(Build(1, t))
    else if choice == PieLabel then Some(Build(2, t))
    else if choice == StackedBarLabel then Some(Build(3, t))
    else if choice == ScatterLabel then Some(Build(4, t))
    else None
  }

  /** The five labels are pairwise different, so no label reaches two branches. */
  lemma LabelsDistinct()
    ensures forall i, j :: 0 <= i < j < |Labels| ==> Labels[i] != Labels[j]
  {
  }

  /**
   * Each label runs exactly its own builder on the table, and a string that
   * is not a label runs none.
   */
  lemma DispatchSelectsOne(choice: string, t: Table)
    ensures Dispatch(choice, t).Some? <==> choice in Labels
    ensures forall k :: 0 <= k < |Labels| && choice == Labels[k] ==>
      Dispatch(choice, t) == Some(Build(k, t))
  {
    LabelsDistinct();
  }

  /** `df.head(n)`. */
  function Head(t: Table, n: nat): (r: Table)
    ensures |r| == Min(n, |t|)
    ensures forall i :: 0 <= i < |r| ==> r[i] == t[i]
  {
    if |t| <= n then t else t[..n]
  }

  /** What one render pass shows below the page header. */
  datatype Page =
    | EmptyWarning
    | Charted(chart: Option<Chart>, preview: Table)

  /** The guarded main block, given the fetched table and the selected label. */
  function Render(t: Table, choice: string): (p: Page)
    ensures p.EmptyWarning? <==> t == []
    ensures p.Charted? ==> p.chart == Dispatch(choice, t)
    ensures p.Charted? ==> |p.preview| == Min(PreviewRows, |t|)
    ensures p.Charted? ==> forall i :: 0 <= i < |p.preview| ==> p.preview[i] == t[i]
  {
    if t == [] then EmptyWarning
    else Charted(Dispatch(choice, t), Head(t, PreviewRows))
  }

  /**
   * One pass of the script: fetch, then render the fetched table.  A failed
   * request ends in the warning; otherwise the chart is the one the chosen
   * label's builder makes from the projected items, and the preview holds
   * the first of them.
   */
  method RenderPass(response: Response, choice: string) returns (table: Table, p: Page)
    ensures p == Render(table, choice)
    ensures response.RequestFailed? ==> table == [] && p == EmptyWarning
    ensures response.Received? ==>
      var items := Items(response.body);
      && |table| == Min(MaxItems, |items|)
      && (forall i :: 0 <= i < |table| ==> table[i] == Project(items[i]))
      && (p.EmptyWarning? <==> items == [])
      && (p.Charted? ==>
            && (p.chart.Some? <==> choice in Labels)
            && (forall k :: 0 <= k < |Labels| && choice == Labels[k] ==> p.chart == Some(Build(k, table)))
            && |p.preview| == Min(PreviewRows, |items|)
            && forall i :: 0 <= i < |p.preview| ==> p.preview[i] == Project(items[i]))
  {
    table := FetchTopManga(response);
    p := Render(table, choice);
    DispatchSelectsOne(choice, table);
  }

  // ---------------------------------------------------------------
  // A three-record example
  // ---------------------------------------------------------------

  /**
   * Three items ranked 1 to 3: A (Manga, 1000 members, 50 chapters),
   * B (Manhwa, 500 members, no chapter count) and C (Manga, 200 members,
   * 10 chapters).
   */
  ghost predicate IsSample(a: SourceItem, b: SourceItem, c: SourceItem) {
    && a == SourceItem(Some(1), Some("A"), Some(9.1), Some(1000), Some("Manga"), Some(50))
    && b == SourceItem(Some(2), Some("B"), Some(8.5), Some(500), Some("Manhwa"), None)
    && c == SourceItem(Some(3), Some("C"), Some(9.1), Some(200), Some("Manga"), Some(10))
  }

  /** The sample has two Manga and one Manhwa, the larger count first. */
  lemma SampleTypeCounts(a: SourceItem, b: SourceItem, c: SourceItem)
    requires IsSample(a, b, c)
    ensures TypeCounts([Project(a), Project(b), Project(c)]) == [Group("Manga", 2), Group("Manhwa", 1)]
  {
    CountsOfMangaManhwaManga(Project(a), Project(b), Project(c));
  }

  lemma CountsOfMangaManhwaManga(x: Record, y: Record, z: Record)
    requires x.kind == Some("Manga") && y.kind == Some("Manhwa") && z.kind == Some("Manga")
    ensures TypeCounts([x, y, z]) == [Group("Manga", 2), Group("Manhwa", 1)]
  {
    var t := [x, y, z];
    assert t[..2] == [x, y] && [x, y][..1] == [x] && [x][..0] == [];
    assert GroupSum([x], One) == [Group("Manga", 1)];
    assert GroupSum([x, y], One) == [Group("Manga", 1), Group("Manhwa", 1)];
    assert GroupSum(t, One) == [Group("Manga", 2), Group("Manhwa", 1)];
    SortByInOrder([Group("Manga", 2), Group("Manhwa", 1)], CountBefore);
  }

  /**
   * The missing chapter count adds 0: Manga has 50 + 10, Manhwa 0 and is
   * still listed.  `ChapterTotals` lists types by first appearance; that
   * this is also pandas' order by type name is a fact of this sample
   * ("Manga" < "Manhwa"), not of the model.
   */
  lemma SampleChapterTotals(a: SourceItem, b: SourceItem, c: SourceItem)
    requires IsSample(a, b, c)
    ensures ChapterTotals([Project(a), Project(b), Project(c)]) == [Group("Manga", 60), Group("Manhwa", 0)]
  {
    var x, y, z := Project(a), Project(b), Project(c);
    assert y.chapters == 0;
    assert [x, y, z][..2] == [x, y] && [x, y][..1] == [x] && [x][..0] == [];
    assert GroupSum([x], Chapters) == [Group("Manga", 50)];
    assert GroupSum([x, y], Chapters) == [Group("Manga", 50), Group("Manhwa", 0)];
  }

  /** The sample is in rank order; its members add up to 1000, 1500, 1700. */
  lemma SampleCumulative(a: SourceItem, b: SourceItem, c: SourceItem)
    requires IsSample(a, b, c)
    ensures CumulativeMembers([Project(a), Project(b), Project(c)]).cumulative
         == [Some(1000), Some(1500), Some(1700)]
  {
    var x, y, z := Project(a), Project(b), Project(c);
    RanksInOrder(x, y, z);
    MembersAddUp(x, y, z);
  }

  lemma RanksInOrder(x: Record, y: Record, z: Record)
    requires x.rank == Some(1) && y.rank == Some(2) && z.rank == Some(3)
    ensures SortByRank([x, y, z]) == [x, y, z]
  {
    assert RankBefore(x, y) && RankBefore(y, z);
    SortByInOrder([x, y, z], RankBefore);
  }

  lemma MembersAddUp(x: Record, y: Record, z: Record)
    requires x.members == Some(1000) && y.members == Some(500) && z.members == Some(200)
    ensures RunningMembers([x, y, z]) == [Some(1000), Some(1500), Some(1700)]
  {
    assert [x, y, z][1..] == [y, z] && [y, z][1..] == [z] && [z][1..] == [];
    assert CumSum([z], 1500) == [Some(1700)];
    assert CumSum([y, z], 1000) == [Some(1500), Some(1700)];
  }
}
