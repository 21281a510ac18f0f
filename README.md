# Top-manga dashboard: the data pipeline in Dafny

`anime.py` is a Streamlit page. It fetches the top-manga list from the Jikan
API and projects it onto a table of at most twenty records. It then draws one
of five Altair charts, chosen from a dropdown, and previews the first ten rows.
This project models the page's data steps:

- **Fetch** (`fetch.dfy`): the projection loop of `fetch_top_manga_data`.
  - It takes the items under `data`, or none when the key is missing.
  - It keeps at most the first twenty of them.
  - It copies `rank`, `title`, `score`, `members` and `type` as given, missing values included.
  - It normalises `chapters` with `or 0`.
  - A failed request yields the empty table.
- **Cumulative** (`cumulative.dfy`): the line/area builder's data step. The table is sorted ascending by rank, then a `cumulative_members` column is computed with pandas' `cumsum`.
- **Aggregate** (`aggregate.dfy`): the two per-type aggregations.
  - `value_counts` on `type` feeds the pie chart.
  - The sum of `chapters` per `type` feeds the stacked bar chart.
  - Both are one group-by that adds a weight per record into the group of the record's type: weight 1 for counts, the chapter count for totals.
- **Dashboard** (`dashboard.dfy`): the main block.
  - With an empty table, only the warning is shown.
  - Otherwise the if/elif chain on the five dropdown labels picks one builder, and `head(10)` gives the preview.
- **Sorting** (`sorting.dfy`): the sort behind both `sort_values` and `value_counts`, written as an insertion sort by a comparator. Only its order and its permutation property are specified. The order among ties is left open, because pandas does not promise a stable sort. The one lemma that says the sort leaves its input unchanged (`SortByInOrder`) applies only to input without ties.
- **Wrappers** (`wrappers.dfy`): `Option`, for values that are missing or null in the JSON.

The source's `type` field is called `kind` here, because `type` is a Dafny keyword.

Where pandas treats missing values specially, the model follows pandas:
- A missing rank sorts after every present rank (`na_position='last'`).
- A missing `members` value stays missing in the cumulative column, and the running total carries on past it (`cumsum` skips NaN).
- A record without a `type` belongs to no group, because `value_counts` and `groupby` drop missing keys.

Because of that last point, the type counts add up to the number of records that *have* a type. They add up to the table's length if and only if every record has one (`Aggregate.TypedCount`). This is a weaker statement than "the counts sum to the record count", but it is what the code does.

## Model

| member | source | states |
|---|---|---|
| Fetch.Project | anime.py:42-49 | `chapters` is the item's count when present and 0 when missing (the `or 0` default). `rank`, `title`, `score`, `members` and `type` are copied unchanged, missing ones included |
| Fetch.Items | anime.py:41 | `data.get('data', [])`: the list under `data`, or the empty list when the key is missing |
| Fetch.ProjectItems | anime.py:39-49 | the table has `min(20, n)` records for `n` items, and record `i` is the projection of item `i`, so the table is a projected prefix in response order |
| Fetch.FetchTopManga | anime.py:31-56 | a failed request gives the empty table; a received body gives the projection of its first 20 items; the table never has more than 20 records |
| Sorting.InsertBy | anime.py:84 | inserting an element adds exactly that element to the multiset of elements |
| Sorting.SortBy | anime.py:84 | the sort returns a permutation of its input: same multiset, same length |
| Sorting.SortBySorted | anime.py:84 | for any total, transitive order, the sorted sequence is ordered pairwise |
| Sorting.InsertBySorted | anime.py:84 | inserting into an ordered sequence keeps it ordered |
| Sorting.SortByDistinct | anime.py:114 | sorting a sequence without repeated elements gives one without repeated elements |
| Sorting.SortBySum | anime.py:85 | sorting does not change the sum of any per-element weight |
| Sorting.SortByInOrder | anime.py:84 | a sequence whose neighbours are already strictly in order (no ties) is left unchanged, which is what any sort does with such input |
| Sorting.SumByAppend | anime.py:85 | a sum over a concatenation is the sum of the two parts' sums |
| Cumulative.RankBefore | anime.py:84 | ascending rank with missing ranks last; specified by `RankBeforeIsTotalPreorder` and `SortByRankSorted` |
| Cumulative.RankBeforeIsTotalPreorder | anime.py:84 | the rank order is total and transitive, so every pair of records can be placed |
| Cumulative.SortByRank | anime.py:84 | `sort_values(by='rank')` returns a permutation of the table |
| Cumulative.SortByRankSorted | anime.py:84 | after the sort, ranks do not decrease and missing ranks come last |
| Cumulative.CumSum | anime.py:85 | the `cumsum` of `members` has one entry per record; specified by `CumSumAt` |
| Cumulative.RunningMembers | anime.py:85 | the `cumulative_members` column has one entry per record; specified by `RunningMembersAt` and `CumulativeTotal` |
| Cumulative.CumSumAt | anime.py:85 | entry `i` of the running sum is missing when record `i`'s members is missing; otherwise it is the sum of members over records `0..i`, with missing members counting 0 |
| Cumulative.RunningMembersAt | anime.py:85 | the same, for the `cumulative_members` column started from 0 |
| Cumulative.CumulativeMembers | anime.py:84-85 | the sorted table and its cumulative column have the table's length |
| Cumulative.CumulativeSpec | anime.py:84-85 | the line/area data is a rank-ordered permutation of the table. Cumulative entry `i` sums the members of sorted records `0..i` |
| Cumulative.CumulativeTotal | anime.py:85 | the last cumulative entry, when present, equals the total of all members of the unsorted table |
| Cumulative.RunningMembersGrow | anime.py:85 | on non-negative member counts, present running-sum entries never decrease |
| Cumulative.CumulativeMonotone | anime.py:84-85 | with non-negative member counts, the cumulative column of the sorted table never decreases |
| Cumulative.PrefixSumGrows | anime.py:85 | prefix sums of non-negative members grow with the prefix |
| Aggregate.GroupSum | anime.py:148 | the group-by has at most one group per record; specified by `GroupSumSpec` |
| Aggregate.Accumulate | anime.py:148 | adding to a known type keeps the number of groups. Adding to a new type appends one group holding just that weight |
| Aggregate.AccumulateAt | anime.py:148 | with distinct keys, only the group of the record's type changes, by exactly the record's weight |
| Aggregate.AccumulateSum | anime.py:148 | every accumulated weight is added to the grand total exactly once |
| Aggregate.AccumulateKeys | anime.py:148 | accumulation adds the record's type to the set of group keys |
| Aggregate.AccumulateDistinct | anime.py:148 | accumulation never opens a second group for a type |
| Aggregate.GroupSumSpec | anime.py:148 | the group-by has one group per distinct present type. Each group holds the sum of its records' weights, and the groups add up to the weight of all typed records |
| Aggregate.TypeCounts | anime.py:114-115 | `value_counts` has at most one row per record; specified by `TypeCountsRows` and `TypeCountsOrder` |
| Aggregate.TypeCountsRows | anime.py:114-115 | `value_counts` has exactly one row per distinct present type. Each row's count is the number of records of that type, and is at least 1 |
| Aggregate.TypeCountsOrder | anime.py:114-115 | the rows come by non-increasing count, and the counts add up to the number of typed records |
| Aggregate.TypedCount | anime.py:114 | the number of typed records is at most the table's length, and equals it if and only if every record has a type |
| Aggregate.ChapterTotals | anime.py:148-149 | the chapter totals have at most one row per record; specified by `ChapterTotalsSpec` |
| Aggregate.ChapterTotalsSpec | anime.py:148-153 | `groupby('type')['chapters'].sum()` has one row per distinct present type, holding the sum of that type's chapters, zeros included. A type whose chapters are all 0 still has a row. The rows add up to the chapters of all typed records |
| Dashboard.Build | anime.py:209-222 | the builder reached by label `k` makes a chart of kind `k` |
| Dashboard.Dispatch | anime.py:209-222 | a chart is built exactly when the choice is one of the five labels; specified by `DispatchSelectsOne` |
| Dashboard.LabelsDistinct | anime.py:199-205 | the five dropdown labels are pairwise different |
| Dashboard.DispatchSelectsOne | anime.py:209-222 | a chart is built exactly when the choice is one of the five labels. Label `k` runs builder `k` on the table |
| Dashboard.Head | anime.py:227 | `head(n)` holds exactly the first `min(n, len)` records |
| Dashboard.Render | anime.py:194-230 | the empty table shows only the warning, so no builder runs. A non-empty table shows the dispatched chart and the first `min(10, n)` records as the preview, whichever chart is chosen |
| Dashboard.RenderPass | anime.py:192-230 | the page is `Render` of the fetched table. A failed request gives the empty table and the warning. Otherwise the table is the projection of the first `min(20, n)` items; the warning appears exactly when there are no items; a chart is built exactly when the choice is a label, and label `k` gives builder `k`'s chart of that table; the preview is the projection of the first `min(10, n)` items |
| Dashboard.SampleTypeCounts | anime.py:114-115 | on the three-record sample (A Manga, B Manhwa, C Manga), the type counts are Manga 2 then Manhwa 1 |
| Dashboard.SampleChapterTotals | anime.py:148-149 | on the sample, B's missing chapter count becomes 0. The totals are Manga 60 and Manhwa 0, and Manhwa still appears. The rows come in first-appearance order, which here coincides with pandas' order by type name |
| Dashboard.SampleCumulative | anime.py:84-85 | on the sample, the cumulative members are 1000, 1500, 1700 |

## Left out

- The HTTP request, `raise_for_status`, JSON decoding and the `RequestException` handler with its error message (anime.py:33-36, 54-56). A failed request is a `Response` value that yields the empty table. A body whose `data` is present but not a list is not modelled.
- The `@st.cache_data(ttl=3600)` decorator. Its behaviour depends on a clock and on framework state.
- Every Streamlit call: page configuration, title, image, markdown, `selectbox`, `altair_chart`, `dataframe` and `warning`. The dropdown's current value is a parameter of `Render`; the preview and the warning are `Page` values.
- The Altair specifications: marks, colours, tooltips, `interactive()`, arc radii and the `.1%` tooltip format. The charts are modelled only by the data each builder hands over.
- The bar builder's score-axis domain (`min - 0.1`, `max + 0.1`) and the scatter builder's size scale. Both are floating-point or renderer arithmetic. `score` is an opaque copied field, and what the renderer does with a missing score is not modelled.
- The stacked bar's aggregation inside the renderer (`sum(chapters)` grouped by the `type` encoding) is modelled as the pandas group-by (`df_agg`, which the source computes but never uses). How the renderer groups records without a type is not modelled.
- The row order of `groupby(...).sum()`, which pandas sorts by type name. `ChapterTotals` lists types in order of first appearance, and `ChapterTotalsSpec` specifies only the set of rows. On the three-record sample the two orders coincide, because "Manga" sorts before "Manhwa".
- The tie order of both sorts: equal ranks, and equal counts in `value_counts`.
- Python's dynamic typing of JSON values. Each field has one type (integer rank and members, text title and type, real score, natural chapter count) or is missing.
