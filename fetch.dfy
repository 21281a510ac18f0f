/**
 * The data fetcher: one item of the API's top-manga list is projected onto a
 * six-field record, and at most the first twenty items make up the table.
 * The HTTP call itself is not modelled; its outcome is a parameter.
 */
module Fetch {
  import opened Wrappers

  /** The number of items kept from the response. */
  const MaxItems: nat := 20

  function Min(a: int, b: int): int {
    if a <= b then a else b
  }

  /**
   * One entry of the response's `data` list, as far as the dashboard reads
   * it.  Every field may be missing or null.  `kind` is the entry's `type`
   * (Manga, Manhwa, One-shot, ...); `score` is a floating-point rating that
   * is only ever copied.
   */
  datatype SourceItem = SourceItem(
    rank: Option<int>,
    title: Option<string>,
    score: Option<real>,
    members: Option<int>,
    kind: Option<string>,
    chapters: Option<nat>)

  /** One row of the table: like a source item, but `chapters` is always set. */
  datatype Record = Record(
    rank: Option<int>,
    title: Option<string>,
    score: Option<real>,
    members: Option<int>,
    kind: Option<string>,
    chapters: nat)

  type Table = seq<Record>

  /** The decoded JSON body; `data` is None when the body has no `data` key. */
  datatype Envelope = Envelope(data: Option<seq<SourceItem>>)

  /** The outcome of the single GET request. */
  datatype Response = RequestFailed | Received(body: Envelope)

  /**
   * Projects one item.  `chapters` goes through Python's `or 0`: a missing,
   * null or zero count becomes 0, any other count is kept.
   */
  function Project(item: SourceItem): (r: Record)
    ensures r.chapters == item.chapters.GetOr(0)
    ensures r.rank == item.rank && r.title == item.title && r.score == item.score
    ensures r.members == item.members && r.kind == item.kind
  {
    var truthy := item.chapters.Some? && item.chapters.value != 0;
    Record(item.rank, item.title, item.score, item.members, item.kind,
           if truthy then item.chapters.value else 0)
  }

  /** The list under `data`, or the empty list when the key is missing. */
  function Items(body: Envelope): (items: seq<SourceItem>)
    ensures body.data.None? ==> items == []
    ensures body.data.Some? ==> items == body.data.value
  {
    body.data.GetOr([])
  }

  /**
   * The projection loop: the first `MaxItems` items, one record each, in
   * the order of the response.
   */
  method ProjectItems(items: seq<SourceItem>) returns (table: Table)
    ensures |table| == Min(MaxItems, |items|)
    ensures forall i :: 0 <= i < |table| ==> table[i] == Project(items[i])
  {
    var selected := if |items| <= MaxItems then items else items[..MaxItems];
    table := [];
    for k := 0 to |selected|
      invariant |table| == k
      invariant forall i :: 0 <= i < k ==> table[i] == Project(selected[i])
    {
      table := table + [Project(selected[k])];
    }
  }

  /**
   * The whole fetch: a failed request yields the empty table, a received
   * body its projected items.
   */
  method FetchTopManga(response: Response) returns (table: Table)
    ensures response.RequestFailed? ==> table == []
    ensures response.Received? ==>
      var items := Items(response.body);
      && |table| == Min(MaxItems, |items|)
      && forall i :: 0 <= i < |table| ==> table[i] == Project(items[i])
    ensures |table| <= MaxItems
  {
    match response
    case RequestFailed =>
      table := [];
    case Received(body) =>
      table := ProjectItems(Items(body));
  }
}
