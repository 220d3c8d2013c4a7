/** The background ingestion cycle of server/app.js: every (country, category)
    cell of a fixed matrix is fetched from the provider and each returned
    article is stored unless an article with the same title is already stored.

    The store is an in-memory sequence of records in insertion order; the
    provider is a function from request to outcome. The functions below say
    what one cycle does to the store; the methods do it step by step and are
    proved to agree with them. Properties of the cycle are in IngestionFacts. */
module Ingestion {
  import opened Upstream

  const Countries: seq<string> := ["us", "uk", "fr", "in", "it"]
  const Categories: seq<string> := ["health", "science", "sports", "entertainment", "politics", "business"]

  /** One (country, category) pair of the matrix. */
  datatype Cell = Cell(country: string, category: string)

  /** A stored news record. */
  datatype Article = Article(
    title: string,
    content: Option<string>,
    author: Option<string>,
    description: Option<string>,
    url: Option<string>,
    urlToImage: Option<string>,
    category: string,
    publishedAt: Option<string>,
    country: string,
    source: Outlet)

  /** The cells in the order the two nested loops visit them: country-major,
      so cell k is country k / 6 with category k % 6. */
  function CellOrder(): (cells: seq<Cell>)
    ensures |cells| == |Countries| * |Categories|
    ensures forall k :: 0 <= k < |cells| ==> cells[k].country in Countries && cells[k].category in Categories
  {
    seq(30, k requires 0 <= k < 30 => Cell(Countries[k / 6], Categories[k % 6]))
  }

  /** Cell (i, j) of the matrix sits at position 6 * i + j of the visiting order. */
  lemma CellAt(i: nat, j: nat)
    requires i < |Countries| && j < |Categories|
    ensures 6 * i + j < |CellOrder()|
    ensures CellOrder()[6 * i + j] == Cell(Countries[i], Categories[j])
  {
  }

  /** The request of one cell: category and country only; no language, page
      size or page, so the provider's defaults apply. */
  function CellQuery(cell: Cell): (q: Query)
    ensures q.category == Some(cell.category) && q.country == Some(cell.country)
    ensures q.language.None? && q.pageSize.None? && q.page.None?
  {
    Query(Some(cell.category), Some(cell.country), None, None, None)
  }

  /** True when some stored record carries `title`. */
  ghost predicate Stored(s: seq<Article>, title: string)
  {
    exists i :: 0 <= i < |s| && s[i].title == title
  }

  /** `News.findOne({ title })`: a record whose title is exactly `title`. The
      database promises no particular one among several; the model returns the
      first, and the cycle only asks whether one exists. */
  function Lookup(s: seq<Article>, title: string): (r: Option<Article>)
    ensures r.Some? <==> Stored(s, title)
    ensures r.Some? ==> r.value.title == title && r.value in s
    ensures r.Some? ==> exists i :: 0 <= i < |s| && s[i] == r.value && forall i' :: 0 <= i' < i ==> s[i'].title != title
  {
    if s == [] then None
    else if s[0].title == title then Some(s[0])
    else
      var r := Lookup(s[1..], title);
      assert Stored(s, title) ==> Stored(s[1..], title) by {
        if Stored(s, title) {
          var i :| 0 <= i < |s| && s[i].title == title;
          assert s[1..][i - 1].title == title;
        }
      }
      assert r.Some? ==> exists i :: 0 <= i < |s| && s[i] == r.value && forall i' :: 0 <= i' < i ==> s[i'].title != title by {
        if r.Some? {
          var i :| 0 <= i < |s[1..]| && s[1..][i] == r.value && forall i' :: 0 <= i' < i ==> s[1..][i'].title != title;
          assert s[i + 1] == r.value;
          forall i' | 0 <= i' < i + 1 ensures s[i'].title != title {
            if i' > 0 { assert s[i'] == s[1..][i' - 1]; }
          }
        }
      }
      r
  }

  /** The record `News.create` receives for a raw article of `cell`: the
      article's fields and outlet, stamped with the cell's category and country. */
  function Record(raw: RawArticle, cell: Cell): (a: Article)
    requires raw.source.Some?
    ensures a.title == raw.title && a.content == raw.content && a.author == raw.author
    ensures a.description == raw.description && a.url == raw.url && a.urlToImage == raw.urlToImage
    ensures a.publishedAt == raw.publishedAt && a.source == raw.source.value
    ensures a.category == cell.category && a.country == cell.country
  {
    Article(raw.title, raw.content, raw.author, raw.description, raw.url, raw.urlToImage,
            cell.category, raw.publishedAt, cell.country,
            Outlet(raw.source.value.id, raw.source.value.name))
  }

  /** The store after the articles of one cell are offered to it in order: an
      article whose title is already stored is skipped; any other is mapped and
      appended, unless it has no `source`, in which case reading `source.id`
      throws and the rest of the cell is abandoned. */
  function StoreBatch(s: seq<Article>, raws: seq<RawArticle>, cell: Cell): (r: seq<Article>)
    ensures s <= r
    ensures |r| <= |s| + |raws|
    decreases |raws|
  {
    if raws == [] then s
    else if Lookup(s, raws[0].title).Some? then StoreBatch(s, raws[1..], cell)
    else if raws[0].source.None? then s
    else StoreBatch(s + [Record(raws[0], cell)], raws[1..], cell)
  }

  /** The store after one cell: a failed request, a missing `articles` list
      and an empty one all leave it as it was. */
  function IngestCell(s: seq<Article>, outcome: Outcome, cell: Cell): (r: seq<Article>)
    ensures s <= r
    ensures outcome.Failed? || outcome.articles.None? || outcome.articles.value == [] ==> r == s
  {
    match outcome
    case Received(Some(raws)) => if |raws| > 0 then StoreBatch(s, raws, cell) else s
    case _ => s
  }

  /** The store after the given cells, in order, each fetched through `fetch`. */
  function RunCells(s: seq<Article>, cells: seq<Cell>, fetch: Query -> Outcome): (r: seq<Article>)
    ensures s <= r
    decreases |cells|
  {
    if cells == [] then s
    else
      var last := cells[|cells| - 1];
      IngestCell(RunCells(s, cells[..|cells| - 1], fetch), fetch(CellQuery(last)), last)
  }

  /** The store after one full cycle over the matrix. */
  function Cycle(s: seq<Article>, fetch: Query -> Outcome): (r: seq<Article>)
    ensures s <= r
  {
    RunCells(s, CellOrder(), fetch)
  }

  /** The `News` collection. */
  class NewsStore {
    var records: seq<Article>

    constructor ()
      ensures records == []
    {
      records := [];
    }

    /** `News.create`: appends one record. */
    method Create(a: Article)
      modifies this
      ensures records == old(records) + [a]
    {
      records := records + [a];
    }
  }

  /** The inner loop of `fetchNewsAndStore` over the articles of one cell. */
  method IngestArticles(store: NewsStore, raws: seq<RawArticle>, cell: Cell)
    modifies store
    ensures store.records == StoreBatch(old(store.records), raws, cell)
  {
    var i := 0;
    while i < |raws|
      invariant 0 <= i <= |raws|
      invariant StoreBatch(store.records, raws[i..], cell) == StoreBatch(old(store.records), raws, cell)
    {
      assert raws[i..][1..] == raws[i + 1..];
      var raw := raws[i];
      var exist := Lookup(store.records, raw.title);
      if exist.None? {
        if raw.source.None? {
          // `article.source.id` throws; the cell's catch block ends the cell
          return;
        }
        store.Create(Record(raw, cell));
      }
      i := i + 1;
    }
  }

  /** The body of the category loop of `fetchNewsAndStore` for one cell, once
      the provider has answered: an error or an empty answer is only logged. */
  method IngestOutcome(store: NewsStore, outcome: Outcome, cell: Cell)
    modifies store
    ensures store.records == IngestCell(old(store.records), outcome, cell)
  {
    match outcome {
      case Received(Some(raws)) =>
        if |raws| > 0 {
          IngestArticles(store, raws, cell);
        }
      case _ =>
    }
  }

  /** Extending the visited prefix of the matrix by cell (i, j) adds that
      cell's ingestion step. */
  lemma RunNextCell(s: seq<Article>, fetch: Query -> Outcome, i: nat, j: nat)
    requires i < |Countries| && j < |Categories|
    ensures 6 * i + j < |CellOrder()|
    ensures RunCells(s, CellOrder()[..6 * i + j + 1], fetch)
         == IngestCell(RunCells(s, CellOrder()[..6 * i + j], fetch),
                       fetch(CellQuery(Cell(Countries[i], Categories[j]))), Cell(Countries[i], Categories[j]))
  {
    CellAt(i, j);
    var done := CellOrder()[..6 * i + j + 1];
    assert done[..|done| - 1] == CellOrder()[..6 * i + j];
  }

  /** Once every country's row is visited, the whole visiting order is done. */
  lemma CycleIsWholeOrder(s: seq<Article>, fetch: Query -> Outcome)
    ensures Cycle(s, fetch) == RunCells(s, CellOrder()[..6 * |Countries|], fetch)
  {
    assert CellOrder()[..6 * |Countries|] == CellOrder();
  }

  /** `fetchNewsAndStore`: one cycle over all countries and categories. */
  method FetchNewsAndStore(store: NewsStore, fetch: Query -> Outcome)
    modifies store
    ensures store.records == Cycle(old(store.records), fetch)
  {
    ghost var start := store.records;
    for ci := 0 to |Countries|
      invariant store.records == RunCells(start, CellOrder()[..6 * ci], fetch)
    {
      for gi := 0 to |Categories|
        invariant store.records == RunCells(start, CellOrder()[..6 * ci + gi], fetch)
      {
        var cell := Cell(Countries[ci], Categories[gi]);
        var outcome := fetch(CellQuery(cell));
        RunNextCell(start, fetch, ci, gi);
        IngestOutcome(store, outcome, cell);
      }
    }
    CycleIsWholeOrder(start, fetch);
  }
}
