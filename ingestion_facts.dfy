/** What one ingestion cycle guarantees about the `News` collection: titles stay
    unique, existing records are never touched, a second cycle over the same
    provider answers adds nothing, every new record is a faithful copy of a
    provider article stamped with its cell, and a failing cell affects no other. */
module IngestionFacts {
  import opened Upstream
  import opened Ingestion

  /** No two stored records share a title. */
  ghost predicate UniqueTitles(s: seq<Article>)
  {
    forall i, j :: 0 <= i < j < |s| ==> s[i].title != s[j].title
  }

  /** `a` is the record made from the raw article `raw` fetched for `cell`:
      every descriptive field and the outlet copied, category and country
      taken from the cell. */
  ghost predicate Copies(a: Article, raw: RawArticle, cell: Cell)
  {
    raw.source.Some? &&
    a.title == raw.title && a.content == raw.content && a.author == raw.author &&
    a.description == raw.description && a.url == raw.url && a.urlToImage == raw.urlToImage &&
    a.publishedAt == raw.publishedAt &&
    a.source.id == raw.source.value.id && a.source.name == raw.source.value.name &&
    a.category == cell.category && a.country == cell.country
  }

  /** `a` copies one of the articles the provider returned for `cell`. */
  ghost predicate FromCell(a: Article, cell: Cell, outcome: Outcome)
  {
    outcome.Received? && outcome.articles.Some? &&
    exists j :: 0 <= j < |outcome.articles.value| && Copies(a, outcome.articles.value[j], cell)
  }

  /** Every article of the answer carries a `source`, so offering it never throws. */
  ghost predicate NoFaults(outcome: Outcome)
  {
    outcome.Received? && outcome.articles.Some? ==>
      forall j :: 0 <= j < |outcome.articles.value| ==> outcome.articles.value[j].source.Some?
  }

  /** Every title of the answer is already stored in `s`. */
  ghost predicate Covers(s: seq<Article>, outcome: Outcome)
  {
    outcome.Received? && outcome.articles.Some? ==>
      forall j :: 0 <= j < |outcome.articles.value| ==> Stored(s, outcome.articles.value[j].title)
  }

  // ---------------------------------------------------------------------------
  // The visiting order

  /** The cycle visits 30 cells, country-major: cell (i, j) of the matrix is
      visited at position 6 * i + j. */
  lemma CellOrderIsCountryMajor()
    ensures |CellOrder()| == 30
    ensures forall i, j :: 0 <= i < |Countries| && 0 <= j < |Categories| ==>
              CellOrder()[6 * i + j] == Cell(Countries[i], Categories[j])
  {
    forall i, j | 0 <= i < |Countries| && 0 <= j < |Categories|
      ensures CellOrder()[6 * i + j] == Cell(Countries[i], Categories[j])
    {
      CellAt(i, j);
    }
  }

  /** The cycle visits exactly the cells of countries x categories, so never
      the category "general". */
  lemma CellOrderCoversMatrix()
    ensures forall c: Cell :: c in CellOrder() <==> c.country in Countries && c.category in Categories
    ensures forall c: Cell :: c in CellOrder() ==> c.category != "general"
  {
    forall c: Cell | c.country in Countries && c.category in Categories
      ensures c in CellOrder()
    {
      var i :| 0 <= i < |Countries| && Countries[i] == c.country;
      var j :| 0 <= j < |Categories| && Categories[j] == c.category;
      CellAt(i, j);
    }
    assert "general" !in Categories;
  }

  /** The cycle visits every cell once. */
  lemma CellOrderVisitsEachOnce()
    ensures forall k, k' :: 0 <= k < k' < |CellOrder()| ==> CellOrder()[k] != CellOrder()[k']
  {
  }

  // ---------------------------------------------------------------------------
  // Lookups and prefixes

  /** Once a title is stored, appending records never changes what
      `findOne` returns for it. */
  lemma LookupStable(s: seq<Article>, u: seq<Article>, title: string)
    requires s <= u && Stored(s, title)
    ensures Lookup(u, title) == Lookup(s, title)
  {
  }

  /** Running cells one after another is running their concatenation. */
  lemma {:induction false} RunAppend(s: seq<Article>, a: seq<Cell>, b: seq<Cell>, fetch: Query -> Outcome)
    ensures RunCells(s, a + b, fetch) == RunCells(RunCells(s, a, fetch), b, fetch)
    decreases |b|
  {
    if b == [] {
      assert a + b == a;
    } else {
      var ab := a + b;
      assert ab[..|ab| - 1] == a + b[..|b| - 1];
      RunAppend(s, a, b[..|b| - 1], fetch);
    }
  }

  // ---------------------------------------------------------------------------
  // Title uniqueness

  /** Offering a batch keeps titles unique, even when the batch repeats a title. */
  lemma {:induction false} BatchKeepsTitlesUnique(s: seq<Article>, raws: seq<RawArticle>, cell: Cell)
    requires UniqueTitles(s)
    ensures UniqueTitles(StoreBatch(s, raws, cell))
    decreases |raws|
  {
    if raws != [] {
      if Lookup(s, raws[0].title).Some? {
        BatchKeepsTitlesUnique(s, raws[1..], cell);
      } else if raws[0].source.Some? {
        var s' := s + [Record(raws[0], cell)];
        forall i, j | 0 <= i < j < |s'| ensures s'[i].title != s'[j].title {
          if j == |s| {
            assert s'[i] == s[i];
          }
        }
        BatchKeepsTitlesUnique(s', raws[1..], cell);
      }
    }
  }

  lemma {:induction false} RunKeepsTitlesUnique(s: seq<Article>, cells: seq<Cell>, fetch: Query -> Outcome)
    requires UniqueTitles(s)
    ensures UniqueTitles(RunCells(s, cells, fetch))
    decreases |cells|
  {
    if cells != [] {
      var last := cells[|cells| - 1];
      var before := RunCells(s, cells[..|cells| - 1], fetch);
      RunKeepsTitlesUnique(s, cells[..|cells| - 1], fetch);
      var outcome := fetch(CellQuery(last));
      if outcome.Received? && outcome.articles.Some? {
        BatchKeepsTitlesUnique(before, outcome.articles.value, last);
      }
    }
  }

  /** Title uniqueness: if no two stored records share a title before a cycle,
      none do after it. */
  lemma CycleKeepsTitlesUnique(s: seq<Article>, fetch: Query -> Outcome)
    requires UniqueTitles(s)
    ensures UniqueTitles(Cycle(s, fetch))
  {
    RunKeepsTitlesUnique(s, CellOrder(), fetch);
  }

  // ---------------------------------------------------------------------------
  // First writer wins, monotone growth

  /** Records are only appended: the old store is a prefix of the new one, so
      it never shrinks, and for every title already stored `findOne` returns
      the very record it returned before the cycle. */
  lemma CycleKeepsExistingRecords(s: seq<Article>, fetch: Query -> Outcome)
    ensures s <= Cycle(s, fetch) && |s| <= |Cycle(s, fetch)|
    ensures forall i :: 0 <= i < |s| ==> Cycle(s, fetch)[i] == s[i]
    ensures forall title :: Stored(s, title) ==> Lookup(Cycle(s, fetch), title) == Lookup(s, title)
  {
  }

  // ---------------------------------------------------------------------------
  // Field mapping

  /** Every record a batch adds is the mapping of one of the batch's articles
      for this cell. */
  lemma {:induction false} BatchRecordsCopyRaw(s: seq<Article>, raws: seq<RawArticle>, cell: Cell)
    ensures forall i :: |s| <= i < |StoreBatch(s, raws, cell)| ==>
              exists j :: 0 <= j < |raws| && Copies(StoreBatch(s, raws, cell)[i], raws[j], cell)
    decreases |raws|
  {
    var r := StoreBatch(s, raws, cell);
    if raws != [] {
      var s' := if Lookup(s, raws[0].title).Some? then s
                else if raws[0].source.None? then s
                else s + [Record(raws[0], cell)];
      if Lookup(s, raws[0].title).Some? || raws[0].source.Some? {
        BatchRecordsCopyRaw(s', raws[1..], cell);
        forall i | |s| <= i < |r| ensures exists j :: 0 <= j < |raws| && Copies(r[i], raws[j], cell) {
          if i < |s'| {
            assert Copies(r[i], raws[0], cell);
          } else {
            var j :| 0 <= j < |raws[1..]| && Copies(r[i], raws[1..][j], cell);
            assert raws[1..][j] == raws[j + 1];
          }
        }
      }
    }
  }

  lemma {:induction false} RunRecordsComeFromCells(s: seq<Article>, cells: seq<Cell>, fetch: Query -> Outcome)
    ensures forall i :: |s| <= i < |RunCells(s, cells, fetch)| ==>
              exists k :: 0 <= k < |cells| && FromCell(RunCells(s, cells, fetch)[i], cells[k], fetch(CellQuery(cells[k])))
    decreases |cells|
  {
    if cells != [] {
      var n := |cells| - 1;
      var last := cells[n];
      var before := RunCells(s, cells[..n], fetch);
      var r := RunCells(s, cells, fetch);
      var outcome := fetch(CellQuery(last));
      RunRecordsComeFromCells(s, cells[..n], fetch);
      forall i | |s| <= i < |r|
        ensures exists k :: 0 <= k < |cells| && FromCell(r[i], cells[k], fetch(CellQuery(cells[k])))
      {
        if i < |before| {
          var k :| 0 <= k < |cells[..n]| && FromCell(before[i], cells[..n][k], fetch(CellQuery(cells[..n][k])));
          assert cells[..n][k] == cells[k] && r[i] == before[i];
          assert FromCell(r[i], cells[k], fetch(CellQuery(cells[k])));
        } else {
          assert r == IngestCell(before, outcome, last);
          var raws := outcome.articles.value;
          assert r == StoreBatch(before, raws, last);
          BatchRecordsCopyRaw(before, raws, last);
          var j :| 0 <= j < |raws| && Copies(r[i], raws[j], last);
          assert FromCell(r[i], cells[n], fetch(CellQuery(cells[n])));
        }
      }
    } else {
      assert RunCells(s, cells, fetch) == s;
    }
  }

  /** Field mapping: every record a cycle adds copies title, content, author,
      description, url, urlToImage, publishedAt and the outlet of an article
      the provider returned for some cell, and carries that cell's category
      and country; so its category is one of the six, never "general". */
  lemma CycleRecordsComeFromCells(s: seq<Article>, fetch: Query -> Outcome)
    ensures forall i :: |s| <= i < |Cycle(s, fetch)| ==>
              exists k :: 0 <= k < |CellOrder()| && FromCell(Cycle(s, fetch)[i], CellOrder()[k], fetch(CellQuery(CellOrder()[k])))
    ensures forall i :: |s| <= i < |Cycle(s, fetch)| ==>
              Cycle(s, fetch)[i].category in Categories && Cycle(s, fetch)[i].country in Countries
  {
    RunRecordsComeFromCells(s, CellOrder(), fetch);
    assert Cycle(s, fetch) == RunCells(s, CellOrder(), fetch);
    forall i | |s| <= i < |Cycle(s, fetch)|
      ensures Cycle(s, fetch)[i].category in Categories && Cycle(s, fetch)[i].country in Countries
    {
      var k :| 0 <= k < |CellOrder()| && FromCell(Cycle(s, fetch)[i], CellOrder()[k], fetch(CellQuery(CellOrder()[k])));
    }
  }

  // ---------------------------------------------------------------------------
  // Cell isolation

  /** Within a cell, an error at the j-th article keeps everything inserted
      before it: the store after the first j articles is a prefix of the store
      after the whole batch, and equal to it when the j-th article throws. */
  lemma {:induction false} BatchKeepsEarlierInserts(s: seq<Article>, raws: seq<RawArticle>, cell: Cell, j: nat)
    requires j < |raws|
    ensures StoreBatch(s, raws[..j], cell) <= StoreBatch(s, raws, cell)
    ensures raws[j].source.None? && !Stored(StoreBatch(s, raws[..j], cell), raws[j].title) ==>
              StoreBatch(s, raws, cell) == StoreBatch(s, raws[..j], cell)
    decreases j
  {
    if j > 0 {
      assert raws[..j][0] == raws[0] && raws[..j][1..] == raws[1..][..j - 1];
      if Lookup(s, raws[0].title).Some? {
        BatchKeepsEarlierInserts(s, raws[1..], cell, j - 1);
      } else if raws[0].source.Some? {
        BatchKeepsEarlierInserts(s + [Record(raws[0], cell)], raws[1..], cell, j - 1);
      }
    }
  }

  /** Cell isolation: a cell whose request fails changes nothing, and every
      cell after it is processed exactly as if the failed cell were absent. */
  lemma FailedCellIsSkipped(s: seq<Article>, cells: seq<Cell>, fetch: Query -> Outcome, k: nat)
    requires k < |cells| && fetch(CellQuery(cells[k])).Failed?
    ensures RunCells(s, cells, fetch) == RunCells(s, cells[..k] + cells[k + 1..], fetch)
  {
    var front := cells[..k] + [cells[k]];
    assert cells == front + cells[k + 1..];
    RunAppend(s, front, cells[k + 1..], fetch);
    assert front[..|front| - 1] == cells[..k];
    RunAppend(s, cells[..k], cells[k + 1..], fetch);
  }

  // ---------------------------------------------------------------------------
  // Idempotence

  /** After a batch without faults every title of the batch is stored. */
  lemma {:induction false} BatchStoresAllTitles(s: seq<Article>, raws: seq<RawArticle>, cell: Cell)
    requires forall j :: 0 <= j < |raws| ==> raws[j].source.Some?
    ensures forall j :: 0 <= j < |raws| ==> Stored(StoreBatch(s, raws, cell), raws[j].title)
    decreases |raws|
  {
    if raws != [] {
      var s' := if Lookup(s, raws[0].title).Some? then s else s + [Record(raws[0], cell)];
      assert Stored(s', raws[0].title) by {
        if Lookup(s, raws[0].title).None? { assert s'[|s|].title == raws[0].title; }
      }
      BatchStoresAllTitles(s', raws[1..], cell);
      forall j | 0 <= j < |raws| ensures Stored(StoreBatch(s, raws, cell), raws[j].title) {
        if j > 0 { assert raws[j] == raws[1..][j - 1]; }
      }
    }
  }

  /** A batch whose titles are all stored changes nothing. */
  lemma {:induction false} CoveredBatchIsNoop(s: seq<Article>, raws: seq<RawArticle>, cell: Cell)
    requires forall j :: 0 <= j < |raws| ==> Stored(s, raws[j].title)
    ensures StoreBatch(s, raws, cell) == s
    decreases |raws|
  {
    if raws != [] {
      assert Stored(s, raws[0].title);
      forall j | 0 <= j < |raws[1..]| ensures Stored(s, raws[1..][j].title) {
        assert raws[1..][j] == raws[j + 1];
      }
      CoveredBatchIsNoop(s, raws[1..], cell);
    }
  }

  /** After running cells without faults, every title any of them returned is stored. */
  lemma {:induction false} RunCoversCells(s: seq<Article>, cells: seq<Cell>, fetch: Query -> Outcome)
    requires forall k :: 0 <= k < |cells| ==> NoFaults(fetch(CellQuery(cells[k])))
    ensures forall k :: 0 <= k < |cells| ==> Covers(RunCells(s, cells, fetch), fetch(CellQuery(cells[k])))
    decreases |cells|
  {
    if cells != [] {
      var n := |cells| - 1;
      var before := RunCells(s, cells[..n], fetch);
      var r := RunCells(s, cells, fetch);
      RunCoversCells(s, cells[..n], fetch);
      forall k | 0 <= k < |cells| ensures Covers(r, fetch(CellQuery(cells[k]))) {
        var outcome := fetch(CellQuery(cells[k]));
        if outcome.Received? && outcome.articles.Some? {
          var raws := outcome.articles.value;
          if k < n {
            assert cells[..n][k] == cells[k];
          } else {
            BatchStoresAllTitles(before, raws, cells[n]);
          }
        }
      }
    }
  }

  /** Running cells whose titles are all stored changes nothing. */
  lemma {:induction false} CoveredRunIsNoop(s: seq<Article>, cells: seq<Cell>, fetch: Query -> Outcome)
    requires forall k :: 0 <= k < |cells| ==> Covers(s, fetch(CellQuery(cells[k])))
    ensures RunCells(s, cells, fetch) == s
    decreases |cells|
  {
    if cells != [] {
      var n := |cells| - 1;
      forall k | 0 <= k < n ensures Covers(s, fetch(CellQuery(cells[..n][k]))) {
        assert cells[..n][k] == cells[k];
      }
      CoveredRunIsNoop(s, cells[..n], fetch);
      var outcome := fetch(CellQuery(cells[n]));
      assert Covers(s, outcome);
      if outcome.Received? && outcome.articles.Some? {
        CoveredBatchIsNoop(s, outcome.articles.value, cells[n]);
      }
    }
  }

  /** Idempotence: when no article lacks a `source`, a second cycle over the
      same provider answers adds no records. */
  lemma CycleIdempotent(s: seq<Article>, fetch: Query -> Outcome)
    requires forall k :: 0 <= k < |CellOrder()| ==> NoFaults(fetch(CellQuery(CellOrder()[k])))
    ensures Cycle(Cycle(s, fetch), fetch) == Cycle(s, fetch)
  {
    RunCoversCells(s, CellOrder(), fetch);
    CoveredRunIsNoop(Cycle(s, fetch), CellOrder(), fetch);
  }

  /** When the provider answers only the first two cells and every other
      request fails, a cycle is the run over those two cells. */
  lemma CycleOfFirstTwoCells(s: seq<Article>, fetch: Query -> Outcome)
    requires forall q :: q != CellQuery(CellOrder()[0]) && q != CellQuery(CellOrder()[1]) ==> fetch(q).Failed?
    ensures Cycle(s, fetch) == RunCells(s, CellOrder()[..2], fetch)
  {
    var front, rest := CellOrder()[..2], CellOrder()[2..];
    assert CellOrder() == front + rest;
    RunAppend(s, front, rest, fetch);
    CellOrderVisitsEachOnce();
    var t := RunCells(s, front, fetch);
    forall k | 0 <= k < |rest| ensures Covers(t, fetch(CellQuery(rest[k]))) {
      assert rest[k] == CellOrder()[k + 2];
      assert CellQuery(rest[k]) != CellQuery(CellOrder()[0]) && CellQuery(rest[k]) != CellQuery(CellOrder()[1]);
    }
    CoveredRunIsNoop(t, rest, fetch);
  }

  const Wire: Outlet := Outlet(None, Some("wire"))
  /** An article X whose `source` is missing, the same article with a
      `source`, and a second article Y. */
  const Unsourced: RawArticle := RawArticle("X", None, None, None, None, None, None, None)
  const Sourced: RawArticle := Unsourced.(source := Some(Wire))
  const Later: RawArticle := RawArticle("Y", None, None, None, None, None, None, Some(Wire))

  /** A provider that answers "us/health" with [X without source, Y],
      "us/science" with [X with source], and fails every other request. */
  function FaultyProvider(q: Query): Outcome
  {
    if q == CellQuery(Cell("us", "health")) then Received(Some([Unsourced, Later]))
    else if q == CellQuery(Cell("us", "science")) then Received(Some([Sourced]))
    else Failed(None, "")
  }

  /** The first run over "us/health" and "us/science" stops at X in the first
      cell and stores X from the second. */
  lemma FaultyProviderFirstRun()
    ensures RunCells([], [Cell("us", "health"), Cell("us", "science")], FaultyProvider)
         == [Record(Sourced, Cell("us", "science"))]
  {
    var health, science := Cell("us", "health"), Cell("us", "science");
    assert [health, science][..1] == [health] && [health][..0] == [];
    assert FaultyProvider(CellQuery(health)) == Received(Some([Unsourced, Later]));
    assert RunCells([], [health], FaultyProvider) == [];
    assert FaultyProvider(CellQuery(science)) == Received(Some([Sourced]));
    assert [Sourced][1..] == [];
  }

  /** The second run skips the stored X in "us/health" and stores Y. */
  lemma FaultyProviderSecondRun()
    ensures |RunCells([Record(Sourced, Cell("us", "science"))],
                      [Cell("us", "health"), Cell("us", "science")], FaultyProvider)| == 2
  {
    var health, science := Cell("us", "health"), Cell("us", "science");
    var first := [Record(Sourced, science)];
    assert [health, science][..1] == [health] && [health][..0] == [];
    assert FaultyProvider(CellQuery(health)) == Received(Some([Unsourced, Later]));
    assert Lookup(first, "X").Some? && Lookup(first, "Y").None?;
    assert [Unsourced, Later][1..] == [Later] && [Later][1..] == [];
    assert StoreBatch(first, [Unsourced, Later], health) == StoreBatch(first, [Later], health);
    assert StoreBatch(first, [Later], health) == StoreBatch(first + [Record(Later, health)], [], health);
    assert RunCells(first, [health], FaultyProvider) == first + [Record(Later, health)];
    assert FaultyProvider(CellQuery(science)) == Received(Some([Sourced]));
    assert Lookup(first + [Record(Later, health)], "X").Some?;
    assert [Sourced][1..] == [];
  }

  /** `FaultyProvider` fails every request but those of the first two cells. */
  lemma FaultyProviderAnswersTwoCells()
    ensures CellOrder()[..2] == [Cell("us", "health"), Cell("us", "science")]
    ensures forall q :: q != CellQuery(CellOrder()[0]) && q != CellQuery(CellOrder()[1]) ==> FaultyProvider(q).Failed?
  {
    CellAt(0, 0);
    CellAt(0, 1);
  }

  /** The first cycle stores only X, from "us/science". */
  lemma FaultyFirstCycle()
    ensures Cycle([], FaultyProvider) == [Record(Sourced, Cell("us", "science"))]
  {
    FaultyProviderAnswersTwoCells();
    CycleOfFirstTwoCells([], FaultyProvider);
    FaultyProviderFirstRun();
  }

  /** The second cycle adds Y, so it ends with two records. */
  lemma FaultySecondCycle()
    ensures |Cycle(Cycle([], FaultyProvider), FaultyProvider)| == 2
  {
    FaultyFirstCycle();
    FaultyProviderAnswersTwoCells();
    CycleOfFirstTwoCells([Record(Sourced, Cell("us", "science"))], FaultyProvider);
    FaultyProviderSecondRun();
  }

  /** Without the no-fault condition idempotence fails. With `FaultyProvider`
      the first cycle abandons "us/health" at X and then stores X from
      "us/science"; the second cycle skips the now-stored X and reaches Y,
      which it stores. */
  lemma FaultBreaksIdempotence()
    ensures exists fetch: Query -> Outcome :: Cycle(Cycle([], fetch), fetch) != Cycle([], fetch)
  {
    FaultyFirstCycle();
    FaultySecondCycle();
    assert Cycle(Cycle([], FaultyProvider), FaultyProvider) != Cycle([], FaultyProvider);
  }
}
