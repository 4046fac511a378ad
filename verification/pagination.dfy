/**
 * The pagination driver `run` of app/index.js: a do-while loop that fetches
 * one page per iteration, filters it, appends it to the report and follows
 * the page's end cursor until the remote API reports no next page.
 *
 * The remote query is a scripted source: the k-th fetch of the run answers
 * `script[k]`, where `None` stands for a fetch that failed (the client
 * swallows the error and returns `undefined`, so the next property access
 * throws and the run's handler marks the run failed).
 */
module Pagination {
  import opened Wrappers
  import opened SeqFacts
  import opened Alerts
  import opened AlertFilter
  import opened CsvReport

  /** One page of `repository.vulnerabilityAlerts`. */
  datatype Page = Page(
    nodes: seq<Alert>,
    totalCount: nat,
    hasNextPage: bool,
    endCursor: Option<string>)

  /** A fetch that ends the run: it failed, or its page is the last one. */
  predicate Stops(fetch: Option<Page>): (stops: bool)
    ensures fetch.None? ==> stops
    ensures fetch.Some? ==> (stops <==> !fetch.value.hasNextPage)
  {
    fetch.None? || !fetch.value.hasNextPage
  }

  /** The position of the first fetch at or after `i` that ends the run, or `|script|` if none does. */
  function FirstStopFrom(script: seq<Option<Page>>, i: nat): (n: nat)
    requires i <= |script|
    ensures i <= n <= |script|
    ensures n < |script| ==> Stops(script[n])
    decreases |script| - i
  {
    if i == |script| then i
    else if Stops(script[i]) then i
    else FirstStopFrom(script, i + 1)
  }

  /** The position of the first fetch that ends the run, or `|script|` if none does. */
  function FirstStop(script: seq<Option<Page>>): (n: nat)
    ensures n <= |script|
    ensures n < |script| ==> Stops(script[n])
  {
    FirstStopFrom(script, 0)
  }

  /** The cursor argument sent with a fetch: a falsy cursor is sent as `null`. */
  function CursorArg(pagination: Option<string>): (arg: Option<string>)
    ensures arg.Some? <==> Truthy(pagination)
    ensures arg.Some? ==> arg == pagination
  {
    if Truthy(pagination) then pagination else None
  }

  /** What the writer appends for the k-th page: the header only for the first page. */
  function PageChunk(k: nat, page: Page): (c: Chunk)
    ensures c.header <==> k == 0
    ensures |c.alerts| <= |page.nodes|
  {
    Chunk(k == 0, FilterAlerts(page.nodes))
  }

  /** The pages that the first `m` fetches of a script returned, failed fetches left out. */
  function Fetched(script: seq<Option<Page>>, m: nat): (pages: seq<Page>)
    requires m <= |script|
    ensures |pages| <= m
  {
    if m == 0 then []
    else match script[m - 1]
      case None => Fetched(script, m - 1)
      case Some(page) => Fetched(script, m - 1) + [page]
  }

  /** When the first `m` fetches all succeeded, the k-th fetched page is the page the k-th fetch answered. */
  lemma {:induction false} FetchedAt(script: seq<Option<Page>>, m: nat, k: nat)
    requires m <= |script| && forall j :: 0 <= j < m ==> script[j].Some?
    requires k < m
    ensures |Fetched(script, m)| == m && script[k] == Some(Fetched(script, m)[k])
  {
    if k < m - 1 {
      FetchedAt(script, m - 1, k);
    } else if m > 1 {
      FetchedAt(script, m - 1, 0);
    }
  }

  /**
   * The cursor arguments of the fetches made around the given pages: `null`
   * for the first fetch, then the end cursor of each page in turn.
   */
  function Requests(pages: seq<Page>): (cursors: seq<Option<string>>)
    ensures |cursors| == |pages| + 1
  {
    if pages == [] then [None]
    else Requests(pages[..|pages| - 1]) + [CursorArg(pages[|pages| - 1].endCursor)]
  }

  /**
   * The cursor chain: the first fetch sends no cursor, and the fetch after
   * page k sends page k's end cursor.
   */
  lemma {:induction false} RequestsAt(pages: seq<Page>, k: nat)
    requires k <= |pages|
    ensures Requests(pages)[k] == if k == 0 then None else CursorArg(pages[k - 1].endCursor)
  {
    if k < |pages| {
      RequestsAt(pages[..|pages| - 1], k);
    }
  }

  /** The chunks appended for the given pages: one per page, in fetch order. */
  function Writes(pages: seq<Page>): (chunks: seq<Chunk>)
    ensures |chunks| == |pages|
  {
    if pages == [] then []
    else Writes(pages[..|pages| - 1]) + [PageChunk(|pages| - 1, pages[|pages| - 1])]
  }

  /** The chunk appended for page k is that page's chunk: its kept alerts, with the header only for page 0. */
  lemma {:induction false} WritesAt(pages: seq<Page>, k: nat)
    requires k < |pages|
    ensures Writes(pages)[k] == PageChunk(k, pages[k])
  {
    if k < |pages| - 1 {
      WritesAt(pages[..|pages| - 1], k);
    }
  }

  /** The alerts of the given pages, page after page. */
  function AllNodes(pages: seq<Page>): seq<Alert>
  {
    if pages == [] then [] else AllNodes(pages[..|pages| - 1]) + pages[|pages| - 1].nodes
  }

  /**
   * The run. Returns the cursor argument of every fetch in order, the chunks
   * appended to the report, the last value set as the `alerts_count` output
   * (`None` if it was never set) and whether the run was marked failed.
   */
  method Run(script: seq<Option<Page>>)
    returns (cursors: seq<Option<string>>, appended: seq<Chunk>, alertsCount: Option<int>, failed: bool)
    requires FirstStop(script) < |script|
    // a failure is exactly a failed fetch, and it can only be the last fetch
    ensures failed <==> script[FirstStop(script)].None?
    // the fetches: up to and including the first that ends the run, each
    // carrying the end cursor of the page before it
    ensures |cursors| == FirstStop(script) + 1
    ensures cursors == Requests(Fetched(script, FirstStop(script)))
    // one append per successful page, none for a failed page or after it
    ensures |appended| == if failed then FirstStop(script) else FirstStop(script) + 1
    ensures appended == Writes(Fetched(script, FirstStop(script) + 1))
    // the count is the first page's total, set once a page has been appended
    ensures alertsCount == if appended == [] then None else Some(script[0].value.totalCount)
    // the header is written once, with the first chunk (ReportContents gives the whole file)
    ensures HeaderCount(appended) == if appended == [] then 0 else 1
  {
    var pagination: Option<string> := None;
    var hasNextPage := false;
    var addTitleRow := true;
    var alertCount := 0;
    cursors, appended, alertsCount, failed := [], [], None, false;
    ghost var pages: seq<Page> := [];
    var k := 0;
    while true
      invariant k <= FirstStop(script)
      invariant pages == Fetched(script, k) && |pages| == k
      invariant cursors + [CursorArg(pagination)] == Requests(pages)
      invariant appended == Writes(pages) && !failed
      invariant addTitleRow <==> k == 0
      invariant k == 0 ==> alertCount == 0 && alertsCount == None
      invariant k > 0 ==> script[0].Some? && alertCount == script[0].value.totalCount && alertsCount == Some(alertCount)
      decreases FirstStop(script) - k
    {
      // getAlerts(org, repo, pagination)
      cursors := cursors + [CursorArg(pagination)];
      var alertResult := script[k];
      StopsAt(script, k);
      if alertResult.None? {
        // the access to `.repository` throws; the run's handler marks it failed
        failed := true;
        FetchedStep(script, k);
        assert k == FirstStop(script) && Fetched(script, k + 1) == pages;
        HeaderWrittenOnce(pages);
        break;
      }
      var page := alertResult.value;
      var vulnerabilityNodes := FilterAlerts(page.nodes);
      FetchedStep(script, k);
      RequestsSnoc(pages, page);
      WritesSnoc(pages, page);
      if addTitleRow {
        alertCount := page.totalCount;
      }
      appended := appended + [Chunk(addTitleRow, vulnerabilityNodes)];
      pages := pages + [page];
      hasNextPage := page.hasNextPage;
      if hasNextPage {
        pagination := page.endCursor;
        addTitleRow := false;
      }
      alertsCount := Some(alertCount);
      if !hasNextPage {
        assert k == FirstStop(script) && Fetched(script, k + 1) == pages;
        HeaderWrittenOnce(pages);
        break;
      }
      k := k + 1;
    }
  }

  /** One more fetch: its page extends the fetched pages, and a failed fetch adds nothing. */
  lemma FetchedStep(script: seq<Option<Page>>, k: nat)
    requires k < |script|
    ensures Fetched(script, k + 1) ==
      if script[k].None? then Fetched(script, k) else Fetched(script, k) + [script[k].value]
  {
  }

  /** One more page: one more cursor argument, that page's end cursor. */
  lemma RequestsSnoc(pages: seq<Page>, page: Page)
    ensures Requests(pages + [page]) == Requests(pages) + [CursorArg(page.endCursor)]
  {
    assert (pages + [page])[..|pages|] == pages;
  }

  /** One more page: one more chunk, that page's. */
  lemma WritesSnoc(pages: seq<Page>, page: Page)
    ensures Writes(pages + [page]) == Writes(pages) + [PageChunk(|pages|, page)]
  {
    assert (pages + [page])[..|pages|] == pages;
  }

  /** Up to `FirstStop`, a fetch ends the run exactly when it is the fetch at `FirstStop`. */
  lemma StopsAt(script: seq<Option<Page>>, k: nat)
    requires k <= FirstStop(script) && k < |script|
    ensures Stops(script[k]) <==> k == FirstStop(script)
  {
    StopsFrom(script, 0, k);
  }

  /** Between `i` and the first stop at or after it, only that stop ends the run. */
  lemma {:induction false} StopsFrom(script: seq<Option<Page>>, i: nat, k: nat)
    requires i <= k < |script| && k <= FirstStopFrom(script, i)
    ensures Stops(script[k]) <==> k == FirstStopFrom(script, i)
    decreases k - i
  {
    if k > i {
      StopsFrom(script, i + 1, k);
    }
  }

  /** The writer is asked for a header for the first page only: the header is written exactly once. */
  lemma {:induction false} HeaderWrittenOnce(pages: seq<Page>)
    ensures HeaderCount(Writes(pages)) == if pages == [] then 0 else 1
  {
    if pages != [] {
      var init := pages[..|pages| - 1];
      HeaderWrittenOnce(init);
      var last := PageChunk(|init|, pages[|pages| - 1]);
      assert Writes(pages) == Writes(init) + [last];
      HeaderCountSnoc(Writes(init), last);
    }
  }

  /**
   * The report a run leaves behind: one header row, then the rows of every
   * fetched alert that passes the filter, in fetch order.
   */
  lemma {:induction false} ReportContents(pages: seq<Page>)
    ensures FileLines(Writes(pages)) ==
      (if pages == [] then [] else [HeaderRow()]) + Rows(FilterAlerts(AllNodes(pages)))
  {
    var m := |pages|;
    if m == 1 {
      assert pages[..0] == [];
      EmptyConcat(pages[0].nodes);
      assert AllNodes(pages) == pages[0].nodes;
      var chunks := Writes(pages);
      assert chunks[..0] == [];
      EmptyConcat(ChunkLines(chunks[0]));
      assert FileLines(chunks) == ChunkLines(chunks[0]);
    } else if m > 1 {
      var init := pages[..m - 1];
      ReportContents(init);
      var chunks := Writes(pages);
      assert chunks == Writes(init) + [PageChunk(m - 1, pages[m - 1])];
      SplitLast(pages);
      ReportStep(init, pages[m - 1], Writes(init), PageChunk(m - 1, pages[m - 1]));
    }
  }

  /** One more page appended to a non-empty report. */
  lemma ReportStep(initPages: seq<Page>, page: Page, initChunks: seq<Chunk>, chunk: Chunk)
    requires initPages != [] && chunk == PageChunk(|initPages|, page)
    requires FileLines(initChunks) == [HeaderRow()] + Rows(FilterAlerts(AllNodes(initPages)))
    ensures FileLines(initChunks + [chunk]) ==
      [HeaderRow()] + Rows(FilterAlerts(AllNodes(initPages + [page])))
  {
    var before, last := AllNodes(initPages), page.nodes;
    var chunks, pages := initChunks + [chunk], initPages + [page];
    assert chunks[..|chunks| - 1] == initChunks;
    assert pages[..|pages| - 1] == initPages;
    assert AllNodes(pages) == before + last;
    FilterAppend(before, last);
    RowsAppend(FilterAlerts(before), FilterAlerts(last));
    assert ChunkLines(chunk) == Rows(FilterAlerts(last));
    calc {
      FileLines(chunks);
      FileLines(initChunks) + ChunkLines(chunk);
      ([HeaderRow()] + Rows(FilterAlerts(before))) + Rows(FilterAlerts(last));
      { ConcatAssoc([HeaderRow()], Rows(FilterAlerts(before)), Rows(FilterAlerts(last))); }
      [HeaderRow()] + (Rows(FilterAlerts(before)) + Rows(FilterAlerts(last)));
      [HeaderRow()] + Rows(FilterAlerts(AllNodes(pages)));
    }
  }

  // ---------------------------------------------------------------------
  // Two runs, worked through

  /** An open CRITICAL alert on a runtime dependency of acme/widgets. */
  function CriticalAlert(): Alert
  {
    Alert("A1", 1, "2024-01-01T00:00:00Z", OPEN, None, None, None, None, Some(RUNTIME),
      RepositoryRef("widgets", "acme"),
      Advisory("GHSA-0001", "d", "https://github.com/advisories/GHSA-0001", CRITICAL, "s"),
      Vulnerability("left-pad", "< 1.0.1", Some(PatchedVersion("1.0.1"))),
      "package.json", "package.json")
  }

  /** The same alert downgraded to LOW, which the filter drops. */
  function LowAlert(): Alert
  {
    CriticalAlert().(number := 2,
      securityAdvisory := CriticalAlert().securityAdvisory.(severity := LOW))
  }

  /** The first example alert passes the filter, the second does not. */
  lemma ExampleAlertsFiltered()
    ensures Keep(CriticalAlert()) && !Keep(LowAlert())
  {
  }

  /** A report of one page: the header row, then the page's kept alerts. */
  lemma OnePageReport(page: Page)
    ensures FileLines(Writes([page])) == [HeaderRow()] + Rows(FilterAlerts(page.nodes))
  {
    ReportContents([page]);
    assert [page][..0] == [];
    EmptyConcat(page.nodes);
    assert AllNodes([page]) == page.nodes;
  }

  /** Filtering a kept alert followed by a dropped one, and projecting the result. */
  lemma KeptThenDropped(kept: Alert, dropped: Alert)
    requires Keep(kept) && !Keep(dropped)
    ensures Rows(FilterAlerts([kept, dropped])) == [AlertRow(kept)]
  {
    assert [kept, dropped][1..] == [dropped];
    assert [kept, dropped][1..][1..] == [];
    assert FilterAlerts([kept, dropped]) == [kept];
    assert [kept][1..] == [];
  }

  /**
   * A run over a single page with total count 3, one alert the filter keeps
   * and one it drops, and no next page: one fetch without a cursor, count 3,
   * and a report of the header and the kept alert's row.
   */
  method SinglePageRun(kept: Alert, dropped: Alert)
    returns (cursors: seq<Option<string>>, appended: seq<Chunk>, alertsCount: Option<int>, failed: bool)
    requires Keep(kept) && !Keep(dropped)
    ensures !failed && cursors == [None] && alertsCount == Some(3)
    ensures FileLines(appended) == [HeaderRow(), AlertRow(kept)]
  {
    var page := Page([kept, dropped], 3, false, None);
    var script := [Some(page)];
    assert FirstStop(script) == 0;
    cursors, appended, alertsCount, failed := Run(script);
    assert Fetched(script, 1) == [page] by {
      assert Fetched(script, 0) == [];
    }
    assert cursors == [None];
    calc {
      FileLines(appended);
      FileLines(Writes([page]));
      { OnePageReport(page); }
      [HeaderRow()] + Rows(FilterAlerts([kept, dropped]));
      { KeptThenDropped(kept, dropped); }
      [HeaderRow()] + [AlertRow(kept)];
    }
  }

  /**
   * A run whose first page has a next page and whose second fetch fails:
   * the run is marked failed after two fetches, the second carrying the
   * first page's cursor, the count output keeps the first page's total, and
   * the report holds the first page only.
   */
  method FailedSecondFetchRun(first: Page)
    returns (cursors: seq<Option<string>>, appended: seq<Chunk>, alertsCount: Option<int>, failed: bool)
    requires first.hasNextPage
    ensures failed && alertsCount == Some(first.totalCount)
    ensures cursors == [None, CursorArg(first.endCursor)]
    ensures FileLines(appended) == [HeaderRow()] + Rows(FilterAlerts(first.nodes))
  {
    var script := [Some(first), None];
    assert FirstStopFrom(script, 1) == 1;
    assert FirstStop(script) == 1;
    cursors, appended, alertsCount, failed := Run(script);
    assert Fetched(script, 1) == [first];
    assert Fetched(script, 2) == [first];
    assert [first][..0] == [];
    OnePageReport(first);
  }

  /** Both runs over the two example alerts: each report is the header and the critical alert's row. */
  method ExampleRuns() returns (singleLines: seq<Row>, failedLines: seq<Row>, failedCount: Option<int>)
    ensures singleLines == [HeaderRow(), AlertRow(CriticalAlert())]
    ensures failedLines == [HeaderRow(), AlertRow(CriticalAlert())]
    ensures failedCount == Some(2)
  {
    ExampleAlertsFiltered();
    var cursors, appended, alertsCount, failed := SinglePageRun(CriticalAlert(), LowAlert());
    singleLines := FileLines(appended);
    var first := Page([CriticalAlert(), LowAlert()], 2, true, Some("Y3Vyc29yOjI="));
    cursors, appended, failedCount, failed := FailedSecondFetchRun(first);
    KeptThenDropped(CriticalAlert(), LowAlert());
    failedLines := FileLines(appended);
  }
}
