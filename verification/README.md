# Dependabot alert export — a Dafny model

The action exports a repository's Dependabot vulnerability alerts to a CSV
file. Its logic lives in `app/index.js`:

- `run` pages through `repository.vulnerabilityAlerts` with a GraphQL query,
  50 alerts per page.
- Each page is filtered down to unfixed, undismissed CRITICAL or HIGH alerts on
  runtime dependencies. The alert's `state` is never read.
- Every kept alert is projected through a fixed eight-column `fields` table.
  The last column is a deep link to the alert.
- The rows are appended to the report file. The header row is written with
  the first page only.
- The first page's `totalCount` is published as the `alerts_count` output.

This project models that logic and proves its properties. It has these modules:

- `Wrappers` holds `Option` and JavaScript truthiness of an optional string.
- `Alerts` holds the alert record and its enumerations, and the severity
  names as they appear on the wire.
- `Decimal` holds the decimal rendering of the alert number and its parser.
- `AlertFilter` holds the filter predicate and `filter` over a page.
- `CsvReport` holds the header row, the row projection, the Alert Link and
  its parser, and the appended chunks and the file they make.
- `Pagination` holds the `run` loop. It is an imperative method over a
  scripted page source.
- `SeqFacts` holds generic facts about concatenation, used by the proofs.

The remote query is modelled as a scripted source `script: seq<Option<Page>>`.
The k-th fetch of a run answers `script[k]`, and `None` stands for a failed
fetch. When a fetch fails, `getAlerts` catches the error, marks the run failed
and returns `undefined`. The callback then throws on `.repository`, and the
handler around the loop ends the run. `Run` returns four things:

- the cursor argument of every fetch;
- the chunks appended to the file, each the writer's header flag plus the
  kept alerts handed to the CSV writer;
- the last value set as `alerts_count`;
- whether the run was marked failed.

A run whose count output was never set returns `None` for the count.

`core.setOutput('alerts_count', …)` runs inside the loop, after every
successful page (app/index.js:164). So when a fetch after the first page
fails, the output already holds the first page's total, and `Run` reports
exactly that.

A page that reports a next page copies its `endCursor` into `pagination`
as it is, even when it is falsy (app/index.js:154-157). The argument sent with
the next fetch is then `null` (app/index.js:110), which asks the API for the
first page again. Its rows would then be appended a second time, without a
header, and if the first page kept answering the same way the loop would never
end. The model shows only the `null` argument (`CursorArg`, `RequestsAt`). Its
script is indexed by fetch number, not by cursor, so the re-fetched first page
appears in a run only when the script repeats it at that fetch.

## Model

| member | source | states |
|---|---|---|
| Wrappers.Truthy | app/index.js:110 | JavaScript truthiness of an optional string: it is truthy iff it is present and not the empty string |
| AlertFilter.Keep | app/index.js:133-137 | an alert passes the filter iff its severity is CRITICAL or HIGH, its scope is RUNTIME, and its `fixedAt` and `dismissedAt` are each absent or empty |
| AlertFilter.FilterAlerts | app/index.js:132-138 | the filtered page is no longer than the page, and every alert in it passes the filter |
| AlertFilter.SurvivesFilterIff | app/index.js:132-138 | an alert is in the filtered page iff it is in the page and it satisfies all four conditions: severity is CRITICAL or HIGH, scope is RUNTIME, `fixedAt` is falsy and `dismissedAt` is falsy |
| AlertFilter.FilterSelectsKeptPositions | app/index.js:132-138 | the filtered page is a subsequence of the page. It is the page at a strictly increasing list of positions, and those positions are exactly the positions of the alerts that pass. So order is kept, and nothing passing is dropped |
| AlertFilter.FilterAppend | app/index.js:132-138 | filtering two pages one after the other is filtering their concatenation |
| AlertFilter.FilterIdempotent | app/index.js:132-138 | filtering an already filtered page changes nothing |
| AlertFilter.FilterKeepsAllKept | app/index.js:132-138 | a page whose alerts all pass comes through unchanged |
| Alerts.SeverityName | app/index.js:89 | the Severity cell is one of the four GraphQL severity names |
| Alerts.ParseSeverity | app/index.js:89 | a name parses only when it is the name of the severity it parses to |
| Alerts.SeverityNameRoundTrip | app/index.js:89 | the Severity cell reads back as the alert's severity |
| Decimal.NatToDecimal | app/index.js:101 | the alert number in the link is a non-empty string of digits without a leading zero |
| Decimal.ParseDecimal | app/index.js:101 | a string parses as a number iff it is a non-empty string of digits |
| Decimal.DecimalRoundTrip | app/index.js:101 | the number's digits read back as the number |
| CsvReport.HeaderRow | app/index.js:70-103 | the header row has one cell per label, holding that label, in table order |
| CsvReport.HeaderLabels | app/index.js:70-103 | the header row is exactly Manifest, Package Name, Impacted Version, Patched Version, Severity, Summary, CVE Link, Alert Link |
| CsvReport.AlertRow | app/index.js:70-103 | a row has 8 cells, and all are present except Patched Version. Patched Version is absent iff the vulnerability has no first patched version |
| CsvReport.AlertRowDescribesAlert | app/index.js:70-98 | a row has as many cells as the header, 8. The first seven cells are the manifest path, package name, vulnerable range, patched identifier (when present), the severity's name, the summary and the permalink, in the header's order |
| CsvReport.AlertRowLink | app/index.js:100-101 | the Alert Link cell parses back to the alert's owner login, repository name and number |
| CsvReport.AlertLink | app/index.js:101 | the link starts with `https://github.com/` |
| CsvReport.ParseAlertLink | app/index.js:101 | a parsed link's owner and repository contain no `/` |
| CsvReport.AlertLinkRoundTrip | app/index.js:101 | the link built from owner, repository and number parses back to exactly those three values, when the names contain no `/` |
| CsvReport.AcmeWidgetsLink | app/index.js:101 | alert 42 of acme/widgets links to `https://github.com/acme/widgets/security/dependabot/42` |
| CsvReport.AlertLinkInjective | app/index.js:101 | when no owner login or repository name contains `/`, two alerts with the same link have the same owner, repository and number |
| CsvReport.Rows | app/index.js:149 | one row per kept alert |
| CsvReport.RowsAt | app/index.js:149 | the i-th row is the projection of the i-th kept alert |
| CsvReport.RowsAppend | app/index.js:149 | projecting two pages one after the other is projecting their concatenation |
| CsvReport.ChunkLines | app/index.js:146-149 | an append writes one row per alert handed to the writer, plus one line for the header when its flag is set, and then the header comes first |
| CsvReport.RowIsNotHeader | app/index.js:70-103 | no alert's row equals the header row (its Severity cell is a severity name, not the label) |
| CsvReport.NoRowIsHeader | app/index.js:70-103 | the rows of any alerts never contain the header row |
| CsvReport.ChunkHeaderIff | app/index.js:146-149 | an append contains the header row iff its header flag is set |
| CsvReport.FileLines | app/index.js:149 | the report file is the lines of every append, in order, so it begins with the first append's lines |
| CsvReport.HeaderCount | app/index.js:146-149 | at most one header per append |
| CsvReport.HeaderCountSnoc | app/index.js:146-149 | one more append adds one header exactly when its flag is set |
| Pagination.FirstStop | app/index.js:152-166 | the position of the first fetch that ends the run is at most the script's length, and a position before the end holds a stopping fetch, so it equals the length when no fetch stops |
| Pagination.Stops | app/index.js:153-166 | a fetch ends the run iff it failed (its callback throws and the handler ends the run) or its page has no next page |
| Pagination.StopsAt | app/index.js:128-166 | up to the first stopping fetch, a fetch ends the run (it fails, or it has no next page) exactly when it is that fetch |
| Pagination.CursorArg | app/index.js:110 | a cursor is sent iff it is truthy, and then unchanged; otherwise `null` is sent |
| Pagination.PageChunk | app/index.js:140-149 | the chunk for page k asks for a header iff k is 0, and hands the writer at most as many alerts as the page has |
| Pagination.Fetched | app/index.js:128-129 | the successful fetches among the first m number at most m |
| Pagination.FetchedAt | app/index.js:128-129 | when the first m fetches succeed, the k-th fetched page is the k-th answer |
| Pagination.FetchedStep | app/index.js:128-129 | one more fetch adds its page to the fetched pages when it succeeds, and nothing when it fails |
| Pagination.Requests | app/index.js:110-157 | one cursor argument per fetch: one more than the pages fetched before it |
| Pagination.RequestsAt | app/index.js:110-157 | the cursor chain: the first fetch sends `null`, and the fetch after page k sends page k's end cursor (or `null` if it is falsy) |
| Pagination.RequestsSnoc | app/index.js:152-157 | one more page adds one cursor argument, that page's end cursor |
| Pagination.Writes | app/index.js:140-149 | one append per fetched page |
| Pagination.WritesSnoc | app/index.js:140-149 | one more page adds exactly one chunk, that page's, at the end |
| Pagination.WritesAt | app/index.js:140-149 | the k-th append hands the writer page k's kept alerts, with the header flag set only for k = 0 |
| Pagination.Run | app/index.js:117-170 | the run fails iff the first stopping fetch failed. It makes exactly that many fetches plus one, along the cursor chain. It appends once per successful page, and nothing for the failed page or after it. The count output is the first page's `totalCount` once a page has been written, and unset before. The header is written once if anything was written |
| Pagination.HeaderWrittenOnce | app/index.js:121-157 | when at least one page was fetched, exactly one appended chunk carries the header; when none was (the first fetch failed), none does |
| Pagination.ReportContents | app/index.js:126-166 | when at least one page was fetched, the file holds one header row and then the rows of every fetched alert that passes the filter, in fetch order; when none was, the file is empty |
| Pagination.SinglePageRun | app/index.js:117-170 | `Run` over one page with total 3, one alert kept and one dropped, and no next page: not failed, one fetch sending `null`, count 3, and the file is the header and the kept alert's row |
| Pagination.FailedSecondFetchRun | app/index.js:106-170 | `Run` over a first page with a next page and then a failed fetch: failed, two fetches sending `null` and then the first page's cursor, the count is the first page's total, and the file holds only the first page's header and kept rows |
| Pagination.ExampleRuns | app/index.js:117-170 | both runs over a CRITICAL runtime alert and a LOW one: each file is the header and the critical alert's row, and the failed run's count is 2 |

## Left out

- The GraphQL query text and the `octokit.graphql` client (app/index.js:20-67, 110). They are replaced by the scripted page source. The page size of 50 and the query's field selection are not modelled.
- `core.getInput`, `github.getOctokit`, `core.setOutput` and `core.setFailed` (app/index.js:11-17, 112, 164, 168). They are Actions runtime I/O. The count output is returned as a value and a failure as a flag. Error messages are not modelled.
- `makeDir`, `dirname` and `fs.appendFileSync` (app/index.js:125, 149). They are filesystem I/O. The file is the sequence of appended chunks, starting empty. Its earlier contents and any filesystem error are not modelled.
- How `json2csv`'s `parse` quotes and escapes fields, renders an absent cell, and separates lines, plus the trailing newline of each append (app/index.js:149). This is a foreign library. Rows are sequences of optional field values.
- `console.log` diagnostics (app/index.js:108, 142, 158-160, 172). They are output only.
- The async and promise mechanics. The flow is strictly sequential, so each await is a plain step.
- Pagination.Run: requires that some fetch in the script ends the run. Termination of the loop rests on the remote API eventually reporting no next page. The code has no page cap.
- A page whose shape violates the schema (a missing `securityAdvisory`, `repository` or `pageInfo`) makes the code throw. Pages here always have every field.
- Alert Link: the model treats owner logins and repository names as containing no `/`, as GitHub guarantees. Without that, the link cannot be split back into its parts, and AlertRowLink, AlertLinkRoundTrip and AlertLinkInjective require it.
