# NewsAI news pipeline, modelled in Dafny

This project models the two pieces of logic at the centre of the NewsAI server:

- **The ingestion cycle** (`fetchNewsAndStore` in `server/app.js`). Every fifteen minutes it walks a
  fixed matrix of 5 countries × 6 categories, country-major. For each cell it asks the news
  provider for top headlines. Each returned article is stored in the `News` collection unless
  a record with exactly the same `title` is already there. An error abandons the rest of the
  current cell only, and the loop moves on to the next cell.
- **The news request handlers** (`server/controllers/newsController.js`):
  - `fetchNewsByCategory` fetches one page of a category live from the provider. It degrades a
    provider quota error (HTTP 429) into a single stand-in article.
  - `fetchAllNews` passes the provider's first page through unchanged.
  - `Preferences` appends to a user's preference list.

The provider is a function `fetch: Query -> Outcome` (module `Upstream`). A `Query` holds the
request's parameters. An `Outcome` is either a response body, whose `articles` may be missing,
or a thrown error that carries the provider's HTTP status (none when there was no reply) and
the error message.

The `News` collection is the class `Ingestion.NewsStore`, a sequence of records in insertion
order. The loops of `fetchNewsAndStore` are the methods `IngestArticles`, `IngestOutcome` and
`FetchNewsAndStore`. Each of them is proved equal to a specification function on the old
store: `StoreBatch`, `IngestCell` and `Cycle`. The properties of a cycle are proved about
those functions in module `IngestionFacts`:

- titles stay unique;
- records are only appended, and the first writer wins;
- every new record copies a provider article and is stamped with its cell;
- a failed cell is as if absent, and what a cell stored before an error remains;
- a second cycle with the same provider answers adds nothing.

Idempotence has a precondition: no article may lack `source`. Reading `article.source.id`
throws only for an article whose title is not yet stored. So a first cycle can abandon a cell
at such an article and then store the same title from a later cell. The second cycle then
skips that title and reaches the articles after it, which it stores.
`FaultBreaksIdempotence` exhibits this for a whole cycle. Its provider answers only the first two cells of the matrix.

Some behaviour of the code is worth stating outright, because a reader might expect otherwise:

- `fetchNewsByCategory` does not read the store. It does no case normalisation, no
  `publishedAt` ordering and no `total`-based pagination. It asks the provider live, and
  `nextPage` is set exactly when the page holds 10 articles.
- Only an HTTP 429 status counts as an exhausted quota. A rate-limit code inside the response
  body does not.
- There is no single-flight guard between cycles. The code does not rely on a storage-level
  uniqueness constraint; uniqueness rests on the lookup before each insert, which is what the
  model proves. The `News` schema is not part of this model.
- `fetchAllNews` has no quota fallback: a 429 becomes a 500 there.

## Model

| member | source | states |
|---|---|---|
| `Ingestion.CellOrder` | server/app.js:94-106 | the visiting order has 5 × 6 cells, each with a country of `countries` and a category of `categories` |
| `IngestionFacts.CellOrderIsCountryMajor` | server/app.js:105-106 | the order is country-major: cell (i, j) is visited at position 6·i + j, 30 cells in all |
| `IngestionFacts.CellOrderCoversMatrix` | server/app.js:94-106 | a cell is visited iff its country is in `countries` and its category in `categories`; "general" is never visited |
| `IngestionFacts.CellOrderVisitsEachOnce` | server/app.js:105-106 | no cell is visited twice |
| `Ingestion.Lookup` | server/app.js:114 | `findOne({title})` finds a record iff one with that exact title is stored. The returned record has that title. The model picks the first match; while titles are unique that choice cannot be seen |
| `Ingestion.CellQuery` | server/app.js:108-110 | a cell's request carries exactly its category and country, with no language, page size or page |
| `Ingestion.Record` | server/app.js:117-131 | the created record copies title, content, author, description, url, urlToImage, publishedAt and the source id and name, with the cell's category and country |
| `Ingestion.StoreBatch` | server/app.js:112-136 | offering a cell's articles only appends to the store, at most one record per article |
| `Ingestion.IngestCell` | server/app.js:107-142 | a failed request, a missing `articles` list or an empty one leaves the store unchanged; otherwise the store only grows |
| `Ingestion.RunCells` | server/app.js:105-144 | running cells in order only appends to the store |
| `Ingestion.Cycle` | server/app.js:104-145 | a full cycle only appends to the store |
| `Ingestion.NewsStore.Create` | server/app.js:117-131 | `News.create` appends exactly one record and changes nothing else |
| `Ingestion.IngestArticles` | server/app.js:113-136 | the article loop leaves the store equal to `StoreBatch` of the old store: skip stored titles, insert the mapped record otherwise, stop the cell when `source` is missing |
| `Ingestion.IngestOutcome` | server/app.js:107-142 | one cell's body: errors and empty answers are only logged; a non-empty list runs the article loop |
| `Ingestion.FetchNewsAndStore` | server/app.js:104-145 | the two nested loops leave the store equal to `Cycle` of the old store |
| `IngestionFacts.LookupStable` | server/app.js:114-116 | once a title is stored, appending never changes what `findOne` returns for it |
| `IngestionFacts.BatchKeepsTitlesUnique` | server/app.js:113-131 | a cell keeps titles unique, even when its answer repeats a title |
| `IngestionFacts.RunKeepsTitlesUnique` | server/app.js:105-144 | any sequence of cells keeps titles unique |
| `IngestionFacts.CycleKeepsTitlesUnique` | server/app.js:104-145 | if no two records share a title before a cycle, none do after it |
| `IngestionFacts.CycleKeepsExistingRecords` | server/app.js:114-134 | the old store is a prefix of the new one, so its size never decreases; for every title already stored, `findOne` returns the same record as before |
| `IngestionFacts.BatchRecordsCopyRaw` | server/app.js:117-131 | every record a cell adds copies the title, content, author, description, url, urlToImage, publishedAt and source id and name of one of that cell's articles, with the cell's category and country |
| `IngestionFacts.RunRecordsComeFromCells` | server/app.js:105-131 | every record added by a sequence of cells copies an article the provider returned for one of those cells |
| `IngestionFacts.CycleRecordsComeFromCells` | server/app.js:117-131 | every record a cycle adds copies a provider article of some matrix cell; its category and country come from the matrix |
| `IngestionFacts.BatchKeepsEarlierInserts` | server/app.js:107-142 | records inserted before an error in a cell remain; if article j throws, the cell's result is what the first j articles produced |
| `IngestionFacts.FailedCellIsSkipped` | server/app.js:107-142 | a failed cell changes nothing, and the later cells run exactly as if it were absent |
| `IngestionFacts.BatchStoresAllTitles` | server/app.js:113-131 | after a cell whose articles all have a source, every title of the cell is stored |
| `IngestionFacts.CoveredBatchIsNoop` | server/app.js:113-116 | a cell whose titles are all stored adds nothing |
| `IngestionFacts.RunCoversCells` | server/app.js:105-144 | after cells without faults run, every title they returned is stored |
| `IngestionFacts.CoveredRunIsNoop` | server/app.js:105-144 | running cells whose titles are all stored adds nothing |
| `IngestionFacts.CycleIdempotent` | server/app.js:104-145 | when no article lacks `source`, a second cycle with the same provider answers adds no records |
| `IngestionFacts.FaultBreaksIdempotence` | server/app.js:127-129 | without that condition a second cycle with the same provider answers can add records |
| `NewsController.RequestedPage` | server/controllers/newsController.js:25 | `page` is 1 when the request has none, the given page otherwise |
| `NewsController.CategoryQuery` | server/controllers/newsController.js:26-36 | the request has a category filter iff the category is not "general", and the filter is that category; always `language=en`, `pageSize=10` and the requested page |
| `NewsController.QuotaArticle` | server/controllers/newsController.js:57-67 | the stand-in article has the quota title, the request time as `publishedAt`, `#` as url and the placeholder image; it has a description and content but no author and no source |
| `NewsController.FetchNewsByCategory` | server/controllers/newsController.js:23-74 | no articles gives 404 naming the category; otherwise 200 with the articles unchanged, and `nextPage = page + 1` exactly when 10 came back; a 429 gives 200 with one quota article and no next page; any other error gives 500 "Internal Server Error" |
| `NewsController.AllNewsQuery` | server/controllers/newsController.js:78-80 | the request is always page 1 of ten English headlines, with no category or country |
| `NewsController.FetchAllNews` | server/controllers/newsController.js:76-90 | 200 with the provider's `articles` unchanged iff the request succeeds; any error, 429 included, gives 500 with the error's message, or "Failed to fetch all news" when the message is empty |
| `NewsController.GeneralFirstPageIsAllNews` | server/controllers/newsController.js:31-33 | the "general" first-page request equals `fetchAllNews`'s request; both serve the same non-empty list; on a 429 only the category path answers 200 |
| `NewsController.Appended` | server/controllers/newsController.js:13 | the new preference list is the old list as an unchanged prefix followed by the given list, order kept, no deduplication |
| `NewsController.Users.Preferences` | server/controllers/newsController.js:5-21 | a missing user gives 404 and no change; a body without a list gives 500 and no change; otherwise 200, and only that user's list changes, to the appended one |

## Left out

- Server setup: Express and CORS middleware, Firebase Admin, the Mongo connection and server start (server/app.js:1-91, 150-166). This is configuration and I/O.
- The cron schedule (server/app.js:148). One sequential cycle is modelled. Overlapping cycles are a concurrency matter.
- The network and the database. The provider is the function `fetch`, and the collections are in-memory values. Timeouts, retries and failures of `findOne`, `create`, `findById` or `save` are not modelled.
- The textual URL. The request is the structured `Query`, and the API key that every URL ends with is not part of it. The category is interpolated without escaping in the source, which the structured request does not show.
- Console logging in every branch.
- Conversion of the `page` query string (`Number(page)`, NaN): `page` is a natural number.
- The timestamp of the quota article. `new Date().toISOString()` is the parameter `now`.
- `Ingestion.Lookup`: which record `findOne` returns when several match is unspecified. The model returns the first match. The cycle only tests whether one exists.
- Schema validation of the `News` and `User` models. Those model files are not part of this model. A raw article's `title` is always a string.
- `Users.Preferences`: the 500 message when the body has no list is a fixed text, not V8's exact wording. A string body, which JavaScript spreads into single characters, is not modelled.
- The authentication controller, the token middleware, the client components and the route table. They are foreign calls, UI, or a routing table with no logic.
