# news_automation, modelled in Dafny

news_automation keeps a MongoDB collection of market news up to date. Each
run does four things:

- It asks the store for the date of the newest stored article (the
  *watermark*).
- It pages through the Ticker Tape news API, ten articles per request, until
  it reaches articles at or before the watermark. The number of requests is
  capped at 500.
- It maps each raw record to the stored schema and inserts the articles whose
  `url` is not stored yet. This is a check-then-insert per article.
- It appends one entry to the run log: "success", "no_data" or "error".

The run is started by `main.py` or by the cron HTTP handler `api/cron.py`.
The handler first checks a bearer secret. It answers 200 or 500 with a JSON
body, and always closes the connection once the request is authorized.

The model has six modules, one file each:

| file | module | models |
|---|---|---|
| `values.dfy` | `Values` | JSON-like values, documents, the exceptions and `str(e)` |
| `string_order.dfy` | `StringOrder` | Python's ordering of `str` (Dafny's `<=` on sequences means "prefix") |
| `news_fetcher.dfy` | `NewsFetcher` | the pagination loop and `transform_article` |
| `news_storage.dfy` | `NewsStorage` | the watermark query, the dedup writer and `log_fetch_run`, with the store as a class |
| `fetch_job.dfy` | `FetchJob` | `run_fetch_job` and the one-shot entry point of `main.py` |
| `cron.dfy` | `CronHandler` | `handler.do_GET` |

Each imperative operation is a method whose postcondition equates its result
or new state with a pure function. The properties are lemmas about those
functions. Two points about the modelling choices:

- **The remote API** is a `seq<PageResult>`. Element k is what the request
  for page k returns: a request failure, a malformed body, or a list of
  records.
- **The document store** is the class `NewsStorage.Database`. It holds the
  two collections, a counter of attempted store operations and a counter of
  closes. A fixed fault schedule `faults` (operation index ↦ exception) says
  which `find_one` or `insert_one` raises. A store call that raises has had
  no effect.

One consequence of the code as written is proved rather than assumed:

- `transform_article` drops `url`, so every stored article lacks the dedup
  key.
- MongoDB lets a missing field match `{"url": None}`.
- Therefore `store_news` called on transformed articles inserts at most one
  article. Once any url-less document is stored, it inserts none
  (`NewsStorage.UrllessBatchInsertsAtMostOne`,
  `FetchJob.RunInsertsAtMostOneArticle`).

The docstring of `store_news` promises a fallback to the title when there
is no url. The code has no such fallback, and the model follows the code.

## Model

| member | source | states |
|---|---|---|
| `StringOrder.LessTrichotomy` | services/news_fetcher.py:48 | two distinct strings are ordered one way or the other under Python's lexicographic order |
| `StringOrder.LessEqTotal` | services/news_fetcher.py:48 | `<=` on strings is total, and `not a <= b` is exactly `b < a` |
| `StringOrder.LessEqTransitive` | services/news_fetcher.py:47-48 | `<=` on strings is transitive, as `min` over the page's dates needs |
| `NewsFetcher.Requests` | services/news_fetcher.py:20-27 | request k asks for 10 articles at offset 10·k, with `sids` "" and `type` "news" |
| `NewsFetcher.OldestDateIsLeast` | services/news_fetcher.py:47-48 | the page minimum raises a TypeError exactly when some date is not a string; otherwise it is some article's date and `<=` every date |
| `NewsFetcher.FetchFrom` | services/news_fetcher.py:20-53 | a fetch from page k makes at least one and at most 500 − k more requests |
| `NewsFetcher.FetchNewsFromTickertape` | services/news_fetcher.py:9-56 | the loop returns exactly the outcome of the stopping rules `Fetch`, after requests 0, 1, … in order |
| `NewsFetcher.FetchFromHalts` | services/news_fetcher.py:29-53 | a page that does not go on ends the fetch: it raises exactly when the page raises, else it returns that page |
| `NewsFetcher.FetchFromShape` | services/news_fetcher.py:20-53 | every page but the last went on; the last stopped unless the cap was hit; the result is the pages received, or the last page's exception |
| `NewsFetcher.FetchShape` | services/news_fetcher.py:9-56 | the same from page 0, with between 1 and 500 requests |
| `NewsFetcher.StopsAtFirstHalt` | services/news_fetcher.py:20-53 | the first page that does not go on is the last page requested, and the result is every page up to and including it |
| `NewsFetcher.FailureEndsPagination` | services/news_fetcher.py:29-36 | a failed request ends pagination and returns what was gathered before it |
| `NewsFetcher.EmptyPageEndsPagination` | services/news_fetcher.py:38-40 | an empty page ends pagination and adds nothing |
| `NewsFetcher.MalformedBodyPropagates` | services/news_fetcher.py:32-34 | a body without `data.news` is not swallowed; its exception is the outcome |
| `NewsFetcher.CaughtUpPageIsLastAndIncluded` | services/news_fetcher.py:42-50 | the first page whose oldest date is `<=` the watermark is the last one requested, and it is kept |
| `NewsFetcher.ColdStartFetchesOnePage` | services/news_fetcher.py:51-53 | without a truthy watermark exactly one page is requested, and its articles are the result |
| `NewsFetcher.EarlierPagesWereNewer` | services/news_fetcher.py:45-50 | every page before the last one had its oldest date strictly after the watermark |
| `NewsFetcher.TransformArticleSchema` | services/news_fetcher.py:59-72 | a transformed article has exactly the seven schema fields and no `url`; text fields default to "", `stocks` to [], and `fetched_at` is the run's time |
| `NewsFetcher.TransformReadsOnlySchemaFields` | services/news_fetcher.py:64-72 | two raw records that agree on the schema fields transform to the same article |
| `NewsStorage.LastStoredDate` | services/news_storage.py:11-15 | the watermark is never the empty string |
| `NewsStorage.LastStoredDateIsGreatest` | services/news_storage.py:5-20 | the watermark is None exactly when no document has a non-empty string date; otherwise it is some document's date and `>=` every such date |
| `NewsStorage.Database.GetLastStoredDate` | services/news_storage.py:5-20 | one store operation; it either raises the scheduled fault or returns the greatest stored date |
| `NewsStorage.MatchesUrlIffSameKey` | services/news_storage.py:38-40 | a document matches `{"url": article.get("url")}` exactly when it has the same key, counting a missing `url` as None |
| `NewsStorage.FindOneFindsMatch` | services/news_storage.py:40 | `find_one` finds nothing exactly when no document matches, and what it finds is a stored document that matches |
| `NewsStorage.FindOneIffKeyPresent` | services/news_storage.py:38-42 | an article counts as existing exactly when its key is among the stored keys |
| `NewsStorage.Database.FindByUrl` | services/news_storage.py:40 | one store operation; it raises the scheduled fault or returns the first match |
| `NewsStorage.Database.InsertArticle` | services/news_storage.py:44 | one store operation; on success it appends exactly the document |
| `NewsStorage.Stamp` | services/news_storage.py:43 | setting `stored_at` keeps the dedup key |
| `NewsStorage.WriteFrom` | services/news_storage.py:36-45 | the loop only appends to the collection, and its count is the number of documents it appended |
| `NewsStorage.NewArticlesKeys` | services/news_storage.py:36-45 | the reference set of new articles has keys not stored before, distinct from each other, covering every key of the batch |
| `NewsStorage.NothingNewWhenKeysKnown` | services/news_storage.py:38-42 | a batch whose keys are all stored has no new article |
| `NewsStorage.OnlyFirstOfSameKeyIsNew` | services/news_storage.py:38-45 | of several articles of one batch sharing a key, only the first can be new |
| `NewsStorage.WriteFromFaultFree` | services/news_storage.py:36-45 | with no fault, the loop from article i on finishes what the reference prescribes for the whole batch |
| `NewsStorage.StoreNewsFaultFree` | services/news_storage.py:23-48 | with no fault, `store_news` appends exactly the new articles, stamped and in batch order; it stamps exactly those in the batch and returns their number |
| `NewsStorage.StoreNewsTwiceInsertsNothing` | services/news_storage.py:23-48 | storing again a batch whose keys were all stored inserts nothing and changes nothing |
| `NewsStorage.WriteFromAppendsFresh` | services/news_storage.py:36-45 | whatever fails, each appended document has a key no earlier document has |
| `NewsStorage.WriteFromAppendsBatchKeys` | services/news_storage.py:36-45 | whatever fails, each appended document has the key of some article of the batch |
| `NewsStorage.StoreNewsKeepsKeysDistinct` | services/news_storage.py:23-48 | whatever fails, `store_news` appends only unseen keys of the batch, and keeps a collection free of repeated keys |
| `NewsStorage.UrllessBatchInsertsAtMostOne` | services/news_storage.py:38-45 | a batch without urls inserts at most one article, and none once a url-less document is stored |
| `NewsStorage.Database.StoreOne` | services/news_storage.py:38-45 | one loop pass either stops with the failing operation's exception, or leaves the rest to the loop from the next article |
| `NewsStorage.Database.StoreNews` | services/news_storage.py:23-48 | the method's collection, stamped batch, operation count and result are those of `StoreNewsSpec`; an empty batch returns 0 and touches nothing |
| `NewsStorage.Database.LogFetchRun` | services/news_storage.py:51-63 | one store operation; on success it appends exactly the entry, and on failure the log is unchanged |
| `NewsStorage.Database.CloseConnection` | api/cron.py:58-59 | each close is counted |
| `FetchJob.StoreStepLogsOnce` | main.py:30-36 | storing then logging calls `store_news` with the transformed batch first, then logs (len(raw), new_count) as "success", where new_count is the number of articles the store appended, at most len(raw) |
| `FetchJob.AfterFetchBranches` | main.py:25-36 | after the fetch: an exception changes nothing; an empty result logs (0, 0, "no_data") and stores nothing; otherwise the transformed batch is stored, then logged |
| `FetchJob.TryCycleTrace` | main.py:18-36 | the try block never closes, logs only as its last call, and writes exactly the entry of the branch it completed |
| `FetchJob.WatermarkGoesToFetcher` | main.py:20-23 | the watermark the store reports is the argument of the fetch |
| `FetchJob.TryCycleBranches` | main.py:25-36 | the exact calls and log entries of the "no_data" and "success" branches; the success entry's newly_inserted is the number of articles appended |
| `FetchJob.RecoverLogsOnce` | main.py:40-42 | after a completed try block the except branch does nothing; after an exception it calls the error log, and when that write succeeds the log gains exactly (0, 0, "error", str(e)) |
| `FetchJob.RunLogsOnce` | main.py:12-42 | a run writes exactly one log entry unless an exception escapes; every entry has newly_inserted ≤ total_fetched, and "no_data" and "error" entries have zero counts |
| `FetchJob.FailuresAreLoggedAsError` | main.py:40-42 | an exception in the try block is not re-raised; it is logged as (0, 0, "error", str(e)) |
| `FetchJob.FailedSuccessLogIsRetriedAsError` | main.py:36-42 | when the "success" entry cannot be written, a second, "error", entry is attempted |
| `FetchJob.FirstPageLostMeansNoData` | main.py:23-27 | a failed or empty first page gives a "no_data" run, not an "error" run, and `store_news` is never called |
| `FetchJob.RunInsertsAtMostOneArticle` | main.py:30-33 | a run inserts at most one article, and none once a url-less document is stored |
| `FetchJob.StoreAndLog` | main.py:29-36 | the method does what `StoreStep` specifies, storing the batch through an array stamped in place |
| `FetchJob.Conclude` | main.py:25-36 | the method does what `AfterFetch` specifies |
| `FetchJob.FetchCycle` | main.py:18-36 | the method's calls, new store state and completion are those of `TryCycle` |
| `FetchJob.RunFetchJob` | main.py:12-42 | the method's calls, new store state and escaping exception are those of `RunJob` |
| `FetchJob.RunOnce` | main.py:45-47 | a run, followed by a close only when the run did not raise |
| `CronHandler.AuthorizedIff` | api/cron.py:17-19 | an unset or empty secret admits every request; a set one admits exactly the header `Bearer <secret>` |
| `CronHandler.BareSecretIsRejected` | api/cron.py:19 | with a secret set, a missing header or the bare secret is rejected |
| `CronHandler.UnauthorizedTouchesNothing` | api/cron.py:19-24 | a rejected request answers 401 and makes no call, no log entry and no close |
| `CronHandler.FinishClosesOnce` | api/cron.py:58-59 | after a try block that did not close, the handler closes exactly once, as its last call |
| `CronHandler.AuthorizedClosesOnce` | api/cron.py:26-59 | an authorized request closes exactly once, as its last call, whatever fails |
| `CronHandler.FinishResponds` | api/cron.py:30-56 | the response follows the outcome: 200 "no_data", 200 "success" whose new_articles is the number of articles appended, or 500 with str(e); none when the error cannot be logged |
| `CronHandler.ResponseFollowsOutcome` | api/cron.py:30-56 | the same for a whole request, with the log holding that branch's entry and new_articles equal to the articles the request appended |
| `CronHandler.FinishAgreesWithRecover` | api/cron.py:50-59 | apart from the close, the handler's except branch is that of `run_fetch_job` |
| `CronHandler.HandlerAgreesWithFetchRun` | api/cron.py:26-59 | an authorized request leaves the store as a fetch run does, plus one close |
| `CronHandler.Answer` | api/cron.py:30-59 | the method does what `Finish` specifies |
| `CronHandler.DoGet` | api/cron.py:16-59 | the method's response, calls, new store state and escaping exception are those of `HandleGet` |

## Left out

- The HTTP client, the clock, the environment and the request headers are not modelled. They become parameters: `api`, `now`, `cronSecret` and `authorization`.
- One `now` serves a whole call. It stands for `fetched_at`, `stored_at`, the log timestamp and the response timestamp, which the source reads from separate `datetime.now()` calls.
- The connection module `db/Connection.py` is not part of this model. That covers its singleton client, liveness ping, environment-based configuration and reconnect behaviour. A failing `get_collection` shows up as a fault of the store operation that follows it, and `close_connection` is only counted.
- `scheduler.py` is not part of this model.
- JSON decoding is not modelled. The model assumes requests 2.27 or later, where an undecodable response body raises a subclass of `requests.exceptions.RequestException`, so it is a `RequestFailed` page. With older versions `response.json()` raises a `ValueError` that escapes the fetch, and the run would be logged as "error". `data.news` that is null is an empty page.
- Page elements are assumed to be JSON objects. A `data.news` that is not a list, and elements that are not objects, are not modelled.
- Values.Describe: `str` of a KeyError is modelled as the key between single quotes. Python uses `repr(key)`, which differs for keys holding a quote or a backslash. The body lookup at services/news_fetcher.py:33 only raises it for `data` and `news`, where both agree.
- NewsFetcher.OldestDate: the message text of the TypeError (`DATE_NOT_COMPARABLE`) is not Python's exact wording. The condition under which it is raised is modelled exactly: some date on the page is not a string.
- NewsStorage.LastStoredDate: only non-empty string dates are considered. MongoDB's ordering across BSON types and collation-specific string ordering are not modelled.
- NewsStorage.Database.InsertArticle: the `_id` field that `insert_one` adds to the inserted dictionary is not modelled.
- A store write that takes effect on the server and then raises (an `AutoReconnect` after the request was sent, a `WriteConcernError` or `WTimeoutError`) is not modelled; every fault leaves the collections unchanged. With such faults an article could stay stored in a run logged as "error", and a "success" entry written at main.py:36 could be followed by a second, "error", entry, which `FetchJob.RunLogsOnce` rules out for the model.
- Two runs at once, racing on the check-then-insert, are not modelled. The model is sequential.
- All `print` output is not modelled.
- The HTTP response framing is not modelled: headers, JSON encoding of the body, ISO formatting of the timestamp. A failure while writing the response is not modelled either.
- Exceptions raised by `close_connection` itself, and exceptions that are not `Exception` subclasses (`KeyboardInterrupt`), are not modelled.

## Findings

None. The missing `url` in the transformed schema is described above. It is a known gap with no agreed fix, so the model keeps the code's behaviour and proves its consequence.
