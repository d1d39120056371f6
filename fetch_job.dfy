/** main.py: one fetch run (watermark lookup, fetch, transform, store, log)
    with the `try`/`except` that turns any exception into an "error" log
    entry. The try block is shared with the cron handler. */
module FetchJob {
  import opened Values
  import opened NewsFetcher
  import opened NewsStorage

  /** A call a run makes on its collaborators, with its arguments. */
  datatype Call =
    | GetWatermark                            // get_last_stored_date()
    | FetchPages(lastStoredDate: Option<string>) // fetch_news_from_tickertape(last_stored_date)
    | Store(batch: seq<Document>)             // store_news(transformed)
    | Log(totalFetched: nat, newlyInserted: nat, status: RunStatus, error: Option<string>) // log_fetch_run(...)
    | Close                                   // close_connection()

  /** `[transform_article(a) for a in raw_articles]`. */
  function TransformAll(raws: seq<RawArticle>, now: Timestamp): seq<Document>
  {
    seq(|raws|, i requires 0 <= i < |raws| => TransformArticle(raws[i], now))
  }

  /** How the try block ends. */
  datatype Completion =
    | NoDataLogged                          // empty fetch, "no_data" logged
    | Stored(fetched: nat, inserted: nat)   // batch stored and "success" logged
    | Failed(error: Exception)              // an exception left the try block

  /** The store state, the calls made, and the way the try block ended. */
  datatype Attempt = Attempt(state: DbState, trace: seq<Call>, completion: Completion)

  /** The "no_data" branch: log (0, 0, "no_data"). */
  function NoDataStep(faults: Faults, s: DbState, now: Timestamp): Attempt
  {
    var (s2, failure) := LogRun(faults, s, LogEntry(now, 0, 0, NoData, None));
    Attempt(s2, [Log(0, 0, NoData, None)], if failure.Some? then Failed(failure.value) else NoDataLogged)
  }

  /** The non-empty branch: transform, store, then log (len(raw), new_count). */
  function StoreStep(faults: Faults, s: DbState, raws: seq<RawArticle>, now: Timestamp): Attempt
  {
    var batch := TransformAll(raws, now);
    var w := StoreNewsSpec(faults, s.articles, batch, now, s.ops);
    var s2 := s.(articles := w.articles, ops := w.ops);
    if w.result.Err? then Attempt(s2, [Store(batch)], Failed(w.result.error))
    else
      var n := w.result.value;
      var (s3, failure) := LogRun(faults, s2, LogEntry(now, |raws|, n, Success, None));
      Attempt(s3, [Store(batch), Log(|raws|, n, Success, None)],
              if failure.Some? then Failed(failure.value) else Stored(|raws|, n))
  }

  /** The try block once the fetch has returned or raised (the calls after
      the first two): a raised exception, an empty result, or a batch to store. */
  function AfterFetch(faults: Faults, s: DbState, fetched: FetchOutcome, now: Timestamp): Attempt
  {
    if fetched.Raised? then Attempt(s, [], Failed(fetched.error))
    else if fetched.articles == [] then NoDataStep(faults, s, now)
    else StoreStep(faults, s, fetched.articles, now)
  }

  /** The try block of a run, as a value. */
  function TryCycle(faults: Faults, s: DbState, api: seq<PageResult>, now: Timestamp): Attempt
  {
    var (s1, looked) := Lookup(faults, s);
    if looked.Err? then Attempt(s1, [GetWatermark], Failed(looked.error))
    else
      var rest := AfterFetch(faults, s1, Fetch(api, looked.value).outcome, now);
      Attempt(rest.state, [GetWatermark, FetchPages(looked.value)] + rest.trace, rest.completion)
  }

  /** What a run leaves: the store state, the calls made, and the exception
      that escapes it (only when logging the error fails too). */
  datatype JobRun = JobRun(state: DbState, trace: seq<Call>, escaped: Option<Exception>)

  /** The error entry the except branch writes for exception `e`. */
  function ErrorLog(e: Exception): Call
  {
    Log(0, 0, Error, Some(Describe(e)))
  }

  /** The except branch of `run_fetch_job()` after the try block ended as `a`. */
  function Recover(faults: Faults, a: Attempt, now: Timestamp): JobRun
  {
    if a.completion.Failed? then
      var e := a.completion.error;
      var (s2, failure) := LogRun(faults, a.state, LogEntry(now, 0, 0, Error, Some(Describe(e))));
      JobRun(s2, a.trace + [ErrorLog(e)], failure)
    else JobRun(a.state, a.trace, None)
  }

  /** `run_fetch_job()` as a value. */
  function RunJob(faults: Faults, s: DbState, api: seq<PageResult>, now: Timestamp): JobRun
  {
    Recover(faults, TryCycle(faults, s, api, now), now)
  }

  /** Store a non-empty fetch result and log the run as "success". */
  method StoreAndLog(db: Database, rawArticles: seq<RawArticle>, now: Timestamp)
    returns (trace: seq<Call>, completion: Completion)
    modifies db
    ensures Attempt(db.State(), trace, completion) == StoreStep(db.faults, old(db.State()), rawArticles, now)
  {
    var transformed := TransformAll(rawArticles, now);
    var batch := new Document[|transformed|](i => if 0 <= i < |transformed| then transformed[i] else map[]);
    assert batch[..] == transformed;
    trace := [Store(transformed)];
    ghost var w := StoreNewsSpec(db.faults, db.articles, transformed, now, db.ops);
    var newCount := db.StoreNews(batch, now);
    assert db.articles == w.articles && db.ops == w.ops && newCount == w.result;
    if newCount.Err? {
      completion := Failed(newCount.error);
      return;
    }
    trace := trace + [Log(|rawArticles|, newCount.value, Success, None)];
    var failure := db.LogFetchRun(|rawArticles|, newCount.value, Success, None, now);
    completion := if failure.Some? then Failed(failure.value) else Stored(|rawArticles|, newCount.value);
  }

  /** The try block after the fetch: log "no_data" for an empty result, else
      store and log "success". */
  method Conclude(db: Database, fetched: FetchOutcome, now: Timestamp)
    returns (trace: seq<Call>, completion: Completion)
    modifies db
    ensures Attempt(db.State(), trace, completion) == AfterFetch(db.faults, old(db.State()), fetched, now)
  {
    if fetched.Raised? {
      return [], Failed(fetched.error);
    }
    if fetched.articles == [] {
      trace := [Log(0, 0, NoData, None)];
      var failure := db.LogFetchRun(0, 0, NoData, None, now);
      completion := if failure.Some? then Failed(failure.value) else NoDataLogged;
    } else {
      trace, completion := StoreAndLog(db, fetched.articles, now);
    }
  }

  /** The try block: the calls of main.py (and of its copy in the cron
      handler), stopping at the first exception. */
  method FetchCycle(db: Database, api: seq<PageResult>, now: Timestamp)
    returns (trace: seq<Call>, completion: Completion)
    modifies db
    ensures Attempt(db.State(), trace, completion) == TryCycle(db.faults, old(db.State()), api, now)
  {
    var lastDate := db.GetLastStoredDate();
    if lastDate.Err? {
      return [GetWatermark], Failed(lastDate.error);
    }
    var fetched, requests := FetchNewsFromTickertape(api, lastDate.value);
    var rest;
    rest, completion := Conclude(db, fetched, now);
    trace := [GetWatermark, FetchPages(lastDate.value)] + rest;
  }

  /** `run_fetch_job()`: the try block, then the except branch logging the error. */
  method RunFetchJob(db: Database, api: seq<PageResult>, now: Timestamp)
    returns (trace: seq<Call>, escaped: Option<Exception>)
    modifies db
    ensures JobRun(db.State(), trace, escaped) == RunJob(db.faults, old(db.State()), api, now)
  {
    var completion;
    trace, completion := FetchCycle(db, api, now);
    escaped := None;
    if completion.Failed? {
      var message := Describe(completion.error);
      trace := trace + [Log(0, 0, Error, Some(message))];
      escaped := db.LogFetchRun(0, 0, Error, Some(message), now);
    }
  }

  /** The one-shot entry point: a run, then `close_connection()`, which an
      exception escaping the run skips. */
  method RunOnce(db: Database, api: seq<PageResult>, now: Timestamp)
    returns (trace: seq<Call>, escaped: Option<Exception>)
    modifies db
    ensures var r := RunJob(db.faults, old(db.State()), api, now);
      escaped == r.escaped &&
      if r.escaped.None? then db.State() == r.state.(closes := r.state.closes + 1) && trace == r.trace + [Close]
      else db.State() == r.state && trace == r.trace
  {
    trace, escaped := RunFetchJob(db, api, now);
    if escaped.None? {
      db.CloseConnection();
      trace := trace + [Close];
    }
  }

  // ---------------------------------------------------------------------------
  // Properties of a run

  /** The log entry a completed try block has written. */
  function EntriesLogged(c: Completion, now: Timestamp): seq<LogEntry>
  {
    match c
    case NoDataLogged => [LogEntry(now, 0, 0, NoData, None)]
    case Stored(fetched, inserted) => [LogEntry(now, fetched, inserted, Success, None)]
    case Failed(_) => []
  }

  /** What every part of the try block guarantees: no close, a log call only
      as the last call, and exactly the entry of its completion written, whose
      newly_inserted is the number of articles the block appended and at most
      total_fetched. */
  predicate LogsOnceAtEnd(s: DbState, a: Attempt, now: Timestamp)
  {
    && Close !in a.trace
    && (forall i :: 0 <= i < |a.trace| - 1 ==> !a.trace[i].Log?)
    && a.state.closes == s.closes
    && a.state.logs == s.logs + EntriesLogged(a.completion, now)
    && (a.completion.Stored? ==>
          && a.completion.inserted <= a.completion.fetched
          && |s.articles| <= |a.state.articles|
          && a.completion.inserted == |a.state.articles| - |s.articles|)
  }

  lemma StoreStepLogsOnce(faults: Faults, s: DbState, raws: seq<RawArticle>, now: Timestamp)
    ensures var a := StoreStep(faults, s, raws, now);
      && LogsOnceAtEnd(s, a, now)
      && 1 <= |a.trace| <= 2
      && a.trace[0] == Store(TransformAll(raws, now))
      && (|a.trace| == 2 ==>
            |s.articles| <= |a.state.articles| &&
            a.trace[1] == Log(|raws|, |a.state.articles| - |s.articles|, Success, None))
      && (a.completion.Stored? ==> a.completion.fetched == |raws| && |a.trace| == 2)
  {
    var w := StoreNewsSpec(faults, s.articles, TransformAll(raws, now), now, s.ops);
    assert w.result.Ok? ==> w.result.value <= |raws|;
  }

  /** The try block after the fetch, branch by branch: an exception changes
      nothing further; an empty result logs (0, 0, "no_data") and stores
      nothing; a non-empty one stores the transformed articles and then logs
      (len(raw), new_count). */
  lemma AfterFetchBranches(faults: Faults, s: DbState, fetched: FetchOutcome, now: Timestamp)
    ensures var a := AfterFetch(faults, s, fetched, now);
      && LogsOnceAtEnd(s, a, now)
      && |a.trace| <= 2
      && (fetched.Raised? ==> a == Attempt(s, [], Failed(fetched.error)))
      && (fetched.Fetched? && fetched.articles == [] ==>
            a.trace == [Log(0, 0, NoData, None)] && a.state.articles == s.articles)
      && (fetched.Fetched? && fetched.articles != [] ==>
            && 1 <= |a.trace|
            && a.trace[0] == Store(TransformAll(fetched.articles, now))
            && (|a.trace| == 2 ==> a.trace[1].status == Success && a.trace[1].totalFetched == |fetched.articles|)
            && (a.completion.Stored? ==> a.completion.fetched == |fetched.articles| && |a.trace| == 2))
  {
    if fetched.Fetched? && fetched.articles != [] {
      StoreStepLogsOnce(faults, s, fetched.articles, now);
    }
  }

  /** The try block never closes the connection, only its last call can be a
      log call, and it writes exactly the entry of its completion. */
  lemma TryCycleTrace(faults: Faults, s: DbState, api: seq<PageResult>, now: Timestamp)
    ensures var a := TryCycle(faults, s, api, now);
      && 1 <= |a.trace| <= 4
      && LogsOnceAtEnd(s, a, now)
      && (a.trace[|a.trace| - 1].Log? && a.trace[|a.trace| - 1].status == Success ==> |a.trace| == 4)
  {
    var (s1, looked) := Lookup(faults, s);
    if looked.Ok? {
      var fetched := Fetch(api, looked.value).outcome;
      AfterFetchBranches(faults, s1, fetched, now);
      var rest := AfterFetch(faults, s1, fetched, now);
      var a := TryCycle(faults, s, api, now);
      assert a.trace == [GetWatermark, FetchPages(looked.value)] + rest.trace;
      forall i | 0 <= i < |a.trace| - 1 ensures !a.trace[i].Log? {
        if i >= 2 { assert a.trace[i] == rest.trace[i - 2]; }
      }
    }
  }

  /** The watermark the store reports is the one handed to the fetcher. */
  lemma WatermarkGoesToFetcher(faults: Faults, s: DbState, api: seq<PageResult>, now: Timestamp)
    requires s.ops !in faults
    ensures var r := RunJob(faults, s, api, now);
      |r.trace| >= 2 && r.trace[0] == GetWatermark && r.trace[1] == FetchPages(LastStoredDate(s.articles))
  {
  }

  /** The try block: an empty fetch logs (0, 0, "no_data") and never stores;
      a non-empty one stores the transformed articles, one per raw article in
      order, and logs (len(raw), new_count) with new_count <= len(raw). */
  lemma TryCycleBranches(faults: Faults, s: DbState, api: seq<PageResult>, now: Timestamp)
    requires s.ops !in faults
    requires Fetch(api, LastStoredDate(s.articles)).outcome.Fetched?
    ensures var w := LastStoredDate(s.articles);
      var raws := Fetch(api, w).outcome.articles;
      var a := TryCycle(faults, s, api, now);
      && (raws == [] ==>
            && a.trace == [GetWatermark, FetchPages(w), Log(0, 0, NoData, None)]
            && a.state.articles == s.articles
            && (a.completion.Failed? || a.state.logs == s.logs + [LogEntry(now, 0, 0, NoData, None)]))
      && (raws != [] ==>
            && |a.trace| >= 3
            && a.trace[..3] == [GetWatermark, FetchPages(w), Store(TransformAll(raws, now))]
            && (a.completion.Stored? ==>
                  && |s.articles| <= |a.state.articles|
                  && var added := |a.state.articles| - |s.articles|;
                  && a.completion == Stored(|raws|, added) && added <= |raws|
                  && a.trace == [GetWatermark, FetchPages(w), Store(TransformAll(raws, now)),
                                 Log(|raws|, added, Success, None)]
                  && a.state.logs == s.logs + [LogEntry(now, |raws|, added, Success, None)]))
  {
    var w := LastStoredDate(s.articles);
    var fetched := Fetch(api, w).outcome;
    var s1 := s.(ops := s.ops + 1);
    AfterFetchBranches(faults, s1, fetched, now);
    var rest := AfterFetch(faults, s1, fetched, now);
    var a := TryCycle(faults, s, api, now);
    assert a == Attempt(rest.state, [GetWatermark, FetchPages(w)] + rest.trace, rest.completion);
  }

  /** The except branch on any try block that keeps `LogsOnceAtEnd`. */
  lemma RecoverLogsOnce(faults: Faults, s: DbState, a: Attempt, now: Timestamp)
    requires LogsOnceAtEnd(s, a, now) && a.trace != []
    ensures var r := Recover(faults, a, now);
      && |s.logs| <= |r.state.logs| && r.state.logs[..|s.logs|] == s.logs
      && |r.state.logs| == |s.logs| + (if r.escaped.None? then 1 else 0)
      && (forall i :: |s.logs| <= i < |r.state.logs| ==>
            r.state.logs[i].newlyInserted <= r.state.logs[i].totalFetched &&
            (r.state.logs[i].status != Success ==> r.state.logs[i].totalFetched == 0))
      && (r.escaped.Some? ==> a.completion.Failed? && r.trace[|r.trace| - 1] == ErrorLog(a.completion.error))
      && (!a.completion.Failed? ==> r == JobRun(a.state, a.trace, None))
      && (a.completion.Failed? ==>
            && r.trace == a.trace + [ErrorLog(a.completion.error)]
            && r.state.articles == a.state.articles
            && (r.escaped.None? ==>
                  r.state.logs == a.state.logs + [LogEntry(now, 0, 0, Error, Some(Describe(a.completion.error)))]))
  {
  }

  /** Every run writes at most one log entry, and exactly one unless an
      exception escapes; an exception escapes only when the error entry of the
      except branch cannot be written. Every entry keeps
      newly_inserted <= total_fetched, and "no_data" and "error" entries
      carry zero counts. */
  lemma RunLogsOnce(faults: Faults, s: DbState, api: seq<PageResult>, now: Timestamp)
    ensures var r := RunJob(faults, s, api, now);
      && |s.logs| <= |r.state.logs| && r.state.logs[..|s.logs|] == s.logs
      && |r.state.logs| == |s.logs| + (if r.escaped.None? then 1 else 0)
      && (forall i :: |s.logs| <= i < |r.state.logs| ==>
            r.state.logs[i].newlyInserted <= r.state.logs[i].totalFetched &&
            (r.state.logs[i].status != Success ==> r.state.logs[i].totalFetched == 0))
      && (r.escaped.Some? ==> TryCycle(faults, s, api, now).completion.Failed? && r.trace[|r.trace| - 1].Log? &&
                              r.trace[|r.trace| - 1].status == Error)
  {
    TryCycleTrace(faults, s, api, now);
    RecoverLogsOnce(faults, s, TryCycle(faults, s, api, now), now);
  }

  /** An exception anywhere in the try block is not re-raised: it is logged as
      (0, 0, "error", str(e)) whenever that entry can be written. */
  lemma FailuresAreLoggedAsError(faults: Faults, s: DbState, api: seq<PageResult>, now: Timestamp)
    requires var a := TryCycle(faults, s, api, now); a.completion.Failed? && a.state.ops !in faults
    ensures var a := TryCycle(faults, s, api, now);
      var r := RunJob(faults, s, api, now);
      && r.escaped == None
      && r.trace == a.trace + [Log(0, 0, Error, Some(Describe(a.completion.error)))]
      && r.state.logs == a.state.logs + [LogEntry(now, 0, 0, Error, Some(Describe(a.completion.error)))]
  {
  }

  /** A failing "success" log entry does not end the run: the except branch
      tries a second, "error", log entry. */
  lemma FailedSuccessLogIsRetriedAsError(faults: Faults, s: DbState, api: seq<PageResult>, now: Timestamp)
    requires var a := TryCycle(faults, s, api, now);
      a.completion.Failed? && a.trace[|a.trace| - 1].Log? && a.trace[|a.trace| - 1].status == Success
    ensures var a := TryCycle(faults, s, api, now);
      var r := RunJob(faults, s, api, now);
      && |r.trace| == 5
      && r.trace[..4] == a.trace
      && r.trace[3].Log? && r.trace[3].status == Success
      && r.trace[4] == ErrorLog(a.completion.error)
      && r.state.logs[..|s.logs|] == s.logs
      && |r.state.logs| <= |s.logs| + 1
  {
    TryCycleTrace(faults, s, api, now);
  }

  /** A first page that fails or is empty leads to a "no_data" run, not an
      "error" run: no article is stored and the entry (0, 0, "no_data") is
      logged. */
  lemma FirstPageLostMeansNoData(faults: Faults, s: DbState, api: seq<PageResult>, now: Timestamp)
    requires NoFaults(faults, s.ops, s.ops + 2)
    requires Respond(api, 0) == RequestFailed || Respond(api, 0) == Page([])
    ensures var r := RunJob(faults, s, api, now);
      && r.escaped == None
      && r.state.articles == s.articles
      && r.state.logs == s.logs + [LogEntry(now, 0, 0, NoData, None)]
      && (forall c | c in r.trace :: !c.Store?)
  {
    var w := LastStoredDate(s.articles);
    assert s.ops !in faults && s.ops + 1 !in faults;
    if Respond(api, 0) == RequestFailed {
      FailureEndsPagination(api, w, 0);
    } else {
      EmptyPageEndsPagination(api, w, 0);
    }
    assert Fetch(api, w).outcome == Fetched([]);
    assert RunJob(faults, s, api, now).trace == [GetWatermark, FetchPages(w), Log(0, 0, NoData, None)];
  }

  /** Transformed articles never carry a url, so under the store's "a missing
      field matches null" rule a run inserts at most one article, and none at
      all once the collection holds a document without a url. */
  lemma RunInsertsAtMostOneArticle(faults: Faults, s: DbState, api: seq<PageResult>, now: Timestamp)
    ensures var r := RunJob(faults, s, api, now);
      |r.state.articles| <= |s.articles| + 1 &&
      (Null in Keys(s.articles) ==> r.state.articles == s.articles)
  {
    var (s1, looked) := Lookup(faults, s);
    if looked.Ok? {
      var fetched := Fetch(api, looked.value).outcome;
      if fetched.Fetched? && fetched.articles != [] {
        var batch := TransformAll(fetched.articles, now);
        forall j | 0 <= j < |batch| ensures UrlOf(batch[j]) == Null {
          TransformArticleSchema(fetched.articles[j], now);
        }
        UrllessBatchInsertsAtMostOne(faults, s1.articles, batch, now, s1.ops);
      }
    }
  }
}
