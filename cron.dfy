/** api/cron.py: the HTTP GET handler a scheduler calls. It checks the
    bearer secret, runs the same try block as a fetch run, answers with a
    status code and a JSON body, and always closes the connection once the
    request is authorized. */
module CronHandler {
  import opened Values
  import opened NewsFetcher
  import opened NewsStorage
  import opened FetchJob

  /** The JSON bodies the handler writes, one per branch. */
  datatype Body =
    | UnauthorizedBody                                                // {"error": "Unauthorized"}
    | NoDataBody(message: string, timestamp: Timestamp)               // {"status": "no_data", ...}
    | SuccessBody(fetched: nat, newArticles: nat, timestamp: Timestamp) // {"status": "success", ...}
    | ErrorBody(error: string, timestamp: Timestamp)                  // {"status": "error", ...}

  datatype Response = Response(code: nat, body: Body)

  const NO_DATA_MESSAGE: string := "No new articles found"

  /** The request may go on unless CRON_SECRET is set to a non-empty value and
      the Authorization header is not exactly "Bearer " followed by it. An
      absent header is `None`. */
  predicate Authorized(cronSecret: Option<string>, authorization: Option<string>)
  {
    !(cronSecret.Some? && cronSecret.value != "" && authorization != Some("Bearer " + cronSecret.value))
  }

  /** The store state, the calls made, the response written (none when an
      exception escapes the handler) and the escaping exception. */
  datatype Handled = Handled(state: DbState, trace: seq<Call>, response: Option<Response>, escaped: Option<Exception>)

  /** The handler once its try block ended as `a`: the response of the
      branch taken (after logging the error in the except branch), then the
      close of the `finally` clause. */
  function Finish(faults: Faults, a: Attempt, now: Timestamp): Handled
  {
    match a.completion
    case NoDataLogged =>
      Handled(a.state.(closes := a.state.closes + 1), a.trace + [Close],
              Some(Response(200, NoDataBody(NO_DATA_MESSAGE, now))), None)
    case Stored(fetched, inserted) =>
      Handled(a.state.(closes := a.state.closes + 1), a.trace + [Close],
              Some(Response(200, SuccessBody(fetched, inserted, now))), None)
    case Failed(e) =>
      var (s2, failure) := LogRun(faults, a.state, LogEntry(now, 0, 0, Error, Some(Describe(e))));
      Handled(s2.(closes := s2.closes + 1), a.trace + [ErrorLog(e), Close],
              if failure.Some? then None else Some(Response(500, ErrorBody(Describe(e), now))),
              failure)
  }

  /** `handler.do_GET` as a value. */
  function HandleGet(faults: Faults, s: DbState, api: seq<PageResult>,
                     cronSecret: Option<string>, authorization: Option<string>, now: Timestamp): Handled
  {
    if !Authorized(cronSecret, authorization) then
      Handled(s, [], Some(Response(401, UnauthorizedBody)), None)
    else Finish(faults, TryCycle(faults, s, api, now), now)
  }

  /** The response, the except branch and the `finally` clause after a try
      block that made the calls `tried` and ended with `completion`. */
  method Answer(db: Database, tried: seq<Call>, completion: Completion, now: Timestamp)
    returns (response: Option<Response>, trace: seq<Call>, escaped: Option<Exception>)
    modifies db
    ensures Handled(db.State(), trace, response, escaped) ==
            Finish(db.faults, Attempt(old(db.State()), tried, completion), now)
  {
    trace := tried;
    escaped := None;
    match completion {
      case NoDataLogged =>
        response := Some(Response(200, NoDataBody(NO_DATA_MESSAGE, now)));
      case Stored(fetched, inserted) =>
        response := Some(Response(200, SuccessBody(fetched, inserted, now)));
      case Failed(e) =>
        var message := Describe(e);
        trace := trace + [Log(0, 0, Error, Some(message))];
        escaped := db.LogFetchRun(0, 0, Error, Some(message), now);
        response := if escaped.Some? then None else Some(Response(500, ErrorBody(message, now)));
    }
    db.CloseConnection();
    trace := trace + [Close];
  }

  /** `handler.do_GET`: authorize, run the try block, answer, and close the
      connection in the `finally` clause. */
  method DoGet(db: Database, api: seq<PageResult>, cronSecret: Option<string>,
               authorization: Option<string>, now: Timestamp)
    returns (response: Option<Response>, trace: seq<Call>, escaped: Option<Exception>)
    modifies db
    ensures Handled(db.State(), trace, response, escaped) ==
            HandleGet(db.faults, old(db.State()), api, cronSecret, authorization, now)
  {
    if cronSecret.Some? && cronSecret.value != "" && authorization != Some("Bearer " + cronSecret.value) {
      return Some(Response(401, UnauthorizedBody)), [], None;
    }
    var tried, completion := FetchCycle(db, api, now);
    response, trace, escaped := Answer(db, tried, completion, now);
  }

  // ---------------------------------------------------------------------------
  // Properties of the handler

  /** An unset or empty secret lets every request through; a set one lets
      through exactly the matching bearer header. */
  lemma AuthorizedIff(cronSecret: Option<string>, authorization: Option<string>)
    ensures cronSecret.None? || cronSecret.value == "" ==> Authorized(cronSecret, authorization)
    ensures cronSecret.Some? && cronSecret.value != "" ==>
      (Authorized(cronSecret, authorization) <==> authorization == Some("Bearer " + cronSecret.value))
  {
  }

  /** A secret that is set is never matched by a missing header or by the
      bare secret without its "Bearer " prefix. */
  lemma BareSecretIsRejected(secret: string)
    requires secret != ""
    ensures !Authorized(Some(secret), None)
    ensures !Authorized(Some(secret), Some(secret))
  {
    assert |"Bearer " + secret| != |secret|;
  }

  /** A rejected request answers 401 and touches nothing: no call on the
      store or the API, no log entry, no close. */
  lemma UnauthorizedTouchesNothing(faults: Faults, s: DbState, api: seq<PageResult>,
                                   cronSecret: Option<string>, authorization: Option<string>, now: Timestamp)
    requires !Authorized(cronSecret, authorization)
    ensures var h := HandleGet(faults, s, api, cronSecret, authorization, now);
      h.state == s && h.trace == [] && h.response == Some(Response(401, UnauthorizedBody)) && h.escaped == None
  {
  }

  /** After any try block that did not close the connection, the handler
      closes it exactly once, as its last call. */
  lemma FinishClosesOnce(faults: Faults, a: Attempt, now: Timestamp)
    requires Close !in a.trace
    ensures var h := Finish(faults, a, now);
      && multiset(h.trace)[Close] == 1
      && h.trace[|h.trace| - 1] == Close
      && h.state.closes == a.state.closes + 1
  {
    var h := Finish(faults, a, now);
    var tail := if a.completion.Failed? then [ErrorLog(a.completion.error), Close] else [Close];
    assert h.trace == a.trace + tail;
    assert multiset(a.trace)[Close] == 0;
    assert multiset(h.trace) == multiset(a.trace) + multiset(tail);
  }

  /** An authorized request closes the connection exactly once, as its last
      call, whatever happens in the try block or the except branch. */
  lemma AuthorizedClosesOnce(faults: Faults, s: DbState, api: seq<PageResult>,
                             cronSecret: Option<string>, authorization: Option<string>, now: Timestamp)
    requires Authorized(cronSecret, authorization)
    ensures var h := HandleGet(faults, s, api, cronSecret, authorization, now);
      && multiset(h.trace)[Close] == 1
      && h.trace[|h.trace| - 1] == Close
      && h.state.closes == s.closes + 1
  {
    TryCycleTrace(faults, s, api, now);
    FinishClosesOnce(faults, TryCycle(faults, s, api, now), now);
  }

  /** After a try block that keeps `LogsOnceAtEnd`, the response tells the
      branch and the logs hold the entry of that branch. */
  lemma FinishResponds(faults: Faults, s: DbState, a: Attempt, now: Timestamp)
    requires LogsOnceAtEnd(s, a, now)
    ensures var h := Finish(faults, a, now);
      && (h.response.None? <==> h.escaped.Some?)
      && (a.completion.NoDataLogged? ==>
            h.response == Some(Response(200, NoDataBody(NO_DATA_MESSAGE, now))) &&
            h.state.logs == s.logs + [LogEntry(now, 0, 0, NoData, None)])
      && (a.completion.Stored? ==>
            && |s.articles| <= |h.state.articles|
            && var added := |h.state.articles| - |s.articles|;
            && h.response == Some(Response(200, SuccessBody(a.completion.fetched, added, now)))
            && h.state.logs == s.logs + [LogEntry(now, a.completion.fetched, added, Success, None)]
            && added <= a.completion.fetched)
      && (a.completion.Failed? && h.response.Some? ==>
            h.response.value == Response(500, ErrorBody(Describe(a.completion.error), now)) &&
            h.state.logs == s.logs + [LogEntry(now, 0, 0, Error, Some(Describe(a.completion.error)))])
      && (h.response.Some? ==> (h.response.value.code == 200 <==> !a.completion.Failed?))
  {
  }

  /** The response tells the branch: 200 "no_data" with its fixed message when
      nothing was fetched, 200 "success" with the logged counts after a
      store, 500 with str(e) after an exception, and no response at all when
      logging that exception fails too (the exception then escapes). */
  lemma ResponseFollowsOutcome(faults: Faults, s: DbState, api: seq<PageResult>,
                               cronSecret: Option<string>, authorization: Option<string>, now: Timestamp)
    requires Authorized(cronSecret, authorization)
    ensures var a := TryCycle(faults, s, api, now);
      var h := HandleGet(faults, s, api, cronSecret, authorization, now);
      && (h.response.None? <==> h.escaped.Some?)
      && (a.completion.NoDataLogged? ==>
            h.response == Some(Response(200, NoDataBody(NO_DATA_MESSAGE, now))) &&
            h.state.logs == s.logs + [LogEntry(now, 0, 0, NoData, None)])
      && (a.completion.Stored? ==>
            && |s.articles| <= |h.state.articles|
            && var added := |h.state.articles| - |s.articles|;
            && h.response == Some(Response(200, SuccessBody(a.completion.fetched, added, now)))
            && h.state.logs == s.logs + [LogEntry(now, a.completion.fetched, added, Success, None)]
            && added <= a.completion.fetched)
      && (a.completion.Failed? && h.response.Some? ==>
            h.response.value == Response(500, ErrorBody(Describe(a.completion.error), now)) &&
            h.state.logs == s.logs + [LogEntry(now, 0, 0, Error, Some(Describe(a.completion.error)))])
      && (h.response.Some? ==> (h.response.value.code == 200 <==> !a.completion.Failed?))
  {
    TryCycleTrace(faults, s, api, now);
    FinishResponds(faults, s, TryCycle(faults, s, api, now), now);
  }

  /** Apart from the close and the response, the handler does what the except
      branch of a fetch run does. */
  lemma FinishAgreesWithRecover(faults: Faults, a: Attempt, now: Timestamp)
    ensures var h := Finish(faults, a, now);
      var r := Recover(faults, a, now);
      && h.state == r.state.(closes := r.state.closes + 1)
      && h.trace == r.trace + [Close]
      && h.escaped == r.escaped
  {
  }

  /** Apart from the close counter and the response, an authorized request
      leaves the store exactly as a fetch run does. */
  lemma HandlerAgreesWithFetchRun(faults: Faults, s: DbState, api: seq<PageResult>,
                                  cronSecret: Option<string>, authorization: Option<string>, now: Timestamp)
    requires Authorized(cronSecret, authorization)
    ensures var h := HandleGet(faults, s, api, cronSecret, authorization, now);
      var r := RunJob(faults, s, api, now);
      && h.state == r.state.(closes := r.state.closes + 1)
      && h.trace == r.trace + [Close]
      && h.escaped == r.escaped
  {
    FinishAgreesWithRecover(faults, TryCycle(faults, s, api, now), now);
  }
}
