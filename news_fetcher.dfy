/** services/news_fetcher.py: catch-up pagination against the remote news API
    and the mapping of a raw API record to the stored article schema. The
    HTTP client is replaced by `api`, the sequence of answers the API gives to
    the requests for pages 0, 1, 2, ... */
module NewsFetcher {
  import opened Values
  import StringOrder

  /** Articles asked for per request (the API's lazy-load page size). */
  const PAGE_SIZE: nat := 10
  /** Safety cap on the number of page requests in one fetch. */
  const MAX_PAGES: nat := 500

  /** The query of one page request: `count`, `offset`, `sids`, `type`. */
  datatype Request = Request(count: nat, offset: nat, sids: string, kind: string)

  /** What one page request yields. */
  datatype PageResult =
    | RequestFailed                  // a RequestException: connection error, timeout, non-2xx
    | Malformed(error: Exception)    // a body without `data.news`: the KeyError/TypeError escapes
    | Page(articles: seq<RawArticle>)

  /** The answer to the request for page `k`; past the end of `api` the
      source has no more articles and answers with an empty page. */
  function Respond(api: seq<PageResult>, k: nat): PageResult
  {
    if k < |api| then api[k] else Page([])
  }

  /** The articles a page contributes to the result when it is kept. */
  function PageArticles(p: PageResult): seq<RawArticle>
  {
    if p.Page? then p.articles else []
  }

  /** The request made for page `k`. */
  function RequestFor(k: nat): Request
  {
    Request(PAGE_SIZE, k * PAGE_SIZE, "", "news")
  }

  /** The first `n` requests, in the order they are made. */
  function Requests(n: nat): (rs: seq<Request>)
    ensures |rs| == n
    ensures forall k :: 0 <= k < n ==> rs[k] == RequestFor(k)
  {
    seq(n, k requires 0 <= k => RequestFor(k))
  }

  /** Python truthiness of the watermark: None and "" are both false. */
  predicate Truthy(w: Option<string>)
  {
    w.Some? && w.value != ""
  }

  /** `a.get("date", "")`. */
  function DateOf(a: RawArticle): Value
  {
    Get(a, "date", Str(""))
  }

  /** The exception raised when a page's dates cannot be compared as strings. */
  const DATE_NOT_COMPARABLE: Exception := TypeError("'<' not supported between a non-str date and 'str'")

  /** `min(a.get("date", "") for a in articles)` followed by a comparison with
      the (string) watermark: the least date of a non-empty page, or the
      TypeError Python raises as soon as a date is not a string. */
  function OldestDate(articles: seq<RawArticle>): (r: Result<string>)
    requires articles != []
    ensures r.Err? ==> r.error == DATE_NOT_COMPARABLE
    decreases |articles|
  {
    var d := DateOf(articles[0]);
    if |articles| == 1 then
      if d.Str? then Ok(d.s) else Err(DATE_NOT_COMPARABLE)
    else
      var rest := OldestDate(articles[1..]);
      if !d.Str? then Err(DATE_NOT_COMPARABLE)
      else if rest.Err? then rest
      else if StringOrder.Less(rest.value, d.s) then rest
      else Ok(d.s)
  }

  /** The oldest date fails exactly when some date is not a string; otherwise
      it is the date of some article and `<=` every date of the page. */
  lemma {:induction false} OldestDateIsLeast(articles: seq<RawArticle>)
    requires articles != []
    ensures var r := OldestDate(articles);
      && (r.Err? <==> exists i :: 0 <= i < |articles| && !DateOf(articles[i]).Str?)
      && (r.Ok? ==> exists i :: 0 <= i < |articles| && DateOf(articles[i]) == Str(r.value))
      && (r.Ok? ==> forall i :: 0 <= i < |articles| ==>
            DateOf(articles[i]).Str? && StringOrder.LessEq(r.value, DateOf(articles[i]).s))
    decreases |articles|
  {
    if |articles| > 1 {
      var d := DateOf(articles[0]);
      var tail := articles[1..];
      OldestDateIsLeast(tail);
      var rest := OldestDate(tail);
      assert forall i :: 1 <= i < |articles| ==> articles[i] == tail[i - 1];
      if d.Str? && rest.Ok? {
        if StringOrder.Less(rest.value, d.s) {
          forall i | 0 <= i < |articles|
            ensures DateOf(articles[i]).Str? && StringOrder.LessEq(rest.value, DateOf(articles[i]).s)
          {
            if i > 0 { assert articles[i] == tail[i - 1]; }
          }
          var j :| 0 <= j < |tail| && DateOf(tail[j]) == Str(rest.value);
          assert articles[j + 1] == tail[j];
        } else {
          StringOrder.LessEqTotal(rest.value, d.s);
          forall i | 0 <= i < |articles|
            ensures DateOf(articles[i]).Str? && StringOrder.LessEq(d.s, DateOf(articles[i]).s)
          {
            if i > 0 {
              assert articles[i] == tail[i - 1];
              StringOrder.LessEqTransitive(d.s, rest.value, DateOf(tail[i - 1]).s);
            }
          }
        }
      } else if d.Str? {
        var j :| 0 <= j < |tail| && !DateOf(tail[j]).Str?;
        assert articles[j + 1] == tail[j];
      }
    }
  }

  /** Whether pagination goes on after page `k` (the page cap aside): the page
      arrived, is not empty, there is a watermark, and the page's oldest date
      is not `<=` the watermark. */
  predicate GoesOn(api: seq<PageResult>, w: Option<string>, k: nat)
  {
    var p := Respond(api, k);
    && p.Page? && p.articles != [] && Truthy(w)
    && OldestDate(p.articles).Ok?
    && !StringOrder.LessEq(OldestDate(p.articles).value, w.value)
  }

  /** Whether page `k` makes the fetch raise instead of returning. */
  predicate RaisesAt(api: seq<PageResult>, w: Option<string>, k: nat)
  {
    var p := Respond(api, k);
    || p.Malformed?
    || (p.Page? && p.articles != [] && Truthy(w) && OldestDate(p.articles).Err?)
  }

  /** The exception page `k` raises. */
  function RaisedAt(api: seq<PageResult>, w: Option<string>, k: nat): Exception
    requires RaisesAt(api, w, k)
  {
    var p := Respond(api, k);
    if p.Malformed? then p.error else OldestDate(p.articles).error
  }

  /** How a fetch ends: with the gathered articles, or with an escaping exception. */
  datatype FetchOutcome = Fetched(articles: seq<RawArticle>) | Raised(error: Exception)

  /** A fetch's outcome together with the number of page requests it made. */
  datatype FetchRun = FetchRun(outcome: FetchOutcome, pages: nat)

  /** Prefix already gathered articles to the rest of a fetch. */
  function Prepend(gathered: seq<RawArticle>, r: FetchRun): FetchRun
  {
    match r.outcome
    case Fetched(rest) => FetchRun(Fetched(gathered + rest), r.pages)
    case Raised(_) => r
  }

  /** The fetch from page `k` onwards: the stopping rules of the pagination loop. */
  function FetchFrom(api: seq<PageResult>, w: Option<string>, k: nat): (r: FetchRun)
    requires k < MAX_PAGES
    ensures k < r.pages <= MAX_PAGES
    decreases MAX_PAGES - k
  {
    match Respond(api, k)
    case RequestFailed => FetchRun(Fetched([]), k + 1)
    case Malformed(e) => FetchRun(Raised(e), k + 1)
    case Page(articles) =>
      if articles == [] then FetchRun(Fetched([]), k + 1)
      else if !Truthy(w) then FetchRun(Fetched(articles), k + 1)
      else match OldestDate(articles)
        case Err(e) => FetchRun(Raised(e), k + 1)
        case Ok(oldest) =>
          if StringOrder.LessEq(oldest, w.value) || k + 1 == MAX_PAGES then FetchRun(Fetched(articles), k + 1)
          else Prepend(articles, FetchFrom(api, w, k + 1))
  }

  /** `fetch_news_from_tickertape(last_stored_date)` as a value. */
  function Fetch(api: seq<PageResult>, lastStoredDate: Option<string>): FetchRun
  {
    FetchFrom(api, lastStoredDate, 0)
  }

  /** The articles of pages `lo` .. `hi - 1`, in the order they arrived. */
  function Received(api: seq<PageResult>, lo: nat, hi: nat): seq<RawArticle>
    decreases hi - lo
  {
    if hi <= lo then [] else PageArticles(Respond(api, lo)) + Received(api, lo + 1, hi)
  }

  lemma {:induction false} ReceivedSnoc(api: seq<PageResult>, lo: nat, hi: nat)
    requires lo <= hi
    ensures Received(api, lo, hi + 1) == Received(api, lo, hi) + PageArticles(Respond(api, hi))
    decreases hi - lo
  {
    if lo < hi {
      ReceivedSnoc(api, lo + 1, hi);
    }
  }

  /** The pagination loop: one request per iteration, stopping on a request
      failure, an empty page, a cold start after one page, a page whose oldest
      date is `<=` the watermark, or the page cap. */
  method FetchNewsFromTickertape(api: seq<PageResult>, lastStoredDate: Option<string>)
    returns (outcome: FetchOutcome, requests: seq<Request>)
    ensures FetchRun(outcome, |requests|) == Fetch(api, lastStoredDate)
    ensures requests == Requests(|requests|)
  {
    var allArticles: seq<RawArticle> := [];
    requests := [];
    var page: nat := 0;
    while page < MAX_PAGES
      invariant page <= MAX_PAGES
      invariant requests == Requests(page)
      invariant page < MAX_PAGES ==>
        Fetch(api, lastStoredDate) == Prepend(allArticles, FetchFrom(api, lastStoredDate, page))
      invariant page == MAX_PAGES ==> Fetch(api, lastStoredDate) == FetchRun(Fetched(allArticles), page)
      decreases MAX_PAGES - page
    {
      var offset := page * PAGE_SIZE;
      requests := requests + [Request(PAGE_SIZE, offset, "", "news")];
      assert requests == Requests(page + 1);
      var response := Respond(api, page);
      if response.RequestFailed? {
        assert allArticles + [] == allArticles;
        outcome := Fetched(allArticles);
        return;
      }
      if response.Malformed? {
        outcome := Raised(response.error);
        return;
      }
      var articles := response.articles;
      if articles == [] {
        assert allArticles + [] == allArticles;
        outcome := Fetched(allArticles);
        return;
      }
      ghost var before := allArticles;
      allArticles := allArticles + articles;
      if Truthy(lastStoredDate) {
        var oldest := OldestDate(articles);
        if oldest.Err? {
          outcome := Raised(oldest.error);
          return;
        }
        if StringOrder.LessEq(oldest.value, lastStoredDate.value) {
          outcome := Fetched(allArticles);
          return;
        }
      } else {
        outcome := Fetched(allArticles);
        return;
      }
      if page + 1 < MAX_PAGES {
        PrependTwice(before, articles, FetchFrom(api, lastStoredDate, page + 1));
      }
      page := page + 1;
    }
    outcome := Fetched(allArticles);
  }

  lemma PrependTwice(a: seq<RawArticle>, b: seq<RawArticle>, r: FetchRun)
    ensures Prepend(a, Prepend(b, r)) == Prepend(a + b, r)
  {
    if r.outcome.Fetched? {
      assert a + (b + r.outcome.articles) == (a + b) + r.outcome.articles;
    }
  }

  /** Every page of a fetch from page `k` but the last went on, and the last
      one stopped unless the cap was reached. */
  lemma {:induction false} FetchFromStops(api: seq<PageResult>, w: Option<string>, k: nat)
    requires k < MAX_PAGES
    ensures var r := FetchFrom(api, w, k);
      && (forall i :: k <= i < r.pages - 1 ==> GoesOn(api, w, i))
      && (r.pages < MAX_PAGES ==> !GoesOn(api, w, r.pages - 1))
    decreases MAX_PAGES - k
  {
    if GoesOn(api, w, k) && k + 1 < MAX_PAGES {
      FetchFromStops(api, w, k + 1);
    }
  }

  /** A page that goes on (below the cap) hands over to the fetch from the next page. */
  lemma FetchFromGoesOn(api: seq<PageResult>, w: Option<string>, k: nat)
    requires k + 1 < MAX_PAGES && GoesOn(api, w, k)
    ensures FetchFrom(api, w, k) == Prepend(Respond(api, k).articles, FetchFrom(api, w, k + 1))
  {
  }

  /** A page that does not go on (or the last allowed page) ends the fetch:
      it raises exactly when the page raises, and otherwise returns that page. */
  lemma FetchFromHalts(api: seq<PageResult>, w: Option<string>, k: nat)
    requires k < MAX_PAGES && !(k + 1 < MAX_PAGES && GoesOn(api, w, k))
    ensures FetchFrom(api, w, k).pages == k + 1
    ensures FetchFrom(api, w, k).outcome.Fetched? <==> !RaisesAt(api, w, k)
    ensures FetchFrom(api, w, k).outcome.Fetched? ==> FetchFrom(api, w, k).outcome.articles == PageArticles(Respond(api, k))
    ensures FetchFrom(api, w, k).outcome.Raised? ==> FetchFrom(api, w, k).outcome.error == RaisedAt(api, w, k)
  {
  }

  /** A fetch from page `k` returns the concatenation of the pages received,
      or raises the exception of its last page. */
  lemma {:induction false} FetchFromResult(api: seq<PageResult>, w: Option<string>, k: nat)
    requires k < MAX_PAGES
    ensures var r := FetchFrom(api, w, k);
      && (r.outcome.Fetched? ==> !RaisesAt(api, w, r.pages - 1) && r.outcome.articles == Received(api, k, r.pages))
      && (r.outcome.Raised? ==> RaisesAt(api, w, r.pages - 1) && r.outcome.error == RaisedAt(api, w, r.pages - 1))
    decreases MAX_PAGES - k
  {
    if k + 1 < MAX_PAGES && GoesOn(api, w, k) {
      FetchFromGoesOn(api, w, k);
      FetchFromResult(api, w, k + 1);
      var rest := FetchFrom(api, w, k + 1);
      assert Received(api, k, rest.pages) == Respond(api, k).articles + Received(api, k + 1, rest.pages);
    } else {
      FetchFromHalts(api, w, k);
      assert Received(api, k + 1, k + 1) == [];
    }
  }

  /** What a fetch from page `k` is made of: every page but the last went on,
      the last one stopped (unless the cap was reached), a returned result is
      the concatenation of the pages received, and an exception comes from the
      last page. */
  lemma FetchFromShape(api: seq<PageResult>, w: Option<string>, k: nat)
    requires k < MAX_PAGES
    ensures var r := FetchFrom(api, w, k);
      && (forall i :: k <= i < r.pages - 1 ==> GoesOn(api, w, i))
      && (r.pages < MAX_PAGES ==> !GoesOn(api, w, r.pages - 1))
      && (r.outcome.Fetched? ==> !RaisesAt(api, w, r.pages - 1) && r.outcome.articles == Received(api, k, r.pages))
      && (r.outcome.Raised? ==> RaisesAt(api, w, r.pages - 1) && r.outcome.error == RaisedAt(api, w, r.pages - 1))
  {
    FetchFromStops(api, w, k);
    FetchFromResult(api, w, k);
  }

  /** The fetch as a whole: at most MAX_PAGES requests, and the shape above from page 0. */
  lemma FetchShape(api: seq<PageResult>, w: Option<string>)
    ensures 1 <= Fetch(api, w).pages <= MAX_PAGES
    ensures forall i :: 0 <= i < Fetch(api, w).pages - 1 ==> GoesOn(api, w, i)
    ensures Fetch(api, w).pages < MAX_PAGES ==> !GoesOn(api, w, Fetch(api, w).pages - 1)
    ensures Fetch(api, w).outcome.Fetched? ==>
      Fetch(api, w).outcome.articles == Received(api, 0, Fetch(api, w).pages)
    ensures Fetch(api, w).outcome.Raised? ==>
      RaisesAt(api, w, Fetch(api, w).pages - 1) &&
      Fetch(api, w).outcome.error == RaisedAt(api, w, Fetch(api, w).pages - 1)
  {
    FetchFromShape(api, w, 0);
  }

  /** The first page `k` at which pagination does not go on is the last page
      requested; the result is every page up to and including it, unless that
      page raises. */
  lemma StopsAtFirstHalt(api: seq<PageResult>, w: Option<string>, k: nat)
    requires k < MAX_PAGES
    requires forall i :: 0 <= i < k ==> GoesOn(api, w, i)
    requires !GoesOn(api, w, k) || k == MAX_PAGES - 1
    ensures Fetch(api, w).pages == k + 1
    ensures RaisesAt(api, w, k) ==> Fetch(api, w).outcome == Raised(RaisedAt(api, w, k))
    ensures !RaisesAt(api, w, k) ==> Fetch(api, w).outcome == Fetched(Received(api, 0, k + 1))
  {
    FetchFromShape(api, w, 0);
  }

  /** A request failure ends pagination and returns what was gathered before it. */
  lemma FailureEndsPagination(api: seq<PageResult>, w: Option<string>, k: nat)
    requires k < MAX_PAGES
    requires forall i :: 0 <= i < k ==> GoesOn(api, w, i)
    requires Respond(api, k) == RequestFailed
    ensures Fetch(api, w) == FetchRun(Fetched(Received(api, 0, k)), k + 1)
  {
    StopsAtFirstHalt(api, w, k);
    ReceivedSnoc(api, 0, k);
  }

  /** An empty page ends pagination and contributes nothing. */
  lemma EmptyPageEndsPagination(api: seq<PageResult>, w: Option<string>, k: nat)
    requires k < MAX_PAGES
    requires forall i :: 0 <= i < k ==> GoesOn(api, w, i)
    requires Respond(api, k) == Page([])
    ensures Fetch(api, w) == FetchRun(Fetched(Received(api, 0, k)), k + 1)
  {
    StopsAtFirstHalt(api, w, k);
    ReceivedSnoc(api, 0, k);
  }

  /** A body without `data.news` is not swallowed: its exception is the outcome. */
  lemma MalformedBodyPropagates(api: seq<PageResult>, w: Option<string>, k: nat, e: Exception)
    requires k < MAX_PAGES
    requires forall i :: 0 <= i < k ==> GoesOn(api, w, i)
    requires Respond(api, k) == Malformed(e)
    ensures Fetch(api, w) == FetchRun(Raised(e), k + 1)
  {
    StopsAtFirstHalt(api, w, k);
  }

  /** With a watermark, the first page whose oldest date is `<=` the watermark
      is the last one requested, and it is included in the result. */
  lemma CaughtUpPageIsLastAndIncluded(api: seq<PageResult>, w: Option<string>, k: nat)
    requires k < MAX_PAGES && Truthy(w)
    requires forall i :: 0 <= i < k ==> GoesOn(api, w, i)
    requires Respond(api, k).Page? && Respond(api, k).articles != []
    requires OldestDate(Respond(api, k).articles).Ok?
    requires StringOrder.LessEq(OldestDate(Respond(api, k).articles).value, w.value)
    ensures Fetch(api, w) == FetchRun(Fetched(Received(api, 0, k) + Respond(api, k).articles), k + 1)
  {
    StopsAtFirstHalt(api, w, k);
    ReceivedSnoc(api, 0, k);
  }

  /** Cold start: without a (truthy) watermark exactly one page is requested
      and the result is that page's articles. */
  lemma ColdStartFetchesOnePage(api: seq<PageResult>, w: Option<string>)
    requires !Truthy(w)
    ensures Fetch(api, w).pages == 1
    ensures Respond(api, 0).Malformed? ==> Fetch(api, w).outcome == Raised(Respond(api, 0).error)
    ensures !Respond(api, 0).Malformed? ==> Fetch(api, w).outcome == Fetched(PageArticles(Respond(api, 0)))
  {
  }

  /** Every page before the last one requested had its oldest date strictly
      after the watermark. */
  lemma EarlierPagesWereNewer(api: seq<PageResult>, w: Option<string>, i: nat)
    requires i + 1 < Fetch(api, w).pages
    ensures Truthy(w) && Respond(api, i).Page? && Respond(api, i).articles != []
    ensures OldestDate(Respond(api, i).articles).Ok?
    ensures StringOrder.Less(w.value, OldestDate(Respond(api, i).articles).value)
  {
    FetchShape(api, w);
    assert GoesOn(api, w, i);
    StringOrder.LessEqTotal(OldestDate(Respond(api, i).articles).value, w.value);
  }

  // ---------------------------------------------------------------------------
  // transform_article

  /** The string fields of the article schema, defaulting to "". */
  const TEXT_FIELDS: set<string> := {"headline", "summary", "date", "publisher", "tag"}

  /** Every key of a transformed article. */
  const ARTICLE_FIELDS: set<string> := TEXT_FIELDS + {"stocks", "fetched_at"}

  /** `transform_article(raw)`, with `now` standing for `datetime.now()`. */
  function TransformArticle(raw: RawArticle, now: Timestamp): Document
  {
    map[
      "headline" := Get(raw, "headline", Str("")),
      "summary" := Get(raw, "summary", Str("")),
      "date" := Get(raw, "date", Str("")),
      "publisher" := Get(raw, "publisher", Str("")),
      "stocks" := Get(raw, "stocks", Arr([])),
      "tag" := Get(raw, "tag", Str("")),
      "fetched_at" := Time(now)
    ]
  }

  /** A transformed article has exactly the schema's fields and no url: each
      text field is the raw value or "", `stocks` the raw value or [], and
      `fetched_at` the time of the transform. */
  lemma TransformArticleSchema(raw: RawArticle, now: Timestamp)
    ensures var doc := TransformArticle(raw, now);
      && doc.Keys == ARTICLE_FIELDS
      && "url" !in doc
      && (forall f :: f in TEXT_FIELDS ==> doc[f] == Get(raw, f, Str("")))
      && doc["stocks"] == Get(raw, "stocks", Arr([]))
      && doc["fetched_at"] == Time(now)
  {
  }

  /** The transform reads nothing but the six schema fields of the raw record:
      any other field, `url` included, is dropped. */
  lemma TransformReadsOnlySchemaFields(raw1: RawArticle, raw2: RawArticle, now: Timestamp)
    requires forall f :: f in ARTICLE_FIELDS - {"fetched_at"} ==>
      (f in raw1 <==> f in raw2) && (f in raw1 ==> raw1[f] == raw2[f])
    ensures TransformArticle(raw1, now) == TransformArticle(raw2, now)
  {
  }
}
