/** services/news_storage.py: the watermark query, the check-then-insert
    dedup writer and the run-log append, over an abstract document store.
    Store failures are given by a fault schedule: the store operation with
    index `n` (counting every find_one and insert_one on either collection)
    raises `faults[n]` when `n` is a key of `faults`. */
module NewsStorage {
  import opened Values
  import StringOrder

  // ---------------------------------------------------------------------------
  // Store state

  /** The `status` of a run-log entry: "success", "no_data" or "error". */
  datatype RunStatus = Success | NoData | Error

  /** One entry of the run-log collection. */
  datatype LogEntry = LogEntry(
    timestamp: Timestamp,
    totalFetched: nat,
    newlyInserted: nat,
    status: RunStatus,
    error: Option<string>)

  /** The store's observable state: the articles and run-log collections,
      the number of store operations attempted so far, and the number of
      times the connection was closed. */
  datatype DbState = DbState(articles: seq<Document>, logs: seq<LogEntry>, ops: nat, closes: nat)

  type Faults = map<nat, Exception>

  /** No store operation with index in `lo` .. `hi - 1` fails. */
  predicate NoFaults(faults: Faults, lo: nat, hi: nat)
  {
    forall n :: lo <= n < hi ==> n !in faults
  }

  // ---------------------------------------------------------------------------
  // get_last_stored_date

  /** The date a document offers to the watermark query
      `{"date": {"$exists": True, "$ne": ""}}`: a present, non-empty string. */
  function WatermarkDate(d: Document): Option<string>
  {
    if "date" in d && d["date"].Str? && d["date"].s != "" then Some(d["date"].s) else None
  }

  /** The greatest qualifying date among the stored documents (the document
      found by the descending sort on `date`), or None. */
  function LastStoredDate(docs: seq<Document>): (r: Option<string>)
    ensures r.Some? ==> r.value != ""
    decreases |docs|
  {
    if docs == [] then None
    else
      var rest := LastStoredDate(docs[1..]);
      match WatermarkDate(docs[0])
      case None => rest
      case Some(d) =>
        if rest.None? || !StringOrder.Less(d, rest.value) then Some(d) else rest
  }

  /** The watermark is None exactly when no document has a qualifying date;
      otherwise it is the date of some document and `>=` every qualifying date. */
  lemma {:induction false} LastStoredDateIsGreatest(docs: seq<Document>)
    ensures var r := LastStoredDate(docs);
      && (r.None? <==> forall i :: 0 <= i < |docs| ==> WatermarkDate(docs[i]).None?)
      && (r.Some? ==> exists i :: 0 <= i < |docs| && WatermarkDate(docs[i]) == r)
      && (r.Some? ==> forall i :: 0 <= i < |docs| && WatermarkDate(docs[i]).Some? ==>
            StringOrder.LessEq(WatermarkDate(docs[i]).value, r.value))
    decreases |docs|
  {
    if docs != [] {
      var tail := docs[1..];
      LastStoredDateIsGreatest(tail);
      var rest := LastStoredDate(tail);
      assert forall i :: 1 <= i < |docs| ==> docs[i] == tail[i - 1];
      match WatermarkDate(docs[0])
      case None =>
        if rest.Some? {
          var j :| 0 <= j < |tail| && WatermarkDate(tail[j]) == rest;
          assert docs[j + 1] == tail[j];
        }
      case Some(d) =>
        if rest.Some? && StringOrder.Less(d, rest.value) {
          var j :| 0 <= j < |tail| && WatermarkDate(tail[j]) == rest;
          assert docs[j + 1] == tail[j];
          forall i | 0 <= i < |docs| && WatermarkDate(docs[i]).Some?
            ensures StringOrder.LessEq(WatermarkDate(docs[i]).value, rest.value)
          {
            if i > 0 { assert docs[i] == tail[i - 1]; }
          }
        } else if rest.Some? {
          StringOrder.LessEqTotal(d, rest.value);
          forall i | 0 <= i < |docs| && WatermarkDate(docs[i]).Some?
            ensures StringOrder.LessEq(WatermarkDate(docs[i]).value, d)
          {
            if i > 0 {
              assert docs[i] == tail[i - 1];
              StringOrder.LessEqTransitive(WatermarkDate(tail[i - 1]).value, rest.value, d);
            }
          }
        }
    }
  }

  /** The watermark lookup: one store operation. */
  function Lookup(faults: Faults, s: DbState): (DbState, Result<Option<string>>)
  {
    var s' := s.(ops := s.ops + 1);
    if s.ops in faults then (s', Err(faults[s.ops])) else (s', Ok(LastStoredDate(s.articles)))
  }

  // ---------------------------------------------------------------------------
  // The dedup key

  /** `article.get("url")`: the dedup key, None when the field is missing. */
  function UrlOf(d: Document): Value
  {
    Get(d, "url", Null)
  }

  /** Whether a document matches the filter `{"url": url}`; the store lets a
      missing field match null. */
  predicate MatchesUrl(d: Document, url: Value)
  {
    if url == Null then "url" !in d || d["url"] == Null
    else "url" in d && d["url"] == url
  }

  /** A document matches the dedup filter of a key exactly when it has that key. */
  lemma MatchesUrlIffSameKey(d: Document, url: Value)
    ensures MatchesUrl(d, url) <==> UrlOf(d) == url
  {
  }

  /** `collection.find_one({"url": url})`: the first match in natural order. */
  function FindOne(docs: seq<Document>, url: Value): Option<Document>
    decreases |docs|
  {
    if docs == [] then None
    else if MatchesUrl(docs[0], url) then Some(docs[0])
    else FindOne(docs[1..], url)
  }

  /** find_one finds nothing exactly when no document matches, and what it
      finds is a stored document that matches. */
  lemma {:induction false} FindOneFindsMatch(docs: seq<Document>, url: Value)
    ensures var r := FindOne(docs, url);
      && (r.None? <==> forall i :: 0 <= i < |docs| ==> !MatchesUrl(docs[i], url))
      && (r.Some? ==> r.value in docs && MatchesUrl(r.value, url))
    decreases |docs|
  {
    if docs != [] && !MatchesUrl(docs[0], url) {
      FindOneFindsMatch(docs[1..], url);
      assert forall i :: 1 <= i < |docs| ==> docs[i] == docs[1..][i - 1];
    }
  }

  /** The dedup keys present in a sequence of documents. */
  function Keys(docs: seq<Document>): set<Value>
  {
    set i | 0 <= i < |docs| :: UrlOf(docs[i])
  }

  lemma FindOneIffKeyPresent(docs: seq<Document>, url: Value)
    ensures FindOne(docs, url).Some? <==> url in Keys(docs)
  {
    FindOneFindsMatch(docs, url);
    if url in Keys(docs) {
      var i :| 0 <= i < |docs| && UrlOf(docs[i]) == url;
      MatchesUrlIffSameKey(docs[i], url);
    } else {
      forall i | 0 <= i < |docs| ensures !MatchesUrl(docs[i], url) {
        MatchesUrlIffSameKey(docs[i], url);
      }
    }
  }

  lemma KeyIn(docs: seq<Document>, i: nat)
    requires i < |docs|
    ensures UrlOf(docs[i]) in Keys(docs)
  {
  }

  lemma KeysAppend(a: seq<Document>, b: seq<Document>)
    ensures Keys(a + b) == Keys(a) + Keys(b)
  {
    var ab := a + b;
    forall u | u in Keys(a + b) ensures u in Keys(a) + Keys(b) {
      var i :| 0 <= i < |ab| && UrlOf(ab[i]) == u;
      if i >= |a| { assert UrlOf(b[i - |a|]) == u; }
    }
    forall u | u in Keys(a) + Keys(b) ensures u in Keys(a + b) {
      if u in Keys(a) {
        var i :| 0 <= i < |a| && UrlOf(a[i]) == u;
        assert ab[i] == a[i];
      } else {
        var i :| 0 <= i < |b| && UrlOf(b[i]) == u;
        assert ab[|a| + i] == b[i];
      }
    }
  }

  /** No two documents share a dedup key: what the check-then-insert writer keeps. */
  predicate KeysDistinct(docs: seq<Document>)
  {
    forall a, b :: 0 <= a < b < |docs| ==> UrlOf(docs[a]) != UrlOf(docs[b])
  }

  // ---------------------------------------------------------------------------
  // store_news

  /** `article["stored_at"] = datetime.now()`. */
  function Stamp(d: Document, now: Timestamp): (r: Document)
    ensures UrlOf(r) == UrlOf(d)
  {
    d["stored_at" := Time(now)]
  }

  /** The state the write loop ends in. */
  datatype Written = Written(articles: seq<Document>, batch: seq<Document>, ops: nat, result: Result<nat>)

  /** The write loop from article `i` on: one find_one per article and, when
      nothing matches, a stamp and one insert_one. A failing operation ends the
      loop with its exception; earlier inserts stay. */
  function WriteFrom(faults: Faults, articles: seq<Document>, batch: seq<Document>, i: nat,
                     now: Timestamp, ops: nat, count: nat): (w: Written)
    requires i <= |batch|
    ensures |w.batch| == |batch| && |articles| <= |w.articles|
    ensures w.articles[..|articles|] == articles
    ensures w.result.Ok? ==> w.result.value == count + |w.articles| - |articles| <= count + |batch| - i
    decreases |batch| - i
  {
    if i == |batch| then Written(articles, batch, ops, Ok(count))
    else if ops in faults then Written(articles, batch, ops + 1, Err(faults[ops]))
    else if FindOne(articles, UrlOf(batch[i])).Some? then
      WriteFrom(faults, articles, batch, i + 1, now, ops + 1, count)
    else
      var stamped := batch[i := Stamp(batch[i], now)];
      if ops + 1 in faults then Written(articles, stamped, ops + 2, Err(faults[ops + 1]))
      else
        var w := WriteFrom(faults, articles + [stamped[i]], stamped, i + 1, now, ops + 2, count + 1);
        assert (articles + [stamped[i]])[..|articles|] == articles;
        w
  }

  /** `store_news(articles)`: nothing at all for an empty batch, else the write loop. */
  function StoreNewsSpec(faults: Faults, articles: seq<Document>, batch: seq<Document>,
                         now: Timestamp, ops: nat): Written
  {
    if batch == [] then Written(articles, batch, ops, Ok(0))
    else WriteFrom(faults, articles, batch, 0, now, ops, 0)
  }

  // -- the reference: which articles a fault-free write inserts

  /** Article `j` of the batch is new: its key is neither stored already nor
      carried by an earlier article of the batch. */
  predicate Inserted(known: set<Value>, batch: seq<Document>, j: nat)
    requires j < |batch|
  {
    UrlOf(batch[j]) !in known + Keys(batch[..j])
  }

  /** The new articles of a batch, in batch order. */
  function NewArticles(known: set<Value>, batch: seq<Document>): seq<Document>
    decreases |batch|
  {
    if batch == [] then []
    else
      var n := |batch| - 1;
      NewArticles(known, batch[..n]) + (if Inserted(known, batch, n) then [batch[n]] else [])
  }

  function StampAll(docs: seq<Document>, now: Timestamp): seq<Document>
  {
    seq(|docs|, i requires 0 <= i < |docs| => Stamp(docs[i], now))
  }

  /** The batch after a fault-free write: exactly the new articles are stamped. */
  function StampedBatch(known: set<Value>, batch: seq<Document>, now: Timestamp): seq<Document>
  {
    seq(|batch|, j requires 0 <= j < |batch| => if Inserted(known, batch, j) then Stamp(batch[j], now) else batch[j])
  }

  lemma StampAllKeys(docs: seq<Document>, now: Timestamp)
    ensures Keys(StampAll(docs, now)) == Keys(docs)
  {
    var s := StampAll(docs, now);
    forall u | u in Keys(docs) ensures u in Keys(s) {
      var i :| 0 <= i < |docs| && UrlOf(docs[i]) == u;
      assert UrlOf(s[i]) == u;
    }
  }

  lemma NewArticlesSnoc(known: set<Value>, batch: seq<Document>, j: nat)
    requires j < |batch|
    ensures NewArticles(known, batch[..j + 1]) ==
      NewArticles(known, batch[..j]) + (if Inserted(known, batch, j) then [batch[j]] else [])
  {
    var b := batch[..j + 1];
    assert b[..j] == batch[..j];
  }

  /** The new articles are at most the whole batch, carry keys not known
      before and pairwise distinct, and together with the known keys cover
      every key of the batch. */
  lemma {:induction false} NewArticlesKeys(known: set<Value>, batch: seq<Document>)
    ensures |NewArticles(known, batch)| <= |batch|
    ensures known + Keys(NewArticles(known, batch)) == known + Keys(batch)
    ensures Keys(NewArticles(known, batch)) * known == {}
    ensures KeysDistinct(NewArticles(known, batch))
    decreases |batch|
  {
    if batch != [] {
      var n := |batch| - 1;
      var init := batch[..n];
      NewArticlesKeys(known, init);
      var extra := if Inserted(known, batch, n) then [batch[n]] else [];
      KeysAppend(NewArticles(known, init), extra);
      assert batch == init + [batch[n]];
      KeysAppend(init, [batch[n]]);
      assert Keys([batch[n]]) == {UrlOf(batch[n])};
      if extra == [] {
        assert Keys(extra) == {};
      } else {
        assert Keys(extra) == {UrlOf(batch[n])};
      }
    }
  }

  /** A batch all of whose keys are known already has no new articles, so it
      is inserted nowhere. */
  lemma {:induction false} NothingNewWhenKeysKnown(known: set<Value>, batch: seq<Document>)
    requires Keys(batch) <= known
    ensures NewArticles(known, batch) == []
    decreases |batch|
  {
    if batch != [] {
      var n := |batch| - 1;
      assert batch[..n] + [batch[n]] == batch;
      KeysAppend(batch[..n], [batch[n]]);
      assert UrlOf(batch[n]) in Keys(batch);
      NothingNewWhenKeysKnown(known, batch[..n]);
    }
  }

  /** Of several articles of one batch that share a key, only the first can be new. */
  lemma OnlyFirstOfSameKeyIsNew(known: set<Value>, batch: seq<Document>, i: nat, j: nat)
    requires i < j < |batch| && UrlOf(batch[i]) == UrlOf(batch[j])
    ensures !Inserted(known, batch, j)
  {
    assert batch[..j][i] == batch[i];
  }

  lemma StampAllSnoc(docs: seq<Document>, d: Document, now: Timestamp)
    ensures StampAll(docs + [d], now) == StampAll(docs, now) + [Stamp(d, now)]
  {
  }

  /** After the write loop has done what the reference says for a prefix of
      the batch, the stored keys are the known ones and those of the prefix. */
  lemma KeysAfterPrefix(articles0: seq<Document>, batch0: seq<Document>, i: nat, now: Timestamp)
    requires i <= |batch0|
    ensures Keys(articles0 + StampAll(NewArticles(Keys(articles0), batch0[..i]), now)) ==
      Keys(articles0) + Keys(batch0[..i])
  {
    var prefix := NewArticles(Keys(articles0), batch0[..i]);
    NewArticlesKeys(Keys(articles0), batch0[..i]);
    KeysAppend(articles0, StampAll(prefix, now));
    StampAllKeys(prefix, now);
  }

  /** One step of the write loop keeps the batch stamped as the reference says
      on the part already processed, and untouched on the rest. */
  lemma StampStep(known: set<Value>, batch0: seq<Document>, batch: seq<Document>, i: nat, now: Timestamp)
    requires i < |batch0| == |batch|
    requires batch[i..] == batch0[i..]
    requires batch[..i] == StampedBatch(known, batch0, now)[..i]
    ensures var next := if Inserted(known, batch0, i) then batch[i := Stamp(batch[i], now)] else batch;
      next[i + 1..] == batch0[i + 1..] && next[..i + 1] == StampedBatch(known, batch0, now)[..i + 1]
  {
    assert batch[i] == batch0[i];
  }

  /** The stored articles after the reference has processed one more article. */
  lemma ArticlesStep(articles0: seq<Document>, batch0: seq<Document>, i: nat, now: Timestamp)
    requires i < |batch0|
    ensures var known := Keys(articles0);
      var articles := articles0 + StampAll(NewArticles(known, batch0[..i]), now);
      articles0 + StampAll(NewArticles(known, batch0[..i + 1]), now) ==
        if Inserted(known, batch0, i) then articles + [Stamp(batch0[i], now)] else articles
  {
    var known := Keys(articles0);
    NewArticlesSnoc(known, batch0, i);
    StampAllSnoc(NewArticles(known, batch0[..i]), batch0[i], now);
  }

  /** The fault-free write loop from article `i` on, given that it has so far
      done what the reference says for `batch0[..i]`. */
  lemma {:induction false} WriteFromFaultFree(faults: Faults, articles0: seq<Document>, batch0: seq<Document>,
                                             articles: seq<Document>, batch: seq<Document>, i: nat,
                                             now: Timestamp, ops: nat, count: nat)
    requires i <= |batch0| == |batch|
    requires NoFaults(faults, ops, ops + 2 * (|batch0| - i))
    requires batch[i..] == batch0[i..]
    requires batch[..i] == StampedBatch(Keys(articles0), batch0, now)[..i]
    requires articles == articles0 + StampAll(NewArticles(Keys(articles0), batch0[..i]), now)
    requires count == |NewArticles(Keys(articles0), batch0[..i])|
    ensures var w := WriteFrom(faults, articles, batch, i, now, ops, count);
      var added := NewArticles(Keys(articles0), batch0);
      && w.articles == articles0 + StampAll(added, now)
      && w.batch == StampedBatch(Keys(articles0), batch0, now)
      && w.result == Ok(|added|)
      && w.ops + count == ops + (|batch0| - i) + |added|
    decreases |batch0| - i
  {
    var known := Keys(articles0);
    if i == |batch0| {
      assert batch0[..i] == batch0;
      assert batch == batch[..i];
    } else {
      KeysAfterPrefix(articles0, batch0, i, now);
      assert batch[i] == batch0[i];
      FindOneIffKeyPresent(articles, UrlOf(batch[i]));
      ArticlesStep(articles0, batch0, i, now);
      NewArticlesSnoc(known, batch0, i);
      StampStep(known, batch0, batch, i, now);
      assert ops !in faults && ops + 1 !in faults;
      if Inserted(known, batch0, i) {
        WriteFromInserts(faults, articles, batch, i, now, ops, count);
        WriteFromFaultFree(faults, articles0, batch0, articles + [Stamp(batch[i], now)],
                           batch[i := Stamp(batch[i], now)], i + 1, now, ops + 2, count + 1);
      } else {
        WriteFromSkips(faults, articles, batch, i, now, ops, count);
        WriteFromFaultFree(faults, articles0, batch0, articles, batch, i + 1, now, ops + 1, count);
      }
    }
  }

  /** A fault-free store_news appends exactly the new articles of the batch,
      stamped and in batch order, leaves every stored document as it was,
      stamps exactly those articles in the batch, and returns their number. */
  lemma StoreNewsFaultFree(faults: Faults, articles: seq<Document>, batch: seq<Document>, now: Timestamp, ops: nat)
    requires NoFaults(faults, ops, ops + 2 * |batch|)
    ensures var added := NewArticles(Keys(articles), batch);
      StoreNewsSpec(faults, articles, batch, now, ops) ==
      Written(articles + StampAll(added, now), StampedBatch(Keys(articles), batch, now),
              ops + |batch| + |added|, Ok(|added|))
  {
    NewArticlesKeys(Keys(articles), batch);
    if batch == [] {
      assert articles + StampAll([], now) == articles;
      assert StampedBatch(Keys(articles), batch, now) == [];
    } else {
      assert batch[..0] == [];
      assert articles + StampAll([], now) == articles;
      WriteFromFaultFree(faults, articles, batch, articles, batch, 0, now, ops, 0);
    }
  }

  /** Idempotence: storing again a batch whose keys were all stored by a
      fault-free first call inserts nothing and changes no document. */
  lemma StoreNewsTwiceInsertsNothing(faults: Faults, articles: seq<Document>, batch: seq<Document>,
                                     again: seq<Document>, now: Timestamp, now2: Timestamp, ops: nat)
    requires NoFaults(faults, ops, ops + 2 * |batch|)
    requires Keys(again) <= Keys(batch)
    requires var w := StoreNewsSpec(faults, articles, batch, now, ops);
      NoFaults(faults, w.ops, w.ops + 2 * |again|)
    ensures var w := StoreNewsSpec(faults, articles, batch, now, ops);
      var w2 := StoreNewsSpec(faults, w.articles, again, now2, w.ops);
      w2.result == Ok(0) && w2.articles == w.articles && w2.batch == again
  {
    var w := StoreNewsSpec(faults, articles, batch, now, ops);
    StoreNewsFaultFree(faults, articles, batch, now, ops);
    var added := NewArticles(Keys(articles), batch);
    NewArticlesKeys(Keys(articles), batch);
    KeysAppend(articles, StampAll(added, now));
    StampAllKeys(added, now);
    assert Keys(w.articles) == Keys(articles) + Keys(batch);
    StoreNewsFaultFree(faults, w.articles, again, now2, w.ops);
    NothingNewWhenKeysKnown(Keys(w.articles), again);
    assert w.articles + StampAll([], now2) == w.articles;
    var sb := StampedBatch(Keys(w.articles), again, now2);
    forall j | 0 <= j < |again| ensures sb[j] == again[j] {
      assert UrlOf(again[j]) in Keys(again);
    }
  }

  /** Every document from index `from` on has a key that no earlier document has. */
  predicate AppendedFresh(docs: seq<Document>, from: nat)
  {
    forall a, k :: 0 <= a < k < |docs| && from <= k ==> UrlOf(docs[a]) != UrlOf(docs[k])
  }

  /** A document appended with a key that no earlier document has extends a
      sequence whose later part is fresh. */
  lemma FreshAfterAppend(articles: seq<Document>, d: Document, docs: seq<Document>)
    requires |articles| < |docs| && docs[..|articles| + 1] == articles + [d]
    requires forall a :: 0 <= a < |articles| ==> UrlOf(articles[a]) != UrlOf(d)
    requires AppendedFresh(docs, |articles| + 1)
    ensures AppendedFresh(docs, |articles|)
  {
    forall a, k | 0 <= a < k < |docs| && |articles| <= k
      ensures UrlOf(docs[a]) != UrlOf(docs[k])
    {
      if k == |articles| {
        assert docs[a] == docs[..|articles| + 1][a] == articles[a];
        assert docs[k] == docs[..|articles| + 1][k] == d;
      }
    }
  }

  /** One step of the write loop: an article whose key is found is skipped. */
  lemma WriteFromSkips(faults: Faults, articles: seq<Document>, batch: seq<Document>, i: nat,
                       now: Timestamp, ops: nat, count: nat)
    requires i < |batch| && ops !in faults && FindOne(articles, UrlOf(batch[i])).Some?
    ensures WriteFrom(faults, articles, batch, i, now, ops, count) ==
      WriteFrom(faults, articles, batch, i + 1, now, ops + 1, count)
  {
  }

  /** One step of the write loop: an article whose key is not found is
      stamped and inserted. */
  lemma WriteFromInserts(faults: Faults, articles: seq<Document>, batch: seq<Document>, i: nat,
                         now: Timestamp, ops: nat, count: nat)
    requires i < |batch| && ops !in faults && ops + 1 !in faults && FindOne(articles, UrlOf(batch[i])).None?
    ensures WriteFrom(faults, articles, batch, i, now, ops, count) ==
      WriteFrom(faults, articles + [Stamp(batch[i], now)], batch[i := Stamp(batch[i], now)], i + 1, now, ops + 2, count + 1)
  {
  }

  /** Whatever fails, every document the write loop appends carries a key
      that no document before it has. */
  lemma {:induction false} WriteFromAppendsFresh(faults: Faults, articles: seq<Document>, batch: seq<Document>,
                                                 i: nat, now: Timestamp, ops: nat, count: nat)
    requires i <= |batch|
    ensures AppendedFresh(WriteFrom(faults, articles, batch, i, now, ops, count).articles, |articles|)
    decreases |batch| - i
  {
    if i < |batch| && ops !in faults {
      if FindOne(articles, UrlOf(batch[i])).Some? {
        WriteFromSkips(faults, articles, batch, i, now, ops, count);
        WriteFromAppendsFresh(faults, articles, batch, i + 1, now, ops + 1, count);
      } else if ops + 1 !in faults {
        var d := Stamp(batch[i], now);
        var stamped := batch[i := d];
        WriteFromInserts(faults, articles, batch, i, now, ops, count);
        WriteFromAppendsFresh(faults, articles + [d], stamped, i + 1, now, ops + 2, count + 1);
        var w := WriteFrom(faults, articles + [d], stamped, i + 1, now, ops + 2, count + 1);
        FindOneIffKeyPresent(articles, UrlOf(batch[i]));
        forall a | 0 <= a < |articles| ensures UrlOf(articles[a]) != UrlOf(d) {
          KeyIn(articles, a);
        }
        FreshAfterAppend(articles, d, w.articles);
      }
    }
  }

  /** Whatever fails, every document the write loop appends carries the key
      of some article of the rest of the batch. */
  lemma {:induction false} WriteFromAppendsBatchKeys(faults: Faults, articles: seq<Document>, batch: seq<Document>,
                                                     i: nat, now: Timestamp, ops: nat, count: nat, keys: set<Value>)
    requires i <= |batch|
    requires forall j :: i <= j < |batch| ==> UrlOf(batch[j]) in keys
    ensures var w := WriteFrom(faults, articles, batch, i, now, ops, count);
      forall k :: |articles| <= k < |w.articles| ==> UrlOf(w.articles[k]) in keys
    decreases |batch| - i
  {
    if i < |batch| && ops !in faults {
      if FindOne(articles, UrlOf(batch[i])).Some? {
        WriteFromSkips(faults, articles, batch, i, now, ops, count);
        WriteFromAppendsBatchKeys(faults, articles, batch, i + 1, now, ops + 1, count, keys);
      } else if ops + 1 !in faults {
        var d := Stamp(batch[i], now);
        var stamped := batch[i := d];
        WriteFromInserts(faults, articles, batch, i, now, ops, count);
        forall j | i + 1 <= j < |stamped| ensures UrlOf(stamped[j]) in keys {
          assert stamped[j] == batch[j];
        }
        WriteFromAppendsBatchKeys(faults, articles + [d], stamped, i + 1, now, ops + 2, count + 1, keys);
        var w := WriteFrom(faults, articles + [d], stamped, i + 1, now, ops + 2, count + 1);
        forall k | |articles| <= k < |w.articles| ensures UrlOf(w.articles[k]) in keys {
          if k == |articles| {
            assert w.articles[k] == w.articles[..|articles| + 1][k] == d;
          }
        }
      }
    }
  }

  /** store_news, failing or not, appends only documents whose keys are not
      stored yet and come from the batch; started on a collection without
      repeated keys it leaves one without repeated keys. */
  lemma StoreNewsKeepsKeysDistinct(faults: Faults, articles: seq<Document>, batch: seq<Document>, now: Timestamp, ops: nat)
    requires KeysDistinct(articles)
    ensures var w := StoreNewsSpec(faults, articles, batch, now, ops);
      && KeysDistinct(w.articles)
      && forall k :: |articles| <= k < |w.articles| ==> UrlOf(w.articles[k]) !in Keys(articles) && UrlOf(w.articles[k]) in Keys(batch)
  {
    var w := StoreNewsSpec(faults, articles, batch, now, ops);
    if batch != [] {
      forall j | 0 <= j < |batch| ensures UrlOf(batch[j]) in Keys(batch) {
        KeyIn(batch, j);
      }
      WriteFromAppendsFresh(faults, articles, batch, 0, now, ops, 0);
      WriteFromAppendsBatchKeys(faults, articles, batch, 0, now, ops, 0, Keys(batch));
      assert w == WriteFrom(faults, articles, batch, 0, now, ops, 0);
    }
    assert forall k :: |articles| <= k < |w.articles| ==> UrlOf(w.articles[k]) in Keys(batch);
    forall k | |articles| <= k < |w.articles| ensures UrlOf(w.articles[k]) !in Keys(articles) {
      forall a | 0 <= a < |articles| ensures UrlOf(articles[a]) != UrlOf(w.articles[k]) {
        assert w.articles[a] == w.articles[..|articles|][a];
        FreshKeysDiffer(w.articles, |articles|, a, k);
      }
    }
    forall a, b | 0 <= a < b < |w.articles| ensures UrlOf(w.articles[a]) != UrlOf(w.articles[b]) {
      if b < |articles| {
        assert w.articles[a] == articles[a] && w.articles[b] == articles[b];
      }
    }
  }

  lemma FreshKeysDiffer(docs: seq<Document>, from: nat, a: nat, k: nat)
    requires AppendedFresh(docs, from) && a < k < |docs| && from <= k
    ensures UrlOf(docs[a]) != UrlOf(docs[k])
  {
  }

  lemma AtMostOneNullAppended(docs: seq<Document>, articles: seq<Document>)
    requires |articles| <= |docs| && docs[..|articles|] == articles
    requires AppendedFresh(docs, |articles|)
    requires forall k :: |articles| <= k < |docs| ==> UrlOf(docs[k]) in {Null}
    ensures |docs| <= |articles| + 1
    ensures Null in Keys(articles) ==> |docs| == |articles|
  {
    if |docs| > |articles| + 1 {
      FreshKeysDiffer(docs, |articles|, |articles|, |articles| + 1);
      assert false;
    }
    if Null in Keys(articles) && |docs| > |articles| {
      var j :| 0 <= j < |articles| && UrlOf(articles[j]) == Null;
      assert docs[..|articles|][j] == docs[j];
      FreshKeysDiffer(docs, |articles|, j, |articles|);
      assert false;
    }
  }

  /** A batch none of whose articles has a url shares the single key null:
      store_news then inserts at most one article, and none at all once the
      collection holds a document without a url. */
  lemma UrllessBatchInsertsAtMostOne(faults: Faults, articles: seq<Document>, batch: seq<Document>, now: Timestamp, ops: nat)
    requires forall j :: 0 <= j < |batch| ==> UrlOf(batch[j]) == Null
    ensures var w := StoreNewsSpec(faults, articles, batch, now, ops);
      |w.articles| <= |articles| + 1 &&
      (Null in Keys(articles) ==> w.articles == articles)
  {
    var w := StoreNewsSpec(faults, articles, batch, now, ops);
    if batch != [] {
      var nullKey: set<Value> := {Null};
      WriteFromAppendsFresh(faults, articles, batch, 0, now, ops, 0);
      WriteFromAppendsBatchKeys(faults, articles, batch, 0, now, ops, 0, nullKey);
      assert w == WriteFrom(faults, articles, batch, 0, now, ops, 0);
      AtMostOneNullAppended(w.articles, articles);
      if Null in Keys(articles) {
        assert w.articles == w.articles[..|articles|];
      }
    }
  }

  // ---------------------------------------------------------------------------
  // log_fetch_run

  /** Appending one run-log entry: one store operation. */
  function LogRun(faults: Faults, s: DbState, entry: LogEntry): (DbState, Option<Exception>)
  {
    if s.ops in faults then (s.(ops := s.ops + 1), Some(faults[s.ops]))
    else (s.(logs := s.logs + [entry], ops := s.ops + 1), None)
  }

  // ---------------------------------------------------------------------------
  // The store as an object

  /** The document store reached through `get_collection`. */
  class Database {
    var articles: seq<Document>
    var logs: seq<LogEntry>
    var ops: nat
    var closes: nat
    const faults: Faults

    function State(): DbState
      reads this
    {
      DbState(articles, logs, ops, closes)
    }

    constructor (initial: seq<Document>, schedule: Faults)
      ensures State() == DbState(initial, [], 0, 0) && faults == schedule
    {
      articles, logs, ops, closes := initial, [], 0, 0;
      faults := schedule;
    }

    /** `get_last_stored_date()`. */
    method GetLastStoredDate() returns (r: Result<Option<string>>)
      modifies this`ops
      ensures (State(), r) == Lookup(faults, old(State()))
      ensures r.Ok? ==> r.value == LastStoredDate(articles)
    {
      if ops in faults {
        r := Err(faults[ops]);
      } else {
        r := Ok(LastStoredDate(articles));
      }
      ops := ops + 1;
    }

    /** `collection.find_one({"url": url})` on the articles collection. */
    method FindByUrl(url: Value) returns (r: Result<Option<Document>>)
      modifies this`ops
      ensures ops == old(ops) + 1
      ensures r == if old(ops) in faults then Err(faults[old(ops)]) else Ok(FindOne(articles, url))
    {
      r := if ops in faults then Err(faults[ops]) else Ok(FindOne(articles, url));
      ops := ops + 1;
    }

    /** `collection.insert_one(doc)` on the articles collection. */
    method InsertArticle(doc: Document) returns (failure: Option<Exception>)
      modifies this`articles, this`ops
      ensures ops == old(ops) + 1
      ensures failure == (if old(ops) in faults then Some(faults[old(ops)]) else None)
      ensures articles == if failure.Some? then old(articles) else old(articles) + [doc]
    {
      if ops in faults {
        failure := Some(faults[ops]);
      } else {
        failure := None;
        articles := articles + [doc];
      }
      ops := ops + 1;
    }

    /** One pass of the `store_news` loop body on `batch[i]`: it either stops
        with the exception of a failing operation or leaves the rest of the
        loop to do what the loop from `i + 1` on does. */
    method StoreOne(batch: array<Document>, i: nat, now: Timestamp, count: nat)
      returns (stop: Option<Exception>, newCount: nat)
      requires i < batch.Length
      modifies this`articles, this`ops, batch
      ensures WriteFrom(faults, old(articles), old(batch[..]), i, now, old(ops), count) ==
        if stop.Some? then Written(articles, batch[..], ops, Err(stop.value))
        else WriteFrom(faults, articles, batch[..], i + 1, now, ops, newCount)
    {
      newCount := count;
      var article := batch[i];
      var existing := FindByUrl(UrlOf(article));
      if existing.Err? {
        return Some(existing.error), newCount;
      }
      if existing.value.Some? {
        return None, newCount;
      }
      ghost var before := batch[..];
      batch[i] := Stamp(article, now);
      assert batch[..] == before[i := Stamp(article, now)];
      var failure := InsertArticle(batch[i]);
      if failure.Some? {
        return failure, newCount;
      }
      newCount := count + 1;
      stop := None;
    }

    /** `store_news(articles)`: check-then-insert by url over the batch,
        stamping `stored_at` in place on each article it inserts. */
    method StoreNews(batch: array<Document>, now: Timestamp) returns (r: Result<nat>)
      modifies this`articles, this`ops, batch
      ensures Written(articles, batch[..], ops, r) ==
        StoreNewsSpec(faults, old(articles), old(batch[..]), now, old(ops))
      ensures batch.Length == 0 ==> r == Ok(0) && unchanged(this)
    {
      if batch.Length == 0 {
        return Ok(0);
      }
      var insertedCount: nat := 0;
      var i := 0;
      while i < batch.Length
        invariant 0 <= i <= batch.Length
        invariant WriteFrom(faults, articles, batch[..], i, now, ops, insertedCount) ==
          StoreNewsSpec(faults, old(articles), old(batch[..]), now, old(ops))
      {
        var stop;
        stop, insertedCount := StoreOne(batch, i, now, insertedCount);
        if stop.Some? {
          return Err(stop.value);
        }
        i := i + 1;
      }
      return Ok(insertedCount);
    }

    /** `log_fetch_run(total_fetched, newly_inserted, status, error_msg)`. */
    method LogFetchRun(totalFetched: nat, newlyInserted: nat, status: RunStatus, errorMsg: Option<string>, now: Timestamp)
      returns (failure: Option<Exception>)
      modifies this`logs, this`ops
      ensures (State(), failure) == LogRun(faults, old(State()), LogEntry(now, totalFetched, newlyInserted, status, errorMsg))
      ensures failure.None? ==> logs == old(logs) + [LogEntry(now, totalFetched, newlyInserted, status, errorMsg)]
      ensures failure.Some? ==> logs == old(logs)
    {
      if ops in faults {
        failure := Some(faults[ops]);
      } else {
        failure := None;
        logs := logs + [LogEntry(now, totalFetched, newlyInserted, status, errorMsg)];
      }
      ops := ops + 1;
    }

    /** `close_connection()`. */
    method CloseConnection()
      modifies this`closes
      ensures closes == old(closes) + 1
    {
      closes := closes + 1;
    }
  }
}
