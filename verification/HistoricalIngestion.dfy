/** Candles, pages and the persisted rows as values: `backend/app/services/historical_ingestion.py`. */
module Candles {
  import opened Wrappers

  const KLINES_PER_PAGE: nat := 1000
  const EARLIEST_POSSIBLE_MS: int := 1_262_304_000_000

  datatype Quote = Quote(
    closeTime: int, open: real, high: real, low: real, close: real,
    volume: real, quoteVolume: real, trades: int)

  /** One candle as the exchange reports it; times are milliseconds. */
  datatype Kline = Kline(openMs: int, quote: Quote, isClosed: bool)

  datatype Metadata = Metadata(firstOpen: Option<int>, lastOpen: Option<int>, count: int)

  /** The rows of one symbol, timeframe and source. */
  datatype Store = Store(candles: map<int, Quote>, metadata: Option<Metadata>)

  const EMPTY_STORE := Store(map[], None)

  /**
   * What the exchange holds at one moment: opens on the grid in ascending order, and no candle
   * still open except possibly the last.
   */
  ghost predicate ValidHistory(history: seq<Kline>, stepMs: int) {
    && (forall i :: 0 <= i < |history| ==> history[i].openMs >= EARLIEST_POSSIBLE_MS)
    && (forall i, j :: 0 <= i < j < |history| ==> history[i].openMs + stepMs <= history[j].openMs)
    && (forall i :: 0 <= i < |history| - 1 ==> history[i].isClosed)
  }

  ghost function ClosedPart(history: seq<Kline>): seq<Kline> {
    if history != [] && !history[|history| - 1].isClosed then history[..|history| - 1] else history
  }

  /** The exchange's answer: the first candles opening at or after `startMs`, one page of them. */
  function Page(history: seq<Kline>, startMs: int): seq<Kline> {
    if history == [] then []
    else if history[0].openMs < startMs then Page(history[1..], startMs)
    else if |history| <= KLINES_PER_PAGE then history
    else history[..KLINES_PER_PAGE]
  }

  function ClosedOf(klines: seq<Kline>): seq<Kline> {
    if klines == [] then []
    else
      var rest := ClosedOf(klines[..|klines| - 1]);
      if klines[|klines| - 1].isClosed then rest + [klines[|klines| - 1]] else rest
  }

  function ResumePoint(store: Store, stepMs: int): Option<int> {
    if store.metadata.None? || store.metadata.value.lastOpen.None? then None
    else Some(store.metadata.value.lastOpen.value + stepMs)
  }

  function Upserted(candles: map<int, Quote>, klines: seq<Kline>): map<int, Quote> {
    if klines == [] then candles
    else
      var last := klines[|klines| - 1];
      Upserted(candles, klines[..|klines| - 1])[last.openMs := last.quote]
  }

  /** How many of `klines` were new rows. */
  function InsertedCount(candles: map<int, Quote>, klines: seq<Kline>): (n: nat)
    ensures n <= |klines|
  {
    if klines == [] then 0
    else
      var init, last := klines[..|klines| - 1], klines[|klines| - 1];
      InsertedCount(candles, init) + if last.openMs in Upserted(candles, init) then 0 else 1
  }

  function WidenedMetadata(row: Option<Metadata>, firstOpen: int, lastOpen: int, inserted: nat): Metadata {
    var m := if row.None? then Metadata(None, None, 0) else row.value;
    Metadata(
      if m.firstOpen.None? || firstOpen < m.firstOpen.value then Some(firstOpen) else m.firstOpen,
      if m.lastOpen.None? || lastOpen > m.lastOpen.value then Some(lastOpen) else m.lastOpen,
      m.count + inserted)
  }

  /** The store after one page of closed candles has been written. */
  function Stored(store: Store, closed: seq<Kline>): Store {
    if closed == [] then store
    else
      Store(Upserted(store.candles, closed),
            Some(WidenedMetadata(store.metadata, closed[0].openMs, closed[|closed| - 1].openMs,
                                 InsertedCount(store.candles, closed))))
  }

  /** Where a store that holds exactly `known` resumes. */
  function StartAfter(known: seq<Kline>, stepMs: int): int {
    if known == [] then EARLIEST_POSSIBLE_MS else known[|known| - 1].openMs + stepMs
  }

  ghost function Coverage(known: seq<Kline>): Option<Metadata> {
    if known == [] then None
    else Some(Metadata(Some(known[0].openMs), Some(known[|known| - 1].openMs), |known|))
  }

  ghost predicate Ascending(klines: seq<Kline>) {
    forall i, j :: 0 <= i < j < |klines| ==> klines[i].openMs < klines[j].openMs
  }

  /** The store holds exactly the candles `known`, and its metadata describes them. */
  ghost predicate StoresExactly(store: Store, known: seq<Kline>) {
    store.candles == Upserted(map[], known) && store.metadata == Coverage(known)
  }

  // --- What a run of pages stores ---------------------------------------

  datatype Progress = Progress(known: seq<Kline>, pages: nat, reachedPresent: bool)

  /** The candles known after one more page of what the exchange has closed. */
  ghost function NextKnown(known: seq<Kline>, closed: seq<Kline>): seq<Kline> {
    if |closed| <= |known| + KLINES_PER_PAGE then closed else closed[..|known| + KLINES_PER_PAGE]
  }

  /** One call, whose k-th page finds the exchange holding `views[k]`; `|views|` is its page bound. */
  ghost function Backfilled(known: seq<Kline>, views: seq<seq<Kline>>): Progress
    decreases |views|
  {
    if views == [] then
      Progress(known, 0, false)
    else
      var next := NextKnown(known, ClosedPart(views[0]));
      if |next| < |known| + KLINES_PER_PAGE then
        Progress(next, 1, true)
      else
        var rest := Backfilled(next, views[1..]);
        rest.(pages := rest.pages + 1)
  }

  /** Closed candles never change or vanish: each view extends `known` and the views before it. */
  ghost predicate Growing(known: seq<Kline>, views: seq<seq<Kline>>, stepMs: int)
    decreases |views|
  {
    views == [] ||
    (ValidHistory(views[0], stepMs)
     && known <= ClosedPart(views[0])
     && Growing(ClosedPart(views[0]), views[1..], stepMs))
  }

  lemma {:induction false} GrowingFromLess(
      less: seq<Kline>, more: seq<Kline>, views: seq<seq<Kline>>, stepMs: int)
    requires less <= more && Growing(more, views, stepMs)
    ensures Growing(less, views, stepMs)
  {
  }

  /** The candles from index `m` on are the ones at or after the resume point. */
  lemma {:induction false} PageFrom(history: seq<Kline>, m: nat, startMs: int)
    requires m <= |history|
    requires forall i :: 0 <= i < |history| ==> (history[i].openMs < startMs <==> i < m)
    ensures Page(history, startMs) ==
            if |history| - m <= KLINES_PER_PAGE then history[m..] else history[m..m + KLINES_PER_PAGE]
    decreases |history|
  {
    if history != [] && m > 0 {
      var rest := history[1..];
      forall i | 0 <= i < |rest| ensures rest[i].openMs < startMs <==> i < m - 1 {
        assert rest[i] == history[i + 1];
      }
      PageFrom(rest, m - 1, startMs);
      assert rest[m - 1..] == history[m..];
    }
  }

  lemma {:induction false} ClosedOfAll(klines: seq<Kline>)
    requires forall k <- klines :: k.isClosed
    ensures ClosedOf(klines) == klines
    decreases |klines|
  {
    if klines != [] {
      var init := klines[..|klines| - 1];
      ClosedOfAll(init);
      assert klines == init + [klines[|klines| - 1]];
    }
  }

  /** Only the candles already known open before the resume point. */
  lemma {:induction false} ResumesAfterKnown(history: seq<Kline>, known: seq<Kline>, stepMs: int)
    requires ValidHistory(history, stepMs) && stepMs > 0 && known <= ClosedPart(history)
    ensures forall i :: 0 <= i < |history| ==> (history[i].openMs < StartAfter(known, stepMs) <==> i < |known|)
  {
    if known != [] {
      assert known[|known| - 1] == history[|known| - 1];
    }
  }

  lemma {:induction false} ClosedOfSnoc(closed: seq<Kline>, last: Kline)
    requires forall k <- closed :: k.isClosed
    requires !last.isClosed
    ensures ClosedOf(closed + [last]) == closed
  {
    ClosedOfAll(closed);
    assert (closed + [last])[..|closed|] == closed;
  }

  /** Of a stretch of history, only a last open candle is not closed. */
  lemma {:induction false} ClosedOfStretch(history: seq<Kline>, m: nat, e: nat, stepMs: int)
    requires ValidHistory(history, stepMs) && m <= |ClosedPart(history)| && m <= e <= |history|
    ensures var closed := ClosedPart(history);
            ClosedOf(history[m..e]) == closed[m..if e <= |closed| then e else |closed|]
  {
    var closed := ClosedPart(history);
    if e <= |closed| {
      assert history[m..e] == closed[m..e];
      ClosedOfAll(closed[m..e]);
    } else {
      assert closed[m..] == history[m..e - 1];
      assert history[m..e] == history[m..e - 1] + [history[e - 1]];
      ClosedOfSnoc(closed[m..], history[e - 1]);
    }
  }

  lemma {:induction false} NextKnownStretch(known: seq<Kline>, closed: seq<Kline>)
    requires known <= closed
    ensures var m := |known|;
            NextKnown(known, closed) ==
            known + closed[m..if |closed| <= m + KLINES_PER_PAGE then |closed| else m + KLINES_PER_PAGE]
  {
  }

  /** Dropping the open candle of a page leaves the next stretch of closed candles. */
  lemma {:induction false} ClosedOfPage(history: seq<Kline>, known: seq<Kline>, stepMs: int)
    requires ValidHistory(history, stepMs) && stepMs > 0 && known <= ClosedPart(history)
    ensures known + ClosedOf(Page(history, StartAfter(known, stepMs))) == NextKnown(known, ClosedPart(history))
  {
    var m, n := |known|, |history|;
    ResumesAfterKnown(history, known, stepMs);
    PageFrom(history, m, StartAfter(known, stepMs));
    var e := if n - m <= KLINES_PER_PAGE then n else m + KLINES_PER_PAGE;
    assert Page(history, StartAfter(known, stepMs)) == history[m..e] by {
      assert history[m..n] == history[m..];
    }
    ClosedOfStretch(history, m, e, stepMs);
    NextKnownStretch(known, ClosedPart(history));
  }


  /** Writing later candles only adds rows, one for each. */
  lemma {:induction false} UpsertedExtends(known: seq<Kline>, more: seq<Kline>)
    requires Ascending(known + more)
    ensures Upserted(Upserted(map[], known), more) == Upserted(map[], known + more)
    ensures InsertedCount(Upserted(map[], known), more) == |more|
    decreases |more|
  {
    if more == [] {
      assert known + more == known;
    } else {
      var init, last := more[..|more| - 1], more[|more| - 1];
      var all := known + more;
      assert all[..|all| - 1] == known + init && all[|all| - 1] == last;
      UpsertedExtends(known, init);
      UpsertedKeys(map[], known + init);
      forall k <- known + init ensures k.openMs != last.openMs {
        var i :| 0 <= i < |known + init| && (known + init)[i] == k;
        assert all[i] == k;
      }
    }
  }

  lemma {:induction false} UpsertedKeys(candles: map<int, Quote>, klines: seq<Kline>)
    ensures forall t :: t in Upserted(candles, klines) <==> t in candles || exists k <- klines :: k.openMs == t
    decreases |klines|
  {
    if klines != [] {
      var init, last := klines[..|klines| - 1], klines[|klines| - 1];
      UpsertedKeys(candles, init);
      assert klines == init + [last];
    }
  }

  /** Each stored row is the candle the exchange closed at that time. */
  lemma {:induction false} UpsertedRow(klines: seq<Kline>, i: nat)
    requires Ascending(klines) && i < |klines|
    ensures klines[i].openMs in Upserted(map[], klines)
    ensures Upserted(map[], klines)[klines[i].openMs] == klines[i].quote
    decreases |klines|
  {
    if i < |klines| - 1 {
      UpsertedRow(klines[..|klines| - 1], i);
    }
  }

  /** One row a candle, when no two open together. */
  lemma {:induction false} OneRowEach(klines: seq<Kline>)
    requires Ascending(klines)
    ensures |Upserted(map[], klines)| == |klines|
    decreases |klines|
  {
    if klines != [] {
      var init, last := klines[..|klines| - 1], klines[|klines| - 1];
      OneRowEach(init);
      UpsertedKeys(map[], init);
      assert last.openMs !in Upserted(map[], init);
    }
  }

  /** The recorded count is the number of stored rows. */
  ghost predicate CountsItsRows(store: Store) {
    if store.metadata.None? then |store.candles| == 0 else store.metadata.value.count == |store.candles|
  }

  lemma {:induction false} StoreCountsItsRows(store: Store, known: seq<Kline>)
    requires StoresExactly(store, known) && Ascending(known)
    ensures CountsItsRows(store)
  {
    OneRowEach(known);
  }

  lemma {:induction false} NothingIsStoredAtFirst()
    ensures StoresExactly(EMPTY_STORE, []) && CountsItsRows(EMPTY_STORE)
  {
  }

  lemma {:induction false} CoverageWidens(known: seq<Kline>, more: seq<Kline>)
    requires Ascending(known + more) && more != []
    ensures Some(WidenedMetadata(Coverage(known), more[0].openMs, more[|more| - 1].openMs, |more|))
            == Coverage(known + more)
  {
    var all := known + more;
    assert all[|all| - 1] == more[|more| - 1];
    if known != [] {
      assert all[|known| - 1] == known[|known| - 1] && all[0] == known[0] && all[|known|] == more[0];
    }
  }

  /** Writing the candles that follow the known ones stores exactly both. */
  lemma {:induction false} StoringMore(store: Store, known: seq<Kline>, more: seq<Kline>)
    requires StoresExactly(store, known) && Ascending(known + more)
    ensures StoresExactly(Stored(store, more), known + more)
    ensures InsertedCount(store.candles, more) == |more|
  {
    UpsertedExtends(known, more);
    if more == [] {
      assert known + more == known;
    } else {
      CoverageWidens(known, more);
    }
  }

  /** One page written on top of `known` stores exactly the next stretch of closed candles. */
  lemma {:induction false} PageIsStored(store: Store, known: seq<Kline>, history: seq<Kline>, stepMs: int)
    requires StoresExactly(store, known) && stepMs > 0
    requires ValidHistory(history, stepMs) && known <= ClosedPart(history)
    ensures var closed := ClosedOf(Page(history, StartAfter(known, stepMs)));
            var next := NextKnown(known, ClosedPart(history));
            && StoresExactly(Stored(store, closed), next)
            && known + closed == next
            && InsertedCount(store.candles, closed) == |closed|
            && CountsItsRows(Stored(store, closed))
  {
    hide Page, ClosedOf, NextKnown, StoresExactly, CountsItsRows;
    var closed := ClosedOf(Page(history, StartAfter(known, stepMs)));
    ClosedOfPage(history, known, stepMs);
    NextKnownIsPrefix(known, ClosedPart(history));
    AscendingPrefix(history, known + closed, stepMs);
    StoringMore(store, known, closed);
    StoreCountsItsRows(Stored(store, closed), known + closed);
  }

  lemma {:induction false} NextKnownIsPrefix(known: seq<Kline>, closed: seq<Kline>)
    requires known <= closed
    ensures known <= NextKnown(known, closed) <= closed
  {
  }

  lemma {:induction false} AscendingPrefix(history: seq<Kline>, prefix: seq<Kline>, stepMs: int)
    requires ValidHistory(history, stepMs) && stepMs > 0 && prefix <= history
    ensures Ascending(prefix)
  {
    forall i, j | 0 <= i < j < |prefix| ensures prefix[i].openMs < prefix[j].openMs {
      assert prefix[i] == history[i] && prefix[j] == history[j];
    }
  }

  // --- Whole histories of calls ------------------------------------------

  /** The last view a call consulted; it may stop before using all of them. */
  ghost function ClosedAtEnd(known: seq<Kline>, views: seq<seq<Kline>>): seq<Kline> {
    var pages := Backfilled(known, views).pages;
    if 0 < pages <= |views| then ClosedPart(views[pages - 1]) else known
  }

  /**
   * A call always leaves a contiguous prefix of the closed candles and keeps all it started from.
   * If it reports the present it stored every closed candle there was; it stores them all without
   * reporting so exactly when they fill its last page to the brim.
   */
  lemma {:induction false} CallStoresAPrefix(known: seq<Kline>, views: seq<seq<Kline>>, stepMs: int)
    requires Growing(known, views, stepMs)
    ensures var p := Backfilled(known, views);
            && p.pages <= |views|
            && known <= p.known <= ClosedAtEnd(known, views)
            && (p.reachedPresent ==> p.known == ClosedAtEnd(known, views))
            && (!p.reachedPresent ==> p.pages == |views| && |p.known| == |known| + KLINES_PER_PAGE * |views|)
            && (p.known == ClosedAtEnd(known, views)
                <==> p.reachedPresent || |ClosedAtEnd(known, views)| == |known| + KLINES_PER_PAGE * |views|)
    decreases |views|
  {
    if views != [] {
      var closed := ClosedPart(views[0]);
      var next := NextKnown(known, closed);
      assert next <= closed && known <= next;
      GrowingFromLess(next, closed, views[1..], stepMs);
      CallStoresAPrefix(next, views[1..], stepMs);
      var rest := Backfilled(next, views[1..]);
      if |next| >= |known| + KLINES_PER_PAGE && rest.pages > 0 {
        assert views[1..][rest.pages - 1] == views[rest.pages];
      }
    }
  }

  ghost function Repeated(history: seq<Kline>, pages: nat): seq<seq<Kline>> {
    seq(pages, _ => history)
  }

  /** Against a history that stands still, the outcome depends on the page budget alone. */
  lemma {:induction false} FixedHistoryOutcome(known: seq<Kline>, history: seq<Kline>, pages: nat)
    requires known <= ClosedPart(history)
    ensures var p := Backfilled(known, Repeated(history, pages));
            var closed := ClosedPart(history);
            && p.reachedPresent == (|closed| - |known| < KLINES_PER_PAGE * pages)
            && p.known == (if p.reachedPresent then closed else closed[..|known| + KLINES_PER_PAGE * pages])
            && p.pages == (if p.reachedPresent then (|closed| - |known|) / KLINES_PER_PAGE + 1 else pages)
    decreases pages
  {
    if pages > 0 {
      var closed := ClosedPart(history);
      var next := NextKnown(known, closed);
      assert Repeated(history, pages)[1..] == Repeated(history, pages - 1);
      FixedHistoryOutcome(next, history, pages - 1);
    }
  }

  /** Any number of calls, each with its own page budget, each free to be cut short after a page. */
  ghost function AfterCalls(known: seq<Kline>, history: seq<Kline>, budgets: seq<nat>): seq<Kline>
    decreases |budgets|
  {
    if budgets == [] then known
    else AfterCalls(Backfilled(known, Repeated(history, budgets[0])).known, history, budgets[1..])
  }

  ghost function TotalPages(budgets: seq<nat>): nat {
    if budgets == [] then 0 else budgets[0] + TotalPages(budgets[1..])
  }

  /**
   * How the work is divided makes no difference: calls and interruptions that grant `n` pages in
   * all store what one call of `n` pages stores, which is everything once `n` pages are enough.
   */
  lemma {:induction false} DivisionDoesNotMatter(known: seq<Kline>, history: seq<Kline>, budgets: seq<nat>)
    requires known <= ClosedPart(history)
    ensures var closed, total := ClosedPart(history), TotalPages(budgets);
            AfterCalls(known, history, budgets) ==
            if |known| + KLINES_PER_PAGE * total < |closed|
            then closed[..|known| + KLINES_PER_PAGE * total] else closed
    decreases |budgets|
  {
    if budgets != [] {
      FixedHistoryOutcome(known, history, budgets[0]);
      var next := Backfilled(known, Repeated(history, budgets[0])).known;
      DivisionDoesNotMatter(next, history, budgets[1..]);
    }
  }
}

/** The paging loop and the rows it writes: `backend/app/services/historical_ingestion.py`. */
module HistoricalIngestion {
  import opened Wrappers
  import opened Candles

  datatype StoppedReason = ReachedPresent | MaxPagesReached

  datatype IngestionResult = IngestionResult(
    pagesFetched: nat, candlesInserted: nat, candlesUpdated: nat,
    reachedPresent: bool, stoppedReason: StoppedReason)

  /** One database session: `rows` is what it sees, `committed` what survives an interruption. */
  class Session {
    var rows: Store
    var committed: Store

    /** On what the database holds; a new database holds nothing. */
    constructor (stored: Store := EMPTY_STORE)
      ensures rows == committed == stored
      ensures stored == EMPTY_STORE ==> StoresExactly(rows, []) && CountsItsRows(rows)
    {
      NothingIsStoredAtFirst();
      rows, committed := stored, stored;
    }

    method Commit()
      modifies this
      ensures rows == committed == old(rows)
    {
      committed := rows;
    }

    /** An interruption: everything since the last commit is gone. */
    method Rollback()
      modifies this
      ensures rows == committed == old(committed)
    {
      rows := committed;
    }

    method UpsertCandles(klines: seq<Kline>) returns (inserted: nat, updated: nat)
      modifies this`rows
      ensures rows == old(rows).(candles := Upserted(old(rows).candles, klines))
      ensures inserted == InsertedCount(old(rows).candles, klines)
      ensures inserted + updated == |klines|
    {
      inserted, updated := 0, 0;
      assert klines[..|klines|] == klines;
      for i := 0 to |klines|
        invariant rows == old(rows).(candles := Upserted(old(rows).candles, klines[..i]))
        invariant inserted == InsertedCount(old(rows).candles, klines[..i])
        invariant inserted + updated == i
      {
        assert klines[..i + 1][..i] == klines[..i];
        if klines[i].openMs in rows.candles {
          updated := updated + 1;
        } else {
          inserted := inserted + 1;
        }
        rows := rows.(candles := rows.candles[klines[i].openMs := klines[i].quote]);
      }
    }

    method UpdateMetadata(firstOpen: int, lastOpen: int, inserted: nat)
      modifies this`rows
      ensures rows == old(rows).(metadata := Some(WidenedMetadata(old(rows).metadata, firstOpen, lastOpen, inserted)))
    {
      var row := if rows.metadata.None? then Metadata(None, None, 0) else rows.metadata.value;
      if row.firstOpen.None? || firstOpen < row.firstOpen.value {
        row := row.(firstOpen := Some(firstOpen));
      }
      if row.lastOpen.None? || lastOpen > row.lastOpen.value {
        row := row.(lastOpen := Some(lastOpen));
      }
      row := row.(count := row.count + inserted);
      rows := rows.(metadata := Some(row));
    }
  }

  /** Writes the closed candles of one page and commits; a page without any writes nothing. */
  method StorePage(session: Session, closed: seq<Kline>) returns (inserted: nat, updated: nat)
    requires session.rows == session.committed
    modifies session
    ensures session.rows == session.committed == Stored(old(session.rows), closed)
    ensures inserted == InsertedCount(old(session.rows).candles, closed)
    ensures inserted + updated == |closed|
  {
    inserted, updated := 0, 0;
    if closed != [] {
      inserted, updated := session.UpsertCandles(closed);
      session.UpdateMetadata(closed[0].openMs, closed[|closed| - 1].openMs, inserted);
      session.Commit();
    }
  }

  /** One page: fetch, keep what is closed, write it and move the start past it. */
  method IngestPage(session: Session, view: seq<Kline>, startMs: int, stepMs: int,
                    result: IngestionResult, ghost known: seq<Kline>)
    returns (nextStart: int, next: IngestionResult, full: bool)
    requires stepMs > 0 && ValidHistory(view, stepMs) && known <= ClosedPart(view)
    requires session.rows == session.committed && StoresExactly(session.rows, known)
    requires startMs == StartAfter(known, stepMs)
    modifies session
    ensures var now := NextKnown(known, ClosedPart(view));
            && StoresExactly(session.rows, now) && CountsItsRows(session.rows)
            && nextStart == StartAfter(now, stepMs)
            && full == (|now| >= |known| + KLINES_PER_PAGE)
            && next == result.(pagesFetched := result.pagesFetched + 1,
                               candlesInserted := result.candlesInserted + (|now| - |known|))
    ensures session.rows == session.committed
  {
    hide Page, ClosedOf, NextKnown, StoresExactly, CountsItsRows, StartAfter, Stored, InsertedCount, ValidHistory,
         ClosedPart;
    PageIsStored(session.rows, known, view, stepMs);
    var klines := Page(view, startMs);
    var closed := ClosedOf(klines);
    StartAfterPage(known, closed, stepMs);
    var inserted, updated := StorePage(session, closed);
    next := result.(pagesFetched := result.pagesFetched + 1,
                    candlesInserted := result.candlesInserted + inserted,
                    candlesUpdated := result.candlesUpdated + updated);
    nextStart := if closed != [] then closed[|closed| - 1].openMs + stepMs else startMs;
    full := |closed| >= KLINES_PER_PAGE;
  }

  /**
   * Backfills from where the store left off, committing after every page. Page `k` finds the
   * exchange holding `views[k]`, and `|views|` is the page bound of the call.
   */
  method BackfillSymbolTimeframe(
      session: Session, views: seq<seq<Kline>>, stepMs: int, ghost known: seq<Kline>)
    returns (result: IngestionResult)
    requires stepMs > 0 && Growing(known, views, stepMs)
    requires session.rows == session.committed && StoresExactly(session.rows, known)
    modifies session
    ensures session.rows == session.committed
    ensures StoresExactly(session.committed, Backfilled(known, views).known)
    ensures old(CountsItsRows(session.rows)) ==> CountsItsRows(session.committed)
    ensures result.pagesFetched == Backfilled(known, views).pages
    ensures result.reachedPresent == Backfilled(known, views).reachedPresent
    ensures result.stoppedReason == if result.reachedPresent then ReachedPresent else MaxPagesReached
    ensures result.candlesInserted == |Backfilled(known, views).known| - |known|
    ensures result.candlesUpdated == 0
  {
    hide Growing, Backfilled, NextKnown, StoresExactly, CountsItsRows, StartAfter, ValidHistory, ClosedPart;
    var resume := ResumePoint(session.rows, stepMs);
    var startMs := if resume.None? then EARLIEST_POSSIBLE_MS else resume.value;
    ResumesWhereItStopped(session.rows, known, stepMs);
    result := IngestionResult(0, 0, 0, false, MaxPagesReached);
    ghost var now := known;
    assert views[0..] == views;
    for page := 0 to |views|
      invariant session.rows == session.committed && StoresExactly(session.rows, now)
      invariant old(CountsItsRows(session.rows)) ==> CountsItsRows(session.rows)
      invariant |known| <= |now| && Growing(now, views[page..], stepMs)
      invariant startMs == StartAfter(now, stepMs)
      invariant result == IngestionResult(page, |now| - |known|, 0, false, MaxPagesReached)
      invariant Backfilled(known, views) == LaterPages(Backfilled(now, views[page..]), page)
    {
      OnePage(known, now, views, page, stepMs);
      var full;
      startMs, result, full := IngestPage(session, views[page], startMs, stepMs, result, now);
      now := NextKnown(now, ClosedPart(views[page]));
      if !full {
        result := result.(reachedPresent := true, stoppedReason := ReachedPresent);
        return;
      }
    }
    NoMorePages(now, views[|views|..]);
  }

  lemma {:induction false} ResumesWhereItStopped(store: Store, known: seq<Kline>, stepMs: int)
    requires StoresExactly(store, known)
    ensures var resume := ResumePoint(store, stepMs);
            StartAfter(known, stepMs) == if resume.None? then EARLIEST_POSSIBLE_MS else resume.value
  {
  }

  lemma {:induction false} NoMorePages(known: seq<Kline>, views: seq<seq<Kline>>)
    requires views == []
    ensures Backfilled(known, views) == Progress(known, 0, false)
  {
  }

  /**
   * A call cut down in its `p`-th page, after the rows are written and before they are committed:
   * what survives is what the pages before it stored.
   */
  method BackfillInterrupted(
      session: Session, views: seq<seq<Kline>>, p: nat, stepMs: int, ghost known: seq<Kline>)
    requires stepMs > 0 && p < |views| && Growing(known, views, stepMs)
    requires session.rows == session.committed && StoresExactly(session.rows, known)
    modifies session
    ensures session.rows == session.committed
    ensures StoresExactly(session.committed, Backfilled(known, views[..p]).known)
  {
    GrowingPrefix(known, views, p, stepMs);
    var result := BackfillSymbolTimeframe(session, views[..p], stepMs, known);
    if !result.reachedPresent {
      var resume := ResumePoint(session.rows, stepMs);
      var startMs := if resume.None? then EARLIEST_POSSIBLE_MS else resume.value;
      var closed := ClosedOf(Page(views[p], startMs));
      var inserted, _ := session.UpsertCandles(closed);
      if closed != [] {
        session.UpdateMetadata(closed[0].openMs, closed[|closed| - 1].openMs, inserted);
      }
      session.Rollback();
    }
  }

  lemma {:induction false} GrowingPrefix(known: seq<Kline>, views: seq<seq<Kline>>, p: nat, stepMs: int)
    requires p <= |views| && Growing(known, views, stepMs)
    ensures Growing(known, views[..p], stepMs)
    decreases p
  {
    if p > 0 {
      GrowingPrefix(ClosedPart(views[0]), views[1..], p - 1, stepMs);
      assert views[..p][1..] == views[1..][..p - 1];
    }
  }

  /** What a page contributes to the outcome of the call. */
  lemma {:induction false} OnePage(known: seq<Kline>, now: seq<Kline>, views: seq<seq<Kline>>, page: nat, stepMs: int)
    requires page < |views| && Growing(now, views[page..], stepMs)
    requires Backfilled(known, views) == LaterPages(Backfilled(now, views[page..]), page)
    ensures ValidHistory(views[page], stepMs) && now <= ClosedPart(views[page])
    ensures var next := NextKnown(now, ClosedPart(views[page]));
            && |now| <= |next|
            && Growing(next, views[page + 1..], stepMs)
            && Backfilled(known, views) ==
               if |next| < |now| + KLINES_PER_PAGE then Progress(next, page + 1, true)
               else LaterPages(Backfilled(next, views[page + 1..]), page + 1)
  {
    assert views[page..][1..] == views[page + 1..];
    GrowingFromLess(NextKnown(now, ClosedPart(views[page])), ClosedPart(views[page]), views[page + 1..], stepMs);
  }

  lemma {:induction false} StartAfterPage(known: seq<Kline>, closed: seq<Kline>, stepMs: int)
    ensures StartAfter(known + closed, stepMs) ==
            if closed == [] then StartAfter(known, stepMs) else closed[|closed| - 1].openMs + stepMs
  {
    if closed == [] {
      assert known + closed == known;
    }
  }

  ghost function LaterPages(p: Progress, earlier: nat): Progress {
    p.(pages := p.pages + earlier)
  }
}
