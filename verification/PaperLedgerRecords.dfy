/** What each call on the persisted account writes, said from the tables and the request. */
module PaperLedgerRecords {
  import opened Wrappers
  import opened Sums
  import opened Fills
  import opened PositionSizing
  import opened RiskEngine
  import opened Books
  import opened Simulator
  import opened VenueEffects
  import opened EntryVerdicts
  import opened PaperLedger
  import opened PaperLedgerProofs
  import opened PaperLedgerTables
  import opened PaperLedgerRuns

  // --- The account in the tables --------------------------------------------

  ghost function NetOf(trades: seq<Trade>): real {
    if trades == [] then 0.0 else NetOf(trades[..|trades| - 1]) + trades[|trades| - 1].netPnl
  }

  ghost function CostOfRow(row: PositionRow): real {
    if row.isOpen then row.quantity * row.entryPrice + row.feesPaid else 0.0
  }

  /** What the open rows have cost, entry fees included. */
  ghost function CostOf(rows: seq<PositionRow>): real {
    if rows == [] then 0.0 else CostOf(rows[..|rows| - 1]) + CostOfRow(rows[|rows| - 1])
  }

  ghost function WorthOfRow(row: PositionRow, prices: Prices): real {
    if row.isOpen then row.quantity * (if row.symbol in prices then prices[row.symbol] else row.entryPrice) else 0.0
  }

  /** The open rows at their prices, each without a price at what it was bought for. */
  ghost function RowsWorth(rows: seq<PositionRow>, prices: Prices): real {
    if rows == [] then 0.0 else RowsWorth(rows[..|rows| - 1], prices) + WorthOfRow(rows[|rows| - 1], prices)
  }

  ghost function CashIn(settings: Settings, tables: Tables): real {
    settings.initialBalance + NetOf(tables.trades) - CostOf(tables.positions)
  }

  ghost function EquityIn(settings: Settings, tables: Tables, prices: Prices): real {
    CashIn(settings, tables) + RowsWorth(tables.positions, prices)
  }

  /** Some row is an open one in `symbol`. */
  ghost predicate HasOpen(tables: Tables, symbol: string) {
    exists row <- tables.positions :: row.isOpen && row.symbol == symbol
  }

  lemma {:induction false} NetIsSum(trades: seq<Trade>)
    ensures NetOf(trades) == SumOf(trades, NetPnl)
    decreases |trades|
  {
    if trades != [] {
      NetIsSum(trades[..|trades| - 1]);
    }
  }

  lemma {:induction false} OpenRowsCost(rows: seq<PositionRow>)
    ensures CostOf(rows) == SumOf(OpenRows(rows), CommittedBy)
    decreases |rows|
  {
    if rows != [] {
      var init, row := rows[..|rows| - 1], rows[|rows| - 1];
      OpenRowsCost(init);
      if row.isOpen {
        SumSnoc(OpenRows(init), row, CommittedBy);
      } else {
        assert OpenRows(rows) == OpenRows(init);
      }
    }
  }

  lemma {:induction false} OpenRowsAreWorth(rows: seq<PositionRow>, prices: Prices)
    ensures RowsWorth(rows, prices) == Worth(AsPositions(OpenRows(rows)), prices)
    decreases |rows|
  {
    hide AsPositions;
    if rows == [] {
      NothingIsWorthNothing(prices);
    } else {
      var init, row := rows[..|rows| - 1], rows[|rows| - 1];
      OpenRowsAreWorth(init, prices);
      if row.isOpen {
        AsPositionsAppend(OpenRows(init), row);
        WorthOfOneMore(AsPositions(OpenRows(init)), PositionOf(row), prices);
        hide Worth;
      } else {
        assert OpenRows(rows) == OpenRows(init);
      }
    }
  }

  lemma {:induction false} NothingIsWorthNothing(prices: Prices)
    ensures Worth(AsPositions([]), prices) == 0.0
  {
  }

  lemma {:induction false} WorthOfOneMore(positions: seq<Position>, p: Position, prices: Prices)
    ensures Worth(positions + [p], prices)
            == Worth(positions, prices) + p.quantity * (if p.symbol in prices then prices[p.symbol] else p.entryPrice)
  {
    assert (positions + [p])[..|positions|] == positions;
  }

  /** The rebuilt venue has the cash, the worth and the holdings that the tables come to. */
  lemma {:induction false} RebuiltHas(settings: Settings, tables: Tables, prices: Prices)
    requires WellKept(tables)
    ensures var v := Rebuilt(settings, tables);
            && v.book.cash == CashIn(settings, tables) && Tallied(v.book)
            && Worth(v.book.positions, prices) == RowsWorth(tables.positions, prices)
            && Equity(v.book, prices) == EquityIn(settings, tables, prices)
            && v.rejectedCount == 0
  {
    hide Rebuilt, Equity, Worth, OpenRows, AsPositions, NetOf, CostOf, RowsWorth, SumOf;
    RebuiltIs(settings, tables);
    NetIsSum(tables.trades);
    OpenRowsCost(tables.positions);
    OpenRowsAreWorth(tables.positions, prices);
    EquityIsCashAndWorth(Rebuilt(settings, tables).book, prices);
  }

  /** A symbol is held in the rebuilt venue just if a row in it is open. */
  lemma {:induction false} RebuiltHolds(settings: Settings, tables: Tables, symbol: string)
    requires WellKept(tables)
    ensures Find(Rebuilt(settings, tables).book.positions, symbol).Some? <==> HasOpen(tables, symbol)
  {
    hide Rebuilt, Find, WellKept;
    RebuiltFinds(settings, tables, symbol);
    var at := OpenRowAt(tables.positions, symbol);
    assert at.Some? ==> tables.positions[at.value] in tables.positions;
  }

  // --- Prices of what is held -----------------------------------------------

  lemma {:induction false} EntryPricesMarkAtEntry(positions: seq<Position>)
    requires DistinctSymbols(positions)
    ensures forall p <- positions ::
              p.symbol in EntryPrices(positions) && EntryPrices(positions)[p.symbol] == p.entryPrice
    ensures forall s <- EntryPrices(positions) :: exists p <- positions :: p.symbol == s
    decreases |positions|
  {
    if positions != [] {
      var init, last := positions[..|positions| - 1], positions[|positions| - 1];
      LastIsAlone(positions);
      EntryPricesMarkAtEntry(init);
      assert positions == init + [last];
    }
  }

  lemma {:induction false} SameMarksSameWorth(positions: seq<Position>, prices: Prices, others: Prices)
    requires forall p <- positions :: MarkOf(p, prices) == MarkOf(p, others)
    ensures Worth(positions, prices) == Worth(positions, others)
    decreases |positions|
  {
    if positions != [] {
      assert positions[|positions| - 1] in positions;
      SameMarksSameWorth(positions[..|positions| - 1], prices, others);
    }
  }

  /** The prices an entry is judged at mark every other holding at its entry price. */
  lemma {:induction false} PricesForMarkAtEntry(b: Book, symbol: string, price: real)
    requires DistinctSymbols(b.positions) && Find(b.positions, symbol).None?
    ensures Worth(b.positions, PricesFor(b, symbol, price)) == Worth(b.positions, map[])
    ensures WorthIn(b.positions, PricesFor(b, symbol, price), symbol) == 0.0
  {
    EntryPricesMarkAtEntry(b.positions);
    var prices := PricesFor(b, symbol, price);
    forall p <- b.positions ensures MarkOf(p, prices) == MarkOf(p, map[]) {
    }
    SameMarksSameWorth(b.positions, prices, map[]);
    NoneIsWorthNothing(b.positions, prices, symbol);
  }

  // --- Opening ----------------------------------------------------------------

  /** What the size of an entry is worked out from. */
  ghost function SizedFromTables(settings: Settings, tables: Tables, r: OpenRequest, price: real): SizingRequest {
    SizingRequest(EquityIn(settings, tables, map[]), CashIn(settings, tables), price, Some(r.stopPrice),
                  settings.setup.config.feeRate, 0.0, RowsWorth(tables.positions, map[]))
  }

  ghost function SizeAsked(settings: Settings, tables: Tables, r: OpenRequest, price: real): PositionSize {
    CalculatePositionSize(SizedFromTables(settings, tables, r, price), settings.setup.risk, settings.filters(r.symbol))
  }

  /** A new row, open, that is what the request asked for at the price it was asked at. */
  ghost predicate RowAsAsked(settings: Settings, tables: Tables, r: OpenRequest, price: real, row: PositionRow) {
    && row.isOpen && row.symbol == r.symbol && row.entryTime == r.now
    && row.stopLoss == Some(r.stopPrice) && row.takeProfit == r.takeProfit
    && row.trailingStop == r.trailingDistance && row.signalId == r.signalId
    && row.exitPrice == None && row.exitTime == None && row.realisedPnl == None
    && SizeAsked(settings, tables, r, price).Sized?
    && row.quantity == SizeAsked(settings, tables, r, price).quantity
    && row.entryPrice == price * (1.0 + settings.setup.config.slippageBps / 10000.0)
    && row.feesPaid == settings.setup.config.feeRate * (row.quantity * row.entryPrice)
  }

  /** The entry the risk engine is asked about, and the prices it sees. */
  ghost function EntryAsked(settings: Settings, r: OpenRequest, price: real): Entry {
    Entry(r.symbol, price, Some(r.stopPrice), settings.filters(r.symbol), None, None)
  }

  ghost predicate Refused(settings: Settings, tables: Tables, r: OpenRequest, price: real, k: nat)
    requires k < |ORDER|
  {
    var v := Rebuilt(settings, tables);
    RefusesFirst(k, settings.setup, v, EntryAsked(settings, r, price), PricesFor(v.book, r.symbol, price), r.now,
                 SystemState(Running, false, 0, true))
  }

  lemma {:induction false} OpenErrors(settings: Settings, tables: Tables, r: OpenRequest)
    requires WellKept(tables)
    ensures HasOpen(tables, r.symbol) ==> OpenTrade(settings, tables, r) == Err(PositionAlreadyOpen)
    ensures !HasOpen(tables, r.symbol) && r.price.None? ==> OpenTrade(settings, tables, r) == Err(PriceUnavailable)
  {
    hide Rebuilt, EnterTrade, Find;
    RebuiltHolds(settings, tables, r.symbol);
  }

  /** What becomes of an entry that may be asked for: its verdict, and then its order. */
  ghost predicate EnteredAsAsked(
      settings: Settings, tables: Tables, r: OpenRequest, price: real,
      result: Result<(Tables, OpenTradeResult), AccountError>)
  {
    match result
    case Ok(done) =>
      (match done.1
       case TradeRejected(rule) =>
         done.0 == tables && exists k :: 0 <= k < |ORDER| && ORDER[k] == rule && Refused(settings, tables, r, price, k)
       case TradeOpened(row) =>
         && RowAsAsked(settings, tables, r, price, row)
         && done.0.positions == tables.positions + [row] && done.0.trades == tables.trades
         && done.0.snapshots
            == tables.snapshots + [EquityIn(settings, done.0, map[r.symbol := price])])
    case Err(error) =>
      && error == OrderRefused(CostExceedsBalance)
      && SizeAsked(settings, tables, r, price).Sized?
      && var q := SizeAsked(settings, tables, r, price).quantity;
         var paid := price * (1.0 + settings.setup.config.slippageBps / 10000.0);
         q * paid + settings.setup.config.feeRate * (q * paid) > CashIn(settings, tables)
  }

  /**
   * An open that may be asked for either is refused, by the first rule that the account meets and with
   * nothing written; or raises because, slippage and fee included, the size costs more than the cash;
   * or adds a row that is the trade asked for, of the size that the account, the price and the stop allow,
   * and a snapshot of the equity.
   */
  lemma {:induction false} WhatOpeningWrites(settings: Settings, tables: Tables, r: OpenRequest)
    requires settings.setup.InRange() && WellKept(tables) && !HasOpen(tables, r.symbol) && r.price.Some?
    ensures EnteredAsAsked(settings, tables, r, r.price.value, OpenTrade(settings, tables, r))
  {
    hide Rebuilt, EnterTrade, Find, EnteredAsAsked, WellKept, HasOpen;
    RebuiltHolds(settings, tables, r.symbol);
    WhatEnteringWrites(settings, tables, r, r.price.value);
  }

  lemma {:induction false} AskedOfTheTables(settings: Settings, tables: Tables, r: OpenRequest, price: real)
    requires WellKept(tables) && Find(Rebuilt(settings, tables).book.positions, r.symbol).None?
    ensures var v := Rebuilt(settings, tables);
            var prices := PricesFor(v.book, r.symbol, price);
            && SizedFrom(settings.setup, v, EntryAsked(settings, r, price), prices)
               == SizedFromTables(settings, tables, r, price)
            && Tallied(v.book) && v.book.cash == CashIn(settings, tables)
  {
    hide Rebuilt, Worth, WorthIn, RowsWorth, CashIn, Find, WellKept, DistinctSymbols, SumOf, PricesFor;
    RebuiltHas(settings, tables, map[]);
    PricesForMarkAtEntry(Rebuilt(settings, tables).book, r.symbol, price);
  }

  lemma {:induction false} WhatEnteringWrites(settings: Settings, tables: Tables, r: OpenRequest, price: real)
    requires settings.setup.InRange() && WellKept(tables)
    requires Find(Rebuilt(settings, tables).book.positions, r.symbol).None?
    ensures EnteredAsAsked(settings, tables, r, price,
                           EnterTrade(settings, tables, Rebuilt(settings, tables), r, price))
  {
    hide Rebuilt, WellKept, Find, EvaluateEntry, Simulator.OpenPosition, PricesFor, CalculatePositionSize,
         Equity, CashIn, RowsWorth, RefusesFirst, Tallied, EntryAsked;
    var v := Rebuilt(settings, tables);
    var prices := PricesFor(v.book, r.symbol, price);
    var entry := EntryAsked(settings, r, price);
    AskedOfTheTables(settings, tables, r, price);
    var (asked, a) := EvaluateEntry(settings.setup, v, entry, prices, r.now, HEALTHY_SYSTEM);
    EntryIsTheOneAsked(settings, r, price);
    if a.Approved? {
      WhatAnEntryIsTold(settings.setup, v, entry, prices, r.now, HEALTHY_SYSTEM, 0);
      hide SizedFrom, SizedFromTables;
      ApprovalIsWritten(settings, tables, r, price, a);
    } else {
      var k := FirstRefusal(settings.setup, v, entry, prices, r.now, HEALTHY_SYSTEM);
      assert Refused(settings, tables, r, price, k);
    }
  }

  lemma {:induction false} EntryIsTheOneAsked(settings: Settings, r: OpenRequest, price: real)
    ensures EntryFor(settings, r, price) == EntryAsked(settings, r, price)
  {
  }

  /** The order of a request, field by field. */
  ghost predicate OrderAsked(settings: Settings, r: OpenRequest, price: real, o: Order) {
    && o.symbol == r.symbol && o.reference == price && o.time == r.now
    && o.step == settings.filters(r.symbol).stepSize && o.liquidity == None
    && o.stopLoss == Some(r.stopPrice) && o.takeProfit == r.takeProfit
    && o.trailingDistance == r.trailingDistance && o.signalId == r.signalId
  }

  lemma {:induction false} OrderIsTheOneAsked(settings: Settings, r: OpenRequest, price: real)
    ensures OrderAsked(settings, r, price, OrderFor(settings, r, price))
  {
  }

  /** An approved size is bought whole: it is on the lot grid and the request names no liquidity. */
  lemma {:induction false} SizeIsBought(settings: Settings, r: OpenRequest, price: real, request: SizingRequest)
    requires request.entryPrice == price
    requires CalculatePositionSize(request, settings.setup.risk, settings.filters(r.symbol)).Sized?
    ensures var q := CalculatePositionSize(request, settings.setup.risk, settings.filters(r.symbol)).quantity;
            var o := OrderFor(settings, r, price);
            && q > 0.0 && price > 0.0
            && Bought(settings.setup, q, o) == q && !NothingBought(settings.setup, q, o)
  {
    SizedRespectsEveryLimit(request, settings.setup.risk, settings.filters(r.symbol));
    OrderIsTheOneAsked(settings, r, price);
    var q := CalculatePositionSize(request, settings.setup.risk, settings.filters(r.symbol)).quantity;
    hide CalculatePositionSize, OrderFor, OnGrid;
    RoundingKeepsGridQuantities(q, settings.filters(r.symbol).stepSize);
    hide RoundDownToStep;
  }

  lemma {:induction false} ApprovalIsWritten(
      settings: Settings, tables: Tables, r: OpenRequest, price: real, a: Assessment)
    requires settings.setup.InRange() && WellKept(tables)
    requires Find(Rebuilt(settings, tables).book.positions, r.symbol).None?
    requires a.Approved? && a.size == SizeAsked(settings, tables, r, price) && a.size.Sized?
    requires var v := Rebuilt(settings, tables);
             EvaluateEntry(settings.setup, v, EntryFor(settings, r, price), PricesFor(v.book, r.symbol, price), r.now,
                           HEALTHY_SYSTEM) == (v, a)
    ensures EnteredAsAsked(settings, tables, r, price,
                           EnterTrade(settings, tables, Rebuilt(settings, tables), r, price))
  {
    hide Rebuilt, WellKept, Find, EvaluateEntry, Simulator.OpenPosition, PricesFor, CalculatePositionSize,
         Equity, CashIn, RowsWorth, Bought, NothingBought, PaidFor, Refused, OrderFor;
    var v, o := Rebuilt(settings, tables), OrderFor(settings, r, price);
    AskedOfTheTables(settings, tables, r, price);
    OrderIsTheOneAsked(settings, r, price);
    SizeIsBought(settings, r, price, SizedFromTables(settings, tables, r, price));
    WhatAnOpenDoes(settings.setup, v, a, o);
    NotHeld(v.book.positions, r.symbol);
    var opening := Simulator.OpenPosition(settings.setup, v, a, o);
    if opening.Ok? {
      var p := opening.value.1.value;
      NewRowIsKept(settings, tables, r, price, p, opening.value.0,
                   tables.(positions := tables.positions + [RowOf(p)]));
    }
  }

  lemma {:induction false} NotHeld(positions: seq<Position>, symbol: string)
    requires Find(positions, symbol).None?
    ensures !exists p <- positions :: p.symbol == symbol
  {
  }

  /** The equity recorded beside a new row is that of the tables with the row. */
  lemma {:induction false} NewRowIsKept(
      settings: Settings, tables: Tables, r: OpenRequest, price: real, p: Position, w: Venue, added: Tables)
    requires WellKept(tables) && PaidFor(Rebuilt(settings, tables), w, p) && p.symbol == r.symbol
    requires Find(Rebuilt(settings, tables).book.positions, r.symbol).None?
    requires added == tables.(positions := tables.positions + [RowOf(p)])
    ensures Equity(w.book, PricesFor(Rebuilt(settings, tables).book, r.symbol, price))
            == EquityIn(settings, Snapshot(added, w.book, PricesFor(Rebuilt(settings, tables).book, r.symbol, price)),
                        map[r.symbol := price])
  {
    hide Rebuilt, WellKept, Find, PricesFor, Equity, Worth, RowsWorth, CostOf, NetOf;
    var v := Rebuilt(settings, tables);
    var prices := PricesFor(v.book, r.symbol, price);
    RebuiltHas(settings, tables, map[]);
    RebuiltHas(settings, tables, map[r.symbol := price]);
    PricesForMarkAtEntry(v.book, r.symbol, price);
    EquityIsCashAndWorth(w.book, prices);
    WorthOfOneMore(v.book.positions, p, prices);
    OneMoreRow(tables.positions, RowOf(p), map[r.symbol := price]);
    NewPriceIsFound(v.book, r.symbol, price);
    OneSymbolMarksNoOther(v.book.positions, r.symbol, price);
  }

  lemma {:induction false} NewPriceIsFound(b: Book, symbol: string, price: real)
    ensures symbol in PricesFor(b, symbol, price) && PricesFor(b, symbol, price)[symbol] == price
  {
  }

  lemma {:induction false} OneSymbolMarksNoOther(positions: seq<Position>, symbol: string, price: real)
    requires Find(positions, symbol).None?
    ensures Worth(positions, map[symbol := price]) == Worth(positions, map[])
  {
    SameMarksSameWorth(positions, map[symbol := price], map[]);
  }

  lemma {:induction false} OneMoreRow(rows: seq<PositionRow>, row: PositionRow, prices: Prices)
    requires row.isOpen
    ensures CostOf(rows + [row]) == CostOf(rows) + row.quantity * row.entryPrice + row.feesPaid
    ensures RowsWorth(rows + [row], prices)
            == RowsWorth(rows, prices)
               + row.quantity * (if row.symbol in prices then prices[row.symbol] else row.entryPrice)
  {
    assert (rows + [row])[..|rows|] == rows;
  }

  /** The rebuilt venue knows when each symbol was last left. */
  lemma {:induction false} RebuiltKnowsExits(settings: Settings, tables: Tables)
    requires WellKept(tables)
    ensures KnowsExits(Rebuilt(settings, tables))
  {
    RebuiltIs(settings, tables);
    LatestIsLast(tables.trades);
    hide Rebuilt, LastLeft, LastExitTimes;
  }

  lemma {:induction false} LatestIsLast(trades: seq<Trade>)
    requires InExitOrder(trades)
    ensures LastExitTimes(trades) == LastLeft(trades)
    decreases |trades|
  {
    if trades != [] {
      var init, last := trades[..|trades| - 1], trades[|trades| - 1];
      LatestIsLast(init);
      assert trades == init + [last];
      LastExitIsTheLatest(init, last);
    }
  }

  // --- The peak ---------------------------------------------------------------

  /** The highest of the initial balance, that with every result added, and every snapshot; or the first of them. */
  ghost predicate PeakOf(settings: Settings, tables: Tables, peak: real) {
    var gained := settings.initialBalance + NetOf(tables.trades);
    if settings.initialBalance <= 0.0 && gained <= 0.0 && forall s <- tables.snapshots :: s <= 0.0 then
      peak == settings.initialBalance
    else
      && peak >= settings.initialBalance && peak >= gained && (forall s <- tables.snapshots :: s <= peak)
      && (peak == settings.initialBalance || peak == gained || peak in tables.snapshots)
  }

  lemma {:induction false} HighestIsHighest(values: seq<real>)
    ensures values == [] ==> Highest(values) == 0.0
    ensures values != [] ==> Highest(values) in values && forall x <- values :: x <= Highest(values)
    decreases |values|
  {
    if |values| > 1 {
      var init, last := values[..|values| - 1], values[|values| - 1];
      HighestIsHighest(init);
      assert values == init + [last];
    }
  }

  lemma {:induction false} WhatPeakIsRebuilt(settings: Settings, tables: Tables)
    requires WellKept(tables)
    ensures PeakOf(settings, tables, Rebuilt(settings, tables).book.peakEquity)
  {
    HighestIsHighest(tables.snapshots);
    OrderedTradesStayInOrder(tables.trades);
    NetIsSum(tables.trades);
    hide SumOf, NetOf, Highest, OpenRows, PositionsOf, ClosedTrades, OneASymbol, InExitOrder;
  }

  // --- Closing ----------------------------------------------------------------

  /** The position that an open row stands for, its excursions starting again from the entry price. */
  function HoldingOf(row: PositionRow): Position {
    Position(row.symbol, row.quantity, row.entryPrice, row.entryTime, row.stopLoss, row.takeProfit, row.trailingStop,
             row.feesPaid, Some(row.entryPrice), Some(row.entryPrice), row.signalId)
  }

  /** The row once its position has been sold. */
  function SoldRow(row: PositionRow, t: Trade): PositionRow {
    PositionRow(row.symbol, false, row.quantity, row.entryPrice, row.entryTime, row.stopLoss, row.takeProfit,
                row.trailingStop, t.fees, row.signalId, Some(t.exitPrice), Some(t.exitTime), Some(t.netPnl))
  }

  /** A close of the `i`-th row at `reference`: its trade, its row and a snapshot, or nothing at all. */
  ghost predicate ClosedAsAsked(settings: Settings, tables: Tables, i: nat, reason: string, reference: real, now: int,
                                result: Result<Tables, AccountError>)
    requires i < |tables.positions|
  {
    var row := tables.positions[i];
    var step := settings.filters(row.symbol).stepSize;
    if !Sells(HoldingOf(row), reference, step) then result == Err(NoOpenPosition)
    else
      && result.Ok?
      && exists t :: RecordsClose(settings, tables, i, reason, reference, now, result.value, t)
  }

  ghost predicate RecordsClose(settings: Settings, tables: Tables, i: nat, reason: string, reference: real, now: int,
                               after: Tables, t: Trade)
    requires i < |tables.positions|
  {
    var row := tables.positions[i];
    && Records(settings.setup, HoldingOf(row), t, reference, now, reason, settings.filters(row.symbol).stepSize)
    && after.trades == tables.trades + [t]
    && after.positions == tables.positions[i := SoldRow(row, t)]
    && after.snapshots == tables.snapshots + [EquityIn(settings, after, map[row.symbol := reference])]
  }

  lemma {:induction false} ClosingErrors(
      settings: Settings, tables: Tables, symbol: string, reason: string, reference: Option<real>, now: int)
    ensures !HasOpen(tables, symbol) ==>
              CloseTrade(settings, tables, symbol, reason, reference, now) == Err(NoOpenPosition)
    ensures HasOpen(tables, symbol) && reference.None? ==>
              CloseTrade(settings, tables, symbol, reason, reference, now) == Err(PriceUnavailable)
  {
    hide Rebuilt, ClosePosition, Equity;
    var at := OpenRowAt(tables.positions, symbol);
    assert at.Some? ==> tables.positions[at.value] in tables.positions;
  }

  lemma {:induction false} RowSold(rows: seq<PositionRow>, i: nat, row: PositionRow, prices: Prices)
    requires i < |rows| && !row.isOpen
    ensures CostOf(rows[i := row]) == CostOf(rows) - CostOfRow(rows[i])
    ensures RowsWorth(rows[i := row], prices) == RowsWorth(rows, prices) - WorthOfRow(rows[i], prices)
    decreases |rows|
  {
    assert CostOfRow(row) == WorthOfRow(row, prices) == 0.0;
    hide CostOfRow, WorthOfRow;
    var n := |rows| - 1;
    if i < n {
      RowSold(rows[..n], i, row, prices);
      assert rows[i := row][..n] == rows[..n][i := row];
    } else {
      assert rows[i := row][..n] == rows[..n];
    }
  }

  lemma {:induction false} WorthWithout(positions: seq<Position>, k: nat, prices: Prices)
    requires k < |positions|
    ensures Worth(positions[..k] + positions[k + 1..], prices)
            == Worth(positions, prices) - positions[k].quantity * MarkOf(positions[k], prices)
  {
    hide SumOf, Worth;
    MarksAreWorth(positions, prices);
    MarksAreWorth(positions[..k] + positions[k + 1..], prices);
    SumAround(positions, k, (p: Position) => p.MarketValue(PriceOf(prices, p)));
  }

  /** The equity recorded beside a close is that of the tables with the row closed. */
  lemma {:induction false} EquityAfterAClose(settings: Settings, tables: Tables, i: nat, k: nat, t: Trade, w: Venue,
                                             after: Tables, prices: Prices)
    requires WellKept(tables) && i < |tables.positions| && tables.positions[i].isOpen
    requires var v := Rebuilt(settings, tables);
             && k < |v.book.positions| && v.book.positions[k] == HoldingOf(tables.positions[i])
             && SoldOff(v, w, k, t)
    requires var row := tables.positions[i];
             && t.quantity == row.quantity && t.netPnl == t.grossPnl - t.fees
             && t.grossPnl == (t.exitPrice - row.entryPrice) * row.quantity
    requires after.positions == tables.positions[i := SoldRow(tables.positions[i], t)]
    requires after.trades == tables.trades + [t]
    ensures Equity(w.book, prices) == EquityIn(settings, after, prices)
  {
    hide Rebuilt, WellKept, Equity, Worth, RowsWorth, CostOf;
    var v, row := Rebuilt(settings, tables), tables.positions[i];
    RebuiltHas(settings, tables, prices);
    EquityIsCashAndWorth(w.book, prices);
    WorthWithout(v.book.positions, k, prices);
    RowSold(tables.positions, i, SoldRow(row, t), prices);
    assert (tables.trades + [t])[..|tables.trades|] == tables.trades;
    assert NetOf(after.trades) == NetOf(tables.trades) + t.netPnl;
    hide NetOf, Tallied;
    GrossIsProceedsLessCost(row.quantity, row.entryPrice, t.exitPrice);
  }

  /** A close at a price writes the trade, the row it ends and a snapshot, each as it was asked for. */
  lemma {:induction false} WhatClosingWrites(
      settings: Settings, tables: Tables, i: nat, reason: string, reference: real, now: int)
    requires settings.setup.InRange() && WellKept(tables)
    requires i < |tables.positions| && tables.positions[i].isOpen
    ensures ClosedAsAsked(settings, tables, i, reason, reference, now,
                          CloseTrade(settings, tables, tables.positions[i].symbol, reason, Some(reference), now))
  {
    hide Rebuilt, WellKept, Equity, ClosePosition, Find, OpenRowAt, Sells, Records, EquityIn, OpenRows;
    var row, v := tables.positions[i], Rebuilt(settings, tables);
    var step := settings.filters(row.symbol).stepSize;
    OpenRowIsUnique(tables, i);
    RebuiltFinds(settings, tables, row.symbol);
    var k := |OpenRows(tables.positions[..i])|;
    HoldingIsPosition(row);
    WhatACloseDoes(settings.setup, v, row.symbol, reference, now, reason, step);
    var (w, trade) := ClosePosition(settings.setup, v, row.symbol, reference, now, reason, step);
    if Sells(HoldingOf(row), reference, step) {
      var t := trade.value;
      var after := CloseTrade(settings, tables, row.symbol, reason, Some(reference), now).value;
      RecordMeans(settings.setup, HoldingOf(row), t, reference, now, reason, step);
      assert after.positions == tables.positions[i := SoldRow(row, t)];
      EquityAfterAClose(settings, tables, i, k, t, w, after, map[row.symbol := reference]);
      assert RecordsClose(settings, tables, i, reason, reference, now, after, t);
    }
  }

  lemma {:induction false} HoldingIsPosition(row: PositionRow)
    ensures PositionOf(row) == HoldingOf(row)
  {
  }

  lemma {:induction false} RecordMeans(
      setup: Setup, p: Position, t: Trade, reference: real, time: int, reason: string, step: Option<real>)
    requires Records(setup, p, t, reference, time, reason, step)
    ensures t.quantity == p.quantity && t.exitTime == time && t.netPnl == t.grossPnl - t.fees
    ensures t.grossPnl == (t.exitPrice - p.entryPrice) * p.quantity
  {
  }

  // --- Monitoring -------------------------------------------------------------

  /** The order of a row that a live price sets off, and the name of the exit. */
  ghost function SetOffBy(row: PositionRow, price: real): Option<(real, string)> {
    if row.stopLoss.Some? && price <= row.stopLoss.value then Some((row.stopLoss.value, "STOP_LOSS"))
    else if row.takeProfit.Some? && price >= row.takeProfit.value then Some((row.takeProfit.value, "TAKE_PROFIT"))
    else None
  }

  /** The stop of a row after a live price that sets nothing off. */
  ghost function TrailedBy(row: PositionRow, price: real): Option<real> {
    if row.trailingStop.Some? && row.trailingStop.value > 0.0
       && (row.stopLoss.None? || row.stopLoss.value < price - row.trailingStop.value)
    then Some(price - row.trailingStop.value)
    else row.stopLoss
  }

  /** One live price either trails the stop of its row, or closes it at the order it sets off, or does nothing. */
  lemma {:induction false} WhatAQuoteWrites(settings: Settings, tables: Tables, i: nat, quote: Quote)
    requires settings.setup.InRange() && WellKept(tables)
    requires i < |tables.positions| && tables.positions[i].isOpen
    ensures var (after, closed), row := MonitorRow(settings, tables, i, quote), tables.positions[i];
            match SetOffBy(row, quote.price)
            case None =>
              && !closed
              && after == tables.(positions := tables.positions[i := row.(stopLoss := TrailedBy(row, quote.price))])
            case Some(order) =>
              && (closed <==> Sells(HoldingOf(row), order.0, settings.filters(row.symbol).stepSize))
              && (!closed ==> after == tables)
              && (closed ==> ClosedAsAsked(settings, tables, i, order.1, order.0, quote.time, Ok(after)))
  {
    hide Rebuilt, WellKept, CloseTrade, Sells, RecordsClose;
    var row := tables.positions[i];
    var order := SetOffBy(row, quote.price);
    if order.Some? {
      WhatClosingWrites(settings, tables, i, order.value.1, order.value.0, quote.time);
    }
  }

  /** How many of the first `k` rows are open before and closed after. */
  ghost function ClosedBetween(before: seq<PositionRow>, after: seq<PositionRow>, k: nat): nat
    requires k <= |before| == |after|
  {
    if k == 0 then 0
    else ClosedBetween(before, after, k - 1) + if before[k - 1].isOpen && !after[k - 1].isOpen then 1 else 0
  }

  lemma {:induction false} SameRowsSameCount(
      before: seq<PositionRow>, after: seq<PositionRow>, other: seq<PositionRow>, k: nat)
    requires k <= |before| == |after| == |other| && after[..k] == other[..k]
    ensures ClosedBetween(before, after, k) == ClosedBetween(before, other, k)
    decreases k
  {
    if k > 0 {
      assert after[..k][k - 1] == other[..k][k - 1];
      assert after[..k - 1] == after[..k][..k - 1] && other[..k - 1] == other[..k][..k - 1];
      SameRowsSameCount(before, after, other, k - 1);
    }
  }

  /** When a pass comes to a row, it finds the row as it was at the start. */
  lemma {:induction false} RowIsFoundAsItWas(settings: Settings, tables: Tables, quotes: Quotes, k: nat)
    requires WellKept(tables) && k < |tables.positions|
    requires QuotesFollow(tables.positions, quotes, 0, tables.trades)
    ensures var before := MonitorRows(settings, tables, quotes, k).0;
            WellKept(before) && before.positions[k] == tables.positions[k]
  {
    hide WellKept, QuotesFollow, MonitorRows, Rebuilt, Core, MemoryTicks, SymbolsOfRows;
    MonitorRowsRefine(settings, tables, Rebuilt(settings, tables), quotes, k);
    var before := MonitorRows(settings, tables, quotes, k).0;
    assert before.positions[k..][0] == tables.positions[k..][0];
  }

  lemma {:induction false} OneMoreRowLookedAt(settings: Settings, tables: Tables, quotes: Quotes, k: nat)
    requires 0 < k <= |tables.positions|
    ensures var (before, closed), row := MonitorRows(settings, tables, quotes, k - 1), tables.positions[k - 1];
            var (after, done) := if !row.isOpen || row.symbol !in quotes then (before, false)
                                 else MonitorRow(settings, before, k - 1, quotes[row.symbol]);
            MonitorRows(settings, tables, quotes, k) == (after, closed + if done then 1 else 0)
  {
    hide MonitorRow;
  }

  /** A pass reports the number of rows it closed. */
  lemma {:induction false} ClosedRowsAreCounted(settings: Settings, tables: Tables, quotes: Quotes, k: nat)
    requires settings.setup.InRange() && WellKept(tables) && k <= |tables.positions|
    requires QuotesFollow(tables.positions, quotes, 0, tables.trades)
    ensures var (after, closed) := MonitorRows(settings, tables, quotes, k);
            closed == ClosedBetween(tables.positions, after.positions, k)
    decreases k
  {
    if k > 0 {
      ClosedRowsAreCounted(settings, tables, quotes, k - 1);
      RowIsFoundAsItWas(settings, tables, quotes, k - 1);
      OneMoreRowLookedAt(settings, tables, quotes, k);
      hide WellKept, QuotesFollow, MonitorRows, MonitorRow, ClosedBetween;
      CountOneMore(settings, tables, quotes, MonitorRows(settings, tables, quotes, k - 1).0, k);
    }
  }

  lemma {:induction false} CountOneMore(settings: Settings, tables: Tables, quotes: Quotes, before: Tables, k: nat)
    requires settings.setup.InRange() && 0 < k <= |tables.positions| == |before.positions| && WellKept(before)
    requires before.positions[k - 1] == tables.positions[k - 1]
    ensures var row := tables.positions[k - 1];
            var (after, done) := if !row.isOpen || row.symbol !in quotes then (before, false)
                                 else MonitorRow(settings, before, k - 1, quotes[row.symbol]);
            |after.positions| == |before.positions| &&
            ClosedBetween(tables.positions, after.positions, k)
            == ClosedBetween(tables.positions, before.positions, k - 1) + if done then 1 else 0
  {
    hide WellKept, MonitorRow, Sells, Records, EquityIn;
    var row := tables.positions[k - 1];
    if row.isOpen && row.symbol in quotes {
      var quote := quotes[row.symbol];
      MonitorRowTouches(settings, before, k - 1, quote);
      WhatAQuoteWrites(settings, before, k - 1, quote);
      var after := MonitorRow(settings, before, k - 1, quote).0;
      assert after.positions[..k - 1] == before.positions[..k - 1];
      SameRowsSameCount(tables.positions, after.positions, before.positions, k - 1);
    }
  }

  /** The prices fetched are those of the open rows that are quoted. */
  lemma {:induction false} WhatIsFetched(rows: seq<PositionRow>, quotes: Quotes)
    ensures forall s :: s in Fetched(rows, quotes) <==> s in quotes && exists row <- rows :: row.symbol == s
    ensures forall s <- Fetched(rows, quotes) :: s in quotes && Fetched(rows, quotes)[s] == quotes[s].price
    decreases |rows|
  {
    if rows != [] {
      var init, row := rows[..|rows| - 1], rows[|rows| - 1];
      WhatIsFetched(init, quotes);
      assert rows == init + [row];
    }
  }

  /**
   * A pass reports as many closes as it made. If it fetched a price it ends on a snapshot of the equity
   * at the prices of the rows that were open and quoted; else it writes nothing.
   */
  lemma {:induction false} WhatAPassWrites(settings: Settings, tables: Tables, quotes: Quotes)
    requires settings.setup.InRange() && WellKept(tables)
    requires QuotesFollow(tables.positions, quotes, 0, tables.trades)
    ensures var (after, closed) := Monitor(settings, tables, quotes);
            var prices := Fetched(OpenRows(tables.positions), quotes);
            && |after.positions| == |tables.positions|
            && closed == ClosedBetween(tables.positions, after.positions, |tables.positions|)
            && (prices != map[] ==>
                  && |after.snapshots| > 0
                  && after.snapshots[|after.snapshots| - 1] == EquityIn(settings, after, prices))
  {
    var n := |tables.positions|;
    ClosedRowsAreCounted(settings, tables, quotes, n);
    hide WellKept, QuotesFollow, MonitorRows, ClosedBetween, Equity, EquityIn, Fetched, LoadPortfolio;
    MonitorRowsRefine(settings, tables, Rebuilt(settings, tables), quotes, n);
    var after := MonitorRows(settings, tables, quotes, n).0;
    RebuiltHas(settings, after, Fetched(OpenRows(tables.positions), quotes));
    EquityIgnoresSnapshots(settings, after, Monitor(settings, tables, quotes).0,
                           Fetched(OpenRows(tables.positions), quotes));
  }

  lemma {:induction false} EquityIgnoresSnapshots(settings: Settings, tables: Tables, other: Tables, prices: Prices)
    requires other == tables.(snapshots := other.snapshots)
    ensures EquityIn(settings, other, prices) == EquityIn(settings, tables, prices)
  {
  }
}
