/** Whole runs of the paper account, beside the same calls on an engine kept in memory. */
module PaperLedgerRuns {
  import opened Wrappers
  import opened Sums
  import opened Fills
  import opened RiskEngine
  import opened Books
  import opened Simulator
  import opened PaperLedger
  import opened PaperLedgerProofs
  import opened PaperLedgerTables

  // --- Each write, and the portfolio rebuilt after it ---------------------

  lemma {:induction false} RecordedOpen(settings: Settings, tables: Tables, p: Position, after: Tables)
    requires WellKept(tables) && Opened(Rebuilt(settings, tables).book, p).Ok? && PositionOf(RowOf(p)) == p
    requires after.positions == tables.positions + [RowOf(p)] && after.trades == tables.trades
    ensures WellKept(after)
    ensures Agree(Rebuilt(settings, after),
                  Rebuilt(settings, tables).(book := Opened(Rebuilt(settings, tables).book, p).value))
  {
    hide Rebuilt, SumOf, OneASymbol, InExitOrder, AsPositions, Plain, Bare, Find;
    var rows := OpenRows(tables.positions);
    RebuiltIs(settings, tables);
    OpenRowsAppend(tables.positions, RowOf(p));
    AddedKeepsOne(rows, RowOf(p));
    RebuiltIs(settings, after);
    SumSnoc(rows, RowOf(p), CommittedBy);
    SumSnoc(AsPositions(rows), p, FeesPaid);
  }

  lemma {:induction false} CashOfAClose(q: real, entry: real, price: real, paid: real, fee: real, net: real,
                     base: real, realised: real, committed: real)
    requires net == (price - entry) * q - (paid + fee)
    ensures base + (realised + net) - (committed - (q * entry + paid))
        == base + realised - committed + (q * price - fee)
  {
    assert (price - entry) * q == q * price - q * entry;
  }

  lemma {:induction false} TradeFigures(p: Position, price: real, fee: real, slippage: real, time: int, reason: string)
    ensures var t := TradeOf(p, price, fee, slippage, time, reason);
            && t.symbol == p.symbol && t.exitTime == time && t.fees == p.feesPaid + fee
            && t.netPnl == (price - p.entryPrice) * p.quantity - (p.feesPaid + fee)
  {
  }

  /** The tables once a row has been closed with its trade. */
  ghost predicate ClosesRow(tables: Tables, i: nat, t: Trade, after: Tables) {
    && i < |tables.positions| && tables.positions[i].isOpen && t.symbol == tables.positions[i].symbol
    && after.positions == tables.positions[i := ClosedRow(tables.positions[i], t)]
    && after.trades == tables.trades + [t]
    && forall u <- tables.trades :: u.exitTime < t.exitTime
  }

  lemma {:induction false} ClosedTables(tables: Tables, i: nat, k: nat, t: Trade, after: Tables)
    requires WellKept(tables) && ClosesRow(tables, i, t, after) && k == |OpenRows(tables.positions[..i])|
    ensures WellKept(after)
    ensures var rows := OpenRows(tables.positions);
            && k < |rows| && rows[k] == tables.positions[i]
            && OpenRows(after.positions) == rows[..k] + rows[k + 1..]
            && AsPositions(OpenRows(after.positions)) == Without(AsPositions(rows), k)
    ensures LastExitTimes(after.trades) == LastExitTimes(tables.trades)[t.symbol := t.exitTime]
  {
    hide OneASymbol, AsPositions, LastExitTimes, OpenRows;
    OpenRowsUpdate(tables.positions, i, ClosedRow(tables.positions[i], t));
    OpenRowsOfPrefix(tables.positions, i);
    WithoutKeepsOne(OpenRows(tables.positions), k);
    LastExitIsTheLatest(tables.trades, t);
  }

  lemma {:induction false} ClosedTotals(
      rows: seq<PositionRow>, k: nat, trades: seq<Trade>, t: Trade, price: real, fee: real, base: real)
    requires k < |rows| && t.fees == rows[k].feesPaid + fee
    requires t.netPnl == (price - rows[k].entryPrice) * rows[k].quantity - (rows[k].feesPaid + fee)
    ensures var rest := rows[..k] + rows[k + 1..];
            && base + SumOf(trades + [t], NetPnl) - SumOf(rest, CommittedBy)
               == base + SumOf(trades, NetPnl) - SumOf(rows, CommittedBy) + (rows[k].quantity * price - fee)
            && SumOf(trades + [t], FeesOf) + SumOf(Without(AsPositions(rows), k), FeesPaid)
               == SumOf(trades, FeesOf) + SumOf(AsPositions(rows), FeesPaid) + fee
            && SumOf(trades + [t], NetPnl) == SumOf(trades, NetPnl) + t.netPnl
  {
    hide SumOf;
    SumAround(rows, k, CommittedBy);
    SumAround(AsPositions(rows), k, FeesPaid);
    SumSnoc(trades, t, NetPnl);
    SumSnoc(trades, t, FeesOf);
    CashOfAClose(rows[k].quantity, rows[k].entryPrice, price, rows[k].feesPaid, fee, t.netPnl,
                 base, SumOf(trades, NetPnl), SumOf(rows, CommittedBy));
  }

  lemma {:induction false} RecordedClose(
      settings: Settings, tables: Tables, i: nat, k: nat, price: real, fee: real, slippage: real,
                      time: int, reason: string, after: Tables)
    requires WellKept(tables) && i < |tables.positions| && k == |OpenRows(tables.positions[..i])|
    requires k < |Rebuilt(settings, tables).book.positions|
    requires Rebuilt(settings, tables).book.positions[k] == PositionOf(tables.positions[i])
    requires ClosesRow(tables, i, TradeOf(PositionOf(tables.positions[i]), price, fee, slippage, time, reason), after)
    ensures WellKept(after)
    ensures var v := Rebuilt(settings, tables);
            Agree(Rebuilt(settings, after),
                  v.(book := ClosedAt(v.book, k, price, fee, slippage, time, reason),
                     lastExit := v.lastExit[tables.positions[i].symbol := time]))
  {
    hide Rebuilt, SumOf, WellKept, AsPositions, Plain, Bare, LastExitTimes, TradeOf, OpenRows, Without;
    var rows, p := OpenRows(tables.positions), PositionOf(tables.positions[i]);
    var t := TradeOf(p, price, fee, slippage, time, reason);
    TradeFigures(p, price, fee, slippage, time, reason);
    RebuiltIs(settings, tables);
    ClosedTables(tables, i, k, t, after);
    RebuiltIs(settings, after);
    ClosedTotals(rows, k, tables.trades, t, price, fee, settings.initialBalance);
  }

  lemma {:induction false} MovedStopTables(tables: Tables, i: nat, k: nat, row: PositionRow, after: Tables)
    requires WellKept(tables) && i < |tables.positions| && tables.positions[i].isOpen
    requires k == |OpenRows(tables.positions[..i])| && row == tables.positions[i].(stopLoss := row.stopLoss)
    requires after.positions == tables.positions[i := row] && after.trades == tables.trades
    ensures WellKept(after)
    ensures var rows := OpenRows(tables.positions);
            && k < |rows| && OpenRows(after.positions) == rows[k := row]
            && AsPositions(rows[k := row]) == AsPositions(rows)[k := PositionOf(row)]
            && SumOf(rows[k := row], CommittedBy) == SumOf(rows, CommittedBy)
            && SumOf(AsPositions(rows[k := row]), FeesPaid) == SumOf(AsPositions(rows), FeesPaid)
  {
    hide SumOf, OneASymbol, InExitOrder, OpenRows, AsPositions;
    var rows := OpenRows(tables.positions);
    OpenRowsUpdate(tables.positions, i, row);
    OpenRowsOfPrefix(tables.positions, i);
    ChangedKeepsOne(rows, k, row);
    SumUpdate(rows, k, row, CommittedBy);
    SumUpdate(AsPositions(rows), k, PositionOf(row), FeesPaid);
  }

  lemma {:induction false} RecordedStop(
      settings: Settings, tables: Tables, i: nat, k: nat, stop: Option<real>, after: Tables)
    requires WellKept(tables) && i < |tables.positions| && tables.positions[i].isOpen
    requires k == |OpenRows(tables.positions[..i])| && k < |Rebuilt(settings, tables).book.positions|
    requires Rebuilt(settings, tables).book.positions[k] == PositionOf(tables.positions[i])
    requires after.positions == tables.positions[i := tables.positions[i].(stopLoss := stop)]
    requires after.trades == tables.trades
    ensures WellKept(after)
    ensures var v := Rebuilt(settings, tables);
            Agree(Rebuilt(settings, after), v.(book := Replaced(v.book, k, v.book.positions[k].(stopLoss := stop))))
  {
    hide Rebuilt, SumOf, WellKept, AsPositions, Plain, Bare, OpenRows, LastExitTimes;
    RebuiltIs(settings, tables);
    MovedStopTables(tables, i, k, tables.positions[i].(stopLoss := stop), after);
    RebuiltIs(settings, after);
  }

  // --- The same calls on an engine kept in memory -------------------------

  function MemoryOpen(settings: Settings, v: Venue, r: OpenRequest): Venue {
    if Holds(v.book, r.symbol) || r.price.None? then v
    else
      var prices := PricesFor(v.book, r.symbol, r.price.value);
      var (asked, a) := EvaluateEntry(settings.setup, v, EntryFor(settings, r, r.price.value), prices, r.now,
          HEALTHY_SYSTEM);
      match Simulator.OpenPosition(settings.setup, asked, a, OrderFor(settings, r, r.price.value))
      case Err(_) => asked
      case Ok(done) => done.0
  }

  function MemoryClose(
      settings: Settings, v: Venue, symbol: string, reason: string, reference: Option<real>, now: int): Venue {
    if reference.None? then v
    else ClosePosition(settings.setup, v, symbol, reference.value, now, reason, settings.filters(symbol).stepSize).0
  }

  /** Each quoted symbol's live price, in turn, as a candle. */
  function MemoryTicks(settings: Settings, v: Venue, symbols: seq<string>, quotes: Quotes): Venue {
    if symbols == [] then v
    else
      var before, symbol := MemoryTicks(settings, v, symbols[..|symbols| - 1], quotes), symbols[|symbols| - 1];
      if symbol !in quotes then before
      else ProcessBar(settings.setup, before, FlatBar(symbol, quotes[symbol]), settings.filters(symbol).stepSize).0
  }

  datatype AccountOp =
    | OpenOp(request: OpenRequest)
    | CloseOp(symbol: string, reason: string, reference: Option<real>, now: int)
    | MonitorOp(quotes: Quotes)

  /** A call that fails leaves the tables as they were. */
  function AccountStep(settings: Settings, tables: Tables, op: AccountOp): Tables {
    match op
    case OpenOp(r) => (match OpenTrade(settings, tables, r) case Err(_) => tables case Ok(done) => done.0)
    case CloseOp(symbol, reason, reference, now) =>
      (match CloseTrade(settings, tables, symbol, reason, reference, now) case Err(_) => tables case Ok(after) => after)
    case MonitorOp(quotes) => Monitor(settings, tables, quotes).0
  }

  function MemoryStep(settings: Settings, v: Venue, op: AccountOp): Venue {
    match op
    case OpenOp(r) => MemoryOpen(settings, v, r)
    case CloseOp(symbol, reason, reference, now) => MemoryClose(settings, v, symbol, reason, reference, now)
    case MonitorOp(quotes) => MemoryTicks(settings, v, SymbolsOf(v.book.positions), quotes)
  }

  function AccountRun(settings: Settings, ops: seq<AccountOp>): Tables {
    if ops == [] then EMPTY_TABLES else AccountStep(settings, AccountRun(settings, ops[..|ops| - 1]), ops[|ops| - 1])
  }

  function MemoryRun(settings: Settings, ops: seq<AccountOp>): Venue {
    if ops == [] then NewVenue(settings.initialBalance)
    else MemoryStep(settings, MemoryRun(settings, ops[..|ops| - 1]), ops[|ops| - 1])
  }

  // --- Opening ------------------------------------------------------------

  ghost predicate SameVerdictDue(settings: Settings, v: Venue, w: Venue, r: OpenRequest) {
    r.price.Some? ==> SameSide(settings.setup.risk, v, w, PricesFor(v.book, r.symbol, r.price.value))
  }

  lemma {:induction false} OpenRefines(settings: Settings, tables: Tables, v: Venue, r: OpenRequest)
    requires WellKept(tables) && Agree(Rebuilt(settings, tables), v)
    requires SameVerdictDue(settings, Rebuilt(settings, tables), v, r)
    ensures var after := AccountStep(settings, tables, OpenOp(r));
            WellKept(after) && Agree(Rebuilt(settings, after), MemoryOpen(settings, v, r))
  {
    hide Rebuilt, WellKept, Find, Plain, Bare, Evaluate, AccountStateOf, EntryFill, SameSide, Equity;
    var engine := Rebuilt(settings, tables);
    FindPlain(engine.book.positions, v.book.positions, r.symbol);
    if !Holds(engine.book, r.symbol) && r.price.Some? {
      var entry, order := EntryFor(settings, r, r.price.value), OrderFor(settings, r, r.price.value);
      var prices := PricesFor(engine.book, r.symbol, r.price.value);
      AccountsAgree(engine, v, prices);
      EvaluationsAgree(settings.setup, engine, v, entry, prices, r.now, HEALTHY_SYSTEM);
      var (asked, a) := EvaluateEntry(settings.setup, engine, entry, prices, r.now, HEALTHY_SYSTEM);
      OpenAgrees(settings.setup, asked, EvaluateEntry(settings.setup, v, entry, prices, r.now, HEALTHY_SYSTEM).0, a,
          order);
      var opening := Simulator.OpenPosition(settings.setup, asked, a, order);
      if opening.Ok? && opening.value.1.Some? {
        RecordedOpen(settings, tables, opening.value.1.value, AccountStep(settings, tables, OpenOp(r)));
      }
    }
  }

  // --- Closing ------------------------------------------------------------

  lemma {:induction false} LaterRowsStandLater(rows: seq<PositionRow>, i: nat, j: nat)
    requires i < j < |rows| && rows[i].isOpen
    ensures |OpenRows(rows[..i])| < |OpenRows(rows[..j])|
  {
    OpenRowsOfPrefix(rows[..j], i);
    assert rows[..j][..i] == rows[..i];
  }

  lemma {:induction false} OpenRowIsUnique(tables: Tables, i: nat)
    requires WellKept(tables) && i < |tables.positions| && tables.positions[i].isOpen
    ensures OpenRowAt(tables.positions, tables.positions[i].symbol) == Some(i)
  {
    var rows := tables.positions;
    var at := OpenRowAt(rows, rows[i].symbol);
    assert rows[i] in rows;
    var j := at.value;
    OpenRowsOfPrefix(rows, i);
    OpenRowsOfPrefix(rows, j);
    if i < j {
      LaterRowsStandLater(rows, i, j);
    } else if j < i {
      LaterRowsStandLater(rows, j, i);
    }
  }

  /** Where the position of an open row stands in the rebuilt portfolio. */
  lemma {:induction false} RebuiltFinds(settings: Settings, tables: Tables, symbol: string)
    requires WellKept(tables)
    ensures var positions, at := Rebuilt(settings, tables).book.positions, OpenRowAt(tables.positions, symbol);
            if at.None? then Find(positions, symbol).None?
            else
              var k := |OpenRows(tables.positions[..at.value])|;
              && Find(positions, symbol) == Some(k) && k < |positions|
              && positions[k] == PositionOf(tables.positions[at.value])
  {
    hide Rebuilt, Find;
    RebuiltIs(settings, tables);
    FindMatches(tables.positions, symbol);
    var at := OpenRowAt(tables.positions, symbol);
    if at.Some? {
      OpenRowsOfPrefix(tables.positions, at.value);
    }
  }

  ghost predicate ExitsBefore(tables: Tables, now: int) {
    forall t <- tables.trades :: t.exitTime < now
  }

  lemma {:induction false} CloseIsRecorded(
      settings: Settings, tables: Tables, symbol: string, reason: string, reference: real, now: int)
    requires WellKept(tables) && ExitsBefore(tables, now)
    ensures var after := AccountStep(settings, tables, CloseOp(symbol, reason, Some(reference), now));
            && WellKept(after)
            && Agree(Rebuilt(settings, after),
                     MemoryClose(settings, Rebuilt(settings, tables), symbol, reason, Some(reference), now))
  {
    hide Rebuilt, WellKept, ExitFill, TradeOf, Equity, Plain, Bare, Find, ClosedAt;
    RebuiltFinds(settings, tables, symbol);
    var at := OpenRowAt(tables.positions, symbol);
    if at.Some? {
      var k := |OpenRows(tables.positions[..at.value])|;
      var engine := Rebuilt(settings, tables);
      var fill := ExitFill(settings.setup, engine.book.positions[k].quantity, reference,
          settings.filters(symbol).stepSize);
      if !fill.IsEmpty() {
        TradeFigures(engine.book.positions[k], fill.price, fill.fee, fill.slippageCost, now, reason);
        RecordedClose(settings, tables, at.value, k, fill.price, fill.fee, fill.slippageCost, now, reason,
                      AccountStep(settings, tables, CloseOp(symbol, reason, Some(reference), now)));
      }
    }
  }

  lemma {:induction false} CloseRefines(
      settings: Settings, tables: Tables, v: Venue, symbol: string, reason: string, reference: Option<real>, now: int)
    requires WellKept(tables) && Agree(Rebuilt(settings, tables), v) && ExitsBefore(tables, now)
    ensures var after := AccountStep(settings, tables, CloseOp(symbol, reason, reference, now));
            WellKept(after) && Agree(Rebuilt(settings, after), MemoryClose(settings, v, symbol, reason, reference, now))
  {
    if reference.Some? {
      CloseIsRecorded(settings, tables, symbol, reason, reference.value, now);
      CloseAgrees(settings.setup, Rebuilt(settings, tables), v, symbol, reference.value, now, reason,
                  settings.filters(symbol).stepSize);
      hide Rebuilt, WellKept, CloseTrade, ClosePosition, Core;
    }
  }

  // --- Monitoring ---------------------------------------------------------

  lemma {:induction false} RaisedStopIsTheTrail(row: PositionRow, price: real)
    ensures RaisedStop(row, price) == UpdateTrailingStop(row.stopLoss, price, row.trailingStop)
  {
  }

  /** What looking at one row leaves alone: the other rows, and all trades but the one it may add. */
  ghost predicate OnlyTouches(before: Tables, after: Tables, i: nat, time: int) {
    && |after.positions| == |before.positions|
    && (forall j :: 0 <= j < |before.positions| && j != i ==> after.positions[j] == before.positions[j])
    && (forall t <- after.trades :: t in before.trades || t.exitTime == time)
  }

  lemma {:induction false} MonitorRowTouches(settings: Settings, tables: Tables, i: nat, quote: Quote)
    requires WellKept(tables) && i < |tables.positions| && tables.positions[i].isOpen
    ensures OnlyTouches(tables, MonitorRow(settings, tables, i, quote).0, i, quote.time)
  {
    hide WellKept, Rebuilt, ExitFill, ClosedAt, Find, Equity, RaisedStop, OpenRowAt;
    OpenRowIsUnique(tables, i);
  }

  /** One live price on one open row is a candle of that price on the engine in memory. */
  lemma {:induction false} MonitorRowRefines(settings: Settings, tables: Tables, v: Venue, i: nat, quote: Quote)
    requires WellKept(tables) && Agree(Rebuilt(settings, tables), v)
    requires i < |tables.positions| && tables.positions[i].isOpen && ExitsBefore(tables, quote.time)
    ensures var after, symbol := MonitorRow(settings, tables, i, quote).0, tables.positions[i].symbol;
            && WellKept(after)
            && Agree(Rebuilt(settings, after),
                     ProcessBar(settings.setup, v, FlatBar(symbol, quote), settings.filters(symbol).stepSize).0)
  {
    hide WellKept, Rebuilt, Core, Find, ProcessBar, ClosePosition, CloseTrade, RaisedStop, UpdateTrailingStop,
         ExitsBefore, OpenRowAt;
    var engine, row := Rebuilt(settings, tables), tables.positions[i];
    var step := settings.filters(row.symbol).stepSize;
    TickIsProcessBar(settings.setup, v, row.symbol, quote, step);
    TicksAgree(settings.setup, engine, v, row.symbol, quote, step);
    OpenRowIsUnique(tables, i);
    RebuiltFinds(settings, tables, row.symbol);
    var reason := ExitReasonForBar(quote.price, quote.price, row.stopLoss, row.takeProfit);
    if reason.None? {
      RaisedStopIsTheTrail(row, quote.price);
      RecordedStop(settings, tables, i, |OpenRows(tables.positions[..i])|, RaisedStop(row, quote.price),
                   MonitorRow(settings, tables, i, quote).0);
    } else {
      CloseIsRecorded(settings, tables, row.symbol, reason.value, ExitPrice(PositionOf(row), reason.value), quote.time);
    }
  }

  /** Quoted open rows from the `k`-th on are stamped after every trade, and each after those before it. */
  ghost predicate QuotesFollow(rows: seq<PositionRow>, quotes: Quotes, k: nat, trades: seq<Trade>)
    requires k <= |rows|
  {
    && (forall j, t :: k <= j < |rows| && rows[j].isOpen && rows[j].symbol in quotes && t in trades ==>
          t.exitTime < quotes[rows[j].symbol].time)
    && (forall i, j :: k <= i < j < |rows| && rows[i].isOpen && rows[j].isOpen
                       && rows[i].symbol in quotes && rows[j].symbol in quotes ==>
          quotes[rows[i].symbol].time < quotes[rows[j].symbol].time)
  }

  function SymbolsOfRows(rows: seq<PositionRow>): seq<string> {
    SymbolsOf(AsPositions(rows))
  }

  lemma {:induction false} NoSymbols(rows: seq<PositionRow>)
    requires rows == []
    ensures SymbolsOfRows(OpenRows(rows)) == []
  {
  }

  lemma {:induction false} OneMoreSymbol(rows: seq<PositionRow>, k: nat)
    requires k < |rows|
    ensures SymbolsOfRows(OpenRows(rows[..k + 1]))
            == SymbolsOfRows(OpenRows(rows[..k])) + if rows[k].isOpen then [rows[k].symbol] else []
  {
    assert rows[..k + 1] == rows[..k] + [rows[k]];
    OpenRowsAppend(rows[..k], rows[k]);
  }

  lemma {:induction false} TicksAppend(
      settings: Settings, v: Venue, symbols: seq<string>, symbol: string, quotes: Quotes)
    ensures var before := MemoryTicks(settings, v, symbols, quotes);
            MemoryTicks(settings, v, symbols + [symbol], quotes) ==
            if symbol !in quotes then before
            else ProcessBar(settings.setup, before, FlatBar(symbol, quotes[symbol]),
                settings.filters(symbol).stepSize).0
  {
    hide ProcessBar;
    assert (symbols + [symbol])[..|symbols|] == symbols;
  }

  lemma {:induction false} QuotesAreLater(rows: seq<PositionRow>, quotes: Quotes, k: nat, tables: Tables)
    requires k < |rows| && QuotesFollow(rows, quotes, k, tables.trades)
    requires rows[k].isOpen && rows[k].symbol in quotes
    ensures ExitsBefore(tables, quotes[rows[k].symbol].time)
  {
  }

  lemma {:induction false} TheRestFollows(rows: seq<PositionRow>, quotes: Quotes, k: nat, tables: Tables)
    requires k < |rows| && QuotesFollow(rows, quotes, k, tables.trades)
    requires |tables.positions| == |rows| && tables.positions[k..] == rows[k..]
    ensures QuotesFollow(rows, quotes, k + 1, tables.trades) && tables.positions[k + 1..] == rows[k + 1..]
  {
    assert tables.positions[k + 1..] == tables.positions[k..][1..];
  }

  lemma {:induction false} TheRestStillFollows(
      rows: seq<PositionRow>, quotes: Quotes, k: nat, before: Tables, after: Tables)
    requires k < |rows| && QuotesFollow(rows, quotes, k, before.trades)
    requires |before.positions| == |rows| && before.positions[k..] == rows[k..]
    requires rows[k].isOpen && rows[k].symbol in quotes && OnlyTouches(before, after, k, quotes[rows[k].symbol].time)
    ensures QuotesFollow(rows, quotes, k + 1, after.trades) && after.positions[k + 1..] == rows[k + 1..]
  {
    forall j | k + 1 <= j < |rows| ensures after.positions[j] == rows[j] {
      assert before.positions[k..][j - k] == rows[k..][j - k];
    }
  }

  lemma {:induction false} MonitorRowsRefine(settings: Settings, tables: Tables, v: Venue, quotes: Quotes, k: nat)
    requires WellKept(tables) && Agree(Rebuilt(settings, tables), v) && k <= |tables.positions|
    requires QuotesFollow(tables.positions, quotes, 0, tables.trades)
    ensures var after := MonitorRows(settings, tables, quotes, k).0;
            && WellKept(after)
            && Agree(Rebuilt(settings, after),
                     MemoryTicks(settings, v, SymbolsOfRows(OpenRows(tables.positions[..k])), quotes))
            && after.positions[k..] == tables.positions[k..]
            && QuotesFollow(tables.positions, quotes, k, after.trades)
    decreases k
  {
    hide WellKept, Rebuilt, Core, ProcessBar, MonitorRow, OnlyTouches, QuotesFollow, SymbolsOfRows;
    var rows := tables.positions;
    if k == 0 {
      NoSymbols(rows[..0]);
    } else {
      MonitorRowsRefine(settings, tables, v, quotes, k - 1);
      var before, row := MonitorRows(settings, tables, quotes, k - 1).0, rows[k - 1];
      assert before.positions[k - 1..][0] == row;
      assert rows[..k][..k - 1] == rows[..k - 1];
      OneMoreSymbol(rows, k - 1);
      var symbols := SymbolsOfRows(OpenRows(rows[..k - 1]));
      TicksAppend(settings, v, symbols, row.symbol, quotes);
      assert symbols + [] == symbols;
      if row.isOpen && row.symbol in quotes {
        var quote := quotes[row.symbol];
        QuotesAreLater(rows, quotes, k - 1, before);
        MonitorRowRefines(settings, before, MemoryTicks(settings, v, symbols, quotes), k - 1, quote);
        MonitorRowTouches(settings, before, k - 1, quote);
        TheRestStillFollows(rows, quotes, k - 1, before, MonitorRow(settings, before, k - 1, quote).0);
      } else {
        TheRestFollows(rows, quotes, k - 1, before);
      }
    }
  }

  /** A pass of the monitor is a candle for each open position that has a price. */
  lemma {:induction false} MonitorRefines(settings: Settings, tables: Tables, v: Venue, quotes: Quotes)
    requires WellKept(tables) && Agree(Rebuilt(settings, tables), v)
    requires QuotesFollow(tables.positions, quotes, 0, tables.trades)
    ensures var after := Monitor(settings, tables, quotes).0;
            && WellKept(after)
            && Agree(Rebuilt(settings, after), MemoryTicks(settings, v, SymbolsOf(v.book.positions), quotes))
  {
    hide MonitorRows, QuotesFollow, Equity, LoadPortfolio;
    var rows := tables.positions;
    MonitorRowsRefine(settings, tables, v, quotes, |rows|);
    assert rows[..|rows|] == rows;
    SymbolsAgree(settings, tables, v);
    SnapshotsDoNotMatter(
      settings, MonitorRows(settings, tables, quotes, |rows|).0, Monitor(settings, tables, quotes).0);
  }

  lemma {:induction false} SymbolsAgree(settings: Settings, tables: Tables, v: Venue)
    requires WellKept(tables) && Agree(Rebuilt(settings, tables), v)
    ensures SymbolsOf(v.book.positions) == SymbolsOfRows(OpenRows(tables.positions))
  {
    RebuiltIs(settings, tables);
    hide Rebuilt, WellKept;
    var rows := OpenRows(tables.positions);
    PlainLength(AsPositions(rows), v.book.positions);
    forall i | 0 <= i < |rows| ensures v.book.positions[i].symbol == rows[i].symbol {
      assert Plain(AsPositions(rows))[i] == Plain(v.book.positions)[i];
    }
  }

  /** Snapshots enter the rebuilt portfolio through its peak alone. */
  lemma {:induction false} SnapshotsDoNotMatter(settings: Settings, tables: Tables, other: Tables)
    requires other == tables.(snapshots := other.snapshots)
    ensures WellKept(tables) ==> WellKept(other)
    ensures Core(Rebuilt(settings, other)) == Core(Rebuilt(settings, tables))
  {
    hide SumOf, OpenRows, PositionsOf, ClosedTrades, LastExitTimes, Plain, Bare, OneASymbol, InExitOrder, Highest;
  }

  // --- Whole runs ---------------------------------------------------------

  /** The clock moves on between exits. */
  ghost predicate Timely(tables: Tables, op: AccountOp) {
    match op
    case OpenOp(_) => true
    case CloseOp(_, _, _, now) => ExitsBefore(tables, now)
    case MonitorOp(quotes) => QuotesFollow(tables.positions, quotes, 0, tables.trades)
  }

  /**
   * At every call of a run the clock has moved on, and at every entry asked for the two peaks on
   * record put the account on the same side of the drawdown limit.
   */
  ghost predicate Comparable(settings: Settings, ops: seq<AccountOp>) {
    ops == [] ||
    var before, op := ops[..|ops| - 1], ops[|ops| - 1];
    && Comparable(settings, before)
    && Timely(AccountRun(settings, before), op)
    && (op.OpenOp? ==>
          SameVerdictDue(settings, Rebuilt(settings, AccountRun(settings, before)), MemoryRun(settings, before),
              op.request))
  }

  lemma {:induction false} NothingAgrees(settings: Settings)
    ensures WellKept(EMPTY_TABLES) && Agree(Rebuilt(settings, EMPTY_TABLES), NewVenue(settings.initialBalance))
  {
  }

  /**
   * Over any sequence of opens, closes and monitoring passes, failed ones and refused ones
   * included, the portfolio rebuilt from the tables is the portfolio of an engine kept in memory.
   */
  lemma {:induction false} RebuiltAgreesWithMemory(settings: Settings, ops: seq<AccountOp>)
    requires Comparable(settings, ops)
    ensures WellKept(AccountRun(settings, ops))
    ensures Agree(Rebuilt(settings, AccountRun(settings, ops)), MemoryRun(settings, ops))
    decreases |ops|
  {
    hide WellKept, Agree, Rebuilt, SameVerdictDue, ExitsBefore, QuotesFollow, OpenTrade, CloseTrade, Monitor,
         MemoryOpen, MemoryClose, MemoryTicks;
    if ops == [] {
      NothingAgrees(settings);
    } else {
      var before, op := ops[..|ops| - 1], ops[|ops| - 1];
      RebuiltAgreesWithMemory(settings, before);
      var tables, v := AccountRun(settings, before), MemoryRun(settings, before);
      match op
      case OpenOp(r) => OpenRefines(settings, tables, v, r);
      case CloseOp(symbol, reason, reference, now) => CloseRefines(settings, tables, v, symbol, reason, reference, now);
      case MonitorOp(quotes) => MonitorRefines(settings, tables, v, quotes);
    }
  }

  /** What agreement comes to. */
  lemma {:induction false} AgreementMeans(v: Venue, w: Venue)
    requires Agree(v, w)
    ensures v.book.cash == w.book.cash && v.book.initialBalance == w.book.initialBalance
    ensures v.book.realisedPnl == w.book.realisedPnl && v.book.totalFees == w.book.totalFees
    ensures v.lastExit == w.lastExit
    ensures |v.book.positions| == |w.book.positions| && |v.book.closed| == |w.book.closed|
    ensures forall i :: 0 <= i < |v.book.positions| ==>
              var p, q := v.book.positions[i], w.book.positions[i];
              q == p.(highestPrice := q.highestPrice, lowestPrice := q.lowestPrice)
    ensures forall i :: 0 <= i < |v.book.closed| ==>
              var t, u := v.book.closed[i], w.book.closed[i];
              u == t.(mae := u.mae, mfe := u.mfe)
    ensures ConsecutiveLosses(v.book.closed) == ConsecutiveLosses(w.book.closed)
    ensures forall prices: Prices :: Equity(v.book, prices) == Equity(w.book, prices)
  {
    hide Equity, ConsecutiveLosses;
    StreaksAgree(v.book.closed, w.book.closed);
    PlainLength(v.book.positions, w.book.positions);
    assert |v.book.closed| == |Bare(v.book.closed)| == |Bare(w.book.closed)| == |w.book.closed|;
    forall i | 0 <= i < |v.book.positions|
      ensures PlainPosition(v.book.positions[i]) == PlainPosition(w.book.positions[i]) {
      assert Plain(v.book.positions)[i] == Plain(w.book.positions)[i];
    }
    forall i | 0 <= i < |v.book.closed| ensures BareTrade(v.book.closed[i]) == BareTrade(w.book.closed[i]) {
      assert Bare(v.book.closed)[i] == Bare(w.book.closed)[i];
    }
    forall prices: Prices ensures Equity(v.book, prices) == Equity(w.book, prices) {
      AccountsAgree(v, w, prices);
    }
  }
}
