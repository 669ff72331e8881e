/**
 * The paper account as tables, from which the portfolio is rebuilt before every action:
 * `backend/app/paper_trading/account.py`. Tables are read in the order their rows were added.
 */
module PaperLedger {
  import opened Wrappers
  import opened Sums
  import opened Sorting
  import opened Fills
  import opened TradingLimits
  import opened RiskEngine
  import opened Books
  import opened Simulator

  /** A row of the positions table, open or closed. */
  datatype PositionRow = PositionRow(
    symbol: string, isOpen: bool, quantity: real, entryPrice: real, entryTime: int,
    stopLoss: Option<real>, takeProfit: Option<real>, trailingStop: Option<real>,
    feesPaid: real, signalId: Option<int>,
    exitPrice: Option<real>, exitTime: Option<int>, realisedPnl: Option<real>)

  /** Positions and trades, and the equity of each snapshot taken. */
  datatype Tables = Tables(positions: seq<PositionRow>, trades: seq<Trade>, snapshots: seq<real>)

  const EMPTY_TABLES := Tables([], [], [])

  datatype Settings = Settings(setup: Setup, initialBalance: real, filters: string -> SymbolFilters)

  datatype AccountError =
    | PositionAlreadyOpen | PriceUnavailable | NothingFilled | NoOpenPosition
    | OrderRefused(refusal: Refusal)

  // --- Rebuilding -----------------------------------------------------

  function OpenRows(rows: seq<PositionRow>): seq<PositionRow> {
    if rows == [] then []
    else
      var row := rows[|rows| - 1];
      OpenRows(rows[..|rows| - 1]) + if row.isOpen then [row] else []
  }

  /** Its excursions start again from the entry price: they are not in the table. */
  function PositionOf(row: PositionRow): Position {
    NewPosition(row.symbol, row.quantity, row.entryPrice, row.feesPaid, row.entryTime,
                row.stopLoss, row.takeProfit, row.trailingStop, row.signalId)
  }

  /** A later position in a symbol takes the place of an earlier one. */
  function Put(positions: seq<Position>, p: Position): seq<Position> {
    match Find(positions, p.symbol)
    case None => positions + [p]
    case Some(i) => positions[i := p]
  }

  function PositionsOf(rows: seq<PositionRow>): seq<Position> {
    if rows == [] then [] else Put(PositionsOf(rows[..|rows| - 1]), PositionOf(rows[|rows| - 1]))
  }

  function CommittedBy(row: PositionRow): real {
    row.quantity * row.entryPrice + row.feesPaid
  }

  function ExitTime(t: Trade): int {
    t.exitTime
  }

  function ClosedTrades(trades: seq<Trade>): seq<Trade> {
    StableSort(trades, ExitTime)
  }

  /** The latest exit of each symbol. */
  function LastExitTimes(closed: seq<Trade>): map<string, int> {
    if closed == [] then map[]
    else
      var last, t := LastExitTimes(closed[..|closed| - 1]), closed[|closed| - 1];
      if t.symbol !in last || t.exitTime > last[t.symbol] then last[t.symbol := t.exitTime] else last
  }

  function Highest(values: seq<real>): real {
    if values == [] then 0.0
    else if |values| == 1 then values[0]
    else Max(Highest(values[..|values| - 1]), values[|values| - 1])
  }

  /** The portfolio derived from the ledgers: nothing but the history says what the balance is. */
  function LoadPortfolio(settings: Settings, tables: Tables): Book {
    var closed, rows := ClosedTrades(tables.trades), OpenRows(tables.positions);
    var positions := PositionsOf(rows);
    var committed := SumOf(rows, CommittedBy);
    var realised := SumOf(closed, NetPnl);
    var cash := settings.initialBalance + realised - committed;
    Book(cash, settings.initialBalance, positions, closed, realised,
         SumOf(closed, FeesOf) + SumOf(positions, FeesPaid),
         StartingPeak(settings, Max(Max(settings.initialBalance, cash + committed), Highest(tables.snapshots))))
  }

  /** A portfolio never starts from a peak of nothing. */
  function StartingPeak(settings: Settings, peak: real): real {
    if peak <= 0.0 then settings.initialBalance else peak
  }

  function BuildEngine(book: Book): Venue {
    Venue(book, 0, LastExitTimes(book.closed))
  }

  function Rebuilt(settings: Settings, tables: Tables): Venue {
    BuildEngine(LoadPortfolio(settings, tables))
  }

  // --- Opening --------------------------------------------------------

  /** What the caller asks for; the price may be missing. */
  datatype OpenRequest = OpenRequest(
    symbol: string, price: Option<real>, stopPrice: real, takeProfit: Option<real>,
    trailingDistance: Option<real>, signalId: Option<int>, now: int)

  /** Held positions are priced at entry, for want of a mark. */
  function EntryPrices(positions: seq<Position>): Prices {
    if positions == [] then map[]
    else
      var last := positions[|positions| - 1];
      EntryPrices(positions[..|positions| - 1])[last.symbol := last.entryPrice]
  }

  function PricesFor(b: Book, symbol: string, price: real): Prices {
    EntryPrices(b.positions)[symbol := price]
  }

  function EntryFor(settings: Settings, r: OpenRequest, price: real): Entry {
    Entry(r.symbol, price, Some(r.stopPrice), settings.filters(r.symbol), None, None)
  }

  function OrderFor(settings: Settings, r: OpenRequest, price: real): Order {
    Order(r.symbol, price, r.now, settings.filters(r.symbol).stepSize,
          Some(r.stopPrice), r.takeProfit, r.trailingDistance, None, r.signalId)
  }

  function RowOf(p: Position): PositionRow {
    PositionRow(p.symbol, true, p.quantity, p.entryPrice, p.entryTime, p.stopLoss, p.takeProfit, p.trailingDistance,
                p.feesPaid, p.signalId, None, None, None)
  }

  function Snapshot(tables: Tables, b: Book, prices: Prices): Tables {
    tables.(snapshots := tables.snapshots + [Equity(b, prices)])
  }

  datatype OpenTradeResult = TradeOpened(position: PositionRow) | TradeRejected(rule: Rule)

  /** Asks an engine over the tables for the entry and, if it opens, records it. */
  function EnterTrade(settings: Settings, tables: Tables, engine: Venue, r: OpenRequest, price: real)
    : Result<(Tables, OpenTradeResult), AccountError>
  {
    var prices := PricesFor(engine.book, r.symbol, price);
    var (asked, a) := EvaluateEntry(settings.setup, engine, EntryFor(settings, r, price), prices, r.now,
        HEALTHY_SYSTEM);
    if !a.Approved? then Ok((tables, TradeRejected(a.rule)))
    else
      match Simulator.OpenPosition(settings.setup, asked, a, OrderFor(settings, r, price))
      case Err(refusal) => Err(OrderRefused(refusal))
      case Ok(done) =>
        match done.1
        case None => Err(NothingFilled)
        case Some(p) =>
          var added := tables.(positions := tables.positions + [RowOf(p)]);
          Ok((Snapshot(added, done.0.book, prices), TradeOpened(RowOf(p))))
  }

  /** Opens on the engine rebuilt from the tables. */
  function OpenTrade(
      settings: Settings, tables: Tables, r: OpenRequest): Result<(Tables, OpenTradeResult), AccountError> {
    var engine := Rebuilt(settings, tables);
    if Holds(engine.book, r.symbol) then Err(PositionAlreadyOpen)
    else if r.price.None? then Err(PriceUnavailable)
    else EnterTrade(settings, tables, engine, r, r.price.value)
  }

  // --- Closing --------------------------------------------------------

  /** The index of the open row in a symbol. */
  function OpenRowAt(rows: seq<PositionRow>, symbol: string): (i: Option<nat>)
    ensures i.Some? ==> i.value < |rows| && rows[i.value].isOpen && rows[i.value].symbol == symbol
    ensures i.None? ==> forall row <- rows :: row.isOpen ==> row.symbol != symbol
  {
    if rows == [] then None
    else if rows[|rows| - 1].isOpen && rows[|rows| - 1].symbol == symbol then Some(|rows| - 1)
    else OpenRowAt(rows[..|rows| - 1], symbol)
  }

  /** The row keeps its stop but is marked closed, with all the fees of the round trip. */
  function ClosedRow(row: PositionRow, t: Trade): PositionRow {
    row.(isOpen := false, exitPrice := Some(t.exitPrice), exitTime := Some(t.exitTime),
         realisedPnl := Some(t.netPnl), feesPaid := t.fees)
  }

  /** Closes at a given price, or at the ticker's, which may be missing. */
  function CloseTrade(
      settings: Settings, tables: Tables, symbol: string, reason: string, reference: Option<real>, now: int)
    : Result<Tables, AccountError>
  {
    match OpenRowAt(tables.positions, symbol)
    case None => Err(NoOpenPosition)
    case Some(i) =>
      if reference.None? then Err(PriceUnavailable)
      else
        var engine := Rebuilt(settings, tables);
        var (after, trade) :=
          ClosePosition(settings.setup, engine, symbol, reference.value, now, reason,
              settings.filters(symbol).stepSize);
        match trade
        case None => Err(NoOpenPosition)
        case Some(t) =>
          Ok(Snapshot(tables.(positions := tables.positions[i := ClosedRow(tables.positions[i], t)],
                              trades := tables.trades + [t]),
                      after.book, map[symbol := reference.value]))
  }

  // --- Monitoring -----------------------------------------------------

  /** A live price and the instant a close on it is stamped with. */
  datatype Quote = Quote(price: real, time: int)

  type Quotes = map<string, Quote>

  /** The stop after a price that did not exit, moved only when it goes up. */
  function RaisedStop(row: PositionRow, price: real): Option<real> {
    if row.trailingStop.Some? && row.trailingStop.value > 0.0 then
      var candidate := UpdateTrailingStop(row.stopLoss, price, row.trailingStop);
      if candidate.Some? && (row.stopLoss.None? || candidate.value > row.stopLoss.value) then candidate
      else row.stopLoss
    else
      row.stopLoss
  }

  /** One open row against its live price; a failed close is passed over. The flag says it closed. */
  function MonitorRow(settings: Settings, tables: Tables, i: nat, quote: Quote): (Tables, bool)
    requires i < |tables.positions|
  {
    var row := tables.positions[i];
    var reason := ExitReasonForBar(quote.price, quote.price, row.stopLoss, row.takeProfit);
    match reason
    case None => (tables.(positions := tables.positions[i := row.(stopLoss := RaisedStop(row, quote.price))]), false)
    case Some(exit) =>
      var trigger := if exit == STOP_LOSS then row.stopLoss else row.takeProfit;
      match CloseTrade(settings, tables, row.symbol, exit, trigger, quote.time)
      case Err(_) => (tables, false)
      case Ok(after) => (after, true)
  }

  /** The tables, and the number closed, once the first `k` rows have been looked at. */
  function MonitorRows(settings: Settings, tables: Tables, quotes: Quotes, k: nat): (r: (Tables, nat))
    requires k <= |tables.positions|
    ensures |r.0.positions| == |tables.positions|
  {
    if k == 0 then (tables, 0)
    else
      var (before, closed) := MonitorRows(settings, tables, quotes, k - 1);
      var row := tables.positions[k - 1];
      if !row.isOpen || row.symbol !in quotes then (before, closed)
      else
        var (after, done) := MonitorRow(settings, before, k - 1, quotes[row.symbol]);
        (after, closed + if done then 1 else 0)
  }

  /** The prices fetched on a pass. */
  function Fetched(rows: seq<PositionRow>, quotes: Quotes): Prices {
    if rows == [] then map[]
    else
      var fetched, row := Fetched(rows[..|rows| - 1], quotes), rows[|rows| - 1];
      if row.symbol in quotes then fetched[row.symbol := quotes[row.symbol].price] else fetched
  }

  /** One pass over the rows that were open at its start, then a snapshot if any price was fetched. */
  function Monitor(settings: Settings, tables: Tables, quotes: Quotes): (Tables, nat) {
    var (after, closed) := MonitorRows(settings, tables, quotes, |tables.positions|);
    var prices := Fetched(OpenRows(tables.positions), quotes);
    (if prices == map[] then after else Snapshot(after, LoadPortfolio(settings, after), prices), closed)
  }
}
