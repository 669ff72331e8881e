/** The paper account's actions on its tables: `backend/app/paper_trading/account.py`. */
module PaperAccount {
  import opened Wrappers
  import opened Sums
  import opened Fills
  import opened RiskEngine
  import opened Books
  import opened Portfolio
  import opened PaperTradingEngine
  import L = PaperLedger
  import Simulator

  /** The database session: three tables, rows in the order they were added. */
  class Session {
    var positions: seq<L.PositionRow>
    var trades: seq<Trade>
    var snapshots: seq<real>

    constructor ()
      ensures Abs() == L.EMPTY_TABLES
    {
      positions, trades, snapshots := [], [], [];
    }

    function Abs(): L.Tables
      reads this
    {
      L.Tables(positions, trades, snapshots)
    }

    method RecordSnapshot(portfolio: Portfolio, prices: Prices)
      modifies `snapshots
      ensures Abs() == L.Snapshot(old(Abs()), portfolio.Abs(), prices)
    {
      var value := portfolio.PositionsValue(prices);
      snapshots := snapshots + [portfolio.quoteBalance + value];
    }
  }

  method LastExitTimes(closed: seq<Trade>) returns (last: map<string, int>)
    ensures last == L.LastExitTimes(closed)
  {
    last := map[];
    for k := 0 to |closed|
      invariant last == L.LastExitTimes(closed[..k])
    {
      assert closed[..k + 1][..k] == closed[..k];
      var t := closed[k];
      if t.symbol !in last || t.exitTime > last[t.symbol] {
        last := last[t.symbol := t.exitTime];
      }
    }
    assert closed[..|closed|] == closed;
  }

  lemma {:induction false} PutKeepsDistinct(positions: seq<OpenPosition>, p: OpenPosition)
    requires DistinctObjects(positions) && DistinctSymbols(AbsAll(positions)) && p !in positions
    ensures match Find(AbsAll(positions), p.symbol)
            case None =>
              && DistinctObjects(positions + [p]) && DistinctSymbols(AbsAll(positions + [p]))
              && AbsAll(positions + [p]) == L.Put(AbsAll(positions), p.Abs())
            case Some(i) =>
              && DistinctObjects(positions[i := p]) && DistinctSymbols(AbsAll(positions[i := p]))
              && AbsAll(positions[i := p]) == L.Put(AbsAll(positions), p.Abs())
  {
    if Find(AbsAll(positions), p.symbol).None? {
      AddedStaysDistinct(positions, p);
    } else {
      var i := Find(AbsAll(positions), p.symbol).value;
      assert AbsAll(positions[i := p]) == AbsAll(positions)[i := p.Abs()];
      SameSymbolsStayDistinct(AbsAll(positions), AbsAll(positions[i := p]));
    }
  }

  lemma {:induction false} NothingIsDistinct()
    ensures DistinctObjects([]) && DistinctSymbols(AbsAll([])) && AbsAll([]) == []
  {
  }

  /** A row's position in its place: after the others, or instead of an earlier one in its symbol. */
  method PutPosition(positions: seq<OpenPosition>, row: L.PositionRow) returns (after: seq<OpenPosition>)
    requires DistinctObjects(positions) && DistinctSymbols(AbsAll(positions))
    ensures DistinctObjects(after) && DistinctSymbols(AbsAll(after))
    ensures AbsAll(after) == L.Put(AbsAll(positions), L.PositionOf(row))
    ensures forall i :: 0 <= i < |after| ==> after[i] in positions || fresh(after[i])
  {
    hide Find, L.Put, DistinctObjects, DistinctSymbols;
    var position := new OpenPosition(L.PositionOf(row));
    PutKeepsDistinct(positions, position);
    var at := Find(AbsAll(positions), position.symbol);
    after := if at.None? then positions + [position] else positions[at.value := position];
  }

  lemma {:induction false} OneMoreRow(rows: seq<L.PositionRow>, k: nat)
    requires k < |rows|
    ensures L.PositionsOf(rows[..k + 1]) == L.Put(L.PositionsOf(rows[..k]), L.PositionOf(rows[k]))
    ensures SumOf(rows[..k + 1], L.CommittedBy)
            == SumOf(rows[..k], L.CommittedBy) + (rows[k].quantity * rows[k].entryPrice + rows[k].feesPaid)
  {
    hide L.Put;
    assert rows[..k + 1][..k] == rows[..k];
  }

  /** The rows' positions, a later one in a symbol replacing an earlier one, and what they hold in all. */
  method PositionsFrom(rows: seq<L.PositionRow>) returns (positions: seq<OpenPosition>, committed: real)
    ensures DistinctObjects(positions) && DistinctSymbols(AbsAll(positions))
    ensures AbsAll(positions) == L.PositionsOf(rows) && committed == SumOf(rows, L.CommittedBy)
    ensures forall i :: 0 <= i < |positions| ==> fresh(positions[i])
  {
    NothingIsDistinct();
    assert rows[..0] == [] && rows[..|rows|] == rows;
    positions, committed := [], 0.0;
    assert AbsAll(positions) == L.PositionsOf(rows[..0]) && committed == SumOf(rows[..0], L.CommittedBy);
    hide L.Put, L.PositionsOf, SumOf, DistinctObjects, DistinctSymbols;
    for k := 0 to |rows|
      invariant DistinctObjects(positions) && DistinctSymbols(AbsAll(positions))
      invariant AbsAll(positions) == L.PositionsOf(rows[..k]) && committed == SumOf(rows[..k], L.CommittedBy)
      invariant forall i :: 0 <= i < |positions| ==> fresh(positions[i])
    {
      OneMoreRow(rows, k);
      positions := PutPosition(positions, rows[k]);
      committed := committed + (rows[k].quantity * rows[k].entryPrice + rows[k].feesPaid);
    }
  }

  /** Rebuilds the portfolio from the ledgers. */
  method LoadPortfolio(session: Session, settings: L.Settings) returns (portfolio: Portfolio)
    ensures portfolio.Valid() && fresh(portfolio)
    ensures forall i :: 0 <= i < |portfolio.positions| ==> fresh(portfolio.positions[i])
    ensures portfolio.Abs() == L.LoadPortfolio(settings, session.Abs())
  {
    hide L.ClosedTrades, L.OpenRows, L.PositionsOf, SumOf, DistinctObjects, DistinctSymbols, L.Highest;
    var closed := L.ClosedTrades(session.trades);
    var positions, committed := PositionsFrom(L.OpenRows(session.positions));
    var realised := SumOf(closed, NetPnl);
    var cash := settings.initialBalance + realised - committed;
    var totalFees := SumOf(closed, FeesOf) + SumOf(AbsAll(positions), FeesPaid);
    var peak := Max(Max(settings.initialBalance, cash + committed), L.Highest(session.snapshots));
    portfolio := new Portfolio.FromRecords(cash, settings.initialBalance, positions, closed, realised, totalFees, peak);
  }

  method BuildEngine(portfolio: Portfolio, settings: L.Settings) returns (engine: PaperTradingEngine)
    requires portfolio.Valid()
    ensures engine.Valid() && fresh(engine) && engine.portfolio == portfolio && engine.setup == settings.setup
    ensures engine.Abs() == L.BuildEngine(portfolio.Abs())
  {
    var last := LastExitTimes(portfolio.closedTrades);
    engine := new PaperTradingEngine(settings.setup, portfolio, last);
  }

  /** An engine over the portfolio as the tables have it. */
  method Rebuild(session: Session, settings: L.Settings) returns (engine: PaperTradingEngine)
    ensures engine.Valid() && fresh(engine) && fresh(engine.portfolio) && engine.setup == settings.setup
    ensures engine.Abs() == L.Rebuilt(settings, session.Abs())
  {
    var portfolio := LoadPortfolio(session, settings);
    engine := BuildEngine(portfolio, settings);
  }

  /** Asks the engine for an entry at a price and records what it opened; otherwise records nothing. */
  method EnterTrade(session: Session, settings: L.Settings, engine: PaperTradingEngine, r: L.OpenRequest, price: real)
      returns (outcome: Result<L.OpenTradeResult, L.AccountError>)
    requires engine.Valid() && engine.setup == settings.setup
    modifies session, engine, engine.portfolio
    ensures match L.EnterTrade(settings, old(session.Abs()), old(engine.Abs()), r, price)
            case Err(error) => outcome == Err(error) && session.Abs() == old(session.Abs())
            case Ok(done) => outcome == Ok(done.1) && session.Abs() == done.0
  {
    hide Evaluate, Simulator.EvaluateEntry, Simulator.OpenPosition, Equity, DistinctObjects, DistinctSymbols;
    var prices := L.PricesFor(engine.portfolio.Abs(), r.symbol, price);
    var assessment := engine.EvaluateEntry(L.EntryFor(settings, r, price), prices, r.now, HEALTHY_SYSTEM);
    if !assessment.Approved? {
      return Ok(L.TradeRejected(assessment.rule));
    }
    var opening := engine.OpenPosition(assessment, L.OrderFor(settings, r, price));
    match opening
    case Err(refusal) => return Err(L.OrderRefused(refusal));
    case Ok(None) => return Err(L.NothingFilled);
    case Ok(Some(position)) =>
      var row := RecordOpening(session, engine.portfolio, position, prices);
      return Ok(L.TradeOpened(row));
  }

  /** Opens a trade through a rebuilt engine; anything that fails records nothing. */
  method OpenPaperTrade(session: Session, settings: L.Settings, r: L.OpenRequest)
      returns (outcome: Result<L.OpenTradeResult, L.AccountError>)
    modifies session
    ensures match L.OpenTrade(settings, old(session.Abs()), r)
            case Err(error) => outcome == Err(error) && session.Abs() == old(session.Abs())
            case Ok(done) => outcome == Ok(done.1) && session.Abs() == done.0
  {
    hide L.Rebuilt, L.EnterTrade, Find, DistinctObjects, DistinctSymbols;
    var engine := Rebuild(session, settings);
    if Find(AbsAll(engine.portfolio.positions), r.symbol).Some? {
      return Err(L.PositionAlreadyOpen);
    }
    if r.price.None? {
      return Err(L.PriceUnavailable);
    }
    outcome := EnterTrade(session, settings, engine, r, r.price.value);
  }

  /** Adds the row of a position and a snapshot of the portfolio that holds it. */
  method RecordOpening(session: Session, portfolio: Portfolio, position: OpenPosition, prices: Prices)
      returns (row: L.PositionRow)
    modifies session
    ensures row == L.RowOf(position.Abs())
    ensures session.Abs() == L.Snapshot(old(session.Abs()).(positions := old(session.positions) + [row]),
        portfolio.Abs(), prices)
  {
    hide Equity;
    row := L.RowOf(position.Abs());
    session.positions := session.positions + [row];
    session.RecordSnapshot(portfolio, prices);
  }

  /** Closes the open row in a symbol through a rebuilt engine and records the trade. */
  method ClosePaperTrade(
      session: Session, settings: L.Settings, symbol: string, reason: string, reference: Option<real>, now: int)
      returns (error: Option<L.AccountError>)
    modifies session
    ensures match L.CloseTrade(settings, old(session.Abs()), symbol, reason, reference, now)
            case Err(e) => error == Some(e) && session.Abs() == old(session.Abs())
            case Ok(after) => error.None? && session.Abs() == after
  {
    hide L.Rebuilt, Find, Equity, DistinctObjects, DistinctSymbols, Simulator.ClosePosition, L.OpenRowAt;
    var at := L.OpenRowAt(session.positions, symbol);
    if at.None? {
      return Some(L.NoOpenPosition);
    }
    if reference.None? {
      return Some(L.PriceUnavailable);
    }
    var engine := Rebuild(session, settings);
    var trade := engine.ClosePosition(symbol, reference.value, now, reason, settings.filters(symbol).stepSize);
    if trade.None? {
      return Some(L.NoOpenPosition);
    }
    RecordClosing(session, engine.portfolio, at.value, trade.value, map[symbol := reference.value]);
    error := None;
  }

  /** Closes a row, adds its trade and a snapshot of the portfolio without it. */
  method RecordClosing(session: Session, portfolio: Portfolio, i: nat, trade: Trade, prices: Prices)
    requires i < |session.positions|
    modifies session
    ensures var was := old(session.Abs());
            session.Abs() == L.Snapshot(
              was.(positions := was.positions[i := L.ClosedRow(was.positions[i], trade)],
                  trades := was.trades + [trade]),
              portfolio.Abs(), prices)
  {
    hide Equity;
    session.positions := session.positions[i := L.ClosedRow(session.positions[i], trade)];
    session.trades := session.trades + [trade];
    session.RecordSnapshot(portfolio, prices);
  }

  /** Checks one open row against its live price, closing it or raising its stop. */
  method MonitorRow(session: Session, settings: L.Settings, i: nat, quote: L.Quote) returns (closed: bool)
    requires i < |session.positions|
    modifies session
    ensures session.Abs() == L.MonitorRow(settings, old(session.Abs()), i, quote).0
    ensures closed == L.MonitorRow(settings, old(session.Abs()), i, quote).1
  {
    hide L.CloseTrade, UpdateTrailingStop;
    var row := session.positions[i];
    var reason := ExitReasonForBar(quote.price, quote.price, row.stopLoss, row.takeProfit);
    if reason.Some? {
      var trigger := if reason.value == STOP_LOSS then row.stopLoss else row.takeProfit;
      var error := ClosePaperTrade(session, settings, row.symbol, reason.value, trigger, quote.time);
      return error.None?;
    }
    var stop := row.stopLoss;
    if row.trailingStop.Some? && row.trailingStop.value > 0.0 {
      var candidate := UpdateTrailingStop(row.stopLoss, quote.price, row.trailingStop);
      if candidate.Some? && (row.stopLoss.None? || candidate.value > row.stopLoss.value) {
        stop := candidate;
      }
    }
    session.positions := session.positions[i := row.(stopLoss := stop)];
    closed := false;
  }

  /** One pass over the open rows; a row without a price is passed over. */
  method MonitorOpenPositions(session: Session, settings: L.Settings, quotes: L.Quotes) returns (closed: nat)
    modifies session
    ensures session.Abs() == L.Monitor(settings, old(session.Abs()), quotes).0
    ensures closed == L.Monitor(settings, old(session.Abs()), quotes).1
  {
    hide L.MonitorRow, L.MonitorRows, L.LoadPortfolio, Equity, L.Fetched, L.OpenRows;
    ghost var tables := session.Abs();
    var rows := session.positions;
    var prices: Prices := map[];
    closed := 0;
    NothingMonitored(settings, tables, quotes);
    for k := 0 to |rows|
      invariant session.Abs() == L.MonitorRows(settings, tables, quotes, k).0
      invariant closed == L.MonitorRows(settings, tables, quotes, k).1
      invariant prices == L.Fetched(L.OpenRows(rows[..k]), quotes)
    {
      MonitoredMore(settings, tables, quotes, k);
      if rows[k].isOpen && rows[k].symbol in quotes {
        var quote := quotes[rows[k].symbol];
        prices := prices[rows[k].symbol := quote.price];
        var done := MonitorRow(session, settings, k, quote);
        if done {
          closed := closed + 1;
        }
      }
    }
    assert rows[..|rows|] == rows;
    if prices != map[] {
      var portfolio := LoadPortfolio(session, settings);
      session.RecordSnapshot(portfolio, prices);
    }
  }

  lemma {:induction false} NothingMonitored(settings: L.Settings, tables: L.Tables, quotes: L.Quotes)
    ensures L.MonitorRows(settings, tables, quotes, 0) == (tables, 0)
    ensures L.Fetched(L.OpenRows(tables.positions[..0]), quotes) == map[]
  {
  }

  lemma {:induction false} MonitoredMore(settings: L.Settings, tables: L.Tables, quotes: L.Quotes, k: nat)
    requires k < |tables.positions|
    ensures var row := tables.positions[k];
            var (before, closed) := L.MonitorRows(settings, tables, quotes, k);
            var prices := L.Fetched(L.OpenRows(tables.positions[..k]), quotes);
            if row.isOpen && row.symbol in quotes then
              var (after, done) := L.MonitorRow(settings, before, k, quotes[row.symbol]);
              && L.MonitorRows(settings, tables, quotes, k + 1) == (after, closed + if done then 1 else 0)
              && L.Fetched(L.OpenRows(tables.positions[..k + 1]), quotes)
                  == prices[row.symbol := quotes[row.symbol].price]
            else
              && L.MonitorRows(settings, tables, quotes, k + 1) == (before, closed)
              && L.Fetched(L.OpenRows(tables.positions[..k + 1]), quotes) == prices
  {
    hide L.MonitorRow;
    assert tables.positions[..k + 1][..k] == tables.positions[..k];
    FetchedMore(L.OpenRows(tables.positions[..k]), tables.positions[k], quotes);
  }

  lemma {:induction false} FetchedMore(rows: seq<L.PositionRow>, row: L.PositionRow, quotes: L.Quotes)
    ensures L.Fetched(rows + [row], quotes)
            == if row.symbol in quotes then L.Fetched(rows, quotes)[row.symbol := quotes[row.symbol].price]
               else L.Fetched(rows, quotes)
    ensures rows + [] == rows
  {
    assert (rows + [row])[..|rows|] == rows;
  }
}
