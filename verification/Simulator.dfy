/** The simulated venue as a value: `backend/app/paper_trading/simulator.py`. */
module Simulator {
  import opened Wrappers
  import opened Fills
  import opened TradingLimits
  import opened RiskEngine
  import opened Books

  /** One closed candle; times are microseconds. */
  datatype Bar = Bar(symbol: string, time: int, open: real, high: real, low: real, close: real)

  datatype SimulatorConfig = SimulatorConfig(feeRate: real, slippageBps: real, allowPartialFills: bool)

  /** The settings an engine is built with. */
  datatype Setup = Setup(config: SimulatorConfig, risk: RiskConfig) {
    predicate InRange() {
      risk.InRange() && 0.0 <= config.feeRate <= 1.0 && 0.0 <= config.slippageBps < BPS
    }
  }

  datatype Venue = Venue(book: Book, rejectedCount: nat, lastExit: map<string, int>)

  function NewVenue(balance: real): Venue {
    Venue(NewBook(balance), 0, map[])
  }

  // --- Risk plumbing --------------------------------------------------

  /** The account as the risk engine sees it; the realised result is that of the whole life. */
  function AccountStateOf(b: Book, prices: Prices): AccountState {
    AccountState(Equity(b, prices), b.cash, b.peakEquity, b.realisedPnl, UnrealisedPnl(b, prices),
                 ConsecutiveLosses(b.closed), |b.positions|, AssetExposure(b.positions, prices))
  }

  const MICROSECONDS: int := 1_000_000

  /** Whole seconds from one instant to another, towards zero. */
  function SecondsBetween(from: int, to: int): int {
    var d := to - from;
    if d >= 0 then d / MICROSECONDS else -((-d) / MICROSECONDS)
  }

  function SecondsSinceLastExit(v: Venue, symbol: string, now: int): Option<int> {
    if symbol in v.lastExit then Some(SecondsBetween(v.lastExit[symbol], now)) else None
  }

  datatype Entry = Entry(
    symbol: string, price: real, stopPrice: Option<real>, filters: SymbolFilters,
    spreadFraction: Option<real>, atrFraction: Option<real>)

  function RequestOf(setup: Setup, v: Venue, e: Entry, now: int): TradeRequest {
    TradeRequest(e.symbol, e.price, e.stopPrice, e.filters, setup.config.feeRate,
                 e.spreadFraction, e.atrFraction, SecondsSinceLastExit(v, e.symbol, now), None)
  }

  /** Asks the risk engine; a refusal is counted and nothing else changes. */
  function EvaluateEntry(
      setup: Setup, v: Venue, e: Entry, prices: Prices, now: int, system: SystemState): (Venue, Assessment)
  {
    var assessment := Evaluate(setup.risk, RequestOf(setup, v, e, now), AccountStateOf(v.book, prices), system);
    (if assessment.Approved? then v else v.(rejectedCount := v.rejectedCount + 1), assessment)
  }

  // --- Execution ------------------------------------------------------

  datatype Order = Order(
    symbol: string, reference: real, time: int, step: Option<real>,
    stopLoss: Option<real>, takeProfit: Option<real>, trailingDistance: Option<real>,
    liquidity: Option<real>, signalId: Option<int>)

  function EntryFill(setup: Setup, quantity: real, o: Order): Fill {
    SimulateFill(quantity, o.reference, Buy, setup.config.feeRate, setup.config.slippageBps,
                 if setup.config.allowPartialFills then o.liquidity else None, o.step)
  }

  function PositionFor(o: Order, fill: Fill): Position {
    NewPosition(o.symbol, fill.quantity, fill.price, fill.fee, o.time,
                o.stopLoss, o.takeProfit, o.trailingDistance, o.signalId)
  }

  /** Buys what an approval allows; an empty fill buys nothing. */
  function OpenPosition(
      setup: Setup, v: Venue, assessment: Assessment, o: Order): Result<(Venue, Option<Position>), Refusal> {
    if !assessment.Approved? || assessment.size.Unsized? then Err(NotApproved)
    else
      var fill := EntryFill(setup, assessment.size.quantity, o);
      if fill.IsEmpty() then Ok((v, None))
      else
        match Opened(v.book, PositionFor(o, fill))
        case Err(refusal) => Err(refusal)
        case Ok(book) => Ok((v.(book := book), Some(PositionFor(o, fill))))
  }

  function ExitFill(setup: Setup, quantity: real, reference: real, step: Option<real>): Fill {
    SimulateFill(quantity, reference, Sell, setup.config.feeRate, setup.config.slippageBps, None, step)
  }

  /** Closes the whole position in `symbol`, if there is one and the fill is not empty. */
  function ClosePosition(
      setup: Setup, v: Venue, symbol: string, reference: real, time: int, reason: string, step: Option<real>): (Venue,
          Option<Trade>)
  {
    match Find(v.book.positions, symbol)
    case None => (v, None)
    case Some(i) =>
      var p := v.book.positions[i];
      var fill := ExitFill(setup, p.quantity, reference, step);
      if fill.IsEmpty() then (v, None)
      else
        (v.(book := ClosedAt(v.book, i, fill.price, fill.fee, fill.slippageCost, time, reason),
            lastExit := v.lastExit[symbol := time]),
         Some(TradeOf(p, fill.price, fill.fee, fill.slippageCost, time, reason)))
  }

  // --- One candle -----------------------------------------------------

  function PeakAt(v: Venue, symbol: string, close: real): Venue {
    v.(book := WithPeak(v.book, map[symbol := close]))
  }

  /** The position after a candle it did not exit on. */
  function Trailed(p: Position, bar: Bar): Position {
    p.(stopLoss := UpdateTrailingStop(p.stopLoss, bar.high, p.trailingDistance))
  }

  function ExitPrice(p: Position, reason: string): real
    requires p.stopLoss.Some? || p.takeProfit.Some?
  {
    if p.takeProfit.None? || (reason == STOP_LOSS && p.stopLoss.Some?) then p.stopLoss.value else p.takeProfit.value
  }

  /** The venue with the `i`-th position having seen the candle's extremes. */
  function Watched(v: Venue, i: nat, bar: Bar): Venue
    requires i < |v.book.positions|
  {
    v.(book := Replaced(v.book, i, v.book.positions[i].Observed(bar.high, bar.low)))
  }

  /** The exit is judged by the standing stop; the trail moves only if there was none. */
  function ProcessBar(setup: Setup, v: Venue, bar: Bar, step: Option<real>): (Venue, Option<Trade>) {
    match Find(v.book.positions, bar.symbol)
    case None => (PeakAt(v, bar.symbol, bar.close), None)
    case Some(i) =>
      var watched := Watched(v, i, bar);
      var p := watched.book.positions[i];
      match ExitReasonForBar(bar.high, bar.low, p.stopLoss, p.takeProfit)
      case None =>
        (PeakAt(watched.(book := Replaced(watched.book, i, Trailed(p, bar))), bar.symbol, bar.close), None)
      case Some(reason) =>
        var (after, trade) := ClosePosition(setup, watched, bar.symbol, ExitPrice(p, reason), bar.time, reason, step);
        (PeakAt(after, bar.symbol, bar.close), trade)
  }

  function SymbolsOf(positions: seq<Position>): (s: seq<string>)
    ensures |s| == |positions|
    ensures forall i :: 0 <= i < |s| ==> s[i] == positions[i].symbol
  {
    seq(|positions|, i requires 0 <= i < |positions| => positions[i].symbol)
  }

  function CloseEach(
      setup: Setup, v: Venue, symbols: seq<string>, prices: Prices, time: int, reason: string): (Venue, seq<Trade>)
    decreases |symbols|
  {
    if symbols == [] then (v, [])
    else
      match Find(v.book.positions, symbols[0])
      case None => CloseEach(setup, v, symbols[1..], prices, time, reason)
      case Some(i) =>
        var reference := PriceOf(prices, v.book.positions[i]);
        var (after, trade) := ClosePosition(setup, v, symbols[0], reference, time, reason, None);
        var (end, trades) := CloseEach(setup, after, symbols[1..], prices, time, reason);
        (end, (if trade.Some? then [trade.value] else []) + trades)
  }

  /** Closes every position open at the start, in the order they were opened. */
  function ForceCloseAll(setup: Setup, v: Venue, prices: Prices, time: int, reason: string): (Venue, seq<Trade>) {
    CloseEach(setup, v, SymbolsOf(v.book.positions), prices, time, reason)
  }
}

/** What every sequence of operations on the venue keeps. */
module SimulatorProofs {
  import opened Wrappers
  import opened Fills
  import opened RiskEngine
  import opened Books
  import opened Simulator

  ghost predicate Sound(v: Venue) {
    Balanced(v.book) && Solvent(v.book)
  }

  /** One call on the engine; an open that raises leaves the venue as it was. */
  datatype Op =
    | Ask(entry: Entry, prices: Prices, now: int, system: SystemState)
    | Open(assessment: Assessment, order: Order)
    | Close(symbol: string, reference: real, time: int, reason: string, step: Option<real>)
    | OnBar(bar: Bar, step: Option<real>)
    | ForceClose(prices: Prices, time: int, reason: string)

  function Apply(setup: Setup, v: Venue, op: Op): Venue {
    match op
    case Ask(entry, prices, now, system) => EvaluateEntry(setup, v, entry, prices, now, system).0
    case Open(assessment, order) =>
      (match OpenPosition(setup, v, assessment, order)
       case Err(_) => v
       case Ok(r) => r.0)
    case Close(symbol, reference, time, reason, step) =>
      ClosePosition(setup, v, symbol, reference, time, reason, step).0
    case OnBar(bar, step) => ProcessBar(setup, v, bar, step).0
    case ForceClose(prices, time, reason) => ForceCloseAll(setup, v, prices, time, reason).0
  }

  function Run(setup: Setup, balance: real, ops: seq<Op>): Venue {
    if ops == [] then NewVenue(balance)
    else Apply(setup, Run(setup, balance, ops[..|ops| - 1]), ops[|ops| - 1])
  }

  lemma {:induction false} FeeIsBounded(rate: real, filled: real, quantity: real, price: real)
    requires 0.0 <= rate <= 1.0 && 0.0 <= filled <= quantity && price > 0.0
    ensures 0.0 <= rate * (filled * price) <= quantity * price
  {
    var gross := filled * price;
    assert gross >= 0.0;
    assert rate * gross >= 0.0 && (1.0 - rate) * gross >= 0.0;
    assert (1.0 - rate) * gross == gross - rate * gross;
    assert (quantity - filled) * price >= 0.0;
    assert (quantity - filled) * price == quantity * price - gross;
  }

  /** A buy that fills costs money; a sell that fills never pays more in fees than it brings in. */
  lemma {:induction false} EntryFillIsReal(setup: Setup, quantity: real, o: Order)
    requires setup.InRange() && !EntryFill(setup, quantity, o).IsEmpty()
    ensures var fill := EntryFill(setup, quantity, o);
            o.reference > 0.0 && 0.0 < fill.quantity <= quantity && fill.price >= o.reference && fill.fee >= 0.0
  {
    var fill := EntryFill(setup, quantity, o);
    FillIsTheGreatestAvailable(
      quantity, o.reference, Buy, setup.config.feeRate, setup.config.slippageBps,
      if setup.config.allowPartialFills then o.liquidity else None, o.step, 0.0);
    SlippageIsNeverFavourable(o.reference, setup.config.slippageBps);
    hide ApplySlippage;
    FeeIsBounded(setup.config.feeRate, fill.quantity, quantity, fill.price);
  }

  lemma {:induction false} ExitFillIsReal(setup: Setup, quantity: real, reference: real, step: Option<real>)
    requires setup.InRange() && !ExitFill(setup, quantity, reference, step).IsEmpty()
    ensures var fill := ExitFill(setup, quantity, reference, step);
            && reference > 0.0 && 0.0 < fill.quantity <= quantity
            && 0.0 < fill.price <= reference
            && 0.0 <= fill.fee <= quantity * fill.price
  {
    hide SimulateFill, OnGrid;
    var fill := ExitFill(setup, quantity, reference, step);
    FillIsTheGreatestAvailable(
      quantity, reference, Sell, setup.config.feeRate, setup.config.slippageBps, None, step, 0.0);
    SlippageIsNeverFavourable(reference, setup.config.slippageBps);
    hide ApplySlippage;
    FeeIsBounded(setup.config.feeRate, fill.quantity, quantity, fill.price);
  }

  lemma {:induction false} OpenIsSound(setup: Setup, v: Venue, assessment: Assessment, o: Order)
    requires setup.InRange() && Sound(v) && OpenPosition(setup, v, assessment, o).Ok?
    ensures Sound(OpenPosition(setup, v, assessment, o).value.0)
  {
    hide SimulateFill, Balanced, Solvent, Find;
    var fill := EntryFill(setup, assessment.size.quantity, o);
    if !fill.IsEmpty() {
      EntryFillIsReal(setup, assessment.size.quantity, o);
      OpeningConserves(v.book, PositionFor(o, fill));
    }
  }

  lemma {:induction false} CloseIsSound(
      setup: Setup, v: Venue, symbol: string, reference: real, time: int, reason: string, step: Option<real>)
    requires setup.InRange() && Sound(v)
    ensures Sound(ClosePosition(setup, v, symbol, reference, time, reason, step).0)
  {
    hide SimulateFill, Balanced, Solvent, ClosedAt, TradeOf;
    var at := Find(v.book.positions, symbol);
    if at.Some? {
      var p := v.book.positions[at.value];
      var fill := ExitFill(setup, p.quantity, reference, step);
      if !fill.IsEmpty() {
        ExitFillIsReal(setup, p.quantity, reference, step);
        ClosingConserves(v.book, at.value, fill.price, fill.fee, fill.slippageCost, time, reason);
      }
    }
  }

  lemma {:induction false} BarIsSound(setup: Setup, v: Venue, bar: Bar, step: Option<real>)
    requires setup.InRange() && Sound(v)
    ensures Sound(ProcessBar(setup, v, bar, step).0)
  {
    hide ClosePosition, Equity, Find;
    var at := Find(v.book.positions, bar.symbol);
    if at.Some? {
      var i := at.value;
      var watched := Watched(v, i, bar);
      var p := watched.book.positions[i];
      ReplacingConserves(v.book, i, v.book.positions[i].Observed(bar.high, bar.low));
      var exit := ExitReasonForBar(bar.high, bar.low, p.stopLoss, p.takeProfit);
      if exit.None? {
        ReplacingConserves(watched.book, i, Trailed(p, bar));
      } else {
        CloseIsSound(setup, watched, bar.symbol, ExitPrice(p, exit.value), bar.time, exit.value, step);
      }
    }
  }

  lemma {:induction false} CloseEachIsSound(
      setup: Setup, v: Venue, symbols: seq<string>, prices: Prices, time: int, reason: string)
    requires setup.InRange() && Sound(v)
    ensures Sound(CloseEach(setup, v, symbols, prices, time, reason).0)
    decreases |symbols|
  {
    hide ClosePosition, Balanced, Solvent;
    if symbols != [] {
      var at := Find(v.book.positions, symbols[0]);
      if at.None? {
        CloseEachIsSound(setup, v, symbols[1..], prices, time, reason);
      } else {
        var reference := PriceOf(prices, v.book.positions[at.value]);
        CloseIsSound(setup, v, symbols[0], reference, time, reason, None);
        CloseEachIsSound(setup, ClosePosition(setup, v, symbols[0], reference, time, reason, None).0,
                         symbols[1..], prices, time, reason);
      }
    }
  }

  /**
   * Whatever is asked of the venue, in whatever order and at whatever prices, money is conserved,
   * every total is the sum of its records, and cash is never negative.
   */
  lemma {:induction false} EveryReachableVenueIsSound(setup: Setup, balance: real, ops: seq<Op>)
    requires setup.InRange() && balance >= 0.0
    ensures Sound(Run(setup, balance, ops))
    decreases |ops|
  {
    if ops == [] {
      NewBookIsBalanced(balance);
    } else {
      var v := Run(setup, balance, ops[..|ops| - 1]);
      EveryReachableVenueIsSound(setup, balance, ops[..|ops| - 1]);
      hide Balanced, Solvent, ProcessBar, ClosePosition, OpenPosition, Evaluate;
      match ops[|ops| - 1]
      case Ask(entry, prices, now, system) =>
      case Open(assessment, order) =>
        if OpenPosition(setup, v, assessment, order).Ok? {
          OpenIsSound(setup, v, assessment, order);
        }
      case Close(symbol, reference, time, reason, step) =>
        CloseIsSound(setup, v, symbol, reference, time, reason, step);
      case OnBar(bar, step) => BarIsSound(setup, v, bar, step);
      case ForceClose(prices, time, reason) =>
        CloseEachIsSound(setup, v, SymbolsOf(v.book.positions), prices, time, reason);
    }
  }

  /** The ledger of closed trades only ever grows at its end. */
  lemma {:induction false} ClosedTradesAreNeverRewritten(setup: Setup, v: Venue, op: Op)
    ensures v.book.closed <= Apply(setup, v, op).book.closed
    ensures Apply(setup, v, op).book.initialBalance == v.book.initialBalance
  {
    hide Evaluate, SimulateFill, Equity, TradeOf;
    if op.ForceClose? {
      CloseEachAppends(setup, v, SymbolsOf(v.book.positions), op.prices, op.time, op.reason);
    }
  }

  lemma {:induction false} CloseAppends(
      setup: Setup, v: Venue, symbol: string, reference: real, time: int, reason: string, step: Option<real>)
    ensures var (after, trade) := ClosePosition(setup, v, symbol, reference, time, reason, step);
            && after.book.closed == v.book.closed + (if trade.Some? then [trade.value] else [])
            && after.book.initialBalance == v.book.initialBalance
  {
    hide ExitFill, TradeOf;
  }

  lemma {:induction false} CloseEachAppends(
      setup: Setup, v: Venue, symbols: seq<string>, prices: Prices, time: int, reason: string)
    ensures var (after, trades) := CloseEach(setup, v, symbols, prices, time, reason);
            after.book.closed == v.book.closed + trades && after.book.initialBalance == v.book.initialBalance
    decreases |symbols|
  {
    hide ClosePosition, PriceOf;
    if symbols != [] {
      var at := Find(v.book.positions, symbols[0]);
      if at.None? {
        CloseEachAppends(setup, v, symbols[1..], prices, time, reason);
      } else {
        var reference := PriceOf(prices, v.book.positions[at.value]);
        CloseAppends(setup, v, symbols[0], reference, time, reason, None);
        var next := ClosePosition(setup, v, symbols[0], reference, time, reason, None).0;
        CloseEachAppends(setup, next, symbols[1..], prices, time, reason);
      }
    }
  }

  /** A forced close at positive prices leaves nothing open. */
  lemma {:induction false} ForcedCloseLeavesNothing(setup: Setup, v: Venue, prices: Prices, time: int, reason: string)
    requires setup.InRange() && Sound(v)
    requires forall s <- prices :: prices[s] > 0.0
    ensures ForceCloseAll(setup, v, prices, time, reason).0.book.positions == []
  {
    CloseEachCloses(setup, v, SymbolsOf(v.book.positions), prices, time, reason);
  }

  lemma {:induction false} CloseEachCloses(
      setup: Setup, v: Venue, symbols: seq<string>, prices: Prices, time: int, reason: string)
    requires setup.InRange() && Sound(v) && symbols == SymbolsOf(v.book.positions)
    requires forall s <- prices :: prices[s] > 0.0
    ensures CloseEach(setup, v, symbols, prices, time, reason).0.book.positions == []
    decreases |symbols|
  {
    if symbols != [] {
      var positions := v.book.positions;
      assert SymbolsOf(positions[1..]) == symbols[1..];
      hide Sound, ClosePosition, Find, PriceOf, SymbolsOf;
      ClosesTheFirst(setup, v, prices, time, reason);
      var reference := PriceOf(prices, positions[0]);
      CloseIsSound(setup, v, symbols[0], reference, time, reason, None);
      var next := ClosePosition(setup, v, symbols[0], reference, time, reason, None).0;
      CloseEachCloses(setup, next, symbols[1..], prices, time, reason);
    }
  }

  lemma {:induction false} ClosesTheFirst(setup: Setup, v: Venue, prices: Prices, time: int, reason: string)
    requires setup.InRange() && Sound(v) && v.book.positions != []
    requires forall s <- prices :: prices[s] > 0.0
    ensures var p := v.book.positions[0];
            && Find(v.book.positions, p.symbol) == Some(0)
            && ClosePosition(setup, v, p.symbol, PriceOf(prices, p), time, reason, None).0.book.positions
               == v.book.positions[1..]
  {
    var p := v.book.positions[0];
    FindFirst(v.book.positions);
    GridQuantityFillsInFull(
      p.quantity, PriceOf(prices, p), Sell, setup.config.feeRate, setup.config.slippageBps, None);
    hide SimulateFill, Balanced, TradeOf;
  }

  lemma {:induction false} FindFirst(positions: seq<Position>)
    requires DistinctSymbols(positions) && positions != []
    ensures Find(positions, positions[0].symbol) == Some(0)
    decreases |positions|
  {
    if |positions| > 1 {
      FindFirst(positions[..|positions| - 1]);
    }
  }
}
