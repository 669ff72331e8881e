/** The lot grid on a venue that trades any number of symbols, with partial fills. */
module LotGrid {
  import opened Wrappers
  import opened Fills
  import opened RiskEngine
  import opened Books
  import opened Simulator
  import opened SimulatorProofs

  /** The lot step of every symbol; no step, or one that is not positive, is no grid. */
  type Steps = string -> Option<real>

  /** The call names the step of its symbol; a forced close names none. */
  predicate KeepsSteps(op: Op, steps: Steps) {
    match op
    case Ask(_, _, _, _) => true
    case Open(_, order) => order.step == steps(order.symbol)
    case Close(symbol, _, _, _, step) => step == steps(symbol)
    case OnBar(bar, step) => step == steps(bar.symbol)
    case ForceClose(_, _, _) => true
  }

  /** A positive multiple of the step of its symbol, bought for the fee rate. */
  ghost predicate WholeLot(p: Position, steps: Steps, rate: real) {
    && p.quantity > 0.0 && OnGrid(p.quantity, steps(p.symbol))
    && p.feesPaid == rate * (p.quantity * p.entryPrice)
  }

  /** The same, bought and sold whole, each leg for the fee rate. */
  ghost predicate WholeTrade(t: Trade, steps: Steps, rate: real) {
    && t.quantity > 0.0 && OnGrid(t.quantity, steps(t.symbol))
    && t.fees == rate * (t.quantity * t.entryPrice) + rate * (t.quantity * t.exitPrice)
  }

  ghost predicate OnLots(v: Venue, steps: Steps, rate: real) {
    && (forall p <- v.book.positions :: WholeLot(p, steps, rate))
    && (forall t <- v.book.closed :: WholeTrade(t, steps, rate))
  }

  /** What a buy fills, the whole of it or less, is a whole lot. */
  lemma {:induction false} EntriesAreWholeLots(setup: Setup, quantity: real, o: Order, steps: Steps)
    requires o.step == steps(o.symbol) && !EntryFill(setup, quantity, o).IsEmpty()
    ensures WholeLot(PositionFor(o, EntryFill(setup, quantity, o)), steps, setup.config.feeRate)
  {
    hide SimulateFill, ApplySlippage, OnGrid;
    FillIsTheGreatestAvailable(
      quantity, o.reference, Buy, setup.config.feeRate, setup.config.slippageBps,
      if setup.config.allowPartialFills then o.liquidity else None, o.step, 0.0);
  }

  /** A whole lot leaves whole, at any price above zero, on its own step or on none. */
  lemma {:induction false} ExitsAreWhole(
      setup: Setup, p: Position, reference: real, step: Option<real>, steps: Steps, rate: real)
    requires WholeLot(p, steps, rate) && (step == steps(p.symbol) || step == None)
    ensures var fill := ExitFill(setup, p.quantity, reference, step);
            && (fill.IsEmpty() <==> reference <= 0.0)
            && (!fill.IsEmpty() ==>
                  && fill.quantity == p.quantity && !fill.isPartial
                  && fill.fee == setup.config.feeRate * (p.quantity * fill.price))
  {
    if reference > 0.0 {
      assert OnGrid(p.quantity, step);
      hide OnGrid;
      GridQuantityFillsInFull(p.quantity, reference, Sell, setup.config.feeRate, setup.config.slippageBps, step);
    }
  }

  lemma {:induction false} CloseIsOnLots(
      setup: Setup, v: Venue, symbol: string, reference: real, time: int, reason: string, step: Option<real>,
      steps: Steps)
    requires OnLots(v, steps, setup.config.feeRate) && (step == steps(symbol) || step == None)
    ensures var (after, trade) := ClosePosition(setup, v, symbol, reference, time, reason, step);
            && OnLots(after, steps, setup.config.feeRate)
            && (trade.Some? <==> Holds(v.book, symbol) && reference > 0.0)
  {
    hide ExitFill, WholeLot, WholeTrade;
    var at := Find(v.book.positions, symbol);
    if at.Some? {
      var p := v.book.positions[at.value];
      ExitsAreWhole(setup, p, reference, step, steps, setup.config.feeRate);
      var fill := ExitFill(setup, p.quantity, reference, step);
      if !fill.IsEmpty() {
        TradesOfLots(p, fill.price, fill.fee, fill.slippageCost, time, reason, steps, setup.config.feeRate);
      }
    }
  }

  lemma {:induction false} TradesOfLots(
      p: Position, price: real, fee: real, cost: real, time: int, reason: string, steps: Steps, rate: real)
    requires WholeLot(p, steps, rate) && fee == rate * (p.quantity * price)
    ensures WholeTrade(TradeOf(p, price, fee, cost, time, reason), steps, rate)
  {
    hide OnGrid;
  }

  lemma {:induction false} CloseEachIsOnLots(
      setup: Setup, v: Venue, symbols: seq<string>, prices: Prices, time: int, reason: string, steps: Steps)
    requires OnLots(v, steps, setup.config.feeRate)
    ensures OnLots(CloseEach(setup, v, symbols, prices, time, reason).0, steps, setup.config.feeRate)
    decreases |symbols|
  {
    hide ClosePosition, OnLots;
    if symbols != [] {
      var at := Find(v.book.positions, symbols[0]);
      if at.None? {
        CloseEachIsOnLots(setup, v, symbols[1..], prices, time, reason, steps);
      } else {
        var reference := PriceOf(prices, v.book.positions[at.value]);
        CloseIsOnLots(setup, v, symbols[0], reference, time, reason, None, steps);
        var next := ClosePosition(setup, v, symbols[0], reference, time, reason, None).0;
        CloseEachIsOnLots(setup, next, symbols[1..], prices, time, reason, steps);
      }
    }
  }

  /** Moving a stop or widening an excursion is not a fill. */
  lemma {:induction false} ReplacingKeepsLots(v: Venue, i: nat, p: Position, steps: Steps, rate: real)
    requires OnLots(v, steps, rate) && i < |v.book.positions|
    requires var was := v.book.positions[i];
             p.symbol == was.symbol && p.quantity == was.quantity && p.entryPrice == was.entryPrice
             && p.feesPaid == was.feesPaid
    ensures OnLots(v.(book := Replaced(v.book, i, p)), steps, rate)
  {
    hide OnGrid;
    assert WholeLot(v.book.positions[i], steps, rate);
  }

  lemma {:induction false} BarIsOnLots(setup: Setup, v: Venue, bar: Bar, step: Option<real>, steps: Steps)
    requires OnLots(v, steps, setup.config.feeRate) && step == steps(bar.symbol)
    ensures OnLots(ProcessBar(setup, v, bar, step).0, steps, setup.config.feeRate)
  {
    hide ClosePosition, Equity, Find, WholeLot, WholeTrade;
    var at := Find(v.book.positions, bar.symbol);
    if at.Some? {
      var i := at.value;
      var watched := Watched(v, i, bar);
      var p := watched.book.positions[i];
      ReplacingKeepsLots(v, i, p, steps, setup.config.feeRate);
      var exit := ExitReasonForBar(bar.high, bar.low, p.stopLoss, p.takeProfit);
      if exit.None? {
        ReplacingKeepsLots(watched, i, Trailed(p, bar), steps, setup.config.feeRate);
      } else {
        CloseIsOnLots(setup, watched, bar.symbol, ExitPrice(p, exit.value), bar.time, exit.value, step, steps);
      }
    }
  }

  lemma {:induction false} OpenIsOnLots(setup: Setup, v: Venue, assessment: Assessment, o: Order, steps: Steps)
    requires OnLots(v, steps, setup.config.feeRate) && o.step == steps(o.symbol)
    requires OpenPosition(setup, v, assessment, o).Ok?
    ensures OnLots(OpenPosition(setup, v, assessment, o).value.0, steps, setup.config.feeRate)
  {
    hide SimulateFill, WholeLot, WholeTrade, Find;
    if !EntryFill(setup, assessment.size.quantity, o).IsEmpty() {
      EntriesAreWholeLots(setup, assessment.size.quantity, o, steps);
    }
  }

  /**
   * Whatever is asked of a venue, in any number of symbols and however little of each entry fills,
   * every holding and every trade is a positive multiple of the lot step of its symbol, bought and sold
   * as one quantity, with the fee rate charged on both legs: no dust is left and none is sold for free.
   */
  lemma {:induction false} EveryReachableVenueIsOnLots(setup: Setup, balance: real, ops: seq<Op>, steps: Steps)
    requires forall op <- ops :: KeepsSteps(op, steps)
    ensures OnLots(Run(setup, balance, ops), steps, setup.config.feeRate)
    decreases |ops|
  {
    if ops != [] {
      var v, op := Run(setup, balance, ops[..|ops| - 1]), ops[|ops| - 1];
      assert op in ops && KeepsSteps(op, steps);
      EveryReachableVenueIsOnLots(setup, balance, ops[..|ops| - 1], steps);
      hide OnLots, ProcessBar, ClosePosition, OpenPosition, Evaluate;
      match op
      case Ask(entry, prices, now, system) => AskingKeepsLots(setup, v, entry, prices, now, system, steps);
      case Open(assessment, order) =>
        if OpenPosition(setup, v, assessment, order).Ok? {
          OpenIsOnLots(setup, v, assessment, order, steps);
        }
      case Close(symbol, reference, time, reason, step) =>
        CloseIsOnLots(setup, v, symbol, reference, time, reason, step, steps);
      case OnBar(bar, step) => BarIsOnLots(setup, v, bar, step, steps);
      case ForceClose(prices, time, reason) =>
        CloseEachIsOnLots(setup, v, SymbolsOf(v.book.positions), prices, time, reason, steps);
    }
  }

  lemma {:induction false} AskingKeepsLots(
      setup: Setup, v: Venue, entry: Entry, prices: Prices, now: int, system: SystemState, steps: Steps)
    requires OnLots(v, steps, setup.config.feeRate)
    ensures OnLots(EvaluateEntry(setup, v, entry, prices, now, system).0, steps, setup.config.feeRate)
  {
    hide Evaluate, WholeLot, WholeTrade;
  }

  /** In such a venue a close at any price above zero closes all of what is held. */
  lemma {:induction false} EveryCloseIsWhole(
      setup: Setup, balance: real, ops: seq<Op>, steps: Steps, symbol: string, reference: real, time: int,
      reason: string)
    requires forall op <- ops :: KeepsSteps(op, steps)
    ensures var v := Run(setup, balance, ops);
            var (after, trade) := ClosePosition(setup, v, symbol, reference, time, reason, steps(symbol));
            && (trade.Some? <==> Holds(v.book, symbol) && reference > 0.0)
            && (trade.Some? ==> WholeTrade(trade.value, steps, setup.config.feeRate))
  {
    EveryReachableVenueIsOnLots(setup, balance, ops, steps);
    var v := Run(setup, balance, ops);
    hide Run, ClosePosition, Find;
    CloseIsOnLots(setup, v, symbol, reference, time, reason, steps(symbol), steps);
    CloseAppends(setup, v, symbol, reference, time, reason, steps(symbol));
    var (after, trade) := ClosePosition(setup, v, symbol, reference, time, reason, steps(symbol));
    if trade.Some? {
      assert after.book.closed[|after.book.closed| - 1] == trade.value;
    }
  }
}
