/** What one bar of a single-symbol replay can do to the venue. */
module BacktestShapes {
  import opened Wrappers
  import opened Fills
  import opened PositionSizing
  import opened RiskEngine
  import opened Books
  import opened Simulator
  import opened Backtest

  /** At most one position is open, in the plan's symbol, of a quantity on the lot grid. */
  ghost predicate AtMostOne(plan: Plan, v: Venue) {
    && |v.book.positions| <= 1
    && forall p <- v.book.positions ::
         && p.symbol == plan.symbol
         && p.quantity > 0.0 && p.entryPrice > 0.0 && OnGrid(p.quantity, plan.filters.stepSize)
  }

  ghost predicate SameHolding(p: Position, q: Position) {
    && q == p.(stopLoss := q.stopLoss, highestPrice := q.highestPrice, lowestPrice := q.lowestPrice)
    && (p.stopLoss.Some? ==> q.stopLoss.Some? && q.stopLoss.value >= p.stopLoss.value)
  }

  /** No trade: the holding, if any, is the same, and its stop has not come down. */
  ghost predicate Kept(v: Venue, w: Venue) {
    && |w.book.positions| == |v.book.positions|
    && (forall i :: 0 <= i < |v.book.positions| ==> SameHolding(v.book.positions[i], w.book.positions[i]))
    && w.book.closed == v.book.closed && w.lastExit == v.lastExit
  }

  /** `t` is the whole of `p` sold at `reference` less slippage, with both fees charged on the quantity. */
  ghost predicate Sells(plan: Plan, p: Position, t: Trade, reference: real, time: int, reason: string) {
    && reference > 0.0
    && t.symbol == p.symbol && t.quantity == p.quantity
    && t.entryPrice == p.entryPrice && t.entryTime == p.entryTime
    && t.exitPrice == ApplySlippage(reference, Sell, plan.slippageBps)
    && t.exitTime == time && t.exitReason == reason
    && t.grossPnl == (t.exitPrice - t.entryPrice) * t.quantity
    && t.fees == p.feesPaid + plan.feeRate * (t.quantity * t.exitPrice)
    && t.netPnl == t.grossPnl - t.fees
  }

  /** The one holding has been sold whole. */
  ghost predicate Exited(plan: Plan, v: Venue, w: Venue, reference: real, time: int, reason: string) {
    && |v.book.positions| == 1 && w.book.positions == []
    && |w.book.closed| == |v.book.closed| + 1
    && w.book.closed[..|v.book.closed|] == v.book.closed
    && Sells(plan, v.book.positions[0], w.book.closed[|v.book.closed|], reference, time, reason)
    && w.lastExit == v.lastExit[plan.symbol := time]
  }

  function AssessmentAt(plan: Plan, v: Venue, d: StrategyDecision, bar: HistoricalBar): Assessment {
    EvaluateEntry(plan.VenueSetup(), v, EntryOf(plan, d, bar), PricesAt(plan, bar), bar.time, HEALTHY_SYSTEM).1
  }

  /** The risk engine approved `quantity` for the decision `d` on a flat account. */
  ghost predicate ApprovedFor(plan: Plan, v: Venue, d: StrategyDecision, bar: HistoricalBar, quantity: real) {
    && v.book.positions == [] && d.action == BuyNow
    && AssessmentAt(plan, v, d, bar).Approved?
    && AssessmentAt(plan, v, d, bar).size.Sized?
    && AssessmentAt(plan, v, d, bar).size.quantity == quantity
  }

  /** A position of exactly the approved size has been bought at the close plus slippage. */
  ghost predicate Bought(plan: Plan, v: Venue, w: Venue, d: StrategyDecision, bar: HistoricalBar) {
    && |w.book.positions| == 1
    && ApprovedFor(plan, v, d, bar, w.book.positions[0].quantity)
    && w.book.closed == v.book.closed && w.lastExit == v.lastExit
    && var p := w.book.positions[0];
       && p.symbol == plan.symbol && p.entryTime == bar.time
       && p.entryPrice == ApplySlippage(bar.close, Buy, plan.slippageBps)
       && p.feesPaid == plan.feeRate * (p.quantity * p.entryPrice)
       && p.stopLoss == d.stopPrice && p.takeProfit == d.takeProfit && p.trailingDistance == d.trailingDistance
  }

  // --- Closing --------------------------------------------------------

  lemma {:induction false} FindOnly(positions: seq<Position>, symbol: string)
    requires |positions| == 1 && positions[0].symbol == symbol
    ensures Find(positions, symbol) == Some(0)
  {
  }

  lemma {:induction false} NothingSellsForNothing(setup: Setup, quantity: real, reference: real, step: Option<real>)
    requires reference <= 0.0
    ensures ExitFill(setup, quantity, reference, step).IsEmpty()
  {
  }

  /** Closing sells everything, or does nothing when the reference is not a price. */
  lemma {:induction false} CloseShape(plan: Plan, v: Venue, reference: real, time: int, reason: string)
    requires plan.InRange() && AtMostOne(plan, v)
    ensures var w := ClosePosition(plan.VenueSetup(), v, plan.symbol, reference, time, reason, plan.filters.stepSize).0;
            if |v.book.positions| == 1 && reference > 0.0 then Exited(plan, v, w, reference, time, reason) else w == v
  {
    hide SimulateFill, ApplySlippage, OnGrid;
    if |v.book.positions| == 1 {
      var p := v.book.positions[0];
      FindOnly(v.book.positions, plan.symbol);
      hide Find;
      if reference > 0.0 {
        GridQuantityFillsInFull(p.quantity, reference, Sell, plan.feeRate, plan.slippageBps, plan.filters.stepSize);
      } else {
        NothingSellsForNothing(plan.VenueSetup(), p.quantity, reference, plan.filters.stepSize);
      }
    }
  }

  /** A sale of a widened or retrailed holding is a sale of the holding. */
  lemma {:induction false} SellsSame(
      plan: Plan, p: Position, q: Position, t: Trade, reference: real, time: int, reason: string)
    requires SameHolding(p, q) && Sells(plan, q, t, reference, time, reason)
    ensures Sells(plan, p, t, reference, time, reason)
  {
  }

  /** The exit a bar forces on the holding: at its stop, or else at its target. */
  ghost predicate ExitedOnBar(plan: Plan, v: Venue, w: Venue, time: int)
    requires |v.book.positions| == 1
  {
    var p := v.book.positions[0];
    || (p.stopLoss.Some? && Exited(plan, v, w, p.stopLoss.value, time, STOP_LOSS))
    || (p.takeProfit.Some? && Exited(plan, v, w, p.takeProfit.value, time, TAKE_PROFIT))
  }

  /** The bar stayed above the stop of the holding, if it has one that is a price. */
  ghost predicate StopNotHit(v: Venue, bar: HistoricalBar) {
    forall p <- v.book.positions :: p.stopLoss.Some? ==> p.stopLoss.value < bar.low || p.stopLoss.value <= 0.0
  }

  lemma {:induction false} ExitsShape(plan: Plan, v: Venue, bar: HistoricalBar)
    requires plan.InRange() && AtMostOne(plan, v)
    ensures var w := AfterExits(plan, v, bar);
            || (Kept(v, w) && StopNotHit(v, bar))
            || (|v.book.positions| == 1 && ExitedOnBar(plan, v, w, bar.time))
  {
    hide ApplySlippage, OnGrid, Equity, ClosePosition;
    if |v.book.positions| == 1 {
      FindOnly(v.book.positions, plan.symbol);
      var watched := Watched(v, 0, BarOf(plan, bar));
      var p := watched.book.positions[0];
      assert SameHolding(v.book.positions[0], p);
      var exit := ExitReasonForBar(bar.high, bar.low, p.stopLoss, p.takeProfit);
      if exit.Some? {
        var reference := ExitPrice(p, exit.value);
        CloseShape(plan, watched, reference, bar.time, exit.value);
        if reference > 0.0 {
          var closed := ClosePosition(plan.VenueSetup(), watched, plan.symbol, reference, bar.time, exit.value,
              plan.filters.stepSize).0;
          SellsSame(plan, v.book.positions[0], p, closed.book.closed[|v.book.closed|], reference, bar.time, exit.value);
          assert Exited(plan, v, AfterExits(plan, v, bar), reference, bar.time, exit.value);
        }
      }
    }
  }

  // --- Acting on a decision -------------------------------------------

  function ReasonOf(d: StrategyDecision): string {
    if d.reason == "" then STRATEGY_EXIT else d.reason
  }

  /** An approved size is on the grid and filled whole, so what is bought is what was approved. */
  lemma {:induction false} ApprovedFillsInFull(plan: Plan, v: Venue, d: StrategyDecision, bar: HistoricalBar)
    requires plan.InRange() && AssessmentAt(plan, v, d, bar).Approved?
    ensures var a := AssessmentAt(plan, v, d, bar);
            && a.size.Sized? && a.size.quantity > 0.0 && bar.close > 0.0
            && OnGrid(a.size.quantity, plan.filters.stepSize)
            && d.stopPrice.Some? && d.stopPrice.value < bar.close
            && var fill := EntryFill(plan.VenueSetup(), a.size.quantity, OrderOf(plan, d, bar));
               && !fill.IsEmpty() && fill.quantity == a.size.quantity
               && fill.price == ApplySlippage(bar.close, Buy, plan.slippageBps)
               && fill.fee == plan.feeRate * (fill.quantity * fill.price)
  {
    hide CalculatePositionSize, CheckAccountHalts, CheckTradeConditions, AccountStateOf;
    var setup := plan.VenueSetup();
    var request := RequestOf(setup, v, EntryOf(plan, d, bar), bar.time);
    var account := AccountStateOf(v.book, PricesAt(plan, bar));
    var sizing := SizingOf(request, account);
    assert CalculatePositionSize(sizing, plan.risk, plan.filters).Sized?;
    SizedRespectsEveryLimit(sizing, plan.risk, plan.filters);
    GridQuantityFillsInFull(
      AssessmentAt(plan, v, d, bar).size.quantity, bar.close, Buy, plan.feeRate, plan.slippageBps,
          plan.filters.stepSize);
    hide SimulateFill, ApplySlippage, OnGrid;
  }

  lemma {:induction false} AppliedShape(plan: Plan, v: Venue, d: StrategyDecision, bar: HistoricalBar)
    requires plan.InRange() && AtMostOne(plan, v) && Applied(plan, v, d, bar).Ok?
    ensures var w := Applied(plan, v, d, bar).value;
            || Kept(v, w)
            || (d.action == ExitNow && Exited(plan, v, w, bar.close, bar.time, ReasonOf(d)))
            || Bought(plan, v, w, d, bar)
  {
    hide ApplySlippage, OnGrid, Equity, ClosePosition, EvaluateEntry, EntryFill;
    if |v.book.positions| == 1 {
      FindOnly(v.book.positions, plan.symbol);
      CloseShape(plan, v, bar.close, bar.time, ReasonOf(d));
    } else if d.action == BuyNow {
      EvaluateKeeps(plan.VenueSetup(), v, EntryOf(plan, d, bar), PricesAt(plan, bar), bar.time, HEALTHY_SYSTEM);
      if AssessmentAt(plan, v, d, bar).Approved? {
        ApprovedFillsInFull(plan, v, d, bar);
      }
    }
  }

  lemma {:induction false} EvaluateKeeps(
      setup: Setup, v: Venue, e: Entry, prices: Prices, now: int, system: SystemState)
    ensures var (w, a) := EvaluateEntry(setup, v, e, prices, now, system);
            w.book == v.book && w.lastExit == v.lastExit && (a.Approved? ==> w == v)
  {
  }
}
