/** The guarantees a finished replay gives its reader. */
module BacktestResults {
  import opened Wrappers
  import opened Sums
  import opened Fills
  import opened TradingLimits
  import opened PositionSizing
  import opened RiskEngine
  import opened Books
  import opened Simulator
  import opened SimulatorProofs
  import opened Backtest
  import opened BacktestProofs
  import opened BacktestShapes
  import opened BacktestTrades

  /** Equity at bar `j` when the entry was sized, marked at that bar's close. */
  function EntryEquity(plan: Plan, strategy: Strategy, bars: seq<HistoricalBar>, j: nat): real
    requires j < |bars| && StateAfter(plan, strategy, bars, j).Ok?
  {
    Equity(VenueAsked(plan, strategy, bars, j).book, PricesAt(plan, bars[j]))
  }

  // --- Trades ---------------------------------------------------------

  lemma {:induction false} EveryTradeIsAccounted(plan: Plan, strategy: Strategy, bars: seq<HistoricalBar>, t: Trade)
    requires plan.InRange() && ResultOf(plan, strategy, bars).Ok? && bars[|bars| - 1].close > 0.0
    requires t in ResultOf(plan, strategy, bars).value.trades
    ensures Traded(plan, strategy, bars, t)
  {
    var v := StateAfter(plan, strategy, bars, |bars|).value;
    EveryStateIsAccounted(plan, strategy, bars, |bars|);
    EndAccounted(plan, strategy, bars, v, bars[|bars| - 1]);
    hide Traded, StateAfter, Ended;
  }

  /** What the risk engine allowed the entry of bar `j` to put at risk. */
  lemma {:induction false} ApprovedRisk(plan: Plan, strategy: Strategy, bars: seq<HistoricalBar>, j: nat, q: real)
    requires plan.InRange() && ApprovedAt(plan, strategy, bars, j, q)
    ensures q > 0.0 && OnGrid(q, plan.filters.stepSize)
    ensures 0.0 < bars[j].close && StopAt(strategy, bars, j) < bars[j].close
    ensures var equity := EntryEquity(plan, strategy, bars, j);
            && equity > 0.0
            && q * (bars[j].close - StopAt(strategy, bars, j)) <= equity * plan.risk.maxRiskPerTrade
            && q * bars[j].close <= equity * plan.risk.maxPositionSize
  {
    hide CalculatePositionSize, CheckAccountHalts, CheckTradeConditions, StateAfter, VenueAsked, UnrealisedPnl,
         AssetExposure, ConsecutiveLosses, Equity, OnGrid, PositionsValue;
    var v, d, bar := VenueAsked(plan, strategy, bars, j), strategy(bars[..j + 1]).value, bars[j];
    var setup := plan.VenueSetup();
    var account := AccountStateOf(v.book, PricesAt(plan, bar));
    var sizing := SizingOf(RequestOf(setup, v, EntryOf(plan, d, bar), bar.time), account);
    SizedRespectsEveryLimit(sizing, plan.risk, plan.filters);
  }

  lemma {:induction false} LossArithmetic(
      q: real, close: real, reference: real, s: real, entry: real, exit: real, fees: real, budget: real)
    requires entry == close * (1.0 + s) && exit == reference * (1.0 - s)
    ensures (exit - entry) * q - fees >= -(budget + q * s * (close + reference) + fees)
            <==> q * (close - reference) <= budget
  {
    var slip := q * s * (close + reference);
    assert slip == s * (q * close) + s * (q * reference);
    assert (exit - entry) * q == q * reference - q * close - slip;
    assert q * (close - reference) == q * close - q * reference;
  }

  /**
   * The trade loses at most what its entry was allowed to risk, plus slippage on both legs, plus
   * fees: `e` is the equity at entry, `c` the close it was bought on, `r` the price it was sold at.
   */
  ghost predicate LossWithin(plan: Plan, t: Trade, e: real, c: real, r: real) {
    t.netPnl >= -(e * plan.risk.maxRiskPerTrade + t.quantity * (plan.slippageBps / BPS) * (c + r) + t.fees)
  }

  /** On the quantity bought, the price fell by no more than the risk budget. */
  ghost predicate FallWithin(plan: Plan, t: Trade, e: real, c: real, r: real) {
    t.quantity * (c - r) <= e * plan.risk.maxRiskPerTrade
  }

  lemma {:induction false} LossFollowsTheFall(plan: Plan, t: Trade, e: real, c: real, r: real)
    requires plan.InRange() && c > 0.0 && r > 0.0
    requires t.entryPrice == ApplySlippage(c, Buy, plan.slippageBps)
    requires t.exitPrice == ApplySlippage(r, Sell, plan.slippageBps)
    requires t.grossPnl == (t.exitPrice - t.entryPrice) * t.quantity && t.netPnl == t.grossPnl - t.fees
    ensures LossWithin(plan, t, e, c, r) <==> FallWithin(plan, t, e, c, r)
  {
    hide ApplySlippage;
    SlippageIsNeverFavourable(c, plan.slippageBps);
    SlippageIsNeverFavourable(r, plan.slippageBps);
    LossArithmetic(t.quantity, c, r, plan.slippageBps / BPS, t.entryPrice, t.exitPrice, t.fees,
                   e * plan.risk.maxRiskPerTrade);
  }

  lemma {:induction false} SoldAboveTheStop(q: real, c: real, stop: real, r: real, budget: real)
    requires q > 0.0 && q * (c - stop) <= budget && r >= stop
    ensures q * (c - r) <= budget
  {
    assert (r - stop) * q >= 0.0;
    assert q * (c - stop) - q * (c - r) == (r - stop) * q;
  }

  /**
   * Bought at bar `j` and sold at `reference`; its loss is bounded as the fall is, and always if the
   * exit is guarded.
   */
  ghost predicate LossJudged(
      plan: Plan, strategy: Strategy, bars: seq<HistoricalBar>, j: nat, reference: real, t: Trade)
  {
    && TradedFrom(plan, strategy, bars, j, reference, t)
    && var e := EntryEquity(plan, strategy, bars, j);
       && (LossWithin(plan, t, e, bars[j].close, reference) <==> FallWithin(plan, t, e, bars[j].close, reference))
       && (Guarded(strategy, bars, t.exitReason) ==> LossWithin(plan, t, e, bars[j].close, reference))
  }

  lemma {:induction false} TradeLossIsJudged(
      plan: Plan, strategy: Strategy, bars: seq<HistoricalBar>, j: nat, reference: real, t: Trade)
    requires plan.InRange() && TradedFrom(plan, strategy, bars, j, reference, t)
    ensures LossJudged(plan, strategy, bars, j, reference, t)
  {
    hide ApplySlippage, ApprovedFor, OnGrid, VenueAsked, StateAfter, Equity, EntryEquity, LossWithin, StopAt, Guarded;
    ApprovedRisk(plan, strategy, bars, j, t.quantity);
    var e := EntryEquity(plan, strategy, bars, j);
    LossFollowsTheFall(plan, t, e, bars[j].close, reference);
    if Guarded(strategy, bars, t.exitReason) {
      SoldAboveTheStop(t.quantity, bars[j].close, StopAt(strategy, bars, j), reference, e * plan.risk.maxRiskPerTrade);
    }
  }

  /**
   * Every trade of a replay, whatever ended it: its loss is within the bound if and only if the price
   * fell, from the close it was bought on to the price it was sold at, by no more than the risk allowed.
   */
  lemma {:induction false} EveryLossIsJudged(plan: Plan, strategy: Strategy, bars: seq<HistoricalBar>, t: Trade)
    requires plan.InRange() && ResultOf(plan, strategy, bars).Ok? && bars[|bars| - 1].close > 0.0
    requires t in ResultOf(plan, strategy, bars).value.trades
    ensures exists j: nat, reference: real :: LossJudged(plan, strategy, bars, j, reference, t)
  {
    hide ResultOf, TradedFrom, LossJudged;
    EveryTradeIsAccounted(plan, strategy, bars, t);
    var j, reference :| TradedFrom(plan, strategy, bars, j, reference, t);
    TradeLossIsJudged(plan, strategy, bars, j, reference, t);
  }

  ghost predicate LossBounded(plan: Plan, strategy: Strategy, bars: seq<HistoricalBar>, t: Trade) {
    exists j: nat, reference: real ::
      && TradedFrom(plan, strategy, bars, j, reference, t)
      && LossWithin(plan, t, EntryEquity(plan, strategy, bars, j), bars[j].close, reference)
  }

  /**
   * Every stopped trade has a bounded loss, if on these bars no exit of the strategy's own is passed
   * off as a stop; and where bars close at or above their lows, so has every trade but those that
   * took their profit: those the strategy closed and the one closed at the end as well.
   */
  lemma {:induction false} LossIsBounded(plan: Plan, strategy: Strategy, bars: seq<HistoricalBar>, t: Trade)
    requires plan.InRange() && ResultOf(plan, strategy, bars).Ok? && bars[|bars| - 1].close > 0.0
    requires t in ResultOf(plan, strategy, bars).value.trades && Guarded(strategy, bars, t.exitReason)
    ensures LossBounded(plan, strategy, bars, t)
  {
    hide ResultOf, TradedFrom, LossWithin, FallWithin, EntryEquity, Guarded;
    EveryLossIsJudged(plan, strategy, bars, t);
    var j: nat, reference: real :| LossJudged(plan, strategy, bars, j, reference, t);
  }

  /**
   * Every trade is of one quantity from entry to exit, a positive multiple of the lot step that
   * the risk engine approved, and pays the fee rate on what it bought and on what it sold.
   */
  lemma {:induction false} TradesAreWholeLots(plan: Plan, strategy: Strategy, bars: seq<HistoricalBar>, t: Trade)
    requires plan.InRange() && ResultOf(plan, strategy, bars).Ok? && bars[|bars| - 1].close > 0.0
    requires t in ResultOf(plan, strategy, bars).value.trades
    ensures t.quantity > 0.0 && OnGrid(t.quantity, plan.filters.stepSize)
    ensures exists j :: ApprovedAt(plan, strategy, bars, j, t.quantity)
    ensures t.fees == plan.feeRate * (t.quantity * (t.entryPrice + t.exitPrice))
    ensures t.netPnl == (t.exitPrice - t.entryPrice) * t.quantity - t.fees
  {
    hide ResultOf, ApprovedAt, ApplySlippage, OnGrid, StopAt, Guarded;
    EveryTradeIsAccounted(plan, strategy, bars, t);
    var j, reference :| TradedFrom(plan, strategy, bars, j, reference, t);
    ApprovedIsAWholeLot(plan, strategy, bars, j, t.quantity);
    FeesAdd(plan.feeRate, t.quantity, t.entryPrice, t.exitPrice);
  }

  lemma {:induction false} ApprovedIsAWholeLot(
      plan: Plan, strategy: Strategy, bars: seq<HistoricalBar>, j: nat, q: real)
    requires plan.InRange() && ApprovedAt(plan, strategy, bars, j, q)
    ensures q > 0.0 && OnGrid(q, plan.filters.stepSize)
  {
    hide StateAfter, VenueAsked, ApprovedFor, EntryEquity, OnGrid;
    ApprovedRisk(plan, strategy, bars, j, q);
  }

  lemma {:induction false} FeesAdd(rate: real, q: real, a: real, b: real)
    ensures rate * (q * a) + rate * (q * b) == rate * (q * (a + b))
  {
    assert q * (a + b) == q * a + q * b;
  }

  // --- Conservation ---------------------------------------------------

  lemma {:induction false} StateKeepsInitialBalance(plan: Plan, strategy: Strategy, bars: seq<HistoricalBar>, k: nat)
    requires k <= |bars| && StateAfter(plan, strategy, bars, k).Ok?
    ensures StateAfter(plan, strategy, bars, k).value.book.initialBalance == plan.initialCapital
    decreases k
  {
    hide AfterBar;
    if k > 0 {
      StateKeepsInitialBalance(plan, strategy, bars, k - 1);
      BarAppends(plan, StateAfter(plan, strategy, bars, k - 1).value, strategy(bars[..k]), bars[k - 1]);
    }
  }

  /** The equity gained is the net result of the trades: gross less fees, with nothing left over. */
  lemma {:induction false} EquityGainedIsNetPnl(plan: Plan, strategy: Strategy, bars: seq<HistoricalBar>)
    requires plan.InRange() && ResultOf(plan, strategy, bars).Ok? && bars[|bars| - 1].close > 0.0
    ensures var r := ResultOf(plan, strategy, bars).value;
            && r.finalEquity - plan.initialCapital == SumOf(r.trades, NetPnl)
            && r.finalEquity - plan.initialCapital == SumOf(r.trades, GrossPnl) - SumOf(r.trades, FeesOf)
            && r.finalEquity >= 0.0
            && |r.equityCurve| == |bars| && r.equityCurve[|bars| - 1] == r.finalEquity
  {
    var last := bars[|bars| - 1];
    var v := StateAfter(plan, strategy, bars, |bars|).value;
    EveryStateIsAccounted(plan, strategy, bars, |bars|);
    EndAccounted(plan, strategy, bars, v, last);
    StateKeepsInitialBalance(plan, strategy, bars, |bars|);
    EndAppends(plan, v, last);
    hide StateAfter, Ended, AtMostOne, Traded;
    FlatEquityIsRealised(Ended(plan, v, last).book, PricesAt(plan, last));
  }

  /** With positive closes the equity curve is never negative. */
  lemma {:induction false} CurveIsNonNegative(plan: Plan, strategy: Strategy, bars: seq<HistoricalBar>, k: nat)
    requires plan.InRange() && k <= |bars| && StateAfter(plan, strategy, bars, k).Ok?
    requires forall bar <- bars :: bar.close > 0.0
    ensures forall e <- CurveAfter(plan, strategy, bars, k) :: e >= 0.0
    decreases k
  {
    hide StateAfter, AfterBar, AtMostOne, Traded, Holding, Balanced, Equity;
    if k > 0 {
      EarlierIsOk(plan, strategy, bars, k - 1, k);
      EveryStateIsAccounted(plan, strategy, bars, k);
      CurveIsNonNegative(plan, strategy, bars, k - 1);
      EquityIsNonNegative(StateAfter(plan, strategy, bars, k).value.book, PricesAt(plan, bars[k - 1]));
    }
  }

  // --- Runs that cannot fail ------------------------------------------

  /** An approved entry raises exactly when the slipped price and its fee come to more than the cash. */
  lemma {:induction false} ApprovedEntryFailsWhenUnaffordable(
      plan: Plan, v: Venue, d: StrategyDecision, bar: HistoricalBar)
    requires plan.InRange() && v.book.positions == [] && d.action == BuyNow
    requires AssessmentAt(plan, v, d, bar).Approved?
    ensures AssessmentAt(plan, v, d, bar).size.Sized?
    ensures var q := AssessmentAt(plan, v, d, bar).size.quantity;
            var cost := q * ApplySlippage(bar.close, Buy, plan.slippageBps);
            Applied(plan, v, d, bar) == Err(CostExceedsBalance) <==> cost + plan.feeRate * cost > v.book.cash
    ensures Applied(plan, v, d, bar).Ok? || Applied(plan, v, d, bar) == Err(CostExceedsBalance)
  {
    hide Evaluate, OnGrid, SimulateFill, ApplySlippage;
    ApprovedFillsInFull(plan, v, d, bar);
  }

  /** What an approval on a flat account spends, before slippage and fee. */
  lemma {:induction false} ApprovedOnCash(plan: Plan, v: Venue, d: StrategyDecision, bar: HistoricalBar)
    requires plan.InRange() && v.book.positions == [] && AssessmentAt(plan, v, d, bar).Approved?
    ensures var a := AssessmentAt(plan, v, d, bar);
            && a.size.Sized? && v.book.cash > 0.0
            && a.size.quantity * bar.close <= v.book.cash * plan.risk.maxPositionSize
  {
    hide CalculatePositionSize, CheckAccountHalts, CheckTradeConditions, UnrealisedPnl, AssetExposure,
         ConsecutiveLosses, OnGrid;
    var account := AccountStateOf(v.book, PricesAt(plan, bar));
    assert account.equity == v.book.cash;
    var sizing := SizingOf(RequestOf(plan.VenueSetup(), v, EntryOf(plan, d, bar), bar.time), account);
    hide AccountStateOf;
    SizedRespectsEveryLimit(sizing, plan.risk, plan.filters);
  }

  /** With room for slippage and fee, an approved entry from a flat account is always affordable. */
  lemma {:induction false} ApprovedEntryIsAffordable(plan: Plan, v: Venue, d: StrategyDecision, bar: HistoricalBar)
    requires plan.InRange() && v.book.positions == [] && d.action == BuyNow
    requires plan.risk.maxPositionSize * (1.0 + plan.slippageBps / BPS) * (1.0 + plan.feeRate) <= 1.0
    requires AssessmentAt(plan, v, d, bar).Approved?
    ensures Applied(plan, v, d, bar).Ok?
  {
    hide Applied, AssessmentAt, OnGrid, EntryFill;
    ApprovedOnCash(plan, v, d, bar);
    ApprovedFillsInFull(plan, v, d, bar);
    ApprovedEntryFailsWhenUnaffordable(plan, v, d, bar);
    SlippageIsNeverFavourable(bar.close, plan.slippageBps);
    hide ApplySlippage;
    CostFits(AssessmentAt(plan, v, d, bar).size.quantity, bar.close, plan.slippageBps / BPS, plan.feeRate,
             v.book.cash, plan.risk.maxPositionSize);
  }

  lemma {:induction false} CostFits(q: real, close: real, s: real, f: real, equity: real, size: real)
    requires q > 0.0 && close > 0.0 && s >= 0.0 && f >= 0.0 && equity > 0.0
    requires q * close <= equity * size && size * (1.0 + s) * (1.0 + f) <= 1.0
    ensures var price := close * (1.0 + s);
            q * price + f * (q * price) <= equity
  {
    var m := (1.0 + s) * (1.0 + f);
    var price := close * (1.0 + s);
    assert m > 0.0;
    assert q * price == (q * close) * (1.0 + s);
    assert q * price + f * (q * price) == (q * close) * m;
    assert (equity * size - q * close) * m >= 0.0;
    assert (equity * size - q * close) * m == equity * (size * m) - (q * close) * m;
    assert size * m == size * (1.0 + s) * (1.0 + f);
    assert equity * (1.0 - size * m) >= 0.0;
    assert equity * (1.0 - size * m) == equity - equity * (size * m);
  }

  lemma {:induction false} DecisionNeverFails(plan: Plan, v: Venue, d: StrategyDecision, bar: HistoricalBar)
    requires plan.InRange() && AtMostOne(plan, v)
    requires plan.risk.maxPositionSize * (1.0 + plan.slippageBps / BPS) * (1.0 + plan.feeRate) <= 1.0
    ensures Applied(plan, v, d, bar).Ok?
  {
    hide ClosePosition, EvaluateEntry, OpenPosition, OnGrid;
    if v.book.positions == [] {
      if d.action == BuyNow && AssessmentAt(plan, v, d, bar).Approved? {
        ApprovedEntryIsAffordable(plan, v, d, bar);
      }
    } else {
      FindOnly(v.book.positions, plan.symbol);
    }
  }

  /** Such a plan runs to the end on any bars with any strategy. */
  lemma {:induction false} RunNeverFails(plan: Plan, strategy: Strategy, bars: seq<HistoricalBar>, k: nat)
    requires plan.InRange() && k <= |bars|
    requires plan.risk.maxPositionSize * (1.0 + plan.slippageBps / BPS) * (1.0 + plan.feeRate) <= 1.0
    ensures StateAfter(plan, strategy, bars, k).Ok?
    decreases k
  {
    hide Applied, AfterExits, Sound, AtMostOne, Traded, Holding, PeakAt;
    if k > 0 {
      RunNeverFails(plan, strategy, bars, k - 1);
      EveryStateIsAccounted(plan, strategy, bars, k - 1);
      var v, d := StateAfter(plan, strategy, bars, k - 1).value, strategy(bars[..k]);
      ExitsAccounted(plan, strategy, bars, v, MarkAfter(bars, k - 1), bars[k - 1]);
      if d.Some? {
        DecisionNeverFails(plan, AfterExits(plan, v, bars[k - 1]), d.value, bars[k - 1]);
      }
    }
  }
}
