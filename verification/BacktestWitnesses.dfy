/** Concrete replays that show where a promise of the simulator ends. */
module BacktestWitnesses {
  import opened Wrappers
  import opened Fills
  import opened TradingLimits
  import opened PositionSizing
  import opened RiskEngine
  import opened Books
  import opened Simulator
  import opened Backtest
  import opened BacktestShapes
  import opened BacktestTrades
  import opened BacktestResults

  // --- An approved entry that raises --------------------------------------

  function AllIn(): Plan {
    Plan("BTCUSDT", 100.0, 0.0, 100.0,
         RiskConfig(0.5, 1.0, 1.0, 1.0, 1, 1.0, 1.0, 1, 0.0, 0.0, 0.0, 1, true, 0),
         SymbolFilters(None, None, None, None, true))
  }

  lemma {:induction false} QuotientIs(x: real, y: real, q: real)
    requires y > 0.0 && q * y == x
    ensures x / y == q
  {
    assert (x / y - q) * y == 0.0;
  }

  /** Sizing with no caps but the account's equity, no exchange limits and no fee: the risk decides. */
  lemma {:induction false} UncappedSize(equity: real, price: real, distance: real, budget: real, q: real)
    requires price > 0.0 && distance > 0.0 && q > 0.0
    requires q * distance == budget && 0.0 < q * price <= equity && budget > 0.0
    ensures var limits := Limits(budget, equity, equity, equity, equity, None, None);
            SizeWithin(price, distance, 0.0, limits, SymbolFilters(None, None, None, None, true))
            == Sized(q, q * price, q * distance, 0.0)
  {
    var limits := Limits(budget, equity, equity, equity, equity, None, None);
    assert CapNotional(limits) == equity;
    hide CapNotional;
    QuotientIs(budget, distance, q);
    assert RoundedQuantity(price, distance, limits) == q;
    hide RoundedQuantity;
    UncappedChecks(q, price, distance, limits);
  }

  lemma {:induction false} UncappedChecks(q: real, price: real, distance: real, limits: Limits)
    requires q > 0.0 && q * price <= limits.cash && limits.riskBudget > 0.0
    ensures CheckedSize(q, price, distance, 0.0, limits, SymbolFilters(None, None, None, None, true))
            == Sized(q, q * price, q * distance, 0.0)
  {
    assert q * price * 0.0 == 0.0;
  }

  lemma {:induction false} SizeIsWithin(
      r: SizingRequest, risk: RiskConfig, filters: SymbolFilters, stop: real, limits: Limits)
    requires r.equity > 0.0 && r.entryPrice > 0.0 && r.stopPrice == Some(stop) && stop < r.entryPrice
    requires LimitsOf(r, risk, filters) == limits
    ensures CalculatePositionSize(r, risk, filters)
            == SizeWithin(r.entryPrice, r.entryPrice - stop, r.takerFee, limits, filters)
  {
    hide SizeWithin, LimitsOf;
  }

  lemma {:induction false} AllInLimits()
    ensures LimitsOf(SizingRequest(100.0, 100.0, 1.0, Some(0.5), 0.0, 0.0, 0.0), AllIn().risk, AllIn().filters)
            == Limits(50.0, 100.0, 100.0, 100.0, 100.0, None, None)
  {
  }

  lemma {:induction false} AllInIsSized()
    ensures CalculatePositionSize(
              SizingRequest(100.0, 100.0, 1.0, Some(0.5), 0.0, 0.0, 0.0), AllIn().risk, AllIn().filters)
            == Sized(100.0, 100.0, 50.0, 0.0)
  {
    hide SizeWithin, CalculatePositionSize, LimitsOf;
    AllInLimits();
    UncappedSize(100.0, 1.0, 0.5, 50.0, 100.0);
    SizeIsWithin(SizingRequest(100.0, 100.0, 1.0, Some(0.5), 0.0, 0.0, 0.0), AllIn().risk, AllIn().filters, 0.5,
                 Limits(50.0, 100.0, 100.0, 100.0, 100.0, None, None));
  }

  lemma {:induction false} AllInIsApproved()
    ensures Evaluate(AllIn().risk,
                     TradeRequest("BTCUSDT", 1.0, Some(0.5), AllIn().filters, 0.0, None, None, None, None),
                     AccountState(100.0, 100.0, 100.0, 0.0, 0.0, 0, 0, []), HEALTHY_SYSTEM)
            == Approved(Sized(100.0, 100.0, 50.0, 0.0))
  {
    AllInIsSized();
    hide CalculatePositionSize;
  }

  /**
   * It happens: sizing looks at the cash before slippage, so an account allowed to spend all of it
   * has its approved entry refused by the portfolio, which ends the run.
   */
  lemma {:induction false} ApprovedEntryCanFail()
    ensures var d := StrategyDecision(BuyNow, Some(0.5), None, None, "");
            var bar := HistoricalBar(0, 1.0, 1.0, 1.0, 1.0, 0.0);
            && AllIn().InRange()
            && AssessmentAt(AllIn(), NewVenue(100.0), d, bar).Approved?
            && Applied(AllIn(), NewVenue(100.0), d, bar) == Err(CostExceedsBalance)
  {
    hide Evaluate, SimulateFill, Applied;
    var plan, v := AllIn(), NewVenue(100.0);
    var d := StrategyDecision(BuyNow, Some(0.5), None, None, "");
    var bar := HistoricalBar(0, 1.0, 1.0, 1.0, 1.0, 0.0);
    AllInIsApproved();
    assert AccountStateOf(v.book, PricesAt(plan, bar)) == AccountState(100.0, 100.0, 100.0, 0.0, 0.0, 0, 0, []);
    assert AssessmentAt(plan, v, d, bar) == Approved(Sized(100.0, 100.0, 50.0, 0.0));
    ApprovedEntryFailsWhenUnaffordable(plan, v, d, bar);
    assert ApplySlippage(1.0, Buy, 100.0) == 1.01;
  }

  // --- A loss beyond the bound ----------------------------------------------

  /** No costs, a tenth of the equity at risk a trade. */
  function Careful(): Plan {
    Plan("BTCUSDT", 100.0, 0.0, 0.0,
         RiskConfig(0.1, 1.0, 1.0, 1.0, 1, 1.0, 1.0, 1, 0.0, 0.0, 0.0, 1, true, 0),
         SymbolFilters(None, None, None, None, true))
  }

  /** The second bar closes below its own low. */
  function Falling(): (bars: seq<HistoricalBar>)
    ensures |bars| == 2
  {
    [HistoricalBar(0, 1.0, 1.0, 1.0, 1.0, 0.0), HistoricalBar(1, 1.0, 1.0, 0.6, 0.1, 0.0)]
  }

  const BUY := StrategyDecision(BuyNow, Some(0.5), None, None, "")
  const SELL := StrategyDecision(ExitNow, None, None, None, STOP_LOSS)

  /** Buys on the first bar and sells on the second, calling that a stop. */
  function Mislabels(): Strategy {
    history => Some(if |history| == 1 then BUY else SELL)
  }

  lemma {:induction false} CarefulIsSized()
    ensures CalculatePositionSize(
              SizingRequest(100.0, 100.0, 1.0, Some(0.5), 0.0, 0.0, 0.0), Careful().risk, Careful().filters)
            == Sized(20.0, 20.0, 10.0, 0.0)
  {
    hide SizeWithin, CalculatePositionSize, LimitsOf;
    CarefulLimits();
    UncappedSize(100.0, 1.0, 0.5, 10.0, 20.0);
    SizeIsWithin(SizingRequest(100.0, 100.0, 1.0, Some(0.5), 0.0, 0.0, 0.0), Careful().risk, Careful().filters, 0.5,
                 Limits(10.0, 100.0, 100.0, 100.0, 100.0, None, None));
  }

  lemma {:induction false} CarefulLimits()
    ensures LimitsOf(SizingRequest(100.0, 100.0, 1.0, Some(0.5), 0.0, 0.0, 0.0), Careful().risk, Careful().filters)
            == Limits(10.0, 100.0, 100.0, 100.0, 100.0, None, None)
  {
  }

  lemma {:induction false} CarefulIsApproved()
    ensures AssessmentAt(Careful(), NewVenue(100.0), BUY, Falling()[0]) == Approved(Sized(20.0, 20.0, 10.0, 0.0))
  {
    CarefulIsSized();
    hide CalculatePositionSize;
    var plan, v, bar := Careful(), NewVenue(100.0), Falling()[0];
    assert AccountStateOf(v.book, PricesAt(plan, bar)) == AccountState(100.0, 100.0, 100.0, 0.0, 0.0, 0, 0, []);
    hide AccountStateOf;
  }

  lemma {:induction false} Buys() returns (v: Venue, p: Position)
    ensures Applied(Careful(), NewVenue(100.0), BUY, Falling()[0]) == Ok(v)
    ensures v.book.positions == [p] && v.book.closed == [] && v.book.cash == 80.0 && v.lastExit == map[]
    ensures p.symbol == "BTCUSDT" && p.quantity == 20.0 && p.entryPrice == 1.0 && p.entryTime == 0 && p.feesPaid == 0.0
    ensures p.stopLoss == Some(0.5) && p.takeProfit == None && p.trailingDistance == None
  {
    hide Evaluate, EntryFill, Equity, UnrealisedPnl;
    var plan, bar := Careful(), Falling()[0];
    CarefulIsApproved();
    ApprovedFillsInFull(plan, NewVenue(100.0), BUY, bar);
    assert ApplySlippage(1.0, Buy, 0.0) == 1.0;
    var fill := EntryFill(plan.VenueSetup(), 20.0, OrderOf(plan, BUY, bar));
    p := PositionFor(OrderOf(plan, BUY, bar), fill);
    v := Applied(plan, NewVenue(100.0), BUY, bar).value;
  }

  lemma {:induction false} TheHoldingStays(v: Venue, p: Position)
    requires v.book.positions == [p] && p.symbol == "BTCUSDT" && p.stopLoss == Some(0.5) && p.takeProfit == None
    requires p.trailingDistance == None
    ensures var w := AfterExits(Careful(), v, Falling()[1]);
            && |w.book.positions| == 1 && SameHolding(p, w.book.positions[0]) && w.book.closed == v.book.closed
  {
    hide Equity;
    FindOnly(v.book.positions, "BTCUSDT");
  }

  lemma {:induction false} TheSale(v: Venue)
    requires |v.book.positions| == 1 && v.book.closed == []
    requires var p := v.book.positions[0];
             p.symbol == "BTCUSDT" && p.quantity == 20.0 && p.entryPrice == 1.0 && p.entryTime == 0 && p.feesPaid == 0.0
    ensures Applied(Careful(), v, SELL, Falling()[1]).Ok?
    ensures var w := Applied(Careful(), v, SELL, Falling()[1]).value;
            w.book.positions == [] && |w.book.closed| == 1 && IsTheLoss(w.book.closed[0])
  {
    FindOnly(v.book.positions, "BTCUSDT");
    CloseShape(Careful(), v, 0.1, 1, STOP_LOSS);
    hide ClosePosition, EvaluateEntry;
    assert ApplySlippage(0.1, Sell, 0.0) == 0.1;
  }

  /** Twenty bought at one and sold at a tenth, called a stop. */
  predicate IsTheLoss(t: Trade) {
    t.entryTime == 0 && t.quantity == 20.0 && t.exitPrice == 0.1 && t.fees == 0.0 && t.netPnl == -18.0
    && t.exitReason == STOP_LOSS
  }

  lemma {:induction false} FirstBar() returns (first: Venue)
    ensures AfterBar(Careful(), NewVenue(100.0), Some(BUY), Falling()[0]) == Ok(first)
    ensures |first.book.positions| == 1 && first.book.closed == []
    ensures var p := first.book.positions[0];
            && p.symbol == "BTCUSDT" && p.quantity == 20.0 && p.entryPrice == 1.0
            && p.entryTime == 0 && p.feesPaid == 0.0
            && p.stopLoss == Some(0.5) && p.takeProfit == None && p.trailingDistance == None
  {
    NothingToExit();
    hide Applied, AfterExits, Equity, NewVenue, Falling;
    var v, p := Buys();
    first := PeakAt(v, Careful().symbol, Falling()[0].close);
  }

  lemma {:induction false} NothingToExit()
    ensures AfterExits(Careful(), NewVenue(100.0), Falling()[0]) == NewVenue(100.0)
  {
  }

  lemma {:induction false} SecondBar(first: Venue)
    requires |first.book.positions| == 1 && first.book.closed == []
    requires var p := first.book.positions[0];
             && p.symbol == "BTCUSDT" && p.quantity == 20.0 && p.entryPrice == 1.0
             && p.entryTime == 0 && p.feesPaid == 0.0
             && p.stopLoss == Some(0.5) && p.takeProfit == None && p.trailingDistance == None
    ensures AfterBar(Careful(), first, Some(SELL), Falling()[1]).Ok?
    ensures var w := AfterBar(Careful(), first, Some(SELL), Falling()[1]).value;
            w.book.positions == [] && |w.book.closed| == 1 && IsTheLoss(w.book.closed[0])
  {
    hide Applied, AfterExits, Equity, IsTheLoss, Falling;
    TheHoldingStays(first, first.book.positions[0]);
    TheSale(AfterExits(Careful(), first, Falling()[1]));
  }

  /** A replay of two bars that ends flat. */
  lemma {:induction false} TwoBars(plan: Plan, strategy: Strategy, bars: seq<HistoricalBar>, first: Venue, last: Venue)
    requires |bars| == 2
    requires AfterBar(plan, NewVenue(plan.initialCapital), strategy(bars[..1]), bars[0]) == Ok(first)
    requires AfterBar(plan, first, strategy(bars[..2]), bars[1]) == Ok(last) && last.book.positions == []
    ensures StateAfter(plan, strategy, bars, 0) == Ok(NewVenue(plan.initialCapital))
    ensures ResultOf(plan, strategy, bars).Ok? && ResultOf(plan, strategy, bars).value.trades == last.book.closed
  {
    hide AfterBar, Equity, CurveAfter, BarsInMarket;
    assert StateAfter(plan, strategy, bars, 1) == Ok(first);
    assert StateAfter(plan, strategy, bars, 2) == Ok(last);
    assert SymbolsOf(last.book.positions) == [];
  }

  lemma {:induction false} TheRun()
    ensures ResultOf(Careful(), Mislabels(), Falling()).Ok?
    ensures var trades := ResultOf(Careful(), Mislabels(), Falling()).value.trades;
            |trades| == 1 && IsTheLoss(trades[0])
    ensures StateAfter(Careful(), Mislabels(), Falling(), 0) == Ok(NewVenue(100.0))
  {
    hide AfterBar, ResultOf, StateAfter, NewVenue, IsTheLoss;
    var first := FirstBar();
    SecondBar(first);
    TwoBars(Careful(), Mislabels(), Falling(), first, AfterBar(Careful(), first, Some(SELL), Falling()[1]).value);
  }

  /**
   * A strategy that calls its own exit a stop can lose more than the bound on a bar that closes below
   * its low: both halves of the guard are needed.
   */
  lemma {:induction false} MislabelledExitsEscapeTheBound()
    ensures Careful().InRange() && ResultOf(Careful(), Mislabels(), Falling()).Ok?
    ensures var trades := ResultOf(Careful(), Mislabels(), Falling()).value.trades;
            && |trades| == 1 && trades[0].exitReason == STOP_LOSS
            && !LossBounded(Careful(), Mislabels(), Falling(), trades[0])
  {
    TheRun();
    hide ResultOf, StateAfter;
    var plan, bars, strategy := Careful(), Falling(), Mislabels();
    var t := ResultOf(plan, strategy, bars).value.trades[0];
    forall j: nat, reference: real | TradedFrom(plan, strategy, bars, j, reference, t)
      ensures !LossWithin(plan, t, EntryEquity(plan, strategy, bars, j), bars[j].close, reference)
    {
      TheOnlyEntry(j, reference, t);
    }
  }

  lemma {:induction false} TheOnlyEntry(j: nat, reference: real, t: Trade)
    requires IsTheLoss(t) && StateAfter(Careful(), Mislabels(), Falling(), 0) == Ok(NewVenue(100.0))
    requires TradedFrom(Careful(), Mislabels(), Falling(), j, reference, t)
    ensures !LossWithin(Careful(), t, EntryEquity(Careful(), Mislabels(), Falling(), j), Falling()[j].close, reference)
  {
    hide StateAfter, ApprovedFor, OnGrid, StopAt, EntryEquity, LossWithin, Guarded, ApplySlippage;
    assert j == 0;
    AtCost(reference);
    EquityIsAHundred();
    TooMuch(t);
  }

  lemma {:induction false} AtCost(reference: real)
    ensures ApplySlippage(reference, Sell, 0.0) == reference
  {
  }

  lemma {:induction false} EquityIsAHundred()
    requires StateAfter(Careful(), Mislabels(), Falling(), 0) == Ok(NewVenue(100.0))
    ensures EntryEquity(Careful(), Mislabels(), Falling(), 0) == 100.0
  {
    hide StateAfter;
    NothingToExit();
    hide AfterExits;
  }

  lemma {:induction false} TooMuch(t: Trade)
    requires IsTheLoss(t)
    ensures !LossWithin(Careful(), t, 100.0, 1.0, 0.1)
  {
  }
}
