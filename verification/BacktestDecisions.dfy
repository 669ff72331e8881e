/** What a replay does on each decision, from the venue, the decision and the bar. */
module BacktestDecisions {
  import opened Wrappers
  import opened Fills
  import opened PositionSizing
  import opened RiskEngine
  import opened Books
  import opened Simulator
  import opened VenueEffects
  import opened EntryVerdicts
  import opened Backtest

  // --- One decision -----------------------------------------------------------

  /** The venue a plan trades on: its fee and slippage, no partial fills, its limits. */
  function VenueOf(plan: Plan): Setup {
    Setup(SimulatorConfig(plan.feeRate, plan.slippageBps, false), plan.risk)
  }

  /** A buy is asked at the close, with the stop of the decision, of a running system. */
  ghost predicate Refuses(plan: Plan, v: Venue, d: StrategyDecision, bar: HistoricalBar, k: nat)
    requires k < |ORDER|
  {
    RefusesFirst(k, VenueOf(plan), v, Entry(plan.symbol, bar.close, d.stopPrice, plan.filters, None, None),
                 map[plan.symbol := bar.close], bar.time, SystemState(Running, false, 0, true))
  }

  ghost function SizeFor(plan: Plan, v: Venue, d: StrategyDecision, bar: HistoricalBar): PositionSize {
    CalculatePositionSize(
      SizedFrom(VenueOf(plan), v, Entry(plan.symbol, bar.close, d.stopPrice, plan.filters, None, None),
                map[plan.symbol := bar.close]),
      plan.risk, plan.filters)
  }

  /** A position of this quantity bought at the close of the bar as the decision asks. */
  ghost predicate BoughtAt(plan: Plan, d: StrategyDecision, bar: HistoricalBar, quantity: real, p: Position) {
    && p.symbol == plan.symbol && p.quantity == quantity && p.entryTime == bar.time
    && p.entryPrice == bar.close * (1.0 + plan.slippageBps / 10000.0)
    && p.feesPaid == plan.feeRate * (quantity * p.entryPrice)
    && p.stopLoss == d.stopPrice && p.takeProfit == d.takeProfit && p.trailingDistance == d.trailingDistance
    && p.signalId == None && p.highestPrice == p.lowestPrice == Some(p.entryPrice)
  }

  /** What a buy on a flat account comes to: a counted refusal, an exception for its cost, or a position. */
  ghost predicate BuyDone(
      plan: Plan, v: Venue, d: StrategyDecision, bar: HistoricalBar, r: Result<Venue, Refusal>)
  {
    if exists k :: 0 <= k < |ORDER| && Refuses(plan, v, d, bar, k) then
      r == Ok(v.(rejectedCount := v.rejectedCount + 1))
    else
      && SizeFor(plan, v, d, bar).Sized?
      && var q, paid := SizeFor(plan, v, d, bar).quantity, bar.close * (1.0 + plan.slippageBps / 10000.0);
         if q * paid + plan.feeRate * (q * paid) > v.book.cash then r == Err(CostExceedsBalance)
         else r.Ok? && exists p :: BoughtAt(plan, d, bar, q, p) && PaidFor(v, r.value, p)
  }

  /** What a decision to leave comes to: the whole holding sold at the close, or nothing. */
  ghost predicate ExitDone(plan: Plan, v: Venue, i: nat, d: StrategyDecision, bar: HistoricalBar, w: Venue)
    requires i < |v.book.positions|
  {
    if !Sells(v.book.positions[i], bar.close, plan.filters.stepSize) then w == v
    else
      exists t ::
        && Records(VenueOf(plan), v.book.positions[i], t, bar.close, bar.time,
                   if d.reason == "" then "STRATEGY_EXIT" else d.reason, plan.filters.stepSize)
        && SoldOff(v, w, i, t)
  }

  /** Every decision: to leave, where something is held; to buy, where nothing is; and otherwise nothing. */
  lemma {:induction false} WhatADecisionDoes(plan: Plan, v: Venue, d: StrategyDecision, bar: HistoricalBar)
    requires plan.InRange() && Tallied(v.book)
    ensures var r, at := Applied(plan, v, d, bar), Find(v.book.positions, plan.symbol);
            if d.action == ExitNow && at.Some? then r.Ok? && ExitDone(plan, v, at.value, d, bar, r.value)
            else if d.action == BuyNow && at.None? then BuyDone(plan, v, d, bar, r)
            else r == Ok(v)
  {
    hide Find, ClosePosition, EvaluateEntry, OpenPosition, Records, SoldOff, Sells, BuyDone, Tallied;
    var at := Find(v.book.positions, plan.symbol);
    if d.action == ExitNow && at.Some? {
      WhatACloseDoes(VenueOf(plan), v, plan.symbol, bar.close, bar.time,
                     if d.reason == "" then STRATEGY_EXIT else d.reason, plan.filters.stepSize);
    } else if d.action == BuyNow && at.None? {
      WhatABuyDoes(plan, v, d, bar);
    }
  }

  lemma {:induction false} WhatABuyDoes(plan: Plan, v: Venue, d: StrategyDecision, bar: HistoricalBar)
    requires plan.InRange() && Tallied(v.book) && d.action == BuyNow && Find(v.book.positions, plan.symbol).None?
    ensures BuyDone(plan, v, d, bar, Applied(plan, v, d, bar))
  {
    hide Find, EvaluateEntry, OpenPosition, RefusesFirst, CalculatePositionSize, SizedFrom, BoughtAt, PaidFor, Tallied;
    var setup, e := VenueOf(plan), Entry(plan.symbol, bar.close, d.stopPrice, plan.filters, None, None);
    var prices := map[plan.symbol := bar.close];
    assert e == EntryOf(plan, d, bar) && prices == PricesAt(plan, bar) && setup == plan.VenueSetup();
    var (asked, a) := EvaluateEntry(setup, v, e, prices, bar.time, HEALTHY_SYSTEM);
    if a.Approved? {
      ApprovedMeansNoRefusal(setup, v, e, prices, bar.time, HEALTHY_SYSTEM);
      BuyOfASize(plan, v, d, bar, a);
    } else {
      var k := RefusalHasAPlace(setup, v, e, prices, bar.time, HEALTHY_SYSTEM);
      assert Refuses(plan, v, d, bar, k);
    }
  }

  lemma {:induction false} ApprovedMeansNoRefusal(
      setup: Setup, v: Venue, e: Entry, prices: Prices, now: int, s: SystemState)
    requires setup.InRange() && Tallied(v.book) && EvaluateEntry(setup, v, e, prices, now, s).1.Approved?
    ensures forall k :: 0 <= k < |ORDER| ==> !RefusesFirst(k, setup, v, e, prices, now, s)
    ensures var (w, a) := EvaluateEntry(setup, v, e, prices, now, s);
            w == v && a.size.Sized? && a.size == CalculatePositionSize(SizedFrom(setup, v, e, prices), setup.risk,
                                                                       e.filters)
  {
    hide EvaluateEntry, RefusesEntry, CalculatePositionSize, SizedFrom, Tallied;
    WhatAnEntryIsTold(setup, v, e, prices, now, s, 0);
  }

  lemma {:induction false} RefusalHasAPlace(
      setup: Setup, v: Venue, e: Entry, prices: Prices, now: int, s: SystemState) returns (k: nat)
    requires setup.InRange() && Tallied(v.book) && !EvaluateEntry(setup, v, e, prices, now, s).1.Approved?
    ensures k < |ORDER| && RefusesFirst(k, setup, v, e, prices, now, s)
    ensures EvaluateEntry(setup, v, e, prices, now, s).0 == v.(rejectedCount := v.rejectedCount + 1)
  {
    k := FirstRefusal(setup, v, e, prices, now, s);
    hide EvaluateEntry, RefusesFirst, Tallied;
    WhatAnEntryIsTold(setup, v, e, prices, now, s, 0);
  }

  /** The approved size is bought whole. */
  lemma {:induction false} BuyOfASize(plan: Plan, v: Venue, d: StrategyDecision, bar: HistoricalBar, a: Assessment)
    requires plan.InRange() && a.Approved? && a.size.Sized? && a.size == SizeFor(plan, v, d, bar)
    requires Find(v.book.positions, plan.symbol).None?
    ensures var r, q := OpenPosition(VenueOf(plan), v, a, OrderOf(plan, d, bar)), a.size.quantity;
            var paid := bar.close * (1.0 + plan.slippageBps / 10000.0);
            if q * paid + plan.feeRate * (q * paid) > v.book.cash then r == Err(CostExceedsBalance)
            else r.Ok? && r.value.1.Some?
                 && BoughtAt(plan, d, bar, q, r.value.1.value) && PaidFor(v, r.value.0, r.value.1.value)
  {
    hide Find, OpenPosition, RoundDownToStep, PaidFor, SizedFrom, OnGrid, CalculatePositionSize;
    var o, q := OrderOf(plan, d, bar), a.size.quantity;
    var request := SizedFrom(VenueOf(plan), v, Entry(plan.symbol, bar.close, d.stopPrice, plan.filters, None, None),
                             map[plan.symbol := bar.close]);
    PriceOfASize(plan, v, d, bar);
    SizedRespectsEveryLimit(request, plan.risk, plan.filters);
    RoundingKeepsGridQuantities(q, plan.filters.stepSize);
    WhatAnOpenDoes(VenueOf(plan), v, a, o);
  }

  lemma {:induction false} PriceOfASize(plan: Plan, v: Venue, d: StrategyDecision, bar: HistoricalBar)
    ensures SizedFrom(VenueOf(plan), v, Entry(plan.symbol, bar.close, d.stopPrice, plan.filters, None, None),
                      map[plan.symbol := bar.close]).entryPrice == bar.close
  {
  }

  // --- One bar ------------------------------------------------------------------

  /** A bar is a candle, then the decision taken on it, if any, and then the peak raised at its close. */
  lemma {:induction false} WhatABarDoes(
      plan: Plan, v: Venue, decision: Option<StrategyDecision>, bar: HistoricalBar)
    requires plan.InRange()
    ensures var candle := Bar(plan.symbol, bar.time, bar.open, bar.high, bar.low, bar.close);
            var exited := ProcessBar(VenueOf(plan), v, candle, plan.filters.stepSize).0;
            var acted := if decision.None? then Ok(exited) else Applied(plan, exited, decision.value, bar);
            match AfterBar(plan, v, decision, bar)
            case Err(refusal) => acted == Err(refusal)
            case Ok(w) =>
              && acted.Ok? && PeakFollows(acted.value, w, candle)
              && w == acted.value.(book := acted.value.book.(peakEquity := w.book.peakEquity))
  {
    hide ProcessBar, Applied, Worth;
    var exited := AfterExits(plan, v, bar);
    var acted := if decision.None? then Ok(exited) else Applied(plan, exited, decision.value, bar);
    if acted.Ok? {
      var w := PeakAt(acted.value, plan.symbol, bar.close);
      EquityIsCashAndWorth(acted.value.book, map[plan.symbol := bar.close]);
      hide Equity;
      assert w.book.positions == acted.value.book.positions && w.book.cash == acted.value.book.cash;
    }
  }
}
