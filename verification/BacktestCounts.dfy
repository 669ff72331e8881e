/** What a replay reports of its refusals and of its bars in the market. */
module BacktestCounts {
  import opened Wrappers
  import opened Fills
  import opened PositionSizing
  import opened Books
  import opened Simulator
  import opened SimulatorProofs
  import opened VenueEffects
  import opened EntryVerdicts
  import opened Backtest
  import opened BacktestProofs
  import opened BacktestTrades
  import opened BacktestDecisions
  import opened BacktestHoldings

  // --- What a run reports ---------------------------------------------------------

  /** The buy asked for at bar `k` was refused. */
  ghost predicate RefusedAt(plan: Plan, strategy: Strategy, bars: seq<HistoricalBar>, k: nat) {
    && k < |bars| && StateAfter(plan, strategy, bars, k).Ok?
    && var v, d := VenueAsked(plan, strategy, bars, k), DecisionAt(strategy, bars, k);
       && d.Some? && d.value.action == BuyNow && Find(v.book.positions, plan.symbol).None?
       && exists rule :: 0 <= rule < |ORDER| && Refuses(plan, v, d.value, bars[k], rule)
  }

  /** How many of the first `k` buys asked for were refused. */
  ghost function RefusedBars(plan: Plan, strategy: Strategy, bars: seq<HistoricalBar>, k: nat): nat {
    if k == 0 then 0
    else RefusedBars(plan, strategy, bars, k - 1) + if RefusedAt(plan, strategy, bars, k - 1) then 1 else 0
  }

  lemma {:induction false} ExitsRefuseNothing(plan: Plan, v: Venue, bar: HistoricalBar)
    ensures AfterExits(plan, v, bar).rejectedCount == v.rejectedCount
  {
    hide ExitFill, TradeOf, Equity, Find;
  }

  /** The rejections reported are the buys refused. */
  lemma {:induction false} RefusalsAreCounted(plan: Plan, strategy: Strategy, bars: seq<HistoricalBar>, k: nat)
    requires plan.InRange() && k <= |bars| && StateAfter(plan, strategy, bars, k).Ok?
    ensures StateAfter(plan, strategy, bars, k).value.rejectedCount == RefusedBars(plan, strategy, bars, k)
    decreases k
  {
    hide StateAfter, RefusedBars;
    if k == 0 {
      NothingRefusedAtFirst(plan, strategy, bars);
    } else {
      EarlierIsOk(plan, strategy, bars, k - 1, k);
      RefusalsAreCounted(plan, strategy, bars, k - 1);
      NextRefusals(plan, strategy, bars, k - 1);
    }
  }

  lemma {:induction false} NextRefusals(plan: Plan, strategy: Strategy, bars: seq<HistoricalBar>, k: nat)
    requires plan.InRange() && k < |bars|
    requires StateAfter(plan, strategy, bars, k).Ok? && StateAfter(plan, strategy, bars, k + 1).Ok?
    requires StateAfter(plan, strategy, bars, k).value.rejectedCount == RefusedBars(plan, strategy, bars, k)
    ensures StateAfter(plan, strategy, bars, k + 1).value.rejectedCount == RefusedBars(plan, strategy, bars, k + 1)
  {
    hide StateAfter, RefusedBars, RefusedAt;
    OneMoreRefused(plan, strategy, bars, k);
    RefusedOnABar(plan, strategy, bars, k);
  }

  lemma {:induction false} OneMoreRefused(plan: Plan, strategy: Strategy, bars: seq<HistoricalBar>, k: nat)
    ensures RefusedBars(plan, strategy, bars, k + 1)
            == RefusedBars(plan, strategy, bars, k) + if RefusedAt(plan, strategy, bars, k) then 1 else 0
  {
    hide RefusedAt;
  }

  lemma {:induction false} NothingRefusedAtFirst(plan: Plan, strategy: Strategy, bars: seq<HistoricalBar>)
    ensures StateAfter(plan, strategy, bars, 0).Ok? && StateAfter(plan, strategy, bars, 0).value.rejectedCount == 0
    ensures RefusedBars(plan, strategy, bars, 0) == 0
  {
  }

  lemma {:induction false} RefusedOnABar(plan: Plan, strategy: Strategy, bars: seq<HistoricalBar>, k: nat)
    requires plan.InRange() && k < |bars|
    requires StateAfter(plan, strategy, bars, k).Ok? && StateAfter(plan, strategy, bars, k + 1).Ok?
    ensures StateAfter(plan, strategy, bars, k + 1).value.rejectedCount
            == StateAfter(plan, strategy, bars, k).value.rejectedCount
               + if RefusedAt(plan, strategy, bars, k) then 1 else 0
  {
    hide StateAfter, RefusedAt, AfterExits, Accounted;
    var v := StateAfter(plan, strategy, bars, k).value;
    EveryStateIsAccounted(plan, strategy, bars, k);
    ExitsAccounted(plan, strategy, bars, v, MarkAfter(bars, k), bars[k]);
    TalliedIfAccounted(plan, strategy, bars, VenueAsked(plan, strategy, bars, k), bars[k].close);
    ExitsRefuseNothing(plan, v, bars[k]);
    CountedOnABar(plan, strategy, bars, k);
  }

  lemma {:induction false} TalliedIfAccounted(
      plan: Plan, strategy: Strategy, bars: seq<HistoricalBar>, v: Venue, mark: real)
    requires Accounted(plan, strategy, bars, v, mark)
    ensures Tallied(v.book)
  {
  }

  lemma {:induction false} CountedOnABar(plan: Plan, strategy: Strategy, bars: seq<HistoricalBar>, k: nat)
    requires plan.InRange() && k < |bars| && StateAfter(plan, strategy, bars, k + 1).Ok?
    requires StateAfter(plan, strategy, bars, k).Ok? && Tallied(VenueAsked(plan, strategy, bars, k).book)
    ensures StateAfter(plan, strategy, bars, k + 1).value.rejectedCount
            == VenueAsked(plan, strategy, bars, k).rejectedCount + if RefusedAt(plan, strategy, bars, k) then 1 else 0
  {
    hide AfterExits, Applied, Equity, Records, Sells, Tallied, Find, BoughtAt, CalculatePositionSize, Refuses;
    var asked, d := VenueAsked(plan, strategy, bars, k), DecisionAt(strategy, bars, k);
    assert bars[..k + 1] == bars[..k + 1];
    if d.Some? {
      WhatADecisionDoes(plan, asked, d.value, bars[k]);
    }
  }

  /** Something is held at the close of bar `i`. */
  ghost predicate HeldAt(plan: Plan, strategy: Strategy, bars: seq<HistoricalBar>, i: int) {
    && 0 <= i < |bars| && StateAfter(plan, strategy, bars, i + 1).Ok?
    && StateAfter(plan, strategy, bars, i + 1).value.book.positions != []
  }

  ghost function BarsHeld(plan: Plan, strategy: Strategy, bars: seq<HistoricalBar>, k: nat): set<int> {
    set i | 0 <= i < k && HeldAt(plan, strategy, bars, i)
  }

  /** The bars in the market reported are those on which something was held at the close. */
  lemma {:induction false} BarsInMarketAreCounted(plan: Plan, strategy: Strategy, bars: seq<HistoricalBar>, k: nat)
    requires plan.InRange() && k <= |bars| && StateAfter(plan, strategy, bars, k).Ok?
    ensures BarsInMarket(plan, strategy, bars, k) == |BarsHeld(plan, strategy, bars, k)|
    decreases k
  {
    hide StateAfter, HeldAt;
    if k > 0 {
      EarlierIsOk(plan, strategy, bars, k - 1, k);
      BarsInMarketAreCounted(plan, strategy, bars, k - 1);
      NextInMarket(plan, strategy, bars, k - 1);
      var before, after := BarsHeld(plan, strategy, bars, k - 1), BarsHeld(plan, strategy, bars, k);
      assert after == if HeldAt(plan, strategy, bars, k - 1) then before + {k - 1} else before;
      hide BarsInMarket, BarsHeld;
      OneMoreBar(before, k - 1);
    } else {
      assert BarsHeld(plan, strategy, bars, 0) == {};
    }
  }

  lemma {:induction false} NextInMarket(plan: Plan, strategy: Strategy, bars: seq<HistoricalBar>, k: nat)
    requires plan.InRange() && k < |bars|
    requires StateAfter(plan, strategy, bars, k).Ok? && StateAfter(plan, strategy, bars, k + 1).Ok?
    ensures BarsInMarket(plan, strategy, bars, k + 1)
            == BarsInMarket(plan, strategy, bars, k) + if HeldAt(plan, strategy, bars, k) then 1 else 0
  {
    EveryStateIsAccounted(plan, strategy, bars, k + 1);
    HeldIfAny(plan, strategy, bars, StateAfter(plan, strategy, bars, k + 1).value, MarkAfter(bars, k + 1));
    hide StateAfter, Find, Holds, Accounted;
  }

  lemma {:induction false} OneMoreBar(held: set<int>, k: int)
    requires k !in held
    ensures |held + {k}| == |held| + 1
  {
  }

  lemma {:induction false} HeldIfAny(plan: Plan, strategy: Strategy, bars: seq<HistoricalBar>, v: Venue, mark: real)
    requires Accounted(plan, strategy, bars, v, mark)
    ensures Holds(v.book, plan.symbol) <==> v.book.positions != []
  {
    hide Sound, Holding, Traded, OnGrid;
    if v.book.positions != [] {
      assert v.book.positions[0] in v.book.positions;
    }
  }

  /** The cash and the worth of the holding at the close of bar `i`. */
  ghost predicate IsEquityAt(plan: Plan, strategy: Strategy, bars: seq<HistoricalBar>, i: nat, equity: real) {
    && i < |bars| && StateAfter(plan, strategy, bars, i + 1).Ok?
    && var b := StateAfter(plan, strategy, bars, i + 1).value.book;
       equity == b.cash + Worth(b.positions, map[plan.symbol := bars[i].close])
  }

  /** Each point of the curve is the cash and the worth of the holding at the close of its bar. */
  lemma {:induction false} CurveIsTheEquity(
      plan: Plan, strategy: Strategy, bars: seq<HistoricalBar>, k: nat, i: nat)
    requires i < k <= |bars| && StateAfter(plan, strategy, bars, k).Ok?
    ensures IsEquityAt(plan, strategy, bars, i, CurveAfter(plan, strategy, bars, k)[i])
    decreases k
  {
    hide StateAfter, Worth;
    EarlierIsOk(plan, strategy, bars, k - 1, k);
    EarlierIsOk(plan, strategy, bars, i + 1, k);
    if i < k - 1 {
      CurveIsTheEquity(plan, strategy, bars, k - 1, i);
    } else {
      EquityIsCashAndWorth(StateAfter(plan, strategy, bars, i + 1).value.book, map[plan.symbol := bars[i].close]);
    }
    hide Equity;
  }

  /** What a completed run reports besides its trades. */
  ghost predicate Reports(plan: Plan, strategy: Strategy, bars: seq<HistoricalBar>, r: Outcome)
    requires bars != [] && StateAfter(plan, strategy, bars, |bars|).Ok?
  {
    var v := StateAfter(plan, strategy, bars, |bars|).value;
    && r.barsProcessed == |r.equityCurve| == |bars|
    && r.barsInMarket == |BarsHeld(plan, strategy, bars, |bars|)|
    && r.riskRejections == RefusedBars(plan, strategy, bars, |bars|)
    && v.book.closed <= r.trades
    && r.equityCurve[|bars| - 1] == r.finalEquity
    && forall i :: 0 <= i < |bars| - 1 ==> IsEquityAt(plan, strategy, bars, i, r.equityCurve[i])
  }

  /**
   * A run fails for want of bars, or with the exception that stopped its engine. One that completes
   * reports its bars, those it held something on, the buys that were refused and its equity at every close.
   */
  lemma {:induction false} WhatARunReports(plan: Plan, strategy: Strategy, bars: seq<HistoricalBar>)
    requires plan.InRange()
    ensures bars == [] ==> ResultOf(plan, strategy, bars) == Err(NoBars)
    ensures bars != [] ==>
              match StateAfter(plan, strategy, bars, |bars|)
              case Err(refusal) => ResultOf(plan, strategy, bars) == Err(refusal)
              case Ok(_) =>
                && ResultOf(plan, strategy, bars).Ok?
                && Reports(plan, strategy, bars, ResultOf(plan, strategy, bars).value)
  {
    hide StateAfter, CurveAfter, BarsInMarket, Ended, Equity, Worth, BarsHeld, RefusedBars;
    if bars != [] && StateAfter(plan, strategy, bars, |bars|).Ok? {
      var n := |bars|;
      BarsInMarketAreCounted(plan, strategy, bars, n);
      RefusalsAreCounted(plan, strategy, bars, n);
      EndRefusesNothing(plan, StateAfter(plan, strategy, bars, n).value, bars[n - 1]);
      EndAppends(plan, StateAfter(plan, strategy, bars, n).value, bars[n - 1]);
      var curve := CurveAfter(plan, strategy, bars, n);
      forall i | 0 <= i < n - 1 ensures IsEquityAt(plan, strategy, bars, i, curve[i]) {
        CurveIsTheEquity(plan, strategy, bars, n, i);
      }
      hide IsEquityAt;
    }
  }

  lemma {:induction false} EndRefusesNothing(plan: Plan, v: Venue, last: HistoricalBar)
    ensures Ended(plan, v, last).rejectedCount == v.rejectedCount
  {
    EachRefusesNothing(plan, v, SymbolsOf(v.book.positions), PricesAt(plan, last), last.time);
  }

  lemma {:induction false} EachRefusesNothing(plan: Plan, v: Venue, symbols: seq<string>, prices: Prices, time: int)
    ensures CloseEach(plan.VenueSetup(), v, symbols, prices, time, BACKTEST_END).0.rejectedCount == v.rejectedCount
    decreases |symbols|
  {
    hide ExitFill, ClosedAt, TradeOf, PriceOf, Find;
    if symbols != [] {
      var at := Find(v.book.positions, symbols[0]);
      if at.None? {
        EachRefusesNothing(plan, v, symbols[1..], prices, time);
      } else {
        var next := ClosePosition(plan.VenueSetup(), v, symbols[0], PriceOf(prices, v.book.positions[at.value]), time,
                                  BACKTEST_END, None).0;
        EachRefusesNothing(plan, next, symbols[1..], prices, time);
      }
    }
  }
}
