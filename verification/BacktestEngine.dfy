/** The replay with its engine updated in place: `backend/app/backtesting/engine.py`. */
module BacktestEngine {
  import opened Wrappers
  import opened RiskEngine
  import opened Books
  import opened Portfolio
  import opened PaperTradingEngine
  import opened Simulator
  import opened Backtest

  class BacktestEngine {
    const plan: Plan
    const engine: PaperTradingEngine

    ghost predicate Valid()
      reads this, engine, engine.portfolio, engine.portfolio.positions
    {
      engine.Valid() && engine.setup == plan.VenueSetup()
    }

    /** A fresh venue over the initial capital. */
    constructor (plan: Plan)
      ensures Valid() && this.plan == plan
      ensures fresh(engine) && fresh(engine.portfolio) && engine.portfolio.positions == []
      ensures engine.Abs() == NewVenue(plan.initialCapital)
    {
      var portfolio := new Portfolio(plan.initialCapital, plan.initialCapital, 0.0);
      var venue := new PaperTradingEngine(plan.VenueSetup(), portfolio, map[]);
      this.plan, engine := plan, venue;
    }

    /** What one decision does; an exception leaves as an error. */
    method Apply(d: StrategyDecision, bar: HistoricalBar) returns (error: Option<Refusal>)
      requires Valid()
      modifies engine, engine.portfolio
      ensures Valid()
      ensures match Applied(plan, old(engine.Abs()), d, bar)
              case Err(refusal) => error == Some(refusal)
              case Ok(v) => error.None? && engine.Abs() == v
      ensures forall i :: 0 <= i < |engine.portfolio.positions| ==>
                engine.portfolio.positions[i] in old(engine.portfolio.positions) || fresh(engine.portfolio.positions[i])
    {
      hide Find, EvaluateEntry, ClosePosition, Simulator.OpenPosition, DistinctObjects, DistinctSymbols;
      var holding := Find(AbsAll(engine.portfolio.positions), plan.symbol).Some?;
      if d.action == ExitNow && holding {
        var _ := engine.ClosePosition(plan.symbol, bar.close, bar.time,
                                      if d.reason == "" then STRATEGY_EXIT else d.reason, plan.filters.stepSize);
        return None;
      }
      if d.action != BuyNow || holding {
        return None;
      }
      var assessment := engine.EvaluateEntry(EntryOf(plan, d, bar), PricesAt(plan, bar), bar.time, HEALTHY_SYSTEM);
      if !assessment.Approved? {
        return None;
      }
      var opening := engine.OpenPosition(assessment, OrderOf(plan, d, bar));
      error := if opening.Err? then Some(opening.error) else None;
    }

    /** One bar: its exits, then the strategy's decision, then the peak. */
    method Step(decision: Option<StrategyDecision>, bar: HistoricalBar) returns (error: Option<Refusal>)
      requires Valid()
      modifies engine, engine.portfolio, engine.portfolio.positions
      ensures Valid()
      ensures match AfterBar(plan, old(engine.Abs()), decision, bar)
              case Err(refusal) => error == Some(refusal)
              case Ok(v) => error.None? && engine.Abs() == v
      ensures forall i :: 0 <= i < |engine.portfolio.positions| ==>
                engine.portfolio.positions[i] in old(engine.portfolio.positions) || fresh(engine.portfolio.positions[i])
    {
      hide Applied, ProcessBar, DistinctObjects, DistinctSymbols, Equity;
      var _ := engine.ProcessBar(BarOf(plan, bar), plan.filters.stepSize);
      if decision.Some? {
        error := Apply(decision.value, bar);
        if error.Some? {
          return;
        }
      }
      engine.UpdatePeak(plan.symbol, bar.close);
      error := None;
    }

    /** Bar `index` of a run, with the equity at its close and whether a position is then held. */
    method RunBar(bars: seq<HistoricalBar>, strategy: Strategy, index: nat)
        returns (error: Option<Refusal>, equity: real, held: bool)
      requires Valid() && index < |bars| && StateAfter(plan, strategy, bars, index) == Ok(engine.Abs())
      modifies engine, engine.portfolio, engine.portfolio.positions
      ensures Valid()
      ensures match error
              case Some(refusal) => StateAfter(plan, strategy, bars, index + 1) == Err(refusal)
              case None =>
                && StateAfter(plan, strategy, bars, index + 1) == Ok(engine.Abs())
                && equity == Equity(engine.Abs().book, PricesAt(plan, bars[index]))
                && held == Find(engine.Abs().book.positions, plan.symbol).Some?
      ensures forall i :: 0 <= i < |engine.portfolio.positions| ==>
                engine.portfolio.positions[i] in old(engine.portfolio.positions) || fresh(engine.portfolio.positions[i])
    {
      hide AfterBar, Equity, DistinctObjects, DistinctSymbols, Find, StateAfter;
      equity, held := 0.0, false;
      NextState(plan, strategy, bars, index);
      error := Step(strategy(bars[..index + 1]), bars[index]);
      if error.Some? {
        return;
      }
      held := Find(AbsAll(engine.portfolio.positions), plan.symbol).Some?;
      equity := EquityAt(bars[index]);
    }

    method EquityAt(bar: HistoricalBar) returns (equity: real)
      ensures equity == Equity(engine.Abs().book, PricesAt(plan, bar))
    {
      var value := engine.portfolio.PositionsValue(PricesAt(plan, bar));
      equity := engine.portfolio.quoteBalance + value;
    }

    /** The forced close at the last bar, and the result it leaves. */
    method Finish(last: HistoricalBar, bars: nat, barsInMarket: nat, curve: seq<real>) returns (r: Outcome)
      requires Valid() && curve != []
      modifies engine, engine.portfolio
      ensures var end := Ended(plan, old(engine.Abs()), last);
              var finalEquity := Equity(end.book, PricesAt(plan, last));
              r == Outcome(finalEquity, end.book.closed, bars, barsInMarket, end.rejectedCount,
                           curve[|curve| - 1 := finalEquity])
    {
      hide Equity, ForceCloseAll, DistinctObjects, DistinctSymbols;
      var _ := engine.ForceCloseAll(PricesAt(plan, last), last.time, BACKTEST_END);
      var finalEquity := EquityAt(last);
      r := Outcome(finalEquity, engine.portfolio.closedTrades, bars, barsInMarket, engine.rejectedCount,
                   curve[|curve| - 1 := finalEquity]);
    }

    /** Replays the bars on a fresh engine, then closes what is left at the end. */
    method Run(bars: seq<HistoricalBar>, strategy: Strategy) returns (r: Result<Outcome, Refusal>)
      requires Valid() && engine.Abs() == NewVenue(plan.initialCapital)
      modifies engine, engine.portfolio, engine.portfolio.positions
      ensures r == ResultOf(plan, strategy, bars)
    {
      hide Equity, DistinctObjects, DistinctSymbols, Find, PricesAt, StateAfter, CurveAfter, BarsInMarket, Ended;
      if bars == [] {
        return Err(NoBars);
      }
      var curve: seq<real> := [];
      var barsInMarket := 0;
      StartOfRun(plan, strategy, bars);
      for index := 0 to |bars|
        invariant Valid() && StateAfter(plan, strategy, bars, index) == Ok(engine.Abs())
        invariant forall i :: 0 <= i < |engine.portfolio.positions| ==>
          engine.portfolio.positions[i] in old(engine.portfolio.positions) || fresh(engine.portfolio.positions[i])
        invariant curve == CurveAfter(plan, strategy, bars, index)
        invariant barsInMarket == BarsInMarket(plan, strategy, bars, index)
      {
        var error, equity, held := RunBar(bars, strategy, index);
        if error.Some? {
          FailureEndsTheRun(plan, strategy, bars, index + 1);
          return Err(error.value);
        }
        NextFigures(plan, strategy, bars, index);
        curve := curve + [equity];
        barsInMarket := barsInMarket + if held then 1 else 0;
      }
      var outcome := Finish(bars[|bars| - 1], |bars|, barsInMarket, curve);
      r := Ok(outcome);
    }
  }

  lemma {:induction false} StartOfRun(plan: Plan, strategy: Strategy, bars: seq<HistoricalBar>)
    ensures StateAfter(plan, strategy, bars, 0) == Ok(NewVenue(plan.initialCapital))
    ensures CurveAfter(plan, strategy, bars, 0) == [] && BarsInMarket(plan, strategy, bars, 0) == 0
  {
  }

  lemma {:induction false} NextState(plan: Plan, strategy: Strategy, bars: seq<HistoricalBar>, k: nat)
    requires k < |bars| && StateAfter(plan, strategy, bars, k).Ok?
    ensures StateAfter(plan, strategy, bars, k + 1)
            == AfterBar(plan, StateAfter(plan, strategy, bars, k).value, strategy(bars[..k + 1]), bars[k])
  {
    hide AfterBar;
  }

  lemma {:induction false} NextFigures(plan: Plan, strategy: Strategy, bars: seq<HistoricalBar>, k: nat)
    requires k < |bars| && StateAfter(plan, strategy, bars, k).Ok? && StateAfter(plan, strategy, bars, k + 1).Ok?
    ensures var v := StateAfter(plan, strategy, bars, k + 1).value;
            && CurveAfter(plan, strategy, bars, k + 1)
               == CurveAfter(plan, strategy, bars, k) + [Equity(v.book, PricesAt(plan, bars[k]))]
            && BarsInMarket(plan, strategy, bars, k + 1)
               == BarsInMarket(plan, strategy, bars, k) + if Find(v.book.positions, plan.symbol).Some? then 1 else 0
  {
    hide StateAfter, Equity, Find;
  }

  lemma {:induction false} FailureEndsTheRun(plan: Plan, strategy: Strategy, bars: seq<HistoricalBar>, k: nat)
    requires k <= |bars| && StateAfter(plan, strategy, bars, k).Err?
    ensures ResultOf(plan, strategy, bars) == Err(StateAfter(plan, strategy, bars, k).error)
  {
    hide AfterBar;
    FailurePersists(plan, strategy, bars, k, |bars|);
  }

  lemma {:induction false} FailurePersists(plan: Plan, strategy: Strategy, bars: seq<HistoricalBar>, k: nat, n: nat)
    requires k <= n <= |bars| && StateAfter(plan, strategy, bars, k).Err?
    ensures StateAfter(plan, strategy, bars, n) == StateAfter(plan, strategy, bars, k)
    decreases n
  {
    hide AfterBar;
    if k < n {
      FailurePersists(plan, strategy, bars, k, n - 1);
    }
  }
}
