/** The bar-by-bar replay as a value: `backend/app/backtesting/engine.py`. */
module Backtest {
  import opened Wrappers
  import opened TradingLimits
  import opened RiskEngine
  import opened Books
  import opened Simulator

  datatype HistoricalBar = HistoricalBar(time: int, open: real, high: real, low: real, close: real, volume: real)

  datatype Action = BuyNow | ExitNow | OtherAction

  datatype StrategyDecision = StrategyDecision(
    action: Action, stopPrice: Option<real>, takeProfit: Option<real>, trailingDistance: Option<real>, reason: string)

  /** A strategy is a function of the bars so far; an absent decision means to do nothing. */
  type Strategy = seq<HistoricalBar> -> Option<StrategyDecision>

  const STRATEGY_EXIT := "STRATEGY_EXIT"
  const BACKTEST_END := "BACKTEST_END"

  /** What a backtest is built with; its venue never fills partially. */
  datatype Plan = Plan(symbol: string, initialCapital: real, feeRate: real, slippageBps: real,
                       risk: RiskConfig, filters: SymbolFilters)
  {
    function VenueSetup(): Setup {
      Setup(SimulatorConfig(feeRate, slippageBps, false), risk)
    }

    predicate InRange() {
      VenueSetup().InRange() && initialCapital >= 0.0
    }
  }

  function BarOf(plan: Plan, bar: HistoricalBar): Bar {
    Bar(plan.symbol, bar.time, bar.open, bar.high, bar.low, bar.close)
  }

  function PricesAt(plan: Plan, bar: HistoricalBar): Prices {
    map[plan.symbol := bar.close]
  }

  function EntryOf(plan: Plan, d: StrategyDecision, bar: HistoricalBar): Entry {
    Entry(plan.symbol, bar.close, d.stopPrice, plan.filters, None, None)
  }

  function OrderOf(plan: Plan, d: StrategyDecision, bar: HistoricalBar): Order {
    Order(plan.symbol, bar.close, bar.time, plan.filters.stepSize, d.stopPrice, d.takeProfit, d.trailingDistance,
        None, None)
  }

  /** What a decision does after the exits of a bar; a buy needs an approval, and an open that raises ends the run. */
  function Applied(plan: Plan, v: Venue, d: StrategyDecision, bar: HistoricalBar): Result<Venue, Refusal> {
    var holding := Holds(v.book, plan.symbol);
    if d.action == ExitNow && holding then
      Ok(ClosePosition(plan.VenueSetup(), v, plan.symbol, bar.close, bar.time,
                       if d.reason == "" then STRATEGY_EXIT else d.reason, plan.filters.stepSize).0)
    else if d.action != BuyNow || holding then
      Ok(v)
    else
      var (asked, assessment) :=
        EvaluateEntry(plan.VenueSetup(), v, EntryOf(plan, d, bar), PricesAt(plan, bar), bar.time, HEALTHY_SYSTEM);
      if !assessment.Approved? then Ok(asked)
      else
        match OpenPosition(plan.VenueSetup(), asked, assessment, OrderOf(plan, d, bar))
        case Err(refusal) => Err(refusal)
        case Ok(r) => Ok(r.0)
  }

  /** The venue after the exits of a bar and before the strategy is asked. */
  function AfterExits(plan: Plan, v: Venue, bar: HistoricalBar): Venue {
    ProcessBar(plan.VenueSetup(), v, BarOf(plan, bar), plan.filters.stepSize).0
  }

  /** The venue after one bar, given the decision the strategy made on it. */
  function AfterBar(
      plan: Plan, v: Venue, decision: Option<StrategyDecision>, bar: HistoricalBar): Result<Venue, Refusal> {
    var exited := AfterExits(plan, v, bar);
    match (if decision.None? then Ok(exited) else Applied(plan, exited, decision.value, bar))
    case Err(refusal) => Err(refusal)
    case Ok(acted) => Ok(PeakAt(acted, plan.symbol, bar.close))
  }

  /** The venue after the first `k` bars, each decision a function of the bars up to its own. */
  function StateAfter(plan: Plan, strategy: Strategy, bars: seq<HistoricalBar>, k: nat): Result<Venue, Refusal>
    requires k <= |bars|
  {
    if k == 0 then Ok(NewVenue(plan.initialCapital))
    else
      match StateAfter(plan, strategy, bars, k - 1)
      case Err(refusal) => Err(refusal)
      case Ok(v) => AfterBar(plan, v, strategy(bars[..k]), bars[k - 1])
  }

  /** Equity at the close of each of the first `k` bars. */
  function CurveAfter(plan: Plan, strategy: Strategy, bars: seq<HistoricalBar>, k: nat): (curve: seq<real>)
    requires k <= |bars| && StateAfter(plan, strategy, bars, k).Ok?
    ensures |curve| == k
  {
    if k == 0 then []
    else
      CurveAfter(plan, strategy, bars, k - 1)
      + [Equity(StateAfter(plan, strategy, bars, k).value.book, PricesAt(plan, bars[k - 1]))]
  }

  function BarsInMarket(plan: Plan, strategy: Strategy, bars: seq<HistoricalBar>, k: nat): (n: nat)
    requires k <= |bars| && StateAfter(plan, strategy, bars, k).Ok?
    ensures n <= k
  {
    if k == 0 then 0
    else
      BarsInMarket(plan, strategy, bars, k - 1)
      + if Holds(StateAfter(plan, strategy, bars, k).value.book, plan.symbol) then 1 else 0
  }

  /** The venue once whatever is still open at the last bar has been closed at its close. */
  function Ended(plan: Plan, v: Venue, last: HistoricalBar): Venue {
    ForceCloseAll(plan.VenueSetup(), v, PricesAt(plan, last), last.time, BACKTEST_END).0
  }

  datatype Outcome = Outcome(
    finalEquity: real, trades: seq<Trade>, barsProcessed: nat, barsInMarket: nat,
    riskRejections: nat, equityCurve: seq<real>)

  /** The result of a run, or the exception that ended it. */
  function ResultOf(plan: Plan, strategy: Strategy, bars: seq<HistoricalBar>): Result<Outcome, Refusal> {
    if bars == [] then Err(NoBars)
    else
      match StateAfter(plan, strategy, bars, |bars|)
      case Err(refusal) => Err(refusal)
      case Ok(v) =>
        var last := bars[|bars| - 1];
        var end := Ended(plan, v, last);
        var finalEquity := Equity(end.book, PricesAt(plan, last));
        var curve := CurveAfter(plan, strategy, bars, |bars|);
        Ok(Outcome(finalEquity, end.book.closed, |bars|, BarsInMarket(plan, strategy, bars, |bars|),
                   end.rejectedCount, curve[|bars| - 1 := finalEquity]))
  }
}
