/** The metrics a replay reports, in terms of what happened to its account. */
module BacktestMetrics {
  import opened Sums
  import opened Books
  import opened Backtest
  import opened BacktestResults
  import opened Metrics

  function MetricsOf(plan: Plan, r: Outcome): PerformanceMetrics {
    ComputeMetrics(r.trades, r.equityCurve, plan.initialCapital, r.barsInMarket, r.barsProcessed)
  }

  lemma {:induction false} ReportedCurveIsNonNegative(plan: Plan, strategy: Strategy, bars: seq<HistoricalBar>)
    requires plan.InRange() && ResultOf(plan, strategy, bars).Ok?
    requires forall bar <- bars :: bar.close > 0.0
    ensures NonNegative(ResultOf(plan, strategy, bars).value.equityCurve)
  {
    CurveIsNonNegative(plan, strategy, bars, |bars|);
    EquityGainedIsNetPnl(plan, strategy, bars);
    hide StateAfter, CurveAfter, Ended, BarsInMarket, SumOf, Equity;
    var curve := CurveAfter(plan, strategy, bars, |bars|);
    var r := ResultOf(plan, strategy, bars).value;
    forall e <- r.equityCurve ensures e >= 0.0 {
      var i :| 0 <= i < |r.equityCurve| && r.equityCurve[i] == e;
      if i < |bars| - 1 {
        assert e == curve[i] && curve[i] in curve;
      }
    }
  }

  lemma {:induction false} ShareOfBars(n: nat, total: nat)
    requires n <= total && total > 0
    ensures 0.0 <= n as real / total as real <= 1.0
  {
  }

  lemma {:induction false} ReturnTimesCapital(last: real, capital: real)
    requires capital > 0.0
    ensures ((last - capital) / capital) * capital == last - capital
  {
  }

  /** A report on a curve that ends where the trades' net result leaves the account. */
  ghost predicate Truthful(m: PerformanceMetrics, curve: seq<real>, gain: real, capital: real) {
    && m.netPnl == gain == m.grossPnl - m.totalFees
    && (capital > 0.0 ==> m.returnPct.Some? && m.returnPct.value * capital == gain)
    && (|curve| >= 2 <==> m.maxDrawdown.Some?)
    && (|curve| >= 2 ==> IsWorstDrop(curve, |curve|, m.maxDrawdown.value))
    && m.exposure.Some? && 0.0 <= m.exposure.value <= 1.0
  }

  lemma {:induction false} ReportIsTruthful(trades: seq<Trade>, curve: seq<real>, capital: real, held: nat)
    requires curve != [] && NonNegative(curve) && held <= |curve|
    requires curve[|curve| - 1] - capital == SumOf(trades, NetPnl) == SumOf(trades, GrossPnl) - SumOf(trades, FeesOf)
    ensures Truthful(ComputeMetrics(trades, curve, capital, held, |curve|), curve, curve[|curve| - 1] - capital,
        capital)
  {
    hide SumOf, IsWorstDrop, Wins, Losses, WorstTo, Average, ProfitFactor;
    DrawdownIsTheWorstPair(curve, |curve|);
    ShareOfBars(held, |curve|);
    if capital > 0.0 {
      ReturnTimesCapital(curve[|curve| - 1], capital);
    }
  }

  /**
   * The report of a replay at positive prices is about the account itself: the net result is the
   * equity gained and the gross result less all fees, the return is that gain over the capital, and
   * the drawdown is the worst fall between any two points of the equity curve, a fraction of one.
   */
  lemma {:induction false} ReportMatchesTheAccount(plan: Plan, strategy: Strategy, bars: seq<HistoricalBar>)
    requires plan.InRange() && ResultOf(plan, strategy, bars).Ok?
    requires forall bar <- bars :: bar.close > 0.0
    ensures var r := ResultOf(plan, strategy, bars).value;
            Truthful(MetricsOf(plan, r), r.equityCurve, r.finalEquity - plan.initialCapital, plan.initialCapital)
  {
    EquityGainedIsNetPnl(plan, strategy, bars);
    ReportedCurveIsNonNegative(plan, strategy, bars);
    ResultCounts(plan, strategy, bars);
    hide ResultOf, ComputeMetrics, SumOf, Truthful;
    var r := ResultOf(plan, strategy, bars).value;
    ReportIsTruthful(r.trades, r.equityCurve, plan.initialCapital, r.barsInMarket);
  }

  lemma {:induction false} ResultCounts(plan: Plan, strategy: Strategy, bars: seq<HistoricalBar>)
    requires ResultOf(plan, strategy, bars).Ok?
    ensures var r := ResultOf(plan, strategy, bars).value;
            bars != [] && r.barsInMarket <= r.barsProcessed == |bars|
  {
    hide StateAfter, CurveAfter, Ended, BarsInMarket, Equity;
  }
}
