/** Performance metrics: `backend/app/backtesting/metrics.py`. */
module Metrics {
  import opened Wrappers
  import opened Sums
  import opened Books

  // --- Drawdown -------------------------------------------------------

  /** The loss from `peak` to `value`, as a fraction of the peak. */
  function Drop(peak: real, value: real): real
    requires peak > 0.0
  {
    (peak - value) / peak
  }

  /** The highest of the first value and those before the `k`-th. */
  function PeakTo(curve: seq<real>, k: nat): real
    requires curve != [] && k <= |curve|
  {
    if k == 0 then curve[0] else Max(PeakTo(curve, k - 1), curve[k - 1])
  }

  /** The worst drop from the running peak over the first `k` values. */
  function WorstTo(curve: seq<real>, k: nat): real
    requires curve != [] && k <= |curve|
  {
    if k == 0 then 0.0
    else
      var peak := PeakTo(curve, k);
      if peak > 0.0 then Max(WorstTo(curve, k - 1), Drop(peak, curve[k - 1])) else WorstTo(curve, k - 1)
  }

  function DrawdownOf(curve: seq<real>): Option<real> {
    if |curve| < 2 then None else Some(WorstTo(curve, |curve|))
  }

  ghost predicate NonNegative(curve: seq<real>) {
    forall e <- curve :: e >= 0.0
  }

  ghost predicate DropsAt(curve: seq<real>, i: nat, j: nat, worst: real) {
    i <= j < |curve| && curve[i] > 0.0 && Drop(curve[i], curve[j]) == worst
  }

  /** Over all pairs of a value and a later one among the first `k`, the greatest fractional loss. */
  ghost predicate IsWorstDrop(curve: seq<real>, k: nat, worst: real)
    requires k <= |curve|
  {
    && (forall i, j :: 0 <= i <= j < k && curve[i] > 0.0 ==> Drop(curve[i], curve[j]) <= worst)
    && (worst == 0.0 || exists i: nat, j: nat :: j < k && DropsAt(curve, i, j, worst))
    && 0.0 <= worst <= 1.0
  }

  /** One pass with a running peak finds the drawdown; fewer than two values have none. */
  method MaxDrawdown(curve: seq<real>) returns (r: Option<real>)
    ensures r == DrawdownOf(curve)
    ensures r.Some? <==> |curve| >= 2
    ensures r.Some? ==> IsWorstAboveZero(curve, |curve|, r.value)
    ensures r.Some? && NonNegative(curve) ==> IsWorstDrop(curve, |curve|, r.value)
  {
    if |curve| < 2 {
      return None;
    }
    var peak := curve[0];
    var worst := 0.0;
    for i := 0 to |curve|
      invariant peak == PeakTo(curve, i) && worst == WorstTo(curve, i)
    {
      peak := Max(peak, curve[i]);
      if peak > 0.0 {
        worst := Max(worst, Drop(peak, curve[i]));
      }
    }
    DrawdownIsNeverOverstated(curve, |curve|);
    if NonNegative(curve) {
      DrawdownIsTheWorstPair(curve, |curve|);
    }
    return Some(worst);
  }

  lemma {:induction false} PeakIsAValue(curve: seq<real>, k: nat) returns (i: nat)
    requires 0 < k <= |curve|
    ensures i < k && curve[i] == PeakTo(curve, k)
    ensures forall j :: 0 <= j < k ==> curve[j] <= PeakTo(curve, k)
  {
    if k == 1 || PeakTo(curve, k) != PeakTo(curve, k - 1) {
      i := k - 1;
      if k > 1 {
        var _ := PeakIsAValue(curve, k - 1);
      }
    } else {
      i := PeakIsAValue(curve, k - 1);
    }
  }

  lemma {:induction false} SignOfProduct(a: real, b: real)
    requires b > 0.0
    ensures a * b >= 0.0 <==> a >= 0.0
    ensures a * b == 0.0 <==> a == 0.0
  {
    if a > 0.0 {
      assert a * b > 0.0;
    } else if a < 0.0 {
      assert (-a) * b > 0.0;
    }
  }

  lemma {:induction false} DropIsWhatIsLeft(peak: real, value: real)
    requires peak > 0.0
    ensures Drop(peak, value) == 1.0 - value / peak
    ensures (value / peak) * peak == value
  {
    var d, x := Drop(peak, value), value / peak;
    assert d * peak == peak - value && x * peak == value;
    var gap := d - (1.0 - x);
    assert gap * peak == d * peak - peak + x * peak;
    SignOfProduct(gap, peak);
  }

  /**
   * From a higher start the loss to a value at or above zero is no smaller, and to a value below
   * zero it is smaller: a fall through zero is relatively deeper from a low start.
   */
  lemma {:induction false} HigherStartsLoseMore(low: real, high: real, value: real)
    requires 0.0 < low <= high
    ensures Drop(low, value) <= Drop(high, value) <==> value >= 0.0 || low == high
  {
    DropIsWhatIsLeft(low, value);
    DropIsWhatIsLeft(high, value);
    var x, y := value / low, value / high;
    assert (x - y) * high == x * (high - low) + x * low - y * high;
    assert (x - y) * high == x * (high - low);
    SignOfProduct(x - y, high);
    SignOfProduct(x, low);
    if high > low {
      SignOfProduct(x, high - low);
    }
  }

  /**
   * Over the first `k` values of any curve: `worst` is a fractional loss, and none to a value at or
   * above zero is greater.
   */
  ghost predicate IsWorstAboveZero(curve: seq<real>, k: nat, worst: real)
    requires k <= |curve|
  {
    && worst >= 0.0
    && (worst == 0.0 || exists i: nat, j: nat :: j < k && DropsAt(curve, i, j, worst))
    && (forall i, j :: 0 <= i <= j < k && curve[i] > 0.0 && curve[j] >= 0.0 ==> Drop(curve[i], curve[j]) <= worst)
  }

  /**
   * On any curve the one pass never overstates: its result is zero or the loss between two points of
   * the curve, and it covers every loss to a value at or above zero.
   */
  lemma {:induction false} DrawdownIsNeverOverstated(curve: seq<real>, k: nat)
    requires curve != [] && k <= |curve|
    ensures IsWorstAboveZero(curve, k, WorstTo(curve, k))
    decreases k
  {
    hide Drop;
    if k > 0 {
      DrawdownIsNeverOverstated(curve, k - 1);
      var p := PeakIsAValue(curve, k);
      if curve[p] > 0.0 {
        OneMoreValue(curve, k, p);
      } else {
        hide PeakTo;
        WorstCarriesOver(curve, k);
      }
    }
  }

  lemma {:induction false} WorstCarriesOver(curve: seq<real>, k: nat)
    requires 0 < k <= |curve| && IsWorstAboveZero(curve, k - 1, WorstTo(curve, k - 1))
    requires forall i :: 0 <= i < k ==> curve[i] <= 0.0
    ensures IsWorstAboveZero(curve, k, WorstTo(curve, k - 1))
  {
    hide Drop;
  }

  lemma {:induction false} OneMoreValue(curve: seq<real>, k: nat, p: nat)
    requires 0 < k <= |curve| && IsWorstAboveZero(curve, k - 1, WorstTo(curve, k - 1))
    requires p < k && curve[p] == PeakTo(curve, k) > 0.0 && forall i :: 0 <= i < k ==> curve[i] <= curve[p]
    ensures IsWorstAboveZero(curve, k, WorstTo(curve, k))
  {
    hide Drop, PeakTo;
    var before, worst, value := WorstTo(curve, k - 1), WorstTo(curve, k), curve[k - 1];
    assert DropsAt(curve, p, k - 1, Drop(curve[p], value));
    forall i: nat | i < k && curve[i] > 0.0 && value >= 0.0 ensures Drop(curve[i], value) <= worst {
      HigherStartsLoseMore(curve[i], curve[p], value);
    }
    if worst == before && worst != 0.0 {
      var i: nat, j: nat :| j < k - 1 && DropsAt(curve, i, j, before);
      assert j < k && DropsAt(curve, i, j, worst);
    }
  }

  /** Which losses can be missed: those through zero, from a start below the running peak. */
  lemma {:induction false} MissedLossesGoThroughZero(curve: seq<real>, i: nat, j: nat)
    requires i <= j < |curve| && curve[i] > 0.0 && Drop(curve[i], curve[j]) > WorstTo(curve, |curve|)
    ensures curve[j] < 0.0 && curve[i] < PeakTo(curve, j + 1)
  {
    hide Drop;
    DrawdownIsNeverOverstated(curve, |curve|);
    var p := PeakIsAValue(curve, j + 1);
    WorstCovers(curve, j + 1, |curve|);
    HigherStartsLoseMore(curve[i], curve[p], curve[j]);
  }

  lemma {:induction false} WorstCovers(curve: seq<real>, k: nat, n: nat)
    requires 0 < k <= n <= |curve| && PeakTo(curve, k) > 0.0
    ensures Drop(PeakTo(curve, k), curve[k - 1]) <= WorstTo(curve, n)
    decreases n
  {
    hide Drop, PeakTo;
    if k < n {
      WorstCovers(curve, k, n - 1);
    }
  }

  /** On a curve that is never negative, the running peak gives the worst drop over all pairs. */
  lemma {:induction false} DrawdownIsTheWorstPair(curve: seq<real>, k: nat)
    requires curve != [] && k <= |curve| && NonNegative(curve)
    ensures IsWorstDrop(curve, k, WorstTo(curve, k))
  {
    hide WorstTo, Drop;
    DrawdownIsNeverOverstated(curve, k);
    var worst := WorstTo(curve, k);
    forall i | 0 <= i < k ensures curve[i] >= 0.0 {
      assert curve[i] in curve;
    }
    if worst != 0.0 {
      var i: nat, j: nat :| j < k && DropsAt(curve, i, j, worst);
      LossesAreFractions(curve[i], curve[j]);
    }
  }

  lemma {:induction false} LossesAreFractions(start: real, value: real)
    requires start > 0.0 && value >= 0.0
    ensures Drop(start, value) <= 1.0
  {
    DropIsWhatIsLeft(start, value);
    SignOfProduct(value / start, start);
  }

  /** A curve with such a loss: a fall of twice its start is reported as one and a half times. */
  lemma {:induction false} NegativeCurvesAreMisread()
    ensures DrawdownOf([-1.0, 1.0, 2.0, -1.0]) == Some(1.5)
    ensures DropsAt([-1.0, 1.0, 2.0, -1.0], 1, 3, 2.0)
  {
    var curve := [-1.0, 1.0, 2.0, -1.0];
    assert PeakTo(curve, 1) == -1.0 && WorstTo(curve, 1) == 0.0;
    assert PeakTo(curve, 2) == 1.0 && WorstTo(curve, 2) == 0.0;
    assert PeakTo(curve, 3) == 2.0 && WorstTo(curve, 3) == 0.0;
    assert WorstTo(curve, 4) == 1.5;
  }

  // --- Trade statistics -----------------------------------------------

  datatype PerformanceMetrics = PerformanceMetrics(
    tradeCount: nat, winCount: nat, lossCount: nat,
    grossPnl: real, netPnl: real, totalFees: real, totalSlippage: real,
    averageTrade: Option<real>, averageWin: Option<real>, averageLoss: Option<real>,
    expectancy: Option<real>, profitFactor: Option<real>,
    maxDrawdown: Option<real>, returnPct: Option<real>, exposure: Option<real>)

  function Wins(trades: seq<Trade>): seq<Trade> {
    if trades == [] then []
    else
      var t := trades[|trades| - 1];
      Wins(trades[..|trades| - 1]) + if t.IsWin() then [t] else []
  }

  function Losses(trades: seq<Trade>): seq<Trade> {
    if trades == [] then []
    else
      var t := trades[|trades| - 1];
      Losses(trades[..|trades| - 1]) + if t.IsWin() then [] else [t]
  }

  function SlippageOf(t: Trade): real {
    t.slippageCost
  }

  function Average(trades: seq<Trade>): Option<real> {
    if trades == [] then None else Some(SumOf(trades, NetPnl) / |trades| as real)
  }

  function ProfitFactor(trades: seq<Trade>): Option<real> {
    var profit, loss := SumOf(Wins(trades), NetPnl), -SumOf(Losses(trades), NetPnl);
    if loss > 0.0 then Some(profit / loss) else None
  }

  function ComputeMetrics(
      trades: seq<Trade>, curve: seq<real>, initialCapital: real, barsInMarket: int, totalBars: int): PerformanceMetrics
  {
    PerformanceMetrics(
      |trades|, |Wins(trades)|, |Losses(trades)|,
      SumOf(trades, GrossPnl), SumOf(trades, NetPnl), SumOf(trades, FeesOf), SumOf(trades, SlippageOf),
      Average(trades), Average(Wins(trades)), Average(Losses(trades)),
      Average(trades), ProfitFactor(trades),
      DrawdownOf(curve),
      if curve != [] && initialCapital > 0.0 then Some((curve[|curve| - 1] - initialCapital) / initialCapital)
      else None,
      if totalBars > 0 then Some(barsInMarket as real / totalBars as real) else None)
  }

  lemma {:induction false} OneMoreTrade(init: seq<Trade>, t: Trade)
    ensures Wins(init + [t]) == Wins(init) + if t.IsWin() then [t] else []
    ensures Losses(init + [t]) == Losses(init) + if t.IsWin() then [] else [t]
  {
    assert (init + [t])[..|init|] == init;
  }

  /** Wins and losses share the trades out between them: none is lost and none counted twice. */
  lemma {:induction false} WinsAndLossesPartition(trades: seq<Trade>)
    ensures multiset(Wins(trades)) + multiset(Losses(trades)) == multiset(trades)
    ensures |Wins(trades)| + |Losses(trades)| == |trades|
    decreases |trades|
  {
    if trades != [] {
      var init, t := trades[..|trades| - 1], trades[|trades| - 1];
      WinsAndLossesPartition(init);
      hide Wins, Losses;
      assert trades == init + [t];
      OneMoreTrade(init, t);
    }
  }

  lemma {:induction false} WinsWin(trades: seq<Trade>)
    ensures forall t <- Wins(trades) :: t.IsWin()
    ensures forall t <- Losses(trades) :: !t.IsWin()
    decreases |trades|
  {
    if trades != [] {
      WinsWin(trades[..|trades| - 1]);
    }
  }

  lemma {:induction false} ResultsAddUp(trades: seq<Trade>)
    ensures SumOf(Wins(trades), NetPnl) + SumOf(Losses(trades), NetPnl) == SumOf(trades, NetPnl)
    decreases |trades|
  {
    if trades != [] {
      var init, t := trades[..|trades| - 1], trades[|trades| - 1];
      ResultsAddUp(init);
      if t.IsWin() {
        SumSnoc(Wins(init), t, NetPnl);
        assert Losses(init) + [] == Losses(init);
      } else {
        SumSnoc(Losses(init), t, NetPnl);
        assert Wins(init) + [] == Wins(init);
      }
    }
  }

  /** Results none of which is positive sum to less than nothing exactly when one of them is a loss. */
  lemma {:induction false} ALoserMakesALoss(trades: seq<Trade>)
    requires forall t <- trades :: !t.IsWin()
    ensures SumOf(trades, NetPnl) <= 0.0
    ensures SumOf(trades, NetPnl) < 0.0 <==> exists t <- trades :: t.netPnl < 0.0
    decreases |trades|
  {
    if trades != [] {
      var init, t := trades[..|trades| - 1], trades[|trades| - 1];
      assert t in trades && trades == init + [t];
      forall u <- init ensures u in trades {
      }
      ALoserMakesALoss(init);
    }
  }

  lemma {:induction false} QuotientAgainst(x: real, y: real)
    requires y > 0.0
    ensures x / y > 1.0 <==> x > y
    ensures x / y > 0.0 <==> x > 0.0
    ensures (x / y) * y == x
  {
    var q := x / y;
    assert q * y == x;
    if q > 1.0 {
      assert (q - 1.0) * y > 0.0;
    } else if q > 0.0 {
      assert (1.0 - q) * y >= 0.0 && q * y > 0.0;
    } else {
      assert (-q) * y >= 0.0;
    }
  }

  /** The average result is positive exactly when the account gained, and repeated over all trades it is the gain. */
  lemma {:induction false} ExpectancyAgrees(trades: seq<Trade>)
    ensures Average(trades).Some? <==> trades != []
    ensures trades != [] ==>
              && Average(trades).value * |trades| as real == SumOf(trades, NetPnl)
              && (Average(trades).value > 0.0 <==> SumOf(trades, NetPnl) > 0.0)
  {
    if trades != [] {
      QuotientAgainst(SumOf(trades, NetPnl), |trades| as real);
    }
  }

  /** There is a profit factor exactly when some trade lost, and it is above one exactly when the account gained. */
  lemma {:induction false} ProfitFactorAgrees(trades: seq<Trade>)
    ensures ProfitFactor(trades).Some? <==> exists t <- trades :: t.netPnl < 0.0
    ensures ProfitFactor(trades).Some? ==> (ProfitFactor(trades).value > 1.0 <==> SumOf(trades, NetPnl) > 0.0)
  {
    WinsAndLossesPartition(trades);
    WinsWin(trades);
    hide SumOf, Wins, Losses;
    ResultsAddUp(trades);
    ALoserMakesALoss(Losses(trades));
    forall t <- trades ensures t.netPnl < 0.0 ==> t in Losses(trades) {
      assert t in multiset(trades);
      assert t in multiset(Wins(trades)) || t in multiset(Losses(trades));
      assert t in Wins(trades) ==> t.IsWin();
    }
    forall t <- Losses(trades) ensures t in trades {
      assert t in multiset(trades);
    }
    if ProfitFactor(trades).Some? {
      QuotientAgainst(SumOf(Wins(trades), NetPnl), -SumOf(Losses(trades), NetPnl));
    }
  }

  /** A trade whose net result is its gross less its fees, as every closed trade's is. */
  ghost predicate NetOfFees(t: Trade) {
    t.netPnl == t.grossPnl - t.fees
  }

  lemma {:induction false} NetIsGrossLessFees(trades: seq<Trade>)
    requires forall t <- trades :: NetOfFees(t)
    ensures SumOf(trades, NetPnl) == SumOf(trades, GrossPnl) - SumOf(trades, FeesOf)
    decreases |trades|
  {
    if trades != [] {
      assert NetOfFees(trades[|trades| - 1]);
      NetIsGrossLessFees(trades[..|trades| - 1]);
    }
  }

  /**
   * The figures tell one story: the account gained exactly when expectancy is positive and, where
   * any trade lost, exactly when the profit factor is above one.
   */
  lemma {:induction false} FiguresAgreeWithTheNetResult(
      trades: seq<Trade>, curve: seq<real>, initialCapital: real, barsInMarket: int, totalBars: int)
    requires forall t <- trades :: NetOfFees(t)
    ensures var m := ComputeMetrics(trades, curve, initialCapital, barsInMarket, totalBars);
            && m.winCount + m.lossCount == m.tradeCount
            && m.netPnl == m.grossPnl - m.totalFees
            && (m.expectancy.Some? <==> trades != [])
            && (m.expectancy.Some? ==> (m.expectancy.value > 0.0 <==> m.netPnl > 0.0))
            && (m.profitFactor.Some? <==> exists t <- trades :: t.netPnl < 0.0)
            && (m.profitFactor.Some? ==> (m.profitFactor.value > 1.0 <==> m.netPnl > 0.0))
  {
    hide DrawdownOf, Average, ProfitFactor, SumOf, Wins, Losses;
    WinsAndLossesPartition(trades);
    NetIsGrossLessFees(trades);
    ExpectancyAgrees(trades);
    ProfitFactorAgrees(trades);
  }

  // --- What each figure is ------------------------------------------------

  ghost function Winners(trades: seq<Trade>): nat {
    if trades == [] then 0 else Winners(trades[..|trades| - 1]) + if trades[|trades| - 1].netPnl > 0.0 then 1 else 0
  }

  /** The net results above zero, added up. */
  ghost function Won(trades: seq<Trade>): real {
    if trades == [] then 0.0
    else
      var net := trades[|trades| - 1].netPnl;
      Won(trades[..|trades| - 1]) + if net > 0.0 then net else 0.0
  }

  /** The net results at or below zero, added up. */
  ghost function Lost(trades: seq<Trade>): real {
    if trades == [] then 0.0
    else
      var net := trades[|trades| - 1].netPnl;
      Lost(trades[..|trades| - 1]) + if net > 0.0 then 0.0 else net
  }

  ghost function SlippagePaid(trades: seq<Trade>): real {
    if trades == [] then 0.0 else SlippagePaid(trades[..|trades| - 1]) + trades[|trades| - 1].slippageCost
  }

  /** A mean is there if something is counted, and counted out it is the total. */
  ghost predicate MeanOf(mean: Option<real>, count: nat, total: real) {
    && (mean.Some? <==> count > 0)
    && (mean.Some? ==> mean.value * count as real == total)
  }

  lemma {:induction false} WinsAreWon(trades: seq<Trade>)
    ensures |Wins(trades)| == Winners(trades) && |Losses(trades)| == |trades| - Winners(trades)
    ensures SumOf(Wins(trades), NetPnl) == Won(trades) && SumOf(Losses(trades), NetPnl) == Lost(trades)
    decreases |trades|
  {
    if trades != [] {
      var init, t := trades[..|trades| - 1], trades[|trades| - 1];
      WinsAreWon(init);
      SumSnoc(Wins(init), t, NetPnl);
      SumSnoc(Losses(init), t, NetPnl);
      assert Wins(init) + [] == Wins(init) && Losses(init) + [] == Losses(init);
    }
  }

  lemma {:induction false} SlippageIsPaid(trades: seq<Trade>)
    ensures SumOf(trades, SlippageOf) == SlippagePaid(trades)
    decreases |trades|
  {
    if trades != [] {
      SlippageIsPaid(trades[..|trades| - 1]);
    }
  }

  lemma {:induction false} AverageIsMean(trades: seq<Trade>)
    ensures MeanOf(Average(trades), |trades|, SumOf(trades, NetPnl))
  {
    hide SumOf;
    if trades != [] {
      QuotientAgainst(SumOf(trades, NetPnl), |trades| as real);
    }
  }

  /** Every figure of a report, from the trades, the curve and the counts it is made from. */
  lemma {:induction false} WhatTheFiguresAre(
      trades: seq<Trade>, curve: seq<real>, initialCapital: real, barsInMarket: int, totalBars: int)
    ensures var m := ComputeMetrics(trades, curve, initialCapital, barsInMarket, totalBars);
            && m.tradeCount == |trades| && m.winCount == Winners(trades) && m.lossCount == |trades| - Winners(trades)
            && m.netPnl == Won(trades) + Lost(trades) && m.totalSlippage == SlippagePaid(trades)
            && MeanOf(m.averageTrade, |trades|, m.netPnl) && m.expectancy == m.averageTrade
            && MeanOf(m.averageWin, m.winCount, Won(trades)) && MeanOf(m.averageLoss, m.lossCount, Lost(trades))
            && (m.profitFactor.Some? <==> Lost(trades) < 0.0)
            && (m.profitFactor.Some? ==> m.profitFactor.value * -Lost(trades) == Won(trades))
            && (m.returnPct.Some? <==> curve != [] && initialCapital > 0.0)
            && (m.returnPct.Some? ==> m.returnPct.value * initialCapital == curve[|curve| - 1] - initialCapital)
            && (m.exposure.Some? <==> totalBars > 0)
            && (m.exposure.Some? ==> m.exposure.value * totalBars as real == barsInMarket as real)
  {
    WinsAreWon(trades);
    ResultsAddUp(trades);
    SlippageIsPaid(trades);
    AverageIsMean(trades);
    AverageIsMean(Wins(trades));
    AverageIsMean(Losses(trades));
    hide SumOf, Wins, Losses, Won, Lost, Average, DrawdownOf, SlippagePaid, Winners;
    if Lost(trades) < 0.0 {
      QuotientAgainst(Won(trades), -Lost(trades));
    }
    if curve != [] && initialCapital > 0.0 {
      QuotientAgainst(curve[|curve| - 1] - initialCapital, initialCapital);
    }
    if totalBars > 0 {
      QuotientAgainst(barsInMarket as real, totalBars as real);
    }
  }
}
