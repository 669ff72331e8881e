/** What the replay promises over whole runs, for any strategy. */
module BacktestProofs {
  import opened Wrappers
  import opened Fills
  import opened RiskEngine
  import opened Books
  import opened Simulator
  import opened SimulatorProofs
  import opened Backtest

  // --- No look-ahead --------------------------------------------------

  /** The venue after a bar depends on nothing later than that bar. */
  lemma {:induction false} StateOfPrefix(plan: Plan, strategy: Strategy, bars: seq<HistoricalBar>, m: nat, k: nat)
    requires k <= m <= |bars|
    ensures StateAfter(plan, strategy, bars[..m], k) == StateAfter(plan, strategy, bars, k)
    decreases k
  {
    hide AfterBar;
    if k > 0 {
      StateOfPrefix(plan, strategy, bars, m, k - 1);
      assert bars[..m][..k] == bars[..k];
    }
  }

  lemma {:induction false} EarlierIsOk(plan: Plan, strategy: Strategy, bars: seq<HistoricalBar>, k: nat, n: nat)
    requires k <= n <= |bars| && StateAfter(plan, strategy, bars, n).Ok?
    ensures StateAfter(plan, strategy, bars, k).Ok?
    decreases n
  {
    hide AfterBar;
    if k < n {
      EarlierIsOk(plan, strategy, bars, k, n - 1);
    }
  }

  lemma {:induction false} BarAppends(plan: Plan, v: Venue, decision: Option<StrategyDecision>, bar: HistoricalBar)
    requires AfterBar(plan, v, decision, bar).Ok?
    ensures v.book.closed <= AfterBar(plan, v, decision, bar).value.book.closed
    ensures AfterBar(plan, v, decision, bar).value.book.initialBalance == v.book.initialBalance
  {
    hide ProcessBar, ClosePosition, Evaluate, EntryFill, Equity, Find;
    var setup, exited := plan.VenueSetup(), AfterExits(plan, v, bar);
    ClosedTradesAreNeverRewritten(setup, v, OnBar(BarOf(plan, bar), plan.filters.stepSize));
    if decision.Some? {
      var d := decision.value;
      ClosedTradesAreNeverRewritten(
        setup, exited, Close(plan.symbol, bar.close, bar.time, if d.reason == "" then STRATEGY_EXIT else d.reason,
                             plan.filters.stepSize));
    }
  }

  lemma {:induction false} LedgerGrows(plan: Plan, strategy: Strategy, bars: seq<HistoricalBar>, k: nat, n: nat)
    requires k <= n <= |bars| && StateAfter(plan, strategy, bars, n).Ok?
    ensures StateAfter(plan, strategy, bars, k).Ok?
    ensures StateAfter(plan, strategy, bars, k).value.book.closed
        <= StateAfter(plan, strategy, bars, n).value.book.closed
    decreases n
  {
    hide AfterBar;
    if k < n {
      LedgerGrows(plan, strategy, bars, k, n - 1);
      BarAppends(plan, StateAfter(plan, strategy, bars, n - 1).value, strategy(bars[..n]), bars[n - 1]);
    }
  }

  /** The equity curve of a prefix is a prefix of the curve. */
  lemma {:induction false} CurveOfPrefix(plan: Plan, strategy: Strategy, bars: seq<HistoricalBar>, m: nat, k: nat)
    requires k <= m <= |bars| && StateAfter(plan, strategy, bars, k).Ok?
    ensures StateAfter(plan, strategy, bars[..m], k).Ok?
    ensures CurveAfter(plan, strategy, bars[..m], k) == CurveAfter(plan, strategy, bars, k)
    decreases k
  {
    hide StateAfter, AfterBar, Equity, PricesAt;
    StateOfPrefix(plan, strategy, bars, m, k);
    if k > 0 {
      EarlierIsOk(plan, strategy, bars, k - 1, k);
      CurveOfPrefix(plan, strategy, bars, m, k - 1);
      assert bars[..m][k - 1] == bars[k - 1];
    }
  }

  lemma {:induction false} CurveGrows(plan: Plan, strategy: Strategy, bars: seq<HistoricalBar>, k: nat, n: nat)
    requires k <= n <= |bars| && StateAfter(plan, strategy, bars, n).Ok?
    ensures StateAfter(plan, strategy, bars, k).Ok?
    ensures CurveAfter(plan, strategy, bars, k) <= CurveAfter(plan, strategy, bars, n)
    decreases n
  {
    hide StateAfter, AfterBar, Equity, PricesAt;
    EarlierIsOk(plan, strategy, bars, k, n);
    if k < n {
      EarlierIsOk(plan, strategy, bars, n - 1, n);
      CurveGrows(plan, strategy, bars, k, n - 1);
    }
  }

  lemma {:induction false} ShorterRunIsOk(plan: Plan, strategy: Strategy, bars: seq<HistoricalBar>, m: nat)
    requires 0 < m <= |bars| && ResultOf(plan, strategy, bars).Ok?
    ensures StateAfter(plan, strategy, bars, m).Ok? && ResultOf(plan, strategy, bars[..m]).Ok?
  {
    hide StateAfter, AfterBar, CurveAfter, BarsInMarket, Ended, Equity;
    EarlierIsOk(plan, strategy, bars, m, |bars|);
    StateOfPrefix(plan, strategy, bars, m, m);
  }

  // --- One holding at most ----------------------------------------------

  ghost predicate HoldsAtMostOne(plan: Plan, v: Venue) {
    |v.book.positions| <= 1 && forall p <- v.book.positions :: p.symbol == plan.symbol
  }

  lemma {:induction false} CloseKeepsOne(
      plan: Plan, v: Venue, reference: real, time: int, reason: string, step: Option<real>)
    requires HoldsAtMostOne(plan, v)
    ensures HoldsAtMostOne(plan, ClosePosition(plan.VenueSetup(), v, plan.symbol, reference, time, reason, step).0)
  {
    hide ExitFill, TradeOf;
  }

  lemma {:induction false} ExitsKeepOne(plan: Plan, v: Venue, bar: HistoricalBar)
    requires HoldsAtMostOne(plan, v)
    ensures HoldsAtMostOne(plan, AfterExits(plan, v, bar))
  {
    hide ClosePosition, Equity;
    var at := Find(v.book.positions, plan.symbol);
    if at.Some? {
      var watched := Watched(v, at.value, BarOf(plan, bar));
      var p := watched.book.positions[at.value];
      var exit := ExitReasonForBar(bar.high, bar.low, p.stopLoss, p.takeProfit);
      if exit.Some? {
        CloseKeepsOne(plan, watched, ExitPrice(p, exit.value), bar.time, exit.value, plan.filters.stepSize);
      }
    }
  }

  lemma {:induction false} DecisionKeepsOne(plan: Plan, v: Venue, d: StrategyDecision, bar: HistoricalBar)
    requires HoldsAtMostOne(plan, v) && Applied(plan, v, d, bar).Ok?
    ensures HoldsAtMostOne(plan, Applied(plan, v, d, bar).value)
  {
    hide ClosePosition, Evaluate, EntryFill;
    var reason := if d.reason == "" then STRATEGY_EXIT else d.reason;
    CloseKeepsOne(plan, v, bar.close, bar.time, reason, plan.filters.stepSize);
    if v.book.positions != [] {
      assert v.book.positions[0].symbol == plan.symbol;
    }
  }

  lemma {:induction false} EveryStateHoldsAtMostOne(plan: Plan, strategy: Strategy, bars: seq<HistoricalBar>, k: nat)
    requires k <= |bars| && StateAfter(plan, strategy, bars, k).Ok?
    ensures HoldsAtMostOne(plan, StateAfter(plan, strategy, bars, k).value)
    decreases k
  {
    hide Applied, AfterExits;
    if k > 0 {
      EveryStateHoldsAtMostOne(plan, strategy, bars, k - 1);
      var v, d := StateAfter(plan, strategy, bars, k - 1).value, strategy(bars[..k]);
      ExitsKeepOne(plan, v, bars[k - 1]);
      if d.Some? {
        DecisionKeepsOne(plan, AfterExits(plan, v, bars[k - 1]), d.value, bars[k - 1]);
      }
    }
  }

  // --- Shorter runs -----------------------------------------------------

  /**
   * Running on fewer bars gives the same trades and the same equity, but for its own end: the trades
   * it closed before its forced close begin the longer run's, and the forced close adds one at most.
   */
  lemma {:induction false} ShorterRunIsAPrefix(plan: Plan, strategy: Strategy, bars: seq<HistoricalBar>, m: nat)
    requires 0 < m <= |bars| && ResultOf(plan, strategy, bars).Ok?
    ensures StateAfter(plan, strategy, bars, m).Ok? && ResultOf(plan, strategy, bars[..m]).Ok?
    ensures var short, long := ResultOf(plan, strategy, bars[..m]).value, ResultOf(plan, strategy, bars).value;
            var common := StateAfter(plan, strategy, bars, m).value.book.closed;
            && common <= short.trades && common <= long.trades
            && |short.trades| <= |common| + 1
            && (forall t <- short.trades[|common|..] :: t.exitReason == BACKTEST_END && t.exitTime == bars[m - 1].time)
            && short.equityCurve[..m - 1] == long.equityCurve[..m - 1]
  {
    hide StateAfter, AfterBar, CurveAfter, BarsInMarket, Ended, Equity;
    var n := |bars|;
    ShorterRunIsOk(plan, strategy, bars, m);
    LedgerGrows(plan, strategy, bars, m, n);
    StateOfPrefix(plan, strategy, bars, m, m);
    EarlierIsOk(plan, strategy, bars, m - 1, m);
    CurveOfPrefix(plan, strategy, bars, m, m);
    CurveGrows(plan, strategy, bars, m, n);
    EveryStateHoldsAtMostOne(plan, strategy, bars, m);
    EndAppends(plan, StateAfter(plan, strategy, bars, m).value, bars[m - 1]);
    EndAppends(plan, StateAfter(plan, strategy, bars, n).value, bars[n - 1]);
  }

  lemma {:induction false} EndAppends(plan: Plan, v: Venue, last: HistoricalBar)
    ensures var end := Ended(plan, v, last);
            && v.book.closed <= end.book.closed
            && |end.book.closed| <= |v.book.closed| + |v.book.positions|
            && end.book.initialBalance == v.book.initialBalance
            && forall t <- end.book.closed[|v.book.closed|..] :: t.exitReason == BACKTEST_END && t.exitTime == last.time
  {
    hide CloseEach;
    CloseEachAppends(plan.VenueSetup(), v, SymbolsOf(v.book.positions), PricesAt(plan, last), last.time, BACKTEST_END);
    CloseEachLabels(plan.VenueSetup(), v, SymbolsOf(v.book.positions), PricesAt(plan, last), last.time, BACKTEST_END);
    CloseEachIsShort(plan.VenueSetup(), v, SymbolsOf(v.book.positions), PricesAt(plan, last), last.time, BACKTEST_END);
  }

  lemma {:induction false} CloseEachIsShort(
      setup: Setup, v: Venue, symbols: seq<string>, prices: Prices, time: int, reason: string)
    ensures |CloseEach(setup, v, symbols, prices, time, reason).1| <= |symbols|
    decreases |symbols|
  {
    hide ClosePosition, PriceOf;
    if symbols != [] {
      var at := Find(v.book.positions, symbols[0]);
      if at.None? {
        CloseEachIsShort(setup, v, symbols[1..], prices, time, reason);
      } else {
        var reference := PriceOf(prices, v.book.positions[at.value]);
        var next := ClosePosition(setup, v, symbols[0], reference, time, reason, None).0;
        CloseEachIsShort(setup, next, symbols[1..], prices, time, reason);
      }
    }
  }

  lemma {:induction false} CloseEachLabels(
      setup: Setup, v: Venue, symbols: seq<string>, prices: Prices, time: int, reason: string)
    ensures forall t <- CloseEach(setup, v, symbols, prices, time, reason).1 ::
              t.exitReason == reason && t.exitTime == time
    decreases |symbols|
  {
    if symbols != [] {
      var at := Find(v.book.positions, symbols[0]);
      hide SimulateFill, ClosedAt;
      if at.None? {
        CloseEachLabels(setup, v, symbols[1..], prices, time, reason);
      } else {
        var reference := PriceOf(prices, v.book.positions[at.value]);
        var next := ClosePosition(setup, v, symbols[0], reference, time, reason, None).0;
        CloseEachLabels(setup, next, symbols[1..], prices, time, reason);
      }
    }
  }
}
