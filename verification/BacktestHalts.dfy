/** Halts, cooldowns and the order of trades over whole replays. */
module BacktestHalts {
  import opened Wrappers
  import opened Fills
  import opened PositionSizing
  import opened RiskEngine
  import opened Books
  import opened Simulator
  import opened SimulatorProofs
  import opened Backtest
  import opened BacktestProofs
  import opened BacktestShapes
  import opened BacktestTrades

  // --- Halts ----------------------------------------------------------

  /** Nothing is open and an account-level limit has been reached, as of the last peak update. */
  ghost predicate HaltedFlat(plan: Plan, v: Venue, prices: Prices) {
    && v.book.positions == []
    && CheckAccountHalts(plan.risk, AccountStateOf(v.book, prices)).Some?
    && v.book.peakEquity >= v.book.cash
  }

  /** A flat account looks the same to the risk engine at any prices. */
  lemma {:induction false} FlatAccount(b: Book, prices: Prices, other: Prices)
    requires b.positions == []
    ensures AccountStateOf(b, prices) == AccountStateOf(b, other)
    ensures Equity(b, prices) == b.cash
  {
  }

  lemma {:induction false} HaltRefuses(plan: Plan, v: Venue, d: StrategyDecision, bar: HistoricalBar)
    requires plan.InRange() && HaltedFlat(plan, v, PricesAt(plan, bar))
    ensures AssessmentAt(plan, v, d, bar).Halted?
  {
    hide CheckAccountHalts, CheckTradeConditions, CalculatePositionSize, AccountStateOf;
  }

  /** A bar changes nothing of a halted flat account but the count of refusals. */
  lemma {:induction false} HaltedBar(
      plan: Plan, v: Venue, prices: Prices, decision: Option<StrategyDecision>, bar: HistoricalBar)
    requires plan.InRange() && HaltedFlat(plan, v, prices)
    ensures AfterBar(plan, v, decision, bar).Ok?
    ensures AfterBar(plan, v, decision, bar).value.book == v.book
    ensures HaltedFlat(plan, AfterBar(plan, v, decision, bar).value, PricesAt(plan, bar))
    ensures Equity(v.book, PricesAt(plan, bar)) == v.book.cash
  {
    FlatAccount(v.book, prices, PricesAt(plan, bar));
    var exited := AfterExits(plan, v, bar);
    assert exited == v;
    if decision.Some? {
      HaltRefuses(plan, v, decision.value, bar);
      hide CheckAccountHalts, Evaluate, AccountStateOf, ClosePosition, OpenPosition;
    }
  }

  /**
   * Once a bar ends flat with an account-level halt, nothing is ever traded again: whatever the
   * strategy asks, the book, and with it the ledger and the equity, stays as it is to the end.
   */
  lemma {:induction false} HaltsAreAbsorbing(plan: Plan, strategy: Strategy, bars: seq<HistoricalBar>, k: nat, n: nat)
    requires plan.InRange() && 0 < k <= n <= |bars|
    requires StateAfter(plan, strategy, bars, k).Ok?
    requires HaltedFlat(plan, StateAfter(plan, strategy, bars, k).value, PricesAt(plan, bars[k - 1]))
    ensures StateAfter(plan, strategy, bars, n).Ok?
    ensures StateAfter(plan, strategy, bars, n).value.book == StateAfter(plan, strategy, bars, k).value.book
    ensures HaltedFlat(plan, StateAfter(plan, strategy, bars, n).value, PricesAt(plan, bars[n - 1]))
    decreases n
  {
    hide AfterBar, HaltedFlat;
    if k < n {
      HaltsAreAbsorbing(plan, strategy, bars, k, n - 1);
      var v := StateAfter(plan, strategy, bars, n - 1).value;
      HaltedBar(plan, v, PricesAt(plan, bars[n - 2]), strategy(bars[..n]), bars[n - 1]);
    }
  }

  /** The peak recorded at the end of a bar is at least the equity there. */
  lemma {:induction false} PeakCoversCash(plan: Plan, strategy: Strategy, bars: seq<HistoricalBar>, k: nat)
    requires 0 < k <= |bars| && StateAfter(plan, strategy, bars, k).Ok?
    requires StateAfter(plan, strategy, bars, k).value.book.positions == []
    ensures var b := StateAfter(plan, strategy, bars, k).value.book;
            b.peakEquity >= b.cash
  {
    hide Applied, AfterExits;
  }

  /** From a halt on, every remaining point of the equity curve is the same. */
  lemma {:induction false} CurveIsFlatAfterAHalt(
      plan: Plan, strategy: Strategy, bars: seq<HistoricalBar>, k: nat, n: nat, i: nat)
    requires plan.InRange() && 0 < k <= i <= n <= |bars|
    requires StateAfter(plan, strategy, bars, n).Ok? && StateAfter(plan, strategy, bars, k).Ok?
    requires StateAfter(plan, strategy, bars, k).value.book.positions == []
    requires var b := StateAfter(plan, strategy, bars, k).value.book;
             CheckAccountHalts(plan.risk, AccountStateOf(b, PricesAt(plan, bars[k - 1]))).Some?
    ensures CurveAfter(plan, strategy, bars, n)[i - 1] == StateAfter(plan, strategy, bars, k).value.book.cash
    decreases n
  {
    hide StateAfter, AfterBar, CheckAccountHalts, AccountStateOf, Equity;
    PeakCoversCash(plan, strategy, bars, k);
    EarlierIsOk(plan, strategy, bars, n - 1, n);
    HaltsAreAbsorbing(plan, strategy, bars, k, i);
    if i < n {
      CurveIsFlatAfterAHalt(plan, strategy, bars, k, n - 1, i);
    } else {
      FlatAccount(StateAfter(plan, strategy, bars, n).value.book, PricesAt(plan, bars[n - 1]), map[]);
    }
  }

  /** A run halted flat after some bar ends with the trades and the equity it had there. */
  lemma {:induction false} NothingTradesAfterAHalt(plan: Plan, strategy: Strategy, bars: seq<HistoricalBar>, k: nat)
    requires plan.InRange() && 0 < k <= |bars| && StateAfter(plan, strategy, bars, k).Ok?
    requires StateAfter(plan, strategy, bars, k).value.book.positions == []
    requires var b := StateAfter(plan, strategy, bars, k).value.book;
             CheckAccountHalts(plan.risk, AccountStateOf(b, PricesAt(plan, bars[k - 1]))).Some?
    ensures ResultOf(plan, strategy, bars).Ok?
    ensures var r, b := ResultOf(plan, strategy, bars).value, StateAfter(plan, strategy, bars, k).value.book;
            r.trades == b.closed && r.finalEquity == b.cash
  {
    hide StateAfter, AfterBar, CheckAccountHalts, AccountStateOf, Equity, CurveAfter, BarsInMarket;
    PeakCoversCash(plan, strategy, bars, k);
    HaltsAreAbsorbing(plan, strategy, bars, k, |bars|);
    var v := StateAfter(plan, strategy, bars, |bars|).value;
    assert SymbolsOf(v.book.positions) == [];
    FlatAccount(v.book, PricesAt(plan, bars[|bars| - 1]), map[]);
  }

  // --- Order and spacing of trades --------------------------------------

  ghost predicate IncreasingTimes(bars: seq<HistoricalBar>) {
    forall i, j :: 0 <= i < j < |bars| ==> bars[i].time < bars[j].time
  }

  function Cooldown(plan: Plan): int {
    plan.risk.cooldownPeriodSeconds * MICROSECONDS
  }

  /** Trades follow one another, each entered at least the cooldown after the exit before it. */
  ghost predicate Spaced(plan: Plan, closed: seq<Trade>) {
    && (forall i :: 0 <= i < |closed| ==> closed[i].entryTime <= closed[i].exitTime)
    && (forall i, j :: 0 <= i < j < |closed| ==> closed[i].exitTime + Cooldown(plan) <= closed[j].entryTime)
  }

  /** The venue at a moment not after `now`, with its last exit on record. */
  ghost predicate Timed(plan: Plan, v: Venue, now: int) {
    && Spaced(plan, v.book.closed)
    && (forall t <- v.book.closed :: t.exitTime <= now)
    && (forall p <- v.book.positions :: p.entryTime <= now)
    && (forall p <- v.book.positions, t <- v.book.closed :: t.exitTime + Cooldown(plan) <= p.entryTime)
    && (v.book.closed != [] ==>
          plan.symbol in v.lastExit
          && forall t <- v.book.closed :: t.exitTime <= v.lastExit[plan.symbol])
    && (plan.symbol in v.lastExit ==> v.lastExit[plan.symbol] <= now)
  }

  lemma {:induction false} SecondsAreEnough(from: int, to: int, seconds: int)
    requires from <= to && SecondsBetween(from, to) >= seconds
    ensures from + seconds * MICROSECONDS <= to
  {
  }

  lemma {:induction false} KeptTimed(plan: Plan, v: Venue, w: Venue, now: int, later: int)
    requires Timed(plan, v, now) && Kept(v, w) && now <= later
    ensures Timed(plan, w, later)
  {
    forall q <- w.book.positions ensures exists p <- v.book.positions :: p.entryTime == q.entryTime {
      var i :| 0 <= i < |w.book.positions| && w.book.positions[i] == q;
      assert SameHolding(v.book.positions[i], q);
    }
  }

  lemma {:induction false} ExitedTimed(plan: Plan, v: Venue, w: Venue, reference: real, now: int, reason: string)
    requires plan.risk.cooldownPeriodSeconds >= 0
    requires Timed(plan, v, now) && Exited(plan, v, w, reference, now, reason)
    ensures Timed(plan, w, now)
  {
    var p, t := v.book.positions[0], w.book.closed[|v.book.closed|];
    assert w.book.closed == v.book.closed + [t];
    assert p in v.book.positions;
  }

  /** No approval comes sooner than the cooldown after the exit on record. */
  lemma {:induction false} ApprovedAfterCooldown(plan: Plan, v: Venue, d: StrategyDecision, bar: HistoricalBar)
    requires plan.InRange() && AssessmentAt(plan, v, d, bar).Approved?
    requires plan.symbol in v.lastExit && v.lastExit[plan.symbol] <= bar.time
    ensures v.lastExit[plan.symbol] + Cooldown(plan) <= bar.time
  {
    hide CalculatePositionSize, CheckAccountHalts, AccountStateOf, SecondsBetween;
    SecondsAreEnough(v.lastExit[plan.symbol], bar.time, plan.risk.cooldownPeriodSeconds);
  }

  lemma {:induction false} BoughtTimed(plan: Plan, v: Venue, w: Venue, d: StrategyDecision, bar: HistoricalBar)
    requires plan.InRange() && Timed(plan, v, bar.time) && Bought(plan, v, w, d, bar)
    ensures Timed(plan, w, bar.time)
  {
    hide AssessmentAt, ApplySlippage;
    if plan.symbol in v.lastExit {
      ApprovedAfterCooldown(plan, v, d, bar);
    }
    assert w.book.positions == [w.book.positions[0]];
  }

  lemma {:induction false} ExitsTimed(plan: Plan, v: Venue, bar: HistoricalBar)
    requires plan.InRange() && AtMostOne(plan, v) && Timed(plan, v, bar.time)
    ensures Timed(plan, AfterExits(plan, v, bar), bar.time)
  {
    hide AfterExits, Kept, Exited, Timed;
    var w := AfterExits(plan, v, bar);
    ExitsShape(plan, v, bar);
    if Kept(v, w) {
      KeptTimed(plan, v, w, bar.time, bar.time);
    } else {
      var p := v.book.positions[0];
      if p.stopLoss.Some? && Exited(plan, v, w, p.stopLoss.value, bar.time, STOP_LOSS) {
        ExitedTimed(plan, v, w, p.stopLoss.value, bar.time, STOP_LOSS);
      } else {
        ExitedTimed(plan, v, w, p.takeProfit.value, bar.time, TAKE_PROFIT);
      }
    }
  }

  lemma {:induction false} DecisionTimed(plan: Plan, v: Venue, d: StrategyDecision, bar: HistoricalBar)
    requires plan.InRange() && AtMostOne(plan, v) && Timed(plan, v, bar.time) && Applied(plan, v, d, bar).Ok?
    ensures Timed(plan, Applied(plan, v, d, bar).value, bar.time)
  {
    hide Applied, Kept, Exited, Bought, Timed, AtMostOne;
    var w := Applied(plan, v, d, bar).value;
    AppliedShape(plan, v, d, bar);
    if Kept(v, w) {
      KeptTimed(plan, v, w, bar.time, bar.time);
    } else if Exited(plan, v, w, bar.close, bar.time, ReasonOf(d)) {
      ExitedTimed(plan, v, w, bar.close, bar.time, ReasonOf(d));
    } else {
      BoughtTimed(plan, v, w, d, bar);
    }
  }

  lemma {:induction false} BarTimed(
      plan: Plan, v: Venue, decision: Option<StrategyDecision>, bar: HistoricalBar, now: int)
    requires plan.InRange() && AtMostOne(plan, v) && AtMostOne(plan, AfterExits(plan, v, bar))
    requires Timed(plan, v, bar.time) && bar.time <= now && AfterBar(plan, v, decision, bar).Ok?
    ensures Timed(plan, AfterBar(plan, v, decision, bar).value, now)
  {
    hide Timed, AtMostOne, Applied, AfterExits, PeakAt, Kept;
    ExitsTimed(plan, v, bar);
    var asked := AfterExits(plan, v, bar);
    if decision.Some? {
      DecisionTimed(plan, asked, decision.value, bar);
    }
    var acted := if decision.None? then asked else Applied(plan, asked, decision.value, bar).value;
    PeakKeeps(acted, plan.symbol, bar.close);
    KeptTimed(plan, acted, PeakAt(acted, plan.symbol, bar.close), bar.time, now);
  }

  lemma {:induction false} AccountedIsAtMostOne(
      plan: Plan, strategy: Strategy, bars: seq<HistoricalBar>, v: Venue, mark: real, bar: HistoricalBar)
    requires plan.InRange() && Accounted(plan, strategy, bars, v, mark) && bar in bars
    ensures AtMostOne(plan, v) && AtMostOne(plan, AfterExits(plan, v, bar))
  {
    hide AfterExits, AtMostOne, Sound;
    ExitsAccounted(plan, strategy, bars, v, mark, bar);
  }

  lemma {:induction false} EveryStateIsTimed(plan: Plan, strategy: Strategy, bars: seq<HistoricalBar>, k: nat, now: int)
    requires plan.InRange() && IncreasingTimes(bars) && k <= |bars|
    requires StateAfter(plan, strategy, bars, k).Ok? && (k > 0 ==> bars[k - 1].time <= now)
    ensures Timed(plan, StateAfter(plan, strategy, bars, k).value, now)
    decreases k
  {
    hide AfterBar, Accounted, AtMostOne, AfterExits;
    if k > 0 {
      hide Timed;
      var bar, v := bars[k - 1], StateAfter(plan, strategy, bars, k - 1).value;
      EveryStateIsTimed(plan, strategy, bars, k - 1, bar.time);
      EveryStateIsAccounted(plan, strategy, bars, k - 1);
      AccountedIsAtMostOne(plan, strategy, bars, v, MarkAfter(bars, k - 1), bar);
      BarTimed(plan, v, strategy(bars[..k]), bar, now);
    }
  }

  /**
   * With increasing bar times the trades of a run do not overlap, and each is entered at least the
   * cooldown after the exit of every one before it.
   */
  lemma {:induction false} TradesAreSpaced(plan: Plan, strategy: Strategy, bars: seq<HistoricalBar>)
    requires plan.InRange() && IncreasingTimes(bars)
    requires ResultOf(plan, strategy, bars).Ok? && bars[|bars| - 1].close > 0.0
    ensures Spaced(plan, ResultOf(plan, strategy, bars).value.trades)
  {
    var last := bars[|bars| - 1];
    var v := StateAfter(plan, strategy, bars, |bars|).value;
    EveryStateIsAccounted(plan, strategy, bars, |bars|);
    EveryStateIsTimed(plan, strategy, bars, |bars|, last.time);
    EndShape(plan, v, last);
    hide StateAfter, Ended, AtMostOne, Exited, Spaced, Sound, Traded, Holding;
    if v.book.positions != [] {
      ExitedTimed(plan, v, Ended(plan, v, last), last.close, last.time, BACKTEST_END);
    }
  }
}
