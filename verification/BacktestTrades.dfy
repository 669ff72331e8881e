/** Where every trade of a replay comes from, and what it can lose. */
module BacktestTrades {
  import opened Wrappers
  import opened Fills
  import opened RiskEngine
  import opened Books
  import opened Simulator
  import opened SimulatorProofs
  import opened Backtest
  import opened BacktestShapes

  /** The venue at bar `j` when the strategy is asked, its exits already taken. */
  function VenueAsked(plan: Plan, strategy: Strategy, bars: seq<HistoricalBar>, j: nat): Venue
    requires j < |bars| && StateAfter(plan, strategy, bars, j).Ok?
  {
    AfterExits(plan, StateAfter(plan, strategy, bars, j).value, bars[j])
  }

  /** The decision at bar `j` was a buy of `quantity` that the risk engine approved. */
  ghost predicate ApprovedAt(plan: Plan, strategy: Strategy, bars: seq<HistoricalBar>, j: nat, quantity: real) {
    && j < |bars| && StateAfter(plan, strategy, bars, j).Ok?
    && strategy(bars[..j + 1]).Some?
    && ApprovedFor(plan, VenueAsked(plan, strategy, bars, j), strategy(bars[..j + 1]).value, bars[j], quantity)
    && strategy(bars[..j + 1]).value.stopPrice.Some?
  }

  function StopAt(strategy: Strategy, bars: seq<HistoricalBar>, j: nat): real
    requires j < |bars| && strategy(bars[..j + 1]).Some? && strategy(bars[..j + 1]).value.stopPrice.Some?
  {
    strategy(bars[..j + 1]).value.stopPrice.value
  }

  /** What was bought at bar `j`, at what price and for what fee. */
  ghost predicate EntryAt(plan: Plan, strategy: Strategy, bars: seq<HistoricalBar>, j: nat,
                          quantity: real, entryPrice: real, entryTime: int)
  {
    && ApprovedAt(plan, strategy, bars, j, quantity)
    && entryTime == bars[j].time
    && entryPrice == ApplySlippage(bars[j].close, Buy, plan.slippageBps)
  }

  /** Every bar closes at or above its low. */
  ghost predicate ClosesAboveLows(bars: seq<HistoricalBar>) {
    forall bar <- bars :: bar.low <= bar.close
  }

  /** On these bars the strategy does not pass its own exits off as stops. */
  ghost predicate NeverLabelsStops(strategy: Strategy, bars: seq<HistoricalBar>) {
    forall k :: 0 < k <= |bars| && strategy(bars[..k]).Some? ==> strategy(bars[..k]).value.reason != STOP_LOSS
  }

  /** The exit did not take its profit, and no exit of its kind is below the stop asked for at entry. */
  ghost predicate Guarded(strategy: Strategy, bars: seq<HistoricalBar>, reason: string) {
    reason != TAKE_PROFIT && (ClosesAboveLows(bars) || (reason == STOP_LOSS && NeverLabelsStops(strategy, bars)))
  }

  /**
   * `p` was bought at bar `j`; its stop is no lower than the one asked for there, which the market,
   * now at `mark`, has not fallen through.
   */
  ghost predicate HeldFrom(
      plan: Plan, strategy: Strategy, bars: seq<HistoricalBar>, j: nat, p: Position, mark: real)
  {
    && EntryAt(plan, strategy, bars, j, p.quantity, p.entryPrice, p.entryTime)
    && p.feesPaid == plan.feeRate * (p.quantity * p.entryPrice)
    && p.stopLoss.Some? && p.stopLoss.value >= StopAt(strategy, bars, j)
    && (ClosesAboveLows(bars) ==> StopAt(strategy, bars, j) <= mark || StopAt(strategy, bars, j) <= 0.0)
  }

  /**
   * `t` was bought at bar `j` and sold whole at `reference` less slippage, both fees charged on the
   * one quantity; if the exit is guarded, the reference is no lower than the stop asked for at entry.
   */
  ghost predicate TradedFrom(
      plan: Plan, strategy: Strategy, bars: seq<HistoricalBar>, j: nat, reference: real, t: Trade)
  {
    && EntryAt(plan, strategy, bars, j, t.quantity, t.entryPrice, t.entryTime)
    && t.symbol == plan.symbol
    && reference > 0.0 && t.exitPrice == ApplySlippage(reference, Sell, plan.slippageBps)
    && t.fees == plan.feeRate * (t.quantity * t.entryPrice) + plan.feeRate * (t.quantity * t.exitPrice)
    && t.grossPnl == (t.exitPrice - t.entryPrice) * t.quantity
    && t.netPnl == t.grossPnl - t.fees
    && (Guarded(strategy, bars, t.exitReason) ==> reference >= StopAt(strategy, bars, j))
  }

  ghost predicate Holding(plan: Plan, strategy: Strategy, bars: seq<HistoricalBar>, p: Position, mark: real) {
    exists j :: HeldFrom(plan, strategy, bars, j, p, mark)
  }

  ghost predicate Traded(plan: Plan, strategy: Strategy, bars: seq<HistoricalBar>, t: Trade) {
    exists j, reference :: TradedFrom(plan, strategy, bars, j, reference, t)
  }

  /** Each holding and each trade of the venue goes back to an approved entry of this run. */
  ghost predicate Accounted(plan: Plan, strategy: Strategy, bars: seq<HistoricalBar>, v: Venue, mark: real) {
    && Sound(v) && AtMostOne(plan, v)
    && (forall p <- v.book.positions :: Holding(plan, strategy, bars, p, mark))
    && (forall t <- v.book.closed :: Traded(plan, strategy, bars, t))
  }

  // --- One bar keeps the account of where everything came from ----------

  lemma {:induction false} KeptAccounted(
      plan: Plan, strategy: Strategy, bars: seq<HistoricalBar>, v: Venue, w: Venue, mark: real)
    requires Accounted(plan, strategy, bars, v, mark) && Sound(w) && Kept(v, w)
    ensures Accounted(plan, strategy, bars, w, mark)
  {
    hide EntryAt, Sound, OnGrid, TradedFrom, ClosesAboveLows;
    if v.book.positions != [] {
      var p, q := v.book.positions[0], w.book.positions[0];
      assert SameHolding(p, q) && Holding(plan, strategy, bars, p, mark);
      var j :| HeldFrom(plan, strategy, bars, j, p, mark);
      assert HeldFrom(plan, strategy, bars, j, q, mark);
    }
  }

  /** A bar that did not hit the stop has not closed through the stop asked for at entry either. */
  lemma {:induction false} MarkMoves(
      plan: Plan, strategy: Strategy, bars: seq<HistoricalBar>, v: Venue, mark: real, bar: HistoricalBar)
    requires Accounted(plan, strategy, bars, v, mark) && bar in bars && StopNotHit(v, bar)
    ensures Accounted(plan, strategy, bars, v, bar.close)
  {
    hide EntryAt, Sound, OnGrid, TradedFrom;
    forall p <- v.book.positions ensures Holding(plan, strategy, bars, p, bar.close) {
      var j :| HeldFrom(plan, strategy, bars, j, p, mark);
      assert HeldFrom(plan, strategy, bars, j, p, bar.close);
    }
  }

  lemma {:induction false} ExitedAccounted(plan: Plan, strategy: Strategy, bars: seq<HistoricalBar>, v: Venue, w: Venue,
                                           reference: real, time: int, reason: string, mark: real)
    requires Accounted(plan, strategy, bars, v, mark) && Sound(w) && Exited(plan, v, w, reference, time, reason)
    requires || reason == TAKE_PROFIT || v.book.positions[0].stopLoss == Some(reference)
             || (reference == mark && (NeverLabelsStops(strategy, bars) ==> reason != STOP_LOSS))
    ensures forall m: real :: Accounted(plan, strategy, bars, w, m)
  {
    hide EntryAt, Sound, OnGrid, ApplySlippage, ClosesAboveLows, NeverLabelsStops;
    var p, t := v.book.positions[0], w.book.closed[|v.book.closed|];
    assert Holding(plan, strategy, bars, p, mark);
    var j :| HeldFrom(plan, strategy, bars, j, p, mark);
    assert TradedFrom(plan, strategy, bars, j, reference, t);
    assert w.book.closed == v.book.closed + [t];
  }

  lemma {:induction false} BoughtAccounted(
      plan: Plan, strategy: Strategy, bars: seq<HistoricalBar>, k: nat, v: Venue, w: Venue)
    requires plan.InRange()
    requires k < |bars| && StateAfter(plan, strategy, bars, k).Ok? && v == VenueAsked(plan, strategy, bars, k)
    requires strategy(bars[..k + 1]).Some?
    requires Accounted(plan, strategy, bars, v, bars[k].close) && Sound(w)
    requires Bought(plan, v, w, strategy(bars[..k + 1]).value, bars[k])
    ensures Accounted(plan, strategy, bars, w, bars[k].close)
  {
    hide StateAfter, AfterExits, AssessmentAt, ApplySlippage, TradedFrom, OnGrid, ClosesAboveLows;
    var d := strategy(bars[..k + 1]).value;
    ApprovedFillsInFull(plan, v, d, bars[k]);
    assert HeldFrom(plan, strategy, bars, k, w.book.positions[0], bars[k].close);
  }

  lemma {:induction false} AppliedIsSound(plan: Plan, v: Venue, d: StrategyDecision, bar: HistoricalBar)
    requires plan.InRange() && Sound(v) && Applied(plan, v, d, bar).Ok?
    ensures Sound(Applied(plan, v, d, bar).value)
  {
    hide Sound, ClosePosition, OpenPosition, EvaluateEntry, AccountStateOf;
    var setup := plan.VenueSetup();
    var entry, prices := EntryOf(plan, d, bar), PricesAt(plan, bar);
    var (asked, assessment) := EvaluateEntry(setup, v, entry, prices, bar.time, HEALTHY_SYSTEM);
    CloseIsSound(setup, v, plan.symbol, bar.close, bar.time, ReasonOf(d), plan.filters.stepSize);
    AskIsSound(setup, v, entry, prices, bar.time, HEALTHY_SYSTEM);
    if OpenPosition(setup, asked, assessment, OrderOf(plan, d, bar)).Ok? {
      OpenIsSound(setup, asked, assessment, OrderOf(plan, d, bar));
    }
  }

  lemma {:induction false} AskIsSound(setup: Setup, v: Venue, e: Entry, prices: Prices, now: int, system: SystemState)
    requires Sound(v)
    ensures Sound(EvaluateEntry(setup, v, e, prices, now, system).0)
  {
  }

  lemma {:induction false} PeakKeeps(v: Venue, symbol: string, close: real)
    ensures Kept(v, PeakAt(v, symbol, close))
    ensures Sound(v) ==> Sound(PeakAt(v, symbol, close))
  {
  }

  lemma {:induction false} ExitsAccounted(
      plan: Plan, strategy: Strategy, bars: seq<HistoricalBar>, v: Venue, mark: real, bar: HistoricalBar)
    requires plan.InRange() && Accounted(plan, strategy, bars, v, mark) && bar in bars
    ensures Accounted(plan, strategy, bars, AfterExits(plan, v, bar), bar.close)
  {
    var w := AfterExits(plan, v, bar);
    hide Kept, Exited, ProcessBar, HeldFrom, TradedFrom, OnGrid, StopNotHit;
    BarIsSound(plan.VenueSetup(), v, BarOf(plan, bar), plan.filters.stepSize);
    hide Sound;
    ExitsShape(plan, v, bar);
    if Kept(v, w) && StopNotHit(v, bar) {
      MarkMoves(plan, strategy, bars, v, mark, bar);
      KeptAccounted(plan, strategy, bars, v, w, bar.close);
    } else {
      var p := v.book.positions[0];
      if p.stopLoss.Some? && Exited(plan, v, w, p.stopLoss.value, bar.time, STOP_LOSS) {
        ExitedAccounted(plan, strategy, bars, v, w, p.stopLoss.value, bar.time, STOP_LOSS, mark);
      } else {
        ExitedAccounted(plan, strategy, bars, v, w, p.takeProfit.value, bar.time, TAKE_PROFIT, mark);
      }
    }
  }

  lemma {:induction false} DecisionAccounted(plan: Plan, strategy: Strategy, bars: seq<HistoricalBar>, k: nat)
    requires plan.InRange()
    requires k < |bars| && StateAfter(plan, strategy, bars, k).Ok? && strategy(bars[..k + 1]).Some?
    requires Accounted(plan, strategy, bars, VenueAsked(plan, strategy, bars, k), bars[k].close)
    requires Applied(plan, VenueAsked(plan, strategy, bars, k), strategy(bars[..k + 1]).value, bars[k]).Ok?
    ensures Accounted(plan, strategy, bars,
                      Applied(plan, VenueAsked(plan, strategy, bars, k), strategy(bars[..k + 1]).value, bars[k]).value,
                      bars[k].close)
  {
    hide Kept, Exited, Bought, Applied, StateAfter, VenueAsked, HeldFrom, TradedFrom, Sound, OnGrid;
    var v, d := VenueAsked(plan, strategy, bars, k), strategy(bars[..k + 1]).value;
    var w := Applied(plan, v, d, bars[k]).value;
    AppliedIsSound(plan, v, d, bars[k]);
    AppliedShape(plan, v, d, bars[k]);
    if Kept(v, w) {
      KeptAccounted(plan, strategy, bars, v, w, bars[k].close);
    } else if Exited(plan, v, w, bars[k].close, bars[k].time, ReasonOf(d)) {
      ExitedAccounted(plan, strategy, bars, v, w, bars[k].close, bars[k].time, ReasonOf(d), bars[k].close);
    } else {
      BoughtAccounted(plan, strategy, bars, k, v, w);
    }
  }

  /** The close that a venue after `k` bars has last been marked at. */
  ghost function MarkAfter(bars: seq<HistoricalBar>, k: nat): real
    requires k <= |bars|
  {
    if k == 0 then 0.0 else bars[k - 1].close
  }

  lemma {:induction false} NothingIsAccounted(plan: Plan, strategy: Strategy, bars: seq<HistoricalBar>, mark: real)
    requires plan.InRange()
    ensures Accounted(plan, strategy, bars, NewVenue(plan.initialCapital), mark)
  {
    NewBookIsBalanced(plan.initialCapital);
  }

  lemma {:induction false} BarAccounted(plan: Plan, strategy: Strategy, bars: seq<HistoricalBar>, k: nat, mark: real)
    requires plan.InRange() && k < |bars| && StateAfter(plan, strategy, bars, k).Ok?
    requires Accounted(plan, strategy, bars, StateAfter(plan, strategy, bars, k).value, mark)
    requires AfterBar(plan, StateAfter(plan, strategy, bars, k).value, strategy(bars[..k + 1]), bars[k]).Ok?
    ensures Accounted(plan, strategy, bars,
                      AfterBar(plan, StateAfter(plan, strategy, bars, k).value, strategy(bars[..k + 1]), bars[k]).value,
                      bars[k].close)
  {
    hide Accounted, StateAfter, Applied, AfterExits, PeakAt;
    var d := strategy(bars[..k + 1]);
    ExitsAccounted(plan, strategy, bars, StateAfter(plan, strategy, bars, k).value, mark, bars[k]);
    var asked := VenueAsked(plan, strategy, bars, k);
    if d.Some? {
      DecisionAccounted(plan, strategy, bars, k);
    }
    var acted := if d.None? then asked else Applied(plan, asked, d.value, bars[k]).value;
    PeakAccounted(plan, strategy, bars, acted, bars[k].close);
  }

  /** At every bar of every run each holding and each trade goes back to an approved entry. */
  lemma {:induction false} EveryStateIsAccounted(plan: Plan, strategy: Strategy, bars: seq<HistoricalBar>, k: nat)
    requires plan.InRange() && k <= |bars| && StateAfter(plan, strategy, bars, k).Ok?
    ensures Accounted(plan, strategy, bars, StateAfter(plan, strategy, bars, k).value, MarkAfter(bars, k))
    decreases k
  {
    hide Accounted, AfterBar, NewVenue;
    if k == 0 {
      NothingIsAccounted(plan, strategy, bars, MarkAfter(bars, 0));
    } else {
      EveryStateIsAccounted(plan, strategy, bars, k - 1);
      assert bars[..k - 1 + 1] == bars[..k];
      BarAccounted(plan, strategy, bars, k - 1, MarkAfter(bars, k - 1));
    }
  }

  lemma {:induction false} PeakAccounted(
      plan: Plan, strategy: Strategy, bars: seq<HistoricalBar>, v: Venue, close: real)
    requires Accounted(plan, strategy, bars, v, close)
    ensures Accounted(plan, strategy, bars, PeakAt(v, plan.symbol, close), close)
  {
    PeakKeeps(v, plan.symbol, close);
    KeptAccounted(plan, strategy, bars, v, PeakAt(v, plan.symbol, close), close);
  }

  // --- The forced close ------------------------------------------------

  lemma {:induction false} EndShape(plan: Plan, v: Venue, last: HistoricalBar)
    requires plan.InRange() && AtMostOne(plan, v) && last.close > 0.0
    ensures var w := Ended(plan, v, last);
            if v.book.positions == [] then w == v else Exited(plan, v, w, last.close, last.time, BACKTEST_END)
  {
    var setup, prices := plan.VenueSetup(), PricesAt(plan, last);
    var symbols := SymbolsOf(v.book.positions);
    if |v.book.positions| == 1 {
      var p := v.book.positions[0];
      FindOnly(v.book.positions, plan.symbol);
      assert symbols == [plan.symbol] && symbols[1..] == [];
      GridQuantityFillsInFull(p.quantity, last.close, Sell, plan.feeRate, plan.slippageBps, None);
      hide SimulateFill, ApplySlippage, OnGrid;
      assert CloseEach(setup, v, symbols, prices, last.time, BACKTEST_END).0 ==
             ClosePosition(setup, v, plan.symbol, last.close, last.time, BACKTEST_END, None).0;
    }
  }

  lemma {:induction false} EndAccounted(
      plan: Plan, strategy: Strategy, bars: seq<HistoricalBar>, v: Venue, last: HistoricalBar)
    requires plan.InRange() && Accounted(plan, strategy, bars, v, last.close) && last.close > 0.0
    ensures Accounted(plan, strategy, bars, Ended(plan, v, last), last.close)
    ensures Ended(plan, v, last).book.positions == []
  {
    EndShape(plan, v, last);
    CloseEachIsSound(plan.VenueSetup(), v, SymbolsOf(v.book.positions), PricesAt(plan, last), last.time, BACKTEST_END);
    hide Sound, CloseEach, Exited;
    if v.book.positions != [] {
      ExitedAccounted(plan, strategy, bars, v, Ended(plan, v, last), last.close, last.time, BACKTEST_END, last.close);
      ExitedIsFlat(plan, v, Ended(plan, v, last), last.close, last.time, BACKTEST_END);
    }
  }

  lemma {:induction false} ExitedIsFlat(plan: Plan, v: Venue, w: Venue, reference: real, time: int, reason: string)
    requires Exited(plan, v, w, reference, time, reason)
    ensures w.book.positions == []
  {
  }
}
