/** What happens to a holding from the bar it is bought on to the bar it is sold on. */
module BacktestHoldings {
  import opened Wrappers
  import Sums
  import opened Fills
  import opened PositionSizing
  import opened Books
  import opened Simulator
  import opened SimulatorProofs
  import opened VenueEffects
  import opened EntryVerdicts
  import opened Backtest
  import opened BacktestTrades
  import opened BacktestDecisions

  // --- A holding over its bars --------------------------------------------------

  /** Of the bars after `j` and before `k`: the stop asked for, or the highest high less the distance. */
  ghost predicate StopOver(
      bars: seq<HistoricalBar>, j: int, k: int, asked: Option<real>, distance: Option<real>, stop: Option<real>)
    requires 0 <= j && k <= |bars|
  {
    if distance.Some? && distance.value > 0.0 && asked.Some? then
      && stop.Some? && stop.value >= asked.value
      && (forall m :: j < m < k ==> stop.value >= bars[m].high - distance.value)
      && (stop == asked || exists m :: j < m < k && stop.value == bars[m].high - distance.value)
    else
      stop == asked
  }

  /** The highest of the price paid and of the bars after `j` and before `k`. */
  ghost predicate HighOver(bars: seq<HistoricalBar>, j: int, k: int, paid: real, high: real)
    requires 0 <= j && k <= |bars|
  {
    && high >= paid && (forall m :: j < m < k ==> high >= bars[m].high)
    && (high == paid || exists m :: j < m < k && high == bars[m].high)
  }

  ghost predicate LowOver(bars: seq<HistoricalBar>, j: int, k: int, paid: real, low: real)
    requires 0 <= j && k <= |bars|
  {
    && low <= paid && (forall m :: j < m < k ==> low <= bars[m].low)
    && (low == paid || exists m :: j < m < k && low == bars[m].low)
  }

  /** The decision taken at bar `j`. */
  ghost function DecisionAt(strategy: Strategy, bars: seq<HistoricalBar>, j: nat): Option<StrategyDecision>
    requires j < |bars|
  {
    strategy(bars[..j + 1])
  }

  /** Bar `j` was a decision to buy with a stop. */
  ghost predicate BuysAt(strategy: Strategy, bars: seq<HistoricalBar>, j: nat) {
    && j < |bars| && DecisionAt(strategy, bars, j).Some?
    && DecisionAt(strategy, bars, j).value.action == BuyNow && DecisionAt(strategy, bars, j).value.stopPrice.Some?
  }

  /** `p` was bought at bar `j` as its decision asked; its stop and its excursions follow the bars since, up to `k`. */
  ghost predicate HeldOver(
      plan: Plan, strategy: Strategy, bars: seq<HistoricalBar>, j: nat, k: nat, p: Position)
  {
    && BuysAt(strategy, bars, j) && j < k <= |bars|
    && var d := DecisionAt(strategy, bars, j).value;
       && p.symbol == plan.symbol && p.quantity > 0.0 && p.entryPrice > 0.0
       && OnGrid(p.quantity, plan.filters.stepSize)
       && p.entryTime == bars[j].time && p.entryPrice == bars[j].close * (1.0 + plan.slippageBps / 10000.0)
       && p.feesPaid == plan.feeRate * (p.quantity * p.entryPrice)
       && p.takeProfit == d.takeProfit && p.trailingDistance == d.trailingDistance
       && StopOver(bars, j, k, d.stopPrice, d.trailingDistance, p.stopLoss)
       && p.highestPrice.Some? && HighOver(bars, j, k, p.entryPrice, p.highestPrice.value)
       && p.lowestPrice.Some? && LowOver(bars, j, k, p.entryPrice, p.lowestPrice.value)
  }

  /** Sold on bar `m` at its stop, which is that of the bars before; or, with the stop not hit, at its target. */
  ghost predicate LeftOnOrders(
      plan: Plan, strategy: Strategy, bars: seq<HistoricalBar>, j: nat, m: nat, t: Trade)
    requires BuysAt(strategy, bars, j) && j < m < |bars|
  {
    var d := DecisionAt(strategy, bars, j).value;
    exists stop ::
      && StopOver(bars, j, m, d.stopPrice, d.trailingDistance, Some(stop))
      && if bars[m].low <= stop then
           t.exitReason == "STOP_LOSS" && t.exitPrice == stop * (1.0 - plan.slippageBps / 10000.0)
         else
           && d.takeProfit.Some? && bars[m].high >= d.takeProfit.value
           && t.exitReason == "TAKE_PROFIT"
           && t.exitPrice == d.takeProfit.value * (1.0 - plan.slippageBps / 10000.0)
  }

  /** Sold at the close of bar `m` because the strategy said so. */
  ghost predicate LeftOnDecision(plan: Plan, strategy: Strategy, bars: seq<HistoricalBar>, m: nat, t: Trade)
    requires m < |bars|
  {
    var d := DecisionAt(strategy, bars, m);
    && d.Some? && d.value.action == ExitNow
    && t.exitReason == (if d.value.reason == "" then "STRATEGY_EXIT" else d.value.reason)
    && t.exitPrice == bars[m].close * (1.0 - plan.slippageBps / 10000.0)
  }

  /** Sold at the close of the last bar because the replay ended. */
  ghost predicate LeftAtTheEnd(plan: Plan, bars: seq<HistoricalBar>, m: nat, t: Trade) {
    && m == |bars| - 1 && t.exitReason == "BACKTEST_END"
    && t.exitPrice == bars[m].close * (1.0 - plan.slippageBps / 10000.0)
  }

  /** The adverse excursion of a trade is that of the bars after `j` up to and with `m`. */
  ghost predicate Sank(bars: seq<HistoricalBar>, j: nat, m: nat, t: Trade, low: real)
    requires j <= m < |bars|
  {
    LowOver(bars, j, m + 1, t.entryPrice, low) && t.mae.Some? && t.mae.value * t.entryPrice == low - t.entryPrice
  }

  ghost predicate Rose(bars: seq<HistoricalBar>, j: nat, m: nat, t: Trade, high: real)
    requires j <= m < |bars|
  {
    HighOver(bars, j, m + 1, t.entryPrice, high) && t.mfe.Some? && t.mfe.value * t.entryPrice == high - t.entryPrice
  }

  /**
   * `t` was bought at bar `j` and sold at bar `m`: when and at what price, for what fees and with what
   * excursions, which are those of the bars after `j` up to and with `m`.
   */
  ghost predicate TradedOver(plan: Plan, strategy: Strategy, bars: seq<HistoricalBar>, j: nat, m: nat, t: Trade) {
    && BuysAt(strategy, bars, j) && j <= m < |bars|
    && t.symbol == plan.symbol && t.entryTime == bars[j].time && t.exitTime == bars[m].time
    && t.entryPrice == bars[j].close * (1.0 + plan.slippageBps / 10000.0)
    && t.grossPnl == (t.exitPrice - t.entryPrice) * t.quantity && t.netPnl == t.grossPnl - t.fees
    && t.fees == plan.feeRate * (t.quantity * t.entryPrice) + plan.feeRate * (t.quantity * t.exitPrice)
    && (exists low :: Sank(bars, j, m, t, low)) && (exists high :: Rose(bars, j, m, t, high))
    && (|| (j < m && (LeftOnOrders(plan, strategy, bars, j, m, t) || LeftOnDecision(plan, strategy, bars, m, t)))
        || LeftAtTheEnd(plan, bars, m, t))
  }

  /** Prices are above zero, and so is every target asked for. */
  ghost predicate Ordinary(strategy: Strategy, bars: seq<HistoricalBar>) {
    && (forall bar <- bars :: bar.low > 0.0 && bar.close > 0.0)
    && forall j :: 0 <= j < |bars| ==>
         var d := DecisionAt(strategy, bars, j);
         d.Some? && d.value.takeProfit.Some? ==> d.value.takeProfit.value > 0.0
  }

  ghost predicate SomeHolding(plan: Plan, strategy: Strategy, bars: seq<HistoricalBar>, k: nat, p: Position) {
    exists j: nat :: HeldOver(plan, strategy, bars, j, k, p)
  }

  ghost predicate SomeTrade(plan: Plan, strategy: Strategy, bars: seq<HistoricalBar>, t: Trade) {
    exists j: nat, m: nat :: TradedOver(plan, strategy, bars, j, m, t)
  }

  /** Every holding and every trade of the venue, told from the bars before `k`. */
  ghost predicate Told(plan: Plan, strategy: Strategy, bars: seq<HistoricalBar>, k: nat, v: Venue) {
    && |v.book.positions| <= 1 && v.book.realisedPnl == Sums.SumOf(v.book.closed, NetPnl)
    && (forall p <- v.book.positions :: SomeHolding(plan, strategy, bars, k, p))
    && (forall t <- v.book.closed :: SomeTrade(plan, strategy, bars, t))
  }

  // --- One more bar ---------------------------------------------------------------

  lemma {:induction false} StopOneMore(
      bars: seq<HistoricalBar>, j: int, k: int, asked: Option<real>, distance: Option<real>, p: Position, q: Position,
      bar: Bar)
    requires 0 <= j < k < |bars| && bar.high == bars[k].high
    requires asked.Some? && StopOver(bars, j, k, asked, distance, p.stopLoss) && p.trailingDistance == distance
    requires Trails(p, q, bar)
    ensures StopOver(bars, j, k + 1, asked, distance, q.stopLoss)
  {
    if distance.Some? && distance.value > 0.0 && q.stopLoss != p.stopLoss {
      assert q.stopLoss.value == bars[k].high - distance.value;
    }
  }

  lemma {:induction false} ExtremesOneMore(
      bars: seq<HistoricalBar>, j: int, k: int, p: Position, q: Position, bar: Bar)
    requires 0 <= j < k < |bars| && bar.high == bars[k].high && bar.low == bars[k].low
    requires p.highestPrice.Some? && HighOver(bars, j, k, p.entryPrice, p.highestPrice.value)
    requires p.lowestPrice.Some? && LowOver(bars, j, k, p.entryPrice, p.lowestPrice.value)
    requires Widens(p, q, bar) && q.entryPrice == p.entryPrice
    ensures HighOver(bars, j, k + 1, q.entryPrice, q.highestPrice.value)
    ensures LowOver(bars, j, k + 1, q.entryPrice, q.lowestPrice.value)
  {
    if q.highestPrice != p.highestPrice {
      assert q.highestPrice.value == bars[k].high;
    }
    if q.lowestPrice != p.lowestPrice {
      assert q.lowestPrice.value == bars[k].low;
    }
  }

  lemma {:induction false} GridSells(p: Position, reference: real, step: Option<real>)
    requires p.quantity > 0.0 && OnGrid(p.quantity, step) && reference > 0.0
    ensures Sells(p, reference, step) && RoundDownToStep(p.quantity, step) == p.quantity
  {
    RoundingKeepsGridQuantities(p.quantity, step);
  }

  /** A holding that its bar leaves alone is held over that bar too. */
  lemma {:induction false} RidesOver(
      plan: Plan, strategy: Strategy, bars: seq<HistoricalBar>, j: nat, k: nat, p: Position, q: Position)
    requires HeldOver(plan, strategy, bars, j, k, p) && k < |bars|
    requires SameButFor(p, q) && Widens(p, q, BarOf(plan, bars[k])) && Trails(p, q, BarOf(plan, bars[k]))
    ensures HeldOver(plan, strategy, bars, j, k + 1, q)
  {
    hide OnGrid, StopOver, HighOver, LowOver, Widens, Trails;
    var d := DecisionAt(strategy, bars, j).value;
    StopOneMore(bars, j, k, d.stopPrice, d.trailingDistance, p, q, BarOf(plan, bars[k]));
    ExtremesOneMore(bars, j, k, p, q, BarOf(plan, bars[k]));
    WidenedIsThere(p, q, BarOf(plan, bars[k]));
  }

  lemma {:induction false} WidenedIsThere(p: Position, q: Position, bar: Bar)
    requires Widens(p, q, bar)
    ensures q.highestPrice.Some? && q.lowestPrice.Some?
  {
  }

  /** What a record says of a whole lot: its fees and its excursions. */
  lemma {:induction false} RecordOfALot(
      plan: Plan, p: Position, t: Trade, reference: real, time: int, reason: string, step: Option<real>)
    requires Records(VenueOf(plan), p, t, reference, time, reason, step)
    requires RoundDownToStep(p.quantity, step) == p.quantity && p.entryPrice > 0.0
    requires p.feesPaid == plan.feeRate * (p.quantity * p.entryPrice)
    requires p.highestPrice.Some? && p.lowestPrice.Some?
    ensures t.symbol == p.symbol && t.quantity == p.quantity && t.entryTime == p.entryTime
    ensures t.entryPrice == p.entryPrice && t.exitTime == time
    ensures t.grossPnl == (t.exitPrice - t.entryPrice) * t.quantity && t.netPnl == t.grossPnl - t.fees
    ensures t.fees == plan.feeRate * (t.quantity * t.entryPrice) + plan.feeRate * (t.quantity * t.exitPrice)
    ensures t.mae.Some? && t.mae.value * t.entryPrice == p.lowestPrice.value - t.entryPrice
    ensures t.mfe.Some? && t.mfe.value * t.entryPrice == p.highestPrice.value - t.entryPrice
  {
    ExcursionOfARecord(plan, p, t, reference, time, reason, step);
    hide RoundDownToStep, Excursion;
  }

  lemma {:induction false} ExcursionOfARecord(
      plan: Plan, p: Position, t: Trade, reference: real, time: int, reason: string, step: Option<real>)
    requires Records(VenueOf(plan), p, t, reference, time, reason, step) && p.entryPrice > 0.0
    requires p.highestPrice.Some? && p.lowestPrice.Some?
    ensures t.mae.Some? && t.mae.value * p.entryPrice == p.lowestPrice.value - p.entryPrice
    ensures t.mfe.Some? && t.mfe.value * p.entryPrice == p.highestPrice.value - p.entryPrice
  {
    hide RoundDownToStep;
  }

  /** The trade that an exit on bar `m` makes of a holding whose excursions already count that bar. */
  lemma {:induction false} TradeOfAHolding(
      plan: Plan, strategy: Strategy, bars: seq<HistoricalBar>, j: nat, m: nat, q: Position, t: Trade, reference: real,
      reason: string, step: Option<real>)
    requires BuysAt(strategy, bars, j) && j <= m < |bars|
    requires q.symbol == plan.symbol && q.entryTime == bars[j].time && q.entryPrice > 0.0
    requires q.entryPrice == bars[j].close * (1.0 + plan.slippageBps / 10000.0)
    requires q.feesPaid == plan.feeRate * (q.quantity * q.entryPrice)
    requires RoundDownToStep(q.quantity, step) == q.quantity
    requires q.highestPrice.Some? && HighOver(bars, j, m + 1, q.entryPrice, q.highestPrice.value)
    requires q.lowestPrice.Some? && LowOver(bars, j, m + 1, q.entryPrice, q.lowestPrice.value)
    requires Records(VenueOf(plan), q, t, reference, bars[m].time, reason, step)
    requires || (j < m && (LeftOnOrders(plan, strategy, bars, j, m, t) || LeftOnDecision(plan, strategy, bars, m, t)))
             || LeftAtTheEnd(plan, bars, m, t)
    ensures TradedOver(plan, strategy, bars, j, m, t)
  {
    hide HighOver, LowOver, LeftOnOrders, LeftOnDecision, LeftAtTheEnd, Records, RoundDownToStep, BuysAt;
    RecordOfALot(plan, q, t, reference, bars[m].time, reason, step);
    assert Sank(bars, j, m, t, q.lowestPrice.value) && Rose(bars, j, m, t, q.highestPrice.value);
  }

  /** The order that a bar sets off is the stop as the bars before have left it, or the target asked for. */
  lemma {:induction false} OrderLeaves(
      plan: Plan, strategy: Strategy, bars: seq<HistoricalBar>, j: nat, k: nat, p: Position, t: Trade,
      order: (real, string))
    requires HeldOver(plan, strategy, bars, j, k, p) && k < |bars| && p.stopLoss.Some?
    requires SetOff(p, BarOf(plan, bars[k])) == Some(order)
    requires t.exitReason == order.1 && t.exitPrice == order.0 * (1.0 - plan.slippageBps / 10000.0)
    ensures LeftOnOrders(plan, strategy, bars, j, k, t)
  {
    hide OnGrid, HighOver, LowOver, StopOver;
    var d := DecisionAt(strategy, bars, j).value;
    assert StopOver(bars, j, k, d.stopPrice, d.trailingDistance, Some(p.stopLoss.value));
  }

  lemma {:induction false} RecordedExit(
      plan: Plan, p: Position, t: Trade, reference: real, time: int, reason: string, step: Option<real>)
    requires Records(VenueOf(plan), p, t, reference, time, reason, step)
    ensures t.exitReason == reason && t.exitPrice == reference * (1.0 - plan.slippageBps / 10000.0)
  {
    hide RoundDownToStep;
  }

  /** A holding that its bar sells is a trade of that bar. */
  lemma {:induction false} LeavesOver(
      plan: Plan, strategy: Strategy, bars: seq<HistoricalBar>, j: nat, k: nat, p: Position, q: Position, t: Trade,
      order: (real, string))
    requires HeldOver(plan, strategy, bars, j, k, p) && k < |bars| && p.stopLoss.Some?
    requires SameButFor(p, q) && q.stopLoss == p.stopLoss && Widens(p, q, BarOf(plan, bars[k]))
    requires SetOff(p, BarOf(plan, bars[k])) == Some(order)
    requires Sells(p, order.0, plan.filters.stepSize)
    requires Records(VenueOf(plan), q, t, order.0, bars[k].time, order.1, plan.filters.stepSize)
    ensures TradedOver(plan, strategy, bars, j, k, t)
  {
    var step := plan.filters.stepSize;
    RecordedExit(plan, q, t, order.0, bars[k].time, order.1, step);
    OrderLeaves(plan, strategy, bars, j, k, p, t, order);
    hide HeldOver, StopOver, HighOver, LowOver, RoundDownToStep, Widens, LeftOnOrders, SetOff, Sells, BuysAt, Records,
         SameButFor, LeftOnDecision, LeftAtTheEnd, TradedOver, BarOf;
    WidenedHolding(plan, strategy, bars, j, k, p, q);
    TradeOfAHolding(plan, strategy, bars, j, k, q, t, order.0, order.1, step);
  }

  /** What a bar leaves of a holding, whatever becomes of its stop. */
  lemma {:induction false} WidenedHolding(
      plan: Plan, strategy: Strategy, bars: seq<HistoricalBar>, j: nat, k: nat, p: Position, q: Position)
    requires HeldOver(plan, strategy, bars, j, k, p) && k < |bars|
    requires SameButFor(p, q) && Widens(p, q, BarOf(plan, bars[k]))
    ensures BuysAt(strategy, bars, j) && j < k
    ensures q.symbol == plan.symbol && q.entryTime == bars[j].time && q.entryPrice > 0.0
    ensures q.entryPrice == bars[j].close * (1.0 + plan.slippageBps / 10000.0)
    ensures q.feesPaid == plan.feeRate * (q.quantity * q.entryPrice)
    ensures RoundDownToStep(q.quantity, plan.filters.stepSize) == q.quantity
    ensures q.highestPrice.Some? && HighOver(bars, j, k + 1, q.entryPrice, q.highestPrice.value)
    ensures q.lowestPrice.Some? && LowOver(bars, j, k + 1, q.entryPrice, q.lowestPrice.value)
  {
    LotOfAHolding(plan, strategy, bars, j, k, p);
    hide OnGrid, StopOver, HighOver, LowOver, RoundDownToStep, Widens;
    ExtremesOneMore(bars, j, k, p, q, BarOf(plan, bars[k]));
    WidenedIsThere(p, q, BarOf(plan, bars[k]));
  }

  lemma {:induction false} LotOfAHolding(
      plan: Plan, strategy: Strategy, bars: seq<HistoricalBar>, j: nat, k: nat, p: Position)
    requires HeldOver(plan, strategy, bars, j, k, p)
    ensures RoundDownToStep(p.quantity, plan.filters.stepSize) == p.quantity
  {
    RoundingKeepsGridQuantities(p.quantity, plan.filters.stepSize);
  }

  /** Some stop is always there: a buy asks for one, and it never goes away. */
  lemma {:induction false} HoldingHasAStop(
      plan: Plan, strategy: Strategy, bars: seq<HistoricalBar>, j: nat, k: nat, p: Position)
    requires HeldOver(plan, strategy, bars, j, k, p)
    ensures p.stopLoss.Some?
  {
    hide HighOver, LowOver, OnGrid;
  }

  /** In an ordinary market an order that is set off fills. */
  lemma {:induction false} OrdersFill(
      plan: Plan, strategy: Strategy, bars: seq<HistoricalBar>, j: nat, k: nat, p: Position)
    requires Ordinary(strategy, bars) && HeldOver(plan, strategy, bars, j, k, p) && k < |bars|
    requires SetOff(p, BarOf(plan, bars[k])).Some?
    ensures Sells(p, SetOff(p, BarOf(plan, bars[k])).value.0, plan.filters.stepSize)
  {
    hide HighOver, LowOver, StopOver;
    assert bars[k] in bars;
    GridSells(p, SetOff(p, BarOf(plan, bars[k])).value.0, plan.filters.stepSize);
  }

  lemma {:induction false} ExitsTell(plan: Plan, strategy: Strategy, bars: seq<HistoricalBar>, k: nat, v: Venue)
    requires plan.InRange() && Ordinary(strategy, bars) && k < |bars| && Told(plan, strategy, bars, k, v)
    ensures Told(plan, strategy, bars, k + 1, AfterExits(plan, v, bars[k]))
    ensures HeldBefore(plan, strategy, bars, k, AfterExits(plan, v, bars[k]))
  {
    var bar, step, w := BarOf(plan, bars[k]), plan.filters.stepSize, AfterExits(plan, v, bars[k]);
    hide ProcessBar, PeakFollows, Ordinary, HeldOver, TradedOver, Widens, Trails, Records, Sells, Sums.SumOf, LeavesOn,
         StaysUnsold, SetOff;
    WhatACandleDoes(VenueOf(plan), v, bar, step);
    assert w == ProcessBar(VenueOf(plan), v, bar, step).0;
    var at := Find(v.book.positions, plan.symbol);
    if at.None? {
      NothingHeld(plan, strategy, bars, k, v);
    } else {
      var p := v.book.positions[at.value];
      assert p in v.book.positions && SomeHolding(plan, strategy, bars, k, p);
      var j: nat :| HeldOver(plan, strategy, bars, j, k, p);
      HoldingMeans(plan, strategy, bars, j, k, p);
      hide Find, RidesOn, Told, HeldBefore, RoundDownToStep, HighOver, LowOver, BuysAt;
      if SetOff(p, bar).None? {
        RidesOnTells(plan, strategy, bars, j, k, v, w, at.value);
      } else {
        OrdersFill(plan, strategy, bars, j, k, p);
        HoldingHasAStop(plan, strategy, bars, j, k, p);
        SoldOnTheBar(plan, strategy, bars, j, k, v, w, at.value, SetOff(p, bar).value);
      }
    }
  }

  lemma {:induction false} RidesOnTells(
      plan: Plan, strategy: Strategy, bars: seq<HistoricalBar>, j: nat, k: nat, v: Venue, w: Venue, i: nat)
    requires k < |bars| && Told(plan, strategy, bars, k, v) && i < |v.book.positions|
    requires HeldOver(plan, strategy, bars, j, k, v.book.positions[i])
    requires j < k && RidesOn(v, w, i, BarOf(plan, bars[k]))
    ensures Told(plan, strategy, bars, k + 1, w) && HeldBefore(plan, strategy, bars, k, w)
  {
    hide HeldOver, TradedOver, Widens, Trails, Sums.SumOf, SameButFor;
    var p, bar := v.book.positions[i], BarOf(plan, bars[k]);
    var q :| OnlyMoves(v, w, i, q) && SameButFor(p, q) && Widens(p, q, bar) && Trails(p, q, bar);
    RidesOver(plan, strategy, bars, j, k, p, q);
    assert w.book.positions == [q] && HeldSince(plan, strategy, bars, j, k, q);
  }

  lemma {:induction false} NothingHeld(plan: Plan, strategy: Strategy, bars: seq<HistoricalBar>, k: nat, v: Venue)
    requires Told(plan, strategy, bars, k, v)
    ensures v.book.positions != [] ==> Find(v.book.positions, plan.symbol).Some?
  {
    hide Sums.SumOf, SomeHolding;
    if v.book.positions != [] {
      assert v.book.positions[0] in v.book.positions;
      SymbolOfAHolding(plan, strategy, bars, k, v.book.positions[0]);
    }
  }

  lemma {:induction false} SymbolOfAHolding(
      plan: Plan, strategy: Strategy, bars: seq<HistoricalBar>, k: nat, p: Position)
    requires SomeHolding(plan, strategy, bars, k, p)
    ensures p.symbol == plan.symbol
  {
    hide StopOver, HighOver, LowOver, OnGrid;
  }

  lemma {:induction false} SoldOnTheBar(
      plan: Plan, strategy: Strategy, bars: seq<HistoricalBar>, j: nat, k: nat, v: Venue, w: Venue, i: nat,
      order: (real, string))
    requires k < |bars| && Told(plan, strategy, bars, k, v) && i < |v.book.positions|
    requires HeldOver(plan, strategy, bars, j, k, v.book.positions[i]) && v.book.positions[i].stopLoss.Some?
    requires var p := v.book.positions[i];
             && SetOff(p, BarOf(plan, bars[k])) == Some(order) && Sells(p, order.0, plan.filters.stepSize)
    requires exists t :: LeavesOn(VenueOf(plan), v, w, i, BarOf(plan, bars[k]), t, order, plan.filters.stepSize)
    ensures Told(plan, strategy, bars, k + 1, w) && w.book.positions == []
  {
    hide HeldOver, TradedOver, Widens, Records, Sells, Sums.SumOf, SetOff;
    var p := v.book.positions[i];
    var t :| LeavesOn(VenueOf(plan), v, w, i, BarOf(plan, bars[k]), t, order, plan.filters.stepSize);
    var q :| && SameButFor(p, q) && q.stopLoss == p.stopLoss && Widens(p, q, BarOf(plan, bars[k]))
             && Records(VenueOf(plan), q, t, order.0, bars[k].time, order.1, plan.filters.stepSize)
             && SoldOff(v, w.(book := w.book.(peakEquity := v.book.peakEquity)), i, t);
    LeavesOver(plan, strategy, bars, j, k, p, q, t, order);
    assert SomeTrade(plan, strategy, bars, t);
    SoldTells(plan, strategy, bars, k + 1, v, w.(book := w.book.(peakEquity := v.book.peakEquity)), i, t);
  }

  /** Selling the one holding adds a trade that is told, and leaves nothing held. */
  lemma {:induction false} SoldTells(
      plan: Plan, strategy: Strategy, bars: seq<HistoricalBar>, k: nat, v: Venue, w: Venue, i: nat, t: Trade)
    requires |v.book.positions| <= 1 && v.book.realisedPnl == Sums.SumOf(v.book.closed, NetPnl)
    requires forall u <- v.book.closed :: SomeTrade(plan, strategy, bars, u)
    requires i < |v.book.positions| && SoldOff(v, w, i, t) && SomeTrade(plan, strategy, bars, t)
    ensures Told(plan, strategy, bars, k, w)
    ensures w.book.positions == []
  {
    hide SomeTrade;
    Sums.SumSnoc(v.book.closed, t, NetPnl);
    assert w.book.positions == [];
    hide Sums.SumOf;
  }

  /** A decision to leave, or to buy, on a venue whose exits of the bar are done. */
  lemma {:induction false} DecisionTells(
      plan: Plan, strategy: Strategy, bars: seq<HistoricalBar>, k: nat, v: Venue, w: Venue)
    requires plan.InRange() && Ordinary(strategy, bars) && k < |bars| && Told(plan, strategy, bars, k + 1, v)
    requires HeldBefore(plan, strategy, bars, k, v)
    requires DecisionAt(strategy, bars, k).Some?
    requires Applied(plan, v, DecisionAt(strategy, bars, k).value, bars[k]) == Ok(w)
    ensures Told(plan, strategy, bars, k + 1, w)
  {
    hide Applied, HeldOver, TradedOver, Records, Sells, Ordinary, DecisionAt, BoughtAt;
    var d := DecisionAt(strategy, bars, k).value;
    OneIsTallied(v.book);
    hide Sums.SumOf, Tallied;
    WhatADecisionDoes(plan, v, d, bars[k]);
    var at := Find(v.book.positions, plan.symbol);
    if d.action == ExitNow && at.Some? {
      ExitTells(plan, strategy, bars, k, v, w, at.value);
    } else if d.action == BuyNow && at.None? {
      NothingHeld(plan, strategy, bars, k + 1, v);
      BuyTells(plan, strategy, bars, k, v, w);
    }
  }

  lemma {:induction false} OneIsTallied(b: Book)
    requires |b.positions| <= 1 && b.realisedPnl == Sums.SumOf(b.closed, NetPnl)
    ensures Tallied(b)
  {
  }

  /** What is held when the decision of bar `k` is taken was bought before that bar. */
  ghost predicate HeldBefore(plan: Plan, strategy: Strategy, bars: seq<HistoricalBar>, k: nat, v: Venue) {
    forall p <- v.book.positions :: exists j: nat :: HeldSince(plan, strategy, bars, j, k, p)
  }

  ghost predicate HeldSince(
      plan: Plan, strategy: Strategy, bars: seq<HistoricalBar>, j: nat, k: nat, p: Position)
  {
    j < k && HeldOver(plan, strategy, bars, j, k + 1, p)
  }

  lemma {:induction false} HoldingMeans(
      plan: Plan, strategy: Strategy, bars: seq<HistoricalBar>, j: nat, k: nat, p: Position)
    requires HeldOver(plan, strategy, bars, j, k, p)
    ensures BuysAt(strategy, bars, j) && j < k <= |bars|
    ensures p.symbol == plan.symbol && p.entryTime == bars[j].time && p.entryPrice > 0.0
    ensures p.entryPrice == bars[j].close * (1.0 + plan.slippageBps / 10000.0)
    ensures p.feesPaid == plan.feeRate * (p.quantity * p.entryPrice)
    ensures RoundDownToStep(p.quantity, plan.filters.stepSize) == p.quantity
    ensures p.highestPrice.Some? && HighOver(bars, j, k, p.entryPrice, p.highestPrice.value)
    ensures p.lowestPrice.Some? && LowOver(bars, j, k, p.entryPrice, p.lowestPrice.value)
  {
    LotOfAHolding(plan, strategy, bars, j, k, p);
    hide OnGrid, StopOver, HighOver, LowOver, RoundDownToStep;
  }

  /** A holding that a decision sells is a trade of the bar of the decision. */
  lemma {:induction false} LeavesOnDecision(
      plan: Plan, strategy: Strategy, bars: seq<HistoricalBar>, j: nat, k: nat, p: Position, t: Trade)
    requires k < |bars| && HeldSince(plan, strategy, bars, j, k, p)
    requires DecisionAt(strategy, bars, k).Some? && DecisionAt(strategy, bars, k).value.action == ExitNow
    requires Records(VenueOf(plan), p, t, bars[k].close, bars[k].time,
                     if DecisionAt(strategy, bars, k).value.reason == "" then "STRATEGY_EXIT"
                     else DecisionAt(strategy, bars, k).value.reason, plan.filters.stepSize)
    ensures TradedOver(plan, strategy, bars, j, k, t)
  {
    var step := plan.filters.stepSize;
    var reason := if DecisionAt(strategy, bars, k).value.reason == "" then "STRATEGY_EXIT"
                  else DecisionAt(strategy, bars, k).value.reason;
    HoldingMeans(plan, strategy, bars, j, k + 1, p);
    RecordedExit(plan, p, t, bars[k].close, bars[k].time, reason, step);
    hide Records, HeldOver, HighOver, LowOver, BuysAt, RoundDownToStep;
    assert LeftOnDecision(plan, strategy, bars, k, t);
    hide LeftOnDecision, LeftOnOrders, LeftAtTheEnd;
    TradeOfAHolding(plan, strategy, bars, j, k, p, t, bars[k].close, reason, step);
  }

  lemma {:induction false} ExitTells(
      plan: Plan, strategy: Strategy, bars: seq<HistoricalBar>, k: nat, v: Venue, w: Venue, i: nat)
    requires Ordinary(strategy, bars) && k < |bars| && Told(plan, strategy, bars, k + 1, v)
    requires HeldBefore(plan, strategy, bars, k, v) && i < |v.book.positions|
    requires DecisionAt(strategy, bars, k).Some? && DecisionAt(strategy, bars, k).value.action == ExitNow
    requires ExitDone(plan, v, i, DecisionAt(strategy, bars, k).value, bars[k], w)
    ensures Told(plan, strategy, bars, k + 1, w)
  {
    hide TradedOver, Records, Sells, Sums.SumOf, HeldSince, SoldOff, SomeHolding;
    var p, step := v.book.positions[i], plan.filters.stepSize;
    assert p in v.book.positions;
    var j: nat :| HeldSince(plan, strategy, bars, j, k, p);
    HoldingSells(plan, strategy, bars, j, k, p);
    var t :| && Records(VenueOf(plan), p, t, bars[k].close, bars[k].time,
                        if DecisionAt(strategy, bars, k).value.reason == "" then "STRATEGY_EXIT"
                        else DecisionAt(strategy, bars, k).value.reason, step)
             && SoldOff(v, w, i, t);
    LeavesOnDecision(plan, strategy, bars, j, k, p, t);
    assert SomeTrade(plan, strategy, bars, t);
    hide SomeTrade;
    SoldTells(plan, strategy, bars, k + 1, v, w, i, t);
  }

  lemma {:induction false} HoldingSells(
      plan: Plan, strategy: Strategy, bars: seq<HistoricalBar>, j: nat, k: nat, p: Position)
    requires Ordinary(strategy, bars) && k < |bars| && HeldSince(plan, strategy, bars, j, k, p)
    ensures Sells(p, bars[k].close, plan.filters.stepSize)
  {
    hide StopOver, HighOver, LowOver, BuysAt;
    assert bars[k] in bars;
    GridSells(p, bars[k].close, plan.filters.stepSize);
  }

  lemma {:induction false} BuyTells(
      plan: Plan, strategy: Strategy, bars: seq<HistoricalBar>, k: nat, v: Venue, w: Venue)
    requires plan.InRange() && Ordinary(strategy, bars) && k < |bars| && Told(plan, strategy, bars, k + 1, v)
    requires v.book.positions == []
    requires DecisionAt(strategy, bars, k).Some? && DecisionAt(strategy, bars, k).value.action == BuyNow
    requires BuyDone(plan, v, DecisionAt(strategy, bars, k).value, bars[k], Ok(w))
    ensures Told(plan, strategy, bars, k + 1, w)
  {
    hide TradedOver, Sums.SumOf, Refuses, CalculatePositionSize, SizedFrom;
    var d := DecisionAt(strategy, bars, k).value;
    if w != v.(rejectedCount := v.rejectedCount + 1) {
      var q := SizeFor(plan, v, d, bars[k]).quantity;
      var p :| BoughtAt(plan, d, bars[k], q, p) && PaidFor(v, w, p);
      NewHolding(plan, strategy, bars, k, v, p);
      assert w.book.positions == [p];
    }
  }

  /** What has just been bought is held over no bar yet. */
  lemma {:induction false} NewHolding(
      plan: Plan, strategy: Strategy, bars: seq<HistoricalBar>, k: nat, v: Venue, p: Position)
    requires plan.InRange() && k < |bars| && DecisionAt(strategy, bars, k).Some?
    requires DecisionAt(strategy, bars, k).value.action == BuyNow
    requires var d := DecisionAt(strategy, bars, k).value;
             SizeFor(plan, v, d, bars[k]).Sized? && BoughtAt(plan, d, bars[k], SizeFor(plan, v, d, bars[k]).quantity, p)
    ensures HeldOver(plan, strategy, bars, k, k + 1, p)
  {
    var d := DecisionAt(strategy, bars, k).value;
    var request := SizedFrom(VenueOf(plan), v, Entry(plan.symbol, bars[k].close, d.stopPrice, plan.filters, None, None),
                             map[plan.symbol := bars[k].close]);
    SizedRespectsEveryLimit(request, plan.risk, plan.filters);
    PriceOfASize(plan, v, d, bars[k]);
    StopOfASize(plan, v, d, bars[k]);
    hide SizedFrom, CalculatePositionSize, OnGrid;
    SlippageIsNeverFavourable(bars[k].close, plan.slippageBps);
  }

  lemma {:induction false} StopOfASize(plan: Plan, v: Venue, d: StrategyDecision, bar: HistoricalBar)
    ensures SizedFrom(VenueOf(plan), v, Entry(plan.symbol, bar.close, d.stopPrice, plan.filters, None, None),
                      map[plan.symbol := bar.close]).stopPrice == d.stopPrice
  {
  }

  // --- Whole runs -------------------------------------------------------------------

  lemma {:induction false} BarTells(
      plan: Plan, strategy: Strategy, bars: seq<HistoricalBar>, k: nat, v: Venue, w: Venue)
    requires plan.InRange() && Ordinary(strategy, bars) && k < |bars| && Told(plan, strategy, bars, k, v)
    requires AfterBar(plan, v, DecisionAt(strategy, bars, k), bars[k]) == Ok(w)
    ensures Told(plan, strategy, bars, k + 1, w)
  {
    hide Told, HeldBefore, Ordinary, AfterExits, Applied, Equity;
    ExitsTell(plan, strategy, bars, k, v);
    var asked := AfterExits(plan, v, bars[k]);
    var d := DecisionAt(strategy, bars, k);
    var acted := if d.None? then asked else Applied(plan, asked, d.value, bars[k]).value;
    if d.Some? {
      DecisionTells(plan, strategy, bars, k, asked, acted);
    }
    PeakTells(plan, strategy, bars, k + 1, acted, bars[k].close);
  }

  lemma {:induction false} PeakTells(
      plan: Plan, strategy: Strategy, bars: seq<HistoricalBar>, k: nat, v: Venue, close: real)
    requires Told(plan, strategy, bars, k, v)
    ensures Told(plan, strategy, bars, k, PeakAt(v, plan.symbol, close))
  {
    hide SomeHolding, SomeTrade, Sums.SumOf, Equity;
  }

  lemma {:induction false} NothingToTell(plan: Plan, strategy: Strategy, bars: seq<HistoricalBar>)
    ensures Told(plan, strategy, bars, 0, NewVenue(plan.initialCapital))
  {
  }

  lemma {:induction false} EveryStateIsTold(plan: Plan, strategy: Strategy, bars: seq<HistoricalBar>, k: nat)
    requires plan.InRange() && Ordinary(strategy, bars) && k <= |bars| && StateAfter(plan, strategy, bars, k).Ok?
    ensures Told(plan, strategy, bars, k, StateAfter(plan, strategy, bars, k).value)
    decreases k
  {
    hide Told, Ordinary, AfterBar, NewVenue;
    if k == 0 {
      NothingToTell(plan, strategy, bars);
    } else {
      EveryStateIsTold(plan, strategy, bars, k - 1);
      BarTells(plan, strategy, bars, k - 1, StateAfter(plan, strategy, bars, k - 1).value,
               StateAfter(plan, strategy, bars, k).value);
    }
  }

  /**
   * At every bar of a replay the stop of a holding is the one asked for or, if that is higher and a
   * distance was asked for too, the highest high since the bar it was bought on less the distance; and
   * its extremes are those of the bars since.
   */
  lemma {:induction false} EveryHoldingFollowsItsBars(
      plan: Plan, strategy: Strategy, bars: seq<HistoricalBar>, k: nat, p: Position)
    requires plan.InRange() && Ordinary(strategy, bars) && k <= |bars| && StateAfter(plan, strategy, bars, k).Ok?
    requires p in StateAfter(plan, strategy, bars, k).value.book.positions
    ensures exists j: nat :: HeldOver(plan, strategy, bars, j, k, p)
  {
    hide StateAfter, HeldOver, Ordinary;
    EveryStateIsTold(plan, strategy, bars, k);
    assert SomeHolding(plan, strategy, bars, k, p);
  }

  /**
   * Every trade of a replay is told by its bars: bought at a close as a decision asked; sold at the stop
   * as the bars in between had left it, else at the target, else at the close of a decision or of the last
   * bar; for the fee rate on both legs; and with the excursions of the bars it was held over.
   */
  lemma {:induction false} EveryTradeFollowsItsBars(
      plan: Plan, strategy: Strategy, bars: seq<HistoricalBar>, t: Trade)
    requires plan.InRange() && Ordinary(strategy, bars) && ResultOf(plan, strategy, bars).Ok?
    requires t in ResultOf(plan, strategy, bars).value.trades
    ensures exists j: nat, m: nat :: TradedOver(plan, strategy, bars, j, m, t)
  {
    hide Told, TradedOver, Accounted, Equity, StateAfter, SomeTrade, Ordinary;
    var n := |bars|;
    ResultIsTheEnd(plan, strategy, bars);
    var v := StateAfter(plan, strategy, bars, n).value;
    EveryStateIsTold(plan, strategy, bars, n);
    EveryStateIsAccounted(plan, strategy, bars, n);
    SoundIfAccounted(plan, strategy, bars, v, MarkAfter(bars, n));
    hide ResultOf, Ended;
    EndTells(plan, strategy, bars, v);
    SomeTradeMeans(plan, strategy, bars, t);
  }

  lemma {:induction false} SomeTradeMeans(plan: Plan, strategy: Strategy, bars: seq<HistoricalBar>, t: Trade)
    requires SomeTrade(plan, strategy, bars, t)
    ensures exists j: nat, m: nat :: TradedOver(plan, strategy, bars, j, m, t)
  {
  }

  lemma {:induction false} ResultIsTheEnd(plan: Plan, strategy: Strategy, bars: seq<HistoricalBar>)
    requires ResultOf(plan, strategy, bars).Ok?
    ensures bars != [] && StateAfter(plan, strategy, bars, |bars|).Ok?
    ensures ResultOf(plan, strategy, bars).value.trades
            == Ended(plan, StateAfter(plan, strategy, bars, |bars|).value, bars[|bars| - 1]).book.closed
  {
    hide StateAfter, Ended, Equity, CurveAfter, BarsInMarket;
  }

  lemma {:induction false} SoundIfAccounted(
      plan: Plan, strategy: Strategy, bars: seq<HistoricalBar>, v: Venue, mark: real)
    requires Accounted(plan, strategy, bars, v, mark)
    ensures Sound(v)
  {
    hide Sound;
  }

  lemma {:induction false} EndTells(plan: Plan, strategy: Strategy, bars: seq<HistoricalBar>, v: Venue)
    requires plan.InRange() && Ordinary(strategy, bars) && bars != [] && Sound(v)
    requires Told(plan, strategy, bars, |bars|, v)
    ensures forall t <- Ended(plan, v, bars[|bars| - 1]).book.closed :: SomeTrade(plan, strategy, bars, t)
  {
    var last := bars[|bars| - 1];
    assert last in bars;
    var prices := map[plan.symbol := last.close];
    hide TradedOver, Records, Sound, ForceCloseAll, HeldOver;
    WhatAForcedCloseDoes(VenueOf(plan), v, prices, last.time, BACKTEST_END);
    var trades := ForceCloseAll(VenueOf(plan), v, prices, last.time, BACKTEST_END).1;
    if v.book.positions != [] {
      var p := v.book.positions[0];
      assert p in v.book.positions && SomeHolding(plan, strategy, bars, |bars|, p);
      var j: nat :| HeldOver(plan, strategy, bars, j, |bars|, p);
      LastTradeIsTold(plan, strategy, bars, j, p, trades[0]);
      assert SomeTrade(plan, strategy, bars, trades[0]) && trades == [trades[0]];
    }
  }

  lemma {:induction false} LastTradeIsTold(
      plan: Plan, strategy: Strategy, bars: seq<HistoricalBar>, j: nat, p: Position, t: Trade)
    requires bars != [] && HeldOver(plan, strategy, bars, j, |bars|, p)
    requires Records(VenueOf(plan), p, t, if p.symbol == plan.symbol then bars[|bars| - 1].close else p.entryPrice,
                     bars[|bars| - 1].time, BACKTEST_END, None)
    ensures TradedOver(plan, strategy, bars, j, |bars| - 1, t)
  {
    hide HighOver, LowOver, StopOver, OnGrid, BuysAt, Records;
    var m := |bars| - 1;
    RecordedExit(plan, p, t, bars[m].close, bars[m].time, BACKTEST_END, None);
    assert LeftAtTheEnd(plan, bars, m, t);
    TradeOfAHolding(plan, strategy, bars, j, m, p, t, bars[m].close, BACKTEST_END, None);
  }
}
