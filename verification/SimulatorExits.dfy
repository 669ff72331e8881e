/** What one candle may and may not do to an open position. */
module SimulatorExits {
  import opened Wrappers
  import opened Fills
  import opened TradingLimits
  import opened Books
  import opened Simulator

  /** The candle reaches down to the stop, or opens below it. */
  ghost predicate StopHit(p: Position, bar: Bar) {
    p.stopLoss.Some? && bar.low <= p.stopLoss.value
  }

  /** The candle reaches up to the target, or opens above it. */
  ghost predicate TargetHit(p: Position, bar: Bar) {
    p.takeProfit.Some? && bar.high >= p.takeProfit.value
  }

  /** The price was traded during the candle. */
  predicate InRangeOf(bar: Bar, price: real) {
    bar.low <= price <= bar.high
  }

  /** The trade a candle makes of a position, from the position alone. */
  function TradeOn(setup: Setup, p: Position, bar: Bar, step: Option<real>): Option<Trade> {
    match ExitReasonForBar(bar.high, bar.low, p.stopLoss, p.takeProfit)
    case None => None
    case Some(reason) =>
      var fill := ExitFill(setup, p.quantity, ExitPrice(p, reason), step);
      if fill.IsEmpty() then None
      else Some(TradeOf(p.Observed(bar.high, bar.low), fill.price, fill.fee, fill.slippageCost, bar.time, reason))
  }

  lemma {:induction false} FindReplaced(positions: seq<Position>, i: nat, symbol: string, p: Position)
    requires Find(positions, symbol) == Some(i) && p.symbol == symbol
    ensures Find(positions[i := p], symbol) == Some(i)
    decreases |positions|
  {
    var n := |positions| - 1;
    if i < n {
      FindReplaced(positions[..n], i, symbol, p);
      assert positions[i := p][..n] == positions[..n][i := p];
    }
  }

  lemma {:induction false} BarTrades(setup: Setup, v: Venue, bar: Bar, step: Option<real>, i: nat)
    requires Find(v.book.positions, bar.symbol) == Some(i)
    ensures ProcessBar(setup, v, bar, step).1 == TradeOn(setup, v.book.positions[i], bar, step)
  {
    hide SimulateFill, Equity, TradeOf, Find;
    FindReplaced(v.book.positions, i, bar.symbol, v.book.positions[i].Observed(bar.high, bar.low));
  }

  lemma {:induction false} WholePositionFills(setup: Setup, quantity: real, reference: real, step: Option<real>)
    requires quantity > 0.0 && OnGrid(quantity, step)
    ensures var fill := ExitFill(setup, quantity, reference, step);
            && (fill.IsEmpty() <==> reference <= 0.0)
            && (!fill.IsEmpty() ==> fill.price == ApplySlippage(reference, Sell, setup.config.slippageBps))
  {
    if reference > 0.0 {
      GridQuantityFillsInFull(quantity, reference, Sell, setup.config.feeRate, setup.config.slippageBps, step);
    }
  }

  /** Different references are sold at different prices. */
  lemma {:induction false} SalesAreOrdered(a: real, b: real, slippageBps: real)
    requires 0.0 <= slippageBps < BPS
    ensures ApplySlippage(a, Sell, slippageBps) == ApplySlippage(b, Sell, slippageBps) <==> a == b
  {
    var keep := 1.0 - slippageBps / BPS;
    assert ApplySlippage(a, Sell, slippageBps) == a * keep;
    assert ApplySlippage(b, Sell, slippageBps) == b * keep;
    if a < b {
      assert (b - a) * keep > 0.0;
    } else if b < a {
      assert (a - b) * keep > 0.0;
    }
  }

  /** The trade left at this price, less slippage. */
  ghost predicate SoldAt(setup: Setup, t: Trade, reference: real) {
    t.exitPrice == ApplySlippage(reference, Sell, setup.config.slippageBps)
  }

  /** A sale has one reference. */
  lemma {:induction false} SalesOf(setup: Setup, t: Trade, left: real)
    requires setup.InRange() && SoldAt(setup, t, left)
    ensures forall reference :: SoldAt(setup, t, reference) ==> reference == left
  {
    hide ApplySlippage;
    forall reference | SoldAt(setup, t, reference) ensures reference == left {
      SalesAreOrdered(reference, left, setup.config.slippageBps);
    }
  }

  /**
   * A candle closes a position, whole, exactly when its stop is hit and is a price above zero or, with
   * the stop not hit, its target is; and at the stop, if hit, or else the target, less slippage.
   */
  lemma {:induction false} WhenACandleCloses(setup: Setup, v: Venue, bar: Bar, step: Option<real>, i: nat)
    requires Find(v.book.positions, bar.symbol) == Some(i)
    requires v.book.positions[i].quantity > 0.0 && OnGrid(v.book.positions[i].quantity, step)
    ensures var p, trade := v.book.positions[i], ProcessBar(setup, v, bar, step).1;
            && (trade.Some? <==> if StopHit(p, bar) then p.stopLoss.value > 0.0
                                 else TargetHit(p, bar) && p.takeProfit.value > 0.0)
            && (trade.Some? ==>
                  && trade.value.quantity == p.quantity && trade.value.exitTime == bar.time
                  && SoldAt(setup, trade.value, if StopHit(p, bar) then p.stopLoss.value else p.takeProfit.value))
  {
    hide SimulateFill, ApplySlippage, OnGrid, ProcessBar, Find;
    BarTrades(setup, v, bar, step, i);
    var p := v.book.positions[i];
    var reason := ExitReasonForBar(bar.high, bar.low, p.stopLoss, p.takeProfit);
    if reason.Some? {
      WholePositionFills(setup, p.quantity, ExitPrice(p, reason.value), step);
    }
  }

  /** The trade left, before slippage, at a price of the candle. */
  ghost predicate SoldInRange(setup: Setup, bar: Bar, t: Trade) {
    exists reference :: InRangeOf(bar, reference) && SoldAt(setup, t, reference)
  }

  /**
   * An exit on a candle is, before slippage, at a price the candle traded if and only if a stop that
   * is hit is not above the high or, with the stop not hit, the target is not below the low: after a
   * gap the order's own price is taken although the market was never there.
   */
  lemma {:induction false} WhenExitsAreInRange(setup: Setup, v: Venue, bar: Bar, step: Option<real>, i: nat)
    requires setup.InRange() && Find(v.book.positions, bar.symbol) == Some(i)
    requires v.book.positions[i].quantity > 0.0 && OnGrid(v.book.positions[i].quantity, step)
    requires ProcessBar(setup, v, bar, step).1.Some?
    ensures var p := v.book.positions[i];
            SoldInRange(setup, bar, ProcessBar(setup, v, bar, step).1.value)
            <==> if StopHit(p, bar) then p.stopLoss.value <= bar.high else p.takeProfit.value >= bar.low
  {
    hide ApplySlippage, OnGrid, ProcessBar, Find;
    WhenACandleCloses(setup, v, bar, step, i);
    var p, t := v.book.positions[i], ProcessBar(setup, v, bar, step).1.value;
    SalesOf(setup, t, if StopHit(p, bar) then p.stopLoss.value else p.takeProfit.value);
  }

  /** No better than the highest price of the candle, nor than any order of the position that is hit. */
  ghost predicate Pessimistic(p: Position, bar: Bar, reference: real) {
    && reference <= bar.high
    && (StopHit(p, bar) ==> reference <= p.stopLoss.value)
    && (TargetHit(p, bar) ==> reference <= p.takeProfit.value)
  }

  /** A stop that is hit but gapped over, or that has a target below it that is hit as well. */
  ghost predicate StopFlatters(p: Position, bar: Bar) {
    && StopHit(p, bar)
    && (p.stopLoss.value > bar.high || (TargetHit(p, bar) && p.takeProfit.value < p.stopLoss.value))
  }

  /**
   * An exit on a candle flatters no result, being at a price no better than the candle's high and than
   * either order that is hit, if and only if it is not at a stop above the high nor above a target that
   * is hit.
   */
  lemma {:induction false} WhenExitsArePessimistic(setup: Setup, v: Venue, bar: Bar, step: Option<real>, i: nat)
    requires setup.InRange() && Find(v.book.positions, bar.symbol) == Some(i)
    requires v.book.positions[i].quantity > 0.0 && OnGrid(v.book.positions[i].quantity, step)
    requires ProcessBar(setup, v, bar, step).1.Some?
    ensures var p, t := v.book.positions[i], ProcessBar(setup, v, bar, step).1.value;
            (exists reference :: Pessimistic(p, bar, reference) && SoldAt(setup, t, reference))
            <==> !StopFlatters(p, bar)
  {
    hide SoldAt, OnGrid, ProcessBar, Find;
    WhenACandleCloses(setup, v, bar, step, i);
    var p, t := v.book.positions[i], ProcessBar(setup, v, bar, step).1.value;
    var left := if StopHit(p, bar) then p.stopLoss.value else p.takeProfit.value;
    SalesOf(setup, t, left);
    assert Pessimistic(p, bar, left) <==> !StopFlatters(p, bar);
  }

  /** On a single live price, as a monitor sees the market, a sale is at that price just when the order is. */
  lemma {:induction false} WhenALivePriceIsTaken(
      setup: Setup, v: Venue, bar: Bar, step: Option<real>, i: nat)
    requires setup.InRange() && Find(v.book.positions, bar.symbol) == Some(i)
    requires v.book.positions[i].quantity > 0.0 && OnGrid(v.book.positions[i].quantity, step)
    requires bar.low == bar.high && ProcessBar(setup, v, bar, step).1.Some?
    ensures var p, t := v.book.positions[i], ProcessBar(setup, v, bar, step).1.value;
            SoldAt(setup, t, bar.low)
            <==> if StopHit(p, bar) then p.stopLoss.value == bar.low else p.takeProfit.value == bar.low
  {
    hide SoldAt, OnGrid, ProcessBar, Find;
    WhenACandleCloses(setup, v, bar, step, i);
    var p, t := v.book.positions[i], ProcessBar(setup, v, bar, step).1.value;
    SalesOf(setup, t, if StopHit(p, bar) then p.stopLoss.value else p.takeProfit.value);
  }

  // --- Exits that flatter -----------------------------------------------

  function Held(stop: real, target: Option<real>): Position {
    Position("BTCUSDT", 1.0, 100.0, 0, Some(stop), target, None, 0.0, Some(100.0), Some(100.0), None)
  }

  function Frictionless(): Setup {
    Setup(SimulatorConfig(0.0, 0.0, true), RiskConfig(1.0, 1.0, 1.0, 1.0, 1, 1.0, 1.0, 1, 0.0, 0.0, 0.0, 1, true, 0))
  }

  /** The market opens below the stop and never comes back to it: the sale is at the stop. */
  lemma {:induction false} GapsAreUnderstated()
    ensures var p, bar := Held(90.0, None), Bar("BTCUSDT", 1, 75.0, 75.0, 70.0, 72.0);
            var t := TradeOn(Frictionless(), p, bar, None);
            && Frictionless().InRange() && StopFlatters(p, bar) && t.Some?
            && t.value.exitPrice == 90.0 && !SoldInRange(Frictionless(), bar, t.value)
  {
    WholePositionFills(Frictionless(), 1.0, 90.0, None);
    var t := TradeOn(Frictionless(), Held(90.0, None), Bar("BTCUSDT", 1, 75.0, 75.0, 70.0, 72.0), None).value;
    SalesOf(Frictionless(), t, 90.0);
  }

  /** A target asked for below the stop, both within the candle, and the sale is at the better price. */
  lemma {:induction false} ExitsCanFlatter()
    ensures var p, bar := Held(90.0, Some(80.0)), Bar("BTCUSDT", 1, 95.0, 95.0, 70.0, 75.0);
            var t := TradeOn(Frictionless(), p, bar, None);
            && StopFlatters(p, bar) && InRangeOf(bar, 80.0) && InRangeOf(bar, 90.0)
            && t.Some? && t.value.exitPrice == 90.0
  {
    WholePositionFills(Frictionless(), 1.0, 90.0, None);
  }

  /**
   * The trail never helps the exit of its own candle: whatever the trailing distance, the trade made
   * on the candle is the same.
   */
  lemma {:induction false} TheTrailComesAfterTheExit(
      setup: Setup, v: Venue, bar: Bar, step: Option<real>, i: nat, distance: Option<real>)
    requires Find(v.book.positions, bar.symbol) == Some(i)
    ensures var other := v.(book := Replaced(v.book, i, v.book.positions[i].(trailingDistance := distance)));
            ProcessBar(setup, other, bar, step).1 == ProcessBar(setup, v, bar, step).1
  {
    hide SimulateFill, ProcessBar, Find, TradeOf;
    var q := v.book.positions[i].(trailingDistance := distance);
    FindReplaced(v.book.positions, i, bar.symbol, q);
    BarTrades(setup, v, bar, step, i);
    BarTrades(setup, v.(book := Replaced(v.book, i, q)), bar, step, i);
    TradeIgnoresTheTrail(setup, v.book.positions[i], bar, step, distance);
  }

  lemma {:induction false} TradeIgnoresTheTrail(
      setup: Setup, p: Position, bar: Bar, step: Option<real>, distance: Option<real>)
    ensures TradeOn(setup, p.(trailingDistance := distance), bar, step) == TradeOn(setup, p, bar, step)
  {
    hide SimulateFill;
    var q := p.(trailingDistance := distance);
    var reason := ExitReasonForBar(bar.high, bar.low, p.stopLoss, p.takeProfit);
    if reason.Some? {
      var fill := ExitFill(setup, p.quantity, ExitPrice(p, reason.value), step);
      assert fill == ExitFill(setup, q.quantity, ExitPrice(q, reason.value), step);
      RecordIgnoresTheTrail(p.Observed(bar.high, bar.low), fill, bar.time, reason.value, distance);
      assert q.Observed(bar.high, bar.low) == p.Observed(bar.high, bar.low).(trailingDistance := distance);
    }
  }

  lemma {:induction false} RecordIgnoresTheTrail(
      p: Position, fill: Fill, time: int, reason: string, distance: Option<real>)
    ensures TradeOf(p.(trailingDistance := distance), fill.price, fill.fee, fill.slippageCost, time, reason)
            == TradeOf(p, fill.price, fill.fee, fill.slippageCost, time, reason)
  {
    var q := p.(trailingDistance := distance);
    assert p.Mae() == q.Mae() && p.Mfe() == q.Mfe() && p.CostBasis() == q.CostBasis();
    assert (fill.price - p.entryPrice) * p.quantity == (fill.price - q.entryPrice) * q.quantity;
  }
}
