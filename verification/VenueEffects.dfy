/** What each call on the venue leaves behind, said from what it was called with. */
module VenueEffects {
  import opened Wrappers
  import opened Sums
  import opened Fills
  import opened RiskEngine
  import opened Books
  import opened Simulator
  import opened SimulatorProofs
  import opened SimulatorExits

  // --- Worth --------------------------------------------------------------

  /** The holdings at their prices, each without a price at what it was bought for. */
  ghost function Worth(positions: seq<Position>, prices: Prices): real {
    if positions == [] then 0.0
    else
      var p := positions[|positions| - 1];
      Worth(positions[..|positions| - 1], prices)
      + p.quantity * (if p.symbol in prices then prices[p.symbol] else p.entryPrice)
  }

  /** What selling the holdings at their prices would gain, entry fees deducted. */
  ghost function Gain(positions: seq<Position>, prices: Prices): real {
    if positions == [] then 0.0
    else
      var p := positions[|positions| - 1];
      var price := if p.symbol in prices then prices[p.symbol] else p.entryPrice;
      Gain(positions[..|positions| - 1], prices) + (price - p.entryPrice) * p.quantity - p.feesPaid
  }

  lemma {:induction false} MarksAreWorth(positions: seq<Position>, prices: Prices)
    ensures SumOf(positions, (p: Position) => p.MarketValue(PriceOf(prices, p))) == Worth(positions, prices)
    ensures SumOf(positions, (p: Position) => p.UnrealisedPnl(PriceOf(prices, p))) == Gain(positions, prices)
    decreases |positions|
  {
    if positions != [] {
      MarksAreWorth(positions[..|positions| - 1], prices);
    }
  }

  /** Equity is cash and the worth of the holdings; the unrealised result is their gain. */
  lemma {:induction false} EquityIsCashAndWorth(b: Book, prices: Prices)
    ensures Equity(b, prices) == b.cash + Worth(b.positions, prices)
    ensures UnrealisedPnl(b, prices) == Gain(b.positions, prices)
  {
    MarksAreWorth(b.positions, prices);
  }

  /** A new venue has its balance for cash and for peak, nothing held and nothing done. */
  lemma {:induction false} WhatAVenueStartsWith(balance: real)
    ensures var v := NewVenue(balance);
            && v.book.cash == v.book.initialBalance == v.book.peakEquity == balance
            && v.book.positions == [] && v.book.closed == [] && v.book.realisedPnl == v.book.totalFees == 0.0
            && v.lastExit == map[] && v.rejectedCount == 0
  {
  }

  // --- Buying -------------------------------------------------------------

  /** How much of a size is bought: what is on offer of it, rounded down to the lot grid. */
  function Bought(setup: Setup, size: real, o: Order): real {
    var available := if setup.config.allowPartialFills && o.liquidity.Some? && o.liquidity.value < size
                     then o.liquidity.value else size;
    RoundDownToStep(available, o.step)
  }

  /** The position an order makes of what was bought. */
  ghost predicate BoughtFor(setup: Setup, o: Order, quantity: real, p: Position) {
    && p.symbol == o.symbol && p.quantity == quantity && p.entryTime == o.time
    && p.entryPrice == o.reference * (1.0 + setup.config.slippageBps / 10000.0)
    && p.feesPaid == setup.config.feeRate * (quantity * p.entryPrice)
    && p.stopLoss == o.stopLoss && p.takeProfit == o.takeProfit && p.trailingDistance == o.trailingDistance
    && p.signalId == o.signalId && p.highestPrice == p.lowestPrice == Some(p.entryPrice)
  }

  /** The venue with a position added and paid for, and no other change. */
  ghost predicate PaidFor(v: Venue, w: Venue, p: Position) {
    && w.book == v.book.(positions := v.book.positions + [p], cash := w.book.cash, totalFees := w.book.totalFees)
    && w.book.cash == v.book.cash - p.quantity * p.entryPrice - p.feesPaid
    && w.book.totalFees == v.book.totalFees + p.feesPaid
    && w.lastExit == v.lastExit && w.rejectedCount == v.rejectedCount
  }

  ghost predicate NothingBought(setup: Setup, size: real, o: Order) {
    size <= 0.0 || o.reference <= 0.0 || Bought(setup, size, o) <= 0.0
  }

  /**
   * An open buys what its approval allows. Without an approval it raises; if nothing fills it does
   * nothing; if what fills costs more than the cash it raises, and so it does, the cost being covered,
   * if the symbol is held already.
   */
  lemma {:induction false} WhatAnOpenDoes(setup: Setup, v: Venue, a: Assessment, o: Order)
    requires setup.InRange()
    ensures var r := OpenPosition(setup, v, a, o);
            if !a.Approved? || !a.size.Sized? then r == Err(NotApproved)
            else if NothingBought(setup, a.size.quantity, o) then r == Ok((v, None))
            else
              var quantity := Bought(setup, a.size.quantity, o);
              var price := o.reference * (1.0 + setup.config.slippageBps / 10000.0);
              if quantity * price + setup.config.feeRate * (quantity * price) > v.book.cash then
                r == Err(CostExceedsBalance)
              else if exists p <- v.book.positions :: p.symbol == o.symbol then r == Err(AlreadyOpen)
              else
                && r.Ok? && r.value.1.Some?
                && BoughtFor(setup, o, quantity, r.value.1.value) && PaidFor(v, r.value.0, r.value.1.value)
  {
    hide Find, RoundDownToStep, ApplySlippage, EntryFill, Opened, PaidFor, Bought;
    if a.Approved? && a.size.Sized? {
      FillOfABuy(setup, a.size.quantity, o);
      if !NothingBought(setup, a.size.quantity, o) {
        var p := PositionFor(o, EntryFill(setup, a.size.quantity, o));
        FilledPosition(setup, a.size.quantity, o);
        WhenAnOpenRaises(v, p);
      }
    }
  }

  lemma {:induction false} FilledPosition(setup: Setup, size: real, o: Order)
    requires setup.InRange() && !NothingBought(setup, size, o)
    ensures BoughtFor(setup, o, Bought(setup, size, o), PositionFor(o, EntryFill(setup, size, o)))
  {
    hide RoundDownToStep, ApplySlippage, EntryFill;
    FillOfABuy(setup, size, o);
    SlippageIsNeverFavourable(o.reference, setup.config.slippageBps);
  }

  /** A book takes a position in if it can pay for it and, then, holds nothing in its symbol. */
  lemma {:induction false} WhenAnOpenRaises(v: Venue, p: Position)
    ensures var r := Opened(v.book, p);
            if p.quantity * p.entryPrice + p.feesPaid > v.book.cash then r == Err(CostExceedsBalance)
            else if exists q <- v.book.positions :: q.symbol == p.symbol then r == Err(AlreadyOpen)
            else r.Ok? && PaidFor(v, v.(book := r.value), p)
  {
    hide Find;
    var at := Find(v.book.positions, p.symbol);
    assert at.Some? ==> v.book.positions[at.value] in v.book.positions;
  }

  lemma {:induction false} FillOfABuy(setup: Setup, size: real, o: Order)
    ensures var fill := EntryFill(setup, size, o);
            if NothingBought(setup, size, o) then fill.IsEmpty()
            else
              && !fill.IsEmpty() && fill.quantity == Bought(setup, size, o)
              && fill.price == ApplySlippage(o.reference, Buy, setup.config.slippageBps)
              && fill.fee == setup.config.feeRate * (fill.quantity * fill.price)
  {
    hide RoundDownToStep, ApplySlippage;
    var fill := EntryFill(setup, size, o);
    FeeCommutes(fill.quantity, fill.price, setup.config.feeRate);
  }

  // --- Selling ------------------------------------------------------------

  /** Whether a sale at `reference` fills at all. */
  ghost predicate Sells(p: Position, reference: real, step: Option<real>) {
    p.quantity > 0.0 && reference > 0.0 && RoundDownToStep(p.quantity, step) > 0.0
  }

  /** The excursion to `extreme`, as a fraction of the entry price. */
  ghost predicate Excursion(extreme: Option<real>, p: Position, fraction: Option<real>) {
    && (fraction.Some? <==> extreme.Some? && p.entryPrice > 0.0)
    && (fraction.Some? ==> fraction.value * p.entryPrice == extreme.value - p.entryPrice)
  }

  /** The record of a sale of `p` at `reference`: its slippage, both fees, its result and its excursions. */
  ghost predicate Records(
      setup: Setup, p: Position, t: Trade, reference: real, time: int, reason: string, step: Option<real>)
  {
    var filled := RoundDownToStep(p.quantity, step);
    && t.symbol == p.symbol && t.quantity == p.quantity && t.signalId == p.signalId
    && t.entryPrice == p.entryPrice && t.entryTime == p.entryTime
    && t.exitPrice == reference * (1.0 - setup.config.slippageBps / 10000.0)
    && t.exitTime == time && t.exitReason == reason
    && t.grossPnl == (t.exitPrice - p.entryPrice) * p.quantity
    && t.fees == p.feesPaid + setup.config.feeRate * (filled * t.exitPrice)
    && t.slippageCost == (reference - t.exitPrice) * filled
    && t.netPnl == t.grossPnl - t.fees
    && (if p.quantity * p.entryPrice > 0.0 then t.returnPct * (p.quantity * p.entryPrice) == t.netPnl
        else t.returnPct == 0.0)
    && Excursion(p.lowestPrice, p, t.mae) && Excursion(p.highestPrice, p, t.mfe)
  }

  /** The venue with its `i`-th position sold, and no other change. */
  ghost predicate SoldOff(v: Venue, w: Venue, i: nat, t: Trade)
    requires i < |v.book.positions|
  {
    var exitFee := t.fees - v.book.positions[i].feesPaid;
    && w.book == v.book.(positions := v.book.positions[..i] + v.book.positions[i + 1..],
                         closed := v.book.closed + [t], cash := w.book.cash,
                         totalFees := w.book.totalFees, realisedPnl := w.book.realisedPnl)
    && w.book.cash == v.book.cash + t.quantity * t.exitPrice - exitFee
    && w.book.totalFees == v.book.totalFees + exitFee
    && w.book.realisedPnl == v.book.realisedPnl + t.netPnl
    && w.lastExit == v.lastExit[t.symbol := t.exitTime] && w.rejectedCount == v.rejectedCount
  }

  lemma {:induction false} FillOfASale(setup: Setup, p: Position, reference: real, step: Option<real>)
    requires setup.InRange()
    ensures var fill := ExitFill(setup, p.quantity, reference, step);
            if !Sells(p, reference, step) then fill.IsEmpty()
            else
              && !fill.IsEmpty() && fill.quantity == RoundDownToStep(p.quantity, step)
              && fill.price == reference * (1.0 - setup.config.slippageBps / 10000.0)
              && fill.fee == setup.config.feeRate * (fill.quantity * fill.price)
              && fill.slippageCost == (reference - fill.price) * fill.quantity
  {
    hide RoundDownToStep, ApplySlippage;
    if reference > 0.0 {
      SlippageIsNeverFavourable(reference, setup.config.slippageBps);
    }
    var fill := ExitFill(setup, p.quantity, reference, step);
    FeeCommutes(fill.quantity, fill.price, setup.config.feeRate);
  }

  lemma {:induction false} QuotientTimes(x: real, y: real)
    requires y > 0.0
    ensures (x / y) * y == x
  {
  }

  lemma {:induction false} ExcursionsOf(p: Position)
    ensures Excursion(p.lowestPrice, p, p.Mae()) && Excursion(p.highestPrice, p, p.Mfe())
  {
    if p.entryPrice > 0.0 && p.lowestPrice.Some? {
      QuotientTimes(p.lowestPrice.value - p.entryPrice, p.entryPrice);
    }
    if p.entryPrice > 0.0 && p.highestPrice.Some? {
      QuotientTimes(p.highestPrice.value - p.entryPrice, p.entryPrice);
    }
  }

  lemma {:induction false} ReturnOf(p: Position, price: real, fee: real, cost: real, time: int, reason: string)
    ensures var t := TradeOf(p, price, fee, cost, time, reason);
            if p.quantity * p.entryPrice > 0.0 then t.returnPct * (p.quantity * p.entryPrice) == t.netPnl
            else t.returnPct == 0.0
  {
    TradesAddUp(p, price, fee, cost, time, reason);
  }

  lemma {:induction false} RecordOfASale(
      setup: Setup, p: Position, fill: Fill, reference: real, time: int, reason: string, step: Option<real>)
    requires fill.price == reference * (1.0 - setup.config.slippageBps / 10000.0)
    requires fill.fee == setup.config.feeRate * (RoundDownToStep(p.quantity, step) * fill.price)
    requires fill.slippageCost == (reference - fill.price) * RoundDownToStep(p.quantity, step)
    ensures Records(setup, p, TradeOf(p, fill.price, fill.fee, fill.slippageCost, time, reason),
                    reference, time, reason, step)
  {
    hide RoundDownToStep, Excursion;
    ExcursionsOf(p);
    ReturnOf(p, fill.price, fill.fee, fill.slippageCost, time, reason);
  }

  /** A close sells the whole position at the reference less slippage, or does nothing at all. */
  lemma {:induction false} WhatACloseDoes(
      setup: Setup, v: Venue, symbol: string, reference: real, time: int, reason: string, step: Option<real>)
    requires setup.InRange()
    ensures var at, r := Find(v.book.positions, symbol),
              ClosePosition(setup, v, symbol, reference, time, reason, step);
            if at.None? || !Sells(v.book.positions[at.value], reference, step) then r == (v, None)
            else
              && r.1.Some? && Records(setup, v.book.positions[at.value], r.1.value, reference, time, reason, step)
              && SoldOff(v, r.0, at.value, r.1.value)
  {
    hide RoundDownToStep, ExitFill, Records, Find, Sells;
    var at := Find(v.book.positions, symbol);
    if at.Some? {
      var p := v.book.positions[at.value];
      FillOfASale(setup, p, reference, step);
      var fill := ExitFill(setup, p.quantity, reference, step);
      if Sells(p, reference, step) {
        RecordOfASale(setup, p, fill, reference, time, reason, step);
      }
    }
  }

  // --- Closing everything ---------------------------------------------------

  /** Each position in turn is sold at its symbol's price or, for want of one, at what it was bought for. */
  ghost predicate RecordsEach(
      setup: Setup, positions: seq<Position>, trades: seq<Trade>, prices: Prices, time: int, reason: string)
  {
    && |trades| == |positions|
    && forall i :: 0 <= i < |positions| ==>
         Records(setup, positions[i], trades[i],
                 if positions[i].symbol in prices then prices[positions[i].symbol] else positions[i].entryPrice,
                 time, reason, None)
  }

  /** At positive prices a forced close sells every position, in order, and leaves nothing else to do. */
  lemma {:induction false} WhatAForcedCloseDoes(setup: Setup, v: Venue, prices: Prices, time: int, reason: string)
    requires setup.InRange() && Sound(v) && forall s <- prices :: prices[s] > 0.0
    ensures var (w, trades) := ForceCloseAll(setup, v, prices, time, reason);
            && RecordsEach(setup, v.book.positions, trades, prices, time, reason)
            && w.book.positions == [] && w.book.closed == v.book.closed + trades
  {
    ForcedCloseLeavesNothing(setup, v, prices, time, reason);
    CloseEachAppends(setup, v, SymbolsOf(v.book.positions), prices, time, reason);
    CloseEachRecords(setup, v, SymbolsOf(v.book.positions), prices, time, reason);
  }

  lemma {:induction false} CloseEachRecords(
      setup: Setup, v: Venue, symbols: seq<string>, prices: Prices, time: int, reason: string)
    requires setup.InRange() && Sound(v) && symbols == SymbolsOf(v.book.positions)
    requires forall s <- prices :: prices[s] > 0.0
    ensures RecordsEach(setup, v.book.positions, CloseEach(setup, v, symbols, prices, time, reason).1, prices, time,
                        reason)
    decreases |symbols|
  {
    if symbols != [] {
      var positions := v.book.positions;
      assert SymbolsOf(positions[1..]) == symbols[1..];
      var reference := PriceOf(prices, positions[0]);
      FirstIsRecorded(setup, v, prices, time, reason);
      var (next, trade) := ClosePosition(setup, v, symbols[0], reference, time, reason, None);
      FirstOfEach(setup, v, symbols, prices, time, reason);
      hide Sound, ClosePosition, CloseEach, PriceOf, SymbolsOf, Records, RecordsEach;
      CloseEachRecords(setup, next, symbols[1..], prices, time, reason);
      OneMoreRecord(setup, positions, trade.value,
                    CloseEach(setup, next, symbols[1..], prices, time, reason).1, prices, time, reason);
    }
  }

  lemma {:induction false} FirstOfEach(
      setup: Setup, v: Venue, symbols: seq<string>, prices: Prices, time: int, reason: string)
    requires symbols != [] && Find(v.book.positions, symbols[0]).Some?
    ensures var p := v.book.positions[Find(v.book.positions, symbols[0]).value];
            var (next, trade) := ClosePosition(setup, v, symbols[0], PriceOf(prices, p), time, reason, None);
            CloseEach(setup, v, symbols, prices, time, reason).1
            == (if trade.Some? then [trade.value] else [])
               + CloseEach(setup, next, symbols[1..], prices, time, reason).1
  {
    hide ClosePosition, Find, PriceOf;
  }

  lemma {:induction false} FirstIsRecorded(setup: Setup, v: Venue, prices: Prices, time: int, reason: string)
    requires setup.InRange() && Sound(v) && v.book.positions != [] && forall s <- prices :: prices[s] > 0.0
    ensures var p := v.book.positions[0];
            var reference := PriceOf(prices, p);
            var (next, trade) := ClosePosition(setup, v, p.symbol, reference, time, reason, None);
            && Find(v.book.positions, p.symbol) == Some(0)
            && trade.Some? && Records(setup, p, trade.value, reference, time, reason, None)
            && Sound(next) && next.book.positions == v.book.positions[1..]
  {
    FirstSells(v, prices);
    hide Sound, ClosePosition, Find, PriceOf, Records, Sells, SoldOff;
    var p := v.book.positions[0];
    ClosesTheFirst(setup, v, prices, time, reason);
    WhatACloseDoes(setup, v, p.symbol, PriceOf(prices, p), time, reason, None);
    CloseIsSound(setup, v, p.symbol, PriceOf(prices, p), time, reason, None);
  }

  lemma {:induction false} OneMoreRecord(
      setup: Setup, positions: seq<Position>, first: Trade, rest: seq<Trade>, prices: Prices, time: int, reason: string)
    requires positions != []
    requires Records(setup, positions[0], first, PriceOf(prices, positions[0]), time, reason, None)
    requires RecordsEach(setup, positions[1..], rest, prices, time, reason)
    ensures RecordsEach(setup, positions, [first] + rest, prices, time, reason)
  {
    hide Records;
    forall i | 0 < i < |positions|
      ensures positions[i] == positions[1..][i - 1] && ([first] + rest)[i] == rest[i - 1]
    {
    }
  }

  lemma {:induction false} FirstSells(v: Venue, prices: Prices)
    requires Sound(v) && v.book.positions != [] && forall s <- prices :: prices[s] > 0.0
    ensures var p := v.book.positions[0];
            && PriceOf(prices, p) == (if p.symbol in prices then prices[p.symbol] else p.entryPrice)
            && Sells(p, PriceOf(prices, p), None)
  {
    assert v.book.positions[0] in v.book.positions;
    hide Balanced;
  }

  // --- One candle -----------------------------------------------------------

  /** The excursions of `q` are those of `p` with the candle's. */
  ghost predicate Widens(p: Position, q: Position, bar: Bar) {
    && q.highestPrice.Some? && q.highestPrice.value >= bar.high
    && (p.highestPrice.Some? ==> q.highestPrice.value >= p.highestPrice.value)
    && (q.highestPrice == Some(bar.high) || q.highestPrice == p.highestPrice)
    && q.lowestPrice.Some? && q.lowestPrice.value <= bar.low
    && (p.lowestPrice.Some? ==> q.lowestPrice.value <= p.lowestPrice.value)
    && (q.lowestPrice == Some(bar.low) || q.lowestPrice == p.lowestPrice)
  }

  /** The stop of `q` is that of `p`, or the candle's high less the distance where that is higher. */
  ghost predicate Trails(p: Position, q: Position, bar: Bar) {
    if p.trailingDistance.Some? && p.trailingDistance.value > 0.0 then
      var trail := bar.high - p.trailingDistance.value;
      q.stopLoss == if p.stopLoss.Some? && p.stopLoss.value >= trail then p.stopLoss else Some(trail)
    else
      q.stopLoss == p.stopLoss
  }

  /** `q` is `p` but for its stop and its excursions. */
  ghost predicate SameButFor(p: Position, q: Position) {
    q == p.(stopLoss := q.stopLoss, highestPrice := q.highestPrice, lowestPrice := q.lowestPrice)
  }

  /** The peak is raised to the equity at the close, which marks the symbol of the candle alone. */
  ghost predicate PeakFollows(v: Venue, w: Venue, bar: Bar) {
    var equity := w.book.cash + Worth(w.book.positions, map[bar.symbol := bar.close]);
    w.book.peakEquity == if v.book.peakEquity >= equity then v.book.peakEquity else equity
  }

  /** The venue with one position replaced and the peak moved, and no other change. */
  ghost predicate OnlyMoves(v: Venue, w: Venue, i: nat, q: Position)
    requires i < |v.book.positions|
  {
    w == v.(book := v.book.(positions := v.book.positions[i := q], peakEquity := w.book.peakEquity))
  }

  /** The order that a candle sets off, and the name of the exit. */
  ghost function SetOff(p: Position, bar: Bar): Option<(real, string)> {
    if StopHit(p, bar) then Some((p.stopLoss.value, "STOP_LOSS"))
    else if TargetHit(p, bar) then Some((p.takeProfit.value, "TAKE_PROFIT"))
    else None
  }

  /** What a candle leaves of a position that it sets no order of off. */
  ghost predicate RidesOn(v: Venue, w: Venue, i: nat, bar: Bar)
    requires i < |v.book.positions|
  {
    exists q :: && OnlyMoves(v, w, i, q) && SameButFor(v.book.positions[i], q)
                && Widens(v.book.positions[i], q, bar) && Trails(v.book.positions[i], q, bar)
  }

  /** What it leaves of one whose order it sets off, but which does not fill. */
  ghost predicate StaysUnsold(v: Venue, w: Venue, i: nat, bar: Bar)
    requires i < |v.book.positions|
  {
    exists q :: && OnlyMoves(v, w, i, q) && SameButFor(v.book.positions[i], q)
                && Widens(v.book.positions[i], q, bar) && q.stopLoss == v.book.positions[i].stopLoss
  }

  /** The position, its excursions widened by the candle, is sold at the order's price. */
  ghost predicate LeavesOn(
      setup: Setup, v: Venue, w: Venue, i: nat, bar: Bar, t: Trade, order: (real, string), step: Option<real>)
    requires i < |v.book.positions|
  {
    exists q :: && SameButFor(v.book.positions[i], q) && q.stopLoss == v.book.positions[i].stopLoss
                && Widens(v.book.positions[i], q, bar)
                && Records(setup, q, t, order.0, bar.time, order.1, step)
                && SoldOff(v, w.(book := w.book.(peakEquity := v.book.peakEquity)), i, t)
  }

  /**
   * A candle widens the excursions, then sells by the standing orders or else moves the stop up to
   * the distance below its high, and last raises the peak. It touches no other position.
   */
  lemma {:induction false} WhatACandleDoes(setup: Setup, v: Venue, bar: Bar, step: Option<real>)
    requires setup.InRange()
    ensures var at, (w, t) := Find(v.book.positions, bar.symbol), ProcessBar(setup, v, bar, step);
            && PeakFollows(v, w, bar)
            && if at.None? then t.None? && w == v.(book := v.book.(peakEquity := w.book.peakEquity))
               else
                 var i, p := at.value, v.book.positions[at.value];
                 match SetOff(p, bar)
                 case None => t.None? && RidesOn(v, w, i, bar)
                 case Some(order) =>
                   if !Sells(p, order.0, step) then t.None? && StaysUnsold(v, w, i, bar)
                   else t.Some? && LeavesOn(setup, v, w, i, bar, t.value, order, step)
  {
    PeakIsRaised(setup, v, bar, step);
    hide PeakFollows, Worth, Equity, RoundDownToStep, ClosePosition, Find;
    var at := Find(v.book.positions, bar.symbol);
    if at.Some? {
      var i, p := at.value, v.book.positions[at.value];
      var q := p.Observed(bar.high, bar.low);
      assert SameButFor(p, q) && Widens(p, q, bar);
      FindReplaced(v.book.positions, i, bar.symbol, q);
      var order := SetOff(p, bar);
      if order.None? {
        TrailedTrails(p, q, bar);
        assert OnlyMoves(v, ProcessBar(setup, v, bar, step).0, i, Trailed(q, bar));
      } else {
        ExitOnACandle(setup, v, bar, step, i);
      }
    }
  }

  lemma {:induction false} TrailedTrails(p: Position, q: Position, bar: Bar)
    requires q == p.Observed(bar.high, bar.low)
    ensures SameButFor(p, Trailed(q, bar)) && Widens(p, Trailed(q, bar), bar) && Trails(p, Trailed(q, bar), bar)
  {
  }

  lemma {:induction false} PeakIsRaised(setup: Setup, v: Venue, bar: Bar, step: Option<real>)
    requires setup.InRange()
    ensures PeakFollows(v, ProcessBar(setup, v, bar, step).0, bar)
  {
    var w := ProcessBar(setup, v, bar, step).0;
    EquityIsCashAndWorth(w.book, map[bar.symbol := bar.close]);
    hide Worth, RoundDownToStep, ExitFill, TradeOf, Find;
    PeakIgnoresPeak(w.book, map[bar.symbol := bar.close]);
    ClosingKeepsThePeak(setup, v, bar, step);
  }

  lemma {:induction false} PeakIgnoresPeak(b: Book, prices: Prices)
    ensures forall peak: real :: Equity(b.(peakEquity := peak), prices) == Equity(b, prices)
  {
  }

  /** Before the last step of a candle the peak is the old one. */
  lemma {:induction false} ClosingKeepsThePeak(setup: Setup, v: Venue, bar: Bar, step: Option<real>)
    ensures exists u: Venue :: u.book.peakEquity == v.book.peakEquity
                               && ProcessBar(setup, v, bar, step).0 == PeakAt(u, bar.symbol, bar.close)
  {
    hide ExitFill, TradeOf, Find, Equity, WithPeak;
    var at := Find(v.book.positions, bar.symbol);
    if at.None? {
      assert ProcessBar(setup, v, bar, step).0 == PeakAt(v, bar.symbol, bar.close);
    } else {
      var watched := Watched(v, at.value, bar);
      var p := watched.book.positions[at.value];
      match ExitReasonForBar(bar.high, bar.low, p.stopLoss, p.takeProfit)
      case None =>
        var u := watched.(book := Replaced(watched.book, at.value, Trailed(p, bar)));
        assert ProcessBar(setup, v, bar, step).0 == PeakAt(u, bar.symbol, bar.close);
      case Some(reason) =>
        var u := ClosePosition(setup, watched, bar.symbol, ExitPrice(p, reason), bar.time, reason, step).0;
        assert u.book.peakEquity == v.book.peakEquity;
        assert ProcessBar(setup, v, bar, step).0 == PeakAt(u, bar.symbol, bar.close);
    }
  }

  lemma {:induction false} ExitOnACandle(setup: Setup, v: Venue, bar: Bar, step: Option<real>, i: nat)
    requires setup.InRange() && Find(v.book.positions, bar.symbol) == Some(i)
    requires SetOff(v.book.positions[i], bar).Some?
    ensures var (w, t), p := ProcessBar(setup, v, bar, step), v.book.positions[i];
            var order := SetOff(p, bar).value;
            if !Sells(p, order.0, step) then t.None? && StaysUnsold(v, w, i, bar)
            else t.Some? && LeavesOn(setup, v, w, i, bar, t.value, order, step)
  {
    hide Equity, RoundDownToStep, ClosePosition, Find, Records, WithPeak;
    var p := v.book.positions[i];
    var q, order := p.Observed(bar.high, bar.low), SetOff(p, bar).value;
    var watched := Watched(v, i, bar);
    FindReplaced(v.book.positions, i, bar.symbol, q);
    WhatACloseDoes(setup, watched, bar.symbol, order.0, bar.time, order.1, step);
    var u := ClosePosition(setup, watched, bar.symbol, order.0, bar.time, order.1, step).0;
    var (w, t) := ProcessBar(setup, v, bar, step);
    assert w == PeakAt(u, bar.symbol, bar.close);
    PeakTouchesOnlyThePeak(u, bar);
    if Sells(p, order.0, step) {
      assert SoldOff(v, u, i, t.value);
    } else {
      assert OnlyMoves(v, w, i, q);
    }
  }

  lemma {:induction false} PeakTouchesOnlyThePeak(u: Venue, bar: Bar)
    ensures var w := PeakAt(u, bar.symbol, bar.close);
            w == u.(book := u.book.(peakEquity := w.book.peakEquity))
  {
    hide Equity;
  }

  // --- When each symbol was last left ---------------------------------------

  /** The exit of the last trade in each symbol. */
  ghost function LastLeft(closed: seq<Trade>): map<string, int> {
    if closed == [] then map[]
    else
      var last := closed[|closed| - 1];
      LastLeft(closed[..|closed| - 1])[last.symbol := last.exitTime]
  }

  ghost predicate KnowsExits(v: Venue) {
    v.lastExit == LastLeft(v.book.closed)
  }

  lemma {:induction false} ClosingKnowsExits(
      setup: Setup, v: Venue, symbol: string, reference: real, time: int, reason: string, step: Option<real>)
    requires setup.InRange() && KnowsExits(v)
    ensures KnowsExits(ClosePosition(setup, v, symbol, reference, time, reason, step).0)
  {
    hide Sells, RoundDownToStep, Find, ClosePosition;
    WhatACloseDoes(setup, v, symbol, reference, time, reason, step);
  }

  lemma {:induction false} ClosingEachKnowsExits(
      setup: Setup, v: Venue, symbols: seq<string>, prices: Prices, time: int, reason: string)
    requires setup.InRange() && KnowsExits(v)
    ensures KnowsExits(CloseEach(setup, v, symbols, prices, time, reason).0)
    decreases |symbols|
  {
    hide ClosePosition, KnowsExits, PriceOf;
    if symbols != [] {
      var at := Find(v.book.positions, symbols[0]);
      if at.None? {
        ClosingEachKnowsExits(setup, v, symbols[1..], prices, time, reason);
      } else {
        var reference := PriceOf(prices, v.book.positions[at.value]);
        ClosingKnowsExits(setup, v, symbols[0], reference, time, reason, None);
        var next := ClosePosition(setup, v, symbols[0], reference, time, reason, None).0;
        ClosingEachKnowsExits(setup, next, symbols[1..], prices, time, reason);
      }
    }
  }

  lemma {:induction false} BarKnowsExits(setup: Setup, v: Venue, bar: Bar, step: Option<real>)
    requires setup.InRange() && KnowsExits(v)
    ensures KnowsExits(ProcessBar(setup, v, bar, step).0)
  {
    hide ClosePosition, Equity, Find, LastLeft;
    var at := Find(v.book.positions, bar.symbol);
    if at.Some? {
      var watched := Watched(v, at.value, bar);
      var p := watched.book.positions[at.value];
      var exit := ExitReasonForBar(bar.high, bar.low, p.stopLoss, p.takeProfit);
      if exit.Some? {
        ClosingKnowsExits(setup, watched, bar.symbol, ExitPrice(p, exit.value), bar.time, exit.value, step);
      }
    }
  }

  /** Whatever is asked of it, the venue knows of each symbol when it was last left, and of no other. */
  lemma {:induction false} EveryReachableVenueKnowsExits(setup: Setup, balance: real, ops: seq<Op>)
    requires setup.InRange()
    ensures KnowsExits(Run(setup, balance, ops))
    decreases |ops|
  {
    if ops != [] {
      var v, op := Run(setup, balance, ops[..|ops| - 1]), ops[|ops| - 1];
      EveryReachableVenueKnowsExits(setup, balance, ops[..|ops| - 1]);
      match op
      case Ask(entry, prices, now, system) => OthersKnowExits(setup, v, op);
      case Open(assessment, order) => OthersKnowExits(setup, v, op);
      case Close(symbol, reference, time, reason, step) =>
        ClosingKnowsExits(setup, v, symbol, reference, time, reason, step);
      case OnBar(bar, step) => BarKnowsExits(setup, v, bar, step);
      case ForceClose(prices, time, reason) =>
        ClosingEachKnowsExits(setup, v, SymbolsOf(v.book.positions), prices, time, reason);
    }
  }

  lemma {:induction false} OthersKnowExits(setup: Setup, v: Venue, op: Op)
    requires KnowsExits(v) && (op.Ask? || op.Open?)
    ensures KnowsExits(Apply(setup, v, op))
  {
    hide LastLeft, RiskEngine.Evaluate, EntryFill, Find;
  }
}
