/** The rebuilt paper account behaves as an engine that was never put down. */
module PaperLedgerProofs {
  import opened Wrappers
  import opened Sums
  import opened Fills
  import opened TradingLimits
  import opened RiskEngine
  import opened Books
  import opened Simulator
  import opened PaperLedger

  // --- What rebuilding keeps -------------------------------------------

  function PlainPosition(p: Position): Position {
    p.(highestPrice := None, lowestPrice := None)
  }

  function Plain(positions: seq<Position>): (r: seq<Position>)
    ensures |r| == |positions|
    ensures forall i :: 0 <= i < |r| ==> r[i] == PlainPosition(positions[i])
  {
    seq(|positions|, i requires 0 <= i < |positions| => PlainPosition(positions[i]))
  }

  function BareTrade(t: Trade): Trade {
    t.(mae := None, mfe := None)
  }

  function Bare(trades: seq<Trade>): (r: seq<Trade>)
    ensures |r| == |trades|
    ensures forall i :: 0 <= i < |r| ==> r[i] == BareTrade(trades[i])
  {
    seq(|trades|, i requires 0 <= i < |trades| => BareTrade(trades[i]))
  }

  /** A venue less its excursions, its peak and its count of refusals, which rebuilding loses. */
  function Core(v: Venue): Venue {
    Venue(v.book.(positions := Plain(v.book.positions), closed := Bare(v.book.closed), peakEquity := 0.0), 0,
        v.lastExit)
  }

  ghost predicate Agree(v: Venue, w: Venue) {
    Core(v) == Core(w)
  }

  // --- The engine does not look at what is lost --------------------------

  lemma {:induction false} PlainButTheLast(ps: seq<Position>, qs: seq<Position>)
    requires Plain(ps) == Plain(qs) && ps != []
    ensures |ps| == |qs| && Plain(ps[..|ps| - 1]) == Plain(qs[..|qs| - 1])
    ensures PlainPosition(ps[|ps| - 1]) == PlainPosition(qs[|qs| - 1])
  {
    assert |ps| == |Plain(ps)| == |Plain(qs)| == |qs|;
    forall k | 0 <= k < |ps| ensures PlainPosition(ps[k]) == PlainPosition(qs[k]) {
      assert Plain(ps)[k] == Plain(qs)[k];
    }
  }

  lemma {:induction false} BareButTheLast(ts: seq<Trade>, us: seq<Trade>)
    requires Bare(ts) == Bare(us) && ts != []
    ensures |ts| == |us| && Bare(ts[..|ts| - 1]) == Bare(us[..|us| - 1])
    ensures BareTrade(ts[|ts| - 1]) == BareTrade(us[|us| - 1])
  {
    assert |ts| == |Bare(ts)| == |Bare(us)| == |us|;
    forall k | 0 <= k < |ts| ensures BareTrade(ts[k]) == BareTrade(us[k]) {
      assert Bare(ts)[k] == Bare(us)[k];
    }
  }

  lemma {:induction false} PlainLength(ps: seq<Position>, qs: seq<Position>)
    requires Plain(ps) == Plain(qs)
    ensures |ps| == |qs|
  {
    assert |ps| == |Plain(ps)| == |Plain(qs)| == |qs|;
  }

  lemma {:induction false} FindPlain(ps: seq<Position>, qs: seq<Position>, symbol: string)
    requires Plain(ps) == Plain(qs)
    ensures Find(ps, symbol) == Find(qs, symbol)
    decreases |ps|
  {
    hide Plain;
    PlainLength(ps, qs);
    if ps != [] {
      PlainButTheLast(ps, qs);
      FindPlain(ps[..|ps| - 1], qs[..|qs| - 1], symbol);
    }
  }

  lemma {:induction false} SamePlain(ps: seq<Position>, qs: seq<Position>, i: nat)
    requires Plain(ps) == Plain(qs) && i < |ps|
    ensures |ps| == |qs| && PlainPosition(ps[i]) == PlainPosition(qs[i])
    ensures Plain(Without(ps, i)) == Plain(Without(qs, i))
  {
    assert |ps| == |Plain(ps)| == |Plain(qs)| == |qs|;
    forall k | 0 <= k < |ps| ensures PlainPosition(ps[k]) == PlainPosition(qs[k]) {
      assert Plain(ps)[k] == Plain(qs)[k];
    }
    assert Plain(Without(ps, i)) == Plain(Without(qs, i));
  }

  lemma {:induction false} SameBare(ts: seq<Trade>, us: seq<Trade>, t: Trade, u: Trade)
    requires Bare(ts) == Bare(us) && BareTrade(t) == BareTrade(u)
    ensures Bare(ts + [t]) == Bare(us + [u])
  {
    assert |ts| == |Bare(ts)| == |Bare(us)| == |us|;
    forall k | 0 <= k < |ts| ensures BareTrade(ts[k]) == BareTrade(us[k]) {
      assert Bare(ts)[k] == Bare(us)[k];
    }
  }

  lemma {:induction false} CloseAgrees(
      setup: Setup, v: Venue, w: Venue, symbol: string, reference: real, time: int, reason: string, step: Option<real>)
    requires Agree(v, w)
    ensures var (v', t) := ClosePosition(setup, v, symbol, reference, time, reason, step);
            var (w', u) := ClosePosition(setup, w, symbol, reference, time, reason, step);
            && Agree(v', w') && (t.Some? <==> u.Some?)
            && (t.Some? ==> BareTrade(t.value) == BareTrade(u.value))
  {
    hide SimulateFill, Find;
    FindPlain(v.book.positions, w.book.positions, symbol);
    var at := Find(v.book.positions, symbol);
    if at.Some? {
      var i := at.value;
      SamePlain(v.book.positions, w.book.positions, i);
      var p, q := v.book.positions[i], w.book.positions[i];
      var fill := ExitFill(setup, p.quantity, reference, step);
      if !fill.IsEmpty() {
        SameBare(v.book.closed, w.book.closed, TradeOf(p, fill.price, fill.fee, fill.slippageCost, time, reason),
                 TradeOf(q, fill.price, fill.fee, fill.slippageCost, time, reason));
      }
    }
  }

  lemma {:induction false} ValuesAgree(ps: seq<Position>, qs: seq<Position>, prices: Prices)
    requires Plain(ps) == Plain(qs)
    ensures SumOf(ps, (p: Position) => p.MarketValue(PriceOf(prices, p)))
            == SumOf(qs, (p: Position) => p.MarketValue(PriceOf(prices, p)))
    ensures SumOf(ps, (p: Position) => p.UnrealisedPnl(PriceOf(prices, p)))
            == SumOf(qs, (p: Position) => p.UnrealisedPnl(PriceOf(prices, p)))
    decreases |ps|
  {
    hide Plain;
    PlainLength(ps, qs);
    if ps != [] {
      PlainButTheLast(ps, qs);
      ValuesAgree(ps[..|ps| - 1], qs[..|qs| - 1], prices);
    }
  }

  lemma {:induction false} ExposuresAgree(ps: seq<Position>, qs: seq<Position>, prices: Prices)
    requires Plain(ps) == Plain(qs)
    ensures AssetExposure(ps, prices) == AssetExposure(qs, prices)
    ensures EntryPrices(ps) == EntryPrices(qs)
    decreases |ps|
  {
    hide Plain;
    PlainLength(ps, qs);
    if ps != [] {
      PlainButTheLast(ps, qs);
      ExposuresAgree(ps[..|ps| - 1], qs[..|qs| - 1], prices);
      var p, q := ps[|ps| - 1], qs[|qs| - 1];
      assert p.MarketValue(PriceOf(prices, p)) == q.MarketValue(PriceOf(prices, q));
    }
  }

  lemma {:induction false} StreaksAgree(ts: seq<Trade>, us: seq<Trade>)
    requires Bare(ts) == Bare(us)
    ensures ConsecutiveLosses(ts) == ConsecutiveLosses(us)
    decreases |ts|
  {
    assert |ts| == |Bare(ts)| == |Bare(us)| == |us|;
    hide Bare;
    if ts != [] {
      BareButTheLast(ts, us);
      StreaksAgree(ts[..|ts| - 1], us[..|us| - 1]);
    }
  }

  /** To the risk engine, accounts that agree differ at most in their peak. */
  lemma {:induction false} AccountsAgree(v: Venue, w: Venue, prices: Prices)
    requires Agree(v, w)
    ensures AccountStateOf(w.book, prices) == AccountStateOf(v.book, prices).(peakEquity := w.book.peakEquity)
    ensures EntryPrices(v.book.positions) == EntryPrices(w.book.positions)
  {
    hide Plain, Bare, SumOf;
    ValuesAgree(v.book.positions, w.book.positions, prices);
    ExposuresAgree(v.book.positions, w.book.positions, prices);
    StreaksAgree(v.book.closed, w.book.closed);
    PlainLength(v.book.positions, w.book.positions);
  }

  /** Both peaks put the account on the same side of the drawdown limit. */
  ghost predicate SameSide(risk: RiskConfig, v: Venue, w: Venue, prices: Prices) {
    DrawdownFraction(AccountStateOf(v.book, prices)) >= risk.maxDrawdown
    <==> DrawdownFraction(AccountStateOf(w.book, prices)) >= risk.maxDrawdown
  }

  /**
   * Which peak is on record decides whether the drawdown halt fires and nothing else: two peaks give
   * one verdict if and only if they are on the same side of the limit, or a halt that comes before
   * that one fires in any case.
   */
  lemma {:induction false} OnlyTheDrawdownHaltCanDiffer(
      risk: RiskConfig, t: TradeRequest, a: AccountState, peak: real, s: SystemState)
    ensures Evaluate(risk, t, a, s) == Evaluate(risk, t, a.(peakEquity := peak), s)
            <==>
            || (DrawdownFraction(a) >= risk.maxDrawdown
                <==> DrawdownFraction(a.(peakEquity := peak)) >= risk.maxDrawdown)
            || !SystemTrusted(risk, s)
            || DailyLossFraction(a) >= risk.maxDailyLoss
  {
    hide DrawdownFraction, DailyLossFraction, TotalExposure, ExposureTo;
    LossIgnoresThePeak(a, peak);
    assert SizingOf(t, a) == SizingOf(t, a.(peakEquity := peak));
    assert CheckTradeConditions(risk, t, a) == CheckTradeConditions(risk, t, a.(peakEquity := peak));
  }

  lemma {:induction false} LossIgnoresThePeak(a: AccountState, peak: real)
    ensures DailyLossFraction(a.(peakEquity := peak)) == DailyLossFraction(a)
  {
  }

  lemma {:induction false} EvaluationsAgree(
      setup: Setup, v: Venue, w: Venue, e: Entry, prices: Prices, now: int, system: SystemState)
    requires Agree(v, w) && SameSide(setup.risk, v, w, prices)
    ensures EvaluateEntry(setup, v, e, prices, now, system).1 == EvaluateEntry(setup, w, e, prices, now, system).1
    ensures Agree(EvaluateEntry(setup, v, e, prices, now, system).0, EvaluateEntry(setup, w, e, prices, now, system).0)
  {
    hide AccountStateOf, Evaluate, Plain, Bare, DrawdownFraction;
    AccountsAgree(v, w, prices);
    assert RequestOf(setup, v, e, now) == RequestOf(setup, w, e, now);
    OnlyTheDrawdownHaltCanDiffer(
      setup.risk, RequestOf(setup, v, e, now), AccountStateOf(v.book, prices), w.book.peakEquity, system);
  }

  lemma {:induction false} OpenAgrees(setup: Setup, v: Venue, w: Venue, a: Assessment, o: Order)
    requires Agree(v, w)
    ensures var x, y := Simulator.OpenPosition(setup, v, a, o), Simulator.OpenPosition(setup, w, a, o);
            && (x.Ok? <==> y.Ok?)
            && (x.Ok? ==> x.value.1 == y.value.1 && Agree(x.value.0, y.value.0))
            && (x.Err? ==> x.error == y.error)
  {
    hide EntryFill, Find;
    if a.Approved? && a.size.Sized? {
      FindPlain(v.book.positions, w.book.positions, o.symbol);
      SamePlainAdded(v.book.positions, w.book.positions, PositionFor(o, EntryFill(setup, a.size.quantity, o)));
    }
  }

  lemma {:induction false} SamePlainAdded(ps: seq<Position>, qs: seq<Position>, p: Position)
    requires Plain(ps) == Plain(qs)
    ensures Plain(ps + [p]) == Plain(qs + [p])
  {
    assert |ps| == |Plain(ps)| == |Plain(qs)| == |qs|;
    forall k | 0 <= k < |ps| ensures PlainPosition(ps[k]) == PlainPosition(qs[k]) {
      assert Plain(ps)[k] == Plain(qs)[k];
    }
  }

  lemma {:induction false} SamePlainReplaced(ps: seq<Position>, qs: seq<Position>, i: nat, p: Position, q: Position)
    requires Plain(ps) == Plain(qs) && i < |ps| && PlainPosition(p) == PlainPosition(q)
    ensures |ps| == |qs| && Plain(ps[i := p]) == Plain(qs[i := q])
  {
    assert |ps| == |Plain(ps)| == |Plain(qs)| == |qs|;
    forall k | 0 <= k < |ps| ensures PlainPosition(ps[k]) == PlainPosition(qs[k]) {
      assert Plain(ps)[k] == Plain(qs)[k];
    }
  }

  // --- One live price ---------------------------------------------------

  /** A live price as a candle that is all one price. */
  function FlatBar(symbol: string, quote: Quote): Bar {
    Bar(symbol, quote.time, quote.price, quote.price, quote.price, quote.price)
  }

  /** What a candle of one price does, its excursions and its peak left out. */
  function Tick(setup: Setup, v: Venue, symbol: string, quote: Quote, step: Option<real>): Venue {
    match Find(v.book.positions, symbol)
    case None => v
    case Some(i) =>
      var p := v.book.positions[i];
      match ExitReasonForBar(quote.price, quote.price, p.stopLoss, p.takeProfit)
      case None => v.(book := Replaced(v.book, i, Trailed(p, FlatBar(symbol, quote))))
      case Some(reason) => ClosePosition(setup, v, symbol, ExitPrice(p, reason), quote.time, reason, step).0
  }

  lemma {:induction false} TickIsProcessBar(setup: Setup, v: Venue, symbol: string, quote: Quote, step: Option<real>)
    ensures Agree(ProcessBar(setup, v, FlatBar(symbol, quote), step).0, Tick(setup, v, symbol, quote, step))
  {
    hide ClosePosition, Equity, Find, Plain, Bare, UpdateTrailingStop;
    var at := Find(v.book.positions, symbol);
    if at.Some? {
      var i := at.value;
      var bar := FlatBar(symbol, quote);
      var watched := Watched(v, i, bar);
      var p := v.book.positions[i];
      SamePlainReplaced(v.book.positions, v.book.positions, i, p, watched.book.positions[i]);
      assert v.book.positions[i := p] == v.book.positions;
      var reason := ExitReasonForBar(quote.price, quote.price, p.stopLoss, p.takeProfit);
      if reason.None? {
        SamePlainReplaced(watched.book.positions, v.book.positions, i, Trailed(watched.book.positions[i], bar),
            Trailed(p, bar));
      } else {
        CloseAgrees(setup, watched, v, symbol, ExitPrice(p, reason.value), quote.time, reason.value, step);
      }
    }
  }

  lemma {:induction false} TicksAgree(
      setup: Setup, v: Venue, w: Venue, symbol: string, quote: Quote, step: Option<real>)
    requires Agree(v, w)
    ensures Agree(Tick(setup, v, symbol, quote, step), Tick(setup, w, symbol, quote, step))
  {
    hide ClosePosition, Find, Plain, Bare, UpdateTrailingStop;
    FindPlain(v.book.positions, w.book.positions, symbol);
    var at := Find(v.book.positions, symbol);
    if at.Some? {
      var i := at.value;
      SamePlain(v.book.positions, w.book.positions, i);
      var p, q := v.book.positions[i], w.book.positions[i];
      var reason := ExitReasonForBar(quote.price, quote.price, p.stopLoss, p.takeProfit);
      if reason.None? {
        var bar := FlatBar(symbol, quote);
        SamePlainReplaced(v.book.positions, w.book.positions, i, Trailed(p, bar), Trailed(q, bar));
      } else {
        CloseAgrees(setup, v, w, symbol, ExitPrice(p, reason.value), quote.time, reason.value, step);
      }
    }
  }
}
