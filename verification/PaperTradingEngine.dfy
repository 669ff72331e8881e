/** The simulated venue with its state updated in place: `backend/app/paper_trading/simulator.py`. */
module PaperTradingEngine {
  import opened Wrappers
  import opened Fills
  import opened RiskEngine
  import opened Books
  import opened Portfolio
  import Simulator

  lemma {:induction false} CloseEachUnfolds(
      setup: Simulator.Setup, v: Simulator.Venue, symbols: seq<string>, i: nat,
      prices: Prices, time: int, reason: string)
    requires i < |symbols|
    ensures var now := Simulator.CloseEach(setup, v, symbols[i..], prices, time, reason);
            match Find(v.book.positions, symbols[i])
            case None => now == Simulator.CloseEach(setup, v, symbols[i + 1..], prices, time, reason)
            case Some(at) =>
              var price := PriceOf(prices, v.book.positions[at]);
              var (next, trade) := Simulator.ClosePosition(setup, v, symbols[i], price, time, reason, None);
              var rest := Simulator.CloseEach(setup, next, symbols[i + 1..], prices, time, reason);
              now.0 == rest.0 && now.1 == (if trade.Some? then [trade.value] else []) + rest.1
  {
    hide Simulator.ClosePosition, Find, PriceOf;
    assert symbols[i..][0] == symbols[i] && symbols[i..][1..] == symbols[i + 1..];
  }

  lemma {:induction false} Regroup(a: seq<Trade>, b: seq<Trade>, c: seq<Trade>)
    ensures a + (b + c) == (a + b) + c && [] + c == c
  {
  }

  lemma {:induction false} NothingLeftToClose(
      setup: Simulator.Setup, v: Simulator.Venue, symbols: seq<string>, prices: Prices, time: int, reason: string)
    requires symbols == []
    ensures Simulator.CloseEach(setup, v, symbols, prices, time, reason) == (v, [])
  {
  }

  /** A venue over a portfolio; it behaves as the venue that is a value. */
  class PaperTradingEngine {
    const setup: Simulator.Setup
    const portfolio: Portfolio
    var rejectedCount: nat
    var lastExitTime: map<string, int>

    ghost predicate Valid()
      reads this, portfolio, portfolio.positions
    {
      portfolio.Valid()
    }

    function Abs(): Simulator.Venue
      reads this, portfolio, portfolio.positions
    {
      Simulator.Venue(portfolio.Abs(), rejectedCount, lastExitTime)
    }

    constructor (setup: Simulator.Setup, portfolio: Portfolio, lastExitTime: map<string, int>)
      requires portfolio.Valid()
      ensures Valid() && fresh(this) && this.setup == setup && this.portfolio == portfolio
      ensures Abs() == Simulator.Venue(portfolio.Abs(), 0, lastExitTime)
    {
      this.setup, this.portfolio, rejectedCount, this.lastExitTime := setup, portfolio, 0, lastExitTime;
    }

    // --- Risk plumbing ------------------------------------------------

    method AccountStateNow(prices: Prices) returns (a: AccountState)
      ensures a == Simulator.AccountStateOf(portfolio.Abs(), prices)
    {
      var value := portfolio.PositionsValue(prices);
      var streak := portfolio.ConsecutiveLosses();
      var book := portfolio.Abs();
      a := AccountState(
        portfolio.quoteBalance + value, portfolio.quoteBalance, portfolio.peakEquity, portfolio.realisedPnl,
        UnrealisedPnl(book, prices), streak, |portfolio.positions|, AssetExposure(book.positions, prices));
    }

    method EvaluateEntry(e: Simulator.Entry, prices: Prices, now: int, system: SystemState)
        returns (assessment: Assessment)
      requires Valid()
      modifies `rejectedCount
      ensures Valid()
      ensures (Abs(), assessment) == Simulator.EvaluateEntry(setup, old(Abs()), e, prices, now, system)
    {
      hide Evaluate, Simulator.AccountStateOf;
      var account := AccountStateNow(prices);
      assessment := Evaluate(setup.risk, Simulator.RequestOf(setup, Abs(), e, now), account, system);
      if !assessment.Approved? {
        rejectedCount := rejectedCount + 1;
      }
    }

    // --- Execution ----------------------------------------------------

    /** Re-checks the assessment, then opens what fills; an empty fill opens nothing. */
    method OpenPosition(assessment: Assessment, o: Simulator.Order) returns (r: Result<Option<OpenPosition>, Refusal>)
      requires Valid()
      modifies portfolio
      ensures Valid()
      ensures match Simulator.OpenPosition(setup, old(Abs()), assessment, o)
              case Err(refusal) => r == Err(refusal) && Abs() == old(Abs())
              case Ok(done) =>
                && Abs() == done.0 && r.Ok?
                && (r.value.None? <==> done.1.None?)
                && (r.value.Some? ==> r.value.value.Abs() == done.1.value)
      ensures forall p <- portfolio.positions :: p in old(portfolio.positions) || fresh(p)
    {
      hide SimulateFill, Opened, DistinctObjects, DistinctSymbols;
      if !assessment.Approved? || assessment.size.Unsized? {
        return Err(NotApproved);
      }
      var fill := Simulator.EntryFill(setup, assessment.size.quantity, o);
      if fill.IsEmpty() {
        return Ok(None);
      }
      var outcome := portfolio.Open(Simulator.PositionFor(o, fill));
      match outcome
      case Err(refusal) => r := Err(refusal);
      case Ok(position) => r := Ok(Some(position));
    }

    /** Sells the whole position in `symbol`, if there is one and the fill is not empty. */
    method ClosePosition(symbol: string, reference: real, time: int, reason: string, step: Option<real>)
        returns (trade: Option<Trade>)
      requires Valid()
      modifies `lastExitTime, portfolio
      ensures Valid()
      ensures (Abs(), trade) == Simulator.ClosePosition(setup, old(Abs()), symbol, reference, time, reason, step)
      ensures forall p <- portfolio.positions :: p in old(portfolio.positions)
    {
      hide SimulateFill, ClosedAt, TradeOf, DistinctObjects, DistinctSymbols, Find;
      var at := Find(AbsAll(portfolio.positions), symbol);
      if at.None? {
        return None;
      }
      var position := portfolio.positions[at.value];
      var fill := Simulator.ExitFill(setup, position.quantity, reference, step);
      if fill.IsEmpty() {
        return None;
      }
      var closed := portfolio.Close(symbol, fill.price, fill.fee, fill.slippageCost, time, reason);
      lastExitTime := lastExitTime[symbol := time];
      trade := Some(closed.value);
    }

    // --- Monitoring ---------------------------------------------------

    method UpdatePeak(symbol: string, close: real)
      requires Valid()
      modifies portfolio`peakEquity
      ensures Valid() && Abs() == Simulator.PeakAt(old(Abs()), symbol, close)
    {
      portfolio.UpdatePeakEquity(map[symbol := close]);
    }

    /** One candle: excursions first, then the exit by the standing stop, then the trail. */
    method ProcessBar(bar: Simulator.Bar, step: Option<real>) returns (trade: Option<Trade>)
      requires Valid()
      modifies this, portfolio, portfolio.positions
      ensures Valid()
      ensures (Abs(), trade) == Simulator.ProcessBar(setup, old(Abs()), bar, step)
      ensures forall p <- portfolio.positions :: p in old(portfolio.positions)
    {
      hide SimulateFill, ClosedAt, TradeOf, DistinctObjects, DistinctSymbols, Find, Simulator.ClosePosition, Equity;
      var at := Find(AbsAll(portfolio.positions), bar.symbol);
      if at.None? {
        UpdatePeak(bar.symbol, bar.close);
        return None;
      }
      var position := portfolio.positions[at.value];
      portfolio.ObserveAt(at.value, bar.high, bar.low);
      var reason := ExitReasonForBar(bar.high, bar.low, position.stopLoss, position.takeProfit);
      if reason.None? {
        portfolio.MoveStopAt(at.value, UpdateTrailingStop(position.stopLoss, bar.high, position.trailingDistance));
        trade := None;
      } else {
        var price := if reason.value == STOP_LOSS then position.stopLoss.value else position.takeProfit.value;
        trade := ClosePosition(bar.symbol, price, bar.time, reason.value, step);
      }
      UpdatePeak(bar.symbol, bar.close);
    }

    /** Sells what is held in a symbol at its price, or at its entry for want of one. */
    method CloseAtPrice(symbol: string, prices: Prices, time: int, reason: string) returns (trade: Option<Trade>)
      requires Valid()
      modifies `lastExitTime, portfolio
      ensures Valid()
      ensures match Find(old(Abs()).book.positions, symbol)
              case None => trade.None? && Abs() == old(Abs())
              case Some(at) =>
                var price := PriceOf(prices, old(Abs()).book.positions[at]);
                && Abs() == Simulator.ClosePosition(setup, old(Abs()), symbol, price, time, reason, None).0
                && trade == Simulator.ClosePosition(setup, old(Abs()), symbol, price, time, reason, None).1
      ensures forall p <- portfolio.positions :: p in old(portfolio.positions)
    {
      hide DistinctObjects, DistinctSymbols, Find, Simulator.ClosePosition, PriceOf;
      var at := Find(AbsAll(portfolio.positions), symbol);
      if at.None? {
        return None;
      }
      var price := PriceOf(prices, portfolio.positions[at.value].Abs());
      trade := ClosePosition(symbol, price, time, reason, None);
    }

    /** Closes whatever is open at the start, in the order it was opened. */
    method ForceCloseAll(prices: Prices, time: int, reason: string) returns (closed: seq<Trade>)
      requires Valid()
      modifies this, portfolio
      ensures Valid()
      ensures Abs() == Simulator.ForceCloseAll(setup, old(Abs()), prices, time, reason).0
      ensures closed == Simulator.ForceCloseAll(setup, old(Abs()), prices, time, reason).1
      ensures forall p <- portfolio.positions :: p in old(portfolio.positions)
    {
      hide DistinctObjects, DistinctSymbols, Find, Simulator.ClosePosition, Simulator.CloseEach, PriceOf;
      var symbols := Simulator.SymbolsOf(AbsAll(portfolio.positions));
      ghost var end := Simulator.CloseEach(setup, Abs(), symbols, prices, time, reason);
      closed := [];
      assert symbols[0..] == symbols;
      for i := 0 to |symbols|
        invariant Valid()
        invariant forall p <- portfolio.positions :: p in old(portfolio.positions)
        invariant Simulator.CloseEach(setup, Abs(), symbols[i..], prices, time, reason).0 == end.0
        invariant closed + Simulator.CloseEach(setup, Abs(), symbols[i..], prices, time, reason).1 == end.1
      {
        CloseEachUnfolds(setup, Abs(), symbols, i, prices, time, reason);
        var trade := CloseAtPrice(symbols[i], prices, time, reason);
        var made := if trade.Some? then [trade.value] else [];
        Regroup(closed, made, Simulator.CloseEach(setup, Abs(), symbols[i + 1..], prices, time, reason).1);
        closed := closed + made;
      }
      NothingLeftToClose(setup, Abs(), symbols[|symbols|..], prices, time, reason);
    }
  }
}
