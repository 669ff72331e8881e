/** The portfolio whose fields are updated in place: `backend/app/paper_trading/portfolio.py`. */
module Portfolio {
  import opened Wrappers
  import opened Sums
  import opened Books

  /** A long spot position; only its excursions and its stop ever change. */
  class OpenPosition {
    const symbol: string
    const quantity: real
    const entryPrice: real
    const entryTime: int
    const takeProfit: Option<real>
    const trailingDistance: Option<real>
    const feesPaid: real
    const signalId: Option<int>
    var stopLoss: Option<real>
    var highestPrice: Option<real>
    var lowestPrice: Option<real>

    function Abs(): Position
      reads this
    {
      Position(symbol, quantity, entryPrice, entryTime, stopLoss, takeProfit, trailingDistance, feesPaid,
               highestPrice, lowestPrice, signalId)
    }

    constructor (p: Position)
      ensures Abs() == p
    {
      symbol, quantity, entryPrice, entryTime := p.symbol, p.quantity, p.entryPrice, p.entryTime;
      takeProfit, trailingDistance, feesPaid, signalId := p.takeProfit, p.trailingDistance, p.feesPaid, p.signalId;
      stopLoss, highestPrice, lowestPrice := p.stopLoss, p.highestPrice, p.lowestPrice;
    }

    /** Widens the excursion extremes. */
    method Observe(high: real, low: real)
      modifies `highestPrice, `lowestPrice
      ensures Abs() == old(Abs()).Observed(high, low)
    {
      highestPrice := Some(if highestPrice.None? then high else Max(highestPrice.value, high));
      lowestPrice := Some(if lowestPrice.None? || lowestPrice.value >= low then low else lowestPrice.value);
    }
  }

  function AbsAll(positions: seq<OpenPosition>): (s: seq<Position>)
    reads positions
    ensures |s| == |positions|
    ensures forall i :: 0 <= i < |s| ==> s[i] == positions[i].Abs()
  {
    seq(|positions|, i requires 0 <= i < |positions| reads positions => positions[i].Abs())
  }

  ghost predicate DistinctObjects(positions: seq<OpenPosition>) {
    forall i, j :: 0 <= i < j < |positions| ==> positions[i] != positions[j]
  }

  lemma {:induction false} RemovedStaysDistinct(positions: seq<OpenPosition>, i: nat)
    requires i < |positions| && DistinctObjects(positions) && DistinctSymbols(AbsAll(positions))
    ensures var rest := positions[..i] + positions[i + 1..];
            && DistinctObjects(rest)
            && AbsAll(rest) == Without(AbsAll(positions), i)
            && DistinctSymbols(AbsAll(rest))
  {
  }

  lemma {:induction false} AddedStaysDistinct(positions: seq<OpenPosition>, p: OpenPosition)
    requires p !in positions && DistinctObjects(positions) && DistinctSymbols(AbsAll(positions))
    requires Find(AbsAll(positions), p.symbol).None?
    ensures DistinctObjects(positions + [p])
    ensures AbsAll(positions + [p]) == AbsAll(positions) + [p.Abs()]
    ensures DistinctSymbols(AbsAll(positions + [p]))
  {
    assert forall q <- AbsAll(positions) :: q.symbol != p.symbol;
    assert AbsAll(positions + [p]) == AbsAll(positions) + [p.Abs()];
  }

  lemma {:induction false} SameSymbolsStayDistinct(before: seq<Position>, after: seq<Position>)
    requires DistinctSymbols(before) && |after| == |before|
    requires forall i :: 0 <= i < |before| ==> after[i].symbol == before[i].symbol
    ensures DistinctSymbols(after)
  {
  }

  class Portfolio {
    var quoteBalance: real
    const initialBalance: real
    var positions: seq<OpenPosition>
    var closedTrades: seq<Trade>
    var realisedPnl: real
    var totalFees: real
    var peakEquity: real

    /** Each symbol has a position object of its own. */
    ghost predicate Valid()
      reads this, positions
    {
      DistinctObjects(positions) && DistinctSymbols(AbsAll(positions))
    }

    function Abs(): Book
      reads this, positions
    {
      Book(quoteBalance, initialBalance, AbsAll(positions), closedTrades, realisedPnl, totalFees, peakEquity)
    }

    /** A missing or non-positive peak starts at the initial balance. */
    constructor (quoteBalance: real, initialBalance: real, peakEquity: real)
      ensures Valid() && fresh(this)
      ensures Abs() == NewBook(initialBalance).(
                         cash := quoteBalance, peakEquity := if peakEquity <= 0.0 then initialBalance else peakEquity)
    {
      this.quoteBalance, this.initialBalance := quoteBalance, initialBalance;
      positions, closedTrades, realisedPnl, totalFees := [], [], 0.0, 0.0;
      this.peakEquity := if peakEquity <= 0.0 then initialBalance else peakEquity;
    }

    /** A portfolio rebuilt from its records. */
    constructor FromRecords(quoteBalance: real, initialBalance: real, positions: seq<OpenPosition>,
                            closedTrades: seq<Trade>, realisedPnl: real, totalFees: real, peakEquity: real)
      requires DistinctObjects(positions) && DistinctSymbols(AbsAll(positions))
      ensures Valid() && fresh(this) && this.positions == positions
      ensures Abs() == Book(quoteBalance, initialBalance, AbsAll(positions), closedTrades, realisedPnl, totalFees,
                            if peakEquity <= 0.0 then initialBalance else peakEquity)
    {
      this.quoteBalance, this.initialBalance, this.positions := quoteBalance, initialBalance, positions;
      this.closedTrades, this.realisedPnl, this.totalFees := closedTrades, realisedPnl, totalFees;
      this.peakEquity := if peakEquity <= 0.0 then initialBalance else peakEquity;
    }

    // --- Valuation ----------------------------------------------------

    method PositionsValue(prices: Prices) returns (total: real)
      ensures total == Books.PositionsValue(Abs(), prices)
    {
      ghost var value := (p: Position) => p.MarketValue(PriceOf(prices, p));
      ghost var all := AbsAll(positions);
      total := 0.0;
      for i := 0 to |positions|
        invariant total == SumOf(all[..i], value)
      {
        assert all[..i + 1][..i] == all[..i];
        var p := positions[i];
        assert all[..i + 1][i] == p.Abs();
        var price := if p.symbol in prices then prices[p.symbol] else p.entryPrice;
        total := total + p.quantity * price;
      }
      assert all[..|positions|] == all;
    }

    method UpdatePeakEquity(prices: Prices)
      modifies `peakEquity
      ensures Abs() == WithPeak(old(Abs()), prices)
    {
      var value := PositionsValue(prices);
      peakEquity := Max(peakEquity, quoteBalance + value);
    }

    /** The run of losers at the end of the ledger, counted back from the latest. */
    method ConsecutiveLosses() returns (streak: nat)
      ensures streak == Books.ConsecutiveLosses(closedTrades)
    {
      streak := 0;
      assert closedTrades[..|closedTrades|] == closedTrades;
      var i := |closedTrades|;
      while i > 0 && !closedTrades[i - 1].IsWin()
        invariant 0 <= i && i + streak == |closedTrades|
        invariant Books.ConsecutiveLosses(closedTrades) == streak + Books.ConsecutiveLosses(closedTrades[..i])
      {
        assert closedTrades[..i][..i - 1] == closedTrades[..i - 1];
        streak := streak + 1;
        i := i - 1;
      }
    }

    // --- Mutations ----------------------------------------------------

    /** A held position sees a candle's extremes; no other position is touched. */
    method ObserveAt(i: nat, high: real, low: real)
      requires Valid() && i < |positions|
      modifies positions[i]
      ensures Valid() && positions[i].stopLoss == old(positions[i].stopLoss)
      ensures Abs() == Replaced(old(Abs()), i, old(positions[i].Abs()).Observed(high, low))
    {
      hide DistinctSymbols;
      positions[i].Observe(high, low);
      assert AbsAll(positions) == old(AbsAll(positions))[i := positions[i].Abs()];
      SameSymbolsStayDistinct(old(AbsAll(positions)), AbsAll(positions));
    }

    /** A held position is given a new stop; no other position is touched. */
    method MoveStopAt(i: nat, stop: Option<real>)
      requires Valid() && i < |positions|
      modifies positions[i]
      ensures Valid()
      ensures Abs() == Replaced(old(Abs()), i, old(positions[i].Abs()).(stopLoss := stop))
    {
      hide DistinctSymbols;
      positions[i].stopLoss := stop;
      assert AbsAll(positions) == old(AbsAll(positions))[i := positions[i].Abs()];
      SameSymbolsStayDistinct(old(AbsAll(positions)), AbsAll(positions));
    }

    /** Raises, changing nothing, when cash does not cover the cost or the symbol is already held. */
    method Open(p: Position) returns (r: Result<OpenPosition, Refusal>)
      requires Valid()
      modifies `quoteBalance, `totalFees, `positions
      ensures Valid()
      ensures match Opened(old(Abs()), p)
              case Err(refusal) => r == Err(refusal) && Abs() == old(Abs()) && positions == old(positions)
              case Ok(book) =>
                && r.Ok? && fresh(r.value) && r.value.Abs() == p
                && positions == old(positions) + [r.value] && Abs() == book
    {
      hide DistinctObjects, DistinctSymbols, Find;
      var cost := p.quantity * p.entryPrice + p.feesPaid;
      if cost > quoteBalance {
        return Err(CostExceedsBalance);
      }
      if Find(AbsAll(positions), p.symbol).Some? {
        return Err(AlreadyOpen);
      }
      var position := new OpenPosition(p);
      AddedStaysDistinct(positions, position);
      quoteBalance := quoteBalance - cost;
      totalFees := totalFees + p.feesPaid;
      positions := positions + [position];
      r := Ok(position);
    }

    /** The record of a round trip, all costs deducted. */
    static method Settle(p: Position, price: real, fee: real, slippageCost: real, time: int, reason: string)
        returns (trade: Trade)
      ensures trade == TradeOf(p, price, fee, slippageCost, time, reason)
    {
      var grossPnl := (price - p.entryPrice) * p.quantity;
      var fees := p.feesPaid + fee;
      var netPnl := grossPnl - fees;
      var costBasis := p.quantity * p.entryPrice;
      var returnPct := if costBasis > 0.0 then netPnl / costBasis else 0.0;
      trade := Trade(p.symbol, p.quantity, p.entryPrice, price, p.entryTime, time, grossPnl, fees, slippageCost,
                     netPnl, returnPct, reason, p.Mae(), p.Mfe(), p.signalId);
    }

    /** Raises when there is nothing to close; otherwise books the whole position as one trade. */
    method Close(symbol: string, price: real, fee: real, slippageCost: real, time: int, reason: string)
        returns (r: Result<Trade, Refusal>)
      requires Valid()
      modifies `quoteBalance, `totalFees, `positions, `closedTrades, `realisedPnl
      ensures Valid()
      ensures match Find(old(Abs()).positions, symbol)
              case None => r == Err(NothingToClose) && Abs() == old(Abs()) && positions == old(positions)
              case Some(i) =>
                && r == Ok(TradeOf(old(Abs()).positions[i], price, fee, slippageCost, time, reason))
                && positions == old(positions)[..i] + old(positions)[i + 1..]
                && Abs() == ClosedAt(old(Abs()), i, price, fee, slippageCost, time, reason)
    {
      hide DistinctObjects, DistinctSymbols, TradeOf, Find;
      var at := Find(AbsAll(positions), symbol);
      if at.None? {
        return Err(NothingToClose);
      }
      var i := at.value;
      var p := positions[i].Abs();
      RemovedStaysDistinct(positions, i);
      positions := positions[..i] + positions[i + 1..];
      quoteBalance := quoteBalance + (p.quantity * price - fee);
      totalFees := totalFees + fee;
      var trade := Settle(p, price, fee, slippageCost, time, reason);
      realisedPnl := realisedPnl + trade.netPnl;
      closedTrades := closedTrades + [trade];
      r := Ok(trade);
    }
  }
}
