/** The portfolio as a value: `backend/app/paper_trading/portfolio.py`. Times are microseconds. */
module Books {
  import opened Wrappers
  import opened Sums

  datatype Position = Position(
    symbol: string, quantity: real, entryPrice: real, entryTime: int,
    stopLoss: Option<real>, takeProfit: Option<real>, trailingDistance: Option<real>,
    feesPaid: real, highestPrice: Option<real>, lowestPrice: Option<real>, signalId: Option<int>)
  {
    function CostBasis(): real {
      quantity * entryPrice
    }

    function MarketValue(price: real): real {
      quantity * price
    }

    /** The entry fee counts, the fee of the exit to come does not. */
    function UnrealisedPnl(price: real): real {
      (price - entryPrice) * quantity - feesPaid
    }

    /** The position with its excursion extremes widened. */
    function Observed(high: real, low: real): Position {
      this.(highestPrice := Some(if highestPrice.None? || highestPrice.value <= high then high else highestPrice.value),
            lowestPrice := Some(if lowestPrice.None? || lowestPrice.value >= low then low else lowestPrice.value))
    }

    function Mae(): Option<real> {
      if lowestPrice.None? || entryPrice <= 0.0 then None
      else Some((lowestPrice.value - entryPrice) / entryPrice)
    }

    function Mfe(): Option<real> {
      if highestPrice.None? || entryPrice <= 0.0 then None
      else Some((highestPrice.value - entryPrice) / entryPrice)
    }
  }

  datatype Trade = Trade(
    symbol: string, quantity: real, entryPrice: real, exitPrice: real, entryTime: int, exitTime: int,
    grossPnl: real, fees: real, slippageCost: real, netPnl: real, returnPct: real, exitReason: string,
    mae: Option<real>, mfe: Option<real>, signalId: Option<int>)
  {
    predicate IsWin() {
      netPnl > 0.0
    }
  }

  datatype Book = Book(
    cash: real, initialBalance: real, positions: seq<Position>, closed: seq<Trade>,
    realisedPnl: real, totalFees: real, peakEquity: real)

  datatype Refusal = CostExceedsBalance | AlreadyOpen | NothingToClose | NotApproved | NoBars

  type Prices = map<string, real>

  /** A fresh portfolio; a missing or non-positive peak starts at the initial balance. */
  function NewBook(balance: real): Book {
    Book(balance, balance, [], [], 0.0, 0.0, balance)
  }

  // --- Lookup ---------------------------------------------------------

  /** Positions are kept in the order they were opened, one a symbol. */
  function Find(positions: seq<Position>, symbol: string): (i: Option<nat>)
    ensures i.Some? ==> i.value < |positions| && positions[i.value].symbol == symbol
    ensures i.None? ==> forall p <- positions :: p.symbol != symbol
  {
    if positions == [] then None
    else if positions[|positions| - 1].symbol == symbol then Some(|positions| - 1)
    else Find(positions[..|positions| - 1], symbol)
  }

  predicate Holds(b: Book, symbol: string) {
    Find(b.positions, symbol).Some?
  }

  ghost predicate DistinctSymbols(positions: seq<Position>) {
    forall i, j :: 0 <= i < j < |positions| ==> positions[i].symbol != positions[j].symbol
  }

  function Without(positions: seq<Position>, i: nat): seq<Position>
    requires i < |positions|
  {
    positions[..i] + positions[i + 1..]
  }

  // --- Valuation ------------------------------------------------------

  /** Without a quote a holding is marked at cost. */
  function PriceOf(prices: Prices, p: Position): real {
    if p.symbol in prices then prices[p.symbol] else p.entryPrice
  }

  function PositionsValue(b: Book, prices: Prices): real {
    SumOf(b.positions, (p: Position) => p.MarketValue(PriceOf(prices, p)))
  }

  function Equity(b: Book, prices: Prices): real {
    b.cash + PositionsValue(b, prices)
  }

  function UnrealisedPnl(b: Book, prices: Prices): real {
    SumOf(b.positions, (p: Position) => p.UnrealisedPnl(PriceOf(prices, p)))
  }

  function AssetExposure(positions: seq<Position>, prices: Prices): (e: seq<(string, real)>)
    ensures |e| == |positions|
  {
    if positions == [] then []
    else
      var p := positions[|positions| - 1];
      AssetExposure(positions[..|positions| - 1], prices) + [(p.symbol, p.MarketValue(PriceOf(prices, p)))]
  }

  function Max(a: real, b: real): real {
    if a >= b then a else b
  }

  function WithPeak(b: Book, prices: Prices): Book {
    b.(peakEquity := Max(b.peakEquity, Equity(b, prices)))
  }

  /** The length of the run of losers at the end of the ledger. */
  function ConsecutiveLosses(closed: seq<Trade>): nat {
    if closed == [] || closed[|closed| - 1].IsWin() then 0
    else 1 + ConsecutiveLosses(closed[..|closed| - 1])
  }

  // --- Opening and closing --------------------------------------------

  function NewPosition(
      symbol: string, quantity: real, price: real, fee: real, time: int,
      stopLoss: Option<real>, takeProfit: Option<real>, trailingDistance: Option<real>, signalId: Option<int>): Position
  {
    Position(symbol, quantity, price, time, stopLoss, takeProfit, trailingDistance, fee, Some(price), Some(price),
        signalId)
  }

  function Opened(b: Book, p: Position): Result<Book, Refusal> {
    var cost := p.quantity * p.entryPrice + p.feesPaid;
    if cost > b.cash then Err(CostExceedsBalance)
    else if Holds(b, p.symbol) then Err(AlreadyOpen)
    else Ok(b.(cash := b.cash - cost, totalFees := b.totalFees + p.feesPaid, positions := b.positions + [p]))
  }

  function TradeOf(p: Position, price: real, fee: real, slippageCost: real, time: int, reason: string): Trade {
    var gross := (price - p.entryPrice) * p.quantity;
    var fees := p.feesPaid + fee;
    var net := gross - fees;
    Trade(p.symbol, p.quantity, p.entryPrice, price, p.entryTime, time, gross, fees, slippageCost, net,
          if p.CostBasis() > 0.0 then net / p.CostBasis() else 0.0, reason, p.Mae(), p.Mfe(), p.signalId)
  }

  /** The book once its `i`-th position has been closed at `price`. */
  function ClosedAt(b: Book, i: nat, price: real, fee: real, slippageCost: real, time: int, reason: string): Book
    requires i < |b.positions|
  {
    var p := b.positions[i];
    var trade := TradeOf(p, price, fee, slippageCost, time, reason);
    b.(cash := b.cash + (p.quantity * price - fee),
       totalFees := b.totalFees + fee,
       realisedPnl := b.realisedPnl + trade.netPnl,
       positions := Without(b.positions, i),
       closed := b.closed + [trade])
  }

  function Replaced(b: Book, i: nat, p: Position): Book
    requires i < |b.positions|
  {
    b.(positions := b.positions[i := p])
  }

  // --- Conservation ---------------------------------------------------

  /** What an open position has taken out of cash. */
  function Committed(p: Position): real {
    p.quantity * p.entryPrice + p.feesPaid
  }

  function FeesPaid(p: Position): real {
    p.feesPaid
  }

  function NetPnl(t: Trade): real {
    t.netPnl
  }

  function GrossPnl(t: Trade): real {
    t.grossPnl
  }

  function FeesOf(t: Trade): real {
    t.fees
  }

  /** The accounts agree: no money appears or disappears, and every total is the sum of its records. */
  ghost predicate Balanced(b: Book) {
    && b.cash + SumOf(b.positions, Committed) == b.initialBalance + b.realisedPnl
    && b.realisedPnl == SumOf(b.closed, NetPnl)
    && b.totalFees == SumOf(b.closed, FeesOf) + SumOf(b.positions, FeesPaid)
    && b.realisedPnl == SumOf(b.closed, GrossPnl) - SumOf(b.closed, FeesOf)
    && DistinctSymbols(b.positions)
  }

  /** Cash is never borrowed and every holding is a real one. */
  ghost predicate Solvent(b: Book) {
    && b.cash >= 0.0
    && forall p <- b.positions :: p.quantity > 0.0 && p.entryPrice > 0.0 && p.feesPaid >= 0.0
  }

  lemma {:induction false} NewBookIsBalanced(balance: real)
    requires balance >= 0.0
    ensures Balanced(NewBook(balance)) && Solvent(NewBook(balance))
  {
  }

  lemma {:induction false} OpeningConserves(b: Book, p: Position)
    requires Balanced(b) && Opened(b, p).Ok?
    ensures Balanced(Opened(b, p).value)
    ensures Solvent(b) && p.quantity > 0.0 && p.entryPrice > 0.0 && p.feesPaid >= 0.0 ==> Solvent(Opened(b, p).value)
  {
    SumSnoc(b.positions, p, Committed);
    SumSnoc(b.positions, p, FeesPaid);
  }

  lemma {:induction false} GrossIsProceedsLessCost(q: real, entry: real, exit: real)
    ensures (exit - entry) * q == q * exit - q * entry
  {
  }

  /** A trade nets its proceeds less the exit fee less all that was committed, and returns that over its cost. */
  lemma {:induction false} TradesAddUp(
      p: Position, price: real, fee: real, slippageCost: real, time: int, reason: string)
    ensures var t := TradeOf(p, price, fee, slippageCost, time, reason);
            && t.netPnl == p.quantity * price - fee - Committed(p)
            && (p.CostBasis() > 0.0 ==> t.returnPct * p.CostBasis() == t.netPnl)
  {
    GrossIsProceedsLessCost(p.quantity, p.entryPrice, price);
  }

  lemma {:induction false} ClosingConserves(
      b: Book, i: nat, price: real, fee: real, slippageCost: real, time: int, reason: string)
    requires Balanced(b) && i < |b.positions|
    ensures Balanced(ClosedAt(b, i, price, fee, slippageCost, time, reason))
    ensures Solvent(b) && fee <= b.positions[i].quantity * price
            ==> Solvent(ClosedAt(b, i, price, fee, slippageCost, time, reason))
  {
    hide SumOf;
    var p, trade := b.positions[i], TradeOf(b.positions[i], price, fee, slippageCost, time, reason);
    GrossIsProceedsLessCost(p.quantity, p.entryPrice, price);
    SumAround(b.positions, i, Committed);
    SumAround(b.positions, i, FeesPaid);
    SumSnoc(b.closed, trade, NetPnl);
    SumSnoc(b.closed, trade, GrossPnl);
    SumSnoc(b.closed, trade, FeesOf);
  }

  /** Moving a stop or widening an excursion touches no money. */
  lemma {:induction false} ReplacingConserves(b: Book, i: nat, p: Position)
    requires Balanced(b) && i < |b.positions|
    requires var was := b.positions[i];
             p.symbol == was.symbol && p.quantity == was.quantity && p.entryPrice == was.entryPrice
             && p.feesPaid == was.feesPaid
    ensures Balanced(Replaced(b, i, p))
    ensures Solvent(b) ==> Solvent(Replaced(b, i, p))
  {
    SumUpdate(b.positions, i, p, Committed);
    SumUpdate(b.positions, i, p, FeesPaid);
  }

  /** With nothing open, the equity gained is the net result of the trades, at any prices. */
  lemma {:induction false} FlatEquityIsRealised(b: Book, prices: Prices)
    requires Balanced(b) && b.positions == []
    ensures Equity(b, prices) == b.cash == b.initialBalance + SumOf(b.closed, NetPnl)
    ensures Equity(b, prices) - b.initialBalance == SumOf(b.closed, GrossPnl) - b.totalFees
  {
  }

  /** In any balanced book, equity is what was put in, plus what was realised, plus what is unrealised. */
  lemma {:induction false} EquityDecomposes(b: Book, prices: Prices)
    requires Balanced(b)
    ensures Equity(b, prices) == b.initialBalance + b.realisedPnl + UnrealisedPnl(b, prices)
  {
    MarkedIsCommittedPlusUnrealised(b.positions, prices);
  }

  lemma {:induction false} MarkedIsCommittedPlusUnrealised(positions: seq<Position>, prices: Prices)
    ensures SumOf(positions, (p: Position) => p.MarketValue(PriceOf(prices, p))) ==
            SumOf(positions, Committed) + SumOf(positions, (p: Position) => p.UnrealisedPnl(PriceOf(prices, p)))
    decreases |positions|
  {
    if positions != [] {
      var p := positions[|positions| - 1];
      MarkedIsCommittedPlusUnrealised(positions[..|positions| - 1], prices);
      GrossIsProceedsLessCost(p.quantity, p.entryPrice, PriceOf(prices, p));
    }
  }

  /** At non-negative prices a solvent book is worth at least its cash. */
  lemma {:induction false} EquityIsNonNegative(b: Book, prices: Prices)
    requires Solvent(b) && forall s <- prices :: prices[s] >= 0.0
    ensures Equity(b, prices) >= b.cash >= 0.0
  {
    var value := (p: Position) => p.MarketValue(PriceOf(prices, p));
    forall p <- b.positions ensures value(p) >= 0.0 {
    }
    SumNonNegative(b.positions, value);
  }

  /** The streak is the number of trades after the last win. */
  lemma {:induction false} StreakCountsBackToTheLastWin(closed: seq<Trade>)
    ensures var n := ConsecutiveLosses(closed);
            && n <= |closed|
            && (forall t <- closed[|closed| - n..] :: !t.IsWin())
            && (n < |closed| ==> closed[|closed| - n - 1].IsWin())
    decreases |closed|
  {
    if closed != [] && !closed[|closed| - 1].IsWin() {
      var init := closed[..|closed| - 1];
      StreakCountsBackToTheLastWin(init);
      var n := ConsecutiveLosses(init);
      assert closed[|closed| - (n + 1)..] == init[|init| - n..] + [closed[|closed| - 1]];
    }
  }
}
