/** Entries made only with the risk engine's approval never exceed the configured caps. */
module EntryCaps {
  import opened Wrappers
  import opened Sums
  import opened Fills
  import opened PositionSizing
  import opened RiskEngine
  import opened Books
  import opened Simulator
  import opened SimulatorProofs

  /** An entry asked for and, if approved, opened at the price it was asked at; or any other call. */
  datatype Step =
    | Enter(entry: Entry, prices: Prices, now: int, system: SystemState, order: Order)
    | Other(op: Op)

  predicate WellFormed(step: Step) {
    match step
    case Enter(entry, prices, now, system, order) =>
      && order.symbol == entry.symbol && order.reference == entry.price
      && entry.symbol in prices && prices[entry.symbol] == entry.price
    case Other(op) => !op.Open?
  }

  function Take(setup: Setup, v: Venue, step: Step): Venue {
    match step
    case Enter(entry, prices, now, system, order) =>
      var (asked, assessment) := EvaluateEntry(setup, v, entry, prices, now, system);
      Apply(setup, asked, Open(assessment, order))
    case Other(op) => Apply(setup, v, op)
  }

  function TakeAll(setup: Setup, balance: real, steps: seq<Step>): Venue {
    if steps == [] then NewVenue(balance)
    else Take(setup, TakeAll(setup, balance, steps[..|steps| - 1]), steps[|steps| - 1])
  }

  // --- One entry ------------------------------------------------------

  lemma {:induction false} NotHeldMeansNoExposure(positions: seq<Position>, prices: Prices, symbol: string)
    requires Find(positions, symbol).None?
    ensures forall e <- AssetExposure(positions, prices) :: e.0 != symbol
    decreases |positions|
  {
    if positions != [] {
      NotHeldMeansNoExposure(positions[..|positions| - 1], prices, symbol);
    }
  }

  lemma {:induction false} ExposureToTheLast(exposures: seq<(string, real)>, symbol: string, amount: real)
    requires forall e <- exposures :: e.0 != symbol
    ensures ExposureTo(exposures, symbol) == 0.0
    ensures ExposureTo(exposures + [(symbol, amount)], symbol) == amount
    decreases |exposures|
  {
    if exposures != [] {
      ExposureToTheLast(exposures[1..], symbol, amount);
      assert (exposures + [(symbol, amount)])[1..] == exposures[1..] + [(symbol, amount)];
    }
  }

  lemma {:induction false} ExposureOfTheLast(positions: seq<Position>, p: Position, prices: Prices)
    ensures AssetExposure(positions + [p], prices)
            == AssetExposure(positions, prices) + [(p.symbol, p.MarketValue(PriceOf(prices, p)))]
  {
    var all := positions + [p];
    var last := all[|all| - 1];
    assert AssetExposure(all, prices)
           == AssetExposure(all[..|all| - 1], prices) + [(last.symbol, last.MarketValue(PriceOf(prices, last)))];
    assert last == p;
    assert all[..|all| - 1] == positions;
  }

  /** Opening adds one exposure, at the price of its symbol, to those already held. */
  lemma {:induction false} OpeningAddsExposure(b: Book, p: Position, prices: Prices)
    requires Opened(b, p).Ok? && p.symbol in prices
    ensures var before := AssetExposure(b.positions, prices);
            var after := AssetExposure(Opened(b, p).value.positions, prices);
            && TotalExposure(after) == TotalExposure(before) + p.quantity * prices[p.symbol]
            && ExposureTo(after, p.symbol) == p.quantity * prices[p.symbol]
            && ExposureTo(before, p.symbol) == 0.0
  {
    var before := AssetExposure(b.positions, prices);
    var added := (p.symbol, p.MarketValue(PriceOf(prices, p)));
    ExposureOfTheLast(b.positions, p, prices);
    SumSnoc(before, added, Amount);
    NotHeldMeansNoExposure(b.positions, prices, p.symbol);
    ExposureToTheLast(before, p.symbol, added.1);
  }

  /** What an approval says about the account it was given to. */
  lemma {:induction false} ApprovedCaps(
      setup: Setup, v: Venue, entry: Entry, prices: Prices, now: int, system: SystemState)
    requires setup.InRange() && EvaluateEntry(setup, v, entry, prices, now, system).1.Approved?
    ensures var a, e := EvaluateEntry(setup, v, entry, prices, now, system).1, Equity(v.book, prices);
            var held := AssetExposure(v.book.positions, prices);
            && a.size.Sized? && entry.price > 0.0 && |v.book.positions| < setup.risk.maxSimultaneousPositions
            && ExposureTo(held, entry.symbol) + a.size.quantity * entry.price <= e * setup.risk.maxAssetExposure
            && TotalExposure(held) + a.size.quantity * entry.price <= e * setup.risk.maxPortfolioExposure
  {
    hide CalculatePositionSize, CheckAccountHalts, Equity, UnrealisedPnl, AssetExposure, ConsecutiveLosses, OnGrid;
    var request, account := RequestOf(setup, v, entry, now), AccountStateOf(v.book, prices);
    ApprovalMeansEveryLimitHolds(setup.risk, request, account, system);
    hide Evaluate, AccountClear, SystemTrusted;
    SizedRespectsEveryLimit(SizingOf(request, account), setup.risk, entry.filters);
  }

  lemma {:induction false} FilledAtMostSized(setup: Setup, quantity: real, o: Order)
    requires setup.InRange() && !EntryFill(setup, quantity, o).IsEmpty()
    ensures o.reference > 0.0
    ensures EntryFill(setup, quantity, o).quantity * o.reference <= quantity * o.reference
  {
    EntryFillIsReal(setup, quantity, o);
    SmallerIsCheaper(EntryFill(setup, quantity, o).quantity, quantity, o.reference);
  }

  /**
   * An approved entry, however much of it fills, leaves the count of positions and, at the prices
   * it was approved at and before slippage, the exposure to its asset and in all, within their caps
   * of the equity it was approved on.
   */
  lemma {:induction false} EntryStaysWithinTheCaps(setup: Setup, v: Venue, step: Step)
    requires setup.InRange() && WellFormed(step) && step.Enter?
    ensures var after, e := Take(setup, v, step), Equity(v.book, step.prices);
            after.book.positions != v.book.positions ==>
              var held := AssetExposure(after.book.positions, step.prices);
              && |after.book.positions| == |v.book.positions| + 1 <= setup.risk.maxSimultaneousPositions
              && ExposureTo(held, step.entry.symbol) <= e * setup.risk.maxAssetExposure
              && TotalExposure(held) <= e * setup.risk.maxPortfolioExposure
  {
    hide Evaluate, EntryFill, Equity, AssetExposure, TotalExposure, ExposureTo, Find, AccountStateOf, RequestOf;
    var (asked, a) := EvaluateEntry(setup, v, step.entry, step.prices, step.now, step.system);
    if a.Approved? {
      ApprovedCaps(setup, v, step.entry, step.prices, step.now, step.system);
      var fill := EntryFill(setup, a.size.quantity, step.order);
      if !fill.IsEmpty() {
        var p := PositionFor(step.order, fill);
        FilledAtMostSized(setup, a.size.quantity, step.order);
        assert p.quantity * step.prices[p.symbol] <= a.size.quantity * step.entry.price;
        if Opened(v.book, p).Ok? {
          OpeningAddsExposure(v.book, p, step.prices);
          assert Take(setup, v, step).book == Opened(v.book, p).value;
        }
      }
    }
  }

  // --- Whole runs -----------------------------------------------------

  lemma {:induction false} OthersAddNothing(setup: Setup, v: Venue, op: Op)
    requires !op.Open?
    ensures |Apply(setup, v, op).book.positions| <= |v.book.positions|
  {
    hide Evaluate, SimulateFill, Equity, TradeOf;
    if op.ForceClose? {
      CloseEachAddsNothing(setup, v, SymbolsOf(v.book.positions), op.prices, op.time, op.reason);
    }
  }

  lemma {:induction false} CloseEachAddsNothing(
      setup: Setup, v: Venue, symbols: seq<string>, prices: Prices, time: int, reason: string)
    ensures |CloseEach(setup, v, symbols, prices, time, reason).0.book.positions| <= |v.book.positions|
    decreases |symbols|
  {
    hide SimulateFill, TradeOf;
    if symbols != [] {
      var at := Find(v.book.positions, symbols[0]);
      if at.None? {
        CloseEachAddsNothing(setup, v, symbols[1..], prices, time, reason);
      } else {
        var reference := PriceOf(prices, v.book.positions[at.value]);
        var next := ClosePosition(setup, v, symbols[0], reference, time, reason, None).0;
        CloseEachAddsNothing(setup, next, symbols[1..], prices, time, reason);
      }
    }
  }

  /** However many symbols are traded, the open positions never outnumber the limit. */
  lemma {:induction false} PositionsStayWithinTheLimit(setup: Setup, balance: real, steps: seq<Step>)
    requires setup.InRange() && forall step <- steps :: WellFormed(step)
    ensures |TakeAll(setup, balance, steps).book.positions| <= setup.risk.maxSimultaneousPositions
    decreases |steps|
  {
    if steps != [] {
      hide Take, Apply, Equity, AssetExposure;
      var step := steps[|steps| - 1];
      assert step in steps && WellFormed(step);
      var v := TakeAll(setup, balance, steps[..|steps| - 1]);
      PositionsStayWithinTheLimit(setup, balance, steps[..|steps| - 1]);
      if step.Enter? {
        EntryStaysWithinTheCaps(setup, v, step);
      } else {
        OthersAddNothing(setup, v, step.op);
        TakeOther(setup, v, step);
      }
    }
  }

  lemma {:induction false} TakeOther(setup: Setup, v: Venue, step: Step)
    requires step.Other?
    ensures Take(setup, v, step) == Apply(setup, v, step.op)
  {
  }
}
