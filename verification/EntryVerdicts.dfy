/** What the risk engine answers, and why, from the book an entry is asked of. */
module EntryVerdicts {
  import opened Sums
  import opened TradingLimits
  import opened PositionSizing
  import opened RiskEngine
  import opened Books
  import opened Simulator
  import opened VenueEffects

  /** The rules in the order they are looked at; the first eight halt, the others reject. */
  const ORDER: seq<Rule> := [
    EmergencyStop, EnginePaused, StaleData, ApiFailure, ModelHealth,
    MaxDailyLossHit, MaxDrawdownHit, MaxConsecutiveLossesHit,
    SpreadTooWide, TooVolatile, SlippageTooHigh, CooldownRunning, MaxPositionsHeld,
    AssetExposureFull, PortfolioExposureFull, PositionNotSizeable]

  function RefusalFor(k: nat): Assessment
    requires k < |ORDER|
  {
    if k < 8 then Halted(ORDER[k]) else Rejected(ORDER[k])
  }

  // --- On any account -------------------------------------------------------

  /** The condition of each rule, whatever the others say. */
  ghost predicate Fires(rule: Rule, risk: RiskConfig, t: TradeRequest, a: AccountState, s: SystemState) {
    match rule
    case EmergencyStop => s.engineState == EmergencyStopped
    case EnginePaused => s.engineState == Paused
    case StaleData => s.marketDataStale
    case ApiFailure => s.consecutiveApiFailures >= risk.apiFailureProtectionThreshold
    case ModelHealth => risk.modelHealthProtection && !s.modelHealthy
    case MaxDailyLossHit => LosesTooMuch(risk, a)
    case MaxDrawdownHit => FallsTooFar(risk, a)
    case MaxConsecutiveLossesHit => LosesTooOften(risk, a)
    case SpreadTooWide => t.spreadFraction.Some? && t.spreadFraction.value > risk.spreadProtection
    case TooVolatile => t.atrFraction.Some? && t.atrFraction.value > risk.volatilityProtection
    case SlippageTooHigh => t.expectedSlippage.Some? && t.expectedSlippage.value > risk.maxSlippage
    case CooldownRunning =>
      t.secondsSinceLastExit.Some? && t.secondsSinceLastExit.value < risk.cooldownPeriodSeconds
    case MaxPositionsHeld => a.openPositions >= risk.maxSimultaneousPositions
    case AssetExposureFull =>
      a.equity > 0.0 && ExposureTo(a.assetExposure, t.symbol) >= a.equity * risk.maxAssetExposure
    case PortfolioExposureFull =>
      a.equity > 0.0 && TotalExposure(a.assetExposure) >= a.equity * risk.maxPortfolioExposure
    case PositionNotSizeable =>
      CalculatePositionSize(
        SizingRequest(a.equity, a.availableQuote, t.entryPrice, t.stopPrice, t.takerFee,
                      ExposureTo(a.assetExposure, t.symbol), TotalExposure(a.assetExposure)),
        risk, t.filters).Unsized?
    case WithinLimits => false
  }

  ghost predicate FiresFirst(k: nat, risk: RiskConfig, t: TradeRequest, a: AccountState, s: SystemState)
    requires k < |ORDER|
  {
    Fires(ORDER[k], risk, t, a, s) && forall j :: 0 <= j < k ==> !Fires(ORDER[j], risk, t, a, s)
  }

  /** The first rule that fires is the one named; with none, the trade is approved. */
  lemma {:induction false} TheFirstRuleIsNamed(
      risk: RiskConfig, t: TradeRequest, a: AccountState, s: SystemState, k: nat)
    requires risk.maxDailyLoss > 0.0 && risk.maxDrawdown > 0.0 && k < |ORDER|
    ensures Evaluate(risk, t, a, s) == RefusalFor(k) <==> FiresFirst(k, risk, t, a, s)
    ensures Evaluate(risk, t, a, s).Approved? <==> forall j :: 0 <= j < |ORDER| ==> !Fires(ORDER[j], risk, t, a, s)
  {
    LossIsJudgedExactly(risk, a);
    FallIsJudgedExactly(risk, a);
    hide DailyLossFraction, DrawdownFraction, LosesTooMuch, FallsTooFar, ExposureTo, TotalExposure,
         CalculatePositionSize;
    assert |ORDER| == 16;
    NamedInOrder(risk, t, a, s, k);
  }

  lemma {:induction false} NamedInOrder(risk: RiskConfig, t: TradeRequest, a: AccountState, s: SystemState, k: nat)
    requires k < |ORDER|
    requires DailyLossFraction(a) >= risk.maxDailyLoss <==> LosesTooMuch(risk, a)
    requires DrawdownFraction(a) >= risk.maxDrawdown <==> FallsTooFar(risk, a)
    ensures Evaluate(risk, t, a, s) == RefusalFor(k) <==> FiresFirst(k, risk, t, a, s)
    ensures Evaluate(risk, t, a, s).Approved? <==> forall j :: 0 <= j < |ORDER| ==> !Fires(ORDER[j], risk, t, a, s)
  {
    hide DailyLossFraction, DrawdownFraction, LosesTooMuch, FallsTooFar, ExposureTo, TotalExposure,
         CalculatePositionSize;
    var first := FirstFiring(risk, t, a, s);
    if first < |ORDER| {
      assert ORDER[first] == ORDER[k] ==> first == k;
    }
  }

  /** The place of the first rule that fires, or the number of rules. */
  lemma {:induction false} FirstFiring(risk: RiskConfig, t: TradeRequest, a: AccountState, s: SystemState)
    returns (first: nat)
    requires DailyLossFraction(a) >= risk.maxDailyLoss <==> LosesTooMuch(risk, a)
    requires DrawdownFraction(a) >= risk.maxDrawdown <==> FallsTooFar(risk, a)
    ensures first <= |ORDER|
    ensures forall j :: 0 <= j < first ==> !Fires(ORDER[j], risk, t, a, s)
    ensures if first < |ORDER| then Fires(ORDER[first], risk, t, a, s) && Evaluate(risk, t, a, s) == RefusalFor(first)
            else Evaluate(risk, t, a, s).Approved?
  {
    hide DailyLossFraction, DrawdownFraction, LosesTooMuch, FallsTooFar, ExposureTo, TotalExposure,
         CalculatePositionSize;
    first := match Evaluate(risk, t, a, s)
      case Approved(_) => 16
      case Halted(rule) => PlaceOf(rule)
      case Rejected(rule) => PlaceOf(rule);
  }

  function PlaceOf(rule: Rule): nat {
    match rule
    case EmergencyStop => 0
    case EnginePaused => 1
    case StaleData => 2
    case ApiFailure => 3
    case ModelHealth => 4
    case MaxDailyLossHit => 5
    case MaxDrawdownHit => 6
    case MaxConsecutiveLossesHit => 7
    case SpreadTooWide => 8
    case TooVolatile => 9
    case SlippageTooHigh => 10
    case CooldownRunning => 11
    case MaxPositionsHeld => 12
    case AssetExposureFull => 13
    case PortfolioExposureFull => 14
    case PositionNotSizeable => 15
    case WithinLimits => 16
  }

  // --- On a book ------------------------------------------------------------

  /** The holding in one symbol at its price. */
  ghost function WorthIn(positions: seq<Position>, prices: Prices, symbol: string): real {
    if positions == [] then 0.0
    else
      var p := positions[|positions| - 1];
      WorthIn(positions[..|positions| - 1], prices, symbol)
      + if p.symbol != symbol then 0.0
        else p.quantity * (if symbol in prices then prices[symbol] else p.entryPrice)
  }

  /** The last `n` trades are there, and none of them won. */
  ghost predicate EndsInLosses(closed: seq<Trade>, n: int) {
    n <= 0 || (n <= |closed| && forall t <- closed[|closed| - n..] :: t.netPnl <= 0.0)
  }

  /** Fewer whole seconds than `seconds` lie between two instants. */
  predicate Sooner(from: int, to: int, seconds: int) {
    if seconds > 0 then to - from < seconds * 1_000_000 else to - from <= (seconds - 1) * 1_000_000
  }

  /** What an entry is sized from. */
  ghost function SizedFrom(setup: Setup, v: Venue, e: Entry, prices: Prices): SizingRequest {
    SizingRequest(v.book.cash + Worth(v.book.positions, prices), v.book.cash, e.price, e.stopPrice,
                  setup.config.feeRate, WorthIn(v.book.positions, prices, e.symbol), Worth(v.book.positions, prices))
  }

  /** The condition of each rule, from the venue and the entry asked for. */
  ghost predicate RefusesEntry(
      rule: Rule, setup: Setup, v: Venue, e: Entry, prices: Prices, now: int, s: SystemState)
  {
    var risk, b := setup.risk, v.book;
    var equity := b.cash + Worth(b.positions, prices);
    match rule
    case EmergencyStop => s.engineState == EmergencyStopped
    case EnginePaused => s.engineState == Paused
    case StaleData => s.marketDataStale
    case ApiFailure => s.consecutiveApiFailures >= risk.apiFailureProtectionThreshold
    case ModelHealth => risk.modelHealthProtection && !s.modelHealthy
    case MaxDailyLossHit =>
      if equity > 0.0 then -(SumOf(b.closed, NetPnl) + Gain(b.positions, prices)) >= risk.maxDailyLoss * equity
      else risk.maxDailyLoss <= 1.0
    case MaxDrawdownHit => b.peakEquity > 0.0 && b.peakEquity - equity >= risk.maxDrawdown * b.peakEquity
    case MaxConsecutiveLossesHit => EndsInLosses(b.closed, risk.maxConsecutiveLosses)
    case SpreadTooWide => e.spreadFraction.Some? && e.spreadFraction.value > risk.spreadProtection
    case TooVolatile => e.atrFraction.Some? && e.atrFraction.value > risk.volatilityProtection
    case CooldownRunning =>
      e.symbol in v.lastExit && Sooner(v.lastExit[e.symbol], now, risk.cooldownPeriodSeconds)
    case MaxPositionsHeld => |b.positions| >= risk.maxSimultaneousPositions
    case AssetExposureFull =>
      equity > 0.0 && WorthIn(b.positions, prices, e.symbol) >= equity * risk.maxAssetExposure
    case PortfolioExposureFull => equity > 0.0 && Worth(b.positions, prices) >= equity * risk.maxPortfolioExposure
    case PositionNotSizeable => CalculatePositionSize(SizedFrom(setup, v, e, prices), risk, e.filters).Unsized?
    case _ => false
  }

  ghost predicate RefusesFirst(
      k: nat, setup: Setup, v: Venue, e: Entry, prices: Prices, now: int, s: SystemState)
    requires k < |ORDER|
  {
    && RefusesEntry(ORDER[k], setup, v, e, prices, now, s)
    && forall j :: 0 <= j < k ==> !RefusesEntry(ORDER[j], setup, v, e, prices, now, s)
  }

  lemma {:induction false} StreakIsLosses(closed: seq<Trade>, n: int)
    ensures ConsecutiveLosses(closed) >= n <==> EndsInLosses(closed, n)
  {
    StreakCountsBackToTheLastWin(closed);
    hide ConsecutiveLosses;
    var streak := ConsecutiveLosses(closed);
    if 0 < n <= streak {
      forall i | |closed| - n <= i < |closed| ensures closed[i].netPnl <= 0.0 {
        assert closed[i] == closed[|closed| - streak..][i - (|closed| - streak)];
        assert closed[i] in closed[|closed| - streak..] && !closed[i].IsWin();
      }
    } else if streak < n <= |closed| {
      assert closed[|closed| - n..][n - streak - 1] == closed[|closed| - streak - 1];
    }
  }

  lemma {:induction false} WholeSeconds(from: int, to: int, seconds: int)
    ensures SecondsBetween(from, to) < seconds <==> Sooner(from, to, seconds)
  {
  }

  lemma {:induction false} NoneIsWorthNothing(positions: seq<Position>, prices: Prices, symbol: string)
    requires forall p <- positions :: p.symbol != symbol
    ensures WorthIn(positions, prices, symbol) == 0.0
    ensures forall e <- AssetExposure(positions, prices) :: e.0 != symbol
    decreases |positions|
  {
    if positions != [] {
      NoneIsWorthNothing(positions[..|positions| - 1], prices, symbol);
    }
  }

  ghost predicate Exposed(exposures: seq<(string, real)>, symbol: string) {
    exists e <- exposures :: e.0 == symbol
  }

  lemma {:induction false} ExposureAppended(exposures: seq<(string, real)>, last: (string, real), symbol: string)
    ensures Exposed(exposures, symbol) ==> ExposureTo(exposures + [last], symbol) == ExposureTo(exposures, symbol)
    ensures !Exposed(exposures, symbol) ==>
              && ExposureTo(exposures, symbol) == 0.0
              && ExposureTo(exposures + [last], symbol) == if last.0 == symbol then last.1 else 0.0
    decreases |exposures|
  {
    if exposures != [] {
      assert (exposures + [last])[1..] == exposures[1..] + [last];
      assert exposures == [exposures[0]] + exposures[1..];
      ExposureAppended(exposures[1..], last, symbol);
    }
  }

  /** The price a holding is marked at. */
  function MarkOf(p: Position, prices: Prices): real {
    if p.symbol in prices then prices[p.symbol] else p.entryPrice
  }

  function ExposureOf(p: Position, prices: Prices): (string, real) {
    (p.symbol, p.MarketValue(PriceOf(prices, p)))
  }

  lemma {:induction false} LastExposure(positions: seq<Position>, prices: Prices)
    requires positions != []
    ensures var init, p := positions[..|positions| - 1], positions[|positions| - 1];
            && AssetExposure(positions, prices) == AssetExposure(init, prices) + [ExposureOf(p, prices)]
            && ExposureOf(p, prices).1 == p.quantity * MarkOf(p, prices)
  {
  }

  lemma {:induction false} TotalIsWorth(positions: seq<Position>, prices: Prices)
    ensures TotalExposure(AssetExposure(positions, prices)) == Worth(positions, prices)
    decreases |positions|
  {
    if positions != [] {
      var init, p := positions[..|positions| - 1], positions[|positions| - 1];
      TotalIsWorth(init, prices);
      LastExposure(positions, prices);
      hide AssetExposure, ExposureOf;
      SumSnoc(AssetExposure(init, prices), ExposureOf(p, prices), Amount);
    }
  }

  lemma {:induction false} ExposureIsWorth(positions: seq<Position>, prices: Prices, symbol: string)
    requires DistinctSymbols(positions)
    ensures ExposureTo(AssetExposure(positions, prices), symbol) == WorthIn(positions, prices, symbol)
    decreases |positions|
  {
    if positions != [] {
      var init, p := positions[..|positions| - 1], positions[|positions| - 1];
      LastIsAlone(positions);
      ExposureIsWorth(init, prices, symbol);
      LastExposure(positions, prices);
      var before, last := AssetExposure(init, prices), ExposureOf(p, prices);
      ExposureAppended(before, last, symbol);
      if p.symbol == symbol {
        NoneIsWorthNothing(init, prices, symbol);
        assert !Exposed(before, symbol);
      }
      hide AssetExposure, DistinctSymbols;
      assert last.0 == p.symbol;
    }
  }

  lemma {:induction false} LastIsAlone(positions: seq<Position>)
    requires DistinctSymbols(positions) && positions != []
    ensures DistinctSymbols(positions[..|positions| - 1])
    ensures forall q <- positions[..|positions| - 1] :: q.symbol != positions[|positions| - 1].symbol
  {
  }

  /** The realised result is that of the ledger, and no symbol is held twice. */
  ghost predicate Tallied(b: Book) {
    b.realisedPnl == SumOf(b.closed, NetPnl) && DistinctSymbols(b.positions)
  }

  /** The figures of the book that the rules read. */
  ghost predicate Reads(a: AccountState, v: Venue, prices: Prices, symbol: string) {
    && a.equity == v.book.cash + Worth(v.book.positions, prices) && a.availableQuote == v.book.cash
    && a.peakEquity == v.book.peakEquity
    && a.realisedPnlToday == SumOf(v.book.closed, NetPnl) && a.unrealisedPnl == Gain(v.book.positions, prices)
    && a.consecutiveLosses == ConsecutiveLosses(v.book.closed) && a.openPositions == |v.book.positions|
    && ExposureTo(a.assetExposure, symbol) == WorthIn(v.book.positions, prices, symbol)
    && TotalExposure(a.assetExposure) == Worth(v.book.positions, prices)
  }

  /** The account the rules are asked about is that of the book. */
  lemma {:induction false} AccountReadsTheBook(v: Venue, prices: Prices, symbol: string)
    requires Tallied(v.book)
    ensures Reads(AccountStateOf(v.book, prices), v, prices, symbol)
  {
    hide Worth, WorthIn, Gain, SumOf, ExposureTo, TotalExposure, AssetExposure, ConsecutiveLosses;
    EquityIsCashAndWorth(v.book, prices);
    ExposureIsWorth(v.book.positions, prices, symbol);
    TotalIsWorth(v.book.positions, prices);
    hide Equity, UnrealisedPnl;
  }

  lemma {:induction false} RulesReadTheBook(
      rule: Rule, setup: Setup, v: Venue, e: Entry, prices: Prices, now: int, s: SystemState, a: AccountState)
    requires Reads(a, v, prices, e.symbol)
    ensures Fires(rule, setup.risk, RequestOf(setup, v, e, now), a, s)
            <==> RefusesEntry(rule, setup, v, e, prices, now, s)
  {
    hide Worth, WorthIn, Gain, SumOf, ExposureTo, TotalExposure, CalculatePositionSize;
    if rule == MaxConsecutiveLossesHit {
      StreakIsLosses(v.book.closed, setup.risk.maxConsecutiveLosses);
    } else if rule == CooldownRunning && e.symbol in v.lastExit {
      WholeSeconds(v.lastExit[e.symbol], now, setup.risk.cooldownPeriodSeconds);
    }
    hide ConsecutiveLosses, EndsInLosses, SecondsBetween, Sooner;
  }

  /**
   * An entry is told of the first rule, in order, that the venue and the entry meet; if they meet none
   * it is approved, for the size that the book, the price and the stop allow. A refusal is counted and
   * nothing else changes.
   */
  lemma {:induction false} WhatAnEntryIsTold(
      setup: Setup, v: Venue, e: Entry, prices: Prices, now: int, s: SystemState, k: nat)
    requires setup.InRange() && Tallied(v.book) && k < |ORDER|
    ensures var (w, a) := EvaluateEntry(setup, v, e, prices, now, s);
            && (a == RefusalFor(k) <==> RefusesFirst(k, setup, v, e, prices, now, s))
            && (a.Approved? <==> forall j :: 0 <= j < |ORDER| ==> !RefusesEntry(ORDER[j], setup, v, e, prices, now, s))
            && (a.Approved? ==>
                  && a.size.Sized?
                  && a.size == CalculatePositionSize(SizedFrom(setup, v, e, prices), setup.risk, e.filters))
            && w == if a.Approved? then v else v.(rejectedCount := v.rejectedCount + 1)
  {
    hide Fires, RefusesEntry;
    var t, a := RequestOf(setup, v, e, now), AccountStateOf(v.book, prices);
    AccountReadsTheBook(v, prices, e.symbol);
    hide AccountStateOf, Reads;
    forall j | 0 <= j < |ORDER|
      ensures Fires(ORDER[j], setup.risk, t, a, s) <==> RefusesEntry(ORDER[j], setup, v, e, prices, now, s)
    {
      RulesReadTheBook(ORDER[j], setup, v, e, prices, now, s, a);
    }
    TheFirstRuleIsNamed(setup.risk, t, a, s, k);
    SizeIsOfTheBook(setup, v, e, prices, now, s);
    hide Evaluate, RequestOf, CalculatePositionSize, Worth, WorthIn;
  }

  /** A refusal names a rule of the order. */
  lemma {:induction false} FirstRefusal(
      setup: Setup, v: Venue, e: Entry, prices: Prices, now: int, s: SystemState) returns (k: nat)
    requires setup.InRange() && Tallied(v.book) && !EvaluateEntry(setup, v, e, prices, now, s).1.Approved?
    ensures k < |ORDER| && EvaluateEntry(setup, v, e, prices, now, s).1 == RefusalFor(k)
    ensures RefusesFirst(k, setup, v, e, prices, now, s)
  {
    hide EvaluateEntry, RefusesEntry, Tallied;
    WhatAnEntryIsTold(setup, v, e, prices, now, s, 0);
    k := 0;
    while k < |ORDER| && !RefusesEntry(ORDER[k], setup, v, e, prices, now, s)
      invariant k <= |ORDER|
      invariant forall j :: 0 <= j < k ==> !RefusesEntry(ORDER[j], setup, v, e, prices, now, s)
    {
      k := k + 1;
    }
    WhatAnEntryIsTold(setup, v, e, prices, now, s, k);
  }

  lemma {:induction false} SizeIsOfTheBook(
      setup: Setup, v: Venue, e: Entry, prices: Prices, now: int, s: SystemState)
    requires Tallied(v.book)
    ensures var a := EvaluateEntry(setup, v, e, prices, now, s).1;
            a.Approved? ==>
              && a.size.Sized?
              && a.size == CalculatePositionSize(SizedFrom(setup, v, e, prices), setup.risk, e.filters)
  {
    AccountReadsTheBook(v, prices, e.symbol);
    hide AccountStateOf, Worth, WorthIn, Gain, SumOf, ExposureTo, TotalExposure, CalculatePositionSize,
         CheckAccountHalts, CheckTradeConditions, CheckSystemHealth;
  }
}
