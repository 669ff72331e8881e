/** The risk engine: `backend/app/risk/engine.py`. */
module RiskEngine {
  import opened Wrappers
  import opened Sums
  import opened TradingLimits
  import opened PositionSizing

  datatype EngineState = Running | Paused | EmergencyStopped

  datatype Rule =
    | EmergencyStop | EnginePaused | StaleData | ApiFailure | ModelHealth
    | MaxDailyLossHit | MaxDrawdownHit | MaxConsecutiveLossesHit
    | SpreadTooWide | TooVolatile | SlippageTooHigh | CooldownRunning | MaxPositionsHeld
    | AssetExposureFull | PortfolioExposureFull | PositionNotSizeable
    | WithinLimits

  /** What the account-level rules read, in quote currency; exposures in the order held. */
  datatype AccountState = AccountState(
    equity: real, availableQuote: real, peakEquity: real,
    realisedPnlToday: real, unrealisedPnl: real,
    consecutiveLosses: nat, openPositions: nat, assetExposure: seq<(string, real)>)

  datatype SystemState = SystemState(
    engineState: EngineState, marketDataStale: bool, consecutiveApiFailures: int, modelHealthy: bool)

  const HEALTHY_SYSTEM := SystemState(Running, false, 0, true)

  datatype TradeRequest = TradeRequest(
    symbol: string, entryPrice: real, stopPrice: Option<real>, filters: SymbolFilters, takerFee: real,
    spreadFraction: Option<real>, atrFraction: Option<real>,
    secondsSinceLastExit: Option<int>, expectedSlippage: Option<real>)

  datatype Assessment =
    | Approved(size: PositionSize)
    | Rejected(rule: Rule)
    | Halted(rule: Rule)

  // --- Account fractions ----------------------------------------------

  function ExposureTo(exposures: seq<(string, real)>, symbol: string): real {
    if exposures == [] then 0.0
    else if exposures[0].0 == symbol then exposures[0].1
    else ExposureTo(exposures[1..], symbol)
  }

  function Amount(exposure: (string, real)): real {
    exposure.1
  }

  function TotalExposure(exposures: seq<(string, real)>): real {
    SumOf(exposures, Amount)
  }

  function DrawdownFraction(a: AccountState): real {
    if a.peakEquity <= 0.0 then 0.0
    else
      var fraction := (a.peakEquity - a.equity) / a.peakEquity;
      if fraction >= 0.0 then fraction else 0.0
  }

  function DailyLossFraction(a: AccountState): real {
    if a.equity <= 0.0 then 1.0
    else
      var combined := a.realisedPnlToday + a.unrealisedPnl;
      if combined >= 0.0 then 0.0 else -combined / a.equity
  }

  // --- Halts ----------------------------------------------------------

  function CheckAccountHalts(risk: RiskConfig, a: AccountState): Option<Rule> {
    if DailyLossFraction(a) >= risk.maxDailyLoss then Some(MaxDailyLossHit)
    else if DrawdownFraction(a) >= risk.maxDrawdown then Some(MaxDrawdownHit)
    else if a.consecutiveLosses >= risk.maxConsecutiveLosses then Some(MaxConsecutiveLossesHit)
    else None
  }

  function CheckSystemHealth(risk: RiskConfig, s: SystemState): Option<Rule> {
    if s.engineState == EmergencyStopped then Some(EmergencyStop)
    else if s.engineState == Paused then Some(EnginePaused)
    else if s.marketDataStale then Some(StaleData)
    else if s.consecutiveApiFailures >= risk.apiFailureProtectionThreshold then Some(ApiFailure)
    else if risk.modelHealthProtection && !s.modelHealthy then Some(ModelHealth)
    else None
  }

  // --- One trade ------------------------------------------------------

  function CheckTradeConditions(risk: RiskConfig, t: TradeRequest, a: AccountState): Option<Rule> {
    if t.spreadFraction.Some? && t.spreadFraction.value > risk.spreadProtection then Some(SpreadTooWide)
    else if t.atrFraction.Some? && t.atrFraction.value > risk.volatilityProtection then Some(TooVolatile)
    else if t.expectedSlippage.Some? && t.expectedSlippage.value > risk.maxSlippage then Some(SlippageTooHigh)
    else if t.secondsSinceLastExit.Some? && t.secondsSinceLastExit.value < risk.cooldownPeriodSeconds then
      Some(CooldownRunning)
    else if a.openPositions >= risk.maxSimultaneousPositions then Some(MaxPositionsHeld)
    else if a.equity > 0.0 && ExposureTo(a.assetExposure, t.symbol) >= a.equity * risk.maxAssetExposure then
      Some(AssetExposureFull)
    else if a.equity > 0.0 && TotalExposure(a.assetExposure) >= a.equity * risk.maxPortfolioExposure then
      Some(PortfolioExposureFull)
    else None
  }

  function SizingOf(t: TradeRequest, a: AccountState): SizingRequest {
    SizingRequest(a.equity, a.availableQuote, t.entryPrice, t.stopPrice, t.takerFee,
                  ExposureTo(a.assetExposure, t.symbol), TotalExposure(a.assetExposure))
  }

  /** The only way to an approval. */
  function Evaluate(risk: RiskConfig, t: TradeRequest, a: AccountState, s: SystemState): Assessment {
    var halt := if CheckSystemHealth(risk, s).Some? then CheckSystemHealth(risk, s) else CheckAccountHalts(risk, a);
    if halt.Some? then Halted(halt.value)
    else
      var rejection := CheckTradeConditions(risk, t, a);
      if rejection.Some? then Rejected(rejection.value)
      else
        var size := CalculatePositionSize(SizingOf(t, a), risk, t.filters);
        if size.Unsized? then Rejected(PositionNotSizeable) else Approved(size)
  }

  // --- What a verdict means -------------------------------------------

  ghost predicate SystemTrusted(risk: RiskConfig, s: SystemState) {
    && s.engineState == Running && !s.marketDataStale
    && s.consecutiveApiFailures < risk.apiFailureProtectionThreshold
    && (risk.modelHealthProtection ==> s.modelHealthy)
  }

  /** No account-level limit is reached, each one said without a division. */
  ghost predicate AccountClear(risk: RiskConfig, a: AccountState) {
    && (a.equity > 0.0 ==> -(a.realisedPnlToday + a.unrealisedPnl) < risk.maxDailyLoss * a.equity)
    && (a.equity <= 0.0 ==> 1.0 < risk.maxDailyLoss)
    && (a.peakEquity > 0.0 ==> a.peakEquity - a.equity < risk.maxDrawdown * a.peakEquity)
    && a.consecutiveLosses < risk.maxConsecutiveLosses
  }

  ghost predicate TradeAcceptable(risk: RiskConfig, t: TradeRequest, a: AccountState) {
    && (t.spreadFraction.Some? ==> t.spreadFraction.value <= risk.spreadProtection)
    && (t.atrFraction.Some? ==> t.atrFraction.value <= risk.volatilityProtection)
    && (t.expectedSlippage.Some? ==> t.expectedSlippage.value <= risk.maxSlippage)
    && (t.secondsSinceLastExit.Some? ==> t.secondsSinceLastExit.value >= risk.cooldownPeriodSeconds)
    && a.openPositions < risk.maxSimultaneousPositions
    && (a.equity > 0.0 ==>
          && ExposureTo(a.assetExposure, t.symbol) < a.equity * risk.maxAssetExposure
          && TotalExposure(a.assetExposure) < a.equity * risk.maxPortfolioExposure)
  }

  lemma {:induction false} FractionBelow(x: real, y: real, limit: real)
    requires y > 0.0
    ensures x / y < limit <==> x < limit * y
  {
    QuotientAtMost(limit, y, x);
  }

  lemma {:induction false} AccountClearIsNoHalt(risk: RiskConfig, a: AccountState)
    requires risk.maxDailyLoss > 0.0 && risk.maxDrawdown > 0.0
    ensures CheckAccountHalts(risk, a).None? <==> AccountClear(risk, a)
  {
    AccountHaltsComeInOrder(risk, a);
  }

  lemma {:induction false} FractionNegative(x: real, y: real)
    requires y > 0.0
    ensures x / y >= 0.0 <==> x >= 0.0
  {
    QuotientAtMost(0.0, y, x);
  }

  /**
   * Approval means every limit in the configuration holds and the size is a legal one; a halt is
   * reported exactly when the system or the account is out of action, whatever the trade; and no
   * other verdict carries a size.
   */
  lemma {:induction false} ApprovalMeansEveryLimitHolds(
      risk: RiskConfig, t: TradeRequest, a: AccountState, s: SystemState)
    requires risk.maxDailyLoss > 0.0 && risk.maxDrawdown > 0.0
    ensures Evaluate(risk, t, a, s).Approved? <==>
            && SystemTrusted(risk, s) && AccountClear(risk, a) && TradeAcceptable(risk, t, a)
            && CalculatePositionSize(SizingOf(t, a), risk, t.filters).Sized?
    ensures Evaluate(risk, t, a, s).Halted? <==> !SystemTrusted(risk, s) || !AccountClear(risk, a)
    ensures Evaluate(risk, t, a, s).Approved? ==>
              Evaluate(risk, t, a, s).size == CalculatePositionSize(SizingOf(t, a), risk, t.filters)
  {
    hide CalculatePositionSize, CheckAccountHalts, AccountClear;
    AccountClearIsNoHalt(risk, a);
  }

  /** The account limits, each one said without a division. */
  ghost predicate LosesTooMuch(risk: RiskConfig, a: AccountState) {
    if a.equity > 0.0 then -(a.realisedPnlToday + a.unrealisedPnl) >= risk.maxDailyLoss * a.equity
    else risk.maxDailyLoss <= 1.0
  }

  ghost predicate FallsTooFar(risk: RiskConfig, a: AccountState) {
    a.peakEquity > 0.0 && a.peakEquity - a.equity >= risk.maxDrawdown * a.peakEquity
  }

  ghost predicate LosesTooOften(risk: RiskConfig, a: AccountState) {
    a.consecutiveLosses >= risk.maxConsecutiveLosses
  }

  /** Which account rule is named: the loss, then the drawdown, then the streak. */
  lemma {:induction false} AccountHaltsComeInOrder(risk: RiskConfig, a: AccountState)
    requires risk.maxDailyLoss > 0.0 && risk.maxDrawdown > 0.0
    ensures var halt := CheckAccountHalts(risk, a);
            && (halt == Some(MaxDailyLossHit) <==> LosesTooMuch(risk, a))
            && (halt == Some(MaxDrawdownHit) <==> !LosesTooMuch(risk, a) && FallsTooFar(risk, a))
            && (halt == Some(MaxConsecutiveLossesHit)
                <==> !LosesTooMuch(risk, a) && !FallsTooFar(risk, a) && LosesTooOften(risk, a))
            && (halt == None <==> AccountClear(risk, a))
  {
    hide DailyLossFraction, DrawdownFraction;
    LossIsJudgedExactly(risk, a);
    FallIsJudgedExactly(risk, a);
  }

  lemma {:induction false} LossIsJudgedExactly(risk: RiskConfig, a: AccountState)
    requires risk.maxDailyLoss > 0.0
    ensures DailyLossFraction(a) >= risk.maxDailyLoss <==> LosesTooMuch(risk, a)
  {
    if a.equity > 0.0 {
      FractionBelow(-(a.realisedPnlToday + a.unrealisedPnl), a.equity, risk.maxDailyLoss);
      assert risk.maxDailyLoss * a.equity > 0.0;
    }
  }

  lemma {:induction false} FallIsJudgedExactly(risk: RiskConfig, a: AccountState)
    requires risk.maxDrawdown > 0.0
    ensures DrawdownFraction(a) >= risk.maxDrawdown <==> FallsTooFar(risk, a)
  {
    if a.peakEquity > 0.0 {
      FractionBelow(a.peakEquity - a.equity, a.peakEquity, risk.maxDrawdown);
      FractionNegative(a.peakEquity - a.equity, a.peakEquity);
      assert risk.maxDrawdown * a.peakEquity > 0.0;
    }
  }

  /**
   * Which rule a halt names: the first in order of a stop, a pause, stale data, failing calls and an
   * unhealthy model; with none of those, the first of loss, drawdown and streak.
   */
  lemma {:induction false} HaltsComeInOrder(risk: RiskConfig, t: TradeRequest, a: AccountState, s: SystemState)
    requires risk.maxDailyLoss > 0.0 && risk.maxDrawdown > 0.0
    ensures var verdict := Evaluate(risk, t, a, s);
            var failing := s.consecutiveApiFailures >= risk.apiFailureProtectionThreshold;
            && (verdict == Halted(EmergencyStop) <==> s.engineState == EmergencyStopped)
            && (verdict == Halted(EnginePaused) <==> s.engineState == Paused)
            && (verdict == Halted(StaleData) <==> s.engineState == Running && s.marketDataStale)
            && (verdict == Halted(ApiFailure) <==> s.engineState == Running && !s.marketDataStale && failing)
            && (verdict == Halted(ModelHealth)
                <==> (&& s.engineState == Running && !s.marketDataStale && !failing
                      && risk.modelHealthProtection && !s.modelHealthy))
            && (verdict == Halted(MaxDailyLossHit) <==> SystemTrusted(risk, s) && LosesTooMuch(risk, a))
            && (verdict == Halted(MaxDrawdownHit)
                <==> SystemTrusted(risk, s) && !LosesTooMuch(risk, a) && FallsTooFar(risk, a))
            && (verdict == Halted(MaxConsecutiveLossesHit)
                <==> (&& SystemTrusted(risk, s)
                      && !LosesTooMuch(risk, a) && !FallsTooFar(risk, a) && LosesTooOften(risk, a)))
  {
    hide CalculatePositionSize, DailyLossFraction, DrawdownFraction, LosesTooMuch, FallsTooFar, LosesTooOften;
    AccountHaltsComeInOrder(risk, a);
  }

  /** Two accounts that differ only in their peak are given the same size, if both are approved. */
  lemma {:induction false} SizeIgnoresThePeak(
      risk: RiskConfig, t: TradeRequest, a: AccountState, peak: real, s: SystemState)
    requires Evaluate(risk, t, a, s).Approved? && Evaluate(risk, t, a.(peakEquity := peak), s).Approved?
    ensures Evaluate(risk, t, a, s) == Evaluate(risk, t, a.(peakEquity := peak), s)
  {
    hide CalculatePositionSize, CheckAccountHalts;
    assert SizingOf(t, a) == SizingOf(t, a.(peakEquity := peak));
  }
}
