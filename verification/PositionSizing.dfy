/** The risk limits and the exchange's rules for a symbol: `backend/app/config/risk_config.py`. */
module TradingLimits {
  import opened Wrappers

  datatype RiskConfig = RiskConfig(
    maxRiskPerTrade: real, maxPositionSize: real, maxAssetExposure: real, maxPortfolioExposure: real,
    maxSimultaneousPositions: int,
    maxDailyLoss: real, maxDrawdown: real, maxConsecutiveLosses: int,
    maxSlippage: real, spreadProtection: real, volatilityProtection: real,
    apiFailureProtectionThreshold: int, modelHealthProtection: bool,
    cooldownPeriodSeconds: int)
  {
    /** The ranges the configuration model enforces. */
    predicate InRange() {
      && 0.0 < maxRiskPerTrade <= 1.0 && 0.0 < maxPositionSize <= 1.0
      && 0.0 < maxAssetExposure <= 1.0 && 0.0 < maxPortfolioExposure <= 1.0
      && maxSimultaneousPositions >= 1
      && 0.0 < maxDailyLoss <= 1.0 && 0.0 < maxDrawdown <= 1.0 && maxConsecutiveLosses >= 1
      && 0.0 <= maxSlippage <= 1.0 && 0.0 <= spreadProtection <= 1.0 && 0.0 <= volatilityProtection
      && apiFailureProtectionThreshold >= 1 && cooldownPeriodSeconds >= 0
    }
  }

  /** A missing field is no constraint. */
  datatype SymbolFilters = SymbolFilters(
    minQty: Option<real>, maxQty: Option<real>, stepSize: Option<real>,
    minNotional: Option<real>, applyMinToMarket: bool)
}

/** Position sizing: `backend/app/risk/position_sizing.py`. */
module PositionSizing {
  import opened Wrappers
  import opened Fills
  import opened TradingLimits

  datatype RejectCode =
    | NoStopDistance | TradeNotEconomic | BelowMinQty | BelowMinNotional | InsufficientBalance | NoEquity

  datatype PositionSize =
    | Sized(quantity: real, notional: real, riskAmount: real, estimatedFee: real)
    | Unsized(code: RejectCode)

  /** What a long entry is sized from; exposures are those already held, in quote currency. */
  datatype SizingRequest = SizingRequest(
    equity: real, availableQuote: real, entryPrice: real, stopPrice: Option<real>,
    takerFee: real, assetExposure: real, portfolioExposure: real)

  /** The amounts a size is held to: what may be risked, the room under each cap, and the cash. */
  datatype Limits = Limits(
    riskBudget: real, positionCap: real, assetRoom: real, portfolioRoom: real, cash: real,
    maxQty: Option<real>, step: Option<real>)

  function LimitsOf(r: SizingRequest, risk: RiskConfig, filters: SymbolFilters): Limits {
    Limits(
      r.equity * risk.maxRiskPerTrade,
      r.equity * risk.maxPositionSize,
      r.equity * risk.maxAssetExposure - r.assetExposure,
      r.equity * risk.maxPortfolioExposure - r.portfolioExposure,
      r.availableQuote,
      filters.maxQty, filters.stepSize)
  }

  function Min(a: real, b: real): real {
    if a <= b then a else b
  }

  /** The tightest of the exposure caps and the cash at hand. */
  function CapNotional(limits: Limits): real {
    Min(Min(Min(limits.positionCap, limits.assetRoom), limits.portfolioRoom), limits.cash)
  }

  /** The risk-sized quantity after the caps and the exchange's maximum, before rounding. */
  function UnroundedQuantity(price: real, stopDistance: real, limits: Limits): real
    requires price > 0.0 && stopDistance > 0.0
  {
    var byRisk := limits.riskBudget / stopDistance;
    var byCap := if byRisk * price > CapNotional(limits) then CapNotional(limits) / price else byRisk;
    if limits.maxQty.Some? && byCap > limits.maxQty.value then limits.maxQty.value else byCap
  }

  function RoundedQuantity(price: real, stopDistance: real, limits: Limits): real
    requires price > 0.0 && stopDistance > 0.0
  {
    RoundDownToStep(UnroundedQuantity(price, stopDistance, limits), limits.step)
  }

  /** The exchange's minimums, the cash needed and the fees of the round trip, in that order. */
  function CheckedSize(
      quantity: real, price: real, stopDistance: real, takerFee: real, limits: Limits, filters: SymbolFilters)
    : PositionSize
  {
    if quantity <= 0.0 then Unsized(TradeNotEconomic)
    else if filters.minQty.Some? && quantity < filters.minQty.value then Unsized(BelowMinQty)
    else
      var notional := quantity * price;
      if filters.minNotional.Some? && filters.applyMinToMarket && notional < filters.minNotional.value then
        Unsized(BelowMinNotional)
      else
        var fee := notional * takerFee;
        if notional + fee > limits.cash then Unsized(InsufficientBalance)
        else if fee * 2.0 >= limits.riskBudget then Unsized(TradeNotEconomic)
        else Sized(quantity, notional, quantity * stopDistance, fee)
  }

  /** The size under given limits, for an entry above its stop. */
  function SizeWithin(
      price: real, stopDistance: real, takerFee: real, limits: Limits, filters: SymbolFilters): PositionSize
    requires price > 0.0 && stopDistance > 0.0
  {
    if CapNotional(limits) <= 0.0 then Unsized(TradeNotEconomic)
    else CheckedSize(RoundedQuantity(price, stopDistance, limits), price, stopDistance, takerFee, limits, filters)
  }

  function CalculatePositionSize(r: SizingRequest, risk: RiskConfig, filters: SymbolFilters): PositionSize {
    if r.equity <= 0.0 then Unsized(NoEquity)
    else if r.entryPrice <= 0.0 then Unsized(NoStopDistance)
    else if r.stopPrice.None? || r.stopPrice.value >= r.entryPrice then Unsized(NoStopDistance)
    else SizeWithin(r.entryPrice, r.entryPrice - r.stopPrice.value, r.takerFee, LimitsOf(r, risk, filters), filters)
  }

  // --- What sizing promises -------------------------------------------

  ghost predicate HasStop(r: SizingRequest) {
    r.entryPrice > 0.0 && r.stopPrice.Some? && r.stopPrice.value < r.entryPrice
  }

  /** A quantity every limit allows: risk budget, caps, cash, exchange maximum and lot grid. */
  ghost predicate Allowed(q: real, price: real, stopDistance: real, limits: Limits) {
    && q >= 0.0
    && q * stopDistance <= limits.riskBudget
    && q * price <= limits.positionCap
    && q * price <= limits.assetRoom
    && q * price <= limits.portfolioRoom
    && q * price <= limits.cash
    && (limits.maxQty.Some? ==> q <= limits.maxQty.value)
    && OnGrid(q, limits.step)
  }

  /** The largest quantity the limits allow. */
  ghost predicate IsLargest(q: real, price: real, stopDistance: real, limits: Limits) {
    && Allowed(q, price, stopDistance, limits)
    && forall other: real :: Allowed(other, price, stopDistance, limits) ==> other <= q
  }

  ghost predicate MeetsMinimums(q: real, price: real, filters: SymbolFilters) {
    && (filters.minQty.Some? ==> q >= filters.minQty.value)
    && (filters.minNotional.Some? && filters.applyMinToMarket ==> q * price >= filters.minNotional.value)
  }

  /** Cash covers the order and its fee. */
  ghost predicate Affordable(q: real, price: real, takerFee: real, cash: real) {
    q * price + q * price * takerFee <= cash
  }

  /** The fees of the round trip are less than the amount put at risk. */
  ghost predicate Economic(q: real, price: real, takerFee: real, riskBudget: real) {
    q * price * takerFee * 2.0 < riskBudget
  }

  lemma {:induction false} QuotientAtMost(q: real, d: real, v: real)
    requires d > 0.0
    ensures q * d <= v <==> q <= v / d
  {
    assert v == (v / d) * d;
    if q <= v / d {
      assert (v / d - q) * d >= 0.0;
    } else {
      assert (q - v / d) * d > 0.0;
    }
  }

  /** Before rounding, a quantity is within every limit exactly when it is at most the computed one. */
  lemma {:induction false} WithinLimitsIsAtMost(q: real, price: real, stopDistance: real, limits: Limits)
    requires price > 0.0 && stopDistance > 0.0 && q >= 0.0 && OnGrid(q, limits.step)
    ensures Allowed(q, price, stopDistance, limits) <==> q <= UnroundedQuantity(price, stopDistance, limits)
  {
    QuotientAtMost(q, stopDistance, limits.riskBudget);
    QuotientAtMost(q, price, CapNotional(limits));
    QuotientAtMost(limits.riskBudget / stopDistance, price, CapNotional(limits));
  }

  /** The rounded quantity is the largest allowed one, or nothing above zero is allowed. */
  lemma {:induction false} RoundedIsLargest(price: real, stopDistance: real, limits: Limits)
    requires price > 0.0 && stopDistance > 0.0
    ensures var q := RoundedQuantity(price, stopDistance, limits);
            && (q > 0.0 ==> IsLargest(q, price, stopDistance, limits))
            && (q <= 0.0 ==> forall other: real :: other > 0.0 ==> !Allowed(other, price, stopDistance, limits))
  {
    var raw := UnroundedQuantity(price, stopDistance, limits);
    var q := RoundedQuantity(price, stopDistance, limits);
    if raw >= 0.0 {
      RoundingIsGreatest(raw, limits.step, 0.0);
      WithinLimitsIsAtMost(q, price, stopDistance, limits);
      forall other: real | Allowed(other, price, stopDistance, limits) ensures other <= q {
        WithinLimitsIsAtMost(other, price, stopDistance, limits);
        RoundingIsGreatest(raw, limits.step, other);
      }
    } else {
      if limits.step.Some? && limits.step.value > 0.0 {
        NegativeRoundsToNothing(raw, limits.step.value);
      }
      forall other: real | other > 0.0 ensures !Allowed(other, price, stopDistance, limits) {
        if OnGrid(other, limits.step) {
          WithinLimitsIsAtMost(other, price, stopDistance, limits);
        }
      }
    }
  }

  lemma {:induction false} NoHeadroomMeansNothingAllowed(q: real, price: real, stopDistance: real, limits: Limits)
    requires price > 0.0 && CapNotional(limits) <= 0.0 && q > 0.0
    ensures !Allowed(q, price, stopDistance, limits)
  {
    assert q * price > 0.0;
  }

  lemma {:induction false} LargestIsUnique(a: real, b: real, price: real, stopDistance: real, limits: Limits)
    requires IsLargest(a, price, stopDistance, limits) && IsLargest(b, price, stopDistance, limits)
    ensures a == b
  {
  }

  ghost predicate PassesChecks(
      q: real, price: real, takerFee: real, limits: Limits, filters: SymbolFilters)
  {
    && q > 0.0
    && MeetsMinimums(q, price, filters)
    && Affordable(q, price, takerFee, limits.cash)
    && Economic(q, price, takerFee, limits.riskBudget)
  }

  lemma {:induction false} CheckedSizeIsExact(
      q: real, price: real, stopDistance: real, takerFee: real, limits: Limits, filters: SymbolFilters)
    ensures CheckedSize(q, price, stopDistance, takerFee, limits, filters).Sized?
            <==> PassesChecks(q, price, takerFee, limits, filters)
    ensures var size := CheckedSize(q, price, stopDistance, takerFee, limits, filters);
            size.Sized? ==> size == Sized(q, q * price, q * stopDistance, q * price * takerFee)
  {
  }

  /** The rounded quantity, given headroom, is the only positive one that can be largest. */
  lemma {:induction false} LargestIsTheRounded(q: real, price: real, stopDistance: real, limits: Limits)
    requires price > 0.0 && stopDistance > 0.0 && q > 0.0
    ensures IsLargest(q, price, stopDistance, limits)
            <==> CapNotional(limits) > 0.0 && q == RoundedQuantity(price, stopDistance, limits)
  {
    RoundedIsLargest(price, stopDistance, limits);
    if CapNotional(limits) <= 0.0 {
      NoHeadroomMeansNothingAllowed(q, price, stopDistance, limits);
    } else if IsLargest(q, price, stopDistance, limits) {
      LargestIsUnique(q, RoundedQuantity(price, stopDistance, limits), price, stopDistance, limits);
    }
  }

  /** Under given limits the approved size is the largest allowed one that passes the checks. */
  lemma {:induction false} SizeWithinIsLargest(
      q: real, price: real, stopDistance: real, takerFee: real, limits: Limits, filters: SymbolFilters)
    requires price > 0.0 && stopDistance > 0.0
    ensures var size := SizeWithin(price, stopDistance, takerFee, limits, filters);
            size.Sized? && size.quantity == q
            <==> IsLargest(q, price, stopDistance, limits) && PassesChecks(q, price, takerFee, limits, filters)
  {
    if q > 0.0 {
      LargestIsTheRounded(q, price, stopDistance, limits);
    }
    CheckedSizeIsExact(RoundedQuantity(price, stopDistance, limits), price, stopDistance, takerFee, limits, filters);
  }

  /** On the lot grid and within every limit of the account: risk, caps, exposures, cash and maximum. */
  ghost predicate Within(q: real, r: SizingRequest, risk: RiskConfig, filters: SymbolFilters)
    requires HasStop(r)
  {
    && q >= 0.0
    && q * (r.entryPrice - r.stopPrice.value) <= r.equity * risk.maxRiskPerTrade
    && q * r.entryPrice <= r.equity * risk.maxPositionSize
    && r.assetExposure + q * r.entryPrice <= r.equity * risk.maxAssetExposure
    && r.portfolioExposure + q * r.entryPrice <= r.equity * risk.maxPortfolioExposure
    && q * r.entryPrice <= r.availableQuote
    && (filters.maxQty.Some? ==> q <= filters.maxQty.value)
    && OnGrid(q, filters.stepSize)
  }

  /** Above zero, no less than the exchange's minimums, paid for with its fee, and worth its fees. */
  ghost predicate Passes(q: real, r: SizingRequest, risk: RiskConfig, filters: SymbolFilters) {
    && q > 0.0
    && (filters.minQty.Some? ==> q >= filters.minQty.value)
    && (filters.minNotional.Some? && filters.applyMinToMarket ==> q * r.entryPrice >= filters.minNotional.value)
    && q * r.entryPrice + q * r.entryPrice * r.takerFee <= r.availableQuote
    && q * r.entryPrice * r.takerFee * 2.0 < r.equity * risk.maxRiskPerTrade
  }

  /** A size that breaks no rule, whether or not the sizing comes to it. */
  ghost predicate Legal(q: real, r: SizingRequest, risk: RiskConfig, filters: SymbolFilters) {
    r.equity > 0.0 && HasStop(r) && Within(q, r, risk, filters) && Passes(q, r, risk, filters)
  }

  lemma {:induction false} WithinIsAllowed(q: real, r: SizingRequest, risk: RiskConfig, filters: SymbolFilters)
    requires HasStop(r)
    ensures Within(q, r, risk, filters)
            <==> Allowed(q, r.entryPrice, r.entryPrice - r.stopPrice.value, LimitsOf(r, risk, filters))
  {
    hide OnGrid;
  }

  lemma {:induction false} PassesIsChecked(q: real, r: SizingRequest, risk: RiskConfig, filters: SymbolFilters)
    ensures Passes(q, r, risk, filters)
            <==> PassesChecks(q, r.entryPrice, r.takerFee, LimitsOf(r, risk, filters), filters)
  {
  }

  /** A legal size, said in terms of the limits. */
  lemma {:induction false} LegalIsAllowed(q: real, r: SizingRequest, risk: RiskConfig, filters: SymbolFilters)
    ensures Legal(q, r, risk, filters)
            <==>
            && r.equity > 0.0 && HasStop(r)
            && Allowed(q, r.entryPrice, r.entryPrice - r.stopPrice.value, LimitsOf(r, risk, filters))
            && PassesChecks(q, r.entryPrice, r.takerFee, LimitsOf(r, risk, filters), filters)
  {
    hide Within, Passes, Allowed, PassesChecks, LimitsOf;
    if HasStop(r) {
      WithinIsAllowed(q, r, risk, filters);
      PassesIsChecked(q, r, risk, filters);
    }
  }

  /**
   * A size is approved exactly when the account has equity, the stop is below the entry, and the
   * largest quantity within every limit is above zero, meets the exchange's minimums, is affordable
   * with its fee and pays for its own fees; that largest quantity is the one approved.
   */
  lemma {:induction false} SizedIsTheLargestLegalSize(
      r: SizingRequest, risk: RiskConfig, filters: SymbolFilters, q: real)
    ensures CalculatePositionSize(r, risk, filters).Sized? && CalculatePositionSize(r, risk, filters).quantity == q
            <==>
            && Legal(q, r, risk, filters)
            && forall other: real :: Within(other, r, risk, filters) ==> other <= q
  {
    LargestByLimits(r, risk, filters, q);
    hide CalculatePositionSize, Allowed, IsLargest, Within, Passes, PassesChecks, LimitsOf;
    if HasStop(r) {
      PassesIsChecked(q, r, risk, filters);
      LargestWithin(q, r, risk, filters);
    }
  }

  lemma {:induction false} LargestWithin(q: real, r: SizingRequest, risk: RiskConfig, filters: SymbolFilters)
    requires HasStop(r)
    ensures Within(q, r, risk, filters) && (forall other: real :: Within(other, r, risk, filters) ==> other <= q)
            <==> IsLargest(q, r.entryPrice, r.entryPrice - r.stopPrice.value, LimitsOf(r, risk, filters))
  {
    hide Allowed, Within, LimitsOf;
    var limits, distance := LimitsOf(r, risk, filters), r.entryPrice - r.stopPrice.value;
    WithinIsAllowed(q, r, risk, filters);
    if IsLargest(q, r.entryPrice, distance, limits) {
      forall other: real | Within(other, r, risk, filters) ensures other <= q {
        WithinIsAllowed(other, r, risk, filters);
      }
    } else if Within(q, r, risk, filters) {
      var other: real :| Allowed(other, r.entryPrice, distance, limits) && other > q;
      WithinIsAllowed(other, r, risk, filters);
    }
  }

  /** The same, said in terms of the limits. */
  lemma {:induction false} LargestByLimits(
      r: SizingRequest, risk: RiskConfig, filters: SymbolFilters, q: real)
    ensures CalculatePositionSize(r, risk, filters).Sized? && CalculatePositionSize(r, risk, filters).quantity == q
            <==>
            && r.equity > 0.0 && HasStop(r)
            && IsLargest(q, r.entryPrice, r.entryPrice - r.stopPrice.value, LimitsOf(r, risk, filters))
            && PassesChecks(q, r.entryPrice, r.takerFee, LimitsOf(r, risk, filters), filters)
  {
    if r.equity > 0.0 && HasStop(r) {
      var limits := LimitsOf(r, risk, filters);
      SizeWithinIsLargest(q, r.entryPrice, r.entryPrice - r.stopPrice.value, r.takerFee, limits, filters);
    }
  }

  /** No quantity above zero is within every limit. */
  ghost predicate NothingWithin(r: SizingRequest, risk: RiskConfig, filters: SymbolFilters)
    requires HasStop(r)
  {
    forall q: real :: q > 0.0 ==> !Within(q, r, risk, filters)
  }

  /** `q` is the largest quantity within every limit. */
  ghost predicate LargestIs(q: real, r: SizingRequest, risk: RiskConfig, filters: SymbolFilters)
    requires HasStop(r)
  {
    Within(q, r, risk, filters) && forall other: real :: Within(other, r, risk, filters) ==> other <= q
  }

  /** What becomes of the largest quantity within every limit: the first check it fails, or a size. */
  function Judged(q: real, r: SizingRequest, risk: RiskConfig, filters: SymbolFilters): PositionSize
    requires HasStop(r)
  {
    if filters.minQty.Some? && q < filters.minQty.value then Unsized(BelowMinQty)
    else if filters.minNotional.Some? && filters.applyMinToMarket && q * r.entryPrice < filters.minNotional.value then
      Unsized(BelowMinNotional)
    else if q * r.entryPrice + q * r.entryPrice * r.takerFee > r.availableQuote then Unsized(InsufficientBalance)
    else if q * r.entryPrice * r.takerFee * 2.0 >= r.equity * risk.maxRiskPerTrade then Unsized(TradeNotEconomic)
    else Sized(q, q * r.entryPrice, q * (r.entryPrice - r.stopPrice.value), q * r.entryPrice * r.takerFee)
  }

  /**
   * Every answer, refusals included: no equity, no stop, nothing above zero within the limits, or else
   * the verdict on the largest quantity within them. One of the four always applies.
   */
  lemma {:induction false} WhatSizingAnswers(r: SizingRequest, risk: RiskConfig, filters: SymbolFilters)
    ensures r.equity <= 0.0 ==> CalculatePositionSize(r, risk, filters) == Unsized(NoEquity)
    ensures r.equity > 0.0 && !HasStop(r) ==> CalculatePositionSize(r, risk, filters) == Unsized(NoStopDistance)
    ensures r.equity > 0.0 && HasStop(r) && NothingWithin(r, risk, filters)
            ==> CalculatePositionSize(r, risk, filters) == Unsized(TradeNotEconomic)
    ensures r.equity > 0.0 && HasStop(r) && !NothingWithin(r, risk, filters)
            ==> exists q :: && q > 0.0 && LargestIs(q, r, risk, filters)
                            && CalculatePositionSize(r, risk, filters) == Judged(q, r, risk, filters)
  {
    if r.equity > 0.0 && HasStop(r) {
      hide Within, RoundedQuantity, LimitsOf;
      RoundedIsTheLargestWithin(r, risk, filters);
      var limits, distance := LimitsOf(r, risk, filters), r.entryPrice - r.stopPrice.value;
      var q := RoundedQuantity(r.entryPrice, distance, limits);
      if !NothingWithin(r, risk, filters) {
        assert q > 0.0 && LargestIs(q, r, risk, filters) && CapNotional(limits) > 0.0;
        CheckedIsJudged(q, r, risk, filters);
      }
    }
  }

  lemma {:induction false} CheckedIsJudged(q: real, r: SizingRequest, risk: RiskConfig, filters: SymbolFilters)
    requires HasStop(r) && q > 0.0
    ensures CheckedSize(q, r.entryPrice, r.entryPrice - r.stopPrice.value, r.takerFee, LimitsOf(r, risk, filters),
                        filters)
            == Judged(q, r, risk, filters)
  {
  }

  lemma {:induction false} RoundedIsTheLargestWithin(r: SizingRequest, risk: RiskConfig, filters: SymbolFilters)
    requires HasStop(r)
    ensures var limits := LimitsOf(r, risk, filters);
            var q := RoundedQuantity(r.entryPrice, r.entryPrice - r.stopPrice.value, limits);
            && (q > 0.0 ==> LargestIs(q, r, risk, filters))
            && (NothingWithin(r, risk, filters) <==> CapNotional(limits) <= 0.0 || q <= 0.0)
  {
    hide Within, Allowed, RoundedQuantity, LimitsOf, CapNotional, IsLargest;
    var limits, distance := LimitsOf(r, risk, filters), r.entryPrice - r.stopPrice.value;
    var q := RoundedQuantity(r.entryPrice, distance, limits);
    RoundedIsLargest(r.entryPrice, distance, limits);
    LargestWithin(q, r, risk, filters);
    forall x: real | x > 0.0 ensures Within(x, r, risk, filters) ==> CapNotional(limits) > 0.0 && q > 0.0 {
      WithinIsAllowed(x, r, risk, filters);
      if CapNotional(limits) <= 0.0 {
        NoHeadroomMeansNothingAllowed(x, r.entryPrice, distance, limits);
      }
    }
  }

  /** What an approved size guarantees, in the account's own terms. */
  ghost predicate WithinRiskLimits(size: PositionSize, r: SizingRequest, risk: RiskConfig)
    requires size.Sized? && HasStop(r)
  {
    && size.quantity > 0.0
    && size.notional == size.quantity * r.entryPrice
    && size.riskAmount == size.quantity * (r.entryPrice - r.stopPrice.value)
    && size.riskAmount <= r.equity * risk.maxRiskPerTrade
    && size.notional <= r.equity * risk.maxPositionSize
    && r.assetExposure + size.notional <= r.equity * risk.maxAssetExposure
    && r.portfolioExposure + size.notional <= r.equity * risk.maxPortfolioExposure
    && size.estimatedFee == size.notional * r.takerFee
    && size.notional + size.estimatedFee <= r.availableQuote
  }

  /** The other figures of a size follow from its quantity. */
  ghost predicate FollowsQuantity(size: PositionSize, r: SizingRequest) {
    && size.Sized? && HasStop(r)
    && size.notional == size.quantity * r.entryPrice
    && size.riskAmount == size.quantity * (r.entryPrice - r.stopPrice.value)
    && size.estimatedFee == size.quantity * r.entryPrice * r.takerFee
  }

  lemma {:induction false} AllowedIsWithinRiskLimits(
      size: PositionSize, r: SizingRequest, risk: RiskConfig, filters: SymbolFilters)
    requires FollowsQuantity(size, r) && size.quantity > 0.0
    requires Allowed(size.quantity, r.entryPrice, r.entryPrice - r.stopPrice.value, LimitsOf(r, risk, filters))
    requires Affordable(size.quantity, r.entryPrice, r.takerFee, LimitsOf(r, risk, filters).cash)
    ensures WithinRiskLimits(size, r, risk)
  {
  }

  lemma {:induction false} SizedFields(r: SizingRequest, risk: RiskConfig, filters: SymbolFilters)
    requires CalculatePositionSize(r, risk, filters).Sized?
    ensures r.equity > 0.0 && FollowsQuantity(CalculatePositionSize(r, risk, filters), r)
  {
    hide RoundedQuantity, LimitsOf, CheckedSize;
    var limits, distance := LimitsOf(r, risk, filters), r.entryPrice - r.stopPrice.value;
    CheckedSizeIsExact(RoundedQuantity(r.entryPrice, distance, limits), r.entryPrice, distance, r.takerFee, limits,
        filters);
  }

  lemma {:induction false} SizedRespectsEveryLimit(r: SizingRequest, risk: RiskConfig, filters: SymbolFilters)
    requires CalculatePositionSize(r, risk, filters).Sized?
    ensures r.equity > 0.0 && HasStop(r)
    ensures WithinRiskLimits(CalculatePositionSize(r, risk, filters), r, risk)
    ensures OnGrid(CalculatePositionSize(r, risk, filters).quantity, filters.stepSize)
  {
    hide CalculatePositionSize, OnGrid, WithinRiskLimits, Affordable, Economic, MeetsMinimums;
    SizedFields(r, risk, filters);
    var size := CalculatePositionSize(r, risk, filters);
    assert HasStop(r);
    hide FollowsQuantity;
    LargestByLimits(r, risk, filters, size.quantity);
    AllowedIsWithinRiskLimits(size, r, risk, filters);
  }

  lemma {:induction false} SmallerIsCheaper(a: real, b: real, price: real)
    requires a <= b && price >= 0.0
    ensures a * price <= b * price
  {
    assert (b - a) * price >= 0.0;
    assert (b - a) * price == b * price - a * price;
  }

  /**
   * What each refusal means under given limits, for an allowed quantity above zero: it fails the
   * minimum that is named, or, being the largest, the check on cash or fees that is named.
   */
  lemma {:induction false} WhatARefusalMeans(
      q: real, price: real, stopDistance: real, takerFee: real, limits: Limits, filters: SymbolFilters)
    requires price > 0.0 && stopDistance > 0.0
    requires SizeWithin(price, stopDistance, takerFee, limits, filters).Unsized?
    requires q > 0.0 && Allowed(q, price, stopDistance, limits)
    ensures var code := SizeWithin(price, stopDistance, takerFee, limits, filters).code;
            && code in {BelowMinQty, BelowMinNotional, InsufficientBalance, TradeNotEconomic}
            && (code == BelowMinQty ==> filters.minQty.Some? && q < filters.minQty.value)
            && (code == BelowMinNotional ==>
                  filters.minNotional.Some? && filters.applyMinToMarket && q * price < filters.minNotional.value)
            && (code == InsufficientBalance && IsLargest(q, price, stopDistance, limits) ==>
                  !Affordable(q, price, takerFee, limits.cash))
            && (code == TradeNotEconomic && IsLargest(q, price, stopDistance, limits) ==>
                  !Economic(q, price, takerFee, limits.riskBudget))
  {
    var rounded := RoundedQuantity(price, stopDistance, limits);
    RoundedIsLargest(price, stopDistance, limits);
    if CapNotional(limits) <= 0.0 {
      NoHeadroomMeansNothingAllowed(q, price, stopDistance, limits);
    } else {
      SmallerIsCheaper(q, rounded, price);
      if IsLargest(q, price, stopDistance, limits) {
        LargestIsUnique(q, rounded, price, stopDistance, limits);
      }
    }
  }

  // --- When a refusal is final ------------------------------------------

  function AtLeast(a: real, b: Option<real>): real {
    if b.Some? && b.value > a then b.value else a
  }

  /** What the exchange's minimums come to, as a quantity; zero if they ask for nothing. */
  function Minimum(price: real, filters: SymbolFilters): real
    requires price > 0.0
  {
    var byNotional := if filters.minNotional.Some? && filters.applyMinToMarket then filters.minNotional.value else 0.0;
    AtLeast(AtLeast(0.0, filters.minQty), Some(byNotional / price))
  }

  /** The least grid quantity above zero that meets the minimums, if there is a least. */
  function Smallest(price: real, filters: SymbolFilters): Option<real>
    requires price > 0.0
  {
    var least := Minimum(price, filters);
    if filters.stepSize.Some? && filters.stepSize.value > 0.0 then
      var steps := -((-(least / filters.stepSize.value)).Floor);
      Some(Multiple(if steps > 1 then steps else 1, filters.stepSize.value))
    else if least > 0.0 then Some(least)
    else None
  }

  /** A quantity above zero, on the grid, that meets the exchange's minimums. */
  ghost predicate Orderable(q: real, price: real, filters: SymbolFilters) {
    q > 0.0 && OnGrid(q, filters.stepSize) && MeetsMinimums(q, price, filters)
  }

  lemma {:induction false} MeetsMinimumsIsAtLeast(q: real, price: real, filters: SymbolFilters)
    requires price > 0.0 && q > 0.0
    ensures MeetsMinimums(q, price, filters) <==> q >= Minimum(price, filters)
  {
    var byNotional := if filters.minNotional.Some? && filters.applyMinToMarket then filters.minNotional.value else 0.0;
    FractionAtMost(byNotional, price, q);
    assert q * price > 0.0;
  }

  lemma {:induction false} FractionAtMost(v: real, d: real, q: real)
    requires d > 0.0
    ensures v / d <= q <==> v <= q * d
  {
    assert v == (v / d) * d;
    if v / d <= q {
      assert (q - v / d) * d >= 0.0;
    } else {
      assert (v / d - q) * d > 0.0;
    }
  }

  /** On a grid the least multiple above zero and at or above a bound. */
  lemma {:induction false} LeastMultiple(least: real, step: real, k: int)
    requires step > 0.0
    ensures var steps := -((-(least / step)).Floor);
            Multiple(k, step) >= least && Multiple(k, step) > 0.0 <==> k >= (if steps > 1 then steps else 1)
  {
    FractionAtMost(least, step, k as real);
    if k >= 1 {
      assert k as real * step > 0.0;
    } else {
      assert (-k) as real * step >= 0.0;
    }
  }

  lemma {:induction false} MultiplesAreOrdered(j: int, k: int, step: real)
    requires step > 0.0 && j <= k
    ensures Multiple(j, step) <= Multiple(k, step)
  {
    assert (k - j) as real * step >= 0.0;
  }

  /** The smallest orderable quantity; without one, every quantity above zero is orderable. */
  lemma {:induction false} SmallestIsOrderable(q: real, price: real, filters: SymbolFilters)
    requires price > 0.0
    ensures var smallest := Smallest(price, filters);
            && (smallest.Some? ==> Orderable(smallest.value, price, filters))
            && (smallest.Some? && Orderable(q, price, filters) ==> smallest.value <= q)
            && (smallest.None? && q > 0.0 ==> Orderable(q, price, filters))
  {
    hide MeetsMinimums, Multiple;
    var least := Minimum(price, filters);
    if q > 0.0 {
      MeetsMinimumsIsAtLeast(q, price, filters);
    }
    if filters.stepSize.Some? && filters.stepSize.value > 0.0 {
      var step := filters.stepSize.value;
      var steps := -((-(least / step)).Floor);
      var k := if steps > 1 then steps else 1;
      LeastMultiple(least, step, k);
      MeetsMinimumsIsAtLeast(Multiple(k, step), price, filters);
      if Orderable(q, price, filters) {
        var j: int :| q == Multiple(j, step);
        LeastMultiple(least, step, j);
        MultiplesAreOrdered(k, j, step);
      }
    } else if least > 0.0 {
      MeetsMinimumsIsAtLeast(least, price, filters);
    }
  }

  lemma {:induction false} LessIsAllowed(a: real, b: real, price: real, stopDistance: real, limits: Limits)
    requires price > 0.0 && stopDistance > 0.0 && 0.0 <= a <= b && OnGrid(a, limits.step)
    requires Allowed(b, price, stopDistance, limits)
    ensures Allowed(a, price, stopDistance, limits)
  {
    hide OnGrid;
    SmallerIsCheaper(a, b, price);
    SmallerIsCheaper(a, b, stopDistance);
  }

  lemma {:induction false} LessIsPaidFor(a: real, b: real, price: real, takerFee: real, cash: real, budget: real)
    requires price > 0.0 && takerFee >= 0.0 && a <= b
    requires Affordable(b, price, takerFee, cash) && Economic(b, price, takerFee, budget)
    ensures Affordable(a, price, takerFee, cash) && Economic(a, price, takerFee, budget)
  {
    SmallerIsCheaper(a, b, price);
    SmallerIsCheaper(a * price, b * price, takerFee);
  }

  /** Less is allowed, affordable and economic wherever more is. */
  lemma {:induction false} LessIsNoWorse(
      a: real, b: real, price: real, stopDistance: real, takerFee: real, limits: Limits, filters: SymbolFilters)
    requires price > 0.0 && stopDistance > 0.0 && takerFee >= 0.0 && limits.step == filters.stepSize
    requires a <= b && Orderable(a, price, filters)
    requires Allowed(b, price, stopDistance, limits) && PassesChecks(b, price, takerFee, limits, filters)
    ensures Allowed(a, price, stopDistance, limits) && PassesChecks(a, price, takerFee, limits, filters)
  {
    hide OnGrid, MeetsMinimums, Allowed, Affordable, Economic;
    LessIsAllowed(a, b, price, stopDistance, limits);
    LessIsPaidFor(a, b, price, takerFee, limits.cash, limits.riskBudget);
  }

  /** There is room for something, however little. */
  ghost predicate HasRoom(limits: Limits) {
    limits.riskBudget > 0.0 && CapNotional(limits) > 0.0 && (limits.maxQty.Some? ==> limits.maxQty.value > 0.0)
  }

  /** A quantity small enough for a bound on its multiple by any part of `d`. */
  lemma {:induction false} SmallEnough(q: real, part: real, d: real, bound: real)
    requires 0.0 <= part <= d && bound > 0.0 && 0.0 < q <= bound / (d + 1.0)
    ensures q * part < bound
  {
    QuotientAtMost(q, d + 1.0, bound);
    assert q * (d + 1.0) == q * part + q * (d - part) + q;
    assert q * (d - part) >= 0.0;
  }

  /** Every amount a quantity is held to is below `room`. */
  ghost predicate TakesLess(q: real, price: real, stopDistance: real, takerFee: real, room: real) {
    && q * price < room && q * stopDistance < room
    && q * price + q * price * takerFee < room && q * price * takerFee * 2.0 < room
  }

  /** A quantity so small that all of its amounts together are below `room`. */
  function Little(price: real, stopDistance: real, takerFee: real, room: real): real
    requires price > 0.0 && stopDistance > 0.0 && price * takerFee >= 0.0
  {
    room / (price + price * takerFee * 2.0 + stopDistance + 1.0)
  }

  lemma {:induction false} LittleTakesLess(q: real, price: real, stopDistance: real, takerFee: real, room: real)
    requires price > 0.0 && stopDistance > 0.0 && price * takerFee >= 0.0 && room > 0.0
    requires 0.0 < q <= Little(price, stopDistance, takerFee, room)
    ensures TakesLess(q, price, stopDistance, takerFee, room)
  {
    var fee := price * takerFee;
    var d := price + fee * 2.0 + stopDistance;
    SmallEnough(q, price, d, room);
    SmallEnough(q, stopDistance, d, room);
    SmallEnough(q, fee * 2.0, d, room);
    SmallEnough(q, price + fee, d, room);
    assert q * (price + fee) == q * price + q * fee;
    FeeCommutes(price, takerFee, q);
    assert q * price * takerFee == q * fee;
  }

  lemma {:induction false} LittleFits(
      q: real, price: real, stopDistance: real, takerFee: real, limits: Limits, filters: SymbolFilters)
    requires Orderable(q, price, filters) && limits.step == filters.stepSize
    requires limits.maxQty.Some? ==> q <= limits.maxQty.value
    requires TakesLess(q, price, stopDistance, takerFee, Min(limits.riskBudget, CapNotional(limits)))
    ensures Allowed(q, price, stopDistance, limits) && PassesChecks(q, price, takerFee, limits, filters)
  {
    hide OnGrid, MeetsMinimums;
  }

  lemma {:induction false} SomethingSmallFits(
      price: real, stopDistance: real, takerFee: real, limits: Limits, filters: SymbolFilters) returns (q: real)
    requires price > 0.0 && stopDistance > 0.0 && takerFee >= 0.0 && limits.step == filters.stepSize
    requires Smallest(price, filters).None? && HasRoom(limits)
    ensures Allowed(q, price, stopDistance, limits) && PassesChecks(q, price, takerFee, limits, filters)
  {
    hide Allowed, PassesChecks, TakesLess, Orderable, Smallest, CapNotional;
    assert price * takerFee >= 0.0;
    var room := Min(limits.riskBudget, CapNotional(limits));
    q := Little(price, stopDistance, takerFee, room);
    assert q > 0.0;
    hide Little;
    if limits.maxQty.Some? && limits.maxQty.value < q {
      q := limits.maxQty.value;
    }
    LittleTakesLess(q, price, stopDistance, takerFee, room);
    SmallestIsOrderable(q, price, filters);
    LittleFits(q, price, stopDistance, takerFee, limits, filters);
  }

  /** A legal size exists: the smallest orderable quantity is one or, with no smallest, there is room. */
  ghost predicate SomethingFits(r: SizingRequest, risk: RiskConfig, filters: SymbolFilters) {
    && r.equity > 0.0 && HasStop(r)
    && match Smallest(r.entryPrice, filters)
       case Some(q) => Legal(q, r, risk, filters)
       case None => HasRoom(LimitsOf(r, risk, filters))
  }

  lemma {:induction false} LegalLeavesRoom(q: real, r: SizingRequest, risk: RiskConfig, filters: SymbolFilters)
    requires Legal(q, r, risk, filters)
    ensures HasRoom(LimitsOf(r, risk, filters))
  {
    LegalIsAllowed(q, r, risk, filters);
    hide OnGrid, MeetsMinimums, LimitsOf, Legal;
    assert q * r.entryPrice > 0.0 && q * (r.entryPrice - r.stopPrice.value) > 0.0;
  }

  /** Some size is legal if and only if the smallest one is. */
  lemma {:induction false} WhenSomethingFits(r: SizingRequest, risk: RiskConfig, filters: SymbolFilters)
    requires r.takerFee >= 0.0
    ensures (exists q: real :: Legal(q, r, risk, filters)) <==> SomethingFits(r, risk, filters)
  {
    hide Smallest, Allowed, PassesChecks, LimitsOf, Legal;
    if !(r.equity > 0.0 && HasStop(r)) {
      forall q: real ensures !Legal(q, r, risk, filters) {
        LegalIsAllowed(q, r, risk, filters);
      }
    } else {
      var limits, distance := LimitsOf(r, risk, filters), r.entryPrice - r.stopPrice.value;
      StepOf(r, risk, filters);
      var smallest := Smallest(r.entryPrice, filters);
      if SomethingFits(r, risk, filters) && smallest.None? {
        var q := SomethingSmallFits(r.entryPrice, distance, r.takerFee, limits, filters);
        LegalIsAllowed(q, r, risk, filters);
      }
      if smallest.Some? {
        LegalIsAllowed(smallest.value, r, risk, filters);
      }
      forall q: real | Legal(q, r, risk, filters) ensures SomethingFits(r, risk, filters) {
        LegalIsAllowed(q, r, risk, filters);
        LegalIsOrderable(q, r, risk, filters);
        LegalLeavesRoom(q, r, risk, filters);
        SmallestIsOrderable(q, r.entryPrice, filters);
        if smallest.Some? {
          LessIsNoWorse(smallest.value, q, r.entryPrice, distance, r.takerFee, limits, filters);
        }
      }
    }
  }

  lemma {:induction false} StepOf(r: SizingRequest, risk: RiskConfig, filters: SymbolFilters)
    ensures LimitsOf(r, risk, filters).step == filters.stepSize
  {
  }

  lemma {:induction false} LegalIsOrderable(q: real, r: SizingRequest, risk: RiskConfig, filters: SymbolFilters)
    requires Legal(q, r, risk, filters)
    ensures Orderable(q, r.entryPrice, filters)
  {
    LegalIsAllowed(q, r, risk, filters);
    hide OnGrid, MeetsMinimums, Legal;
  }

  /**
   * A refusal is final, no size being legal, if and only if the smallest orderable quantity is not
   * legal either. A refusal for want of equity, a stop or a minimum always is; one for cash or for
   * fees is a verdict on the largest allowed quantity alone.
   */
  lemma {:induction false} WhenARefusalIsFinal(r: SizingRequest, risk: RiskConfig, filters: SymbolFilters)
    requires r.takerFee >= 0.0 && CalculatePositionSize(r, risk, filters).Unsized?
    ensures (forall q: real :: !Legal(q, r, risk, filters)) <==> !SomethingFits(r, risk, filters)
    ensures SomethingFits(r, risk, filters) ==>
              CalculatePositionSize(r, risk, filters).code in {InsufficientBalance, TradeNotEconomic}
  {
    WhenSomethingFits(r, risk, filters);
    hide CalculatePositionSize, Legal, SomethingFits;
    if q: real :| Legal(q, r, risk, filters) {
      OnlyTheFeeRefusesWrongly(q, r, risk, filters);
    }
  }

  lemma {:induction false} OnlyTheFeeRefusesWrongly(
      q: real, r: SizingRequest, risk: RiskConfig, filters: SymbolFilters)
    requires CalculatePositionSize(r, risk, filters).Unsized? && Legal(q, r, risk, filters)
    ensures CalculatePositionSize(r, risk, filters).code in {InsufficientBalance, TradeNotEconomic}
  {
    LegalIsAllowed(q, r, risk, filters);
    hide SizeWithin, Allowed, LimitsOf, Affordable, Economic, Legal;
    var limits, distance := LimitsOf(r, risk, filters), r.entryPrice - r.stopPrice.value;
    WhatARefusalMeans(q, r.entryPrice, distance, r.takerFee, limits, filters);
  }

  function AllIn(takerFee: real, stop: real): SizingRequest {
    SizingRequest(100.0, 100.0, 1.0, Some(stop), takerFee, 0.0, 0.0)
  }

  const NO_FILTERS := SymbolFilters(None, None, None, None, true)

  function Capped(maxRisk: real, maxSize: real): RiskConfig {
    RiskConfig(maxRisk, maxSize, 1.0, 1.0, 1, 1.0, 1.0, 1, 0.0, 0.0, 0.0, 1, true, 0)
  }

  /**
   * The cash cap ignores the fee, so an order for all the cash is refused outright although a
   * smaller legal one exists.
   */
  lemma {:induction false} RefusedAlthoughLessWouldFit()
    ensures Capped(0.9, 1.0).InRange()
    ensures CalculatePositionSize(AllIn(0.01, 0.5), Capped(0.9, 1.0), NO_FILTERS) == Unsized(InsufficientBalance)
    ensures Legal(50.0, AllIn(0.01, 0.5), Capped(0.9, 1.0), NO_FILTERS)
  {
    var limits := Limits(90.0, 100.0, 100.0, 100.0, 100.0, None, None);
    assert LimitsOf(AllIn(0.01, 0.5), Capped(0.9, 1.0), NO_FILTERS) == limits;
    assert RoundedQuantity(1.0, 0.5, limits) == 100.0;
    hide RoundedQuantity, LimitsOf;
  }

  /** Fees grow with the order: one too large to pay for itself is refused although a smaller one would. */
  lemma {:induction false} RefusedAlthoughLessWouldPay()
    ensures Capped(0.01, 0.5).InRange()
    ensures CalculatePositionSize(AllIn(0.01, 0.99), Capped(0.01, 0.5), NO_FILTERS) == Unsized(TradeNotEconomic)
    ensures Legal(10.0, AllIn(0.01, 0.99), Capped(0.01, 0.5), NO_FILTERS)
  {
    var limits := Limits(1.0, 50.0, 100.0, 100.0, 100.0, None, None);
    assert LimitsOf(AllIn(0.01, 0.99), Capped(0.01, 0.5), NO_FILTERS) == limits;
    assert RoundedQuantity(1.0, 1.0 - 0.99, limits) == 50.0;
    hide RoundedQuantity, LimitsOf;
  }
}
