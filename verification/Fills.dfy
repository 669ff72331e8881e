/** Fills, exits and trailing stops: `backend/app/paper_trading/fills.py`. */
module Fills {
  import opened Wrappers

  const BPS: real := 10000.0

  datatype Side = Buy | Sell

  datatype Fill = Fill(quantity: real, price: real, fee: real, slippageCost: real, isPartial: bool) {
    predicate IsEmpty() {
      quantity <= 0.0
    }
  }

  const NO_FILL := Fill(0.0, 0.0, 0.0, 0.0, false)

  const STOP_LOSS := "STOP_LOSS"
  const TAKE_PROFIT := "TAKE_PROFIT"

  // --- The lot grid ---------------------------------------------------

  /** Rounding towards zero, as `ROUND_DOWN` does. */
  function Truncated(x: real): int {
    if x >= 0.0 then x.Floor else -((-x).Floor)
  }

  /** A multiple of the lot step, where there is a step. */
  function RoundDownToStep(value: real, step: Option<real>): real {
    if step.None? || step.value <= 0.0 then value
    else Truncated(value / step.value) as real * step.value
  }

  ghost predicate OnGrid(q: real, step: Option<real>) {
    step.None? || step.value <= 0.0 || exists k: int :: q == Multiple(k, step.value)
  }

  function Multiple(k: int, step: real): real {
    k as real * step
  }

  lemma {:induction false} QuotientBounds(v: real, s: real, k: int)
    requires s > 0.0
    ensures k as real <= v / s <==> k as real * s <= v
  {
    assert v == (v / s) * s;
    if k as real <= v / s {
      assert (v / s - k as real) * s >= 0.0;
    } else {
      assert (k as real - v / s) * s > 0.0;
    }
  }

  /** Rounding a non-negative quantity gives the greatest grid quantity not above it. */
  lemma {:induction false} RoundingIsGreatest(value: real, step: Option<real>, other: real)
    requires value >= 0.0
    ensures var r := RoundDownToStep(value, step);
            && 0.0 <= r <= value
            && OnGrid(r, step)
            && (OnGrid(other, step) && other <= value ==> other <= r)
  {
    if step.Some? && step.value > 0.0 {
      var s := step.value;
      var k := (value / s).Floor;
      QuotientBounds(value, s, k);
      QuotientBounds(value, s, 0);
      assert k >= 0;
      assert k as real * s >= 0.0;
      assert RoundDownToStep(value, step) == Multiple(k, s);
      if OnGrid(other, step) && other <= value {
        var j: int :| other == Multiple(j, s);
        QuotientBounds(value, s, j);
        assert j <= k;
        assert (k - j) as real * s >= 0.0;
      }
    }
  }

  /** A quantity already on the grid is left alone. */
  lemma {:induction false} RoundingKeepsGridQuantities(q: real, step: Option<real>)
    requires q >= 0.0 && OnGrid(q, step)
    ensures RoundDownToStep(q, step) == q
  {
    RoundingIsGreatest(q, step, q);
  }

  // --- Fills ----------------------------------------------------------

  /** The price moved against the trader. */
  function ApplySlippage(reference: real, side: Side, slippageBps: real): real {
    var adjustment := reference * slippageBps / BPS;
    if side == Buy then reference + adjustment else reference - adjustment
  }

  function Abs(x: real): real {
    if x >= 0.0 then x else -x
  }

  function SimulateFill(
      requested: real, reference: real, side: Side, feeRate: real, slippageBps: real,
      liquidity: Option<real>, step: Option<real>): Fill
  {
    if requested <= 0.0 || reference <= 0.0 then
      NO_FILL
    else
      var capped := if liquidity.Some? && liquidity.value < requested then liquidity.value else requested;
      var quantity := RoundDownToStep(capped, step);
      if quantity <= 0.0 then
        NO_FILL
      else
        var price := ApplySlippage(reference, side, slippageBps);
        Fill(quantity, price, quantity * price * feeRate, Abs(price - reference) * quantity, quantity < requested)
  }

  /** A buy never fills below the reference price and a sell never above it, nor at a negative price. */
  lemma {:induction false} SlippageIsNeverFavourable(reference: real, slippageBps: real)
    requires reference > 0.0 && 0.0 <= slippageBps < BPS
    ensures ApplySlippage(reference, Buy, slippageBps) >= reference
    ensures 0.0 < ApplySlippage(reference, Sell, slippageBps) <= reference
    ensures ApplySlippage(reference, Buy, slippageBps) == reference * (1.0 + slippageBps / BPS)
    ensures ApplySlippage(reference, Sell, slippageBps) == reference * (1.0 - slippageBps / BPS)
  {
    var s := slippageBps / BPS;
    assert reference * slippageBps / BPS == reference * s;
    assert reference * (1.0 + s) == reference + reference * s;
    assert reference * (1.0 - s) == reference - reference * s;
    assert 0.0 <= s < 1.0;
    assert reference * s >= 0.0;
    assert reference * (1.0 - s) > 0.0;
    assert ApplySlippage(reference, Buy, slippageBps) == reference + reference * s;
    assert ApplySlippage(reference, Sell, slippageBps) == reference - reference * s;
  }

  lemma {:induction false} FeeCommutes(q: real, price: real, rate: real)
    ensures q * price * rate == rate * (q * price)
  {
  }

  /** A quantity that was both asked for and available, and that the grid allows. */
  ghost predicate Fillable(q: real, requested: real, liquidity: Option<real>, step: Option<real>) {
    0.0 < q <= requested && (liquidity.Some? ==> q <= liquidity.value) && OnGrid(q, step)
  }

  /**
   * For any inputs a fill is either nothing, when nothing is fillable, or the greatest fillable
   * quantity at the slipped price, with the fee that implies.
   */
  lemma {:induction false} FillIsTheGreatestAvailable(
      requested: real, reference: real, side: Side, feeRate: real, slippageBps: real,
      liquidity: Option<real>, step: Option<real>, q: real)
    ensures var fill := SimulateFill(requested, reference, side, feeRate, slippageBps, liquidity, step);
            if fill.IsEmpty() then
              fill == NO_FILL && (reference > 0.0 ==> !Fillable(q, requested, liquidity, step))
            else
              && reference > 0.0
              && Fillable(fill.quantity, requested, liquidity, step)
              && (Fillable(q, requested, liquidity, step) ==> q <= fill.quantity)
              && fill.price == ApplySlippage(reference, side, slippageBps)
              && fill.fee == feeRate * (fill.quantity * fill.price)
              && (fill.isPartial <==> fill.quantity != requested)
  {
    var fill := SimulateFill(requested, reference, side, feeRate, slippageBps, liquidity, step);
    var capped := if liquidity.Some? && liquidity.value < requested then liquidity.value else requested;
    FeeCommutes(fill.quantity, fill.price, feeRate);
    if capped >= 0.0 {
      RoundingIsGreatest(capped, step, q);
    } else if step.Some? && step.value > 0.0 {
      NegativeRoundsToNothing(capped, step.value);
    }
  }

  lemma {:induction false} NegativeRoundsToNothing(value: real, step: real)
    requires value < 0.0 && step > 0.0
    ensures Truncated(value / step) as real * step <= 0.0
  {
    QuotientBounds(value, step, 0);
    assert (-(value / step)).Floor >= 0;
    var k := (-(value / step)).Floor;
    assert k as real * step >= 0.0;
  }

  /** With no liquidity cap, a positive grid quantity fills in full at the slipped price. */
  lemma {:induction false} GridQuantityFillsInFull(
      q: real, reference: real, side: Side, feeRate: real, slippageBps: real, step: Option<real>)
    requires q > 0.0 && reference > 0.0 && OnGrid(q, step)
    ensures var fill := SimulateFill(q, reference, side, feeRate, slippageBps, None, step);
            var price := ApplySlippage(reference, side, slippageBps);
            && fill == Fill(q, price, feeRate * (q * price), Abs(price - reference) * q, false)
            && !fill.IsEmpty()
  {
    RoundingKeepsGridQuantities(q, step);
    FeeCommutes(q, ApplySlippage(reference, side, slippageBps), feeRate);
  }

  // --- Exits ----------------------------------------------------------

  /** The exit a candle triggers; the stop has precedence over the target. */
  function ExitReasonForBar(high: real, low: real, stopLoss: Option<real>, takeProfit: Option<real>): Option<string> {
    var hitStop := stopLoss.Some? && low <= stopLoss.value;
    var hitTarget := takeProfit.Some? && high >= takeProfit.value;
    if hitStop then Some(STOP_LOSS) else if hitTarget then Some(TAKE_PROFIT) else None
  }

  function UpdateTrailingStop(currentStop: Option<real>, high: real, trailingDistance: Option<real>): (r: Option<real>)
    ensures currentStop.Some? ==> r.Some? && r.value >= currentStop.value
    ensures trailingDistance.Some? && trailingDistance.value > 0.0 ==>
              r.Some? && r.value >= high - trailingDistance.value
    ensures r == currentStop || (trailingDistance.Some? && r == Some(high - trailingDistance.value))
  {
    if trailingDistance.None? || trailingDistance.value <= 0.0 then
      currentStop
    else
      var candidate := high - trailingDistance.value;
      if currentStop.None? then Some(candidate)
      else Some(if currentStop.value >= candidate then currentStop.value else candidate)
  }
}
