/**
 * Market structure without any running state: `backend/app/engines/market_structure.py`.
 *
 * Every column of every row is defined here directly from the series. The pass over the bars is
 * in `MarketStructureEngine`.
 */
module MarketStructure {
  import opened Wrappers

  const SWING_WINDOW: nat := 5
  const FALSE_BREAKOUT_WINDOW: nat := 3

  datatype SwingKind = High | Low
  datatype Trend = Bullish | Bearish | Unknown
  datatype Direction = Breakout | Breakdown

  datatype SwingPoint = SwingPoint(index: nat, confirmedIndex: nat, kind: SwingKind, price: real)

  /** The columns of a frame of closed candles. */
  datatype Frame = Frame(high: seq<real>, low: seq<real>, close: seq<real>) {
    predicate Valid() {
      |high| == |low| == |close|
    }

    function Prefix(k: nat): Frame
      requires Valid() && k <= |close|
    {
      Frame(high[..k], low[..k], close[..k])
    }
  }

  datatype Row = Row(
    trend: Trend,
    isHigherHigh: bool, isHigherLow: bool, isLowerHigh: bool, isLowerLow: bool,
    breakOfStructure: bool, changeOfCharacter: bool,
    resistance: Option<real>, support: Option<real>,
    breakout: bool, breakdown: bool, falseBreakout: bool)

  const BLANK_ROW := Row(Unknown, false, false, false, false, false, false, None, None, false, false, false)

  // --- Swings ---------------------------------------------------------

  /** Bar `i` is strictly above the `w` bars on each side, all of which exist. */
  ghost predicate IsPeak(high: seq<real>, w: nat, i: int) {
    && w <= i && i + w < |high|
    && forall j :: i - w <= j <= i + w && j != i ==> high[j] < high[i]
  }

  ghost predicate IsTrough(low: seq<real>, w: nat, i: int) {
    && w <= i && i + w < |low|
    && forall j :: i - w <= j <= i + w && j != i ==> low[j] > low[i]
  }

  ghost function PeakPoint(f: Frame, w: nat, i: nat): SwingPoint
    requires i < |f.high|
  {
    SwingPoint(i, i + w, High, f.high[i])
  }

  ghost function TroughPoint(f: Frame, w: nat, i: nat): SwingPoint
    requires i < |f.low|
  {
    SwingPoint(i, i + w, Low, f.low[i])
  }

  /** The swings at bar `i`, high before low. */
  ghost function SwingsAt(f: Frame, w: nat, i: int): seq<SwingPoint> {
    (if IsPeak(f.high, w, i) then [PeakPoint(f, w, i)] else []) +
    (if IsTrough(f.low, w, i) then [TroughPoint(f, w, i)] else [])
  }

  ghost function SwingsBefore(f: Frame, w: nat, n: nat): seq<SwingPoint> {
    if n == 0 then [] else SwingsBefore(f, w, n - 1) + SwingsAt(f, w, n - 1)
  }

  // --- Levels and trend -----------------------------------------------

  /** The latest swing high at index at most `m`. */
  ghost function LatestPeak(high: seq<real>, w: nat, m: int): (p: Option<nat>)
    ensures p.Some? ==> p.value <= m && p.value + w < |high|
    decreases m + 1
  {
    if m < 0 then None
    else if IsPeak(high, w, m) then Some(m)
    else LatestPeak(high, w, m - 1)
  }

  ghost function LatestTrough(low: seq<real>, w: nat, m: int): (p: Option<nat>)
    ensures p.Some? ==> p.value <= m && p.value + w < |low|
    decreases m + 1
  {
    if m < 0 then None
    else if IsTrough(low, w, m) then Some(m)
    else LatestTrough(low, w, m - 1)
  }

  ghost function ResistanceAt(f: Frame, w: nat, i: int): Option<real> {
    match LatestPeak(f.high, w, i - w)
    case None => None
    case Some(p) => Some(f.high[p])
  }

  ghost function SupportAt(f: Frame, w: nat, i: int): Option<real> {
    match LatestTrough(f.low, w, i - w)
    case None => None
    case Some(p) => Some(f.low[p])
  }

  /** Bar `i` confirms a swing high that follows an earlier one. */
  ghost predicate RepeatsHigh(f: Frame, w: nat, i: int) {
    IsPeak(f.high, w, i - w) && LatestPeak(f.high, w, i - w - 1).Some?
  }

  ghost predicate RepeatsLow(f: Frame, w: nat, i: int) {
    IsTrough(f.low, w, i - w) && LatestTrough(f.low, w, i - w - 1).Some?
  }

  ghost predicate HigherHigh(f: Frame, w: nat, i: int) {
    RepeatsHigh(f, w, i) && f.high[i - w] > f.high[LatestPeak(f.high, w, i - w - 1).value]
  }

  ghost predicate LowerHigh(f: Frame, w: nat, i: int) {
    RepeatsHigh(f, w, i) && f.high[i - w] <= f.high[LatestPeak(f.high, w, i - w - 1).value]
  }

  ghost predicate HigherLow(f: Frame, w: nat, i: int) {
    RepeatsLow(f, w, i) && f.low[i - w] > f.low[LatestTrough(f.low, w, i - w - 1).value]
  }

  ghost predicate LowerLow(f: Frame, w: nat, i: int) {
    RepeatsLow(f, w, i) && f.low[i - w] <= f.low[LatestTrough(f.low, w, i - w - 1).value]
  }

  ghost function TrendAt(f: Frame, w: nat, i: int): Trend
    decreases i + 1
  {
    if i < 0 then Unknown
    else if HigherHigh(f, w, i) || HigherLow(f, w, i) then Bullish
    else if LowerHigh(f, w, i) || LowerLow(f, w, i) then Bearish
    else TrendAt(f, w, i - 1)
  }

  /** A turn against the standing trend, or a bar that confirms a lower high and a higher low at once. */
  ghost predicate ChangesCharacter(f: Frame, w: nat, i: int) {
    || (TrendAt(f, w, i - 1) != Unknown && TrendAt(f, w, i) != TrendAt(f, w, i - 1))
    || (LowerHigh(f, w, i) && HigherLow(f, w, i))
  }

  // --- Breaks ---------------------------------------------------------

  ghost predicate BreaksOut(f: Frame, w: nat, i: int) {
    0 <= i < |f.close| && ResistanceAt(f, w, i).Some? && f.close[i] > ResistanceAt(f, w, i).value
  }

  ghost predicate BreaksDown(f: Frame, w: nat, i: int) {
    0 <= i < |f.close| && SupportAt(f, w, i).Some? && f.close[i] < SupportAt(f, w, i).value
  }

  /** The break made three bars ago has been undone at bar `i`. */
  ghost predicate FalseBreak(f: Frame, w: nat, i: int)
    requires 0 <= i < |f.close|
  {
    var b := i - FALSE_BREAKOUT_WINDOW;
    || (BreaksOut(f, w, b) && f.close[i] < ResistanceAt(f, w, b).value)
    || (BreaksDown(f, w, b) && f.close[i] > SupportAt(f, w, b).value)
  }

  /** All twelve columns of bar `i`. */
  ghost function RowAt(f: Frame, w: nat, i: int): Row
    requires 0 <= i < |f.close|
  {
    Row(
      TrendAt(f, w, i),
      HigherHigh(f, w, i), HigherLow(f, w, i), LowerHigh(f, w, i), LowerLow(f, w, i),
      (BreaksOut(f, w, i) && TrendAt(f, w, i) == Bullish) || (BreaksDown(f, w, i) && TrendAt(f, w, i) == Bearish),
      ChangesCharacter(f, w, i),
      ResistanceAt(f, w, i), SupportAt(f, w, i),
      BreaksOut(f, w, i), BreaksDown(f, w, i),
      FalseBreak(f, w, i))
  }

  // --- Causality ------------------------------------------------------

  /** A swing is known to a prefix exactly when its confirming bar is in it. */
  lemma {:induction false} PeakOfPrefix(high: seq<real>, w: nat, k: nat, i: int)
    requires k <= |high|
    ensures IsPeak(high[..k], w, i) <==> IsPeak(high, w, i) && i + w < k
  {
    if w <= i && i + w < k {
      if IsPeak(high[..k], w, i) {
        forall j | i - w <= j <= i + w && j != i ensures high[j] < high[i] {
          assert high[..k][j] == high[j];
        }
      }
    }
  }

  lemma {:induction false} TroughOfPrefix(low: seq<real>, w: nat, k: nat, i: int)
    requires k <= |low|
    ensures IsTrough(low[..k], w, i) <==> IsTrough(low, w, i) && i + w < k
  {
    if w <= i && i + w < k {
      if IsTrough(low[..k], w, i) {
        forall j | i - w <= j <= i + w && j != i ensures low[j] > low[i] {
          assert low[..k][j] == low[j];
        }
      }
    }
  }

  lemma {:induction false} LatestPeakOfPrefix(high: seq<real>, w: nat, k: nat, m: int)
    requires k <= |high| && m + w < k
    ensures LatestPeak(high[..k], w, m) == LatestPeak(high, w, m)
    decreases m + 1
  {
    if m >= 0 {
      PeakOfPrefix(high, w, k, m);
      LatestPeakOfPrefix(high, w, k, m - 1);
    }
  }

  lemma {:induction false} LatestTroughOfPrefix(low: seq<real>, w: nat, k: nat, m: int)
    requires k <= |low| && m + w < k
    ensures LatestTrough(low[..k], w, m) == LatestTrough(low, w, m)
    decreases m + 1
  {
    if m >= 0 {
      TroughOfPrefix(low, w, k, m);
      LatestTroughOfPrefix(low, w, k, m - 1);
    }
  }

  lemma {:induction false} LevelsOfPrefix(f: Frame, w: nat, k: nat, i: int)
    requires f.Valid() && k <= |f.close| && i < k
    ensures ResistanceAt(f.Prefix(k), w, i) == ResistanceAt(f, w, i)
    ensures SupportAt(f.Prefix(k), w, i) == SupportAt(f, w, i)
    ensures BreaksOut(f.Prefix(k), w, i) == BreaksOut(f, w, i)
    ensures BreaksDown(f.Prefix(k), w, i) == BreaksDown(f, w, i)
  {
    hide IsPeak, IsTrough, LatestPeak, LatestTrough;
    LatestPeakOfPrefix(f.high, w, k, i - w);
    LatestTroughOfPrefix(f.low, w, k, i - w);
  }

  lemma {:induction false} HighFlagsOfPrefix(f: Frame, w: nat, k: nat, i: int)
    requires f.Valid() && k <= |f.close| && i < k
    ensures HigherHigh(f.Prefix(k), w, i) == HigherHigh(f, w, i)
    ensures LowerHigh(f.Prefix(k), w, i) == LowerHigh(f, w, i)
  {
    hide IsPeak, LatestPeak;
    PeakOfPrefix(f.high, w, k, i - w);
    LatestPeakOfPrefix(f.high, w, k, i - w - 1);
  }

  lemma {:induction false} LowFlagsOfPrefix(f: Frame, w: nat, k: nat, i: int)
    requires f.Valid() && k <= |f.close| && i < k
    ensures HigherLow(f.Prefix(k), w, i) == HigherLow(f, w, i)
    ensures LowerLow(f.Prefix(k), w, i) == LowerLow(f, w, i)
  {
    hide IsTrough, LatestTrough;
    TroughOfPrefix(f.low, w, k, i - w);
    LatestTroughOfPrefix(f.low, w, k, i - w - 1);
  }

  lemma {:induction false} TrendOfPrefix(f: Frame, w: nat, k: nat, i: int)
    requires f.Valid() && k <= |f.close| && i < k
    ensures TrendAt(f.Prefix(k), w, i) == TrendAt(f, w, i)
    decreases i + 1
  {
    hide HigherHigh, LowerHigh, HigherLow, LowerLow;
    if i >= 0 {
      HighFlagsOfPrefix(f, w, k, i);
      LowFlagsOfPrefix(f, w, k, i);
      TrendOfPrefix(f, w, k, i - 1);
    }
  }

  /** Nothing emitted for a bar depends on a later bar, whatever the series and the window. */
  lemma {:induction false} RowsAreCausal(f: Frame, w: nat, k: nat, i: int)
    requires f.Valid() && 0 <= i < k <= |f.close|
    ensures RowAt(f.Prefix(k), w, i) == RowAt(f, w, i)
  {
    hide HigherHigh, LowerHigh, HigherLow, LowerLow, TrendAt, ResistanceAt, SupportAt;
    HighFlagsOfPrefix(f, w, k, i);
    LowFlagsOfPrefix(f, w, k, i);
    TrendOfPrefix(f, w, k, i);
    TrendOfPrefix(f, w, k, i - 1);
    LevelsOfPrefix(f, w, k, i);
    LevelsOfPrefix(f, w, k, i - FALSE_BREAKOUT_WINDOW);
  }

  lemma {:induction false} SwingsAtOfPrefix(f: Frame, w: nat, k: nat, i: nat)
    requires f.Valid() && k <= |f.close|
    ensures SwingsAt(f.Prefix(k), w, i) == if i + w < k then SwingsAt(f, w, i) else []
  {
    hide IsPeak, IsTrough;
    PeakOfPrefix(f.high, w, k, i);
    TroughOfPrefix(f.low, w, k, i);
  }

  lemma {:induction false} SwingsBeforeOfPrefix(f: Frame, w: nat, k: nat, n: nat)
    requires f.Valid() && k <= |f.close|
    ensures SwingsBefore(f.Prefix(k), w, n) ==
            if n + w <= k then SwingsBefore(f, w, n) else SwingsBefore(f, w, if w <= k then k - w else 0)
  {
    hide SwingsAt;
    if n > 0 {
      SwingsBeforeOfPrefix(f, w, k, n - 1);
      SwingsAtOfPrefix(f, w, k, n - 1);
      assert SwingsBefore(f.Prefix(k), w, n - 1) + [] == SwingsBefore(f.Prefix(k), w, n - 1);
    }
  }

  lemma {:induction false} ConfirmedInTime(f: Frame, w: nat, n: nat)
    ensures forall s <- SwingsBefore(f, w, n) :: s.confirmedIndex < n + w
  {
    if n > 0 {
      ConfirmedInTime(f, w, n - 1);
    }
  }

  /** The swings of the bars from `m` on come after those of the bars before, and are confirmed later. */
  lemma {:induction false} LaterSwings(f: Frame, w: nat, m: nat, n: nat) returns (later: seq<SwingPoint>)
    requires m <= n
    ensures SwingsBefore(f, w, n) == SwingsBefore(f, w, m) + later
    ensures forall s <- later :: m + w <= s.confirmedIndex
    decreases n - m
  {
    if m == n {
      later := [];
    } else {
      hide IsPeak, IsTrough;
      var earlier := LaterSwings(f, w, m, n - 1);
      later := earlier + SwingsAt(f, w, n - 1);
    }
  }

  /** The prefix has exactly the full run's swings with confirmation index below its length, in order. */
  lemma {:induction false} SwingsOfPrefix(f: Frame, w: nat, k: nat) returns (later: seq<SwingPoint>)
    requires f.Valid() && k <= |f.close|
    ensures SwingsBefore(f, w, |f.close|) == SwingsBefore(f.Prefix(k), w, k) + later
    ensures forall s <- SwingsBefore(f.Prefix(k), w, k) :: s.confirmedIndex < k
    ensures forall s <- later :: k <= s.confirmedIndex
  {
    hide SwingsAt;
    var m := if w <= k then k - w else 0;
    SwingsBeforeOfPrefix(f, w, k, k);
    ConfirmedInTime(f, w, m);
    later := LaterSwings(f, w, m, |f.close|);
  }

  // --- What the levels mean -------------------------------------------

  /** Resistance is the price of the latest swing high confirmed by then. */
  lemma {:induction false} ResistanceIsTheLatestSwingHigh(f: Frame, w: nat, i: int, p: nat)
    requires f.Valid() && p < |f.close|
    ensures LatestPeak(f.high, w, i - w) == Some(p) <==>
            IsPeak(f.high, w, p) && p + w <= i && forall q :: p < q <= i - w ==> !IsPeak(f.high, w, q)
    ensures ResistanceAt(f, w, i).Some? <==> exists q :: q <= i - w && IsPeak(f.high, w, q)
    ensures LatestPeak(f.high, w, i - w) == Some(p) ==> ResistanceAt(f, w, i) == Some(f.high[p])
    decreases i
  {
    if i - w >= 0 {
      ResistanceIsTheLatestSwingHigh(f, w, i - 1, p);
    }
  }

  /** Support is the price of the latest swing low confirmed by then. */
  lemma {:induction false} SupportIsTheLatestSwingLow(f: Frame, w: nat, i: int, p: nat)
    requires f.Valid() && p < |f.close|
    ensures LatestTrough(f.low, w, i - w) == Some(p) <==>
            IsTrough(f.low, w, p) && p + w <= i && forall q :: p < q <= i - w ==> !IsTrough(f.low, w, q)
    ensures SupportAt(f, w, i).Some? <==> exists q :: q <= i - w && IsTrough(f.low, w, q)
    ensures LatestTrough(f.low, w, i - w) == Some(p) ==> SupportAt(f, w, i) == Some(f.low[p])
    decreases i
  {
    if i - w >= 0 {
      SupportIsTheLatestSwingLow(f, w, i - 1, p);
    }
  }

  /** Two swing highs are more than the window apart, and so are two swing lows. */
  lemma {:induction false} SwingsAreApart(f: Frame, w: nat, i: int, j: int)
    requires i < j
    ensures IsPeak(f.high, w, i) && IsPeak(f.high, w, j) ==> j - i > w
    ensures IsTrough(f.low, w, i) && IsTrough(f.low, w, j) ==> j - i > w
  {
    if IsPeak(f.high, w, i) && j - i <= w {
      assert f.high[j] < f.high[i];
    }
    if IsTrough(f.low, w, i) && j - i <= w {
      assert f.low[j] > f.low[i];
    }
  }

  ghost predicate SaneBar(f: Frame, i: int) {
    f.Valid() && 0 <= i < |f.close| && f.low[i] <= f.close[i] <= f.high[i]
  }

  /** A bar that confirms a swing high never closes above it, and dually for a swing low. */
  lemma {:induction false} NoBreakOnConfirmation(f: Frame, w: nat, i: int)
    requires SaneBar(f, i)
    ensures IsPeak(f.high, w, i - w) ==> !BreaksOut(f, w, i)
    ensures IsTrough(f.low, w, i - w) ==> !BreaksDown(f, w, i)
  {
    if IsPeak(f.high, w, i - w) {
      assert LatestPeak(f.high, w, i - w) == Some(i - w);
      assert f.high[i] <= f.high[i - w];
    }
    if IsTrough(f.low, w, i - w) {
      assert LatestTrough(f.low, w, i - w) == Some(i - w);
      assert f.low[i] >= f.low[i - w];
    }
  }

  /** The level of the previous bar, which the comment on the comparison promises. */
  ghost predicate BreaksPreviousResistance(f: Frame, w: nat, i: int) {
    0 <= i < |f.close| && ResistanceAt(f, w, i - 1).Some? && f.close[i] > ResistanceAt(f, w, i - 1).value
  }

  ghost predicate BreaksPreviousSupport(f: Frame, w: nat, i: int) {
    0 <= i < |f.close| && SupportAt(f, w, i - 1).Some? && f.close[i] < SupportAt(f, w, i - 1).value
  }

  /**
   * The close is compared with a level the same bar may have set, although the source's comment says
   * otherwise. On any series the two readings agree exactly where the bar confirms no new swing or
   * its close is beyond the new level just when it is beyond the one before.
   */
  lemma {:induction false} WhenTheCommentHolds(f: Frame, w: nat, i: int)
    requires f.Valid() && 0 <= i < |f.close|
    ensures (BreaksOut(f, w, i) <==> BreaksPreviousResistance(f, w, i))
            <==> (IsPeak(f.high, w, i - w) ==> (f.close[i] > f.high[i - w] <==> BreaksPreviousResistance(f, w, i)))
    ensures (BreaksDown(f, w, i) <==> BreaksPreviousSupport(f, w, i))
            <==> (IsTrough(f.low, w, i - w) ==> (f.close[i] < f.low[i - w] <==> BreaksPreviousSupport(f, w, i)))
  {
    hide IsPeak, IsTrough, LatestPeak, LatestTrough;
    LatestMovesUp(f, w, i - w);
  }

  lemma {:induction false} LatestMovesUp(f: Frame, w: nat, m: int)
    ensures IsPeak(f.high, w, m) ==> m >= 0 && LatestPeak(f.high, w, m) == Some(m)
    ensures !IsPeak(f.high, w, m) ==> LatestPeak(f.high, w, m) == LatestPeak(f.high, w, m - 1)
    ensures IsTrough(f.low, w, m) ==> m >= 0 && LatestTrough(f.low, w, m) == Some(m)
    ensures !IsTrough(f.low, w, m) ==> LatestTrough(f.low, w, m) == LatestTrough(f.low, w, m - 1)
  {
  }

  /**
   * On a bar that closes within its range they differ exactly if it confirms a swing and closes beyond
   * the old level.
   */
  lemma {:induction false} WhenTheCommentHoldsOnSaneBars(f: Frame, w: nat, i: int)
    requires SaneBar(f, i)
    ensures (BreaksOut(f, w, i) <==> BreaksPreviousResistance(f, w, i))
            <==> !(IsPeak(f.high, w, i - w) && BreaksPreviousResistance(f, w, i))
    ensures (BreaksDown(f, w, i) <==> BreaksPreviousSupport(f, w, i))
            <==> !(IsTrough(f.low, w, i - w) && BreaksPreviousSupport(f, w, i))
  {
    NoBreakOnConfirmation(f, w, i);
    WhenTheCommentHolds(f, w, i);
  }

  /** A concrete series on which they differ: bar 5 confirms the high of bar 4 above the old level. */
  lemma {:induction false} CommentFails()
    ensures var f := Frame([1.0, 2.0, 1.0, 1.0, 9.0, 5.0], [1.0, 1.0, 1.0, 1.0, 1.0, 1.0],
                           [1.0, 1.0, 1.0, 1.0, 1.0, 4.0]);
            SaneBar(f, 5) && BreaksPreviousResistance(f, 1, 5) && !BreaksOut(f, 1, 5)
  {
    var f := Frame([1.0, 2.0, 1.0, 1.0, 9.0, 5.0], [1.0, 1.0, 1.0, 1.0, 1.0, 1.0],
                   [1.0, 1.0, 1.0, 1.0, 1.0, 4.0]);
    assert IsPeak(f.high, 1, 1) && !IsPeak(f.high, 1, 2) && !IsPeak(f.high, 1, 3) && IsPeak(f.high, 1, 4) by {
      assert f.high[2] <= f.high[1] && f.high[3] <= f.high[4];
    }
    assert LatestPeak(f.high, 1, 3) == Some(1);
    assert ResistanceAt(f, 1, 4) == Some(2.0);
    NoBreakOnConfirmation(f, 1, 5);
  }

  // --- Pending breaks -------------------------------------------------

  ghost function BreaksAt(f: Frame, w: nat, b: int): seq<(int, Direction)> {
    (if BreaksOut(f, w, b) then [(b, Breakout)] else []) +
    (if BreaksDown(f, w, b) then [(b, Breakdown)] else [])
  }

  /** The breaks still waiting for a verdict after bar `i`: those of the last three bars. */
  ghost function PendingAfter(f: Frame, w: nat, i: int): (p: seq<(int, Direction)>)
    ensures |p| <= 6
  {
    BreaksAt(f, w, i - 2) + BreaksAt(f, w, i - 1) + BreaksAt(f, w, i)
  }

  ghost predicate Broke(f: Frame, w: nat, b: int, d: Direction) {
    if d.Breakout? then BreaksOut(f, w, b) else BreaksDown(f, w, b)
  }

  /**
   * A break joins the queue on its own bar, waits there alone of its kind, and leaves it on the
   * third bar after, once and for good.
   */
  lemma {:induction false} EachBreakWaitsThreeBars(f: Frame, w: nat, b: int, d: Direction, i: int)
    ensures multiset(PendingAfter(f, w, i))[(b, d)] == if Broke(f, w, b, d) && b <= i < b + 3 then 1 else 0
  {
    var x, y, z := BreaksAt(f, w, i - 2), BreaksAt(f, w, i - 1), BreaksAt(f, w, i);
    assert multiset(PendingAfter(f, w, i)) == multiset(x) + multiset(y) + multiset(z);
    OneBarsBreaks(f, w, i - 2, b, d);
    OneBarsBreaks(f, w, i - 1, b, d);
    OneBarsBreaks(f, w, i, b, d);
  }

  lemma {:induction false} OneBarsBreaks(f: Frame, w: nat, c: int, b: int, d: Direction)
    ensures multiset(BreaksAt(f, w, c))[(b, d)] == if Broke(f, w, b, d) && b == c then 1 else 0
  {
    var outs := if BreaksOut(f, w, c) then [(c, Breakout)] else [];
    var downs := if BreaksDown(f, w, c) then [(c, Breakdown)] else [];
    assert multiset(BreaksAt(f, w, c)) == multiset(outs) + multiset(downs);
  }
}
