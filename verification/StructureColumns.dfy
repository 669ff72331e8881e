/** What each column of the market structure says, from the prices alone. */
module StructureColumns {
  import opened Wrappers
  import opened MarketStructure

  // --- Swings and the ones before them ----------------------------------

  /** Bar `i` confirms a swing high, and `p` is the swing high before that one. */
  ghost predicate FollowsPeak(f: Frame, w: nat, i: int, p: int) {
    && IsPeak(f.high, w, i - w) && IsPeak(f.high, w, p) && p < i - w
    && forall q :: p < q < i - w ==> !IsPeak(f.high, w, q)
  }

  ghost predicate FollowsTrough(f: Frame, w: nat, i: int, p: int) {
    && IsTrough(f.low, w, i - w) && IsTrough(f.low, w, p) && p < i - w
    && forall q :: p < q < i - w ==> !IsTrough(f.low, w, q)
  }

  /** Bar `i` confirms a swing high above the one before it. */
  ghost predicate RaisesHigh(f: Frame, w: nat, i: int) {
    exists p :: FollowsPeak(f, w, i, p) && f.high[i - w] > f.high[p]
  }

  ghost predicate CapsHigh(f: Frame, w: nat, i: int) {
    exists p :: FollowsPeak(f, w, i, p) && f.high[i - w] <= f.high[p]
  }

  ghost predicate RaisesLow(f: Frame, w: nat, i: int) {
    exists p :: FollowsTrough(f, w, i, p) && f.low[i - w] > f.low[p]
  }

  ghost predicate SinksLow(f: Frame, w: nat, i: int) {
    exists p :: FollowsTrough(f, w, i, p) && f.low[i - w] <= f.low[p]
  }

  /** Bar `i` confirms a swing that has one of its kind before it. */
  ghost predicate Turns(f: Frame, w: nat, i: int) {
    (exists p :: FollowsPeak(f, w, i, p)) || (exists p :: FollowsTrough(f, w, i, p))
  }

  /** One of the swings that bar `i` confirms is above the one of its kind before it. */
  ghost predicate Rises(f: Frame, w: nat, i: int) {
    RaisesHigh(f, w, i) || RaisesLow(f, w, i)
  }

  /** The last bar up to `i` that turns. */
  ghost predicate LastTurn(f: Frame, w: nat, i: int, c: int) {
    c <= i && Turns(f, w, c) && forall d :: c < d <= i ==> !Turns(f, w, d)
  }

  ghost predicate GoesUp(f: Frame, w: nat, i: int) {
    exists c :: LastTurn(f, w, i, c) && Rises(f, w, c)
  }

  ghost predicate GoesDown(f: Frame, w: nat, i: int) {
    exists c :: LastTurn(f, w, i, c) && !Rises(f, w, c)
  }

  // --- Levels and breaks --------------------------------------------------

  /** `p` is the latest swing high confirmed by bar `i`. */
  ghost predicate StandingPeak(f: Frame, w: nat, i: int, p: int) {
    IsPeak(f.high, w, p) && p + w <= i && forall q :: p < q && q + w <= i ==> !IsPeak(f.high, w, q)
  }

  ghost predicate StandingTrough(f: Frame, w: nat, i: int, p: int) {
    IsTrough(f.low, w, p) && p + w <= i && forall q :: p < q && q + w <= i ==> !IsTrough(f.low, w, q)
  }

  ghost predicate ClosesAbove(f: Frame, w: nat, i: int)
    requires 0 <= i < |f.close|
  {
    exists p :: StandingPeak(f, w, i, p) && f.close[i] > f.high[p]
  }

  ghost predicate ClosesBelow(f: Frame, w: nat, i: int)
    requires 0 <= i < |f.close|
  {
    exists p :: StandingTrough(f, w, i, p) && f.close[i] < f.low[p]
  }

  /** Three bars ago the close went beyond a level that the close of this bar is back inside of. */
  ghost predicate ComesBack(f: Frame, w: nat, i: int)
    requires 0 <= i < |f.close|
  {
    && i >= 3
    && (|| (exists p :: StandingPeak(f, w, i - 3, p) && f.close[i - 3] > f.high[p] > f.close[i])
        || (exists p :: StandingTrough(f, w, i - 3, p) && f.close[i - 3] < f.low[p] < f.close[i]))
  }

  ghost predicate SwingColumns(f: Frame, w: nat, i: int, row: Row) {
    && (row.isHigherHigh <==> RaisesHigh(f, w, i)) && (row.isLowerHigh <==> CapsHigh(f, w, i))
    && (row.isHigherLow <==> RaisesLow(f, w, i)) && (row.isLowerLow <==> SinksLow(f, w, i))
  }

  ghost predicate TrendColumns(f: Frame, w: nat, i: int, row: Row) {
    && (row.trend == Unknown <==> forall c :: c <= i ==> !Turns(f, w, c))
    && (row.trend == Bullish <==> GoesUp(f, w, i))
    && (row.trend == Bearish <==> GoesDown(f, w, i))
    && (row.changeOfCharacter <==>
        || (Turns(f, w, i) && (if Rises(f, w, i) then GoesDown(f, w, i - 1) else GoesUp(f, w, i - 1)))
        || (CapsHigh(f, w, i) && RaisesLow(f, w, i)))
  }

  ghost predicate LevelColumns(f: Frame, w: nat, i: int, row: Row) {
    && (row.resistance.Some? ==> exists p :: StandingPeak(f, w, i, p) && row.resistance == Some(f.high[p]))
    && (row.resistance.None? ==> forall p :: p + w <= i ==> !IsPeak(f.high, w, p))
    && (row.support.Some? ==> exists p :: StandingTrough(f, w, i, p) && row.support == Some(f.low[p]))
    && (row.support.None? ==> forall p :: p + w <= i ==> !IsTrough(f.low, w, p))
  }

  ghost predicate BreakColumns(f: Frame, w: nat, i: int, row: Row)
    requires 0 <= i < |f.close|
  {
    && (row.breakout <==> ClosesAbove(f, w, i))
    && (row.breakdown <==> ClosesBelow(f, w, i))
    && (row.breakOfStructure <==>
        (ClosesAbove(f, w, i) && GoesUp(f, w, i)) || (ClosesBelow(f, w, i) && GoesDown(f, w, i)))
    && (row.falseBreakout <==> ComesBack(f, w, i))
  }

  /** All twelve columns of a row, each from the prices. */
  ghost predicate FollowsPrices(f: Frame, w: nat, i: int, row: Row)
    requires 0 <= i < |f.close|
  {
    SwingColumns(f, w, i, row) && TrendColumns(f, w, i, row)
    && LevelColumns(f, w, i, row) && BreakColumns(f, w, i, row)
  }

  // --- The columns are those --------------------------------------------

  lemma {:induction false} LatestIsTheOneBefore(f: Frame, w: nat, i: int, p: int)
    requires f.Valid()
    ensures FollowsPeak(f, w, i, p)
            <==> IsPeak(f.high, w, i - w) && p >= 0 && LatestPeak(f.high, w, i - w - 1) == Some(p)
    ensures FollowsTrough(f, w, i, p)
            <==> IsTrough(f.low, w, i - w) && p >= 0 && LatestTrough(f.low, w, i - w - 1) == Some(p)
  {
    if 0 <= p < |f.close| {
      ResistanceIsTheLatestSwingHigh(f, w, i - 1, p);
      SupportIsTheLatestSwingLow(f, w, i - 1, p);
    }
  }

  lemma {:induction false} HighsFollowPrices(f: Frame, w: nat, i: int)
    requires f.Valid()
    ensures HigherHigh(f, w, i) <==> RaisesHigh(f, w, i)
    ensures LowerHigh(f, w, i) <==> CapsHigh(f, w, i)
    ensures (exists p :: FollowsPeak(f, w, i, p)) <==> RepeatsHigh(f, w, i)
  {
    var latest := LatestPeak(f.high, w, i - w - 1);
    forall p | FollowsPeak(f, w, i, p) ensures RepeatsHigh(f, w, i) && latest == Some(p) {
      LatestIsTheOneBefore(f, w, i, p);
    }
    if RepeatsHigh(f, w, i) {
      LatestIsTheOneBefore(f, w, i, latest.value);
      assert FollowsPeak(f, w, i, latest.value);
    }
    hide FollowsPeak, IsPeak, LatestPeak;
  }

  lemma {:induction false} LowsFollowPrices(f: Frame, w: nat, i: int)
    requires f.Valid()
    ensures HigherLow(f, w, i) <==> RaisesLow(f, w, i)
    ensures LowerLow(f, w, i) <==> SinksLow(f, w, i)
    ensures (exists p :: FollowsTrough(f, w, i, p)) <==> RepeatsLow(f, w, i)
  {
    var latest := LatestTrough(f.low, w, i - w - 1);
    forall p | FollowsTrough(f, w, i, p) ensures RepeatsLow(f, w, i) && latest == Some(p) {
      LatestIsTheOneBefore(f, w, i, p);
    }
    if RepeatsLow(f, w, i) {
      LatestIsTheOneBefore(f, w, i, latest.value);
      assert FollowsTrough(f, w, i, latest.value);
    }
    hide FollowsTrough, IsTrough, LatestTrough;
  }

  lemma {:induction false} SwingsFollowPrices(f: Frame, w: nat, i: int)
    requires f.Valid()
    ensures HigherHigh(f, w, i) <==> RaisesHigh(f, w, i)
    ensures LowerHigh(f, w, i) <==> CapsHigh(f, w, i)
    ensures HigherLow(f, w, i) <==> RaisesLow(f, w, i)
    ensures LowerLow(f, w, i) <==> SinksLow(f, w, i)
    ensures Turns(f, w, i) <==> RepeatsHigh(f, w, i) || RepeatsLow(f, w, i)
  {
    hide HigherHigh, LowerHigh, HigherLow, LowerLow, RaisesHigh, CapsHigh, RaisesLow, SinksLow, FollowsPeak,
         FollowsTrough, RepeatsHigh, RepeatsLow;
    HighsFollowPrices(f, w, i);
    LowsFollowPrices(f, w, i);
  }

  /** The trend is that of the last turn. */
  lemma {:induction false} TrendIsTheLastTurn(f: Frame, w: nat, i: int)
    requires f.Valid()
    ensures TrendAt(f, w, i) == Unknown <==> forall c :: c <= i ==> !Turns(f, w, c)
    ensures TrendAt(f, w, i) == Bullish <==> GoesUp(f, w, i)
    ensures TrendAt(f, w, i) == Bearish <==> GoesDown(f, w, i)
    decreases i + 1
  {
    hide HigherHigh, LowerHigh, HigherLow, LowerLow, RaisesHigh, CapsHigh, RaisesLow, SinksLow, Turns;
    if i < 0 {
      NothingTurnsBefore(f, w);
    } else {
      TurnsUpOrDown(f, w, i);
      TrendIsTheLastTurn(f, w, i - 1);
      if Turns(f, w, i) {
        assert LastTurn(f, w, i, i);
      } else {
        forall c ensures LastTurn(f, w, i, c) <==> LastTurn(f, w, i - 1, c) {
        }
      }
    }
  }

  lemma {:induction false} NothingTurnsBefore(f: Frame, w: nat)
    ensures forall c :: c < 0 ==> !Turns(f, w, c)
  {
  }

  lemma {:induction false} TurnsUpOrDown(f: Frame, w: nat, i: int)
    requires f.Valid()
    ensures Rises(f, w, i) <==> HigherHigh(f, w, i) || HigherLow(f, w, i)
    ensures Turns(f, w, i)
            <==> HigherHigh(f, w, i) || HigherLow(f, w, i) || LowerHigh(f, w, i) || LowerLow(f, w, i)
  {
    SwingsFollowPrices(f, w, i);
    hide LatestPeak, LatestTrough, IsPeak, IsTrough, Turns, RaisesHigh, CapsHigh, RaisesLow, SinksLow;
  }

  lemma {:induction false} LevelsFollowPrices(f: Frame, w: nat, i: int, row: Row)
    requires f.Valid() && row.resistance == ResistanceAt(f, w, i) && row.support == SupportAt(f, w, i)
    ensures LevelColumns(f, w, i, row)
  {
    StandingIsLatest(f, w, i);
    hide IsPeak, IsTrough, LatestPeak, LatestTrough;
  }

  lemma {:induction false} StandingIsLatest(f: Frame, w: nat, i: int)
    requires f.Valid()
    ensures forall p :: StandingPeak(f, w, i, p) <==> p >= 0 && LatestPeak(f.high, w, i - w) == Some(p)
    ensures forall p :: StandingTrough(f, w, i, p) <==> p >= 0 && LatestTrough(f.low, w, i - w) == Some(p)
    ensures LatestPeak(f.high, w, i - w).None? ==> forall p :: p + w <= i ==> !IsPeak(f.high, w, p)
    ensures LatestTrough(f.low, w, i - w).None? ==> forall p :: p + w <= i ==> !IsTrough(f.low, w, p)
  {
    forall p
      ensures StandingPeak(f, w, i, p) <==> p >= 0 && LatestPeak(f.high, w, i - w) == Some(p)
      ensures StandingTrough(f, w, i, p) <==> p >= 0 && LatestTrough(f.low, w, i - w) == Some(p)
    {
      if 0 <= p < |f.close| {
        ResistanceIsTheLatestSwingHigh(f, w, i, p);
        SupportIsTheLatestSwingLow(f, w, i, p);
      }
    }
    forall p | p + w <= i && (IsPeak(f.high, w, p) || IsTrough(f.low, w, p))
      ensures IsPeak(f.high, w, p) ==> LatestPeak(f.high, w, i - w).Some?
      ensures IsTrough(f.low, w, p) ==> LatestTrough(f.low, w, i - w).Some?
    {
      ResistanceIsTheLatestSwingHigh(f, w, i, p);
      SupportIsTheLatestSwingLow(f, w, i, p);
    }
  }

  lemma {:induction false} BreaksFollowPrices(f: Frame, w: nat, i: int)
    requires f.Valid() && 0 <= i < |f.close|
    ensures BreaksOut(f, w, i) <==> ClosesAbove(f, w, i)
    ensures BreaksDown(f, w, i) <==> ClosesBelow(f, w, i)
  {
    PeakStands(f, w, i);
    hide IsPeak, IsTrough, LatestPeak, LatestTrough, StandingPeak, StandingTrough;
  }

  lemma {:induction false} FalseBreaksFollowPrices(f: Frame, w: nat, i: int)
    requires f.Valid() && 0 <= i < |f.close|
    ensures FalseBreak(f, w, i) <==> ComesBack(f, w, i)
  {
    PeakStands(f, w, i - 3);
    hide IsPeak, IsTrough, LatestPeak, LatestTrough, StandingPeak, StandingTrough;
  }

  /** The level in force is that of the one swing that stands. */
  lemma {:induction false} PeakStands(f: Frame, w: nat, i: int)
    requires f.Valid()
    ensures forall p :: StandingPeak(f, w, i, p) ==> IsPeak(f.high, w, p) && ResistanceAt(f, w, i) == Some(f.high[p])
    ensures forall p :: StandingTrough(f, w, i, p) ==> IsTrough(f.low, w, p) && SupportAt(f, w, i) == Some(f.low[p])
    ensures ResistanceAt(f, w, i).Some? ==> exists p :: StandingPeak(f, w, i, p)
    ensures SupportAt(f, w, i).Some? ==> exists p :: StandingTrough(f, w, i, p)
  {
    StandingIsLatest(f, w, i);
    var peak, trough := LatestPeak(f.high, w, i - w), LatestTrough(f.low, w, i - w);
    assert peak.Some? ==> StandingPeak(f, w, i, peak.value);
    assert trough.Some? ==> StandingTrough(f, w, i, trough.value);
    hide LatestPeak, LatestTrough;
  }

  /** Every column says what it is named for, on every bar of every series. */
  lemma {:induction false} RowFollowsPrices(f: Frame, w: nat, i: int)
    requires f.Valid() && 0 <= i < |f.close|
    ensures FollowsPrices(f, w, i, RowAt(f, w, i))
  {
    SwingsFollowPrices(f, w, i);
    TurnsUpOrDown(f, w, i);
    TrendIsTheLastTurn(f, w, i);
    TrendIsTheLastTurn(f, w, i - 1);
    BreaksFollowPrices(f, w, i);
    FalseBreaksFollowPrices(f, w, i);
    LevelsFollowPrices(f, w, i, RowAt(f, w, i));
    hide HigherHigh, HigherLow, LowerHigh, LowerLow, RaisesHigh, CapsHigh, RaisesLow, SinksLow, Turns, Rises, TrendAt,
         GoesUp, GoesDown, BreaksOut, BreaksDown, ClosesAbove, ClosesBelow, FalseBreak, ComesBack, LevelColumns,
         ResistanceAt, SupportAt;
    CharacterFollowsTurns(f, w, i);
  }

  lemma {:induction false} CharacterFollowsTurns(f: Frame, w: nat, i: int)
    requires f.Valid() && 0 <= i < |f.close|
    ensures ChangesCharacter(f, w, i) <==>
            || (Turns(f, w, i) && (if Rises(f, w, i) then GoesDown(f, w, i - 1) else GoesUp(f, w, i - 1)))
            || (CapsHigh(f, w, i) && RaisesLow(f, w, i))
  {
    SwingsFollowPrices(f, w, i);
    TurnsUpOrDown(f, w, i);
    TrendIsTheLastTurn(f, w, i - 1);
    hide HigherHigh, HigherLow, LowerHigh, LowerLow, RaisesHigh, CapsHigh, RaisesLow, SinksLow, Turns, Rises,
         GoesUp, GoesDown;
  }
}
