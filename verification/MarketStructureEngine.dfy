/** The pass over the bars: `backend/app/engines/market_structure.py`. */
module MarketStructureEngine {
  import opened Wrappers
  import opened Sorting
  import opened MarketStructure
  import opened StructureColumns

  // --- Finding swings -------------------------------------------------

  function MaxOf(s: seq<real>): (m: real)
    requires s != []
    ensures m in s && forall x <- s :: x <= m
  {
    if |s| == 1 then s[0]
    else
      assert forall x <- s :: x == s[0] || x in s[1..];
      var m := MaxOf(s[1..]);
      if s[0] > m then s[0] else m
  }

  function MinOf(s: seq<real>): (m: real)
    requires s != []
    ensures m in s && forall x <- s :: x >= m
  {
    if |s| == 1 then s[0]
    else
      assert forall x <- s :: x == s[0] || x in s[1..];
      var m := MinOf(s[1..]);
      if s[0] < m then s[0] else m
  }

  function CountOf(s: seq<real>, x: real): nat {
    multiset(s)[x]
  }

  /** An element occurs once exactly when nothing else equals it. */
  lemma {:induction false} OccursOnce(s: seq<real>, c: nat)
    requires c < |s|
    ensures CountOf(s, s[c]) == 1 <==> forall j :: 0 <= j < |s| && j != c ==> s[j] != s[c]
  {
    var before, after := s[..c], s[c + 1..];
    assert s == before + [s[c]] + after;
    assert multiset(s) == multiset(before) + multiset{s[c]} + multiset(after);
    if CountOf(s, s[c]) == 1 {
      forall j | 0 <= j < |s| && j != c ensures s[j] != s[c] {
        assert j < c ==> before[j] in multiset(before);
        assert j > c ==> after[j - c - 1] in multiset(after);
      }
    }
  }

  /** Being the one maximum of the window is being strictly above the rest of it. */
  lemma {:induction false} PeakTest(high: seq<real>, w: nat, i: nat)
    requires w <= i && i + w < |high|
    ensures var window := high[i - w..i + w + 1];
            (high[i] == MaxOf(window) && CountOf(window, high[i]) == 1) <==> IsPeak(high, w, i)
  {
    var window := high[i - w..i + w + 1];
    OccursOnce(window, w);
    assert high[i] == window[w] && window[w] in window;
    if IsPeak(high, w, i) {
      var j :| 0 <= j < |window| && window[j] == MaxOf(window);
      assert high[i - w + j] == window[j];
    } else {
      var j :| i - w <= j <= i + w && j != i && high[j] >= high[i];
      assert window[j - (i - w)] == high[j] && high[j] in window;
    }
  }

  lemma {:induction false} TroughTest(low: seq<real>, w: nat, i: nat)
    requires w <= i && i + w < |low|
    ensures var window := low[i - w..i + w + 1];
            (low[i] == MinOf(window) && CountOf(window, low[i]) == 1) <==> IsTrough(low, w, i)
  {
    var window := low[i - w..i + w + 1];
    OccursOnce(window, w);
    assert low[i] == window[w] && window[w] in window;
    if IsTrough(low, w, i) {
      var j :| 0 <= j < |window| && window[j] == MinOf(window);
      assert low[i - w + j] == window[j];
    } else {
      var j :| i - w <= j <= i + w && j != i && low[j] <= low[i];
      assert window[j - (i - w)] == low[j] && low[j] in window;
    }
  }

  /** Bars without a full window on both sides have no swings. */
  lemma {:induction false} NoSwingsNearTheEdges(f: Frame, w: nat, m: nat, n: nat)
    requires f.Valid() && m <= n
    requires n <= w || m + w >= |f.close|
    ensures SwingsBefore(f, w, n) == SwingsBefore(f, w, m)
    decreases n - m
  {
    if m < n {
      NoSwingsNearTheEdges(f, w, m, n - 1);
    }
  }

  function ConfirmationOf(swing: SwingPoint): int {
    swing.confirmedIndex
  }

  lemma {:induction false} SortedAppend(a: seq<SwingPoint>, b: seq<SwingPoint>, c: int)
    requires SortedBy(a, ConfirmationOf)
    requires forall s <- a :: s.confirmedIndex <= c
    requires forall s <- b :: s.confirmedIndex == c
    ensures SortedBy(a + b, ConfirmationOf)
    ensures forall s <- a + b :: s.confirmedIndex <= c
  {
  }

  lemma {:induction false} SwingsInOrder(f: Frame, w: nat, n: nat)
    ensures SortedBy(SwingsBefore(f, w, n), ConfirmationOf)
  {
    if n > 0 {
      SwingsInOrder(f, w, n - 1);
      ConfirmedInTime(f, w, n - 1);
      SortedAppend(SwingsBefore(f, w, n - 1), SwingsAt(f, w, n - 1), n - 1 + w);
    }
  }

  lemma {:induction false} SortingChangesNothing(f: Frame, w: nat, n: nat)
    ensures StableSort(SwingsBefore(f, w, n), ConfirmationOf) == SwingsBefore(f, w, n)
  {
    SwingsInOrder(f, w, n);
    StableSortOfSorted(SwingsBefore(f, w, n), ConfirmationOf);
  }

  /** The body of the search: whether bar `i` is a swing high, a swing low, or both. */
  method SwingsOfBar(f: Frame, w: nat, i: nat) returns (found: seq<SwingPoint>)
    requires f.Valid() && w <= i && i + w < |f.close|
    ensures found == SwingsAt(f, w, i)
  {
    hide MaxOf, MinOf, CountOf, IsPeak, IsTrough;
    PeakTest(f.high, w, i);
    TroughTest(f.low, w, i);
    found := [];
    var windowHigh := f.high[i - w..i + w + 1];
    if f.high[i] == MaxOf(windowHigh) && CountOf(windowHigh, f.high[i]) == 1 {
      found := found + [SwingPoint(i, i + w, High, f.high[i])];
    }
    var windowLow := f.low[i - w..i + w + 1];
    if f.low[i] == MinOf(windowLow) && CountOf(windowLow, f.low[i]) == 1 {
      found := found + [SwingPoint(i, i + w, Low, f.low[i])];
    }
  }

  method ScanForSwings(f: Frame, w: nat) returns (swings: seq<SwingPoint>)
    requires f.Valid()
    ensures swings == SwingsBefore(f, w, |f.close|)
  {
    var n := |f.high|;
    var stop := if n - w < w then w else n - w;
    swings := [];
    NoSwingsNearTheEdges(f, w, 0, w);
    for i := w to stop
      invariant swings == SwingsBefore(f, w, i)
    {
      var found := SwingsOfBar(f, w, i);
      swings := swings + found;
    }
    NoSwingsNearTheEdges(f, w, if stop <= n then stop else n, if stop <= n then n else stop);
  }

  /** Finds the swings confirmed within the series, ordered by confirmation. */
  method FindSwingPoints(f: Frame, w: nat := SWING_WINDOW) returns (swings: seq<SwingPoint>)
    requires f.Valid()
    ensures swings == SwingsBefore(f, w, |f.close|)
  {
    var n := |f.high|;
    swings := ScanForSwings(f, w);
    SortingChangesNothing(f, w, n);
    swings := StableSort(swings, ConfirmationOf);
  }

  // --- Swings by confirmation -----------------------------------------

  function Lookup(table: map<int, seq<SwingPoint>>, c: int): seq<SwingPoint> {
    if c in table then table[c] else []
  }

  ghost function ConfirmedAt(swings: seq<SwingPoint>, c: int): seq<SwingPoint> {
    if swings == [] then []
    else
      var earlier := ConfirmedAt(swings[..|swings| - 1], c);
      var last := swings[|swings| - 1];
      if last.confirmedIndex == c then earlier + [last] else earlier
  }

  lemma {:induction false} ConfirmedAtAppend(a: seq<SwingPoint>, b: seq<SwingPoint>, c: int)
    ensures ConfirmedAt(a + b, c) == ConfirmedAt(a, c) + ConfirmedAt(b, c)
    decreases |b|
  {
    if b == [] {
      assert a + b == a;
    } else {
      assert (a + b)[..|a + b| - 1] == a + b[..|b| - 1];
      ConfirmedAtAppend(a, b[..|b| - 1], c);
    }
  }

  lemma {:induction false} ConfirmedElsewhere(swings: seq<SwingPoint>, c: int)
    requires forall s <- swings :: s.confirmedIndex != c
    ensures ConfirmedAt(swings, c) == []
    decreases |swings|
  {
    if swings != [] {
      ConfirmedElsewhere(swings[..|swings| - 1], c);
    }
  }

  lemma {:induction false} ConfirmedHere(swings: seq<SwingPoint>, c: int)
    requires forall s <- swings :: s.confirmedIndex == c
    ensures ConfirmedAt(swings, c) == swings
    decreases |swings|
  {
    if swings != [] {
      ConfirmedHere(swings[..|swings| - 1], c);
      assert swings == swings[..|swings| - 1] + [swings[|swings| - 1]];
    }
  }

  lemma {:induction false} ConfirmedInTheMiddle(a: seq<SwingPoint>, b: seq<SwingPoint>, d: seq<SwingPoint>, c: int)
    requires forall s <- a :: s.confirmedIndex != c
    requires forall s <- b :: s.confirmedIndex == c
    requires forall s <- d :: s.confirmedIndex != c
    ensures ConfirmedAt(a + b + d, c) == b
  {
    ConfirmedAtAppend(a + b, d, c);
    ConfirmedAtAppend(a, b, c);
    ConfirmedElsewhere(a, c);
    ConfirmedHere(b, c);
    ConfirmedElsewhere(d, c);
  }

  lemma {:induction false} SwingsAtConfirmTogether(f: Frame, w: nat, i: int)
    ensures forall s <- SwingsAt(f, w, i) :: s.confirmedIndex == i + w
  {
  }

  lemma {:induction false} NoSwingsOutside(f: Frame, w: nat, i: int)
    requires f.Valid() && (i < 0 || i >= |f.close|)
    ensures SwingsAt(f, w, i) == []
  {
  }

  /** No swing is confirmed at a bar that is not `w` past some bar of the series. */
  lemma {:induction false} NothingConfirmedOutside(f: Frame, w: nat, n: nat, c: int)
    requires c - w < 0 || c - w >= n
    ensures forall s <- SwingsBefore(f, w, n) :: s.confirmedIndex != c
  {
    hide SwingsAt;
    if c - w >= n {
      ConfirmedInTime(f, w, n);
    } else {
      var later := LaterSwings(f, w, 0, n);
      assert SwingsBefore(f, w, n) == later;
    }
  }

  /** Bar `c` confirms exactly the swings of bar `c - w`. */
  lemma {:induction false} ConfirmedAtBar(f: Frame, w: nat, c: int)
    requires f.Valid()
    ensures ConfirmedAt(SwingsBefore(f, w, |f.close|), c) == SwingsAt(f, w, c - w)
  {
    hide SwingsAt, ConfirmedAt;
    var m, n := c - w, |f.close|;
    if 0 <= m < n {
      var later := LaterSwings(f, w, m + 1, n);
      ConfirmedInTime(f, w, m);
      SwingsAtConfirmTogether(f, w, m);
      ConfirmedInTheMiddle(SwingsBefore(f, w, m), SwingsAt(f, w, m), later, c);
    } else {
      NothingConfirmedOutside(f, w, n, c);
      ConfirmedElsewhere(SwingsBefore(f, w, n), c);
      NoSwingsOutside(f, w, m);
    }
  }

  method GroupByConfirmation(swings: seq<SwingPoint>) returns (table: map<int, seq<SwingPoint>>)
    ensures forall c :: Lookup(table, c) == ConfirmedAt(swings, c)
  {
    table := map[];
    for k := 0 to |swings|
      invariant forall c :: Lookup(table, c) == ConfirmedAt(swings[..k], c)
    {
      assert swings[..k + 1][..k] == swings[..k];
      var at := swings[k].confirmedIndex;
      table := table[at := Lookup(table, at) + [swings[k]]];
    }
    assert swings[..|swings|] == swings;
  }

  /** Bar `c` finds the swings of bar `c - w` in the table, and nothing else. */
  method SwingsByConfirmation(f: Frame, w: nat) returns (table: map<int, seq<SwingPoint>>)
    requires f.Valid()
    ensures forall c :: Lookup(table, c) == SwingsAt(f, w, c - w)
  {
    var swings := FindSwingPoints(f, w);
    table := GroupByConfirmation(swings);
    forall c ensures ConfirmedAt(swings, c) == SwingsAt(f, w, c - w) {
      ConfirmedAtBar(f, w, c);
    }
  }

  // --- The pass -------------------------------------------------------

  /** The swing as the state remembers it. */
  ghost function LastHigh(f: Frame, w: nat, m: int): Option<SwingPoint> {
    match LatestPeak(f.high, w, m)
    case None => None
    case Some(p) => Some(PeakPoint(f, w, p))
  }

  ghost function LastLow(f: Frame, w: nat, m: int): Option<SwingPoint> {
    match LatestTrough(f.low, w, m)
    case None => None
    case Some(p) => Some(TroughPoint(f, w, p))
  }

  /** The trend after the swing high of bar `i`, if any, has been taken in and before its swing low. */
  ghost function MidTrend(f: Frame, w: nat, i: int): Trend {
    if HigherHigh(f, w, i) then Bullish
    else if LowerHigh(f, w, i) then Bearish
    else TrendAt(f, w, i - 1)
  }

  class State {
    var trend: Trend
    var lastHigh: Option<SwingPoint>
    var lastLow: Option<SwingPoint>
    var prevHigh: Option<SwingPoint>
    var prevLow: Option<SwingPoint>
    var resistance: Option<real>
    var support: Option<real>
    var pendingBreaks: seq<(int, Direction)>

    constructor ()
      ensures trend == Unknown && lastHigh == lastLow == None && resistance == support == None
      ensures pendingBreaks == []
    {
      trend, lastHigh, lastLow, prevHigh, prevLow := Unknown, None, None, None, None;
      resistance, support, pendingBreaks := None, None, [];
    }

    /** The state while bar `i` is taking in its swings: which of its two kinds it has had. */
    ghost predicate Taking(f: Frame, w: nat, i: int, high: bool, low: bool)
      reads this
    {
      && lastHigh == LastHigh(f, w, if high then i - w else i - w - 1)
      && resistance == ResistanceAt(f, w, if high then i else i - 1)
      && lastLow == LastLow(f, w, if low then i - w else i - w - 1)
      && support == SupportAt(f, w, if low then i else i - 1)
      && trend == (if low then TrendAt(f, w, i) else if high then MidTrend(f, w, i) else TrendAt(f, w, i - 1))
    }

    method TakeHigh(swing: SwingPoint, row: Row) returns (r: Row)
      modifies this
      ensures lastHigh == Some(swing) && prevHigh == old(lastHigh) && resistance == Some(swing.price)
      ensures lastLow == old(lastLow) && prevLow == old(prevLow) && support == old(support)
      ensures pendingBreaks == old(pendingBreaks)
      ensures var flagged := if old(lastHigh).None? then row
                             else if swing.price > old(lastHigh).value.price then row.(isHigherHigh := true)
                             else row.(isLowerHigh := true);
              trend == Turned(old(trend), flagged) && r == Noted(old(trend), flagged)
    {
      r := row;
      if lastHigh.Some? {
        if swing.price > lastHigh.value.price {
          r := r.(isHigherHigh := true);
        } else {
          r := r.(isLowerHigh := true);
        }
      }
      prevHigh, lastHigh := lastHigh, Some(swing);
      resistance := Some(swing.price);
      r := Turn(r);
    }

    method TakeLow(swing: SwingPoint, row: Row) returns (r: Row)
      modifies this
      ensures lastLow == Some(swing) && prevLow == old(lastLow) && support == Some(swing.price)
      ensures lastHigh == old(lastHigh) && prevHigh == old(prevHigh) && resistance == old(resistance)
      ensures pendingBreaks == old(pendingBreaks)
      ensures var flagged := if old(lastLow).None? then row
                             else if swing.price > old(lastLow).value.price then row.(isHigherLow := true)
                             else row.(isLowerLow := true);
              trend == Turned(old(trend), flagged) && r == Noted(old(trend), flagged)
    {
      r := row;
      if lastLow.Some? {
        if swing.price > lastLow.value.price {
          r := r.(isHigherLow := true);
        } else {
          r := r.(isLowerLow := true);
        }
      }
      prevLow, lastLow := lastLow, Some(swing);
      support := Some(swing.price);
      r := Turn(r);
    }

    /** Sets the trend from the flags raised so far on this bar, noting a change of character. */
    method Turn(row: Row) returns (r: Row)
      modifies this`trend
      ensures trend == Turned(old(trend), row) && r == Noted(old(trend), row)
    {
      var newTrend := if row.isHigherHigh || row.isHigherLow then Bullish
                      else if row.isLowerHigh || row.isLowerLow then Bearish
                      else trend;
      r := row;
      if trend != Unknown && newTrend != trend {
        r := r.(changeOfCharacter := true);
      }
      trend := newTrend;
    }

    /** All the swings that bar `i` confirms. */
    method TakeSwings(swings: seq<SwingPoint>, row: Row, ghost f: Frame, ghost w: nat, ghost i: nat)
      returns (r: Row)
      requires f.Valid() && swings == SwingsAt(f, w, i - w)
      requires Taking(f, w, i, false, false) && row == BLANK_ROW
      modifies this
      ensures Taking(f, w, i, IsPeak(f.high, w, i - w), IsTrough(f.low, w, i - w))
      ensures Flags(r, f, w, i, IsPeak(f.high, w, i - w), IsTrough(f.low, w, i - w))
      ensures pendingBreaks == old(pendingBreaks)
    {
      r := row;
      ghost var isPeak, isTrough := IsPeak(f.high, w, i - w), IsTrough(f.low, w, i - w);
      ghost var high, low := false, false;
      for k := 0 to |swings|
        invariant high == (isPeak && k > 0)
        invariant low == (isTrough && k == |swings|)
        invariant Taking(f, w, i, high, low) && Flags(r, f, w, i, high, low)
        invariant pendingBreaks == old(pendingBreaks)
      {
        ghost var before := r;
        if swings[k].kind == High {
          r := TakeHigh(swings[k], r);
          TookHigh(before, f, w, i);
          high := true;
        } else {
          r := TakeLow(swings[k], r);
          TookLow(before, f, w, i, high);
          low := true;
        }
      }
    }

    /** Compares the close with the resistance as it now stands, and queues a breakout. */
    method NoteBreakout(i: nat, close: real, row: Row) returns (r: Row)
      modifies this`pendingBreaks
      ensures r == if !IsAbove(close, resistance) then row
                   else if trend == Bullish then row.(breakout := true, breakOfStructure := true)
                   else row.(breakout := true)
      ensures pendingBreaks == old(pendingBreaks) + if IsAbove(close, resistance) then [(i, Breakout)] else []
    {
      r := row;
      if resistance.Some? && close > resistance.value {
        r := r.(breakout := true);
        if trend == Bullish {
          r := r.(breakOfStructure := true);
        }
        pendingBreaks := pendingBreaks + [(i, Breakout)];
      }
    }

    /** Compares the close with the support as it now stands, and queues a breakdown. */
    method NoteBreakdown(i: nat, close: real, row: Row) returns (r: Row)
      modifies this`pendingBreaks
      ensures r == if !IsBelow(close, support) then row
                   else if trend == Bearish then row.(breakdown := true, breakOfStructure := true)
                   else row.(breakdown := true)
      ensures pendingBreaks == old(pendingBreaks) + if IsBelow(close, support) then [(i, Breakdown)] else []
    {
      r := row;
      if support.Some? && close < support.value {
        r := r.(breakdown := true);
        if trend == Bearish {
          r := r.(breakOfStructure := true);
        }
        pendingBreaks := pendingBreaks + [(i, Breakdown)];
      }
    }

    /** Judges every break whose three bars have passed; keeps the others. */
    method ResolvePending(i: nat, f: Frame, rows: array<Row>, ghost w: nat) returns (reverted: bool)
      requires f.Valid() && i < |f.close| == rows.Length
      requires forall j :: 0 <= j < i ==> rows[j] == RowAt(f, w, j)
      requires Sound(pendingBreaks, f, w, i)
      modifies this`pendingBreaks
      ensures pendingBreaks == StillPending(old(pendingBreaks), i)
      ensures reverted == AnyReverted(old(pendingBreaks), f, w, i)
    {
      reverted := false;
      var stillPending: seq<(int, Direction)> := [];
      for k := 0 to |pendingBreaks|
        invariant pendingBreaks == old(pendingBreaks)
        invariant stillPending == StillPending(pendingBreaks[..k], i)
        invariant reverted == AnyReverted(pendingBreaks[..k], f, w, i)
      {
        assert pendingBreaks[..k + 1][..k] == pendingBreaks[..k];
        var (breakBar, direction) := pendingBreaks[k];
        assert Broke(f, w, breakBar, direction);
        if i - breakBar < FALSE_BREAKOUT_WINDOW {
          stillPending := stillPending + [(breakBar, direction)];
        } else {
          var level := if direction == Breakout then rows[breakBar].resistance else rows[breakBar].support;
          if level.Some? {
            if direction == Breakout && f.close[i] < level.value {
              reverted := true;
            }
            if direction == Breakdown && f.close[i] > level.value {
              reverted := true;
            }
          }
        }
      }
      assert pendingBreaks[..|pendingBreaks|] == pendingBreaks;
      pendingBreaks := stillPending;
    }
  }

  predicate IsAbove(close: real, level: Option<real>) {
    level.Some? && close > level.value
  }

  predicate IsBelow(close: real, level: Option<real>) {
    level.Some? && close < level.value
  }

  ghost function StillPending(breaks: seq<(int, Direction)>, i: int): seq<(int, Direction)> {
    if breaks == [] then []
    else
      var earlier, last := StillPending(breaks[..|breaks| - 1], i), breaks[|breaks| - 1];
      if i - last.0 < FALSE_BREAKOUT_WINDOW then earlier + [last] else earlier
  }

  /** A break that is due at bar `i` and that its close has undone. */
  ghost predicate Reverted(e: (int, Direction), f: Frame, w: nat, i: int)
    requires 0 <= i < |f.close|
  {
    && i - e.0 >= FALSE_BREAKOUT_WINDOW
    && Broke(f, w, e.0, e.1)
    && if e.1 == Breakout then f.close[i] < ResistanceAt(f, w, e.0).value else f.close[i] > SupportAt(f, w, e.0).value
  }

  ghost predicate AnyReverted(breaks: seq<(int, Direction)>, f: Frame, w: nat, i: int)
    requires 0 <= i < |f.close|
  {
    breaks != [] &&
    (AnyReverted(breaks[..|breaks| - 1], f, w, i) || Reverted(breaks[|breaks| - 1], f, w, i))
  }

  lemma {:induction false} ResolvingAppend(
      a: seq<(int, Direction)>, b: seq<(int, Direction)>, f: Frame, w: nat, i: int)
    requires 0 <= i < |f.close|
    ensures StillPending(a + b, i) == StillPending(a, i) + StillPending(b, i)
    ensures AnyReverted(a + b, f, w, i) <==> AnyReverted(a, f, w, i) || AnyReverted(b, f, w, i)
    decreases |b|
  {
    if b == [] {
      assert a + b == a;
    } else {
      assert (a + b)[..|a + b| - 1] == a + b[..|b| - 1];
      ResolvingAppend(a, b[..|b| - 1], f, w, i);
    }
  }

  lemma {:induction false} ResolvingOne(e: (int, Direction), f: Frame, w: nat, i: int)
    requires 0 <= i < |f.close|
    ensures StillPending([e], i) == if i - e.0 < FALSE_BREAKOUT_WINDOW then [e] else []
    ensures AnyReverted([e], f, w, i) <==> Reverted(e, f, w, i)
  {
    assert [e][..0] == [];
  }

  lemma {:induction false} ResolvingBar(f: Frame, w: nat, b: int, i: int)
    requires 0 <= i < |f.close|
    ensures StillPending(BreaksAt(f, w, b), i) == if i - b < FALSE_BREAKOUT_WINDOW then BreaksAt(f, w, b) else []
    ensures AnyReverted(BreaksAt(f, w, b), f, w, i)
            <==> Reverted((b, Breakout), f, w, i) || Reverted((b, Breakdown), f, w, i)
  {
    hide ResistanceAt, SupportAt;
    ResolvingAppend(if BreaksOut(f, w, b) then [(b, Breakout)] else [],
                    if BreaksDown(f, w, b) then [(b, Breakdown)] else [], f, w, i);
    ResolvingOne((b, Breakout), f, w, i);
    ResolvingOne((b, Breakdown), f, w, i);
  }

  ghost predicate Sound(breaks: seq<(int, Direction)>, f: Frame, w: nat, i: int) {
    forall e <- breaks :: e.0 <= i && Broke(f, w, e.0, e.1)
  }

  /** What resolving two stretches of the queue does, given what it does to each. */
  lemma {:induction false} ResolvingBoth(a: seq<(int, Direction)>, b: seq<(int, Direction)>, ra: seq<(int, Direction)>,
                      rb: seq<(int, Direction)>, f: Frame, w: nat, i: int)
    requires 0 <= i < |f.close|
    requires StillPending(a, i) == ra && StillPending(b, i) == rb
    requires Sound(a, f, w, i) && Sound(b, f, w, i)
    ensures StillPending(a + b, i) == ra + rb
    ensures AnyReverted(a + b, f, w, i) <==> AnyReverted(a, f, w, i) || AnyReverted(b, f, w, i)
    ensures Sound(a + b, f, w, i)
  {
    ResolvingAppend(a, b, f, w, i);
  }

  lemma {:induction false} SoundBar(f: Frame, w: nat, b: int, i: int)
    requires b <= i
    ensures Sound(BreaksAt(f, w, b), f, w, i)
  {
  }

  /** Resolving at bar `i` leaves the breaks of the last three bars and judges those of bar `i - 3`. */
  lemma {:induction false} ResolvingQueue(f: Frame, w: nat, i: nat)
    requires i < |f.close|
    ensures var queue := PendingAfter(f, w, i - 1) + BreaksAt(f, w, i);
            && StillPending(queue, i) == PendingAfter(f, w, i)
            && (AnyReverted(queue, f, w, i) <==> FalseBreak(f, w, i))
            && Sound(queue, f, w, i)
  {
    hide StillPending, AnyReverted, BreaksAt, Sound, FalseBreak;
    var x, y, z, n := BreaksAt(f, w, i - 3), BreaksAt(f, w, i - 2), BreaksAt(f, w, i - 1), BreaksAt(f, w, i);
    ResolvedBar(f, w, i - 3, i);
    ResolvedBar(f, w, i - 2, i);
    ResolvedBar(f, w, i - 1, i);
    ResolvedBar(f, w, i, i);
    ResolvingFour(x, y, z, n, f, w, i);
  }

  lemma {:induction false} ResolvingFour(x: seq<(int, Direction)>, y: seq<(int, Direction)>, z: seq<(int, Direction)>,
                      n: seq<(int, Direction)>, f: Frame, w: nat, i: int)
    requires 0 <= i < |f.close|
    requires StillPending(x, i) == [] && StillPending(y, i) == y && StillPending(z, i) == z && StillPending(n, i) == n
    requires Sound(x, f, w, i) && Sound(y, f, w, i) && Sound(z, f, w, i) && Sound(n, f, w, i)
    ensures var queue := x + y + z + n;
            && StillPending(queue, i) == y + z + n
            && (AnyReverted(queue, f, w, i) <==>
                || AnyReverted(x, f, w, i) || AnyReverted(y, f, w, i)
                || AnyReverted(z, f, w, i) || AnyReverted(n, f, w, i))
            && Sound(queue, f, w, i)
  {
    hide StillPending, AnyReverted, Sound;
    assert [] + y == y;
    ResolvingBoth(x, y, [], y, f, w, i);
    ResolvingBoth(x + y, z, y, z, f, w, i);
    ResolvingBoth(x + y + z, n, y + z, n, f, w, i);
  }

  lemma {:induction false} ResolvedBar(f: Frame, w: nat, b: int, i: int)
    requires 0 <= i < |f.close| && i - 3 <= b <= i
    ensures StillPending(BreaksAt(f, w, b), i) == if b == i - 3 then [] else BreaksAt(f, w, b)
    ensures AnyReverted(BreaksAt(f, w, b), f, w, i) <==> b == i - 3 && FalseBreak(f, w, i)
    ensures Sound(BreaksAt(f, w, b), f, w, i)
  {
    hide StillPending, AnyReverted, BreaksAt, Sound, ResistanceAt, SupportAt;
    ResolvingBar(f, w, b, i);
    SoundBar(f, w, b, i);
  }

  /** The trend once the flags of a row have been acted on. */
  function Turned(trend: Trend, row: Row): Trend {
    if row.isHigherHigh || row.isHigherLow then Bullish
    else if row.isLowerHigh || row.isLowerLow then Bearish
    else trend
  }

  function Noted(trend: Trend, row: Row): Row {
    if trend != Unknown && Turned(trend, row) != trend then row.(changeOfCharacter := true) else row
  }

  /** The swing columns of bar `i` while it is taking in its swings; the rest is still blank. */
  ghost predicate Flags(row: Row, f: Frame, w: nat, i: int, high: bool, low: bool) {
    && row == BLANK_ROW.(
         isHigherHigh := high && HigherHigh(f, w, i), isLowerHigh := high && LowerHigh(f, w, i),
         isHigherLow := low && HigherLow(f, w, i), isLowerLow := low && LowerLow(f, w, i),
         changeOfCharacter := row.changeOfCharacter)
    && row.changeOfCharacter == (
         || (high && TrendAt(f, w, i - 1) != Unknown && MidTrend(f, w, i) != TrendAt(f, w, i - 1))
         || (low && MidTrend(f, w, i) != Unknown && TrendAt(f, w, i) != MidTrend(f, w, i)))
  }

  ghost function WithHigh(row: Row, f: Frame, w: nat, i: int): Row {
    row.(isHigherHigh := HigherHigh(f, w, i), isLowerHigh := LowerHigh(f, w, i))
  }

  ghost function WithLow(row: Row, f: Frame, w: nat, i: int): Row {
    row.(isHigherLow := HigherLow(f, w, i), isLowerLow := LowerLow(f, w, i))
  }

  /** What taking in the swing high of bar `i` does to the flags and the trend. */
  lemma {:induction false} TookHigh(row: Row, f: Frame, w: nat, i: nat)
    requires f.Valid() && IsPeak(f.high, w, i - w) && Flags(row, f, w, i, false, false)
    ensures LastHigh(f, w, i - w) == Some(PeakPoint(f, w, i - w)) && ResistanceAt(f, w, i) == Some(f.high[i - w])
    ensures var last := LastHigh(f, w, i - w - 1);
            WithHigh(row, f, w, i) == if last.None? then row
                                      else if f.high[i - w] > last.value.price then row.(isHigherHigh := true)
                                      else row.(isLowerHigh := true)
    ensures Turned(TrendAt(f, w, i - 1), WithHigh(row, f, w, i)) == MidTrend(f, w, i)
    ensures Flags(Noted(TrendAt(f, w, i - 1), WithHigh(row, f, w, i)), f, w, i, true, false)
  {
  }

  /** What taking in the swing low of bar `i` does to the flags and the trend. */
  lemma {:induction false} TookLow(row: Row, f: Frame, w: nat, i: nat, high: bool)
    requires f.Valid() && IsTrough(f.low, w, i - w)
    requires high == IsPeak(f.high, w, i - w) && Flags(row, f, w, i, high, false)
    ensures LastLow(f, w, i - w) == Some(TroughPoint(f, w, i - w)) && SupportAt(f, w, i) == Some(f.low[i - w])
    ensures var last := LastLow(f, w, i - w - 1);
            WithLow(row, f, w, i) == if last.None? then row
                                     else if f.low[i - w] > last.value.price then row.(isHigherLow := true)
                                     else row.(isLowerLow := true)
    ensures var before := if high then MidTrend(f, w, i) else TrendAt(f, w, i - 1);
            && Turned(before, WithLow(row, f, w, i)) == TrendAt(f, w, i)
            && Flags(Noted(before, WithLow(row, f, w, i)), f, w, i, high, true)
  {
    assert !high ==> MidTrend(f, w, i) == TrendAt(f, w, i - 1);
  }

  /** Once bar `i` has had all its swings, its flags are final and bar `i + 1` may start. */
  lemma {:induction false} TookAll(row: Row, f: Frame, w: nat, i: nat)
    requires f.Valid() && Flags(row, f, w, i, IsPeak(f.high, w, i - w), IsTrough(f.low, w, i - w))
    ensures row == BLANK_ROW.(
              isHigherHigh := HigherHigh(f, w, i), isLowerHigh := LowerHigh(f, w, i),
              isHigherLow := HigherLow(f, w, i), isLowerLow := LowerLow(f, w, i),
              changeOfCharacter := ChangesCharacter(f, w, i))
  {
  }

  lemma {:induction false} LevelsCarryOver(f: Frame, w: nat, i: nat)
    ensures !IsPeak(f.high, w, i - w) ==> LastHigh(f, w, i - w) == LastHigh(f, w, i - w - 1)
    ensures !IsPeak(f.high, w, i - w) ==> ResistanceAt(f, w, i) == ResistanceAt(f, w, i - 1)
    ensures !IsTrough(f.low, w, i - w) ==> LastLow(f, w, i - w) == LastLow(f, w, i - w - 1)
    ensures !IsTrough(f.low, w, i - w) ==> SupportAt(f, w, i) == SupportAt(f, w, i - 1)
    ensures !IsTrough(f.low, w, i - w) ==> TrendAt(f, w, i) == MidTrend(f, w, i)
    ensures !IsPeak(f.high, w, i - w) ==> MidTrend(f, w, i) == TrendAt(f, w, i - 1)
  {
  }

  /** The row of bar `i` with its swings taken in and its levels noted, before any break. */
  ghost function Unbroken(f: Frame, w: nat, i: nat): Row {
    BLANK_ROW.(
      trend := TrendAt(f, w, i), resistance := ResistanceAt(f, w, i), support := SupportAt(f, w, i),
      isHigherHigh := HigherHigh(f, w, i), isLowerHigh := LowerHigh(f, w, i),
      isHigherLow := HigherLow(f, w, i), isLowerLow := LowerLow(f, w, i),
      changeOfCharacter := ChangesCharacter(f, w, i))
  }

  /** Step 1 of a bar: the swings newly confirmed at it. */
  method TakeBar(state: State, ghost f: Frame, ghost w: nat, ghost i: nat, swings: seq<SwingPoint>, blank: Row)
    returns (row: Row)
    requires f.Valid() && swings == SwingsAt(f, w, i - w) && blank == BLANK_ROW
    requires state.Taking(f, w, i, false, false)
    modifies state
    ensures state.Taking(f, w, i + 1, false, false) && state.pendingBreaks == old(state.pendingBreaks)
    ensures row == Unbroken(f, w, i)
  {
    row := state.TakeSwings(swings, blank, f, w, i);
    TookAll(row, f, w, i);
    LevelsCarryOver(f, w, i);
    row := row.(trend := state.trend, resistance := state.resistance, support := state.support);
  }

  /** Step 2 of a bar: breaks of the levels as they stand. */
  method NoteBreaks(state: State, f: Frame, ghost w: nat, i: nat, row: Row) returns (r: Row)
    requires f.Valid() && i < |f.close| && row == Unbroken(f, w, i)
    requires state.Taking(f, w, i + 1, false, false)
    modifies state`pendingBreaks
    ensures state.pendingBreaks == old(state.pendingBreaks) + BreaksAt(f, w, i)
    ensures r == RowAt(f, w, i).(falseBreakout := false)
  {
    r := state.NoteBreakout(i, f.close[i], row);
    r := state.NoteBreakdown(i, f.close[i], r);
    assert state.pendingBreaks == old(state.pendingBreaks) + BreaksAt(f, w, i);
  }

  /** One bar of the pass. */
  method ComputeBar(state: State, f: Frame, ghost w: nat, i: nat, swings: seq<SwingPoint>, rows: array<Row>)
    requires f.Valid() && i < |f.close| == rows.Length
    requires swings == SwingsAt(f, w, i - w)
    requires state.Taking(f, w, i, false, false) && state.pendingBreaks == PendingAfter(f, w, i - 1)
    requires forall j :: 0 <= j < i ==> rows[j] == RowAt(f, w, j)
    requires rows[i] == BLANK_ROW
    modifies state, rows
    ensures state.Taking(f, w, i + 1, false, false) && state.pendingBreaks == PendingAfter(f, w, i)
    ensures rows[i] == RowAt(f, w, i)
    ensures forall j :: 0 <= j < rows.Length && j != i ==> rows[j] == old(rows[j])
  {
    hide RowAt, BreaksAt, FalseBreak, AnyReverted, StillPending, Sound, Unbroken;
    var row := TakeBar(state, f, w, i, swings, rows[i]);
    row := NoteBreaks(state, f, w, i, row);
    ResolvingQueue(f, w, i);
    var reverted := state.ResolvePending(i, f, rows, w);
    RowIsComplete(f, w, i, row, reverted);
    rows[i] := if reverted then row.(falseBreakout := true) else row;
  }

  lemma {:induction false} NothingIsPendingAtFirst(f: Frame, w: nat)
    ensures PendingAfter(f, w, -1) == []
  {
    hide ResistanceAt, SupportAt;
  }

  lemma {:induction false} RowIsComplete(f: Frame, w: nat, i: nat, row: Row, reverted: bool)
    requires i < |f.close| && row == RowAt(f, w, i).(falseBreakout := false) && reverted == FalseBreak(f, w, i)
    ensures RowAt(f, w, i) == if reverted then row.(falseBreakout := true) else row
  {
    hide FalseBreak, BreaksOut, BreaksDown, TrendAt, ChangesCharacter, ResistanceAt, SupportAt;
  }

  lemma {:induction false} PrefixesAgree(f: Frame, w: nat, rows: seq<Row>)
    requires f.Valid() && |rows| == |f.close|
    requires forall i :: 0 <= i < |rows| ==> rows[i] == RowAt(f, w, i)
    ensures forall k, i :: 0 <= i < k <= |rows| ==> rows[i] == RowAt(f.Prefix(k), w, i)
  {
    forall k, i | 0 <= i < k <= |rows| ensures rows[i] == RowAt(f.Prefix(k), w, i) {
      RowsAreCausal(f, w, k, i);
    }
  }

  lemma {:induction false} RowsFollowPrices(f: Frame, w: nat, rows: seq<Row>)
    requires f.Valid() && |rows| == |f.close|
    requires forall i :: 0 <= i < |rows| ==> rows[i] == RowAt(f, w, i)
    ensures forall i :: 0 <= i < |rows| ==> FollowsPrices(f, w, i, rows[i])
  {
    hide RowAt, FollowsPrices;
    forall i | 0 <= i < |rows| ensures FollowsPrices(f, w, i, rows[i]) {
      RowFollowsPrices(f, w, i);
    }
  }

  /** The single forward pass: every row says of its bar what the prices up to it do, and nothing later. */
  method ComputeAll(f: Frame, w: nat := SWING_WINDOW) returns (rows: array<Row>)
    requires f.Valid()
    ensures fresh(rows) && rows.Length == |f.close|
    ensures forall i :: 0 <= i < rows.Length ==> rows[i] == RowAt(f, w, i)
    ensures forall k, i :: 0 <= i < k <= rows.Length ==> rows[..][i] == RowAt(f.Prefix(k), w, i)
    ensures forall i :: 0 <= i < rows.Length ==> FollowsPrices(f, w, i, rows[..][i])
  {
    hide RowAt, PendingAfter, SwingsAt, FollowsPrices;
    NothingIsPendingAtFirst(f, w);
    var n := |f.close|;
    var table := SwingsByConfirmation(f, w);
    rows := new Row[n](_ => BLANK_ROW);
    var state := new State();
    for i := 0 to n
      invariant state.Taking(f, w, i, false, false) && state.pendingBreaks == PendingAfter(f, w, i - 1)
      invariant forall j :: 0 <= j < i ==> rows[j] == RowAt(f, w, j)
      invariant forall j :: i <= j < n ==> rows[j] == BLANK_ROW
    {
      ComputeBar(state, f, w, i, Lookup(table, i), rows);
    }
    PrefixesAgree(f, w, rows[..]);
    RowsFollowPrices(f, w, rows[..]);
  }
}
