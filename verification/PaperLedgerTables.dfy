/** How the tables, and the portfolio rebuilt from them, follow each action. */
module PaperLedgerTables {
  import opened Wrappers
  import opened Sums
  import opened Sorting
  import opened Books
  import opened PaperLedger

  // --- The open rows ----------------------------------------------------

  lemma {:induction false} OpenRowsAppend(rows: seq<PositionRow>, row: PositionRow)
    ensures OpenRows(rows + [row]) == OpenRows(rows) + if row.isOpen then [row] else []
  {
    assert (rows + [row])[..|rows|] == rows;
  }

  lemma {:induction false} OpenRowsConcat(a: seq<PositionRow>, b: seq<PositionRow>)
    ensures OpenRows(a + b) == OpenRows(a) + OpenRows(b)
    decreases |b|
  {
    if b == [] {
      assert a + b == a;
    } else {
      var init, last := b[..|b| - 1], b[|b| - 1];
      OpenRowsConcat(a, init);
      assert a + b == (a + init) + [last];
      OpenRowsAppend(a + init, last);
    }
  }

  lemma {:induction false} OpenRowsAround(rows: seq<PositionRow>, i: nat, row: PositionRow)
    requires i < |rows|
    ensures OpenRows(rows[i := row])
            == OpenRows(rows[..i]) + (if row.isOpen then [row] else []) + OpenRows(rows[i + 1..])
  {
    hide OpenRows;
    assert rows[i := row] == (rows[..i] + [row]) + rows[i + 1..];
    OpenRowsConcat(rows[..i] + [row], rows[i + 1..]);
    OpenRowsAppend(rows[..i], row);
  }

  lemma {:induction false} OpenRowsOfPrefix(rows: seq<PositionRow>, i: nat)
    requires i < |rows| && rows[i].isOpen
    ensures |OpenRows(rows[..i])| < |OpenRows(rows)| && OpenRows(rows)[|OpenRows(rows[..i])|] == rows[i]
  {
    hide OpenRows;
    OpenRowsAround(rows, i, rows[i]);
    assert rows[i := rows[i]] == rows;
  }

  /** Closing one row takes it out of the open ones; changing one changes it among them. */
  lemma {:induction false} OpenRowsUpdate(rows: seq<PositionRow>, i: nat, row: PositionRow)
    requires i < |rows| && rows[i].isOpen
    ensures |OpenRows(rows[..i])| < |OpenRows(rows)|
    ensures var k, all := |OpenRows(rows[..i])|, OpenRows(rows);
            OpenRows(rows[i := row]) == if row.isOpen then all[k := row] else all[..k] + all[k + 1..]
  {
    hide OpenRows;
    OpenRowsAround(rows, i, row);
    OpenRowsAround(rows, i, rows[i]);
    assert rows[i := rows[i]] == rows;
    ReplacedInTheMiddle(OpenRows(rows[..i]), rows[i], OpenRows(rows[i + 1..]), row);
  }

  lemma {:induction false} ReplacedInTheMiddle(a: seq<PositionRow>, x: PositionRow, b: seq<PositionRow>, y: PositionRow)
    ensures (a + [x] + b)[|a| := y] == a + [y] + b
    ensures (a + [x] + b)[..|a|] + (a + [x] + b)[|a| + 1..] == a + [] + b
  {
  }

  // --- From rows to positions -------------------------------------------

  function AsPositions(rows: seq<PositionRow>): (r: seq<Position>)
    ensures |r| == |rows|
    ensures forall i :: 0 <= i < |r| ==> r[i] == PositionOf(rows[i])
  {
    seq(|rows|, i requires 0 <= i < |rows| => PositionOf(rows[i]))
  }

  ghost predicate OneASymbol(rows: seq<PositionRow>) {
    DistinctSymbols(AsPositions(rows))
  }

  lemma {:induction false} TheLastIsNew(rows: seq<PositionRow>)
    requires OneASymbol(rows) && rows != []
    ensures var init, last := rows[..|rows| - 1], rows[|rows| - 1];
            && OneASymbol(init) && Find(AsPositions(init), last.symbol).None?
            && AsPositions(rows) == AsPositions(init) + [PositionOf(last)]
  {
    var n := |rows| - 1;
    assert AsPositions(rows[..n]) == AsPositions(rows)[..n];
    assert forall i :: 0 <= i < n ==> AsPositions(rows)[i].symbol != AsPositions(rows)[n].symbol;
  }

  lemma {:induction false} RowsBecomePositions(rows: seq<PositionRow>)
    requires OneASymbol(rows)
    ensures PositionsOf(rows) == AsPositions(rows)
    decreases |rows|
  {
    hide OneASymbol, Find;
    if rows != [] {
      TheLastIsNew(rows);
      RowsBecomePositions(rows[..|rows| - 1]);
    }
  }

  lemma {:induction false} FindInLonger(ps: seq<Position>, p: Position, symbol: string)
    ensures Find(ps + [p], symbol) == if p.symbol == symbol then Some(|ps|) else Find(ps, symbol)
  {
    assert (ps + [p])[..|ps|] == ps;
  }

  lemma {:induction false} AsPositionsAppend(rows: seq<PositionRow>, row: PositionRow)
    ensures AsPositions(rows + [row]) == AsPositions(rows) + [PositionOf(row)]
  {
  }

  /** The position found in the rebuilt portfolio is that of the row found in the table. */
  lemma {:induction false} FindMatches(rows: seq<PositionRow>, symbol: string)
    ensures var at := OpenRowAt(rows, symbol);
            Find(AsPositions(OpenRows(rows)), symbol)
            == if at.None? then None else Some(|OpenRows(rows[..at.value])|)
    decreases |rows|
  {
    hide AsPositions, Find;
    if rows == [] {
      FindInNothing(symbol);
    } else {
      var init, last := rows[..|rows| - 1], rows[|rows| - 1];
      FindMatches(init, symbol);
      var at := OpenRowAt(init, symbol);
      if at.Some? {
        assert init[..at.value] == rows[..at.value];
      }
      if last.isOpen {
        AsPositionsAppend(OpenRows(init), last);
        FindInLonger(AsPositions(OpenRows(init)), PositionOf(last), symbol);
      } else {
        assert OpenRows(rows) == OpenRows(init);
      }
    }
  }

  lemma {:induction false} FindInNothing(symbol: string)
    ensures Find(AsPositions([]), symbol).None?
  {
  }

  lemma {:induction false} WithoutKeepsOne(rows: seq<PositionRow>, k: nat)
    requires OneASymbol(rows) && k < |rows|
    ensures OneASymbol(rows[..k] + rows[k + 1..])
    ensures AsPositions(rows[..k] + rows[k + 1..]) == Without(AsPositions(rows), k)
  {
  }

  lemma {:induction false} ChangedKeepsOne(rows: seq<PositionRow>, k: nat, row: PositionRow)
    requires OneASymbol(rows) && k < |rows| && row.symbol == rows[k].symbol
    ensures OneASymbol(rows[k := row])
    ensures AsPositions(rows[k := row]) == AsPositions(rows)[k := PositionOf(row)]
  {
  }

  lemma {:induction false} AddedKeepsOne(rows: seq<PositionRow>, row: PositionRow)
    requires OneASymbol(rows) && Find(AsPositions(rows), row.symbol).None?
    ensures OneASymbol(rows + [row])
    ensures AsPositions(rows + [row]) == AsPositions(rows) + [PositionOf(row)]
  {
    forall i | 0 <= i < |rows| ensures rows[i].symbol != row.symbol {
      assert AsPositions(rows)[i] in AsPositions(rows);
    }
  }

  // --- The ledger of trades ---------------------------------------------

  /** Each trade is closed after the one before it. */
  ghost predicate InExitOrder(trades: seq<Trade>) {
    forall i, j :: 0 <= i < j < |trades| ==> trades[i].exitTime < trades[j].exitTime
  }

  lemma {:induction false} LastExitsAreInThePast(trades: seq<Trade>, now: int)
    requires forall t <- trades :: t.exitTime < now
    ensures forall s <- LastExitTimes(trades) :: LastExitTimes(trades)[s] < now
    decreases |trades|
  {
    if trades != [] {
      LastExitsAreInThePast(trades[..|trades| - 1], now);
    }
  }

  lemma {:induction false} LastExitIsTheLatest(trades: seq<Trade>, t: Trade)
    requires forall u <- trades :: u.exitTime < t.exitTime
    ensures LastExitTimes(trades + [t]) == LastExitTimes(trades)[t.symbol := t.exitTime]
  {
    LastExitsAreInThePast(trades, t.exitTime);
    assert (trades + [t])[..|trades|] == trades;
  }

  /** Tables that opens, closes and monitoring keep: one open row a symbol, trades in order of exit. */
  ghost predicate WellKept(tables: Tables) {
    OneASymbol(OpenRows(tables.positions)) && InExitOrder(tables.trades)
  }

  /** Whatever order the rows are in, the loaded trades are all of them, by exit time. */
  lemma {:induction false} LoadedTradesAreChronological(trades: seq<Trade>)
    ensures SortedBy(ClosedTrades(trades), ExitTime) && multiset(ClosedTrades(trades)) == multiset(trades)
  {
    StableSortSorts(trades, ExitTime);
  }

  lemma {:induction false} OrderedTradesStayInOrder(trades: seq<Trade>)
    requires InExitOrder(trades)
    ensures ClosedTrades(trades) == trades
  {
    hide StableSort;
    StableSortOfSorted(trades, ExitTime);
  }

  /** The rebuilt portfolio of well kept tables, without the dictionary and the sort. */
  lemma {:induction false} RebuiltIs(settings: Settings, tables: Tables)
    requires WellKept(tables)
    ensures var v, rows := Rebuilt(settings, tables), OpenRows(tables.positions);
            && v.book.positions == AsPositions(rows)
            && v.book.closed == tables.trades
            && v.book.initialBalance == settings.initialBalance
            && v.book.realisedPnl == SumOf(tables.trades, NetPnl)
            && v.book.cash == settings.initialBalance + v.book.realisedPnl - SumOf(rows, CommittedBy)
            && v.book.totalFees == SumOf(tables.trades, FeesOf) + SumOf(AsPositions(rows), FeesPaid)
            && v.lastExit == LastExitTimes(tables.trades) && v.rejectedCount == 0
  {
    hide SumOf, OneASymbol, InExitOrder, PositionsOf, AsPositions, ClosedTrades;
    RowsBecomePositions(OpenRows(tables.positions));
    OrderedTradesStayInOrder(tables.trades);
  }
}
