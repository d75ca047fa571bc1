/** What an archival call reports and touches, month by month and row by row. */
module ArchivalReports {
  import opened Archival

  /** The order of moments is that of their fields. */
  lemma BeforeIsByFields(a: Moment, b: Moment)
    ensures Before(a, b)
       <==> || a.year < b.year
            || (a.year == b.year && (a.month < b.month || (a.month == b.month && a.micros < b.micros)))
  {
  }

  /** The row a call over [from, end) is about, spelled out. */
  predicate Asked(k: Key, scope: Scope, from: Moment, end: Moment) {
    k.instrument == scope.instrument && k.series == scope.series && !Before(k.time, from) && Before(k.time, end)
  }

  // ----- the rows -----

  /** A call moves exactly the rows of its instrument, its series and its range whose
      path reads back, each to the path of its venue, symbol, year and month; every
      other row of the table stays where it was. */
  lemma CallMoves(s: State, scope: Scope, from: Moment, end: Moment, faulty: iset<Path>, k: Key)
    ensures var after := ArchiveAll(s, scope, Cut(from, end), faulty);
            var path := Path(scope.venue, scope.symbol, k.time.year, k.time.month);
            var moves := && k.instrument == scope.instrument && k.series == scope.series
                         && !Before(k.time, from) && Before(k.time, end) && path !in faulty;
            && (k in after.table <==> k in s.table && !moves)
            && (k in after.table ==> after.table[k] == s.table[k])
            && (k in s.table && moves ==>
                  path in after.files && after.files[path].Parquet? && k in after.files[path].rows
                  && after.files[path].rows[k] == s.table[k])
  {
    hide ArchiveAll;
    hide Cut;
    ArchiveCandlesConservesRows(s, scope, from, end, faulty, k);
  }

  // ----- the reports -----

  /** The rows of one month that a call is about. */
  function RowsOfMonth(table: Rows, scope: Scope, from: Moment, end: Moment, year: int, month: int): set<Key> {
    set k | k in table && Asked(k, scope, from, end) && k.time.year == year && k.time.month == month
  }

  predicate Reported(table: Rows, scope: Scope, from: Moment, end: Moment, faulty: iset<Path>, r: PartitionResult) {
    var rows := RowsOfMonth(table, scope, from, end, r.year, r.month);
    && 1 <= r.month <= 12
    && rows != {} && r.rowCount == |rows|
    && r.deleted == r.checksumOk
    && (r.checksumOk <==> Path(scope.venue, scope.symbol, r.year, r.month) !in faulty)
  }

  function MonthOf(r: PartitionResult): int {
    12 * r.year + r.month
  }

  /** Each report is right, and they go by month. */
  predicate RightReports(table: Rows, scope: Scope, from: Moment, end: Moment, faulty: iset<Path>,
                         rs: seq<PartitionResult>)
  {
    && (forall i :: 0 <= i < |rs| ==>
          Reported(table, scope, from, end, faulty, rs[i]) && MonthNumber(from) <= MonthOf(rs[i]))
    && (forall i, j :: 0 <= i < j < |rs| ==> MonthOf(rs[i]) < MonthOf(rs[j]))
  }

  predicate HasMonth(rs: seq<PartitionResult>, t: Moment) {
    exists i :: 0 <= i < |rs| && rs[i].year == t.year && rs[i].month == t.month
  }

  /** No month is left out. */
  ghost predicate Complete(table: Rows, scope: Scope, from: Moment, end: Moment, rs: seq<PartitionResult>) {
    forall k :: k in table && Asked(k, scope, from, end) ==> HasMonth(rs, k.time)
  }

  /** The first window selects the rows of its month. */
  lemma FirstWindowIsItsMonth(table: Rows, scope: Scope, ws: seq<Window>, from: Moment, end: Moment)
    requires Tiles(ws, from, end) && ws != []
    ensures Selected(table, scope, ws[0]).Keys == RowsOfMonth(table, scope, from, end, from.year, from.month)
    ensures |Selected(table, scope, ws[0])| == |RowsOfMonth(table, scope, from, end, from.year, from.month)|
  {
    var rows := Selected(table, scope, ws[0]);
    forall k ensures k in rows <==> k in RowsOfMonth(table, scope, from, end, from.year, from.month) {
      if Within(k.time, ws[0]) {
        SameMonth(k.time, ws[0]);
      }
    }
    assert rows.Keys == RowsOfMonth(table, scope, from, end, from.year, from.month);
  }

  /** What the call is still about once the first window is done. */
  lemma RestOfCall(s: State, scope: Scope, ws: seq<Window>, from: Moment, end: Moment, faulty: iset<Path>, k: Key)
    requires Tiles(ws, from, end) && ws != []
    ensures var next := ArchiveWindow(s, scope, ws[0], faulty);
            && (k in next.table && Asked(k, scope, ws[0].1, end)
                <==> k in s.table && Asked(k, scope, from, end) && !Within(k.time, ws[0]))
            && (Within(k.time, ws[0]) ==> k.time.year == from.year && k.time.month == from.month)
            && (Asked(k, scope, from, end) && MonthNumber(k.time) > MonthNumber(from) ==> !Within(k.time, ws[0]))
  {
    hide ArchiveWindow;
    OneWindow(s, scope, ws[0], faulty, k);
    if Within(k.time, ws[0]) {
      SameMonth(k.time, ws[0]);
    }
  }

  lemma ReportedLater(s: State, scope: Scope, ws: seq<Window>, from: Moment, end: Moment, faulty: iset<Path>,
                      r: PartitionResult)
    requires Tiles(ws, from, end) && ws != [] && ws[1..] != [] && MonthNumber(ws[0].1) <= MonthOf(r)
    requires Reported(ArchiveWindow(s, scope, ws[0], faulty).table, scope, ws[0].1, end, faulty, r)
    ensures Reported(s.table, scope, from, end, faulty, r) && MonthNumber(from) < MonthOf(r)
  {
    hide ArchiveWindow;
    hide Asked;
    var next := ArchiveWindow(s, scope, ws[0], faulty);
    forall k
      ensures k in RowsOfMonth(next.table, scope, ws[0].1, end, r.year, r.month)
              <==> k in RowsOfMonth(s.table, scope, from, end, r.year, r.month)
    {
      RestOfCall(s, scope, ws, from, end, faulty, k);
    }
    assert RowsOfMonth(next.table, scope, ws[0].1, end, r.year, r.month)
        == RowsOfMonth(s.table, scope, from, end, r.year, r.month);
  }

  lemma FirstReport(s: State, scope: Scope, ws: seq<Window>, from: Moment, end: Moment, faulty: iset<Path>)
    requires Tiles(ws, from, end) && ws != []
    ensures var rs := ResultOf(s, scope, ws[0], faulty);
            && |rs| <= 1
            && (rs != [] ==> Reported(s.table, scope, from, end, faulty, rs[0]) && MonthOf(rs[0]) == MonthNumber(from)
                             && rs[0].year == from.year && rs[0].month == from.month)
            && (rs == [] ==> RowsOfMonth(s.table, scope, from, end, from.year, from.month) == {})
  {
    hide Selected;
    hide RowsOfMonth;
    FirstWindowIsItsMonth(s.table, scope, ws, from, end);
  }

  lemma RightJoin(s: State, scope: Scope, ws: seq<Window>, from: Moment, end: Moment, faulty: iset<Path>,
                  rest: seq<PartitionResult>)
    requires Tiles(ws, from, end) && ws != [] && (ws[1..] == [] ==> rest == [])
    requires RightReports(ArchiveWindow(s, scope, ws[0], faulty).table, scope, ws[0].1, end, faulty, rest)
    ensures RightReports(s.table, scope, from, end, faulty, ResultOf(s, scope, ws[0], faulty) + rest)
  {
    hide ArchiveWindow;
    hide ResultOf;
    hide Reported;
    hide Tiles;
    hide MonthNumber;
    var first := ResultOf(s, scope, ws[0], faulty);
    FirstReport(s, scope, ws, from, end, faulty);
    forall i | 0 <= i < |rest|
      ensures Reported(s.table, scope, from, end, faulty, rest[i]) && MonthNumber(from) < MonthOf(rest[i])
    {
      ReportedLater(s, scope, ws, from, end, faulty, rest[i]);
    }
  }

  lemma CompleteJoin(s: State, scope: Scope, ws: seq<Window>, from: Moment, end: Moment, faulty: iset<Path>,
                     rest: seq<PartitionResult>)
    requires Tiles(ws, from, end) && ws != []
    requires Complete(ArchiveWindow(s, scope, ws[0], faulty).table, scope, ws[0].1, end, rest)
    ensures Complete(s.table, scope, from, end, ResultOf(s, scope, ws[0], faulty) + rest)
  {
    hide ArchiveWindow;
    hide ResultOf;
    hide Asked;
    hide Tiles;
    hide HasMonth;
    hide RowsOfMonth;
    hide Reported;
    var first := ResultOf(s, scope, ws[0], faulty);
    FirstReport(s, scope, ws, from, end, faulty);
    forall k | k in s.table && Asked(k, scope, from, end) ensures HasMonth(first + rest, k.time) {
      RestOfCall(s, scope, ws, from, end, faulty, k);
      if Within(k.time, ws[0]) {
        InItsMonth(s.table, scope, from, end, k);
      }
      MonthOfEither(first, rest, k.time);
    }
  }

  lemma MonthOfEither(a: seq<PartitionResult>, b: seq<PartitionResult>, t: Moment)
    ensures a != [] && a[0].year == t.year && a[0].month == t.month ==> HasMonth(a + b, t)
    ensures HasMonth(b, t) ==> HasMonth(a + b, t)
  {
    if a != [] && a[0].year == t.year && a[0].month == t.month {
      assert (a + b)[0] == a[0];
    }
    if HasMonth(b, t) {
      var i :| 0 <= i < |b| && b[i].year == t.year && b[i].month == t.month;
      assert (a + b)[|a| + i] == b[i];
    }
  }

  lemma {:induction false} ResultsReport(s: State, scope: Scope, ws: seq<Window>, from: Moment, end: Moment,
                                         faulty: iset<Path>)
    requires Tiles(ws, from, end)
    ensures RightReports(s.table, scope, from, end, faulty, Results(s, scope, ws, faulty))
    ensures Complete(s.table, scope, from, end, Results(s, scope, ws, faulty))
    decreases |ws|
  {
    hide ArchiveWindow;
    hide ResultOf;
    hide RightReports;
    hide Complete;
    if ws == [] {
      NothingAsked(s, scope, from, end, faulty);
    } else {
      var next := ArchiveWindow(s, scope, ws[0], faulty);
      var rest := Results(next, scope, ws[1..], faulty);
      ResultsReport(next, scope, ws[1..], ws[0].1, end, faulty);
      RightJoin(s, scope, ws, from, end, faulty, rest);
      CompleteJoin(s, scope, ws, from, end, faulty, rest);
    }
  }

  lemma NothingAsked(s: State, scope: Scope, from: Moment, end: Moment, faulty: iset<Path>)
    requires !Before(from, end)
    ensures RightReports(s.table, scope, from, end, faulty, []) && Complete(s.table, scope, from, end, [])
  {
  }

  lemma InItsMonth(table: Rows, scope: Scope, from: Moment, end: Moment, k: Key)
    requires k in table && Asked(k, scope, from, end)
    ensures k in RowsOfMonth(table, scope, from, end, k.time.year, k.time.month)
  {
  }

  /** A call reports, in calendar order, exactly the months it finds rows of its
      instrument, series and range for: how many there are, and that they were
      deleted if and only if the month's path read back. */
  lemma CallReports(s: State, scope: Scope, from: Moment, end: Moment, faulty: iset<Path>)
    ensures var rs := Results(s, scope, Cut(from, end), faulty);
            && (forall i, j :: 0 <= i < j < |rs| ==> 12 * rs[i].year + rs[i].month < 12 * rs[j].year + rs[j].month)
            && (forall k :: k in s.table && k.instrument == scope.instrument && k.series == scope.series
                            && !Before(k.time, from) && Before(k.time, end) ==>
                  exists i :: 0 <= i < |rs| && rs[i].year == k.time.year && rs[i].month == k.time.month)
            && (forall i :: 0 <= i < |rs| ==>
                  var rows := set k | && k in s.table && k.instrument == scope.instrument && k.series == scope.series
                                      && !Before(k.time, from) && Before(k.time, end)
                                      && k.time.year == rs[i].year && k.time.month == rs[i].month;
                  && rows != {} && rs[i].rowCount == |rows|
                  && (rs[i].checksumOk <==> Path(scope.venue, scope.symbol, rs[i].year, rs[i].month) !in faulty)
                  && (rs[i].deleted <==> Path(scope.venue, scope.symbol, rs[i].year, rs[i].month) !in faulty))
  {
    hide Results;
    hide Cut;
    hide Before;
    CutTiles(from, end);
    ResultsReport(s, scope, Cut(from, end), from, end, faulty);
    var rs := Results(s, scope, Cut(from, end), faulty);
    forall i | 0 <= i < |rs|
      ensures (set k | && k in s.table && k.instrument == scope.instrument && k.series == scope.series
                       && !Before(k.time, from) && Before(k.time, end)
                       && k.time.year == rs[i].year && k.time.month == rs[i].month)
           == RowsOfMonth(s.table, scope, from, end, rs[i].year, rs[i].month)
    {
    }
    forall k | k in s.table && k.instrument == scope.instrument && k.series == scope.series
               && !Before(k.time, from) && Before(k.time, end)
      ensures exists i :: 0 <= i < |rs| && rs[i].year == k.time.year && rs[i].month == k.time.month
    {
      assert Asked(k, scope, from, end);
      assert HasMonth(rs, k.time);
    }
  }
}
