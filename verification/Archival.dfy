/** Month-partitioned archival with verified deletion
    (infrastructure/jobs/parquet_archival_job.py). */
module Archival {
  import opened Common

  // ----- calendar -----

  /** A UTC datetime: year, month 1..12, and microseconds into the month. */
  datatype Stamp = Stamp(year: int, month: int, micros: nat)

  type Moment = s: Stamp | 1 <= s.month <= 12 witness Stamp(2024, 1, 0)

  function MonthNumber(t: Moment): int {
    12 * t.year + t.month
  }

  predicate Before(a: Moment, b: Moment) {
    MonthNumber(a) < MonthNumber(b) || (MonthNumber(a) == MonthNumber(b) && a.micros < b.micros)
  }

  function MonthStart(t: Moment): Moment {
    t.(micros := 0)
  }

  function NextMonth(t: Moment): Moment {
    if t.month == 12 then Stamp(t.year + 1, 1, 0) else Stamp(t.year, t.month + 1, 0)
  }

  function Later(a: Moment, b: Moment): Moment {
    if Before(a, b) then b else a
  }

  function Earlier(a: Moment, b: Moment): Moment {
    if Before(b, a) then b else a
  }

  type Window = (Moment, Moment)

  predicate Within(t: Moment, w: Window) {
    !Before(t, w.0) && Before(t, w.1)
  }

  // ----- cutting a range into months -----

  /** The range cut wherever a calendar month begins. */
  function Cut(from: Moment, end: Moment): seq<Window>
    decreases MonthNumber(end) - MonthNumber(from), if Before(from, end) then 1 else 0
  {
    if !Before(from, end) then []
    else
      var next := Earlier(NextMonth(from), end);
      [(from, next)] + Cut(next, end)
  }

  /** The cursor walks from month start to month start. */
  function Walk(cursor: Moment, start: Moment, end: Moment): seq<Window>
    requires cursor.micros == 0
    decreases MonthNumber(end) - MonthNumber(cursor) + 1
  {
    if !Before(cursor, end) then []
    else
      var w := (Later(cursor, start), Earlier(NextMonth(cursor), end));
      (if Before(w.0, w.1) then [w] else []) + Walk(NextMonth(cursor), start, end)
  }

  lemma {:induction false} WalkIsCut(cursor: Moment, start: Moment, end: Moment)
    requires cursor.micros == 0 && !Before(cursor, start)
    ensures Walk(cursor, start, end) == Cut(cursor, end)
    decreases MonthNumber(end) - MonthNumber(cursor) + 1
  {
    if Before(cursor, end) {
      WalkIsCut(NextMonth(cursor), start, end);
    }
  }

  method MonthBoundaries(rangeStart: Moment, rangeEnd: Moment) returns (boundaries: seq<Window>)
    ensures boundaries == Cut(rangeStart, rangeEnd)
  {
    hide Walk;
    hide Cut;
    hide Before;
    hide Later;
    hide Earlier;
    hide MonthNumber;
    boundaries := [];
    var cursor: Moment := MonthStart(rangeStart);
    WalkFromStart(rangeStart, rangeEnd);
    while Before(cursor, rangeEnd)
      invariant cursor.micros == 0
      invariant boundaries + Walk(cursor, rangeStart, rangeEnd) == Cut(rangeStart, rangeEnd)
      decreases MonthNumber(rangeEnd) - MonthNumber(cursor) + 1
    {
      WalkStep(boundaries, cursor, rangeStart, rangeEnd);
      CursorMoves(cursor, rangeEnd);
      var nextMonth: Moment :=
        if cursor.month == 12 then Stamp(cursor.year + 1, 1, 0) else Stamp(cursor.year, cursor.month + 1, 0);
      var windowStart := Later(cursor, rangeStart);
      var windowEnd := Earlier(nextMonth, rangeEnd);
      if Before(windowStart, windowEnd) {
        boundaries := boundaries + [(windowStart, windowEnd)];
      }
      cursor := nextMonth;
    }
    WalkStep(boundaries, cursor, rangeStart, rangeEnd);
  }

  /** One turn of the cursor, with the windows found so far before it. */
  lemma WalkStep(found: seq<Window>, cursor: Moment, start: Moment, end: Moment)
    requires cursor.micros == 0
    ensures found + Walk(cursor, start, end)
         == if !Before(cursor, end) then found
            else
              var w := (Later(cursor, start), Earlier(NextMonth(cursor), end));
              (if Before(w.0, w.1) then found + [w] else found) + Walk(NextMonth(cursor), start, end)
  {
    hide Before;
    hide Later;
    hide Earlier;
    var w := (Later(cursor, start), Earlier(NextMonth(cursor), end));
    Associates(found, [w], Walk(NextMonth(cursor), start, end));
    EmptyUnits(Walk(NextMonth(cursor), start, end));
    EmptyUnits(found);
  }

  lemma CursorMoves(cursor: Moment, end: Moment)
    requires Before(cursor, end)
    ensures MonthNumber(cursor) < MonthNumber(NextMonth(cursor)) && MonthNumber(cursor) <= MonthNumber(end)
  {
  }

  lemma WalkFromStart(start: Moment, end: Moment)
    ensures Walk(MonthStart(start), start, end) == Cut(start, end)
  {
    var cursor := MonthStart(start);
    if Before(cursor, end) {
      WalkIsCut(NextMonth(cursor), start, end);
      assert NextMonth(cursor) == NextMonth(start);
    }
  }

  // ----- what the windows are -----

  /** Windows that follow one another without gap from `from` to `end`, none
      empty, each inside one calendar month. */
  predicate Tiles(ws: seq<Window>, from: Moment, end: Moment) {
    if ws == [] then !Before(from, end)
    else
      && ws[0].0 == from && Before(from, ws[0].1) && !Before(NextMonth(from), ws[0].1)
      && (ws[1..] != [] ==> ws[0].1 == NextMonth(from))
      && !Before(end, ws[0].1)
      && Tiles(ws[1..], ws[0].1, end)
  }

  lemma {:induction false} CutTiles(from: Moment, end: Moment)
    ensures Tiles(Cut(from, end), from, end)
    decreases MonthNumber(end) - MonthNumber(from), if Before(from, end) then 1 else 0
  {
    if Before(from, end) {
      var next := Earlier(NextMonth(from), end);
      CutTiles(next, end);
      assert Cut(from, end)[1..] == Cut(next, end);
    }
  }

  /** Every moment of the range lies in exactly one window, and no other moment
      in any. */
  lemma {:induction false} ExactlyOneWindow(ws: seq<Window>, from: Moment, end: Moment, t: Moment)
    requires Tiles(ws, from, end)
    ensures (!Before(t, from) && Before(t, end)) <==> exists i :: 0 <= i < |ws| && Within(t, ws[i])
    ensures forall i, j :: 0 <= i < |ws| && 0 <= j < |ws| && Within(t, ws[i]) && Within(t, ws[j]) ==> i == j
    ensures forall i :: 0 <= i < |ws| ==> !Before(ws[i].0, from)
  {
    if ws != [] {
      var rest := ws[1..];
      ExactlyOneWindow(rest, ws[0].1, end, t);
      assert forall i :: 0 < i < |ws| ==> ws[i] == rest[i - 1];
      if exists i :: 0 <= i < |rest| && Within(t, rest[i]) {
        var i :| 0 <= i < |rest| && Within(t, rest[i]);
        assert Within(t, ws[i + 1]);
      }
    }
  }

  // ----- the table and the files -----

  /** What a call archives: the candles of one interval, or the trade ticks. */
  datatype Series = Candles(interval: nat) | Ticks

  /** The primary key of a row; candles have no trade id. */
  datatype Key = Key(instrument: nat, series: Series, time: Moment, trade: nat)

  /** The candle and trade_tick tables together: their keys cannot meet. */
  type Rows = map<Key, nat>

  /** What reading a path gives: the rows that were serialized, or something whose
      hash does not match. */
  datatype File = Parquet(rows: Rows) | Damaged

  datatype Path = Path(venue: nat, symbol: nat, year: int, month: int)

  datatype State = State(table: Rows, files: map<Path, File>)

  /** What a call archives, and under which directory. */
  datatype Scope = Scope(instrument: nat, series: Series, venue: nat, symbol: nat)

  predicate InScope(k: Key, scope: Scope) {
    k.instrument == scope.instrument && k.series == scope.series
  }

  function PathOf(scope: Scope, t: Moment): Path {
    Path(scope.venue, scope.symbol, t.year, t.month)
  }

  function Selected(table: Rows, scope: Scope, w: Window): Rows {
    map k | k in table && InScope(k, scope) && Within(k.time, w) :: table[k]
  }

  datatype PartitionResult = PartitionResult(year: int, month: int, rowCount: nat, checksumOk: bool, deleted: bool)

  /** One partition; a path in `faulty` does not read back what was written. */
  function ArchiveWindow(s: State, scope: Scope, w: Window, faulty: iset<Path>): State {
    var rows, path := Selected(s.table, scope, w), PathOf(scope, w.0);
    if rows == map[] then s
    else if path in faulty then s.(files := s.files[path := Damaged])
    else State(s.table - rows.Keys, s.files[path := Parquet(rows)])
  }

  function ResultOf(s: State, scope: Scope, w: Window, faulty: iset<Path>): seq<PartitionResult> {
    var rows, ok := Selected(s.table, scope, w), PathOf(scope, w.0) !in faulty;
    if rows == map[] then [] else [PartitionResult(w.0.year, w.0.month, |rows|, ok, ok)]
  }

  function ArchiveAll(s: State, scope: Scope, ws: seq<Window>, faulty: iset<Path>): State
    decreases |ws|
  {
    if ws == [] then s else ArchiveAll(ArchiveWindow(s, scope, ws[0], faulty), scope, ws[1..], faulty)
  }

  function Results(s: State, scope: Scope, ws: seq<Window>, faulty: iset<Path>): seq<PartitionResult>
    decreases |ws|
  {
    if ws == [] then []
    else ResultOf(s, scope, ws[0], faulty) + Results(ArchiveWindow(s, scope, ws[0], faulty), scope, ws[1..], faulty)
  }

  /** The database and the file storage of one process. */
  class Storage {
    var table: Rows
    var files: map<Path, File>
    /** Paths whose bytes come back wrong. */
    const faulty: iset<Path>

    constructor (s: State, faulty: iset<Path>)
      ensures Now() == s && this.faulty == faulty
    {
      table, files, this.faulty := s.table, s.files, faulty;
    }

    function Now(): State
      reads this
    {
      State(table, files)
    }

    method WriteBytes(path: Path, file: File)
      modifies this`files
      ensures files == old(files)[path := if path in faulty then Damaged else file]
    {
      files := files[path := if path in faulty then Damaged else file];
    }

    method ArchivePartition(scope: Scope, w: Window, rows: Rows) returns (r: PartitionResult)
      requires rows == Selected(table, scope, w) && rows != map[]
      modifies this
      ensures Now() == ArchiveWindow(old(Now()), scope, w, faulty)
      ensures [r] == ResultOf(old(Now()), scope, w, faulty)
    {
      hide Selected;
      var path := PathOf(scope, w.0);
      WriteBytes(path, Parquet(rows));
      var actual := files[path];
      if actual != Parquet(rows) {
        return PartitionResult(w.0.year, w.0.month, |rows|, false, false);
      }
      table := table - rows.Keys;
      r := PartitionResult(w.0.year, w.0.month, |rows|, true, true);
    }

    method Archive(scope: Scope, rangeStart: Moment, rangeEnd: Moment) returns (partitions: seq<PartitionResult>)
      modifies this
      ensures Now() == ArchiveAll(old(Now()), scope, Cut(rangeStart, rangeEnd), faulty)
      ensures partitions == Results(old(Now()), scope, Cut(rangeStart, rangeEnd), faulty)
    {
      hide Selected;
      hide Cut;
      hide ArchiveWindow;
      hide ResultOf;
      hide ArchiveAll;
      hide Results;
      hide PathOf;
      partitions := [];
      var windows := MonthBoundaries(rangeStart, rangeEnd);
      EmptyUnits(Results(Now(), scope, windows, faulty));
      for n := 0 to |windows|
        invariant ArchiveAll(Now(), scope, windows[n..], faulty) == ArchiveAll(old(Now()), scope, windows, faulty)
        invariant partitions + Results(Now(), scope, windows[n..], faulty)
                  == Results(old(Now()), scope, windows, faulty)
      {
        ArchiveOneMore(Now(), scope, windows, n, faulty, partitions);
        var rows := Select(table, scope, windows[n]);
        if rows == map[] {
          NothingToArchive(Now(), scope, windows[n], faulty);
          EmptyUnits(partitions);
          continue;
        }
        var partition := ArchivePartition(scope, windows[n], rows);
        partitions := partitions + [partition];
      }
      assert windows[|windows|..] == [];
      NothingLeft(Now(), scope, faulty);
      EmptyUnits(partitions);
    }

    method ArchiveCandles(instrument: nat, interval: nat, venue: nat, symbol: nat, rangeStart: Moment, rangeEnd: Moment)
      returns (partitions: seq<PartitionResult>)
      modifies this
      ensures var scope := Scope(instrument, Candles(interval), venue, symbol);
              && Now() == ArchiveAll(old(Now()), scope, Cut(rangeStart, rangeEnd), faulty)
              && partitions == Results(old(Now()), scope, Cut(rangeStart, rangeEnd), faulty)
    {
      partitions := Archive(Scope(instrument, Candles(interval), venue, symbol), rangeStart, rangeEnd);
    }

    method ArchiveTradeTicks(instrument: nat, venue: nat, symbol: nat, rangeStart: Moment, rangeEnd: Moment)
      returns (partitions: seq<PartitionResult>)
      modifies this
      ensures var scope := Scope(instrument, Ticks, venue, symbol);
              && Now() == ArchiveAll(old(Now()), scope, Cut(rangeStart, rangeEnd), faulty)
              && partitions == Results(old(Now()), scope, Cut(rangeStart, rangeEnd), faulty)
    {
      partitions := Archive(Scope(instrument, Ticks, venue, symbol), rangeStart, rangeEnd);
    }

    /** Candles first, then ticks, over the same range; `cutoff` is now less the
        retention. */
    method RunNightlyArchival(instrument: nat, interval: nat, venue: nat, symbol: nat, archiveFrom: Moment,
                              cutoff: Moment)
      returns (candles: seq<PartitionResult>, ticks: seq<PartitionResult>)
      modifies this
      ensures Now() == Nightly(old(Now()), instrument, interval, venue, symbol, archiveFrom, cutoff, faulty)
      ensures var first := Scope(instrument, Candles(interval), venue, symbol);
              var second := Scope(instrument, Ticks, venue, symbol);
              var windows := Cut(archiveFrom, cutoff);
              && candles == Results(old(Now()), first, windows, faulty)
              && ticks == Results(ArchiveAll(old(Now()), first, windows, faulty), second, windows, faulty)
    {
      hide ArchiveAll;
      hide Results;
      hide Cut;
      candles := ArchiveCandles(instrument, interval, venue, symbol, archiveFrom, cutoff);
      ticks := ArchiveTradeTicks(instrument, venue, symbol, archiveFrom, cutoff);
    }
  }

  function Nightly(s: State, instrument: nat, interval: nat, venue: nat, symbol: nat, from: Moment, cutoff: Moment,
                   faulty: iset<Path>): State
  {
    var candles := ArchiveAll(s, Scope(instrument, Candles(interval), venue, symbol), Cut(from, cutoff), faulty);
    ArchiveAll(candles, Scope(instrument, Ticks, venue, symbol), Cut(from, cutoff), faulty)
  }

  method Select(table: Rows, scope: Scope, w: Window) returns (rows: Rows)
    ensures rows == Selected(table, scope, w)
  {
    rows := Selected(table, scope, w);
  }

  lemma ArchiveOneMore(s: State, scope: Scope, ws: seq<Window>, n: nat, faulty: iset<Path>, done: seq<PartitionResult>)
    requires n < |ws|
    ensures var next := ArchiveWindow(s, scope, ws[n], faulty);
            && ArchiveAll(s, scope, ws[n..], faulty) == ArchiveAll(next, scope, ws[n + 1..], faulty)
            && done + Results(s, scope, ws[n..], faulty)
               == (done + ResultOf(s, scope, ws[n], faulty)) + Results(next, scope, ws[n + 1..], faulty)
  {
    hide ArchiveWindow;
    hide ResultOf;
    assert ws[n..][1..] == ws[n + 1..];
    Associates(done, ResultOf(s, scope, ws[n], faulty),
               Results(ArchiveWindow(s, scope, ws[n], faulty), scope, ws[n + 1..], faulty));
  }

  lemma NothingLeft(s: State, scope: Scope, faulty: iset<Path>)
    ensures ArchiveAll(s, scope, [], faulty) == s && Results(s, scope, [], faulty) == []
  {
  }

  lemma NothingToArchive(s: State, scope: Scope, w: Window, faulty: iset<Path>)
    requires Selected(s.table, scope, w) == map[]
    ensures ArchiveWindow(s, scope, w, faulty) == s && ResultOf(s, scope, w, faulty) == []
  {
  }

  // ----- conservation -----

  /** The row is archived by a call over [from, end): selected, and its month's
      file reads back. */
  predicate Moves(k: Key, scope: Scope, from: Moment, end: Moment, faulty: iset<Path>) {
    InScope(k, scope) && !Before(k.time, from) && Before(k.time, end) && PathOf(scope, k.time) !in faulty
  }

  /** The file of the row's month, if it reads back, holds the row. */
  predicate Holds(s: State, scope: Scope, k: Key) {
    var p := PathOf(scope, k.time);
    p in s.files && s.files[p].Parquet? && k in s.files[p].rows
  }

  lemma OneWindow(s: State, scope: Scope, w: Window, faulty: iset<Path>, k: Key)
    requires Before(w.0, w.1) && !Before(NextMonth(w.0), w.1)
    ensures var after := ArchiveWindow(s, scope, w, faulty);
            && (k in after.table <==> k in s.table && !Moves(k, scope, w.0, w.1, faulty))
            && (k in after.table ==> after.table[k] == s.table[k])
            && (k in s.table && Moves(k, scope, w.0, w.1, faulty) ==>
                  && PathOf(scope, k.time) == PathOf(scope, w.0)
                  && Holds(after, scope, k) && after.files[PathOf(scope, w.0)].rows[k] == s.table[k])
            && (!Holds(s, scope, k) ==> (Holds(after, scope, k) <==> k in s.table && Moves(k, scope, w.0, w.1, faulty)))
  {
    var rows := Selected(s.table, scope, w);
    assert k in rows <==> k in s.table && InScope(k, scope) && Within(k.time, w);
    if Within(k.time, w) {
      SameMonth(k.time, w);
    }
  }

  lemma SameMonth(t: Moment, w: Window)
    requires Within(t, w) && !Before(NextMonth(w.0), w.1)
    ensures t.year == w.0.year && t.month == w.0.month
  {
  }

  predicate SameFile(a: State, b: State, p: Path) {
    (p in a.files <==> p in b.files) && (p in a.files ==> b.files[p] == a.files[p])
  }

  lemma OtherFiles(s: State, scope: Scope, w: Window, faulty: iset<Path>, p: Path)
    requires p != PathOf(scope, w.0)
    ensures var after := ArchiveWindow(s, scope, w, faulty);
            (p in after.files <==> p in s.files) && (p in s.files ==> after.files[p] == s.files[p])
  {
    hide Selected;
  }

  /** Windows from `from` on write no file of an earlier month. */
  lemma {:induction false} EarlierFilesKept(s: State, scope: Scope, ws: seq<Window>, from: Moment, end: Moment,
                                            faulty: iset<Path>, t: Moment)
    requires Tiles(ws, from, end) && MonthNumber(t) < MonthNumber(from)
    ensures var after, p := ArchiveAll(s, scope, ws, faulty), PathOf(scope, t);
            (p in after.files <==> p in s.files) && (p in s.files ==> after.files[p] == s.files[p])
    decreases |ws|
  {
    hide ArchiveWindow;
    if ws != [] {
      OtherFiles(s, scope, ws[0], faulty, PathOf(scope, t));
      EarlierFilesKept(ArchiveWindow(s, scope, ws[0], faulty), scope, ws[1..], ws[0].1, end, faulty, t);
    }
  }

  /** One call conserves rows: an original row that the file of its month did not
      hold already is afterwards in exactly one of the table and that file. It is
      in the file exactly if the call selects it and the file read back; a checksum
      failure leaves the month's rows in place and blocks no other month. */
  lemma {:induction false} RowsAreConserved(s: State, scope: Scope, ws: seq<Window>, from: Moment, end: Moment,
                                            faulty: iset<Path>, k: Key)
    requires Tiles(ws, from, end)
    ensures var after := ArchiveAll(s, scope, ws, faulty);
            && (k in after.table <==> k in s.table && !Moves(k, scope, from, end, faulty))
            && (k in after.table ==> after.table[k] == s.table[k])
            && (k in s.table && Moves(k, scope, from, end, faulty) ==>
                  Holds(after, scope, k) && after.files[PathOf(scope, k.time)].rows[k] == s.table[k])
            && (!Holds(s, scope, k) ==>
                  (Holds(after, scope, k) <==> k in s.table && Moves(k, scope, from, end, faulty)))
    decreases |ws|
  {
    hide ArchiveWindow;
    if ws != [] {
      var w := ws[0];
      var next := ArchiveWindow(s, scope, w, faulty);
      OneWindow(s, scope, w, faulty, k);
      RowsAreConserved(next, scope, ws[1..], w.1, end, faulty, k);
      if k in s.table && Moves(k, scope, w.0, w.1, faulty) && ws[1..] != [] {
        EarlierFilesKept(next, scope, ws[1..], w.1, end, faulty, k.time);
      }
    }
  }

  /** A whole call, as `archive_candles` makes it. */
  lemma ArchiveCandlesConservesRows(s: State, scope: Scope, from: Moment, end: Moment, faulty: iset<Path>, k: Key)
    ensures var after := ArchiveAll(s, scope, Cut(from, end), faulty);
            && (k in after.table <==> k in s.table && !Moves(k, scope, from, end, faulty))
            && (k in after.table ==> after.table[k] == s.table[k])
            && (k in s.table && Moves(k, scope, from, end, faulty) ==>
                  Holds(after, scope, k) && after.files[PathOf(scope, k.time)].rows[k] == s.table[k])
            && (!Holds(s, scope, k) ==>
                  (Holds(after, scope, k) <==> k in s.table && Moves(k, scope, from, end, faulty)))
  {
    hide ArchiveAll;
    CutTiles(from, end);
    RowsAreConserved(s, scope, Cut(from, end), from, end, faulty, k);
  }

  // ----- across calls -----

  /** What a call leaves at the path of one of its windows: the old file if the
      window has no rows, otherwise exactly the window's rows, whatever was there
      before. So a row archived by an earlier call survives a later one that
      writes its month only if it is written again. */
  lemma {:induction false} FileOfWindow(s: State, scope: Scope, ws: seq<Window>, from: Moment, end: Moment,
                                        faulty: iset<Path>, i: nat)
    requires Tiles(ws, from, end) && i < |ws|
    ensures var after, p := ArchiveAll(s, scope, ws, faulty), PathOf(scope, ws[i].0);
            var rows := Selected(s.table, scope, ws[i]);
            && (rows == map[] ==>
                  (p in after.files <==> p in s.files) && (p in s.files ==> after.files[p] == s.files[p]))
            && (rows != map[] ==> p in after.files && after.files[p] == if p in faulty then Damaged else Parquet(rows))
    decreases |ws|
  {
    hide ArchiveWindow;
    hide Selected;
    var w := ws[0];
    var next := ArchiveWindow(s, scope, w, faulty);
    if i == 0 {
      WindowWrites(s, scope, w, faulty);
      if ws[1..] != [] {
        EarlierFilesKept(next, scope, ws[1..], w.1, end, faulty, w.0);
      }
    } else {
      FileOfWindow(next, scope, ws[1..], w.1, end, faulty, i - 1);
      LaterWindowUntouched(s, scope, ws, from, end, faulty, i);
    }
  }

  lemma WindowWrites(s: State, scope: Scope, w: Window, faulty: iset<Path>)
    ensures var after, p := ArchiveWindow(s, scope, w, faulty), PathOf(scope, w.0);
            var rows := Selected(s.table, scope, w);
            && (rows == map[] ==> after == s)
            && (rows != map[] ==> p in after.files && after.files[p] == if p in faulty then Damaged else Parquet(rows))
  {
    hide Selected;
  }

  lemma {:induction false} WindowsAfter(ws: seq<Window>, from: Moment, end: Moment, i: nat)
    requires Tiles(ws, from, end) && i < |ws|
    ensures !Before(ws[i].0, from)
    ensures i > 0 ==> MonthNumber(from) < MonthNumber(ws[i].0)
  {
    if i > 0 {
      WindowsAfter(ws[1..], ws[0].1, end, i - 1);
    }
  }

  lemma LaterWindowUntouched(s: State, scope: Scope, ws: seq<Window>, from: Moment, end: Moment, faulty: iset<Path>,
                             i: nat)
    requires Tiles(ws, from, end) && 0 < i < |ws|
    ensures Selected(ArchiveWindow(s, scope, ws[0], faulty).table, scope, ws[i]) == Selected(s.table, scope, ws[i])
    ensures PathOf(scope, ws[i].0) != PathOf(scope, ws[0].0)
    ensures var after, p := ArchiveWindow(s, scope, ws[0], faulty), PathOf(scope, ws[i].0);
            (p in after.files <==> p in s.files) && (p in s.files ==> after.files[p] == s.files[p])
  {
    hide ArchiveWindow;
    WindowsAfter(ws, from, end, i);
    OtherFiles(s, scope, ws[0], faulty, PathOf(scope, ws[i].0));
    var after := ArchiveWindow(s, scope, ws[0], faulty);
    forall k: Key
      ensures k in Selected(after.table, scope, ws[i]) <==> k in Selected(s.table, scope, ws[i])
      ensures k in Selected(after.table, scope, ws[i]) ==> after.table[k] == s.table[k]
    {
      OneWindow(s, scope, ws[0], faulty, k);
    }
  }

  lemma {:induction false} NoWindowNoChange(s: State, scope: Scope, ws: seq<Window>, faulty: iset<Path>, p: Path)
    requires forall i :: 0 <= i < |ws| ==> PathOf(scope, ws[i].0) != p
    ensures SameFile(s, ArchiveAll(s, scope, ws, faulty), p)
    decreases |ws|
  {
    hide ArchiveWindow;
    if ws != [] {
      OtherFiles(s, scope, ws[0], faulty, p);
      assert forall i :: 0 <= i < |ws[1..]| ==> ws[1..][i] == ws[i + 1];
      NoWindowNoChange(ArchiveWindow(s, scope, ws[0], faulty), scope, ws[1..], faulty, p);
    }
  }

  /** The file at p reads back and holds the row. */
  predicate HoldsAt(s: State, p: Path, k: Key) {
    p in s.files && s.files[p].Parquet? && k in s.files[p].rows
  }

  /** A call over [from, end) selects the row and would write it to p. */
  predicate Targets(k: Key, scope: Scope, from: Moment, end: Moment, p: Path) {
    InScope(k, scope) && !Before(k.time, from) && Before(k.time, end) && PathOf(scope, k.time) == p
  }

  /** The call finds at least one row to write to p. */
  ghost predicate Rewrites(s: State, scope: Scope, from: Moment, end: Moment, p: Path) {
    exists k :: k in s.table && Targets(k, scope, from, end, p)
  }

  /** The window of a row the call selects. */
  lemma WindowOf(ws: seq<Window>, from: Moment, end: Moment, t: Moment) returns (i: nat)
    requires Tiles(ws, from, end) && !Before(t, from) && Before(t, end)
    ensures i < |ws| && Within(t, ws[i]) && ws[i].0.year == t.year && ws[i].0.month == t.month
  {
    ExactlyOneWindow(ws, from, end, t);
    i :| 0 <= i < |ws| && Within(t, ws[i]);
    InsideOneMonth(ws, from, end, i);
    SameMonth(t, ws[i]);
  }

  lemma {:induction false} InsideOneMonth(ws: seq<Window>, from: Moment, end: Moment, i: nat)
    requires Tiles(ws, from, end) && i < |ws|
    ensures !Before(NextMonth(ws[i].0), ws[i].1)
  {
    if i > 0 {
      InsideOneMonth(ws[1..], ws[0].1, end, i - 1);
    }
  }

  /** Two windows of one call never share a month. */
  lemma {:induction false} DistinctMonths(ws: seq<Window>, from: Moment, end: Moment, i: nat, j: nat)
    requires Tiles(ws, from, end) && i < j < |ws|
    ensures MonthNumber(ws[i].0) < MonthNumber(ws[j].0)
  {
    if i == 0 {
      WindowsAfter(ws, from, end, j);
    } else {
      DistinctMonths(ws[1..], ws[0].1, end, i - 1, j - 1);
    }
  }

  /** A row the call would write to the path of window i is one window i selects. */
  lemma TargetsAreSelected(s: State, scope: Scope, ws: seq<Window>, from: Moment, end: Moment, i: nat, k: Key)
    requires Tiles(ws, from, end) && i < |ws|
    ensures k in Selected(s.table, scope, ws[i])
            <==> k in s.table && Targets(k, scope, from, end, PathOf(scope, ws[i].0))
  {
    ExactlyOneWindow(ws, from, end, k.time);
    InsideOneMonth(ws, from, end, i);
    if Within(k.time, ws[i]) {
      SameMonth(k.time, ws[i]);
    }
    if k in s.table && Targets(k, scope, from, end, PathOf(scope, ws[i].0)) {
      var j := WindowOf(ws, from, end, k.time);
      if j < i {
        DistinctMonths(ws, from, end, j, i);
      } else if i < j {
        DistinctMonths(ws, from, end, i, j);
      }
    }
  }

  /** What any path holds after a call: if the call finds a row for it, exactly the
      rows it selects there, provided they read back; otherwise what it held. */
  lemma FileAfterCall(s: State, scope: Scope, from: Moment, end: Moment, faulty: iset<Path>, p: Path, k: Key)
    ensures HoldsAt(ArchiveAll(s, scope, Cut(from, end), faulty), p, k)
       <==> if Rewrites(s, scope, from, end, p) then p !in faulty && k in s.table && Targets(k, scope, from, end, p)
            else HoldsAt(s, p, k)
  {
    hide ArchiveAll;
    hide Cut;
    hide Selected;
    hide Targets;
    var ws := Cut(from, end);
    CutTiles(from, end);
    if exists i :: 0 <= i < |ws| && PathOf(scope, ws[i].0) == p {
      var i :| 0 <= i < |ws| && PathOf(scope, ws[i].0) == p;
      FileOfWindow(s, scope, ws, from, end, faulty, i);
      var rows := Selected(s.table, scope, ws[i]);
      forall o ensures o in rows <==> o in s.table && Targets(o, scope, from, end, p) {
        TargetsAreSelected(s, scope, ws, from, end, i, o);
      }
    } else {
      NoWindowNoChange(s, scope, ws, faulty, p);
      forall o | o in s.table ensures !Targets(o, scope, from, end, p) {
        if Targets(o, scope, from, end, p) {
          var i := TargetsHaveAWindow(ws, scope, from, end, p, o);
          assert false;
        }
      }
    }
  }

  lemma TargetsHaveAWindow(ws: seq<Window>, scope: Scope, from: Moment, end: Moment, p: Path, k: Key) returns (i: nat)
    requires Tiles(ws, from, end) && Targets(k, scope, from, end, p)
    ensures i < |ws| && PathOf(scope, ws[i].0) == p
  {
    i := WindowOf(ws, from, end, k.time);
  }

  /** A row that is only in a file survives a later call, of whatever instrument,
      series and range, if and only if that call finds no row to write there. */
  lemma ArchivedRowSurvivesIff(s: State, scope: Scope, from: Moment, end: Moment, faulty: iset<Path>, p: Path, k: Key)
    requires HoldsAt(s, p, k) && k !in s.table
    ensures HoldsAt(ArchiveAll(s, scope, Cut(from, end), faulty), p, k) <==> !Rewrites(s, scope, from, end, p)
    ensures k !in ArchiveAll(s, scope, Cut(from, end), faulty).table
  {
    hide ArchiveAll;
    hide Cut;
    hide Rewrites;
    FileAfterCall(s, scope, from, end, faulty, p, k);
    ArchiveCandlesConservesRows(s, scope, from, end, faulty, k);
  }

  /** Two calls in a row conserve a row of the first if and only if the second finds
      none to write to the same path. The path names neither the interval nor the
      kind of row, so another stretch of the month, another interval of the
      symbol and its trade ticks all overwrite it. */
  lemma SecondCallOverwritesIff(s: State, scope: Scope, from: Moment, end: Moment, other: Scope, from2: Moment,
                                end2: Moment, faulty: iset<Path>, k: Key)
    requires k in s.table && Moves(k, scope, from, end, faulty)
    ensures var first, p := ArchiveAll(s, scope, Cut(from, end), faulty), PathOf(scope, k.time);
            var second := ArchiveAll(first, other, Cut(from2, end2), faulty);
            && HoldsAt(first, p, k) && k !in second.table
            && (HoldsAt(second, p, k) <==> !Rewrites(first, other, from2, end2, p))
  {
    hide ArchiveAll;
    hide Cut;
    hide Rewrites;
    ArchiveCandlesConservesRows(s, scope, from, end, faulty, k);
    ArchivedRowSurvivesIff(ArchiveAll(s, scope, Cut(from, end), faulty), other, from2, end2, faulty,
                           PathOf(scope, k.time), k);
  }

  /** So a second call of any series and range that still finds a row of the month,
      one the first call did not take, leaves the first call's rows in neither the
      table nor the files. */
  lemma LaterCallOverwrites(s: State, scope: Scope, from: Moment, end: Moment, other: Scope, from2: Moment,
                            end2: Moment, faulty: iset<Path>, k: Key, o: Key)
    requires k in s.table && Moves(k, scope, from, end, faulty)
    requires o in s.table && !Moves(o, scope, from, end, faulty)
    requires Targets(o, other, from2, end2, PathOf(scope, k.time))
    ensures var first := ArchiveAll(s, scope, Cut(from, end), faulty);
            var second := ArchiveAll(first, other, Cut(from2, end2), faulty);
            && HoldsAt(first, PathOf(scope, k.time), k)
            && k !in second.table && !HoldsAt(second, PathOf(scope, k.time), k)
  {
    hide ArchiveAll;
    hide Cut;
    ArchiveCandlesConservesRows(s, scope, from, end, faulty, o);
    SecondCallOverwritesIff(s, scope, from, end, other, from2, end2, faulty, k);
    assert o in ArchiveAll(s, scope, Cut(from, end), faulty).table;
  }

  /** A nightly run conserves a candle it archives if and only if it archives no
      tick of that month; the ticks it archives it conserves. */
  lemma NightlyConservesIff(s: State, instrument: nat, interval: nat, venue: nat, symbol: nat, from: Moment,
                            cutoff: Moment, faulty: iset<Path>, k: Key)
    ensures var candles := Scope(instrument, Candles(interval), venue, symbol);
            var ticks := Scope(instrument, Ticks, venue, symbol);
            var after := Nightly(s, instrument, interval, venue, symbol, from, cutoff, faulty);
            var p := PathOf(candles, k.time);
            && (k in s.table && Moves(k, candles, from, cutoff, faulty) ==>
                  k !in after.table && (HoldsAt(after, p, k) <==> !Rewrites(s, ticks, from, cutoff, p)))
            && (k in s.table && Moves(k, ticks, from, cutoff, faulty) ==> k !in after.table && HoldsAt(after, p, k))
  {
    hide ArchiveAll;
    hide Cut;
    var candles, ticks := Scope(instrument, Candles(interval), venue, symbol), Scope(instrument, Ticks, venue, symbol);
    var first, p := ArchiveAll(s, candles, Cut(from, cutoff), faulty), PathOf(candles, k.time);
    forall o: Key | o.series == Ticks ensures o in first.table <==> o in s.table {
      ArchiveCandlesConservesRows(s, candles, from, cutoff, faulty, o);
    }
    assert Rewrites(first, ticks, from, cutoff, p) <==> Rewrites(s, ticks, from, cutoff, p) by {
      forall o ensures o in first.table && Targets(o, ticks, from, cutoff, p)
                  <==> o in s.table && Targets(o, ticks, from, cutoff, p)
      {
      }
    }
    if k in s.table && Moves(k, candles, from, cutoff, faulty) {
      SecondCallOverwritesIff(s, candles, from, cutoff, ticks, from, cutoff, faulty, k);
    }
    ArchiveCandlesConservesRows(first, ticks, from, cutoff, faulty, k);
  }

  // ----- running a call again -----

  lemma SelectedAfter(s: State, scope: Scope, ws: seq<Window>, from: Moment, end: Moment, faulty: iset<Path>, i: nat)
    requires Tiles(ws, from, end) && i < |ws|
    ensures Selected(ArchiveAll(s, scope, ws, faulty).table, scope, ws[i])
         == if PathOf(scope, ws[i].0) in faulty then Selected(s.table, scope, ws[i]) else map[]
  {
    hide ArchiveAll;
    var after, rows := ArchiveAll(s, scope, ws, faulty), Selected(s.table, scope, ws[i]);
    forall k
      ensures k in Selected(after.table, scope, ws[i]) <==> k in rows && PathOf(scope, ws[i].0) in faulty
      ensures k in Selected(after.table, scope, ws[i]) ==> after.table[k] == s.table[k]
    {
      RowsAreConserved(s, scope, ws, from, end, faulty, k);
      ExactlyOneWindow(ws, from, end, k.time);
      if Within(k.time, ws[i]) {
        InsideOneMonth(ws, from, end, i);
        SameMonth(k.time, ws[i]);
      }
    }
  }

  lemma {:induction false} AllEmpty(s: State, scope: Scope, ws: seq<Window>, faulty: iset<Path>)
    requires forall i :: 0 <= i < |ws| ==> Selected(s.table, scope, ws[i]) == map[]
    ensures ArchiveAll(s, scope, ws, faulty) == s && Results(s, scope, ws, faulty) == []
    decreases |ws|
  {
    hide Selected;
    hide ArchiveWindow;
    hide ResultOf;
    if ws != [] {
      NothingToArchive(s, scope, ws[0], faulty);
      assert forall i :: 0 <= i < |ws[1..]| ==> ws[1..][i] == ws[i + 1];
      AllEmpty(s, scope, ws[1..], faulty);
    }
  }

  /** Idempotence: once a call has had no checksum failure, running it again writes
      nothing, deletes nothing and reports no partition. */
  lemma RerunChangesNothing(s: State, scope: Scope, from: Moment, end: Moment, faulty: iset<Path>, again: iset<Path>)
    requires forall k :: k in s.table && InScope(k, scope) && !Before(k.time, from) && Before(k.time, end) ==>
               PathOf(scope, k.time) !in faulty
    ensures var after := ArchiveAll(s, scope, Cut(from, end), faulty);
            ArchiveAll(after, scope, Cut(from, end), again) == after
            && Results(after, scope, Cut(from, end), again) == []
  {
    hide ArchiveAll;
    hide Cut;
    hide Results;
    var ws := Cut(from, end);
    CutTiles(from, end);
    var after := ArchiveAll(s, scope, ws, faulty);
    forall i | 0 <= i < |ws| ensures Selected(after.table, scope, ws[i]) == map[] {
      SelectedAfter(s, scope, ws, from, end, faulty, i);
      forall k ensures k !in Selected(after.table, scope, ws[i]) {
        TargetsAreSelected(s, scope, ws, from, end, i, k);
      }
    }
    AllEmpty(after, scope, ws, again);
  }

  /** A retry archives exactly the months that failed and leaves the others alone:
      two calls over one range leave what a single call leaves in which only
      the paths that failed both times fail. */
  lemma RetryArchivesTheFailed(s: State, scope: Scope, from: Moment, end: Moment, faulty: iset<Path>, again: iset<Path>)
    ensures ArchiveAll(ArchiveAll(s, scope, Cut(from, end), faulty), scope, Cut(from, end), again)
         == ArchiveAll(s, scope, Cut(from, end), faulty * again)
  {
    hide ArchiveAll;
    hide Cut;
    var ws := Cut(from, end);
    CutTiles(from, end);
    var first := ArchiveAll(s, scope, ws, faulty);
    var second, once := ArchiveAll(first, scope, ws, again), ArchiveAll(s, scope, ws, faulty * again);
    forall k
      ensures (k in second.table <==> k in once.table) && (k in once.table ==> second.table[k] == once.table[k])
    {
      RowsAreConserved(s, scope, ws, from, end, faulty, k);
      RowsAreConserved(first, scope, ws, from, end, again, k);
      RowsAreConserved(s, scope, ws, from, end, faulty * again, k);
    }
    assert second.table == once.table;
    forall p
      ensures p in second.files <==> p in once.files
      ensures p in second.files ==> second.files[p] == once.files[p]
    {
      SameFileAfterRetry(s, scope, ws, from, end, faulty, again, p);
    }
    assert second.files == once.files;
  }

  lemma SameFileAfterRetry(s: State, scope: Scope, ws: seq<Window>, from: Moment, end: Moment,
                           faulty: iset<Path>, again: iset<Path>, p: Path)
    requires Tiles(ws, from, end)
    ensures SameFile(ArchiveAll(ArchiveAll(s, scope, ws, faulty), scope, ws, again),
                     ArchiveAll(s, scope, ws, faulty * again), p)
  {
    hide ArchiveAll;
    hide Selected;
    var first := ArchiveAll(s, scope, ws, faulty);
    if i :| 0 <= i < |ws| && PathOf(scope, ws[i].0) == p {
      FileOfWindow(s, scope, ws, from, end, faulty, i);
      FileOfWindow(first, scope, ws, from, end, again, i);
      FileOfWindow(s, scope, ws, from, end, faulty * again, i);
      SelectedAfter(s, scope, ws, from, end, faulty, i);
    } else {
      NoWindowNoChange(s, scope, ws, faulty, p);
      NoWindowNoChange(first, scope, ws, again, p);
      NoWindowNoChange(s, scope, ws, faulty * again, p);
    }
  }
}
