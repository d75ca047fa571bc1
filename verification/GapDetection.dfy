/** Gap detection by exhaustive diff, and the scan that backfills what it finds
    (infrastructure/jobs/gap_detection.py). */
module GapDetections {
  import opened Common
  import opened Candles
  import opened Backfills

  /** Every aligned slot of the window, both ends included. */
  function Slots(begin: int, end: int, step: Duration): (r: seq<int>)
    ensures begin <= end ==> |r| > 0 && r[0] == begin
    decreases end - begin
  {
    if begin > end then [] else [begin] + Slots(begin + step, end, step)
  }

  lemma {:induction false} SlotsSplit(begin: int, mid: int, end: int, step: Duration, n: nat)
    requires mid == begin + n * step && mid <= end + step
    ensures Slots(begin, end, step) == Slots(begin, mid - step, step) + Slots(mid, end, step)
    decreases n
  {
    hide Slots;
    SlotsFrom(begin, mid - step, step);
    if n == 0 {
      EmptyUnits(Slots(mid, end, step));
    } else {
      assert mid == (begin + step) + (n - 1) * step;
      StepsInside(n - 1, step);
      SlotsSplit(begin + step, mid, end, step, n - 1);
      SlotsFrom(begin, end, step);
      Associates([begin], Slots(begin + step, mid - step, step), Slots(mid, end, step));
    }
  }

  lemma SlotsFrom(begin: int, end: int, step: Duration)
    ensures Slots(begin, end, step) == if begin > end then [] else [begin] + Slots(begin + step, end, step)
    ensures begin <= end && begin + step > end ==> Slots(begin, end, step) == [begin]
  {
  }

  /** The slots are the moments of the window a whole number of steps after its
      start. */
  lemma {:induction false} SlotsAre(begin: int, end: int, step: Duration, t: int)
    ensures t in Slots(begin, end, step) <==> begin <= t <= end && (t - begin) % step == 0
    decreases end - begin
  {
    if begin <= end {
      SlotsAre(begin + step, end, step, t);
      RemainderAgain(t - begin - step, step);
      if begin <= t < begin + step {
        RemainderAgain(t - begin, step);
      }
    }
  }

  lemma StepsInside(n: nat, step: Duration)
    ensures n * step >= 0 && (n == 0 || n * step >= step)
  {
    if n > 0 {
      assert n * step == (n - 1) * step + step;
    }
  }

  method ExpectedOpenTimes(windowStart: int, windowEnd: int, step: Duration) returns (times: seq<int>)
    ensures times == Slots(windowStart, windowEnd, step)
    ensures forall t :: t in times <==> windowStart <= t <= windowEnd && (t - windowStart) % step == 0
    ensures forall i :: 0 < i < |times| ==> times[i] == times[i - 1] + step
  {
    hide Slots;
    times := [];
    var t := windowStart;
    while t <= windowEnd
      invariant times + Slots(t, windowEnd, step) == Slots(windowStart, windowEnd, step)
      decreases windowEnd - t
    {
      SlotsFrom(t, windowEnd, step);
      Associates(times, [t], Slots(t + step, windowEnd, step));
      times := times + [t];
      t := t + step;
    }
    SlotsFrom(t, windowEnd, step);
    SlotsSpelled(windowStart, windowEnd, step);
  }

  lemma SlotsSpelled(begin: int, end: int, step: Duration)
    ensures forall t :: t in Slots(begin, end, step) <==> begin <= t <= end && (t - begin) % step == 0
    ensures var slots := Slots(begin, end, step);
            forall i :: 0 < i < |slots| ==> slots[i] == slots[i - 1] + step
  {
    hide Slots;
    forall t ensures t in Slots(begin, end, step) <==> begin <= t <= end && (t - begin) % step == 0 {
      SlotsAre(begin, end, step, t);
    }
    SlotsFollow(begin, end, step);
  }

  lemma {:induction false} SlotsFollow(begin: int, end: int, step: Duration)
    ensures var slots := Slots(begin, end, step);
            forall i :: 0 < i < |slots| ==> slots[i] == slots[i - 1] + step
    decreases end - begin
  {
    SlotsFrom(begin, end, step);
    if begin <= end {
      SlotsFollow(begin + step, end, step);
      SlotsFrom(begin + step, end, step);
      var slots, rest := Slots(begin, end, step), Slots(begin + step, end, step);
      assert slots == [begin] + rest;
      forall i | 0 < i < |slots| ensures slots[i] == slots[i - 1] + step {
        assert slots[i] == rest[i - 1] && (i > 1 ==> slots[i - 1] == rest[i - 2]);
      }
    }
  }

  // ----- grouping -----

  function Absent(expected: seq<int>, actual: set<int>): seq<int> {
    if expected == [] then []
    else (if expected[0] !in actual then [expected[0]] else []) + Absent(expected[1..], actual)
  }

  function Insert(t: int, sorted: seq<int>): seq<int> {
    if sorted == [] || t <= sorted[0] then [t] + sorted else [sorted[0]] + Insert(t, sorted[1..])
  }

  function Sort(times: seq<int>): seq<int> {
    if times == [] then [] else Insert(times[0], Sort(times[1..]))
  }

  predicate Ascending(times: seq<int>) {
    forall i, j :: 0 <= i < j < |times| ==> times[i] <= times[j]
  }

  lemma AscendingCons(first: int, rest: seq<int>)
    requires Ascending(rest) && forall t :: t in rest ==> first <= t
    ensures Ascending([first] + rest)
  {
    forall i, j | 0 <= i < j < |rest| + 1 ensures ([first] + rest)[i] <= ([first] + rest)[j] {
      assert rest[j - 1] in rest && ([first] + rest)[j] == rest[j - 1];
      assert i > 0 ==> ([first] + rest)[i] == rest[i - 1];
    }
  }

  lemma NothingAscends()
    ensures Ascending([])
  {
  }

  lemma AscendingTail(times: seq<int>)
    requires Ascending(times) && times != []
    ensures Ascending(times[1..])
    ensures forall t :: t in times ==> times[0] <= t
  {
    forall i, j | 0 <= i < j < |times[1..]| ensures times[1..][i] <= times[1..][j] {
      assert times[i + 1] <= times[j + 1];
    }
  }

  lemma {:induction false} InsertKeeps(t: int, times: seq<int>)
    ensures multiset(Insert(t, times)) == multiset(times) + multiset{t}
    ensures forall x :: x in Insert(t, times) <==> x == t || x in times
  {
    if times != [] && t > times[0] {
      InsertKeeps(t, times[1..]);
      assert times == [times[0]] + times[1..];
    }
  }

  lemma {:induction false} InsertSorts(t: int, times: seq<int>)
    requires Ascending(times)
    ensures Ascending(Insert(t, times))
  {
    hide Ascending;
    if times == [] {
      AscendingCons(t, []);
    } else {
      AscendingTail(times);
      if t <= times[0] {
        AscendingCons(t, times);
      } else {
        InsertSorts(t, times[1..]);
        InsertKeeps(t, times[1..]);
        assert forall x :: x in times[1..] ==> x in times;
        AscendingCons(times[0], Insert(t, times[1..]));
      }
    }
  }

  /** What is grouped: every expected time that is not stored, as often as it is
      expected, in ascending order. */
  lemma {:induction false} SortedMissing(expected: seq<int>, actual: set<int>)
    ensures var missing := Sort(Absent(expected, actual));
            && Ascending(missing)
            && forall t :: multiset(missing)[t] == if t in actual then 0 else multiset(expected)[t]
  {
    AbsentCounts(expected, actual);
    SortSorts(Absent(expected, actual));
  }

  lemma {:induction false} AbsentCounts(expected: seq<int>, actual: set<int>)
    ensures forall t :: multiset(Absent(expected, actual))[t] == if t in actual then 0 else multiset(expected)[t]
  {
    if expected != [] {
      AbsentCounts(expected[1..], actual);
      assert expected == [expected[0]] + expected[1..];
    }
  }

  lemma {:induction false} SortSorts(times: seq<int>)
    ensures Ascending(Sort(times)) && multiset(Sort(times)) == multiset(times)
  {
    hide Ascending;
    hide Insert;
    if times == [] {
      NothingAscends();
    } else {
      SortSorts(times[1..]);
      InsertSorts(times[0], Sort(times[1..]));
      InsertKeeps(times[0], Sort(times[1..]));
      assert times == [times[0]] + times[1..];
    }
  }

  /** What the grouping loop has after `missing`. */
  function Runs(missing: seq<int>, step: int): (r: seq<seq<int>>)
    ensures missing != [] <==> r != []
    ensures forall i :: 0 <= i < |r| ==> r[i] != []
    ensures missing != [] ==> Last(Last(r)) == Last(missing)
  {
    if missing == [] then []
    else
      var n := |missing| - 1;
      var before := Runs(missing[..n], step);
      if before != [] && missing[n] - Last(Last(before)) == step
      then before[..|before| - 1] + [Last(before) + [missing[n]]]
      else before + [[missing[n]]]
  }

  lemma RunsOneMore(missing: seq<int>, n: nat, step: int)
    requires 0 < n < |missing|
    ensures var before := Runs(missing[..n], step);
            before != [] &&
            Runs(missing[..n + 1], step)
            == if missing[n] - Last(Last(before)) == step
               then before[..|before| - 1] + [Last(before) + [missing[n]]]
               else before + [[missing[n]]]
  {
    assert missing[..n + 1][..n] == missing[..n];
  }

  lemma NothingMissing(step: int, windows: seq<MaintenanceWindow>)
    ensures GapsOf(Runs([], step), windows) == []
  {
  }

  lemma FirstRun(missing: seq<int>, step: int)
    requires missing != []
    ensures Runs(missing[..1], step) == [[missing[0]]]
  {
    assert missing[..1][..0] == [];
  }

  datatype Classification = Unexplained | Maintenance

  datatype MaintenanceWindow = MaintenanceWindow(start: int, end: int)

  datatype DetectedGap = DetectedGap(start: int, end: int, missing: seq<int>, classification: Classification)

  function Classify(start: int, end: int, windows: seq<MaintenanceWindow>): Classification {
    if exists i :: 0 <= i < |windows| && start <= windows[i].end && end >= windows[i].start then Maintenance
    else Unexplained
  }

  function GapOf(run: seq<int>, windows: seq<MaintenanceWindow>): DetectedGap
    requires run != []
  {
    DetectedGap(run[0], Last(run), run, Classify(run[0], Last(run), windows))
  }

  function GapsOf(runs: seq<seq<int>>, windows: seq<MaintenanceWindow>): (r: seq<DetectedGap>)
    requires forall i :: 0 <= i < |runs| ==> runs[i] != []
    ensures |r| == |runs| && forall i :: 0 <= i < |r| ==> r[i] == GapOf(runs[i], windows)
  {
    seq(|runs|, i requires 0 <= i < |runs| => GapOf(runs[i], windows))
  }

  /** A gap reaches from the first to the last slot it lacks, and is maintenance
      exactly if some window is not over before it starts and not yet to come when
      it ends. */
  lemma GapsSpelled(runs: seq<seq<int>>, windows: seq<MaintenanceWindow>, gaps: seq<DetectedGap>)
    requires forall i :: 0 <= i < |runs| ==> runs[i] != []
    requires gaps == GapsOf(runs, windows)
    ensures |gaps| == |runs|
    ensures forall i :: 0 <= i < |gaps| ==>
              && gaps[i].missing == runs[i] && gaps[i].start == runs[i][0] && gaps[i].end == Last(runs[i])
              && (gaps[i].classification == Maintenance
                  <==> exists j :: 0 <= j < |windows| && gaps[i].start <= windows[j].end
                                   && windows[j].start <= gaps[i].end)
  {
  }

  method ClassifyGap(start: int, end: int, windows: seq<MaintenanceWindow>) returns (c: Classification)
    ensures c == Classify(start, end, windows)
    ensures c == Maintenance <==> exists i :: 0 <= i < |windows| && start <= windows[i].end && windows[i].start <= end
  {
    for n := 0 to |windows|
      invariant forall i :: 0 <= i < n ==> !(start <= windows[i].end && end >= windows[i].start)
    {
      if start <= windows[n].end && end >= windows[n].start {
        return Maintenance;
      }
    }
    c := Unexplained;
  }

  method GapsFromExpectedAndActual(expected: seq<int>, actual: set<int>, step: Duration,
                                   windows: seq<MaintenanceWindow>)
    returns (gaps: seq<DetectedGap>)
    ensures gaps == GapsOf(Runs(Sort(Absent(expected, actual)), step), windows)
    ensures forall i :: 0 <= i < |gaps| ==>
              && gaps[i].missing != [] && gaps[i].start == gaps[i].missing[0] && gaps[i].end == Last(gaps[i].missing)
              && (gaps[i].classification == Maintenance
                  <==> exists j :: 0 <= j < |windows| && gaps[i].start <= windows[j].end
                                   && windows[j].start <= gaps[i].end)
  {
    hide Runs;
    hide Sort;
    hide Absent;
    hide Classify;
    var missing := Sort(Absent(expected, actual));
    if missing == [] {
      NothingMissing(step, windows);
      return [];
    }
    var runs: seq<seq<int>> := [[missing[0]]];
    FirstRun(missing, step);
    for n := 1 to |missing|
      invariant runs == Runs(missing[..n], step) && runs != []
    {
      RunsOneMore(missing, n, step);
      var openTime := missing[n];
      var last := runs[|runs| - 1];
      if openTime - last[|last| - 1] == step {
        runs := runs[..|runs| - 1] + [last + [openTime]];
      } else {
        runs := runs + [[openTime]];
      }
    }
    assert missing[..|missing|] == missing;
    gaps := [];
    for n := 0 to |runs|
      invariant |gaps| == n && forall i :: 0 <= i < n ==> gaps[i] == GapOf(runs[i], windows)
    {
      var c := ClassifyGap(runs[n][0], Last(runs[n]), windows);
      gaps := gaps + [DetectedGap(runs[n][0], Last(runs[n]), runs[n], c)];
    }
    GapsSpelled(runs, windows, gaps);
  }

  // ----- the scan -----

  /** One symbol and interval scanned over a window. */
  datatype Scan = Scan(venue: nat, instrument: nat, step: Duration, windowStart: int, windowEnd: int, source: nat)

  function StoredTimes(candles: CandleTable, scan: Scan): set<int> {
    set key | key in candles && key.instrument == scan.instrument && key.step == scan.step
              && scan.windowStart <= key.openTime <= scan.windowEnd :: key.openTime
  }

  function Missing(candles: CandleTable, scan: Scan): seq<int> {
    Absent(Slots(scan.windowStart, scan.windowEnd, scan.step), StoredTimes(candles, scan))
  }

  function DetectedGaps(candles: CandleTable, scan: Scan, windows: seq<MaintenanceWindow>): seq<DetectedGap> {
    GapsOf(Runs(Sort(Missing(candles, scan)), scan.step), windows)
  }

  /** The backfill request for one gap: its own narrow range, default chunk size. */
  function GapJob(scan: Scan, gap: DetectedGap): Job {
    Job(scan.venue, scan.instrument, scan.step, gap.start, gap.end, 1000, scan.source)
  }

  /** The database after the first `n` gaps; clock(i) is read by the i-th call. */
  function AfterGaps(db: Db, scan: Scan, gaps: seq<DetectedGap>, history: seq<Kline>, clock: nat -> int, n: nat): Db
    requires n <= |gaps|
  {
    if n == 0 then db
    else
      var before := AfterGaps(db, scan, gaps, history, clock, n - 1);
      if gaps[n - 1].classification == Unexplained
      then Backfill(before, GapJob(scan, gaps[n - 1]), history, clock(n - 1))
      else before
  }

  method DetectGaps(session: Session, scan: Scan, windows: seq<MaintenanceWindow>) returns (gaps: seq<DetectedGap>)
    ensures gaps == DetectedGaps(session.working.candles, scan, windows)
  {
    var expected := ExpectedOpenTimes(scan.windowStart, scan.windowEnd, scan.step);
    gaps := GapsFromExpectedAndActual(expected, StoredTimes(session.working.candles, scan), scan.step, windows);
  }

  /** One event per detected gap, in order. */
  function EventsOf(scan: Scan, gaps: seq<DetectedGap>, detectedAt: int): (r: seq<GapEvent>)
    ensures |r| == |gaps|
  {
    seq(|gaps|, i requires 0 <= i < |gaps| =>
      GapEvent(scan.instrument, scan.step, gaps[i].start, gaps[i].end, |gaps[i].missing|,
               gaps[i].classification == Maintenance, detectedAt))
  }

  function Recorded(db: Db, scan: Scan, gaps: seq<DetectedGap>, detectedAt: int): Db {
    db.(events := db.events + EventsOf(scan, gaps, detectedAt))
  }

  lemma {:induction false} CommitsKeepEvents(db: Db, job: Job, history: seq<Kline>, nows: seq<int>)
    ensures Commits(db, job, history, nows).events == db.events
  {
    hide NextPage;
    hide Upsert;
    if nows != [] {
      CommitsKeepEvents(db, job, history, nows[..|nows| - 1]);
    }
  }

  lemma NothingRecorded(db: Db, scan: Scan, detectedAt: int)
    ensures Recorded(db, scan, [], detectedAt) == db
  {
    assert db.events + [] == db.events;
  }

  lemma RowsWritten(before: Db, after: Db, scan: Scan, gaps: seq<DetectedGap>, detectedAt: int)
    requires after.events == Recorded(before, scan, gaps, detectedAt).events
    ensures var events := after.events;
            && |events| == |before.events| + |gaps| && before.events <= events
            && forall i :: |before.events| <= i < |events| ==>
                 var row, gap := events[i], gaps[i - |before.events|];
                 && row.instrument == scan.instrument && row.step == scan.step
                 && row.start == gap.start && row.end == gap.end && row.missingCount == |gap.missing|
                 && row.maintenance == (gap.classification == Maintenance) && row.detectedAt == detectedAt
  {
  }

  /** A no-op if there are no gaps. */
  method RecordGaps(session: Session, scan: Scan, gaps: seq<DetectedGap>, detectedAt: int) returns (alive: bool)
    modifies session
    ensures session.committed == old(session.committed)
    ensures alive ==> session.working == Recorded(old(session.working), scan, gaps, detectedAt)
    ensures alive ==>
              var before, events := old(session.working.events), session.working.events;
              && session.working.candles == old(session.working.candles)
              && session.working.checkpoints == old(session.working.checkpoints)
              && |events| == |before| + |gaps| && before <= events
              && forall i :: |before| <= i < |events| ==>
                   var row, gap := events[i], gaps[i - |before|];
                   && row.instrument == scan.instrument && row.step == scan.step
                   && row.start == gap.start && row.end == gap.end && row.missingCount == |gap.missing|
                   && row.maintenance == (gap.classification == Maintenance) && row.detectedAt == detectedAt
    ensures !alive ==> session.working == session.committed
  {
    hide EventsOf;
    if gaps == [] {
      NothingRecorded(session.working, scan, detectedAt);
      RowsWritten(session.working, session.working, scan, gaps, detectedAt);
      return true;
    }
    alive := session.Live();
    if alive {
      session.working := session.working.(events := session.working.events + EventsOf(scan, gaps, detectedAt));
      RowsWritten(old(session.working), session.working, scan, gaps, detectedAt);
    }
  }

  /** How far a scan got that started from `db`: not even the detected gaps are
      recorded, or they are, the first `done` of them are dealt with, and of the
      next one `pages` pages are stored. */
  datatype Progress = Unrecorded | Stopped(done: nat, pages: nat)

  ghost function StateAt(db: Db, scan: Scan, gaps: seq<DetectedGap>, detectedAt: int, history: seq<Kline>,
                         clock: nat -> int, at: Progress): Db
    requires at.Stopped? ==> at.done < |gaps|
  {
    match at
    case Unrecorded => db
    case Stopped(done, pages) =>
      Commits(AfterGaps(Recorded(db, scan, gaps, detectedAt), scan, gaps, history, clock, done),
              GapJob(scan, gaps[done]), history, Repeat(clock(done), pages))
  }

  /** Scan, record what was found, then backfill every unexplained gap; the result
      is the scan as found. None if the process died on the way, `at` says where. */
  method RunGapScanAndBackfill(session: Session, scan: Scan, windows: seq<MaintenanceWindow>, detectedAt: int,
                               history: seq<Kline>, clock: nat -> int)
    returns (r: Option<seq<DetectedGap>>, ghost at: Progress)
    requires session.working == session.committed
    modifies session
    ensures session.working == session.committed
    ensures var before := old(session.committed);
            var gaps := DetectedGaps(before.candles, scan, windows);
            && (at != Unrecorded || r.Some? ==>
                  var events := session.committed.events;
                  && |events| == |before.events| + |gaps| && before.events <= events
                  && forall i :: |before.events| <= i < |events| ==>
                       var row, gap := events[i], gaps[i - |before.events|];
                       && row.instrument == scan.instrument && row.step == scan.step
                       && row.start == gap.start && row.end == gap.end && row.missingCount == |gap.missing|
                       && row.maintenance == (gap.classification == Maintenance) && row.detectedAt == detectedAt)
            && (r.None? && at == Unrecorded ==> session.committed == before)
            && (r.Some? ==>
                  && r.value == gaps
                  && session.committed
                     == AfterGaps(Recorded(before, scan, gaps, detectedAt), scan, gaps, history, clock, |gaps|))
            && (r.None? ==>
                  && (at.Stopped? ==> at.done < |gaps| && gaps[at.done].classification == Unexplained)
                  && session.committed == StateAt(before, scan, gaps, detectedAt, history, clock, at))
  {
    hide Commits;
    hide Backfill;
    hide DetectedGaps;
    hide Recorded;
    hide Classify;
    at := Unrecorded;
    ghost var before := session.committed;
    var gaps := DetectGaps(session, scan, windows);
    var alive := RecordGaps(session, scan, gaps, detectedAt);
    if !alive {
      return None, at;
    }
    alive := session.CommitWork();
    if !alive {
      return None, at;
    }
    for n := 0 to |gaps|
      invariant session.working == session.committed
      invariant session.committed == AfterGaps(Recorded(before, scan, gaps, detectedAt), scan, gaps, history, clock, n)
      invariant session.committed.events == Recorded(before, scan, gaps, detectedAt).events
    {
      if gaps[n].classification == Unexplained {
        ghost var db := session.committed;
        var result, commits := BackfillCandles(session, history, GapJob(scan, gaps[n]), clock(n));
        CommitsKeepEvents(db, GapJob(scan, gaps[n]), history, Repeat(clock(n), commits));
        if result.None? {
          RowsWritten(before, session.committed, scan, gaps, detectedAt);
          return None, Stopped(n, commits);
        }
      }
    }
    RowsWritten(before, session.committed, scan, gaps, detectedAt);
    r := Some(gaps);
  }
}
