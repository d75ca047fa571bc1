/** What a scan writes and asks for: its rows are the missing slots, and every
    unexplained gap gets its own request, row by row. */
module GapRecords {
  import opened Common
  import opened Candles
  import opened Backfills
  import opened BackfillRecovery
  import opened BackfillOutcomes
  import opened GapDetections
  import opened GapAgreement
  import opened GapRescan

  // ----- the rows -----

  /** The slots from start to end of each row, one row after the other. */
  function RowSlots(rows: seq<GapEvent>): seq<int> {
    if rows == [] then [] else RowSlots(Front(rows)) + Slots(Last(rows).start, Last(rows).end, Last(rows).step)
  }

  lemma {:induction false} RunIsSlots(run: seq<int>, step: Duration)
    requires Contiguous(run, step)
    ensures Slots(run[0], Last(run), step) == run
  {
    hide Slots;
    hide Contiguous;
    RunBounds(run, step);
    SlotsFrom(run[0], Last(run), step);
    if |run| > 1 {
      RunIsSlots(run[1..], step);
      assert run == [run[0]] + run[1..];
    }
  }

  lemma RunBounds(run: seq<int>, step: Duration)
    requires Contiguous(run, step)
    ensures |run| > 0 && run[0] <= Last(run)
    ensures |run| == 1 ==> run == [run[0]] && Last(run) == run[0]
    ensures |run| > 1 ==>
              Contiguous(run[1..], step) && run[1..][0] == run[0] + step && Last(run[1..]) == Last(run)
  {
    ContiguousBounds(run, step);
    assert run[0] in run;
    if |run| > 1 {
      forall i | 0 < i < |run[1..]| ensures run[1..][i] - run[1..][i - 1] == step {
        assert run[i + 1] - run[i] == step;
      }
      assert run[1] - run[0] == step;
    }
  }

  /** The rows say what the gaps say. */
  predicate RowsOf(rows: seq<GapEvent>, gaps: seq<DetectedGap>, step: Duration) {
    |rows| == |gaps| &&
    forall i :: 0 <= i < |rows| ==>
      rows[i].start == gaps[i].start && rows[i].end == gaps[i].end && rows[i].step == step
  }

  lemma {:induction false} RowSlotsAreTheRuns(rows: seq<GapEvent>, runs: seq<seq<int>>, step: Duration,
                                              windows: seq<MaintenanceWindow>)
    requires forall i :: 0 <= i < |runs| ==> runs[i] != [] && Contiguous(runs[i], step)
    requires RowsOf(rows, GapsOf(runs, windows), step)
    ensures RowSlots(rows) == Flatten(runs)
  {
    hide Slots;
    hide Contiguous;
    hide GapsOf;
    hide GapOf;
    if runs != [] {
      var n := |runs| - 1;
      FrontRows(rows, runs, step, windows);
      RowSlotsAreTheRuns(Front(rows), runs[..n], step, windows);
      RunIsSlots(runs[n], step);
    }
  }

  lemma FrontRows(rows: seq<GapEvent>, runs: seq<seq<int>>, step: Duration, windows: seq<MaintenanceWindow>)
    requires runs != [] && forall i :: 0 <= i < |runs| ==> runs[i] != []
    requires RowsOf(rows, GapsOf(runs, windows), step)
    ensures rows != [] && RowsOf(Front(rows), GapsOf(runs[..|runs| - 1], windows), step)
    ensures Last(rows).start == Last(runs)[0] && Last(rows).end == Last(Last(runs)) && Last(rows).step == step
  {
    hide Classify;
    var front := runs[..|runs| - 1];
    GapsSpelled(runs, windows, GapsOf(runs, windows));
    GapsSpelled(front, windows, GapsOf(front, windows));
    forall i | 0 <= i < |front| ensures front[i] == runs[i] && Front(rows)[i] == rows[i] {
    }
  }

  lemma {:induction false} AfterGapsKeepsEvents(db: Db, scan: Scan, gaps: seq<DetectedGap>, history: seq<Kline>,
                                                clock: nat -> int, n: nat)
    requires n <= |gaps|
    ensures AfterGaps(db, scan, gaps, history, clock, n).events == db.events
  {
    hide Backfill;
    if n > 0 {
      AfterGapsKeepsEvents(db, scan, gaps, history, clock, n - 1);
      var before := AfterGaps(db, scan, gaps, history, clock, n - 1);
      var m := CallIsCommits(before, GapJob(scan, gaps[n - 1]), history, clock(n - 1));
      CommitsKeepEvents(before, GapJob(scan, gaps[n - 1]), history, Repeat(clock(n - 1), m));
    }
  }

  /** Two neighbouring rows leave at least one stored slot between them. */
  predicate NotAdjacent(rows: seq<GapEvent>, step: Duration) {
    forall i :: 0 < i < |rows| ==> rows[i - 1].end + step < rows[i].start
  }

  /** The rows a scan adds, from start to end and one after the other, are exactly
      the aligned moments of the window no stored candle opens at; no two of them
      could be one. Each counts its slots and is flagged as maintenance exactly if
      some window touches it. */
  lemma RowsAreTheMissing(db: Db, scan: Scan, windows: seq<MaintenanceWindow>, detectedAt: int, history: seq<Kline>,
                          clock: nat -> int)
    ensures var events := Rescanned(db, scan, windows, detectedAt, history, clock).events;
            && db.events <= events
            && var rows := events[|db.events|..];
               && Steps(RowSlots(rows), scan.step)
               && (forall t :: t in RowSlots(rows)
                     <==> && scan.windowStart <= t <= scan.windowEnd && (t - scan.windowStart) % scan.step == 0
                          && CandleKey(scan.instrument, scan.step, t) !in db.candles)
               && NotAdjacent(rows, scan.step)
               && (forall i :: 0 <= i < |rows| ==>
                     var row := rows[i];
                     && row.instrument == scan.instrument && row.step == scan.step && row.detectedAt == detectedAt
                     && row.missingCount == |Slots(row.start, row.end, row.step)|
                     && (row.maintenance
                         <==> exists j :: 0 <= j < |windows| && row.start <= windows[j].end
                                          && windows[j].start <= row.end))
  {
    hide Slots;
    hide Contiguous;
    hide Maximal;
    hide Flatten;
    hide Steps;
    hide RowSlots;
    hide Apart;
    hide AfterGaps;
    hide Recorded;
    hide DetectedGaps;
    hide Missing;
    hide NotAdjacent;
    var gaps := DetectedGaps(db.candles, scan, windows);
    var recorded := Recorded(db, scan, gaps, detectedAt);
    var after := Rescanned(db, scan, windows, detectedAt, history, clock);
    AfterGapsKeepsEvents(recorded, scan, gaps, history, clock, |gaps|);
    RowsWritten(db, after, scan, gaps, detectedAt);
    var rows := after.events[|db.events|..];
    var runs := RunsAre(db.candles, scan, windows);
    GapsSpelled(runs, windows, gaps);
    forall i | 0 <= i < |rows| ensures rows[i] == after.events[|db.events| + i] {
    }
    RowSlotsAreTheRuns(rows, runs, scan.step, windows);
    MissingIs(db.candles, scan);
    SlotsSpelled(scan.windowStart, scan.windowEnd, scan.step);
    RowsNotAdjacent(rows, runs, scan.step, windows);
    forall i | 0 <= i < |rows| ensures rows[i].missingCount == |Slots(rows[i].start, rows[i].end, rows[i].step)| {
      RunIsSlots(runs[i], scan.step);
    }
  }

  lemma RowsNotAdjacent(rows: seq<GapEvent>, runs: seq<seq<int>>, step: Duration, windows: seq<MaintenanceWindow>)
    requires forall i :: 0 <= i < |runs| ==> runs[i] != []
    requires RowsOf(rows, GapsOf(runs, windows), step)
    requires Maximal(runs, step) && Steps(Flatten(runs), step)
    ensures NotAdjacent(rows, step)
  {
    hide Contiguous;
    hide Classify;
    hide Maximal;
    hide Steps;
    hide Flatten;
    forall i | 0 < i < |rows| ensures rows[i - 1].end + step < rows[i].start {
      RunsApart(runs, step, i - 1, i, Last(runs[i - 1]), runs[i][0]);
      NeighboursNotJoined(runs, step, i);
      assert GapsOf(runs, windows)[i].start == runs[i][0] && GapsOf(runs, windows)[i - 1].end == Last(runs[i - 1]);
    }
  }

  lemma {:induction false} NeighboursNotJoined(runs: seq<seq<int>>, step: int, i: nat)
    requires Maximal(runs, step) && 0 < i < |runs| && forall j :: 0 <= j < |runs| ==> runs[j] != []
    ensures runs[i][0] - Last(runs[i - 1]) != step
  {
    hide Contiguous;
    if i < |runs| - 1 {
      NeighboursNotJoined(runs[..|runs| - 1], step, i);
    }
  }

  // ----- the requests -----

  /** A gap's backfill touches its own checkpoint and the slots of the gap, and
      nothing else. */
  lemma GapTouches(db: Db, scan: Scan, gap: DetectedGap, history: seq<Kline>, now: int, key: CheckpointKey,
                   at: CandleKey)
    requires Spaced(history, scan.step)
    requires var from := ResumeFrom(db, GapJob(scan, gap)); from.Some? ==> from.value >= gap.start
    requires key != GapJob(scan, gap).Key() && (at.openTime < gap.start || at.openTime > gap.end)
    ensures var after := Backfill(db, GapJob(scan, gap), history, now);
            && SameCheckpoint(db, after, key) && SameRow(db, after, at)
  {
    hide Backfill;
    hide Bars;
    hide Fetched;
    hide Spaced;
    hide ResumeFrom;
    var job := GapJob(scan, gap);
    ResumesAfterTheCheckpoint(db, job);
    CallLeaves(db, job, history, now);
    if ResumeFrom(db, job).Some? {
      var from := ResumeFrom(db, job).value;
      var fetched := Fetched(job, history, from);
      HonouredChunksFetchAll(job, history, from);
      forall i | 0 <= i < |fetched| ensures at != CandleKey(job.instrument, job.step, fetched[i].openTime) {
        assert from <= fetched[i].openTime <= job.rangeEnd;
      }
    }
  }

  predicate SameCheckpoint(d: Db, e: Db, key: CheckpointKey) {
    (key in d.checkpoints <==> key in e.checkpoints)
    && (key in d.checkpoints ==> d.checkpoints[key] == e.checkpoints[key])
  }

  predicate SameRow(d: Db, e: Db, at: CandleKey) {
    (at in d.candles <==> at in e.candles) && (at in d.candles ==> d.candles[at] == e.candles[at])
  }

  /** The other gaps leave the i-th one's checkpoint and slots alone. */
  lemma {:induction false} OtherGapsLeave(db: Db, scan: Scan, gaps: seq<DetectedGap>, history: seq<Kline>,
                                          clock: nat -> int, m: nat, n: nat, i: nat, t: int)
    requires Spaced(history, scan.step) && Apart(gaps) && Proper(gaps) && CheckpointsInRange(db)
    requires m <= n <= |gaps| && i < |gaps| && (i < m || n <= i) && gaps[i].start <= t <= gaps[i].end
    ensures var earlier, later := AfterGaps(db, scan, gaps, history, clock, m),
                                  AfterGaps(db, scan, gaps, history, clock, n);
            && SameCheckpoint(earlier, later, GapJob(scan, gaps[i]).Key())
            && SameRow(earlier, later, CandleKey(scan.instrument, scan.step, t))
    decreases n
  {
    hide Backfill;
    hide Spaced;
    hide ResumeFrom;
    hide Apart;
    hide Proper;
    hide CheckpointsInRange;
    if m < n {
      OtherGapsLeave(db, scan, gaps, history, clock, m, n - 1, i, t);
      OtherGap(scan, gaps, n - 1, i);
      ResumesInside(db, scan, gaps, history, clock, n - 1);
      var before := AfterGaps(db, scan, gaps, history, clock, n - 1);
      GapTouches(before, scan, gaps[n - 1], history, clock(n - 1), GapJob(scan, gaps[i]).Key(),
                 CandleKey(scan.instrument, scan.step, t));
    }
  }

  lemma OtherGap(scan: Scan, gaps: seq<DetectedGap>, j: nat, i: nat)
    requires Apart(gaps) && Proper(gaps) && j < |gaps| && i < |gaps| && i != j
    ensures GapJob(scan, gaps[i]).Key() != GapJob(scan, gaps[j]).Key()
    ensures gaps[i].end < gaps[j].start || gaps[j].end < gaps[i].start
  {
    if i < j {
      DistinctJobs(scan, gaps, i, j);
    } else {
      DistinctJobs(scan, gaps, j, i);
    }
  }

  lemma ResumesInside(db: Db, scan: Scan, gaps: seq<DetectedGap>, history: seq<Kline>, clock: nat -> int, i: nat)
    requires Spaced(history, scan.step) && Apart(gaps) && Proper(gaps) && CheckpointsInRange(db) && i < |gaps|
    ensures var from := ResumeFrom(AfterGaps(db, scan, gaps, history, clock, i), GapJob(scan, gaps[i]));
            && from == ResumeFrom(db, GapJob(scan, gaps[i]))
            && (from.Some? ==> from.value >= gaps[i].start)
  {
    hide Spaced;
    hide AfterGaps;
    LaterGapsUnaffected(db, scan, gaps, history, clock, i, i);
  }

  /** Every unexplained gap is requested in a range of its own, from its first to its
      last missing slot, in pages of a thousand, unless that range is completed
      already: its checkpoint goes to the last bar the venue has of what was left of
      it, and every one of those bars is stored under the scan's instrument and
      source. A maintenance gap is left as it is. */
  lemma EveryGapIsRequested(db: Db, scan: Scan, windows: seq<MaintenanceWindow>, detectedAt: int, history: seq<Kline>,
                            clock: nat -> int, i: nat)
    requires Spaced(history, scan.step) && CheckpointsInRange(db)
    requires i < |DetectedGaps(db.candles, scan, windows)|
    ensures var gap := DetectedGaps(db.candles, scan, windows)[i];
            var after := Rescanned(db, scan, windows, detectedAt, history, clock);
            var key := CheckpointKey(scan.venue, scan.instrument, scan.step, gap.start, gap.end);
            var done := key in db.checkpoints && db.checkpoints[key].status == Completed;
            var from := if key in db.checkpoints && db.checkpoints[key].last.Some?
                        then db.checkpoints[key].last.value + scan.step else gap.start;
            var bars := Bars(history, from, gap.end);
            if gap.classification == Maintenance || done || bars == []
            then SameCheckpoint(db, after, key)
            else
              && key in after.checkpoints
              && after.checkpoints[key]
                 == Checkpoint(Some(Last(bars).openTime),
                               if |bars| % 1000 != 0 || Last(bars).openTime + scan.step > gap.end then Completed
                               else InProgress,
                               clock(i))
              && forall k :: k in bars ==>
                   var at := CandleKey(scan.instrument, scan.step, k.openTime);
                   at in after.candles
                   && after.candles[at] == Row(k.data, k.openTime + scan.step <= clock(i), scan.source)
  {
    hide Backfill;
    hide Bars;
    hide Fetched;
    hide Spaced;
    hide ResumeFrom;
    hide Apart;
    hide Proper;
    hide CheckpointsInRange;
    hide DetectedGaps;
    hide Contiguous;
    hide Maximal;
    hide Flatten;
    hide Missing;
    var gaps := DetectedGaps(db.candles, scan, windows);
    var runs := RunsAre(db.candles, scan, windows);
    var recorded := Recorded(db, scan, gaps, detectedAt);
    RecordingKeepsCheckpoints(db, scan, gaps, detectedAt);
    GapIsRequested(recorded, scan, gaps, history, clock, i);
  }

  lemma RecordingKeepsCheckpoints(db: Db, scan: Scan, gaps: seq<DetectedGap>, detectedAt: int)
    requires CheckpointsInRange(db)
    ensures var recorded := Recorded(db, scan, gaps, detectedAt);
            recorded.checkpoints == db.checkpoints && CheckpointsInRange(recorded)
  {
  }

  /** What the call for a gap leaves of its request. */
  ghost predicate Requested(db: Db, after: Db, scan: Scan, gap: DetectedGap, history: seq<Kline>, now: int) {
    var key := CheckpointKey(scan.venue, scan.instrument, scan.step, gap.start, gap.end);
    var done := key in db.checkpoints && db.checkpoints[key].status == Completed;
    var from := if key in db.checkpoints && db.checkpoints[key].last.Some?
                then db.checkpoints[key].last.value + scan.step else gap.start;
    var bars := Bars(history, from, gap.end);
    if gap.classification == Maintenance || done || bars == []
    then SameCheckpoint(db, after, key)
    else
      && key in after.checkpoints
      && after.checkpoints[key]
         == Checkpoint(Some(Last(bars).openTime),
                       if |bars| % 1000 != 0 || Last(bars).openTime + scan.step > gap.end then Completed
                       else InProgress,
                       now)
      && forall k :: k in bars ==>
           var at := CandleKey(scan.instrument, scan.step, k.openTime);
           at in after.candles && after.candles[at] == Row(k.data, k.openTime + scan.step <= now, scan.source)
  }

  lemma GapCallRequests(db: Db, scan: Scan, gap: DetectedGap, history: seq<Kline>, now: int)
    requires Spaced(history, scan.step) && gap.classification == Unexplained
    ensures Requested(db, Backfill(db, GapJob(scan, gap), history, now), scan, gap, history, now)
  {
    hide Backfill;
    hide Bars;
    hide Fetched;
    hide Spaced;
    hide ResumeFrom;
    var job := GapJob(scan, gap);
    ResumesAfterTheCheckpoint(db, job);
    CallLeaves(db, job, history, now);
    if ResumeFrom(db, job).Some? {
      HonouredChunksFetchAll(job, history, ResumeFrom(db, job).value);
    }
  }

  /** The other gaps' calls change nothing about that. */
  lemma RequestedStays(db: Db, before: Db, next: Db, after: Db, scan: Scan, gap: DetectedGap, history: seq<Kline>,
                       now: int)
    requires Requested(before, next, scan, gap, history, now)
    requires SameCheckpoint(db, before, GapJob(scan, gap).Key()) && SameCheckpoint(next, after, GapJob(scan, gap).Key())
    requires var from := ResumeFrom(db, GapJob(scan, gap)); from.Some? ==> from.value >= gap.start
    requires forall t :: gap.start <= t <= gap.end ==> SameRow(next, after, CandleKey(scan.instrument, scan.step, t))
    ensures Requested(db, after, scan, gap, history, now)
  {
    hide Bars;
    hide ResumeFrom;
    ResumesAfterTheCheckpoint(db, GapJob(scan, gap));
  }

  lemma GapIsRequested(db: Db, scan: Scan, gaps: seq<DetectedGap>, history: seq<Kline>, clock: nat -> int, i: nat)
    requires Spaced(history, scan.step) && CheckpointsInRange(db) && Apart(gaps) && Proper(gaps) && i < |gaps|
    ensures Requested(db, AfterGaps(db, scan, gaps, history, clock, |gaps|), scan, gaps[i], history, clock(i))
  {
    hide Backfill;
    hide Spaced;
    hide ResumeFrom;
    hide Apart;
    hide CheckpointsInRange;
    hide Requested;
    var gap := gaps[i];
    var before, next := AfterGaps(db, scan, gaps, history, clock, i), AfterGaps(db, scan, gaps, history, clock, i + 1);
    var after := AfterGaps(db, scan, gaps, history, clock, |gaps|);
    assert gap.start <= gap.end;
    OtherGapsLeave(db, scan, gaps, history, clock, 0, i, i, gap.start);
    ResumesInside(db, scan, gaps, history, clock, i);
    forall t | gap.start <= t <= gap.end
      ensures SameRow(next, after, CandleKey(scan.instrument, scan.step, t))
      ensures SameCheckpoint(next, after, GapJob(scan, gap).Key())
    {
      OtherGapsLeave(db, scan, gaps, history, clock, i + 1, |gaps|, i, t);
    }
    if gap.classification == Unexplained {
      GapCallRequests(before, scan, gap, history, clock(i));
    } else {
      MaintenanceRequestsNothing(before, scan, gap, history, clock(i));
    }
    RequestedStays(db, before, next, after, scan, gap, history, clock(i));
  }

  lemma MaintenanceRequestsNothing(db: Db, scan: Scan, gap: DetectedGap, history: seq<Kline>, now: int)
    requires gap.classification == Maintenance
    ensures Requested(db, db, scan, gap, history, now)
  {
  }
}
