/** What a scan leaves behind: which missing slots `run_gap_scan_and_backfill`
    fills, and exactly when scanning again finds only maintenance. */
module GapRescan {
  import opened Common
  import opened Candles
  import opened Backfills
  import opened BackfillRecovery
  import opened GapDetections
  import opened GapAgreement

  // ----- what one call of the backfill stores -----

  predicate Held(candles: CandleTable, scan: Scan, t: int) {
    CandleKey(scan.instrument, scan.step, t) in candles
  }

  /** A call that starts from `db` fetches the venue's bar at t: no completed
      checkpoint stops it, and its resume point is not beyond t. */
  predicate Fetches(db: Db, job: Job, history: seq<Kline>, t: int) {
    match ResumeFrom(db, job)
    case None => false
    case Some(from) => from <= t <= job.rangeEnd && VenueAt(history, t).Some?
  }

  lemma BackfillHolds(db: Db, scan: Scan, gap: DetectedGap, history: seq<Kline>, now: int, t: int)
    requires Spaced(history, scan.step)
    ensures var job := GapJob(scan, gap);
            Held(Backfill(db, job, history, now).candles, scan, t)
            <==> Held(db.candles, scan, t) || Fetches(db, job, history, t)
  {
    hide Backfill;
    hide Commits;
    hide Spaced;
    hide VenueAt;
    var job := GapJob(scan, gap);
    if ResumeFrom(db, job).None? {
      NoResumeNoChange(db, job, history, now);
    } else {
      var n := CallIsCommits(db, job, history, now);
      ExhaustedMeansWholeRange(db, job, history, Repeat(now, n), ResumeFrom(db, job).value);
      var after := Backfill(db, job, history, now).candles;
      assert Held(after, scan, t) <==> Stored(after, job, t).Some?;
      assert Held(db.candles, scan, t) <==> Stored(db.candles, job, t).Some?;
    }
  }

  lemma NoResumeNoChange(db: Db, job: Job, history: seq<Kline>, now: int)
    requires ResumeFrom(db, job) == None
    ensures Backfill(db, job, history, now) == db
  {
  }

  /** A call moves no checkpoint but its own, so it cannot change what a call
      for another range would do. */
  lemma OtherRangesUnaffected(db: Db, job: Job, other: Job, history: seq<Kline>, now: int)
    requires Spaced(history, job.step) && other.Key() != job.Key()
    ensures ResumeFrom(Backfill(db, job, history, now), other) == ResumeFrom(db, other)
  {
    hide Backfill;
    hide Commits;
    hide Spaced;
    hide Overlaid;
    if ResumeFrom(db, job).None? {
      NoResumeNoChange(db, job, history, now);
    } else {
      var n := CallIsCommits(db, job, history, now);
      EveryCommittedState(db, job, history, Repeat(now, n), ResumeFrom(db, job).value);
    }
  }

  // ----- after the first n gaps -----

  /** Each gap ends before the next one starts. */
  predicate Apart(gaps: seq<DetectedGap>) {
    forall i, j :: 0 <= i < j < |gaps| ==> gaps[i].end < gaps[j].start
  }

  predicate Proper(gaps: seq<DetectedGap>) {
    forall i :: 0 <= i < |gaps| ==> gaps[i].start <= gaps[i].end
  }

  lemma DistinctJobs(scan: Scan, gaps: seq<DetectedGap>, i: nat, j: nat)
    requires Apart(gaps) && Proper(gaps) && i < j < |gaps|
    ensures GapJob(scan, gaps[i]).Key() != GapJob(scan, gaps[j]).Key()
  {
    assert gaps[i].start <= gaps[i].end < gaps[j].start;
  }

  lemma {:induction false} LaterGapsUnaffected(db: Db, scan: Scan, gaps: seq<DetectedGap>, history: seq<Kline>,
                                               clock: nat -> int, n: nat, j: nat)
    requires Spaced(history, scan.step) && Apart(gaps) && Proper(gaps) && n <= j < |gaps|
    ensures ResumeFrom(AfterGaps(db, scan, gaps, history, clock, n), GapJob(scan, gaps[j]))
         == ResumeFrom(db, GapJob(scan, gaps[j]))
  {
    hide Backfill;
    hide Apart;
    hide Spaced;
    hide ResumeFrom;
    if n > 0 {
      LaterGapsUnaffected(db, scan, gaps, history, clock, n - 1, j);
      DistinctJobs(scan, gaps, n - 1, j);
      var before := AfterGaps(db, scan, gaps, history, clock, n - 1);
      OtherRangesUnaffected(before, GapJob(scan, gaps[n - 1]), GapJob(scan, gaps[j]), history, clock(n - 1));
    }
  }

  /** The i-th gap is backfilled and its call fetches the bar at t. */
  predicate Fills(db: Db, scan: Scan, gap: DetectedGap, history: seq<Kline>, t: int) {
    gap.classification == Unexplained && Fetches(db, GapJob(scan, gap), history, t)
  }

  /** A slot is held after n gaps exactly if it was held before or one of them
      fetched it; whether it does can be told from the database as it was. */
  lemma {:induction false} HeldAfterGaps(db: Db, scan: Scan, gaps: seq<DetectedGap>, history: seq<Kline>,
                                         clock: nat -> int, n: nat, t: int)
    requires Spaced(history, scan.step) && Apart(gaps) && Proper(gaps) && n <= |gaps|
    ensures Held(AfterGaps(db, scan, gaps, history, clock, n).candles, scan, t)
       <==> Held(db.candles, scan, t) || exists i :: 0 <= i < n && Fills(db, scan, gaps[i], history, t)
  {
    hide Backfill;
    hide Apart;
    hide Spaced;
    hide ResumeFrom;
    hide Held;
    if n > 0 {
      HeldAfterGaps(db, scan, gaps, history, clock, n - 1, t);
      LaterGapsUnaffected(db, scan, gaps, history, clock, n - 1, n - 1);
      var before := AfterGaps(db, scan, gaps, history, clock, n - 1);
      BackfillHolds(before, scan, gaps[n - 1], history, clock(n - 1), t);
      assert Fills(before, scan, gaps[n - 1], history, t) <==> Fills(db, scan, gaps[n - 1], history, t);
    }
  }

  // ----- the runs of a scan -----

  lemma {:induction false} StepsAppend(a: seq<int>, b: seq<int>, step: Duration, x: int, y: int)
    requires Steps(a + b, step) && x in a && y in b
    ensures x + step <= y
  {
    assert (a + b)[0] == a[0] && (a + b)[1..] == a[1..] + b;
    InTail(a);
    assert y in a[1..] + b;
    if x != a[0] {
      StepsAppend(a[1..], b, step, x, y);
    }
  }

  lemma {:induction false} StepsPrefix(a: seq<int>, b: seq<int>, step: Duration)
    requires Steps(a + b, step)
    ensures Steps(a, step)
  {
    if a != [] {
      assert (a + b)[0] == a[0] && (a + b)[1..] == a[1..] + b;
      StepsPrefix(a[1..], b, step);
      assert forall t :: t in a[1..] ==> t in a[1..] + b;
    }
  }

  lemma {:induction false} RunInFlatten(runs: seq<seq<int>>, i: nat, t: int)
    requires i < |runs| && t in runs[i]
    ensures t in Flatten(runs)
  {
    var n := |runs| - 1;
    if i < n {
      RunInFlatten(runs[..n], i, t);
    }
  }

  lemma {:induction false} FlattenInRun(runs: seq<seq<int>>, t: int) returns (i: nat)
    requires t in Flatten(runs)
    ensures i < |runs| && t in runs[i]
  {
    var n := |runs| - 1;
    if t in Last(runs) {
      i := n;
    } else {
      i := FlattenInRun(runs[..n], t);
    }
  }

  /** Slots of an earlier run lie before those of a later one. */
  lemma {:induction false} RunsApart(runs: seq<seq<int>>, step: Duration, i: nat, j: nat, x: int, y: int)
    requires Steps(Flatten(runs), step) && i < j < |runs| && x in runs[i] && y in runs[j]
    ensures x + step <= y
  {
    var n := |runs| - 1;
    if j == n {
      RunInFlatten(runs[..n], i, x);
      StepsAppend(Flatten(runs[..n]), Last(runs), step, x, y);
    } else {
      StepsPrefix(Flatten(runs[..n]), Last(runs), step);
      RunsApart(runs[..n], step, i, j, x, y);
    }
  }

  lemma GapsApart(runs: seq<seq<int>>, step: Duration, windows: seq<MaintenanceWindow>)
    requires Steps(Flatten(runs), step) && forall i :: 0 <= i < |runs| ==> runs[i] != []
    ensures Apart(GapsOf(runs, windows))
  {
    hide Classify;
    hide Flatten;
    hide Steps;
    var gaps := GapsOf(runs, windows);
    forall i, j | 0 <= i < j < |gaps| ensures gaps[i].end < gaps[j].start {
      RunsApart(runs, step, i, j, Last(runs[i]), runs[j][0]);
    }
  }

  lemma {:induction false} ContiguousBounds(run: seq<int>, step: Duration)
    requires Contiguous(run, step)
    ensures forall t :: t in run ==> run[0] <= t <= Last(run)
  {
    var n := |run| - 1;
    if n > 0 {
      assert run == run[..n] + [run[n]];
      ContiguousSnoc(run[..n], run[n], step);
      ContiguousBounds(run[..n], step);
      forall t | t in run ensures run[0] <= t <= Last(run) {
        assert t in run[..n] || t == run[n];
        assert run[0] in run[..n] && run[..n][0] == run[0] && run[n] - Last(run[..n]) == step;
      }
    }
  }

  lemma {:induction false} EachRunContiguous(runs: seq<seq<int>>, step: Duration, i: nat)
    requires Maximal(runs, step) && i < |runs|
    ensures Contiguous(runs[i], step)
  {
    hide Contiguous;
    var n := |runs| - 1;
    if i < n {
      EachRunContiguous(runs[..n], step, i);
    }
  }

  // ----- the runs that are not backfilled -----

  predicate Excused(run: seq<int>, windows: seq<MaintenanceWindow>) {
    run != [] && Classify(run[0], Last(run), windows) == Maintenance
  }

  function ExcusedRuns(runs: seq<seq<int>>, windows: seq<MaintenanceWindow>): seq<seq<int>> {
    if runs == [] then []
    else
      var before := ExcusedRuns(runs[..|runs| - 1], windows);
      if Excused(Last(runs), windows) then before + [Last(runs)] else before
  }

  function OnlyMaintenance(gaps: seq<DetectedGap>): seq<DetectedGap> {
    if gaps == [] then []
    else
      var before := OnlyMaintenance(gaps[..|gaps| - 1]);
      if Last(gaps).classification == Maintenance then before + [Last(gaps)] else before
  }

  lemma {:induction false} ExcusedRunsSplit(runs: seq<seq<int>>, windows: seq<MaintenanceWindow>)
    ensures forall i :: 0 <= i < |ExcusedRuns(runs, windows)| ==>
              ExcusedRuns(runs, windows)[i] in runs && Excused(ExcusedRuns(runs, windows)[i], windows)
  {
    if runs != [] {
      ExcusedRunsSplit(runs[..|runs| - 1], windows);
    }
  }

  lemma {:induction false} OnlyMaintenanceIsExcused(runs: seq<seq<int>>, windows: seq<MaintenanceWindow>)
    requires forall i :: 0 <= i < |runs| ==> runs[i] != []
    ensures forall i :: 0 <= i < |ExcusedRuns(runs, windows)| ==> ExcusedRuns(runs, windows)[i] != []
    ensures OnlyMaintenance(GapsOf(runs, windows)) == GapsOf(ExcusedRuns(runs, windows), windows)
  {
    hide Classify;
    if runs != [] {
      var n := |runs| - 1;
      OnlyMaintenanceIsExcused(runs[..n], windows);
      assert GapsOf(runs, windows)[..n] == GapsOf(runs[..n], windows);
    }
  }

  /** Leaving runs out cannot make two others adjacent. */
  lemma {:induction false} ExcusedStayMaximal(runs: seq<seq<int>>, windows: seq<MaintenanceWindow>, step: Duration)
    requires Maximal(runs, step) && Steps(Flatten(runs), step)
    ensures Maximal(ExcusedRuns(runs, windows), step)
    ensures ExcusedRuns(runs, windows) != [] && Last(ExcusedRuns(runs, windows)) != [] && Last(runs) != [] ==>
              || Last(ExcusedRuns(runs, windows)) == Last(runs)
              || Last(Last(ExcusedRuns(runs, windows))) + step <= Last(Last(runs))
  {
    hide Classify;
    hide Contiguous;
    hide Steps;
    if runs != [] {
      var front, run := runs[..|runs| - 1], Last(runs);
      assert runs == front + [run];
      StepsPrefix(Flatten(front), run, step);
      ExcusedStayMaximal(front, windows, step);
      var before := ExcusedRuns(front, windows);
      NonEmptyRun(run, step);
      if before != [] && Last(before) != [] {
        ExcusedRunsSplit(front, windows);
        var last := Last(before);
        var i :| 0 <= i < |front| && front[i] == last;
        RunInFlatten(front, i, Last(last));
        StepsAppend(Flatten(front), run, step, Last(last), run[0]);
        StepsAppend(Flatten(front), run, step, Last(last), Last(run));
        EachRunContiguous(front, step, |front| - 1);
        NonEmptyRun(Last(front), step);
        RunInFlatten(front, |front| - 1, Last(Last(front)));
        StepsAppend(Flatten(front), run, step, Last(Last(front)), run[0]);
      }
      if Excused(run, windows) {
        MaximalSnoc(before, run, step);
      }
    }
  }

  // ----- scanning again -----

  lemma StoredTimesAre(candles: CandleTable, scan: Scan, t: int)
    ensures t in StoredTimes(candles, scan) <==> scan.windowStart <= t <= scan.windowEnd && Held(candles, scan, t)
  {
    if Held(candles, scan, t) {
      assert CandleKey(scan.instrument, scan.step, t).openTime == t;
    }
  }

  /** The missing slots, ascending: the slots of the window that are not held. */
  lemma MissingIs(candles: CandleTable, scan: Scan)
    ensures Steps(Missing(candles, scan), scan.step)
    ensures forall t :: t in Missing(candles, scan)
              <==> t in Slots(scan.windowStart, scan.windowEnd, scan.step) && !Held(candles, scan, t)
  {
    hide Slots;
    hide Absent;
    hide Held;
    hide StoredTimes;
    var slots := Slots(scan.windowStart, scan.windowEnd, scan.step);
    SlotsStep(scan.windowStart, scan.windowEnd, scan.step);
    AbsentSteps(slots, StoredTimes(candles, scan), scan.step);
    forall t ensures t in Missing(candles, scan) <==> t in slots && !Held(candles, scan, t) {
      StoredTimesAre(candles, scan, t);
    }
  }

  /** Two ascending sequences with the same members are the same. */
  lemma {:induction false} SameMembers(a: seq<int>, b: seq<int>, step: Duration)
    requires Steps(a, step) && Steps(b, step) && forall t :: t in a <==> t in b
    ensures a == b
  {
    if b != [] {
      var y := b[0];
      assert y in b;
      assert y in a;
    }
    if a != [] {
      var x := a[0];
      assert x in a;
      assert x in b;
      InTail(a);
      InTail(b);
      assert a[0] == b[0];
      SameMembers(a[1..], b[1..], step);
    }
  }

  lemma {:induction false} SubRunsStep(runs: seq<seq<int>>, windows: seq<MaintenanceWindow>, step: Duration)
    requires Steps(Flatten(runs), step)
    ensures Steps(Flatten(ExcusedRuns(runs, windows)), step)
    ensures forall t :: t in Flatten(ExcusedRuns(runs, windows)) ==> t in Flatten(runs)
  {
    hide Steps;
    hide Classify;
    if runs == [] {
    } else {
      var front, run := runs[..|runs| - 1], Last(runs);
      StepsPrefix(Flatten(front), run, step);
      SubRunsStep(front, windows, step);
      var before := ExcusedRuns(front, windows);
      if Excused(run, windows) {
        FlattenSnoc(before, run);
        forall x, y | x in Flatten(before) && y in run ensures x + step <= y {
          StepsAppend(Flatten(front), run, step, x, y);
        }
        StepsSuffix(Flatten(front), run, step);
        StepsJoin(Flatten(before), run, step);
      }
    }
  }

  lemma {:induction false} StepsSuffix(a: seq<int>, b: seq<int>, step: Duration)
    requires Steps(a + b, step)
    ensures Steps(b, step)
  {
    if a == [] {
      assert a + b == b;
    } else {
      assert (a + b)[1..] == a[1..] + b;
      StepsSuffix(a[1..], b, step);
    }
  }

  lemma {:induction false} StepsJoin(a: seq<int>, b: seq<int>, step: Duration)
    requires Steps(a, step) && Steps(b, step) && forall x, y :: x in a && y in b ==> x + step <= y
    ensures Steps(a + b, step)
  {
    if a == [] {
      assert a + b == b;
    } else {
      assert (a + b)[0] == a[0] && (a + b)[1..] == a[1..] + b;
      InTail(a);
      StepsJoin(a[1..], b, step);
      var x := a[0];
      assert x in a;
      forall t | t in a[1..] + b ensures x + step <= t {
      }
    }
  }

  /** Every slot the scan wants repaired is one the backfill will fetch. */
  ghost predicate Repairable(db: Db, scan: Scan, gaps: seq<DetectedGap>, history: seq<Kline>) {
    forall i, t :: 0 <= i < |gaps| && gaps[i].classification == Unexplained && t in gaps[i].missing ==>
      Fetches(db, GapJob(scan, gaps[i]), history, t)
  }

  /** No checkpoint stands before the range it belongs to. */
  ghost predicate CheckpointsInRange(db: Db) {
    forall key :: key in db.checkpoints && db.checkpoints[key].last.Some? ==>
      key.rangeStart <= db.checkpoints[key].last.value
  }

  /** ... which every commit keeps. */
  lemma CommitKeepsCheckpointsInRange(db: Db, job: Job, history: seq<Kline>, now: int)
    requires CheckpointsInRange(db) && NextPage(db, job, history) != []
    ensures CheckpointsInRange(Commit(db, job, NextPage(db, job, history), now))
  {
    hide Upsert;
    hide Page;
    var page := NextPage(db, job, history);
    var from := ResumeFrom(db, job).value;
    assert from >= job.rangeStart;
    assert page[|page| - 1].openTime >= from;
  }

  /** ... and so every schedule of crashes and restarts. */
  lemma {:induction false} SchedulesKeepCheckpointsInRange(db: Db, job: Job, history: seq<Kline>, nows: seq<int>)
    requires CheckpointsInRange(db)
    ensures CheckpointsInRange(Commits(db, job, history, nows))
  {
    hide Commit;
    hide NextPage;
    hide CheckpointsInRange;
    if nows != [] {
      var n := |nows| - 1;
      SchedulesKeepCheckpointsInRange(db, job, history, nows[..n]);
      var before := Commits(db, job, history, nows[..n]);
      if NextPage(before, job, history) != [] {
        CommitKeepsCheckpointsInRange(before, job, history, nows[n]);
      }
    }
  }

  lemma FetchesWithin(db: Db, scan: Scan, gap: DetectedGap, history: seq<Kline>, t: int)
    requires CheckpointsInRange(db) && Fetches(db, GapJob(scan, gap), history, t)
    ensures gap.start <= t <= gap.end
  {
  }

  lemma RunsAre(candles: CandleTable, scan: Scan, windows: seq<MaintenanceWindow>) returns (runs: seq<seq<int>>)
    ensures Flatten(runs) == Missing(candles, scan) && Maximal(runs, scan.step)
    ensures forall i :: 0 <= i < |runs| ==> runs[i] != [] && Contiguous(runs[i], scan.step)
    ensures DetectedGaps(candles, scan, windows) == GapsOf(runs, windows)
    ensures Apart(GapsOf(runs, windows)) && Proper(GapsOf(runs, windows))
  {
    hide Slots;
    hide Absent;
    hide Flatten;
    hide Maximal;
    hide Contiguous;
    hide Steps;
    hide Apart;
    hide Classify;
    var missing := Missing(candles, scan);
    MissingIs(candles, scan);
    SortIsIdentity(missing, scan.step);
    runs := Runs(missing, scan.step);
    RunsAreMaximal(missing, scan.step);
    forall i | 0 <= i < |runs| ensures Contiguous(runs[i], scan.step) && runs[i][0] <= Last(runs[i]) {
      EachRunContiguous(runs, scan.step, i);
      ContiguousBounds(runs[i], scan.step);
      assert runs[i][0] in runs[i];
    }
    GapsApart(runs, scan.step, windows);
  }

  /** The database once the scan has backfilled what it found. */
  ghost function Rescanned(db: Db, scan: Scan, windows: seq<MaintenanceWindow>, detectedAt: int, history: seq<Kline>,
                           clock: nat -> int): Db
  {
    var gaps := DetectedGaps(db.candles, scan, windows);
    AfterGaps(Recorded(db, scan, gaps, detectedAt), scan, gaps, history, clock, |gaps|)
  }

  /** Recording the gaps moves no row and no resume point. */
  lemma RecordingMovesNothing(db: Db, scan: Scan, gaps: seq<DetectedGap>, detectedAt: int, history: seq<Kline>, t: int)
    ensures var recorded := Recorded(db, scan, gaps, detectedAt);
            && recorded.candles == db.candles
            && (forall i :: 0 <= i < |gaps| ==>
                  (Fills(recorded, scan, gaps[i], history, t) <==> Fills(db, scan, gaps[i], history, t)))
  {
    hide VenueAt;
  }

  /** A slot is still missing afterwards exactly if it was missing and no
      unexplained gap's backfill fetched it. */
  lemma StillMissing(db: Db, scan: Scan, windows: seq<MaintenanceWindow>, detectedAt: int, history: seq<Kline>,
                     clock: nat -> int, t: int)
    requires Spaced(history, scan.step)
    ensures var gaps := DetectedGaps(db.candles, scan, windows);
            t in Missing(Rescanned(db, scan, windows, detectedAt, history, clock).candles, scan)
            <==> && t in Missing(db.candles, scan)
                 && forall i :: 0 <= i < |gaps| ==> !Fills(db, scan, gaps[i], history, t)
  {
    hide Slots;
    hide Absent;
    hide AfterGaps;
    hide Apart;
    hide Spaced;
    hide Fetches;
    hide Held;
    hide Missing;
    hide Classify;
    var gaps := DetectedGaps(db.candles, scan, windows);
    var runs := RunsAre(db.candles, scan, windows);
    MissingIs(db.candles, scan);
    MissingIs(Rescanned(db, scan, windows, detectedAt, history, clock).candles, scan);
    HeldAfterGaps(Recorded(db, scan, gaps, detectedAt), scan, gaps, history, clock, |gaps|, t);
    RecordingMovesNothing(db, scan, gaps, detectedAt, history, t);
  }

  /** A slot of one run lies in no other gap's range. */
  lemma OneGapPerSlot(runs: seq<seq<int>>, step: Duration, windows: seq<MaintenanceWindow>, i: nat, j: nat, t: int)
    requires forall k :: 0 <= k < |runs| ==> runs[k] != [] && Contiguous(runs[k], step)
    requires Apart(GapsOf(runs, windows)) && i < |runs| && j < |runs|
    requires t in runs[i] && GapsOf(runs, windows)[j].start <= t <= GapsOf(runs, windows)[j].end
    ensures i == j
  {
    hide Classify;
    hide Contiguous;
    ContiguousBounds(runs[i], step);
    var gaps := GapsOf(runs, windows);
    assert gaps[i].start <= t <= gaps[i].end;
  }

  lemma {:induction false} ExcusedContains(runs: seq<seq<int>>, windows: seq<MaintenanceWindow>, i: nat, t: int)
    requires i < |runs| && t in runs[i] && Excused(runs[i], windows)
    ensures t in Flatten(ExcusedRuns(runs, windows))
  {
    hide Excused;
    var n := |runs| - 1;
    var before := ExcusedRuns(runs[..n], windows);
    if i < n {
      ExcusedContains(runs[..n], windows, i, t);
    }
    FlattenSnoc(before, runs[n]);
  }

  lemma {:induction false} ExcusedComesFrom(runs: seq<seq<int>>, windows: seq<MaintenanceWindow>, t: int)
    returns (i: nat)
    requires t in Flatten(ExcusedRuns(runs, windows))
    ensures i < |runs| && t in runs[i] && Excused(runs[i], windows)
  {
    hide Excused;
    var n := |runs| - 1;
    var before := ExcusedRuns(runs[..n], windows);
    FlattenSnoc(before, runs[n]);
    if Excused(runs[n], windows) && t in runs[n] {
      i := n;
    } else {
      i := ExcusedComesFrom(runs[..n], windows, t);
    }
  }

  /** If every slot of the unexplained gaps can be fetched, the slots still
      missing are those of the maintenance runs. */
  lemma LeavesTheExcused(db: Db, scan: Scan, runs: seq<seq<int>>, windows: seq<MaintenanceWindow>, detectedAt: int,
                         history: seq<Kline>,
                         clock: nat -> int, t: int)
    requires Spaced(history, scan.step) && CheckpointsInRange(db)
    requires forall i :: 0 <= i < |runs| ==> runs[i] != [] && Contiguous(runs[i], scan.step)
    requires Flatten(runs) == Missing(db.candles, scan)
    requires DetectedGaps(db.candles, scan, windows) == GapsOf(runs, windows) && Apart(GapsOf(runs, windows))
    requires Repairable(db, scan, GapsOf(runs, windows), history)
    ensures t in Missing(Rescanned(db, scan, windows, detectedAt, history, clock).candles, scan)
       <==> t in Flatten(ExcusedRuns(runs, windows))
  {
    hide Missing;
    hide AfterGaps;
    hide Apart;
    hide Contiguous;
    hide Flatten;
    hide ExcusedRuns;
    hide Rescanned;
    hide Fetches;
    hide CheckpointsInRange;
    hide Spaced;
    hide DetectedGaps;
    var gaps := GapsOf(runs, windows);
    StillMissing(db, scan, windows, detectedAt, history, clock, t);
    if t in Flatten(ExcusedRuns(runs, windows)) {
      var i := ExcusedComesFrom(runs, windows, t);
      RunInFlatten(runs, i, t);
      forall j | 0 <= j < |gaps| ensures !Fills(db, scan, gaps[j], history, t) {
        if Fills(db, scan, gaps[j], history, t) {
          FetchesWithin(db, scan, gaps[j], history, t);
          OneGapPerSlot(runs, scan.step, windows, i, j, t);
        }
      }
    }
    if t in Missing(db.candles, scan) {
      var i := FlattenInRun(runs, t);
      assert gaps[i] == GapOf(runs[i], windows);
      if Excused(runs[i], windows) {
        ExcusedContains(runs, windows, i, t);
      } else {
        assert Fills(db, scan, gaps[i], history, t);
      }
    }
  }

  /** ... and conversely. */
  lemma LeavingTheExcusedRepairs(db: Db, scan: Scan, runs: seq<seq<int>>, windows: seq<MaintenanceWindow>,
                                 detectedAt: int, history: seq<Kline>, clock: nat -> int)
    requires Spaced(history, scan.step) && CheckpointsInRange(db)
    requires forall i :: 0 <= i < |runs| ==> runs[i] != [] && Contiguous(runs[i], scan.step)
    requires Flatten(runs) == Missing(db.candles, scan)
    requires DetectedGaps(db.candles, scan, windows) == GapsOf(runs, windows) && Apart(GapsOf(runs, windows))
    requires forall t :: t in Missing(Rescanned(db, scan, windows, detectedAt, history, clock).candles, scan) ==>
               t in Flatten(ExcusedRuns(runs, windows))
    ensures Repairable(db, scan, GapsOf(runs, windows), history)
  {
    hide Missing;
    hide AfterGaps;
    hide Apart;
    hide Contiguous;
    hide Flatten;
    hide ExcusedRuns;
    hide Rescanned;
    hide Fetches;
    hide CheckpointsInRange;
    hide Spaced;
    hide DetectedGaps;
    var gaps := GapsOf(runs, windows);
    forall i, t | 0 <= i < |gaps| && gaps[i].classification == Unexplained && t in gaps[i].missing
      ensures Fetches(db, GapJob(scan, gaps[i]), history, t)
    {
      assert gaps[i] == GapOf(runs[i], windows);
      RunInFlatten(runs, i, t);
      StillMissing(db, scan, windows, detectedAt, history, clock, t);
      if t in Flatten(ExcusedRuns(runs, windows)) {
        var k := ExcusedComesFrom(runs, windows, t);
        ContiguousBounds(runs[k], scan.step);
        OneGapPerSlot(runs, scan.step, windows, i, k, t);
      } else {
        var j :| 0 <= j < |gaps| && Fills(db, scan, gaps[j], history, t);
        FetchesWithin(db, scan, gaps[j], history, t);
        OneGapPerSlot(runs, scan.step, windows, i, j, t);
      }
    }
  }

  lemma {:induction false} GapsOfInjective(a: seq<seq<int>>, b: seq<seq<int>>, windows: seq<MaintenanceWindow>)
    requires forall i :: 0 <= i < |a| ==> a[i] != []
    requires forall i :: 0 <= i < |b| ==> b[i] != []
    requires GapsOf(a, windows) == GapsOf(b, windows)
    ensures a == b
  {
    hide Classify;
    forall i | 0 <= i < |a| ensures a[i] == b[i] {
      assert GapsOf(a, windows)[i].missing == a[i] && GapsOf(b, windows)[i].missing == b[i];
    }
  }

  /** Scanning again finds exactly the maintenance gaps of the first scan if and
      only if every slot of its unexplained gaps could be fetched: the venue has
      the bar, no completed checkpoint stands for that range, and no resume
      point lies beyond it. */
  lemma RescanFindsOnlyMaintenance(db: Db, scan: Scan, windows: seq<MaintenanceWindow>, detectedAt: int,
                                   history: seq<Kline>, clock: nat -> int)
    requires Spaced(history, scan.step) && CheckpointsInRange(db)
    ensures var gaps := DetectedGaps(db.candles, scan, windows);
            DetectedGaps(Rescanned(db, scan, windows, detectedAt, history, clock).candles, scan, windows)
            == OnlyMaintenance(gaps)
            <==> Repairable(db, scan, gaps, history)
  {
    hide Missing;
    hide AfterGaps;
    hide Apart;
    hide Contiguous;
    hide Maximal;
    hide Steps;
    hide Flatten;
    hide ExcusedRuns;
    hide Rescanned;
    hide CheckpointsInRange;
    hide Spaced;
    hide DetectedGaps;
    hide OnlyMaintenance;
    hide Repairable;
    hide Runs;
    var after := Rescanned(db, scan, windows, detectedAt, history, clock);
    var gaps := DetectedGaps(db.candles, scan, windows);
    var runs := RunsAre(db.candles, scan, windows);
    var again := RunsAre(after.candles, scan, windows);
    MissingIs(db.candles, scan);
    MissingIs(after.candles, scan);
    var excused := ExcusedRuns(runs, windows);
    OnlyMaintenanceIsExcused(runs, windows);
    if Repairable(db, scan, gaps, history) {
      forall t ensures t in Flatten(again) <==> t in Flatten(excused) {
        LeavesTheExcused(db, scan, runs, windows, detectedAt, history, clock, t);
      }
      SubRunsStep(runs, windows, scan.step);
      SameMembers(Flatten(again), Flatten(excused), scan.step);
      ExcusedStayMaximal(runs, windows, scan.step);
      MaximalRunsAreTheRuns(excused, scan.step);
      MaximalRunsAreTheRuns(again, scan.step);
    }
    if DetectedGaps(after.candles, scan, windows) == OnlyMaintenance(gaps) {
      GapsOfInjective(again, excused, windows);
      LeavingTheExcusedRepairs(db, scan, runs, windows, detectedAt, history, clock);
    }
  }

  /** In particular: if the venue has every missing bar of the unexplained gaps and
      none of their ranges was ever started before, the second scan finds exactly
      the maintenance gaps. */
  lemma CompleteVenueRepairsAll(db: Db, scan: Scan, windows: seq<MaintenanceWindow>, detectedAt: int,
                                history: seq<Kline>, clock: nat -> int)
    requires Spaced(history, scan.step) && CheckpointsInRange(db)
    requires var gaps := DetectedGaps(db.candles, scan, windows);
             forall i, t :: 0 <= i < |gaps| && gaps[i].classification == Unexplained && t in gaps[i].missing ==>
               VenueAt(history, t).Some? && GapJob(scan, gaps[i]).Key() !in db.checkpoints
    ensures var gaps := DetectedGaps(db.candles, scan, windows);
            DetectedGaps(Rescanned(db, scan, windows, detectedAt, history, clock).candles, scan, windows)
            == OnlyMaintenance(gaps)
  {
    hide Missing;
    hide Rescanned;
    hide DetectedGaps;
    hide Contiguous;
    hide Flatten;
    hide Maximal;
    hide Apart;
    hide Spaced;
    hide CheckpointsInRange;
    hide OnlyMaintenance;
    hide VenueAt;
    var gaps := DetectedGaps(db.candles, scan, windows);
    var runs := RunsAre(db.candles, scan, windows);
    forall i, t | 0 <= i < |gaps| && gaps[i].classification == Unexplained && t in gaps[i].missing
      ensures Fetches(db, GapJob(scan, gaps[i]), history, t)
    {
      assert gaps[i] == GapOf(runs[i], windows);
      assert VenueAt(history, t).Some? && GapJob(scan, gaps[i]).Key() !in db.checkpoints;
      ContiguousBounds(runs[i], scan.step);
      assert gaps[i].start <= t <= gaps[i].end;
      assert ResumeFrom(db, GapJob(scan, gaps[i])) == Some(gaps[i].start);
    }
    RescanFindsOnlyMaintenance(db, scan, windows, detectedAt, history, clock);
  }
}
