/** Scans that die: whatever a dead scan leaves committed, one that runs through
    afterwards leaves what an undisturbed one would have left. */
module ScanRecovery {
  import opened Common
  import opened Candles
  import opened Backfills
  import opened BackfillRecovery
  import opened GapDetections
  import opened GapAgreement
  import opened GapRescan

  // ----- checkpoints that tell the truth -----

  /** Every venue bar of [lo, hi] is in the table. */
  ghost predicate HeldBetween(candles: CandleTable, scan: Scan, history: seq<Kline>, lo: int, hi: int) {
    forall t :: lo <= t <= hi && VenueAt(history, t).Some? ==> Held(candles, scan, t)
  }

  predicate OfScan(key: CheckpointKey, scan: Scan) {
    key.venue == scan.venue && key.instrument == scan.instrument && key.step == scan.step
  }

  /** The bars up to the checkpoint are in the table; if completed, all of them. */
  ghost predicate TellsTruth(c: Checkpoint, key: CheckpointKey, candles: CandleTable, scan: Scan, history: seq<Kline>) {
    && (c.last.Some? ==>
          VenueAt(history, c.last.value).Some? && HeldBetween(candles, scan, history, key.rangeStart, c.last.value))
    && (c.status == Completed ==> HeldBetween(candles, scan, history, key.rangeStart, key.rangeEnd))
  }

  ghost predicate Honest(db: Db, scan: Scan, history: seq<Kline>) {
    && CheckpointsInRange(db)
    && forall key :: key in db.checkpoints && OfScan(key, scan) ==>
         TellsTruth(db.checkpoints[key], key, db.candles, scan, history)
  }

  lemma NeverStartedIsHonest(db: Db, scan: Scan, history: seq<Kline>)
    requires CheckpointsInRange(db) && forall key :: key in db.checkpoints ==> !OfScan(key, scan)
    ensures Honest(db, scan, history)
  {
  }

  /** A request for part of the scanned series. */
  predicate ForScan(job: Job, scan: Scan) {
    OfScan(job.Key(), scan) && HonouredChunk(job)
  }

  lemma OverlaidHolds(before: CandleTable, after: CandleTable, job: Job, scan: Scan, history: seq<Kline>,
                      lo: int, hi: int, t: int)
    requires OfScan(job.Key(), scan) && Overlaid(before, after, job, history, lo, hi)
    ensures Held(after, scan, t) <==> Held(before, scan, t) || (lo <= t <= hi && VenueAt(history, t).Some?)
  {
    hide VenueAt;
    assert Held(after, scan, t) <==> Stored(after, job, t).Some?;
    assert Held(before, scan, t) <==> Stored(before, job, t).Some?;
  }

  /** A truth stays one when rows are added. */
  lemma TruthStays(c: Checkpoint, key: CheckpointKey, before: CandleTable, after: CandleTable, scan: Scan,
                   history: seq<Kline>)
    requires TellsTruth(c, key, before, scan, history)
    requires forall t :: Held(before, scan, t) ==> Held(after, scan, t)
    ensures TellsTruth(c, key, after, scan, history)
  {
    hide Held;
    hide VenueAt;
  }

  /** What the new checkpoint of a page says is true. */
  lemma PageTellsTruth(db: Db, scan: Scan, job: Job, history: seq<Kline>, now: int)
    requires Spaced(history, scan.step) && ForScan(job, scan) && Honest(db, scan, history)
    requires NextPage(db, job, history) != []
    ensures var after := Commit(db, job, NextPage(db, job, history), now);
            && (forall t :: Held(db.candles, scan, t) ==> Held(after.candles, scan, t))
            && TellsTruth(after.checkpoints[job.Key()], job.Key(), after.candles, scan, history)
  {
    hide Upsert;
    hide Page;
    hide Overlaid;
    hide Spaced;
    hide Held;
    hide VenueAt;
    hide CheckpointsInRange;
    var page := NextPage(db, job, history);
    var from := ResumeFrom(db, job).value;
    var after, last := Commit(db, job, page, now), page[|page| - 1].openTime;
    PageOverlays(db.candles, job, history, from, now);
    forall t ensures Held(after.candles, scan, t)
                <==> Held(db.candles, scan, t) || (from <= t <= last && VenueAt(history, t).Some?)
    {
      OverlaidHolds(db.candles, after.candles, job, scan, history, from, last, t);
    }
    PageLookup(history, job.step, from, job.rangeEnd, job.chunkSize, last);
    FindBar(page, job.step, |page| - 1);
    forall t | job.rangeStart <= t < from && VenueAt(history, t).Some? ensures Held(db.candles, scan, t) {
      var at := db.checkpoints[job.Key()].last.value;
      if t > at {
        NothingWithinAStep(history, job.step, at, t);
      }
    }
    if after.checkpoints[job.Key()].status == Completed {
      LastPageIsLast(job, history, from);
    }
  }

  /** Every commit keeps the checkpoints honest ... */
  lemma CommitKeepsHonest(db: Db, scan: Scan, job: Job, history: seq<Kline>, now: int)
    requires Spaced(history, scan.step) && ForScan(job, scan) && Honest(db, scan, history)
    requires NextPage(db, job, history) != []
    ensures Honest(Commit(db, job, NextPage(db, job, history), now), scan, history)
  {
    hide Spaced;
    hide NextPage;
    hide TellsTruth;
    hide Held;
    hide CheckpointsInRange;
    hide Upsert;
    var after := Commit(db, job, NextPage(db, job, history), now);
    CommitKeepsCheckpointsInRange(db, job, history, now);
    PageTellsTruth(db, scan, job, history, now);
    forall key | key in after.checkpoints && OfScan(key, scan)
      ensures TellsTruth(after.checkpoints[key], key, after.candles, scan, history)
    {
      if key != job.Key() {
        TruthStays(db.checkpoints[key], key, db.candles, after.candles, scan, history);
      }
    }
  }

  /** ... and so every schedule of crashes and restarts ... */
  lemma {:induction false} SchedulesKeepHonest(db: Db, scan: Scan, job: Job, history: seq<Kline>, nows: seq<int>)
    requires Spaced(history, scan.step) && ForScan(job, scan) && Honest(db, scan, history)
    ensures Honest(Commits(db, job, history, nows), scan, history)
  {
    hide Commit;
    hide NextPage;
    hide Honest;
    hide Spaced;
    if nows != [] {
      var n := |nows| - 1;
      SchedulesKeepHonest(db, scan, job, history, nows[..n]);
      var before := Commits(db, job, history, nows[..n]);
      if NextPage(before, job, history) != [] {
        CommitKeepsHonest(before, scan, job, history, nows[n]);
      }
    }
  }

  /** ... and the backfills of a scan. */
  lemma {:induction false} GapsKeepHonest(db: Db, scan: Scan, gaps: seq<DetectedGap>, history: seq<Kline>,
                                          clock: nat -> int, n: nat)
    requires Spaced(history, scan.step) && Honest(db, scan, history) && n <= |gaps|
    ensures Honest(AfterGaps(db, scan, gaps, history, clock, n), scan, history)
  {
    hide Backfill;
    hide Commits;
    hide Honest;
    hide Spaced;
    if n > 0 {
      GapsKeepHonest(db, scan, gaps, history, clock, n - 1);
      var before := AfterGaps(db, scan, gaps, history, clock, n - 1);
      var job := GapJob(scan, gaps[n - 1]);
      var pages := CallIsCommits(before, job, history, clock(n - 1));
      SchedulesKeepHonest(before, scan, job, history, Repeat(clock(n - 1), pages));
    }
  }

  lemma RecordingKeepsHonest(db: Db, scan: Scan, gaps: seq<DetectedGap>, detectedAt: int, history: seq<Kline>)
    requires Honest(db, scan, history)
    ensures Honest(Recorded(db, scan, gaps, detectedAt), scan, history)
  {
    hide TellsTruth;
  }

  /** With honest checkpoints a gap's backfill fetches a slot that is not held if and
      only if it lies in the gap and the venue has it. */
  lemma HonestFetches(db: Db, scan: Scan, gap: DetectedGap, history: seq<Kline>, t: int)
    requires Spaced(history, scan.step) && Honest(db, scan, history) && !Held(db.candles, scan, t)
    ensures Fetches(db, GapJob(scan, gap), history, t)
       <==> gap.start <= t <= gap.end && VenueAt(history, t).Some?
  {
    hide Spaced;
    hide VenueAt;
    hide Held;
    hide CheckpointsInRange;
    var job := GapJob(scan, gap);
    if Fetches(db, job, history, t) {
      FetchesWithin(db, scan, gap, history, t);
    }
    if gap.start <= t <= gap.end && VenueAt(history, t).Some? && job.Key() in db.checkpoints {
      var c := db.checkpoints[job.Key()];
      assert TellsTruth(c, job.Key(), db.candles, scan, history);
      if c.last.Some? && t < c.last.value + scan.step {
        NothingWithinAStep(history, scan.step, c.last.value, t);
      }
    }
  }

  // ----- which slots a scan wants -----

  /** The slot lies in a gap the scan calls unexplained. */
  predicate Wanted(candles: CandleTable, scan: Scan, windows: seq<MaintenanceWindow>, t: int) {
    var gaps := DetectedGaps(candles, scan, windows);
    exists i :: 0 <= i < |gaps| && gaps[i].classification == Unexplained && t in gaps[i].missing
  }

  lemma WantedIs(candles: CandleTable, scan: Scan, windows: seq<MaintenanceWindow>, runs: seq<seq<int>>, i: nat, t: int)
    requires forall k :: 0 <= k < |runs| ==> runs[k] != [] && Contiguous(runs[k], scan.step)
    requires DetectedGaps(candles, scan, windows) == GapsOf(runs, windows) && Apart(GapsOf(runs, windows))
    requires i < |runs| && t in runs[i]
    ensures Wanted(candles, scan, windows, t) <==> Classify(runs[i][0], Last(runs[i]), windows) == Unexplained
  {
    hide Classify;
    hide Contiguous;
    hide Apart;
    hide DetectedGaps;
    var gaps := GapsOf(runs, windows);
    assert gaps[i] == GapOf(runs[i], windows);
    if Wanted(candles, scan, windows, t) {
      var k :| 0 <= k < |gaps| && gaps[k].classification == Unexplained && t in gaps[k].missing;
      assert gaps[k] == GapOf(runs[k], windows);
      ContiguousBounds(runs[k], scan.step);
      OneGapPerSlot(runs, scan.step, windows, i, k, t);
    }
  }

  /** A scan that runs through leaves exactly the missing slots that it does not
      want or the venue does not have. */
  lemma ScanLeaves(db: Db, scan: Scan, windows: seq<MaintenanceWindow>, detectedAt: int, history: seq<Kline>,
                   clock: nat -> int, t: int)
    requires Spaced(history, scan.step) && Honest(db, scan, history)
    ensures t in Missing(Rescanned(db, scan, windows, detectedAt, history, clock).candles, scan)
       <==> && t in Missing(db.candles, scan)
            && !(Wanted(db.candles, scan, windows, t) && VenueAt(history, t).Some?)
  {
    hide Missing;
    hide Rescanned;
    hide DetectedGaps;
    hide Classify;
    hide Contiguous;
    hide Apart;
    hide Maximal;
    hide Flatten;
    hide Fetches;
    hide VenueAt;
    hide Spaced;
    hide Honest;
    hide Held;
    hide Wanted;
    StillMissing(db, scan, windows, detectedAt, history, clock, t);
    if t in Missing(db.candles, scan) {
      var runs := RunsAre(db.candles, scan, windows);
      var gaps := GapsOf(runs, windows);
      var m := FlattenInRun(runs, t);
      WantedIs(db.candles, scan, windows, runs, m, t);
      MissingIs(db.candles, scan);
      forall i | 0 <= i < |gaps|
        ensures Fills(db, scan, gaps[i], history, t) <==>
                i == m && Wanted(db.candles, scan, windows, t) && VenueAt(history, t).Some?
      {
        FillsIs(db, scan, windows, runs, history, m, i, t);
      }
    }
  }

  lemma FillsIs(db: Db, scan: Scan, windows: seq<MaintenanceWindow>, runs: seq<seq<int>>, history: seq<Kline>,
                m: nat, i: nat, t: int)
    requires Spaced(history, scan.step) && Honest(db, scan, history) && !Held(db.candles, scan, t)
    requires forall k :: 0 <= k < |runs| ==> runs[k] != [] && Contiguous(runs[k], scan.step)
    requires Apart(GapsOf(runs, windows)) && m < |runs| && i < |runs| && t in runs[m]
    ensures Fills(db, scan, GapsOf(runs, windows)[i], history, t) <==>
              i == m && VenueAt(history, t).Some? && Classify(runs[m][0], Last(runs[m]), windows) == Unexplained
  {
    hide Classify;
    hide Contiguous;
    hide Apart;
    hide Fetches;
    hide VenueAt;
    hide Spaced;
    hide Honest;
    hide Held;
    var gap := GapsOf(runs, windows)[i];
    assert gap == GapOf(runs[i], windows);
    HonestFetches(db, scan, gap, history, t);
    ContiguousBounds(runs[m], scan.step);
    if gap.start <= t <= gap.end {
      OneGapPerSlot(runs, scan.step, windows, m, i, t);
    }
  }

  // ----- gaps of fewer slots -----

  lemma {:induction false} NoJoin(runs: seq<seq<int>>, step: Duration, k: nat)
    requires Maximal(runs, step) && 0 < k < |runs| && runs[k - 1] != [] && runs[k] != []
    ensures runs[k][0] - Last(runs[k - 1]) != step
  {
    hide Contiguous;
    if k < |runs| - 1 {
      NoJoin(runs[..|runs| - 1], step, k);
    }
  }

  /** Maximal runs of slots. */
  ghost predicate Split(runs: seq<seq<int>>, step: Duration) {
    && Maximal(runs, step) && Steps(Flatten(runs), step)
    && forall k :: 0 <= k < |runs| ==> runs[k] != [] && Contiguous(runs[k], step)
  }

  /** The slot right after one of a run, if it is in any run, is in the same. */
  lemma NextInRun(runs: seq<seq<int>>, step: Duration, i: nat, x: int)
    requires Split(runs, step) && i < |runs| && x in runs[i] && x + step in Flatten(runs)
    ensures x + step in runs[i]
  {
    hide Flatten;
    hide Maximal;
    hide Steps;
    hide Contiguous;
    var y := x + step;
    var k := FlattenInRun(runs, y);
    ContiguousBounds(runs[i], step);
    ContiguousBounds(runs[k], step);
    if k < i {
      RunsApart(runs, step, k, i, y, x);
    } else if k > i {
      RunsApart(runs, step, i, k, Last(runs[i]), y);
      RunsApart(runs, step, i, k, x, runs[k][0]);
      if k > i + 1 {
        RunsApart(runs, step, i, i + 1, x, runs[i + 1][0]);
        RunsApart(runs, step, i + 1, k, runs[i + 1][0], y);
      } else {
        NoJoin(runs, step, k);
      }
    }
  }

  lemma PreviousInRun(runs: seq<seq<int>>, step: Duration, i: nat, x: int)
    requires Split(runs, step) && i < |runs| && x in runs[i] && x - step in Flatten(runs)
    ensures x - step in runs[i]
  {
    hide Flatten;
    hide Maximal;
    hide Steps;
    hide Contiguous;
    var y := x - step;
    var k := FlattenInRun(runs, y);
    if k != i {
      RunInFlatten(runs, i, x);
      NextInRun(runs, step, k, y);
      InOneRun(runs, step, i, k, x);
    }
  }

  lemma InOneRun(runs: seq<seq<int>>, step: Duration, i: nat, k: nat, x: int)
    requires Split(runs, step) && i < |runs| && k < |runs| && x in runs[i] && x in runs[k]
    ensures i == k
  {
    hide Flatten;
    hide Maximal;
    hide Steps;
    hide Contiguous;
    if i < k {
      RunsApart(runs, step, i, k, x, x);
    } else if k < i {
      RunsApart(runs, step, k, i, x, x);
    }
  }

  lemma {:induction false} UpFrom(runs: seq<seq<int>>, step: Duration, i: nat, run: seq<int>, q: nat, r: nat)
    requires Split(runs, step) && i < |runs| && Contiguous(run, step)
    requires forall x :: x in run ==> x in Flatten(runs)
    requires q <= r < |run| && run[q] in runs[i]
    ensures run[r] in runs[i]
  {
    hide Split;
    hide Flatten;
    if q < r {
      UpFrom(runs, step, i, run, q, r - 1);
      assert run[r] == run[r - 1] + step;
      NextInRun(runs, step, i, run[r - 1]);
    }
  }

  lemma {:induction false} DownFrom(runs: seq<seq<int>>, step: Duration, i: nat, run: seq<int>, q: nat, r: nat)
    requires Split(runs, step) && i < |runs| && Contiguous(run, step)
    requires forall x :: x in run ==> x in Flatten(runs)
    requires r <= q < |run| && run[q] in runs[i]
    ensures run[r] in runs[i]
    decreases q - r
  {
    hide Split;
    hide Flatten;
    if r < q {
      DownFrom(runs, step, i, run, q, r + 1);
      assert run[r] == run[r + 1] - step;
      PreviousInRun(runs, step, i, run[r + 1]);
    }
  }

  /** A contiguous run of the same slots lies inside the maximal one it meets. */
  lemma RunInside(runs: seq<seq<int>>, step: Duration, i: nat, run: seq<int>, t: int)
    requires Split(runs, step) && i < |runs| && Contiguous(run, step)
    requires forall x :: x in run ==> x in Flatten(runs)
    requires t in run && t in runs[i]
    ensures forall x :: x in run ==> x in runs[i]
  {
    hide Split;
    hide Flatten;
    var q :| 0 <= q < |run| && run[q] == t;
    forall r | 0 <= r < |run| ensures run[r] in runs[i] {
      if q <= r {
        UpFrom(runs, step, i, run, q, r);
      } else {
        DownFrom(runs, step, i, run, q, r);
      }
    }
  }

  /** What no maintenance window meets, no narrower range meets either. */
  lemma NarrowerIsUnexplained(start: int, end: int, start2: int, end2: int, windows: seq<MaintenanceWindow>)
    requires start <= start2 && end2 <= end && Classify(start, end, windows) == Unexplained
    ensures Classify(start2, end2, windows) == Unexplained
  {
  }

  /** Fewer slots are missing, and none of a maintenance gap less. */
  ghost predicate Fewer(a: CandleTable, b: CandleTable, scan: Scan, windows: seq<MaintenanceWindow>) {
    && (forall x :: x in Missing(b, scan) ==> x in Missing(a, scan))
    && (forall x :: x in Missing(a, scan) && !Wanted(a, scan, windows, x) ==> x in Missing(b, scan))
  }

  lemma Bounds(run: seq<int>, other: seq<int>, step: Duration)
    requires Contiguous(run, step) && Contiguous(other, step) && forall x :: x in other ==> x in run
    ensures run[0] <= other[0] && Last(other) <= Last(run)
  {
    hide Contiguous;
    NonEmptyRun(other, step);
    NonEmptyRun(run, step);
    ContiguousBounds(run, step);
    assert other[0] in other && Last(other) in other;
  }

  /** A slot that stays missing stays as explained or unexplained as it was. */
  lemma SameClass(a: CandleTable, b: CandleTable, scan: Scan, windows: seq<MaintenanceWindow>, t: int)
    requires Fewer(a, b, scan, windows) && t in Missing(b, scan)
    ensures Wanted(a, scan, windows, t) <==> Wanted(b, scan, windows, t)
  {
    hide Missing;
    hide Wanted;
    hide DetectedGaps;
    hide Classify;
    hide Contiguous;
    hide Maximal;
    hide Steps;
    hide Flatten;
    hide Apart;
    var runs := RunsAre(a, scan, windows);
    var others := RunsAre(b, scan, windows);
    MissingIs(a, scan);
    MissingIs(b, scan);
    var i := FlattenInRun(runs, t);
    var j := FlattenInRun(others, t);
    forall x | x in others[j] ensures x in Flatten(runs) {
      RunInFlatten(others, j, x);
    }
    RunInside(runs, scan.step, i, others[j], t);
    Bounds(runs[i], others[j], scan.step);
    WantedIs(a, scan, windows, runs, i, t);
    WantedIs(b, scan, windows, others, j, t);
    if Wanted(a, scan, windows, t) {
      NarrowerIsUnexplained(runs[i][0], Last(runs[i]), others[j][0], Last(others[j]), windows);
    } else {
      forall x | x in runs[i] ensures x in Flatten(others) {
        RunInFlatten(runs, i, x);
        WantedIs(a, scan, windows, runs, i, x);
      }
      RunInside(others, scan.step, j, runs[i], t);
      Bounds(others[j], runs[i], scan.step);
    }
  }

  // ----- scans that die -----

  /** When a scan started, what its backfills read as the time, and where it died. */
  datatype Death = Death(detectedAt: int, clock: nat -> int, at: Progress)

  /** A scan that finds these gaps can die there. */
  predicate Possible(at: Progress, gaps: seq<DetectedGap>) {
    at.Stopped? ==> at.done < |gaps| && gaps[at.done].classification == Unexplained
  }

  /** What a number of scans in a row leave, each dead before its end; a death at a
      point its scan never gets to leaves nothing. */
  ghost function AfterDeaths(db: Db, scan: Scan, windows: seq<MaintenanceWindow>, history: seq<Kline>,
                             deaths: seq<Death>): Db
  {
    if deaths == [] then db
    else
      var before := AfterDeaths(db, scan, windows, history, Front(deaths));
      DeadScan(before, scan, windows, history, Last(deaths))
  }

  ghost function DeadScan(db: Db, scan: Scan, windows: seq<MaintenanceWindow>, history: seq<Kline>, death: Death): Db {
    var gaps := DetectedGaps(db.candles, scan, windows);
    if Possible(death.at, gaps) then StateAt(db, scan, gaps, death.detectedAt, history, death.clock, death.at) else db
  }

  /** The pages a dead backfill has committed hold nothing a whole call would not. */
  lemma CommitsHold(db: Db, scan: Scan, gap: DetectedGap, history: seq<Kline>, nows: seq<int>, t: int)
    requires Spaced(history, scan.step)
    ensures var after := Commits(db, GapJob(scan, gap), history, nows);
            && (Held(db.candles, scan, t) ==> Held(after.candles, scan, t))
            && (Held(after.candles, scan, t) ==>
                  Held(db.candles, scan, t) || Fetches(db, GapJob(scan, gap), history, t))
  {
    hide Spaced;
    hide VenueAt;
    hide Commits;
    hide Overlaid;
    hide Held;
    var job := GapJob(scan, gap);
    if ResumeFrom(db, job).None? {
      ExhaustedStays(db, job, history, nows);
    } else {
      var lo := ResumeFrom(db, job).value;
      EveryCommittedState(db, job, history, nows, lo);
      var after := Commits(db, job, history, nows);
      if after != db {
        OverlaidHolds(db.candles, after.candles, job, scan, history, lo, after.checkpoints[job.Key()].last.value, t);
      }
    }
  }

  /** A dead scan has filled only slots it wanted and the venue has. */
  lemma DeadScanLeaves(db: Db, scan: Scan, windows: seq<MaintenanceWindow>, history: seq<Kline>, death: Death, t: int)
    requires Spaced(history, scan.step) && Honest(db, scan, history)
    ensures var after := DeadScan(db, scan, windows, history, death).candles;
            && (t in Missing(after, scan) ==> t in Missing(db.candles, scan))
            && (t in Missing(db.candles, scan)
                && !(Wanted(db.candles, scan, windows, t) && VenueAt(history, t).Some?) ==>
                  t in Missing(after, scan))
  {
    hide Missing;
    hide DetectedGaps;
    hide Classify;
    hide Contiguous;
    hide Apart;
    hide Maximal;
    hide Flatten;
    hide Fills;
    hide VenueAt;
    hide Spaced;
    hide Honest;
    hide Held;
    hide Wanted;
    hide Commits;
    hide AfterGaps;
    hide Recorded;
    var after := DeadScan(db, scan, windows, history, death);
    MissingIs(db.candles, scan);
    MissingIs(after.candles, scan);
    var runs := RunsAre(db.candles, scan, windows);
    if death.at.Stopped? && Possible(death.at, GapsOf(runs, windows)) {
      DeadScanHolds(db, scan, windows, runs, history, death, t);
      if t in Missing(db.candles, scan) && Held(after.candles, scan, t) {
        var i :| 0 <= i < |runs| && Fills(db, scan, GapsOf(runs, windows)[i], history, t);
        var m := FlattenInRun(runs, t);
        WantedIs(db.candles, scan, windows, runs, m, t);
        FillsIs(db, scan, windows, runs, history, m, i, t);
      }
    }
  }

  lemma DeadScanHolds(db: Db, scan: Scan, windows: seq<MaintenanceWindow>, runs: seq<seq<int>>, history: seq<Kline>,
                      death: Death, t: int)
    requires Spaced(history, scan.step)
    requires forall k :: 0 <= k < |runs| ==> runs[k] != []
    requires DetectedGaps(db.candles, scan, windows) == GapsOf(runs, windows)
    requires Apart(GapsOf(runs, windows)) && Proper(GapsOf(runs, windows))
    requires death.at.Stopped? && Possible(death.at, GapsOf(runs, windows))
    ensures var after := DeadScan(db, scan, windows, history, death).candles;
            && (Held(db.candles, scan, t) ==> Held(after, scan, t))
            && (Held(after, scan, t) ==>
                  || Held(db.candles, scan, t)
                  || exists i :: 0 <= i < |runs| && Fills(db, scan, GapsOf(runs, windows)[i], history, t))
  {
    hide DetectedGaps;
    hide Classify;
    hide Apart;
    hide Proper;
    hide VenueAt;
    hide Spaced;
    hide Held;
    hide Commits;
    hide AfterGaps;
    hide Recorded;
    hide ResumeFrom;
    var gaps, n := GapsOf(runs, windows), death.at.done;
    var recorded := Recorded(db, scan, gaps, death.detectedAt);
    RecordingMovesNothing(db, scan, gaps, death.detectedAt, history, t);
    HeldAfterGaps(recorded, scan, gaps, history, death.clock, n, t);
    LaterGapsUnaffected(recorded, scan, gaps, history, death.clock, n, n);
    var before := AfterGaps(recorded, scan, gaps, history, death.clock, n);
    CommitsHold(before, scan, gaps[n], history, Repeat(death.clock(n), death.at.pages), t);
    if Fetches(before, GapJob(scan, gaps[n]), history, t) {
      assert Fills(recorded, scan, gaps[n], history, t);
    }
  }

  lemma DeadScanKeepsHonest(db: Db, scan: Scan, windows: seq<MaintenanceWindow>, history: seq<Kline>, death: Death)
    requires Spaced(history, scan.step) && Honest(db, scan, history)
    ensures Honest(DeadScan(db, scan, windows, history, death), scan, history)
  {
    hide DetectedGaps;
    hide Honest;
    hide Spaced;
    hide Commits;
    hide AfterGaps;
    hide Recorded;
    var gaps := DetectedGaps(db.candles, scan, windows);
    if death.at.Stopped? && Possible(death.at, gaps) {
      var recorded := Recorded(db, scan, gaps, death.detectedAt);
      RecordingKeepsHonest(db, scan, gaps, death.detectedAt, history);
      GapsKeepHonest(recorded, scan, gaps, history, death.clock, death.at.done);
      SchedulesKeepHonest(AfterGaps(recorded, scan, gaps, history, death.clock, death.at.done), scan,
                          GapJob(scan, gaps[death.at.done]), history,
                          Repeat(death.clock(death.at.done), death.at.pages));
    }
  }

  // ----- the guarantees -----

  /** What is still missing was missing, as explained or unexplained as before; and
      nothing is filled but unexplained slots the venue has. */
  ghost predicate OnlyRepaired(a: CandleTable, b: CandleTable, scan: Scan, windows: seq<MaintenanceWindow>,
                               history: seq<Kline>)
  {
    && (forall t :: t in Missing(b, scan) ==>
          t in Missing(a, scan) && (Wanted(b, scan, windows, t) <==> Wanted(a, scan, windows, t)))
    && (forall t :: t in Missing(a, scan) && !(Wanted(a, scan, windows, t) && VenueAt(history, t).Some?) ==>
          t in Missing(b, scan))
  }

  lemma OneDeathOnlyRepairs(db: Db, scan: Scan, windows: seq<MaintenanceWindow>, history: seq<Kline>, death: Death)
    requires Spaced(history, scan.step) && Honest(db, scan, history)
    ensures OnlyRepaired(db.candles, DeadScan(db, scan, windows, history, death).candles, scan, windows, history)
  {
    hide Missing;
    hide Wanted;
    hide VenueAt;
    hide Spaced;
    hide Honest;
    hide DeadScan;
    var after := DeadScan(db, scan, windows, history, death);
    forall t ensures
        && (t in Missing(after.candles, scan) ==> t in Missing(db.candles, scan))
        && (t in Missing(db.candles, scan) && !(Wanted(db.candles, scan, windows, t) && VenueAt(history, t).Some?) ==>
              t in Missing(after.candles, scan))
    {
      DeadScanLeaves(db, scan, windows, history, death, t);
    }
    forall t | t in Missing(after.candles, scan)
      ensures Wanted(after.candles, scan, windows, t) <==> Wanted(db.candles, scan, windows, t)
    {
      SameClass(db.candles, after.candles, scan, windows, t);
    }
  }

  lemma RepairsCompose(a: CandleTable, b: CandleTable, c: CandleTable, scan: Scan, windows: seq<MaintenanceWindow>,
                       history: seq<Kline>)
    requires OnlyRepaired(a, b, scan, windows, history) && OnlyRepaired(b, c, scan, windows, history)
    ensures OnlyRepaired(a, c, scan, windows, history)
  {
    hide Missing;
    hide Wanted;
    hide VenueAt;
  }

  /** After any number of scans that died, what a scan finds is what was there before
      them, less some unexplained slots that the venue has. */
  lemma {:induction false} DeathsOnlyRepair(db: Db, scan: Scan, windows: seq<MaintenanceWindow>, history: seq<Kline>,
                                            deaths: seq<Death>)
    requires Spaced(history, scan.step) && Honest(db, scan, history)
    ensures var after := AfterDeaths(db, scan, windows, history, deaths);
            Honest(after, scan, history) && OnlyRepaired(db.candles, after.candles, scan, windows, history)
  {
    hide Spaced;
    hide Honest;
    hide DeadScan;
    hide OnlyRepaired;
    if deaths == [] {
      NothingRepaired(db.candles, scan, windows, history);
    } else {
      var before := AfterDeaths(db, scan, windows, history, Front(deaths));
      DeathsOnlyRepair(db, scan, windows, history, Front(deaths));
      DeadScanKeepsHonest(before, scan, windows, history, Last(deaths));
      OneDeathOnlyRepairs(before, scan, windows, history, Last(deaths));
      RepairsCompose(db.candles, before.candles, DeadScan(before, scan, windows, history, Last(deaths)).candles,
                     scan, windows, history);
    }
  }

  lemma NothingRepaired(candles: CandleTable, scan: Scan, windows: seq<MaintenanceWindow>, history: seq<Kline>)
    ensures OnlyRepaired(candles, candles, scan, windows, history)
  {
    hide Missing;
    hide Wanted;
    hide VenueAt;
  }

  /** ... and the first one that runs through leaves exactly the missing slots that
      one undisturbed scan would have left, so scanning again finds the same. */
  lemma DeathsDoNotMatter(db: Db, scan: Scan, windows: seq<MaintenanceWindow>, history: seq<Kline>,
                          deaths: seq<Death>, detectedAt: int, clock: nat -> int, alone: int, other: nat -> int)
    requires Spaced(history, scan.step) && Honest(db, scan, history)
    ensures var last := AfterDeaths(db, scan, windows, history, deaths);
            var after := Rescanned(last, scan, windows, detectedAt, history, clock).candles;
            var undisturbed := Rescanned(db, scan, windows, alone, history, other).candles;
            && Missing(after, scan) == Missing(undisturbed, scan)
            && DetectedGaps(after, scan, windows) == DetectedGaps(undisturbed, scan, windows)
  {
    hide Missing;
    hide Wanted;
    hide VenueAt;
    hide Spaced;
    hide Honest;
    hide Rescanned;
    hide AfterDeaths;
    hide Steps;
    var last := AfterDeaths(db, scan, windows, history, deaths);
    var after := Rescanned(last, scan, windows, detectedAt, history, clock).candles;
    var undisturbed := Rescanned(db, scan, windows, alone, history, other).candles;
    DeathsOnlyRepair(db, scan, windows, history, deaths);
    MissingIs(after, scan);
    MissingIs(undisturbed, scan);
    forall t ensures t in Missing(after, scan) <==> t in Missing(undisturbed, scan) {
      ScanLeaves(last, scan, windows, detectedAt, history, clock, t);
      ScanLeaves(db, scan, windows, alone, history, other, t);
    }
    SameMembers(Missing(after, scan), Missing(undisturbed, scan), scan.step);
  }

  /** So after any number of scans that died, one that runs through leaves only the
      maintenance gaps there were before them, if and only if the venue has every
      slot of the unexplained ones. */
  lemma RecoveredIffVenueHas(db: Db, scan: Scan, windows: seq<MaintenanceWindow>, history: seq<Kline>,
                             deaths: seq<Death>, detectedAt: int, clock: nat -> int)
    requires Spaced(history, scan.step) && Honest(db, scan, history)
    ensures var last := AfterDeaths(db, scan, windows, history, deaths);
            DetectedGaps(Rescanned(last, scan, windows, detectedAt, history, clock).candles, scan, windows)
            == OnlyMaintenance(DetectedGaps(db.candles, scan, windows))
            <==> forall t :: Wanted(db.candles, scan, windows, t) ==> VenueAt(history, t).Some?
  {
    hide DetectedGaps;
    hide VenueAt;
    hide Spaced;
    hide Rescanned;
    hide AfterDeaths;
    hide OnlyMaintenance;
    hide TellsTruth;
    hide CheckpointsInRange;
    hide Repairable;
    hide Wanted;
    DeathsDoNotMatter(db, scan, windows, history, deaths, detectedAt, clock, detectedAt, clock);
    RescanFindsOnlyMaintenance(db, scan, windows, detectedAt, history, clock);
    RepairableIff(db, scan, windows, history);
  }

  lemma RepairableIff(db: Db, scan: Scan, windows: seq<MaintenanceWindow>, history: seq<Kline>)
    requires Spaced(history, scan.step) && Honest(db, scan, history)
    ensures Repairable(db, scan, DetectedGaps(db.candles, scan, windows), history)
       <==> forall t :: Wanted(db.candles, scan, windows, t) ==> VenueAt(history, t).Some?
  {
    hide Missing;
    hide DetectedGaps;
    hide VenueAt;
    hide Spaced;
    hide Fetches;
    hide Honest;
    hide Classify;
    hide Contiguous;
    hide Maximal;
    hide Flatten;
    hide Apart;
    hide Held;
    var runs := RunsAre(db.candles, scan, windows);
    var gaps := GapsOf(runs, windows);
    MissingIs(db.candles, scan);
    forall i, t | 0 <= i < |gaps| && t in gaps[i].missing
      ensures Fetches(db, GapJob(scan, gaps[i]), history, t) <==> VenueAt(history, t).Some?
    {
      assert gaps[i] == GapOf(runs[i], windows);
      RunInFlatten(runs, i, t);
      ContiguousBounds(runs[i], scan.step);
      HonestFetches(db, scan, gaps[i], history, t);
    }
    if forall t :: Wanted(db.candles, scan, windows, t) ==> VenueAt(history, t).Some? {
      forall i, t | 0 <= i < |gaps| && gaps[i].classification == Unexplained && t in gaps[i].missing
        ensures Fetches(db, GapJob(scan, gaps[i]), history, t)
      {
        assert Wanted(db.candles, scan, windows, t);
      }
    }
  }
}
