/** The checkpointed OHLCV backfill (infrastructure/jobs/ohlcv_backfill_job.py):
    fetch a page, upsert it, move the checkpoint, commit; die anywhere, resume. */
module Backfills {
  import opened Common
  import opened Candles

  datatype Ohlcv = Ohlcv(open: real, high: real, low: real, close: real, volume: real, tradeCount: nat)

  datatype Kline = Kline(openTime: int, data: Ohlcv)

  datatype Row = Row(data: Ohlcv, isClosed: bool, source: nat)

  datatype CandleKey = CandleKey(instrument: nat, step: Duration, openTime: int)

  datatype Status = InProgress | Completed

  datatype Checkpoint = Checkpoint(last: Option<int>, status: Status, updatedAt: int)

  datatype CheckpointKey = CheckpointKey(venue: nat, instrument: nat, step: Duration, rangeStart: int, rangeEnd: int)

  type CandleTable = map<CandleKey, Row>

  /** A missing_interval row of data_quality_event. */
  datatype GapEvent = GapEvent(instrument: nat, step: Duration, start: int, end: int, missingCount: nat,
                               maintenance: bool, detectedAt: int)

  datatype Db = Db(candles: CandleTable, checkpoints: map<CheckpointKey, Checkpoint>, events: seq<GapEvent>)

  /** The arguments of one backfill request; the interval stands for its step. */
  datatype Job = Job(venue: nat, instrument: nat, step: Duration, rangeStart: int, rangeEnd: int,
                     chunkSize: int, source: nat)
  {
    function Key(): CheckpointKey {
      CheckpointKey(venue, instrument, step, rangeStart, rangeEnd)
    }

    function At(t: int): CandleKey {
      CandleKey(instrument, step, t)
    }
  }

  // ----- the venue -----

  /** The most bars the venue returns for one request. */
  const PAGE_MAX := 1000

  /** The venue's bars of one symbol and interval that open in [from, to]. */
  function Bars(history: seq<Kline>, from: int, to: int): (r: seq<Kline>)
    ensures forall i :: 0 <= i < |r| ==> from <= r[i].openTime <= to && r[i] in history
  {
    if history == [] then []
    else (if from <= history[0].openTime <= to then [history[0]] else []) + Bars(history[1..], from, to)
  }

  function PageLength(available: nat, limit: int): nat {
    var most := if limit < PAGE_MAX then limit else PAGE_MAX;
    if most <= 0 then 0 else if available < most then available else most
  }

  /** One request: at most `limit` bars of the window, oldest first. */
  function Page(history: seq<Kline>, from: int, to: int, limit: int): (r: seq<Kline>)
    ensures forall i :: 0 <= i < |r| ==> from <= r[i].openTime <= to
  {
    var bars := Bars(history, from, to);
    bars[..PageLength(|bars|, limit)]
  }

  // ----- gaps -----

  /** The gap a bar leaves to the one before it, if it leaves one. */
  function GapBefore(openTime: int, step: int, previous: Option<int>): seq<(int, int)> {
    if previous.Some? && openTime - previous.value > step then [(previous.value, openTime)] else []
  }

  function FindGaps(openTimes: seq<int>, step: int, previous: Option<int>): seq<(int, int)> {
    if openTimes == [] then []
    else GapBefore(openTimes[0], step, previous) + FindGaps(openTimes[1..], step, Some(openTimes[0]))
  }

  function LastOr(openTimes: seq<int>, previous: Option<int>): Option<int> {
    if openTimes == [] then previous else Some(openTimes[|openTimes| - 1])
  }

  /** Carrying the last open time over, the gaps of the chunks are the gaps of
      the whole. */
  lemma {:induction false} FindGapsOverChunks(a: seq<int>, b: seq<int>, step: int, previous: Option<int>)
    ensures FindGaps(a + b, step, previous)
         == FindGaps(a, step, previous) + FindGaps(b, step, if a == [] then previous else Some(Last(a)))
  {
    hide FindGaps;
    hide GapBefore;
    if a == [] {
      assert a + b == b;
      FindGapsStep([], step, previous);
    } else {
      assert (a + b)[0] == a[0] && (a + b)[1..] == a[1..] + b;
      FindGapsStep(a + b, step, previous);
      FindGapsStep(a, step, previous);
      FindGapsOverChunks(a[1..], b, step, Some(a[0]));
    }
  }

  lemma FindGapsStep(openTimes: seq<int>, step: int, previous: Option<int>)
    ensures FindGaps(openTimes, step, previous)
         == if openTimes == [] then []
            else GapBefore(openTimes[0], step, previous) + FindGaps(openTimes[1..], step, Some(openTimes[0]))
  {
  }

  /** The open time before the i-th, `previous` before the first. */
  function Before(openTimes: seq<int>, previous: Option<int>, i: nat): Option<int>
    requires i < |openTimes|
  {
    if i == 0 then previous else Some(openTimes[i - 1])
  }

  /** The i-th open time comes more than one step after the one before it. */
  predicate JumpAt(openTimes: seq<int>, step: int, previous: Option<int>, i: nat) {
    i < |openTimes| && Before(openTimes, previous, i).Some?
    && openTimes[i] - Before(openTimes, previous, i).value > step
  }

  lemma FindGapsOfFront(openTimes: seq<int>, step: int, previous: Option<int>)
    requires openTimes != []
    ensures var n := |openTimes| - 1;
            FindGaps(openTimes, step, previous)
            == FindGaps(Front(openTimes), step, previous)
             + if JumpAt(openTimes, step, previous, n)
               then [(Before(openTimes, previous, n).value, openTimes[n])] else []
  {
    hide FindGaps;
    hide JumpAt;
    var n := |openTimes| - 1;
    assert openTimes == openTimes[..n] + [openTimes[n]];
    FindGapsOverChunks(openTimes[..n], [openTimes[n]], step, previous);
    GapOfOne(openTimes, step, previous);
  }

  /** There are as many gaps as jumps ... */
  lemma {:induction false} AsManyGapsAsJumps(openTimes: seq<int>, step: int, previous: Option<int>)
    ensures |FindGaps(openTimes, step, previous)|
         == |set i | 0 <= i < |openTimes| && JumpAt(openTimes, step, previous, i)|
  {
    hide FindGaps;
    hide JumpAt;
    FindGapsStep(openTimes, step, previous);
    JumpsInside(openTimes, step, previous);
    var all := set i | 0 <= i < |openTimes| && JumpAt(openTimes, step, previous, i);
    if openTimes == [] {
      NoElements(all);
    } else {
      var n, front := |openTimes| - 1, Front(openTimes);
      AsManyGapsAsJumps(front, step, previous);
      FindGapsOfFront(openTimes, step, previous);
      OneElementMore(all, (set i | 0 <= i < n && JumpAt(front, step, previous, i)), n,
                     JumpAt(openTimes, step, previous, n));
    }
  }

  /** ... and every jump makes one, from the open time before it to its own. */
  lemma {:induction false} JumpIsAGap(openTimes: seq<int>, step: int, previous: Option<int>, i: nat)
    requires JumpAt(openTimes, step, previous, i)
    ensures (Before(openTimes, previous, i).value, openTimes[i]) in FindGaps(openTimes, step, previous)
  {
    hide FindGaps;
    FindGapsOfFront(openTimes, step, previous);
    if i < |openTimes| - 1 {
      JumpIsAGap(Front(openTimes), step, previous, i);
    }
  }

  lemma JumpsAreGaps(openTimes: seq<int>, step: int, previous: Option<int>)
    ensures forall i: nat :: JumpAt(openTimes, step, previous, i) ==>
              (Before(openTimes, previous, i).value, openTimes[i]) in FindGaps(openTimes, step, previous)
  {
    hide FindGaps;
    forall i: nat | JumpAt(openTimes, step, previous, i)
      ensures (Before(openTimes, previous, i).value, openTimes[i]) in FindGaps(openTimes, step, previous)
    {
      JumpIsAGap(openTimes, step, previous, i);
    }
  }

  lemma JumpsInside(openTimes: seq<int>, step: int, previous: Option<int>)
    ensures forall i: nat :: JumpAt(openTimes, step, previous, i) ==> i < |openTimes|
    ensures openTimes != [] ==>
              forall i: nat :: i < |openTimes| - 1 ==>
                (JumpAt(openTimes, step, previous, i) <==> JumpAt(Front(openTimes), step, previous, i))
  {
  }

  lemma GapOfOne(openTimes: seq<int>, step: int, previous: Option<int>)
    requires openTimes != []
    ensures var n := |openTimes| - 1;
            FindGaps([openTimes[n]], step, LastOr(openTimes[..n], previous))
            == if JumpAt(openTimes, step, previous, n)
               then [(Before(openTimes, previous, n).value, openTimes[n])] else []
  {
    var n := |openTimes| - 1;
    FindGapsStep([openTimes[n]], step, LastOr(openTimes[..n], previous));
    assert [openTimes[n]][1..] == [];
  }

  method ComputeGaps(openTimes: seq<int>, step: int, previous: Option<int>) returns (gaps: seq<(int, int)>)
    ensures gaps == FindGaps(openTimes, step, previous)
    ensures |gaps| == |set i | 0 <= i < |openTimes| && JumpAt(openTimes, step, previous, i)|
    ensures forall i: nat :: JumpAt(openTimes, step, previous, i) ==>
              (Before(openTimes, previous, i).value, openTimes[i]) in gaps
  {
    hide FindGaps;
    hide JumpAt;
    JumpsInside(openTimes, step, previous);
    gaps := [];
    var prior := previous;
    FindGapsStep([], step, previous);
    for n := 0 to |openTimes|
      invariant gaps == FindGaps(openTimes[..n], step, previous) && prior == LastOr(openTimes[..n], previous)
    {
      var openTime := openTimes[n];
      assert openTimes[..n + 1] == openTimes[..n] + [openTime];
      FindGapsOverChunks(openTimes[..n], [openTime], step, previous);
      FindGapsStep([openTime], step, prior);
      assert [openTime][1..] == [];
      FindGapsStep([], step, Some(openTime));
      if prior.Some? && openTime - prior.value > step {
        gaps := gaps + [(prior.value, openTime)];
      }
      prior := Some(openTime);
    }
    assert openTimes[..|openTimes|] == openTimes;
    AsManyGapsAsJumps(openTimes, step, previous);
    JumpsAreGaps(openTimes, step, previous);
  }

  // ----- one commit -----

  /** INSERT ... ON CONFLICT DO UPDATE of every bar, in order. */
  function Upsert(candles: CandleTable, job: Job, klines: seq<Kline>, now: int): CandleTable {
    if klines == [] then candles
    else
      var k := klines[|klines| - 1];
      Upsert(candles, job, klines[..|klines| - 1], now)
        [job.At(k.openTime) := Row(k.data, k.openTime + job.step <= now, job.source)]
  }

  /** Where a call starts: None when the checkpoint says completed. */
  function ResumeFrom(db: Db, job: Job): Option<int> {
    if job.Key() !in db.checkpoints then Some(job.rangeStart)
    else
      var c := db.checkpoints[job.Key()];
      if c.status == Completed then None
      else Some(if c.last.Some? then c.last.value + job.step else job.rangeStart)
  }

  function Previous(db: Db, job: Job): Option<int> {
    if job.Key() in db.checkpoints then db.checkpoints[job.Key()].last else None
  }

  /** The committed effect of one page fetched at `from`. */
  function Commit(db: Db, job: Job, page: seq<Kline>, now: int): Db
    requires page != []
  {
    var last := page[|page| - 1].openTime;
    var status := if |page| < job.chunkSize || last + job.step > job.rangeEnd then Completed else InProgress;
    db.(candles := Upsert(db.candles, job, page, now),
        checkpoints := db.checkpoints[job.Key() := Checkpoint(Some(last), status, now)])
  }

  /** The page the next commit stores, from durable state alone; [] if there is
      no next commit. */
  function NextPage(db: Db, job: Job, history: seq<Kline>): seq<Kline> {
    match ResumeFrom(db, job)
    case None => []
    case Some(from) => if from > job.rangeEnd then [] else Page(history, from, job.rangeEnd, job.chunkSize)
  }

  // ----- one call -----

  /** The loop of a call that stands at `from`. */
  function Loop(db: Db, job: Job, history: seq<Kline>, now: int, from: int): Db
    decreases job.rangeEnd - from
  {
    var page := if from > job.rangeEnd then [] else Page(history, from, job.rangeEnd, job.chunkSize);
    if page == [] then db
    else
      var after := Commit(db, job, page, now);
      if |page| < job.chunkSize then after
      else Loop(after, job, history, now, page[|page| - 1].openTime + job.step)
  }

  /** Every bar the loop fetches. */
  function Fetched(job: Job, history: seq<Kline>, from: int): seq<Kline>
    decreases job.rangeEnd - from
  {
    var page := if from > job.rangeEnd then [] else Page(history, from, job.rangeEnd, job.chunkSize);
    if page == [] || |page| < job.chunkSize then page
    else page + Fetched(job, history, page[|page| - 1].openTime + job.step)
  }

  function OpenTimes(klines: seq<Kline>): seq<int> {
    seq(|klines|, i requires 0 <= i < |klines| => klines[i].openTime)
  }

  /** A whole, uninterrupted call. */
  function Backfill(db: Db, job: Job, history: seq<Kline>, now: int): Db {
    match ResumeFrom(db, job)
    case None => db
    case Some(from) => Loop(db, job, history, now, from)
  }

  // ----- the database session of a process -----

  datatype BackfillResult = BackfillResult(upserted: nat, gapsDetected: nat, resumedFrom: int, completed: bool)

  /** One connection of a process that lives for `life` more effects. The open
      transaction is `working`; dying discards it. */
  class Session {
    var committed: Db
    var working: Db
    var life: nat

    constructor (db: Db, life: nat)
      ensures committed == working == db && this.life == life
    {
      committed, working, this.life := db, db, life;
    }

    /** Spend one effect; false once the process is dead. */
    method Live() returns (alive: bool)
      modifies this
      ensures committed == old(committed)
      ensures alive <==> old(life) > 0
      ensures alive ==> working == old(working) && life == old(life) - 1
      ensures !alive ==> working == committed && life == 0
    {
      if life == 0 {
        working := committed;
        return false;
      }
      life := life - 1;
      alive := true;
    }

    method UpsertCandles(job: Job, klines: seq<Kline>, now: int) returns (alive: bool)
      modifies this
      ensures committed == old(committed)
      ensures alive ==> working == old(working).(candles := Upsert(old(working).candles, job, klines, now))
      ensures !alive ==> working == committed
    {
      alive := Live();
      if alive {
        working := working.(candles := Upsert(working.candles, job, klines, now));
      }
    }

    method SaveCheckpoint(job: Job, last: int, status: Status, ts: int) returns (alive: bool)
      modifies this
      ensures committed == old(committed)
      ensures alive ==>
        working == old(working).(checkpoints :=
                                   old(working).checkpoints[job.Key() := Checkpoint(Some(last), status, ts)])
      ensures !alive ==> working == committed
    {
      alive := Live();
      if alive {
        working := working.(checkpoints := working.checkpoints[job.Key() := Checkpoint(Some(last), status, ts)]);
      }
    }

    method CommitWork() returns (alive: bool)
      modifies this
      ensures committed == if alive then old(working) else old(committed)
      ensures working == committed
    {
      alive := Live();
      if alive {
        committed := working;
      }
    }
  }

  /** How far a run got: `pages` commits from `before`, each at some call's `now`. */
  function Commits(db: Db, job: Job, history: seq<Kline>, nows: seq<int>): Db {
    if nows == [] then db
    else
      var before := Commits(db, job, history, nows[..|nows| - 1]);
      var page := NextPage(before, job, history);
      if page == [] then before else Commit(before, job, page, nows[|nows| - 1])
  }

  function Repeat(now: int, n: nat): seq<int> {
    seq(n, i => now)
  }

  lemma RepeatOneMore(now: int, n: nat)
    ensures Repeat(now, n + 1) == Repeat(now, n) + [now]
  {
  }

  lemma CommitsOneMore(db: Db, job: Job, history: seq<Kline>, nows: seq<int>, now: int)
    ensures var before := Commits(db, job, history, nows);
            var page := NextPage(before, job, history);
            Commits(db, job, history, nows + [now]) == if page == [] then before else Commit(before, job, page, now)
  {
    assert (nows + [now])[..|nows|] == nows;
  }

  /** One turn of the loop at `from`, on the specification side. */
  lemma LoopTurn(db: Db, job: Job, history: seq<Kline>, now: int, from: int, page: seq<Kline>)
    requires from <= job.rangeEnd && page == Page(history, from, job.rangeEnd, job.chunkSize)
    ensures page == [] ==> Loop(db, job, history, now, from) == db && Fetched(job, history, from) == []
    ensures page != [] && |page| < job.chunkSize ==>
      Loop(db, job, history, now, from) == Commit(db, job, page, now) && Fetched(job, history, from) == page
    ensures page != [] && |page| >= job.chunkSize ==>
      var next := page[|page| - 1].openTime + job.step;
      && Loop(db, job, history, now, from) == Loop(Commit(db, job, page, now), job, history, now, next)
      && Fetched(job, history, from) == page + Fetched(job, history, next)
  {
    hide Page;
    hide Commit;
  }

  /** What a process started now would read is where this one stands. */
  lemma CheckpointTurn(db: Db, job: Job, history: seq<Kline>, now: int, from: int, page: seq<Kline>)
    requires from <= job.rangeEnd && page == Page(history, from, job.rangeEnd, job.chunkSize) && page != []
    ensures ResumeFrom(db, job) == Some(from) ==> NextPage(db, job, history) == page
    ensures var next := page[|page| - 1].openTime + job.step;
            && from < next
            && ResumeFrom(Commit(db, job, page, now), job)
               == if |page| < job.chunkSize || next > job.rangeEnd then None else Some(next)
  {
  }

  lemma LoopOver(db: Db, job: Job, history: seq<Kline>, now: int, from: int)
    requires from > job.rangeEnd
    ensures Loop(db, job, history, now, from) == db
    ensures Fetched(job, history, from) == []
  {
  }

  /** The running totals of a call that has fetched `fetched` so far. */
  predicate Tallied(fetched: seq<Kline>, job: Job, before: Option<int>, upserted: nat, gaps: nat,
                    previous: Option<int>)
  {
    && upserted == |fetched|
    && gaps == |FindGaps(OpenTimes(fetched), job.step, before)|
    && previous == LastOr(OpenTimes(fetched), before)
  }

  lemma TallyPage(fetched: seq<Kline>, page: seq<Kline>, job: Job, before: Option<int>, upserted: nat, gaps: nat,
                  previous: Option<int>)
    requires Tallied(fetched, job, before, upserted, gaps, previous) && page != []
    ensures Tallied(fetched + page, job, before, upserted + |page|,
                    gaps + |FindGaps(OpenTimes(page), job.step, previous)|, Some(page[|page| - 1].openTime))
  {
    assert OpenTimes(fetched + page) == OpenTimes(fetched) + OpenTimes(page);
    FindGapsOverChunks(OpenTimes(fetched), OpenTimes(page), job.step, before);
  }

  /** A call in a process that may die before any of its effects. If it
      survives, it returns what the documentation promises and leaves exactly the
      uninterrupted call's database; if not, it leaves some number of whole
      commits. */
  method BackfillCandles(session: Session, history: seq<Kline>, job: Job, now: int)
    returns (r: Option<BackfillResult>, ghost commits: nat)
    requires session.working == session.committed
    modifies session
    ensures session.working == session.committed
    ensures session.committed == Commits(old(session.committed), job, history, Repeat(now, commits))
    ensures r.Some? ==> session.committed == Backfill(old(session.committed), job, history, now)
    ensures r.Some? ==>
      var before := old(session.committed);
      var key := CheckpointKey(job.venue, job.instrument, job.step, job.rangeStart, job.rangeEnd);
      var last := if key in before.checkpoints then before.checkpoints[key].last else None;
      if key in before.checkpoints && before.checkpoints[key].status == Completed
      then r.value == BackfillResult(0, 0, job.rangeStart, true) && session.committed == before
      else
        var from := if last.Some? then last.value + job.step else job.rangeStart;
        var fetched := Fetched(job, history, from);
        var end := if fetched == [] then from else Last(fetched).openTime + job.step;
        r.value == BackfillResult(|fetched|, |FindGaps(OpenTimes(fetched), job.step, last)|, from, end > job.rangeEnd)
  {
    hide Loop;
    hide Fetched;
    hide NextPage;
    hide Page;
    hide Upsert;
    hide Commits;
    hide Tallied;
    hide FindGaps;
    hide OpenTimes;
    hide Repeat;
    hide Backfill;
    hide LastOr;
    hide Commit;
    hide ResumeFrom;
    hide Previous;
    hide NextFrom;
    hide JumpAt;
    hide PageLength;
    ghost var before := session.committed;
    commits := 0;
    NoCommits(before, job, history, now);
    BackfillIsLoop(before, job, history, now);
    ResumesAfterTheCheckpoint(before, job);
    var start := ResumeFrom(session.working, job);
    if start.None? {
      return Some(BackfillResult(0, 0, job.rangeStart, true)), commits;
    }
    var fetchFrom := start.value;
    var resumedFrom := fetchFrom;
    var previous := Previous(session.working, job);
    var totalUpserted: nat, totalGaps: nat := 0, 0;
    ghost var fetched: seq<Kline> := [];
    NothingTallied(job, previous);
    NextFromNothing(resumedFrom, job);

    while fetchFrom <= job.rangeEnd
      invariant session.working == session.committed == Commits(before, job, history, Repeat(now, commits))
      invariant Loop(session.committed, job, history, now, fetchFrom) == Backfill(before, job, history, now)
      invariant fetchFrom > job.rangeEnd || ResumeFrom(session.committed, job) == Some(fetchFrom)
      invariant fetched + Fetched(job, history, fetchFrom) == Fetched(job, history, resumedFrom)
      invariant fetchFrom == NextFrom(fetched, resumedFrom, job)
      invariant Tallied(fetched, job, Previous(before, job), totalUpserted, totalGaps, previous)
      decreases job.rangeEnd - fetchFrom
    {
      var alive := session.Live();
      if !alive {
        return None, commits;
      }
      var klines := Page(history, fetchFrom, job.rangeEnd, job.chunkSize);
      LoopTurn(session.committed, job, history, now, fetchFrom, klines);
      if klines == [] {
        break;
      }
      CheckpointTurn(session.committed, job, history, now, fetchFrom, klines);
      CommitIs(session.committed, job, klines, now);
      var gaps := ComputeGaps(OpenTimes(klines), job.step, previous);
      TallyPage(fetched, klines, job, Previous(before, job), totalUpserted, totalGaps, previous);
      totalGaps := totalGaps + |gaps|;
      alive := session.UpsertCandles(job, klines, now);
      if !alive {
        return None, commits;
      }
      totalUpserted := totalUpserted + |klines|;
      var lastOpenTime := klines[|klines| - 1].openTime;
      previous := Some(lastOpenTime);
      fetchFrom := lastOpenTime + job.step;
      var isLastChunk := |klines| < job.chunkSize || fetchFrom > job.rangeEnd;
      alive := session.SaveCheckpoint(job, lastOpenTime, if isLastChunk then Completed else InProgress, now);
      if !alive {
        return None, commits;
      }
      RepeatOneMore(now, commits);
      CommitsOneMore(before, job, history, Repeat(now, commits), now);
      alive := session.CommitWork();
      if !alive {
        return None, commits;
      }
      commits := commits + 1;
      NextFromOverPage(fetched, klines, resumedFrom, job);
      fetched := fetched + klines;
      if |klines| < job.chunkSize {
        break;
      }
    }
    if fetchFrom > job.rangeEnd {
      LoopOver(session.committed, job, history, now, fetchFrom);
    }
    assert fetched == Fetched(job, history, resumedFrom);
    FinalTotals(before, fetched, job, resumedFrom, totalUpserted, totalGaps, previous);
    r := Some(BackfillResult(totalUpserted, totalGaps, resumedFrom, fetchFrom > job.rangeEnd));
  }

  /** Where a call starts and what it takes for the bar before, from the request's
      own checkpoint row. */
  lemma ResumesAfterTheCheckpoint(db: Db, job: Job)
    ensures var key := CheckpointKey(job.venue, job.instrument, job.step, job.rangeStart, job.rangeEnd);
            var last := if key in db.checkpoints then db.checkpoints[key].last else None;
            && Previous(db, job) == last
            && ResumeFrom(db, job)
               == if key in db.checkpoints && db.checkpoints[key].status == Completed then None
                  else Some(if last.Some? then last.value + job.step else job.rangeStart)
  {
  }

  lemma BackfillIsLoop(db: Db, job: Job, history: seq<Kline>, now: int)
    ensures ResumeFrom(db, job).None? ==> Backfill(db, job, history, now) == db
    ensures ResumeFrom(db, job).Some? ==>
              Backfill(db, job, history, now) == Loop(db, job, history, now, ResumeFrom(db, job).value)
  {
    hide Loop;
  }

  lemma CommitIs(db: Db, job: Job, page: seq<Kline>, now: int)
    requires page != []
    ensures var last := page[|page| - 1].openTime;
            var status := if |page| < job.chunkSize || last + job.step > job.rangeEnd then Completed else InProgress;
            Commit(db, job, page, now)
            == Db(Upsert(db.candles, job, page, now),
                  db.checkpoints[job.Key() := Checkpoint(Some(last), status, now)], db.events)
  {
  }

  lemma NoCommits(db: Db, job: Job, history: seq<Kline>, now: int)
    ensures Commits(db, job, history, Repeat(now, 0)) == db
    ensures Repeat(now, 0) == []
  {
  }

  lemma NothingTallied(job: Job, before: Option<int>)
    ensures Tallied([], job, before, 0, 0, before)
  {
  }

  lemma FinalTotals(before: Db, fetched: seq<Kline>, job: Job, from: int, upserted: nat, gaps: nat,
                    previous: Option<int>)
    requires ResumeFrom(before, job) == Some(from)
    requires Tallied(fetched, job, Previous(before, job), upserted, gaps, previous)
    ensures var key := CheckpointKey(job.venue, job.instrument, job.step, job.rangeStart, job.rangeEnd);
            var last := if key in before.checkpoints then before.checkpoints[key].last else None;
            && !(key in before.checkpoints && before.checkpoints[key].status == Completed)
            && from == (if last.Some? then last.value + job.step else job.rangeStart)
            && upserted == |fetched| && gaps == |FindGaps(OpenTimes(fetched), job.step, last)|
    ensures NextFrom(fetched, from, job) == if fetched == [] then from else Last(fetched).openTime + job.step
  {
    hide FindGaps;
  }

  /** Where the loop stands once it has fetched these bars. */
  function NextFrom(fetched: seq<Kline>, from: int, job: Job): int {
    if fetched == [] then from else Last(fetched).openTime + job.step
  }

  lemma NextFromOverPage(fetched: seq<Kline>, page: seq<Kline>, from: int, job: Job)
    requires page != []
    ensures NextFrom(fetched + page, from, job) == page[|page| - 1].openTime + job.step
  {
  }

  lemma NextFromNothing(from: int, job: Job)
    ensures NextFrom([], from, job) == from
  {
  }
}
