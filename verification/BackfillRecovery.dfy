/** What survives crashes and restarts of the backfill: the committed table is
    always the old one overridden by the venue's bars up to the checkpoint, and
    the end result does not depend on where processes died. */
module BackfillRecovery {
  import opened Common
  import opened Candles
  import opened Backfills

  /** The venue's history: ascending, at least one step between bars. */
  predicate Spaced(history: seq<Kline>, step: int) {
    forall i, j :: 0 <= i < j < |history| ==> history[i].openTime + step <= history[j].openTime
  }

  function VenueAt(history: seq<Kline>, t: int): Option<Ohlcv> {
    if history == [] then None
    else if history[0].openTime == t then Some(history[0].data)
    else VenueAt(history[1..], t)
  }

  function Stored(candles: CandleTable, job: Job, t: int): Option<Ohlcv> {
    if job.At(t) in candles then Some(candles[job.At(t)].data) else None
  }

  // ----- lookups -----

  lemma {:induction false} NothingBefore(klines: seq<Kline>, t: int)
    requires forall i :: 0 <= i < |klines| ==> klines[i].openTime != t
    ensures VenueAt(klines, t) == None
  {
    if klines != [] {
      NothingBefore(klines[1..], t);
    }
  }

  lemma {:induction false} FoundAt(klines: seq<Kline>, t: int) returns (i: nat)
    requires VenueAt(klines, t).Some?
    ensures i < |klines| && klines[i].openTime == t && VenueAt(klines, t) == Some(klines[i].data)
  {
    if klines[0].openTime == t {
      i := 0;
    } else {
      i := FoundAt(klines[1..], t);
      i := i + 1;
    }
  }

  lemma {:induction false} FindBar(klines: seq<Kline>, step: Duration, i: nat)
    requires Spaced(klines, step) && i < |klines|
    ensures VenueAt(klines, klines[i].openTime) == Some(klines[i].data)
  {
    if i > 0 {
      FindBar(klines[1..], step, i - 1);
      assert klines[1..][i - 1] == klines[i];
    }
  }

  lemma SpacedCons(k: Kline, rest: seq<Kline>, step: Duration)
    requires Spaced(rest, step) && forall i :: 0 <= i < |rest| ==> k.openTime + step <= rest[i].openTime
    ensures Spaced([k] + rest, step)
  {
  }

  lemma SpacedTail(history: seq<Kline>, step: Duration)
    requires Spaced(history, step) && history != []
    ensures Spaced(history[1..], step)
    ensures forall k :: k in history[1..] ==> history[0].openTime + step <= k.openTime
  {
  }

  lemma {:induction false} BarsSpaced(history: seq<Kline>, step: Duration, from: int, to: int)
    requires Spaced(history, step)
    ensures Spaced(Bars(history, from, to), step)
  {
    hide Spaced;
    if history == [] {
      SpacedNil(step);
    } else {
      SpacedTail(history, step);
      BarsSpaced(history[1..], step, from, to);
      SpacedCons(history[0], Bars(history[1..], from, to), step);
      assert [] + Bars(history[1..], from, to) == Bars(history[1..], from, to);
    }
  }

  lemma SpacedNil(step: Duration)
    ensures Spaced([], step)
  {
  }

  lemma {:induction false} BarsLookup(history: seq<Kline>, step: Duration, from: int, to: int, t: int)
    requires Spaced(history, step)
    ensures VenueAt(Bars(history, from, to), t) == if from <= t <= to then VenueAt(history, t) else None
  {
    hide Spaced;
    if history != [] {
      SpacedTail(history, step);
      var rest := Bars(history[1..], from, to);
      BarsLookup(history[1..], step, from, to, t);
      VenueAtCons(history[0], rest, t);
      assert [] + rest == rest;
      if t == history[0].openTime && !(from <= t <= to) {
        NothingBefore(rest, t);
      }
    }
  }

  lemma VenueAtCons(k: Kline, rest: seq<Kline>, t: int)
    ensures VenueAt([k] + rest, t) == if k.openTime == t then Some(k.data) else VenueAt(rest, t)
  {
    assert ([k] + rest)[1..] == rest;
  }

  lemma {:induction false} PrefixLookup(klines: seq<Kline>, step: Duration, n: nat, t: int)
    requires Spaced(klines, step) && 0 < n <= |klines|
    ensures VenueAt(klines[..n], t) == if t <= klines[n - 1].openTime then VenueAt(klines, t) else None
  {
    hide Spaced;
    SpacedTail(klines, step);
    if klines[0].openTime != t {
      assert klines[..n][1..] == klines[1..][..n - 1];
      if n > 1 {
        assert klines[n - 1] == klines[1..][n - 2];
        PrefixLookup(klines[1..], step, n - 1, t);
      } else if t < klines[0].openTime {
        assert forall i :: 0 <= i < |klines[1..]| ==> klines[1..][i] in klines[1..];
        NothingBefore(klines[1..], t);
      }
    } else {
      assert klines[n - 1] == klines[0] || klines[n - 1] in klines[1..];
    }
  }

  /** A page holds exactly the venue's bars from `from` to its last bar. */
  lemma PageLookup(history: seq<Kline>, step: Duration, from: int, to: int, limit: int, t: int)
    requires Spaced(history, step) && Page(history, from, to, limit) != []
    ensures var page := Page(history, from, to, limit);
            && Spaced(page, step)
            && VenueAt(page, t) == if from <= t <= page[|page| - 1].openTime then VenueAt(history, t) else None
  {
    var bars := Bars(history, from, to);
    BarsSpaced(history, step, from, to);
    BarsLookup(history, step, from, to, t);
    PrefixLookup(bars, step, PageLength(|bars|, limit), t);
  }

  /** Every bar of a page is stored under its own open time, with the job's source,
      and marked closed exactly if it had closed by the call's clock. */
  lemma {:induction false} RowsCarryTheCall(candles: CandleTable, job: Job, klines: seq<Kline>, now: int, i: nat)
    requires Spaced(klines, job.step) && i < |klines|
    ensures var after, t := Upsert(candles, job, klines, now), klines[i].openTime;
            job.At(t) in after && after[job.At(t)] == Row(klines[i].data, t + job.step <= now, job.source)
  {
    var n := |klines| - 1;
    if i < n {
      RowsCarryTheCall(candles, job, klines[..n], now, i);
      assert klines[i].openTime < klines[n].openTime;
    }
  }

  // ----- the overlay -----

  lemma {:induction false} UpsertStores(candles: CandleTable, job: Job, klines: seq<Kline>, now: int, key: CandleKey)
    requires Spaced(klines, job.step)
    ensures var after := Upsert(candles, job, klines, now);
            && (key == job.At(key.openTime) ==>
                  Stored(after, job, key.openTime)
                  == if VenueAt(klines, key.openTime).Some? then VenueAt(klines, key.openTime)
                     else Stored(candles, job, key.openTime))
            && (key != job.At(key.openTime) ==>
                  (key in after <==> key in candles) && (key in after ==> after[key] == candles[key]))
  {
    hide VenueAt;
    hide Spaced;
    if klines == [] {
      NothingBefore(klines, key.openTime);
    } else {
      var n := |klines| - 1;
      SpacedFront(klines, job.step);
      UpsertStores(candles, job, klines[..n], now, key);
      LastLookup(klines, job.step, key.openTime);
    }
  }

  lemma SpacedFront(klines: seq<Kline>, step: Duration)
    requires Spaced(klines, step) && klines != []
    ensures Spaced(klines[..|klines| - 1], step)
  {
  }

  lemma LastLookup(klines: seq<Kline>, step: Duration, t: int)
    requires Spaced(klines, step) && klines != []
    ensures var n := |klines| - 1;
            VenueAt(klines, t) == if klines[n].openTime == t then Some(klines[n].data) else VenueAt(klines[..n], t)
  {
    hide VenueAt;
    var n := |klines| - 1;
    FindBar(klines, step, n);
    if n == 0 {
      NothingBefore(klines[..n], t);
    } else {
      PrefixLookup(klines, step, n, t);
    }
    if klines[n].openTime != t && (n == 0 || klines[n - 1].openTime < t) {
      NothingBefore(klines, t);
    }
  }

  /** `after` is `before` with the venue's bars of [lo, hi] written over it; rows
      of other instruments and intervals are untouched. */
  ghost predicate Overlaid(before: CandleTable, after: CandleTable, job: Job, history: seq<Kline>, lo: int, hi: int) {
    && (forall t :: Stored(after, job, t)
          == if lo <= t <= hi && VenueAt(history, t).Some? then VenueAt(history, t) else Stored(before, job, t))
    && (forall key: CandleKey :: key != job.At(key.openTime) ==>
          (key in after <==> key in before) && (key in after ==> after[key] == before[key]))
  }

  lemma PageOverlays(before: CandleTable, job: Job, history: seq<Kline>, from: int, now: int)
    requires Spaced(history, job.step) && Page(history, from, job.rangeEnd, job.chunkSize) != []
    ensures var page := Page(history, from, job.rangeEnd, job.chunkSize);
            Overlaid(before, Upsert(before, job, page, now), job, history, from, page[|page| - 1].openTime)
  {
    hide Upsert;
    hide Page;
    hide Spaced;
    var page := Page(history, from, job.rangeEnd, job.chunkSize);
    PageLookup(history, job.step, from, job.rangeEnd, job.chunkSize, from);
    var after := Upsert(before, job, page, now);
    forall t ensures Stored(after, job, t)
        == if from <= t <= page[|page| - 1].openTime && VenueAt(history, t).Some? then VenueAt(history, t)
           else Stored(before, job, t)
    {
      PageLookup(history, job.step, from, job.rangeEnd, job.chunkSize, t);
      UpsertStores(before, job, page, now, job.At(t));
    }
    forall key: CandleKey | key != job.At(key.openTime)
      ensures (key in after <==> key in before) && (key in after ==> after[key] == before[key])
    {
      UpsertStores(before, job, page, now, key);
    }
  }

  /** No bar opens strictly between a bar and one step later. */
  lemma NothingWithinAStep(history: seq<Kline>, step: Duration, at: int, t: int)
    requires Spaced(history, step) && VenueAt(history, at).Some? && at < t < at + step
    ensures VenueAt(history, t) == None
  {
    var i := FoundAt(history, at);
    if VenueAt(history, t).Some? {
      var j := FoundAt(history, t);
      assert false;
    }
  }

  lemma OverlayExtends(a: CandleTable, b: CandleTable, c: CandleTable, job: Job, history: seq<Kline>, lo: int,
                       at: int, hi: int)
    requires Spaced(history, job.step) && lo <= at && at + job.step <= hi && VenueAt(history, at).Some?
    requires Overlaid(a, b, job, history, lo, at) && Overlaid(b, c, job, history, at + job.step, hi)
    ensures Overlaid(a, c, job, history, lo, hi)
  {
    forall t | at < t < at + job.step ensures VenueAt(history, t) == None {
      NothingWithinAStep(history, job.step, at, t);
    }
  }

  // ----- every reachable state -----

  /** A state some schedule of crashes and restarts can leave committed, when
      the request first started at `lo` from `before`. */
  ghost predicate Reachable(before: Db, db: Db, job: Job, history: seq<Kline>, lo: int) {
    db == before ||
    (&& job.Key() in db.checkpoints
     && db.checkpoints[job.Key()].last.Some?
     && db.checkpoints == before.checkpoints[job.Key() := db.checkpoints[job.Key()]]
     && db.events == before.events
     && var at := db.checkpoints[job.Key()].last.value;
        && lo <= at <= job.rangeEnd
        && VenueAt(history, at).Some?
        && Overlaid(before.candles, db.candles, job, history, lo, at))
  }

  lemma CommitKeepsReachable(before: Db, db: Db, job: Job, history: seq<Kline>, lo: int, now: int)
    requires Spaced(history, job.step) && ResumeFrom(before, job) == Some(lo)
    requires Reachable(before, db, job, history, lo)
    requires NextPage(db, job, history) != []
    ensures Reachable(before, Commit(db, job, NextPage(db, job, history), now), job, history, lo)
  {
    hide Upsert;
    hide Page;
    hide Overlaid;
    hide Spaced;
    var page := NextPage(db, job, history);
    var from := ResumeFrom(db, job).value;
    PageOverlays(db.candles, job, history, from, now);
    var hi := page[|page| - 1].openTime;
    PageLookup(history, job.step, from, job.rangeEnd, job.chunkSize, hi);
    FindBar(page, job.step, |page| - 1);
    if db != before {
      var at := db.checkpoints[job.Key()].last.value;
      OverlayExtends(before.candles, db.candles, Upsert(db.candles, job, page, now), job, history, lo, at, hi);
    }
  }

  /** Every committed state is the old table overridden by the venue's bars from
      where the request started to its checkpoint. */
  lemma {:induction false} EveryCommittedState(before: Db, job: Job, history: seq<Kline>, nows: seq<int>, lo: int)
    requires Spaced(history, job.step) && ResumeFrom(before, job) == Some(lo)
    ensures Reachable(before, Commits(before, job, history, nows), job, history, lo)
  {
    hide Reachable;
    hide Commit;
    hide NextPage;
    if nows == [] {
      StartIsReachable(before, job, history, lo);
    } else {
      var n := |nows| - 1;
      EveryCommittedState(before, job, history, nows[..n], lo);
      var db := Commits(before, job, history, nows[..n]);
      if NextPage(db, job, history) != [] {
        CommitKeepsReachable(before, db, job, history, lo, nows[n]);
      }
    }
  }

  lemma StartIsReachable(before: Db, job: Job, history: seq<Kline>, lo: int)
    ensures Reachable(before, before, job, history, lo)
  {
  }

  // ----- completion -----

  /** The page sizes the venue can honour. */
  predicate HonouredChunk(job: Job) {
    1 <= job.chunkSize <= PAGE_MAX
  }

  ghost predicate NothingLeft(history: seq<Kline>, after: int, to: int) {
    forall t :: after < t <= to ==> VenueAt(history, t) == None
  }

  lemma LastPageIsLast(job: Job, history: seq<Kline>, from: int)
    requires Spaced(history, job.step) && HonouredChunk(job)
    requires Page(history, from, job.rangeEnd, job.chunkSize) != []
    requires var page := Page(history, from, job.rangeEnd, job.chunkSize);
             |page| < job.chunkSize || page[|page| - 1].openTime + job.step > job.rangeEnd
    ensures var page := Page(history, from, job.rangeEnd, job.chunkSize);
            NothingLeft(history, page[|page| - 1].openTime, job.rangeEnd)
  {
    hide Spaced;
    hide Page;
    hide Bars;
    var page := Page(history, from, job.rangeEnd, job.chunkSize);
    var last := page[|page| - 1].openTime;
    ShortPageIsAll(job, history, from);
    PageLookup(history, job.step, from, job.rangeEnd, job.chunkSize, last);
    FindBar(page, job.step, |page| - 1);
    forall t | last < t <= job.rangeEnd ensures VenueAt(history, t) == None {
      if t < last + job.step {
        NothingWithinAStep(history, job.step, last, t);
      } else {
        BarsLookup(history, job.step, from, job.rangeEnd, t);
        PageLookup(history, job.step, from, job.rangeEnd, job.chunkSize, t);
      }
    }
  }

  lemma EmptyPageIsNothing(job: Job, history: seq<Kline>, from: int)
    requires Spaced(history, job.step) && HonouredChunk(job)
    requires from > job.rangeEnd || Page(history, from, job.rangeEnd, job.chunkSize) == []
    ensures NothingLeft(history, from - 1, job.rangeEnd)
  {
    hide Spaced;
    forall t | from <= t <= job.rangeEnd ensures VenueAt(history, t) == None {
      assert Bars(history, from, job.rangeEnd) == [];
      BarsLookup(history, job.step, from, job.rangeEnd, t);
    }
  }

  /** A completed checkpoint has nothing left of the range behind it. */
  lemma {:induction false} CompletedHasNothingLeft(before: Db, job: Job, history: seq<Kline>, nows: seq<int>)
    requires Spaced(history, job.step) && HonouredChunk(job) && ResumeFrom(before, job).Some?
    ensures var db := Commits(before, job, history, nows);
            ResumeFrom(db, job) == None ==>
              && job.Key() in db.checkpoints && db.checkpoints[job.Key()].last.Some?
              && NothingLeft(history, db.checkpoints[job.Key()].last.value, job.rangeEnd)
  {
    hide Spaced;
    hide Upsert;
    hide Page;
    hide NothingLeft;
    if nows != [] {
      var n := |nows| - 1;
      CompletedHasNothingLeft(before, job, history, nows[..n]);
      var db := Commits(before, job, history, nows[..n]);
      var page := NextPage(db, job, history);
      if page != [] && ResumeFrom(Commit(db, job, page, nows[n]), job) == None {
        LastPageIsLast(job, history, ResumeFrom(db, job).value);
      }
    }
  }

  lemma OverlayWiden(a: CandleTable, b: CandleTable, job: Job, history: seq<Kline>, lo: int, at: int, hi: int)
    requires Overlaid(a, b, job, history, lo, at) && at <= hi && NothingLeft(history, at, hi)
    ensures Overlaid(a, b, job, history, lo, hi)
  {
  }

  /** With a page size the venue honours, a schedule that has nothing left to commit
      has overridden the old table by every venue bar up to the end of the range. */
  lemma HonouredMeansWholeRange(before: Db, job: Job, history: seq<Kline>, nows: seq<int>, lo: int)
    requires Spaced(history, job.step) && HonouredChunk(job) && ResumeFrom(before, job) == Some(lo)
    requires NextPage(Commits(before, job, history, nows), job, history) == []
    ensures Overlaid(before.candles, Commits(before, job, history, nows).candles, job, history, lo, job.rangeEnd)
  {
    hide Spaced;
    hide Commits;
    hide Page;
    var db := Commits(before, job, history, nows);
    EveryCommittedState(before, job, history, nows, lo);
    CompletedHasNothingLeft(before, job, history, nows);
    if db == before {
      EmptyPageIsNothing(job, history, lo);
    } else {
      var at := db.checkpoints[job.Key()].last.value;
      if ResumeFrom(db, job).Some? {
        EmptyPageIsNothing(job, history, at + job.step);
        forall t | at < t <= job.rangeEnd ensures VenueAt(history, t) == None {
          if t < at + job.step {
            NothingWithinAStep(history, job.step, at, t);
          }
        }
      }
      OverlayWiden(before.candles, db.candles, job, history, lo, at, job.rangeEnd);
    }
  }

  // ----- what no page reaches -----

  /** The bars of a request from `from` that no page reaches. A page shorter than the
      chunk size is taken for the last one, but the venue cuts every page at
      PAGE_MAX; and it gives none for a chunk size below one. */
  function Skipped(job: Job, history: seq<Kline>, from: int): seq<Kline> {
    var bars := Bars(history, from, job.rangeEnd);
    if job.chunkSize < 1 then bars
    else if job.chunkSize <= PAGE_MAX || |bars| <= PAGE_MAX then []
    else bars[PAGE_MAX..]
  }

  /** The open time up to which pages reach. */
  function Reach(job: Job, history: seq<Kline>, from: int): int {
    var bars := Bars(history, from, job.rangeEnd);
    if job.chunkSize < 1 then from - 1
    else if job.chunkSize <= PAGE_MAX || |bars| <= PAGE_MAX then job.rangeEnd
    else bars[PAGE_MAX - 1].openTime
  }

  lemma SkippedIsBeyond(job: Job, history: seq<Kline>, from: int, k: Kline)
    requires Spaced(history, job.step) && k in Bars(history, from, job.rangeEnd)
    ensures k in Skipped(job, history, from) <==> k.openTime > Reach(job, history, from)
  {
    hide Bars;
    var bars := Bars(history, from, job.rangeEnd);
    BarsSpaced(history, job.step, from, job.rangeEnd);
    var i :| 0 <= i < |bars| && bars[i] == k;
    if job.chunkSize > PAGE_MAX && |bars| > PAGE_MAX {
      if i >= PAGE_MAX {
        assert bars[PAGE_MAX..][i - PAGE_MAX] == k;
      } else {
        assert k.openTime <= bars[PAGE_MAX - 1].openTime;
      }
    }
  }

  lemma OversizeCommitCompletes(db: Db, job: Job, history: seq<Kline>, now: int)
    requires job.chunkSize > PAGE_MAX && NextPage(db, job, history) != []
    ensures ResumeFrom(Commit(db, job, NextPage(db, job, history), now), job) == None
  {
    hide Bars;
    hide Upsert;
  }

  /** With a chunk size above the venue's cap the first commit is the last. */
  lemma {:induction false} OversizeCommitsOnce(before: Db, job: Job, history: seq<Kline>, nows: seq<int>)
    returns (now: int)
    requires job.chunkSize > PAGE_MAX
    ensures var db, page := Commits(before, job, history, nows), NextPage(before, job, history);
            db == before || (page != [] && db == Commit(before, job, page, now) && ResumeFrom(db, job) == None)
  {
    hide Commit;
    hide NextPage;
    hide ResumeFrom;
    now := 0;
    if nows != [] {
      var n := |nows| - 1;
      now := OversizeCommitsOnce(before, job, history, nows[..n]);
      var db := Commits(before, job, history, nows[..n]);
      NextPageAt(db, job, history, 0);
      if db == before && NextPage(db, job, history) != [] {
        now := nows[n];
        OversizeCommitCompletes(db, job, history, now);
      }
    }
  }

  lemma NothingAfterLast(history: seq<Kline>, step: Duration, from: int, to: int)
    requires Spaced(history, step) && Bars(history, from, to) != []
    ensures NothingLeft(history, Last(Bars(history, from, to)).openTime, to)
  {
    hide Spaced;
    hide Bars;
    var bars := Bars(history, from, to);
    BarsSpaced(history, step, from, to);
    forall t | Last(bars).openTime < t <= to ensures VenueAt(history, t) == None {
      BarsLookup(history, step, from, to, t);
      LaterThanAll(bars, step, t);
    }
  }

  lemma LaterThanAll(klines: seq<Kline>, step: Duration, t: int)
    requires Spaced(klines, step) && klines != [] && Last(klines).openTime < t
    ensures VenueAt(klines, t) == None
  {
    hide VenueAt;
    NothingBefore(klines, t);
  }

  lemma NothingOverlaid(candles: CandleTable, job: Job, history: seq<Kline>, lo: int, hi: int)
    requires NothingLeft(history, lo - 1, hi)
    ensures Overlaid(candles, candles, job, history, lo, hi)
  {
  }

  lemma OversizePage(job: Job, history: seq<Kline>, from: int)
    requires job.chunkSize > PAGE_MAX
    ensures var bars := Bars(history, from, job.rangeEnd);
            Page(history, from, job.rangeEnd, job.chunkSize)
            == if |bars| <= PAGE_MAX then bars else bars[..PAGE_MAX]
  {
    hide Bars;
  }

  lemma OversizeReaches(before: Db, job: Job, history: seq<Kline>, nows: seq<int>, lo: int)
    requires Spaced(history, job.step) && job.chunkSize > PAGE_MAX && ResumeFrom(before, job) == Some(lo)
    requires NextPage(Commits(before, job, history, nows), job, history) == []
    ensures Overlaid(before.candles, Commits(before, job, history, nows).candles, job, history, lo,
                     Reach(job, history, lo))
  {
    hide Spaced;
    hide Commits;
    hide Page;
    hide Bars;
    hide Overlaid;
    hide Upsert;
    hide NothingLeft;
    hide NextPage;
    hide ResumeFrom;
    var now := OversizeCommitsOnce(before, job, history, nows);
    NextPageAt(before, job, history, lo);
    OversizePage(job, history, lo);
    var db, bars := Commits(before, job, history, nows), Bars(history, lo, job.rangeEnd);
    if lo > job.rangeEnd {
      EmptyWindow(history, lo, job.rangeEnd);
    }
    if db == before {
      EmptyBars(history, job.step, lo, job.rangeEnd);
      NothingOverlaid(before.candles, job, history, lo, job.rangeEnd);
    } else {
      PageOverlays(before.candles, job, history, lo, now);
      if |bars| <= PAGE_MAX {
        NothingAfterLast(history, job.step, lo, job.rangeEnd);
        OverlayWiden(before.candles, db.candles, job, history, lo, Last(bars).openTime, job.rangeEnd);
      }
    }
  }

  lemma EmptyBars(history: seq<Kline>, step: Duration, from: int, to: int)
    requires Spaced(history, step) && Bars(history, from, to) == []
    ensures NothingLeft(history, from - 1, to)
  {
    hide Spaced;
    forall t | from <= t <= to ensures VenueAt(history, t) == None {
      BarsLookup(history, step, from, to, t);
    }
  }

  /** When a schedule has nothing left to commit, whatever the chunk size, the table
      is the old one overridden by exactly the venue's bars from where it started
      to where the pages reach: to the end of the range, if none is skipped. */
  lemma ExhaustedMeansWholeRange(before: Db, job: Job, history: seq<Kline>, nows: seq<int>, lo: int)
    requires Spaced(history, job.step) && ResumeFrom(before, job) == Some(lo)
    requires NextPage(Commits(before, job, history, nows), job, history) == []
    ensures Overlaid(before.candles, Commits(before, job, history, nows).candles, job, history, lo,
                     Reach(job, history, lo))
    ensures Skipped(job, history, lo) == [] ==>
              Overlaid(before.candles, Commits(before, job, history, nows).candles, job, history, lo, job.rangeEnd)
  {
    hide Spaced;
    hide Bars;
    hide Overlaid;
    hide Page;
    hide Commits;
    if job.chunkSize < 1 {
      EmptyPages(before, job, history, nows);
      NothingOverlaid(before.candles, job, history, lo, lo - 1);
      if Bars(history, lo, job.rangeEnd) == [] {
        EmptyBars(history, job.step, lo, job.rangeEnd);
        NothingOverlaid(before.candles, job, history, lo, job.rangeEnd);
      }
    } else if job.chunkSize <= PAGE_MAX {
      HonouredMeansWholeRange(before, job, history, nows, lo);
    } else {
      OversizeReaches(before, job, history, nows, lo);
    }
  }

  lemma EmptyPages(before: Db, job: Job, history: seq<Kline>, nows: seq<int>)
    requires job.chunkSize < 1
    ensures Commits(before, job, history, nows) == before
  {
    hide Bars;
    hide Commits;
    ExhaustedStays(before, job, history, nows);
  }

  /** Every one of these bars is in the table, with the venue's data. */
  predicate AllStored(candles: CandleTable, job: Job, klines: seq<Kline>) {
    forall k :: k in klines ==> Stored(candles, job, k.openTime) == Some(k.data)
  }

  /** The venue's bars of the range from `from` on are. */
  predicate RangeStored(candles: CandleTable, job: Job, history: seq<Kline>, from: int) {
    forall k :: k in history && from <= k.openTime <= job.rangeEnd ==>
      Stored(candles, job, k.openTime) == Some(k.data)
  }

  lemma {:induction false} BarsMembers(history: seq<Kline>, from: int, to: int, k: Kline)
    ensures k in Bars(history, from, to) <==> k in history && from <= k.openTime <= to
  {
    if history != [] {
      BarsMembers(history[1..], from, to, k);
      assert history == [history[0]] + history[1..];
    }
  }

  lemma OverlaidBar(before: CandleTable, after: CandleTable, job: Job, history: seq<Kline>, lo: int, hi: int, k: Kline)
    requires Spaced(history, job.step) && k in history && lo <= k.openTime
    requires Overlaid(before, after, job, history, lo, hi)
    ensures Stored(after, job, k.openTime)
         == if k.openTime <= hi then Some(k.data) else Stored(before, job, k.openTime)
  {
    hide VenueAt;
    hide Stored;
    hide Spaced;
    var i :| 0 <= i < |history| && history[i] == k;
    FindBar(history, job.step, i);
  }

  /** A schedule that has nothing left to commit leaves every venue bar of the range
      stored if and only if the bars its pages skip were stored before. */
  lemma ExhaustedStoresRangeIff(before: Db, job: Job, history: seq<Kline>, nows: seq<int>, lo: int)
    requires Spaced(history, job.step) && ResumeFrom(before, job) == Some(lo)
    requires NextPage(Commits(before, job, history, nows), job, history) == []
    ensures RangeStored(Commits(before, job, history, nows).candles, job, history, lo)
       <==> AllStored(before.candles, job, Skipped(job, history, lo))
  {
    hide Spaced;
    hide Bars;
    hide Overlaid;
    hide Commits;
    hide Skipped;
    hide Reach;
    hide Stored;
    var db := Commits(before, job, history, nows);
    ExhaustedMeansWholeRange(before, job, history, nows, lo);
    forall k | k in history && lo <= k.openTime <= job.rangeEnd
      ensures Stored(db.candles, job, k.openTime)
           == if k in Skipped(job, history, lo) then Stored(before.candles, job, k.openTime) else Some(k.data)
    {
      BarsMembers(history, lo, job.rangeEnd, k);
      SkippedIsBeyond(job, history, lo, k);
      OverlaidBar(before.candles, db.candles, job, history, lo, Reach(job, history, lo), k);
    }
    forall k | k in Skipped(job, history, lo) ensures k in history && lo <= k.openTime <= job.rangeEnd {
      SkippedInRange(job, history, lo, k);
    }
  }

  lemma SkippedInRange(job: Job, history: seq<Kline>, from: int, k: Kline)
    requires k in Skipped(job, history, from)
    ensures k in history && from <= k.openTime <= job.rangeEnd
  {
    hide Bars;
    BarsMembers(history, from, job.rangeEnd, k);
  }

  /** A checkpoint a fresh request has left at completed, whatever crashes there
      were, means every venue bar of the range is stored if and only if the venue
      honours the chunk size, or one of its largest pages holds the range, or the
      bars beyond that page were stored before. No later call for the range, of
      whatever chunk size, changes anything. */
  lemma CompletedMeansStored(before: Db, job: Job, history: seq<Kline>, nows: seq<int>)
    requires Spaced(history, job.step) && job.Key() !in before.checkpoints
    requires var db := Commits(before, job, history, nows);
             job.Key() in db.checkpoints && db.checkpoints[job.Key()].status == Completed
    ensures var db, bars := Commits(before, job, history, nows), Bars(history, job.rangeStart, job.rangeEnd);
            RangeStored(db.candles, job, history, job.rangeStart)
            <==> || job.chunkSize <= PAGE_MAX
                 || |bars| <= PAGE_MAX
                 || AllStored(before.candles, job, bars[PAGE_MAX..])
    ensures forall other: Job, now ::
              other.Key() == job.Key() ==>
                var db := Commits(before, job, history, nows);
                Backfill(db, other, history, now) == db
  {
    hide Spaced;
    hide Bars;
    hide Commits;
    hide RangeStored;
    hide Stored;
    if job.chunkSize < 1 {
      EmptyPages(before, job, history, nows);
      assert false;
    }
    ExhaustedStoresRangeIff(before, job, history, nows, job.rangeStart);
  }

  // ----- a call is commits until none is left -----

  lemma {:induction false} CommitsConcat(db: Db, job: Job, history: seq<Kline>, a: seq<int>, b: seq<int>)
    ensures Commits(db, job, history, a + b) == Commits(Commits(db, job, history, a), job, history, b)
  {
    hide Commit;
    hide NextPage;
    if b == [] {
      assert a + b == a;
    } else {
      CommitsConcat(db, job, history, a, b[..|b| - 1]);
      assert (a + b)[..|a + b| - 1] == a + b[..|b| - 1];
    }
  }

  lemma RepeatConcat(now: int, n: nat)
    ensures Repeat(now, 1) + Repeat(now, n) == Repeat(now, n + 1)
  {
  }

  lemma NextPageAt(db: Db, job: Job, history: seq<Kline>, from: int)
    ensures ResumeFrom(db, job) == None || (from > job.rangeEnd && ResumeFrom(db, job) == Some(from)) ==>
              NextPage(db, job, history) == []
    ensures ResumeFrom(db, job) == Some(from) && from <= job.rangeEnd ==>
              NextPage(db, job, history) == Page(history, from, job.rangeEnd, job.chunkSize)
  {
    hide Page;
    hide ResumeFrom;
  }

  /** The loop at `from` makes commits until none is left to make. */
  lemma {:induction false} LoopIsCommits(db: Db, job: Job, history: seq<Kline>, now: int, from: int) returns (n: nat)
    requires ResumeFrom(db, job) == Some(from)
    ensures Loop(db, job, history, now, from) == Commits(db, job, history, Repeat(now, n))
    ensures NextPage(Loop(db, job, history, now, from), job, history) == []
    decreases job.rangeEnd - from
  {
    hide Loop;
    hide Page;
    hide Commit;
    hide Commits;
    hide NextPage;
    hide ResumeFrom;
    hide Repeat;
    n := 0;
    NoCommits(db, job, history, now);
    NextPageAt(db, job, history, from);
    if from > job.rangeEnd {
      LoopOver(db, job, history, now, from);
    } else {
      var page := Page(history, from, job.rangeEnd, job.chunkSize);
      LoopTurn(db, job, history, now, from, page);
      if page != [] {
        var after, next := Commit(db, job, page, now), page[|page| - 1].openTime + job.step;
        CheckpointTurn(db, job, history, now, from, page);
        CommitsOneMore(db, job, history, Repeat(now, 0), now);
        RepeatOneMore(now, 0);
        NextPageAt(after, job, history, next);
        if |page| >= job.chunkSize && next <= job.rangeEnd {
          n := LoopIsCommits(after, job, history, now, next);
          CommitsConcat(db, job, history, Repeat(now, 1), Repeat(now, n));
          RepeatConcat(now, n);
        } else if next > job.rangeEnd {
          LoopOver(after, job, history, now, next);
        }
        n := n + 1;
      }
    }
  }

  /** An uninterrupted call makes commits until there is none left to make. */
  lemma CallIsCommits(db: Db, job: Job, history: seq<Kline>, now: int) returns (n: nat)
    ensures Backfill(db, job, history, now) == Commits(db, job, history, Repeat(now, n))
    ensures NextPage(Backfill(db, job, history, now), job, history) == []
  {
    var start := ResumeFrom(db, job);
    if start.None? {
      n := 0;
    } else {
      n := LoopIsCommits(db, job, history, now, start.value);
    }
  }

  // ----- interruptions do not matter -----

  /** Equal but for what depends on a call's clock. */
  ghost predicate SameButClock(d: Db, e: Db) {
    SameCandles(d.candles, e.candles) && SameCheckpoints(d, e) && d.events == e.events
  }

  ghost predicate SameCandles(a: CandleTable, b: CandleTable) {
    && (forall key :: key in a <==> key in b)
    && (forall key :: key in a ==> a[key].data == b[key].data && a[key].source == b[key].source)
  }

  ghost predicate SameCheckpoints(d: Db, e: Db) {
    && (forall key :: key in d.checkpoints <==> key in e.checkpoints)
    && (forall key :: key in d.checkpoints ==>
          d.checkpoints[key].last == e.checkpoints[key].last && d.checkpoints[key].status == e.checkpoints[key].status)
  }

  lemma {:induction false} UpsertSame(a: CandleTable, b: CandleTable, job: Job, klines: seq<Kline>, now: int,
                                      later: int)
    requires SameCandles(a, b)
    ensures SameCandles(Upsert(a, job, klines, now), Upsert(b, job, klines, later))
  {
    if klines != [] {
      UpsertSame(a, b, job, klines[..|klines| - 1], now, later);
    }
  }

  lemma CommitSame(d: Db, e: Db, job: Job, page: seq<Kline>, now: int, later: int)
    requires SameButClock(d, e) && page != []
    ensures SameButClock(Commit(d, job, page, now), Commit(e, job, page, later))
  {
    hide Upsert;
    hide SameCandles;
    UpsertSame(d.candles, e.candles, job, page, now, later);
  }

  lemma NextPageSame(d: Db, e: Db, job: Job, history: seq<Kline>)
    requires SameButClock(d, e)
    ensures NextPage(d, job, history) == NextPage(e, job, history)
  {
    hide SameCandles;
  }

  lemma {:induction false} CommitsSame(db: Db, job: Job, history: seq<Kline>, a: seq<int>, b: seq<int>)
    requires |a| == |b|
    ensures SameButClock(Commits(db, job, history, a), Commits(db, job, history, b))
  {
    hide Commit;
    hide NextPage;
    hide SameButClock;
    if a == [] {
      SameAsItself(db);
    } else {
      var n := |a| - 1;
      CommitsSame(db, job, history, a[..n], b[..n]);
      var d, e := Commits(db, job, history, a[..n]), Commits(db, job, history, b[..n]);
      NextPageSame(d, e, job, history);
      var page := NextPage(d, job, history);
      if page != [] {
        CommitSame(d, e, job, page, a[n], b[n]);
      }
    }
  }

  lemma SameAsItself(db: Db)
    ensures SameButClock(db, db)
  {
  }

  lemma {:induction false} ExhaustedStays(db: Db, job: Job, history: seq<Kline>, nows: seq<int>)
    requires NextPage(db, job, history) == []
    ensures Commits(db, job, history, nows) == db
  {
    if nows != [] {
      ExhaustedStays(db, job, history, nows[..|nows| - 1]);
    }
  }

  /** Any two ways of getting to where nothing is left, with any crashes and any
      clocks, leave the same rows and the same checkpoint but for the clocks. */
  lemma InterruptionsDoNotMatter(db: Db, job: Job, history: seq<Kline>, a: seq<int>, b: seq<int>)
    requires |a| <= |b|
    requires NextPage(Commits(db, job, history, a), job, history) == []
    ensures SameButClock(Commits(db, job, history, a), Commits(db, job, history, b))
    ensures NextPage(Commits(db, job, history, b), job, history) == []
  {
    hide Commits;
    hide NextPage;
    hide SameButClock;
    var n := |a|;
    CommitsSame(db, job, history, a, b[..n]);
    NextPageSame(Commits(db, job, history, a), Commits(db, job, history, b[..n]), job, history);
    assert b == b[..n] + b[n..];
    CommitsConcat(db, job, history, b[..n], b[n..]);
    ExhaustedStays(Commits(db, job, history, b[..n]), job, history, b[n..]);
  }

  /** Processes one after the other: the clock of each call, and how many commits
      it made before it died. */
  function AfterCrashes(db: Db, job: Job, history: seq<Kline>, calls: seq<(int, nat)>): Db {
    if calls == [] then db
    else
      var c := calls[|calls| - 1];
      Commits(AfterCrashes(db, job, history, calls[..|calls| - 1]), job, history, Repeat(c.0, c.1))
  }

  lemma {:induction false} CrashesAreCommits(db: Db, job: Job, history: seq<Kline>, calls: seq<(int, nat)>)
    returns (nows: seq<int>)
    ensures AfterCrashes(db, job, history, calls) == Commits(db, job, history, nows)
  {
    nows := [];
    if calls != [] {
      var c := calls[|calls| - 1];
      var earlier := CrashesAreCommits(db, job, history, calls[..|calls| - 1]);
      CommitsConcat(db, job, history, earlier, Repeat(c.0, c.1));
      nows := earlier + Repeat(c.0, c.1);
    }
  }

  /** Crash as often as you like; the call that finally returns leaves what one
      uninterrupted call would have left. */
  lemma ResumedEqualsUninterrupted(db: Db, job: Job, history: seq<Kline>, calls: seq<(int, nat)>, now: int, once: int)
    ensures SameButClock(Backfill(AfterCrashes(db, job, history, calls), job, history, now),
                         Backfill(db, job, history, once))
  {
    hide Commits;
    hide NextPage;
    hide SameButClock;
    hide Backfill;
    var earlier := CrashesAreCommits(db, job, history, calls);
    var n := CallIsCommits(AfterCrashes(db, job, history, calls), job, history, now);
    CommitsConcat(db, job, history, earlier, Repeat(now, n));
    var m := CallIsCommits(db, job, history, once);
    var a, b := earlier + Repeat(now, n), Repeat(once, m);
    if |a| <= |b| {
      InterruptionsDoNotMatter(db, job, history, a, b);
    } else {
      InterruptionsDoNotMatter(db, job, history, b, a);
      SameIsSymmetric(Backfill(db, job, history, once),
                      Backfill(AfterCrashes(db, job, history, calls), job, history, now));
    }
  }

  lemma SameIsSymmetric(d: Db, e: Db)
    requires SameButClock(d, e)
    ensures SameButClock(e, d)
  {
  }

  /** A call that returns on a fresh request, of whatever chunk size, has written the
      venue's bars as far as its pages reach and touched nothing else; the whole
      range is stored if and only if the bars it skips were. */
  lemma CallStoresWholeRange(db: Db, job: Job, history: seq<Kline>, now: int)
    requires Spaced(history, job.step) && job.Key() !in db.checkpoints
    ensures var after, from := Backfill(db, job, history, now).candles, job.rangeStart;
            && Overlaid(db.candles, after, job, history, from, Reach(job, history, from))
            && (Skipped(job, history, from) == [] ==>
                  Overlaid(db.candles, after, job, history, from, job.rangeEnd))
            && (RangeStored(after, job, history, from) <==> AllStored(db.candles, job, Skipped(job, history, from)))
  {
    hide Commits;
    hide NextPage;
    hide Backfill;
    hide Bars;
    hide Skipped;
    hide Overlaid;
    hide RangeStored;
    hide AllStored;
    hide Reach;
    var n := CallIsCommits(db, job, history, now);
    ExhaustedMeansWholeRange(db, job, history, Repeat(now, n), job.rangeStart);
    ExhaustedStoresRangeIff(db, job, history, Repeat(now, n), job.rangeStart);
  }

  // ----- which page sizes fetch everything -----

  lemma {:induction false} BarsDrop(history: seq<Kline>, step: Duration, from: int, to: int, n: nat, x: int)
    requires Spaced(history, step) && from <= x && n <= |Bars(history, from, to)|
    requires n > 0 ==> Bars(history, from, to)[n - 1].openTime < x
    requires n < |Bars(history, from, to)| ==> x <= Bars(history, from, to)[n].openTime
    ensures Bars(history, x, to) == Bars(history, from, to)[n..]
  {
    hide Spaced;
    hide Bars;
    BarsStep(history, from, to);
    BarsStep(history, x, to);
    if history != [] {
      var rest := Bars(history[1..], from, to);
      SpacedTail(history, step);
      if from <= history[0].openTime <= to {
        DropHead(history[0], rest, n);
        BarsDrop(history[1..], step, from, to, if n == 0 then 0 else n - 1, x);
      } else {
        BarsDrop(history[1..], step, from, to, n, x);
      }
    }
  }

  lemma BarsStep(history: seq<Kline>, from: int, to: int)
    ensures Bars(history, from, to)
         == if history == [] then []
            else if from <= history[0].openTime <= to then [history[0]] + Bars(history[1..], from, to)
            else Bars(history[1..], from, to)
  {
    if history != [] {
      assert [] + Bars(history[1..], from, to) == Bars(history[1..], from, to);
    }
  }

  lemma DropHead(k: Kline, rest: seq<Kline>, n: nat)
    requires n <= 1 + |rest|
    ensures n > 0 ==> ([k] + rest)[n..] == rest[n - 1..] && ([k] + rest)[n - 1] == if n == 1 then k else rest[n - 2]
    ensures 0 < n < 1 + |rest| ==> ([k] + rest)[n] == rest[n - 1]
    ensures n == 0 ==> ([k] + rest)[n..] == [k] + rest[0..]
  {
  }

  lemma PageThenRest(job: Job, history: seq<Kline>, from: int)
    requires Spaced(history, job.step) && Page(history, from, job.rangeEnd, job.chunkSize) != []
    ensures var page := Page(history, from, job.rangeEnd, job.chunkSize);
            Bars(history, from, job.rangeEnd)
            == page + Bars(history, page[|page| - 1].openTime + job.step, job.rangeEnd)
  {
    hide Bars;
    var page := Page(history, from, job.rangeEnd, job.chunkSize);
    var bars := Bars(history, from, job.rangeEnd);
    BarsSpaced(history, job.step, from, job.rangeEnd);
    BarsDrop(history, job.step, from, job.rangeEnd, |page|, page[|page| - 1].openTime + job.step);
    assert bars == page + bars[|page|..];
  }

  lemma {:induction false} EmptyWindow(history: seq<Kline>, from: int, to: int)
    requires from > to
    ensures Bars(history, from, to) == []
  {
    if history != [] {
      EmptyWindow(history[1..], from, to);
    }
  }

  lemma FetchedStep(job: Job, history: seq<Kline>, from: int)
    ensures var page := Page(history, from, job.rangeEnd, job.chunkSize);
            Fetched(job, history, from)
            == if from > job.rangeEnd || page == [] then []
               else if |page| < job.chunkSize then page
               else page + Fetched(job, history, page[|page| - 1].openTime + job.step)
  {
    hide Page;
  }

  lemma ShortPageIsAll(job: Job, history: seq<Kline>, from: int)
    requires HonouredChunk(job)
    ensures var page := Page(history, from, job.rangeEnd, job.chunkSize);
            page == [] || |page| < job.chunkSize ==> page == Bars(history, from, job.rangeEnd)
  {
    hide Bars;
  }

  lemma {:induction false} HonouredChunksFetchAll(job: Job, history: seq<Kline>, from: int)
    requires Spaced(history, job.step) && HonouredChunk(job)
    ensures Fetched(job, history, from) == Bars(history, from, job.rangeEnd)
    decreases job.rangeEnd - from
  {
    hide Bars;
    hide Page;
    hide Fetched;
    hide Spaced;
    FetchedStep(job, history, from);
    if from > job.rangeEnd {
      EmptyWindow(history, from, job.rangeEnd);
    } else {
      ShortPageIsAll(job, history, from);
      var page := Page(history, from, job.rangeEnd, job.chunkSize);
      if page != [] && |page| >= job.chunkSize {
        PageThenRest(job, history, from);
        HonouredChunksFetchAll(job, history, page[|page| - 1].openTime + job.step);
      }
    }
  }

  /** What a call fetches and what it skips make up the range. */
  lemma FetchedThenSkipped(job: Job, history: seq<Kline>, from: int)
    requires Spaced(history, job.step)
    ensures Fetched(job, history, from) + Skipped(job, history, from) == Bars(history, from, job.rangeEnd)
  {
    hide Bars;
    hide Page;
    hide Fetched;
    hide Spaced;
    var bars := Bars(history, from, job.rangeEnd);
    FetchedStep(job, history, from);
    if from > job.rangeEnd {
      EmptyWindow(history, from, job.rangeEnd);
    } else if job.chunkSize < 1 {
      NoPage(job, history, from);
      EmptyUnits(bars);
    } else if job.chunkSize > PAGE_MAX {
      OversizePage(job, history, from);
      EmptyUnits(bars);
    }
    if HonouredChunk(job) {
      HonouredChunksFetchAll(job, history, from);
      EmptyUnits(bars);
    }
  }

  lemma NoPage(job: Job, history: seq<Kline>, from: int)
    requires job.chunkSize < 1
    ensures Page(history, from, job.rangeEnd, job.chunkSize) == []
  {
    hide Bars;
  }

  /** A call fetches exactly the venue's bars of its range if and only if there
      are none, or the chunk size is positive and either the venue honours it or
      one of the venue's largest pages holds the whole range. */
  lemma FetchesWholeRangeIff(job: Job, history: seq<Kline>, from: int)
    requires Spaced(history, job.step)
    ensures Fetched(job, history, from) == Bars(history, from, job.rangeEnd)
       <==> var n := |Bars(history, from, job.rangeEnd)|;
            n == 0 || (job.chunkSize >= 1 && (job.chunkSize <= PAGE_MAX || n <= PAGE_MAX))
  {
    hide Bars;
    hide Fetched;
    FetchedThenSkipped(job, history, from);
    EmptyUnits(Fetched(job, history, from));
  }
}
