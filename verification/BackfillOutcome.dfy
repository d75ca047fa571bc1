/** What one returning backfill call leaves and reports, row by row, and what the
    calls of an interrupted request add up to. */
module BackfillOutcomes {
  import opened Common
  import opened Backfills
  import opened BackfillRecovery

  // ----- what a call leaves -----

  /** The checkpoint of a call that fetched these bars, in all. */
  function LastCheckpoint(job: Job, fetched: seq<Kline>, now: int): Checkpoint
    requires fetched != [] && job.chunkSize >= 1
  {
    var last := Last(fetched).openTime;
    Checkpoint(Some(last),
               if job.chunkSize > 1000 || |fetched| % job.chunkSize != 0 || last + job.step > job.rangeEnd
               then Completed else InProgress,
               now)
  }

  lemma {:induction false} UpsertOverPages(candles: CandleTable, job: Job, a: seq<Kline>, b: seq<Kline>, now: int)
    ensures Upsert(candles, job, a + b, now) == Upsert(Upsert(candles, job, a, now), job, b, now)
  {
    if b == [] {
      assert a + b == a;
    } else {
      var n := |b| - 1;
      UpsertOverPages(candles, job, a, b[..n], now);
      assert (a + b)[..|a + b| - 1] == a + b[..n] && (a + b)[|a + b| - 1] == b[n];
    }
  }

  lemma PageSize(history: seq<Kline>, from: int, to: int, limit: int)
    ensures |Page(history, from, to, limit)| <= 1000
    ensures Page(history, from, to, limit) != [] ==> 1 <= limit && |Page(history, from, to, limit)| <= limit
  {
    hide Bars;
  }

  lemma CheckpointOverPage(job: Job, page: seq<Kline>, rest: seq<Kline>, now: int)
    requires page != [] && |page| <= 1000 && 1 <= |page| <= job.chunkSize
    requires |page| == job.chunkSize || rest == []
    ensures rest != [] ==> LastCheckpoint(job, page + rest, now) == LastCheckpoint(job, rest, now)
    ensures rest == [] ==>
              LastCheckpoint(job, page, now)
              == Checkpoint(Some(page[|page| - 1].openTime),
                            if |page| < job.chunkSize || page[|page| - 1].openTime + job.step > job.rangeEnd
                            then Completed else InProgress, now)
  {
    RemainderAgain(|rest|, job.chunkSize);
    RemainderAgain(|page|, job.chunkSize);
    RemainderAgain(0, job.chunkSize);
    if rest != [] {
      assert Last(page + rest) == Last(rest);
    }
  }

  lemma {:induction false} LoopLeaves(db: Db, job: Job, history: seq<Kline>, now: int, from: int)
    ensures var fetched, after := Fetched(job, history, from), Loop(db, job, history, now, from);
            && (fetched == [] ==> after == db)
            && (fetched != [] ==>
                  && job.chunkSize >= 1
                  && after == Db(Upsert(db.candles, job, fetched, now),
                                 db.checkpoints[job.Key() := LastCheckpoint(job, fetched, now)], db.events))
    decreases job.rangeEnd - from
  {
    hide Loop;
    hide Fetched;
    hide Page;
    hide Commit;
    hide Upsert;
    hide LastCheckpoint;
    if from > job.rangeEnd {
      LoopOver(db, job, history, now, from);
    } else {
      var page := Page(history, from, job.rangeEnd, job.chunkSize);
      LoopTurn(db, job, history, now, from, page);
      PageSize(history, from, job.rangeEnd, job.chunkSize);
      if page != [] {
        CommitIs(db, job, page, now);
        if |page| < job.chunkSize {
          CheckpointOverPage(job, page, [], now);
        } else {
          var after, next := Commit(db, job, page, now), page[|page| - 1].openTime + job.step;
          var rest := Fetched(job, history, next);
          LoopLeaves(after, job, history, now, next);
          UpsertOverPages(db.candles, job, page, rest, now);
          CheckpointOverPage(job, page, rest, now);
          EmptyUnits(page);
        }
      }
    }
  }

  /** A call that is not told the range is completed resumes one step after the last
      stored bar, and leaves the table with what it fetched, every bar under its own
      open time, and its checkpoint at the last one fetched, at its own clock. It is
      left completed exactly if the last page was short, or the venue cut it, or the
      range has no room for another bar. Nothing else changes. */
  lemma CallLeaves(db: Db, job: Job, history: seq<Kline>, now: int)
    requires Spaced(history, job.step)
    ensures var key := CheckpointKey(job.venue, job.instrument, job.step, job.rangeStart, job.rangeEnd);
            var done := key in db.checkpoints && db.checkpoints[key].status == Completed;
            var from := if key in db.checkpoints && db.checkpoints[key].last.Some?
                        then db.checkpoints[key].last.value + job.step else job.rangeStart;
            var fetched, after := Fetched(job, history, from), Backfill(db, job, history, now);
            && (done || fetched == [] ==> after == db)
            && (!done && fetched != [] ==>
                  && job.chunkSize >= 1
                  && var last := Last(fetched).openTime;
                     var ended := job.chunkSize > 1000 || |fetched| % job.chunkSize != 0
                                  || last + job.step > job.rangeEnd;
                     && after.events == db.events
                     && after.checkpoints
                        == db.checkpoints[key := Checkpoint(Some(last), if ended then Completed else InProgress, now)]
                     && (forall i :: 0 <= i < |fetched| ==>
                           var k := fetched[i];
                           var at := CandleKey(job.instrument, job.step, k.openTime);
                           at in after.candles
                           && after.candles[at] == Row(k.data, k.openTime + job.step <= now, job.source))
                     && (forall at: CandleKey ::
                           (forall i :: 0 <= i < |fetched| ==>
                              at != CandleKey(job.instrument, job.step, fetched[i].openTime)) ==>
                           && (at in after.candles <==> at in db.candles)
                           && (at in db.candles ==> after.candles[at] == db.candles[at])))
  {
    hide Loop;
    hide Fetched;
    hide Upsert;
    hide Spaced;
    hide Backfill;
    hide ResumeFrom;
    ResumesAfterTheCheckpoint(db, job);
    BackfillIsLoop(db, job, history, now);
    if ResumeFrom(db, job).Some? {
      var from := ResumeFrom(db, job).value;
      var fetched := Fetched(job, history, from);
      LoopLeaves(db, job, history, now, from);
      FetchedSpaced(job, history, from);
      forall i | 0 <= i < |fetched|
        ensures var at := job.At(fetched[i].openTime);
                at in Upsert(db.candles, job, fetched, now)
                && Upsert(db.candles, job, fetched, now)[at]
                   == Row(fetched[i].data, fetched[i].openTime + job.step <= now, job.source)
      {
        RowsCarryTheCall(db.candles, job, fetched, now, i);
      }
      forall at: CandleKey | forall i :: 0 <= i < |fetched| ==> at != job.At(fetched[i].openTime)
        ensures var after := Upsert(db.candles, job, fetched, now);
                (at in after <==> at in db.candles) && (at in db.candles ==> after[at] == db.candles[at])
      {
        OthersStay(db.candles, job, fetched, now, at);
      }
    }
  }

  lemma {:induction false} OthersStay(candles: CandleTable, job: Job, klines: seq<Kline>, now: int, at: CandleKey)
    requires forall i :: 0 <= i < |klines| ==> at != job.At(klines[i].openTime)
    ensures var after := Upsert(candles, job, klines, now);
            (at in after <==> at in candles) && (at in candles ==> after[at] == candles[at])
  {
    if klines != [] {
      OthersStay(candles, job, klines[..|klines| - 1], now, at);
    }
  }

  lemma FetchedSpaced(job: Job, history: seq<Kline>, from: int)
    requires Spaced(history, job.step)
    ensures Spaced(Fetched(job, history, from), job.step)
  {
    hide Fetched;
    hide Bars;
    hide Skipped;
    FetchedThenSkipped(job, history, from);
    BarsSpaced(history, job.step, from, job.rangeEnd);
    SpacedPrefix(Fetched(job, history, from), Skipped(job, history, from), job.step);
  }

  lemma SpacedPrefix(a: seq<Kline>, b: seq<Kline>, step: int)
    requires Spaced(a + b, step)
    ensures Spaced(a, step)
  {
    forall i, j | 0 <= i < j < |a| ensures a[i].openTime + step <= a[j].openTime {
      assert (a + b)[i] == a[i] && (a + b)[j] == a[j];
    }
  }

  // ----- what interrupted calls add up to -----

  /** However often a request is interrupted: what it has committed so far and what
      the next call fetches make up what one call would have fetched, and so do
      the gaps they find, the one across the interruption included. */
  lemma {:induction false} InterruptedGapsAddUp(before: Db, job: Job, history: seq<Kline>, nows: seq<int>, lo: int)
    returns (stored: seq<Kline>, rest: seq<Kline>)
    requires ResumeFrom(before, job) == Some(lo)
    ensures var key := CheckpointKey(job.venue, job.instrument, job.step, job.rangeStart, job.rangeEnd);
            var db := Commits(before, job, history, nows);
            var first := if key in before.checkpoints then before.checkpoints[key].last else None;
            var last := if key in db.checkpoints then db.checkpoints[key].last else None;
            && stored + rest == Fetched(job, history, lo)
            && (stored == [] ==> db == before)
            && (stored != [] ==>
                  key in db.checkpoints && last == Some(Last(stored).openTime)
                  && db.checkpoints[key].updatedAt in nows)
            && rest == (if key in db.checkpoints && db.checkpoints[key].status == Completed then []
                        else Fetched(job, history, if last.Some? then last.value + job.step else job.rangeStart))
            && FindGaps(OpenTimes(Fetched(job, history, lo)), job.step, first)
               == FindGaps(OpenTimes(stored), job.step, first) + FindGaps(OpenTimes(rest), job.step, last)
  {
    hide Commits;
    hide Fetched;
    hide FindGaps;
    hide OpenTimes;
    hide ResumeFrom;
    hide Previous;
    ResumesAfterTheCheckpoint(before, job);
    stored, rest := CommitsFetch(before, job, history, nows, lo);
    var db := Commits(before, job, history, nows);
    ResumesAfterTheCheckpoint(db, job);
    OpenTimesConcat(stored, rest);
    FindGapsOverChunks(OpenTimes(stored), OpenTimes(rest), job.step, Previous(before, job));
  }

  lemma OpenTimesConcat(a: seq<Kline>, b: seq<Kline>)
    ensures OpenTimes(a + b) == OpenTimes(a) + OpenTimes(b)
    ensures OpenTimes(a) == [] <==> a == []
    ensures a != [] ==> Last(OpenTimes(a)) == Last(a).openTime
  {
  }

  lemma {:induction false} CommitsFetch(before: Db, job: Job, history: seq<Kline>, nows: seq<int>, lo: int)
    returns (stored: seq<Kline>, rest: seq<Kline>)
    requires ResumeFrom(before, job) == Some(lo)
    ensures var db := Commits(before, job, history, nows);
            && stored + rest == Fetched(job, history, lo)
            && (stored == [] ==> db == before)
            && (stored != [] ==>
                  && job.Key() in db.checkpoints && db.checkpoints[job.Key()].last == Some(Last(stored).openTime)
                  && db.checkpoints[job.Key()].updatedAt in nows)
            && rest == (if ResumeFrom(db, job).None? then [] else Fetched(job, history, ResumeFrom(db, job).value))
  {
    hide Fetched;
    hide Commit;
    hide Page;
    hide NextPage;
    hide ResumeFrom;
    hide Commits;
    if nows == [] {
      NothingCommitted(before, job, history);
      stored, rest := [], Fetched(job, history, lo);
    } else {
      var n := |nows| - 1;
      stored, rest := CommitsFetch(before, job, history, nows[..n], lo);
      var db := Commits(before, job, history, nows[..n]);
      assert nows == nows[..n] + [nows[n]];
      CommitsOneMore(before, job, history, nows[..n], nows[n]);
      var page := NextPage(db, job, history);
      if page != [] {
        var later := CommitTakesAPage(db, job, history, nows[n]);
        CommitMovesTheCheckpoint(db, job, page, nows[n]);
        Associates(stored, page, later);
        stored, rest := stored + page, later;
      }
    }
  }

  lemma NothingCommitted(before: Db, job: Job, history: seq<Kline>)
    ensures Commits(before, job, history, []) == before
  {
  }

  /** A commit moves one page from what is left to what is stored ... */
  lemma CommitTakesAPage(db: Db, job: Job, history: seq<Kline>, now: int) returns (later: seq<Kline>)
    requires NextPage(db, job, history) != []
    ensures var page := NextPage(db, job, history);
            var after := Commit(db, job, page, now);
            && ResumeFrom(db, job).Some?
            && Fetched(job, history, ResumeFrom(db, job).value) == page + later
            && later == (if ResumeFrom(after, job).None? then []
                         else Fetched(job, history, ResumeFrom(after, job).value))
  {
    hide Fetched;
    hide Commit;
    hide Page;
    hide NextPage;
    hide ResumeFrom;
    hide Spaced;
    var page := NextPage(db, job, history);
    var from := ResumesWhenPaged(db, job, history);
    var next := page[|page| - 1].openTime + job.step;
    FetchedAfterPage(job, history, from, page);
    CheckpointTurn(db, job, history, now, from, page);
    EmptyUnits(page);
    later := if |page| < job.chunkSize || next > job.rangeEnd then [] else Fetched(job, history, next);
  }

  /** ... and moves the checkpoint to the last bar of it. */
  lemma CommitMovesTheCheckpoint(db: Db, job: Job, page: seq<Kline>, now: int)
    requires page != []
    ensures var after := Commit(db, job, page, now);
            && job.Key() in after.checkpoints && after.checkpoints[job.Key()].last == Some(Last(page).openTime)
            && after.checkpoints[job.Key()].updatedAt == now
  {
    hide Upsert;
  }

  lemma FetchedAfterPage(job: Job, history: seq<Kline>, from: int, page: seq<Kline>)
    requires from <= job.rangeEnd && page == Page(history, from, job.rangeEnd, job.chunkSize) && page != []
    ensures var next := page[|page| - 1].openTime + job.step;
            && (|page| < job.chunkSize || next > job.rangeEnd ==> Fetched(job, history, from) == page)
            && (|page| >= job.chunkSize && next <= job.rangeEnd ==>
                  Fetched(job, history, from) == page + Fetched(job, history, next))
  {
    hide Fetched;
    hide Page;
    FetchedStep(job, history, from);
    NothingBeyond(job, history, page[|page| - 1].openTime + job.step);
    if |page| >= job.chunkSize {
      EmptyUnits(page);
    }
  }

  lemma ResumesWhenPaged(db: Db, job: Job, history: seq<Kline>) returns (from: int)
    requires NextPage(db, job, history) != []
    ensures ResumeFrom(db, job) == Some(from) && from <= job.rangeEnd
    ensures NextPage(db, job, history) == Page(history, from, job.rangeEnd, job.chunkSize)
  {
    hide Page;
    hide ResumeFrom;
    from := ResumeFrom(db, job).value;
  }

  lemma NothingBeyond(job: Job, history: seq<Kline>, from: int)
    ensures from > job.rangeEnd ==> Fetched(job, history, from) == []
  {
  }
}
