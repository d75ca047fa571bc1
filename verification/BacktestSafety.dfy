/** What a strategy sees at each bar of a backtest: the view is the past, and
    every bar is answered, counted and forwarded as documented. */
module BacktestSafety {
  import opened Common
  import opened Candles
  import opened HistoricalFeeds
  import opened FeedOrder
  import opened MarketDataViews
  import opened BacktestLoops

  // ----- the view is the past -----

  lemma {:induction false} EventInProjection(events: seq<FeedEvent>, i: nat)
    requires i < |events|
    ensures events[i].candle in Project(events, events[i].key)
  {
    var rest := Project(events[1..], events[i].key);
    if i > 0 {
      EventInProjection(events[1..], i - 1);
      assert events[1..][i - 1] == events[i];
    }
  }

  /** Every event is a bar of the series it is delivered for. */
  lemma EventFromSeries(ds: Dataset, i: nat)
    requires Loadable(ds) && i < |Events(ds)|
    ensures Events(ds)[i].key in ds.bars && Events(ds)[i].candle in ds.bars[Events(ds)[i].key]
  {
    EventInProjection(Events(ds), i);
    EveryBarOnceInOrder(ds, Events(ds)[i].key);
  }

  function ClosedBefore(events: seq<FeedEvent>, ts: int): seq<FeedEvent>
    requires forall e :: e in events ==> Timed(e)
  {
    if events == [] then []
    else (if EventClose(events[0]) < ts then [events[0]] else []) + ClosedBefore(events[1..], ts)
  }

  function BarsBefore(bars: seq<Candle>, step: int, ts: int): seq<Candle> {
    if bars == [] then []
    else (if bars[0].openTime + step < ts then [bars[0]] else []) + BarsBefore(bars[1..], step, ts)
  }

  lemma {:induction false} ProjectClosedBefore(events: seq<FeedEvent>, key: SeriesKey, ts: int)
    requires (forall e :: e in events ==> Timed(e)) && IsInterval(key.timeframe)
    ensures Project(ClosedBefore(events, ts), key) == BarsBefore(Project(events, key), Step(key.timeframe), ts)
  {
    if events != [] {
      var e, rest := events[0], events[1..];
      ProjectClosedBefore(rest, key, ts);
      assert Project(events, key) == if e.key == key then [e.candle] + Project(rest, key) else Project(rest, key);
      BarsBeforeCons(e.candle, Project(rest, key), Step(key.timeframe), ts);
      if EventClose(e) < ts {
        ProjectCons(e, ClosedBefore(rest, ts), key);
      } else {
        assert ClosedBefore(events, ts) == ClosedBefore(rest, ts);
      }
    }
  }

  lemma BarsBeforeCons(c: Candle, rest: seq<Candle>, step: int, ts: int)
    ensures BarsBefore([c] + rest, step, ts)
         == (if c.openTime + step < ts then [c] else []) + BarsBefore(rest, step, ts)
  {
    assert ([c] + rest)[1..] == rest;
  }

  lemma {:induction false} NoBarsBefore(bars: seq<Candle>, step: int, ts: int)
    requires forall i :: 0 <= i < |bars| ==> bars[i].openTime + step >= ts
    ensures BarsBefore(bars, step, ts) == []
  {
    if bars != [] {
      NoBarsBefore(bars[1..], step, ts);
    }
  }

  /** On ascending bars the scan stops exactly after those closing before ts. */
  lemma {:induction false} ScanTakesBarsBefore(bars: seq<Candle>, step: int, count: nat, ts: int)
    requires count <= |bars|
    requires forall i, j :: 0 <= i < j < |bars| ==> bars[i].openTime <= bars[j].openTime
    ensures BarsBefore(bars[count..], step, ts) == bars[count..Scan(bars, step, count, ts)]
    decreases |bars| - count
  {
    if count < |bars| {
      if bars[count].openTime + step < ts {
        ScanTakesBarsBefore(bars, step, count + 1, ts);
        assert bars[count..][1..] == bars[count + 1..];
        var r := Scan(bars, step, count, ts);
        assert bars[count..r] == [bars[count]] + bars[count + 1..r];
      } else {
        NoBarsBefore(bars[count..], step, ts);
      }
    }
  }

  lemma {:induction false} ClosedBeforePrefix(events: seq<FeedEvent>, n: nat, ts: int)
    requires (forall e :: e in events ==> Timed(e)) && n <= |events|
    requires forall j :: n <= j < |events| ==> EventClose(events[j]) >= ts
    ensures ClosedBefore(events[..n], ts) == ClosedBefore(events, ts)
  {
    if events != [] {
      if n == 0 {
        ClosedBeforePrefix(events[1..], 0, ts);
        assert events[1..][..0] == [];
      } else {
        ClosedBeforePrefix(events[1..], n - 1, ts);
        assert events[..n][1..] == events[1..][..n - 1];
      }
    }
  }

  /** At the i-th bar of a run, the bars behind the view under any key are those
      among the events delivered at earlier bars that closed strictly before it:
      all of them, in order, and nothing else. */
  lemma ViewIsThePast(ds: Dataset, i: nat, key: SeriesKey)
    requires Loadable(ds) && Ascending(ds) && AllSupported(ds) && i < |Events(ds)| && key in ds.bars
    ensures (forall e :: e in Events(ds) ==> Timed(e))
    ensures var ts := EventClose(Events(ds)[i]);
            Snapshot(ds, RevealedAt(ds, ts))[key] == Project(ClosedBefore(Events(ds)[..i], ts), key)
  {
    hide Drain;
    var events := Events(ds);
    hide Events;
    EventsInOrder(ds);
    var ts := EventClose(events[i]);
    EveryBarOnceInOrder(ds, key);
    ClosedBeforePrefix(events, i, ts);
    ProjectClosedBefore(events, key, ts);
    var bars := ds.bars[key];
    ScanTakesBarsBefore(bars, Step(key.timeframe), 0, ts);
    assert bars[0..] == bars;
  }

  lemma {:induction false} ClosedBeforeSnoc(events: seq<FeedEvent>, e: FeedEvent, ts: int)
    requires (forall x :: x in events ==> Timed(x)) && Timed(e)
    ensures ClosedBefore(events + [e], ts)
         == if EventClose(e) < ts then ClosedBefore(events, ts) + [e] else ClosedBefore(events, ts)
  {
    hide ClosedBefore;
    ClosedBeforeUnfold(events, ts);
    ClosedBeforeUnfold(events + [e], ts);
    ClosedBeforeUnfold([], ts);
    if events == [] {
      assert [] + [e] == [e] && [e][1..] == [];
    } else {
      assert (events + [e])[0] == events[0] && (events + [e])[1..] == events[1..] + [e];
      ClosedBeforeSnoc(events[1..], e, ts);
      Associates(if EventClose(events[0]) < ts then [events[0]] else [], ClosedBefore(events[1..], ts), [e]);
    }
  }

  lemma ClosedBeforeUnfold(events: seq<FeedEvent>, ts: int)
    requires forall e :: e in events ==> Timed(e)
    ensures ClosedBefore(events, ts)
         == if events == [] then []
            else (if EventClose(events[0]) < ts then [events[0]] else []) + ClosedBefore(events[1..], ts)
  {
  }

  /** The latest of the events that closed before ts, in the whole list. */
  lemma {:induction false} LatestClosed(events: seq<FeedEvent>, key: SeriesKey, ts: int) returns (j: nat)
    requires forall e :: e in events ==> Timed(e)
    requires Project(ClosedBefore(events, ts), key) != []
    ensures j < |events| && events[j].key == key && EventClose(events[j]) < ts
    ensures events[j].candle == Last(Project(ClosedBefore(events, ts), key))
    ensures forall m :: j < m < |events| && events[m].key == key ==> EventClose(events[m]) >= ts
  {
    hide Project;
    hide ClosedBefore;
    j := 0;
    if events == [] {
      NothingClosed(key, ts);
    } else {
      var front, e := Front(events), Last(events);
      assert events == front + [e];
      ClosedBeforeSnoc(front, e, ts);
      if EventClose(e) < ts {
        ProjectSnoc(ClosedBefore(front, ts), e, key);
      }
      if e.key == key && EventClose(e) < ts {
        j := |events| - 1;
      } else {
        j := LatestClosed(front, key, ts);
      }
    }
  }

  lemma NothingClosed(key: SeriesKey, ts: int)
    ensures Project(ClosedBefore([], ts), key) == []
  {
  }

  lemma {:induction false} NoneClosed(events: seq<FeedEvent>, key: SeriesKey, ts: int)
    requires forall e :: e in events ==> Timed(e)
    requires Project(ClosedBefore(events, ts), key) == []
    ensures forall m :: 0 <= m < |events| && events[m].key == key ==> EventClose(events[m]) >= ts
  {
    hide Project;
    hide ClosedBefore;
    if events != [] {
      var front, e := Front(events), Last(events);
      assert events == front + [e];
      ClosedBeforeSnoc(front, e, ts);
      if EventClose(e) < ts {
        ProjectSnoc(ClosedBefore(front, ts), e, key);
      }
      NoneClosed(front, key, ts);
    }
  }

  /** What `bars(key, n)` ends with at the i-th bar of a run: the candle of the
      latest earlier event of the key that closed strictly before it. It is empty
      exactly if there is no such event. */
  lemma BarsEndWithTheLatest(view: CursorMarketDataView, ds: Dataset, i: nat, key: SeriesKey, n: int) returns (j: nat)
    requires Loadable(ds) && Ascending(ds) && AllSupported(ds) && i < |Events(ds)| && key in ds.bars && n > 0
    requires forall e :: e in Events(ds) ==> Timed(e)
    requires view.Valid() && view.series == ds && view.revealedCount == RevealedAt(ds, EventClose(Events(ds)[i]))
    ensures var bars, ts := view.Bars(key.symbol, key.timeframe, n), EventClose(Events(ds)[i]);
            && (bars == [] <==>
                  forall m :: 0 <= m < i && Events(ds)[m].key == key ==> EventClose(Events(ds)[m]) >= ts)
            && (bars != [] ==>
                  && j < i && Events(ds)[j].key == key && EventClose(Events(ds)[j]) < ts
                  && Last(bars) == Events(ds)[j].candle
                  && forall m :: j < m < i && Events(ds)[m].key == key ==> EventClose(Events(ds)[m]) >= ts)
  {
    hide Events;
    hide Project;
    hide ClosedBefore;
    hide Loadable;
    hide Ascending;
    hide RevealedAt;
    var earlier, ts := Events(ds)[..i], EventClose(Events(ds)[i]);
    ViewIsThePast(ds, i, key);
    assert key == SeriesKey(key.symbol, key.timeframe);
    forall e | e in earlier ensures Timed(e) {
    }
    if Project(ClosedBefore(earlier, ts), key) == [] {
      NoneClosed(earlier, key, ts);
      j := 0;
      forall m | 0 <= m < i && Events(ds)[m].key == key ensures EventClose(Events(ds)[m]) >= ts {
        assert earlier[m] == Events(ds)[m];
      }
    } else {
      j := LatestClosed(earlier, key, ts);
      assert earlier[j] == Events(ds)[j];
      forall m | j < m < i && Events(ds)[m].key == key ensures EventClose(Events(ds)[m]) >= ts {
        assert earlier[m] == Events(ds)[m];
      }
    }
  }

  // ----- where a run ends -----

  /** The close of an event by the interval its bar names. */
  function OwnClose(e: FeedEvent): int
    requires IsInterval(e.candle.interval)
  {
    e.candle.openTime + Step(e.candle.interval)
  }

  /** The i-th event can be processed: its interval and every timeframe are
      supported, and it does not close before the event before it. */
  predicate Processable(ds: Dataset, events: seq<FeedEvent>, i: nat)
    requires i < |events|
  {
    && IsInterval(events[i].candle.interval) && AllSupported(ds)
    && (i > 0 && IsInterval(events[i - 1].candle.interval) ==> OwnClose(events[i - 1]) <= OwnClose(events[i]))
  }

  /** A run processes events up to the first that cannot be, and raises a clock
      regression there if its interval is supported and it closes too early, a
      ValueError otherwise; what it has processed is forwarded only after the
      warmup. */
  lemma RunStopsAtTheFirst(ds: Dataset, strategy: Strategy, warmup: int, events: seq<FeedEvent>)
    ensures var run := RunOver(ds, strategy, warmup, events);
            var n := |run.bars|;
            && n <= |events|
            && (run.error == None <==> n == |events|)
            && (forall i :: 0 <= i < n ==>
                  && Processable(ds, events, i)
                  && run.bars[i].closeTs == OwnClose(events[i]) && run.bars[i].seen.event == events[i].candle
                  && (run.bars[i].forwarded <==> i >= warmup && run.bars[i].signal.Some?))
            && (run.error != None ==>
                  && !Processable(ds, events, n)
                  && (run.error == Some(ClockRegression) <==>
                        && IsInterval(events[n].candle.interval)
                        && n > 0 && OwnClose(events[n]) < OwnClose(events[n - 1])))
  {
    hide RunOver;
    hide AllSupported;
    StopsRight(ds, strategy, warmup, events);
  }

  predicate ProcessedRight(ds: Dataset, warmup: int, events: seq<FeedEvent>, bars: seq<BarRecord>) {
    && |bars| <= |events|
    && forall i :: 0 <= i < |bars| ==>
         && Processable(ds, events, i)
         && bars[i].closeTs == OwnClose(events[i]) && bars[i].seen.event == events[i].candle
         && (bars[i].forwarded <==> i >= warmup && bars[i].signal.Some?)
  }

  predicate StoppedRight(ds: Dataset, events: seq<FeedEvent>, run: Run) {
    var n := |run.bars|;
    && n <= |events|
    && (run.error == None <==> n == |events|)
    && (run.error != None ==>
          && !Processable(ds, events, n)
          && (run.error == Some(ClockRegression) <==>
                && IsInterval(events[n].candle.interval)
                && n > 0 && IsInterval(events[n - 1].candle.interval) && OwnClose(events[n]) < OwnClose(events[n - 1])))
  }

  lemma {:induction false} StopsRight(ds: Dataset, strategy: Strategy, warmup: int, events: seq<FeedEvent>)
    ensures var run := RunOver(ds, strategy, warmup, events);
            ProcessedRight(ds, warmup, events, run.bars) && StoppedRight(ds, events, run)
  {
    hide OneBar;
    hide ProcessedRight;
    hide StoppedRight;
    hide Stepped;
    hide AllSupported;
    if events == [] {
      StartsRight(ds, warmup);
    } else {
      var front, e := events[..|events| - 1], events[|events| - 1];
      assert events == front + [e];
      StopsRight(ds, strategy, warmup, front);
      var before := RunOver(ds, strategy, warmup, front);
      if before.error == None {
        OneBarOutcome(ds, strategy, warmup, before.bars, e.candle);
        AllProcessed(ds, front, before);
        NextStopsRight(ds, warmup, front, e, before, OneBar(ds, strategy, warmup, before.bars, e.candle));
      } else {
        StaysRight(ds, warmup, front, e, before);
      }
    }
  }

  lemma StartsRight(ds: Dataset, warmup: int)
    ensures ProcessedRight(ds, warmup, [], []) && StoppedRight(ds, [], Run([], None))
  {
  }

  lemma AllProcessed(ds: Dataset, events: seq<FeedEvent>, run: Run)
    requires StoppedRight(ds, events, run) && run.error == None
    ensures |run.bars| == |events|
  {
    hide AllSupported;
    hide Processable;
  }

  /** What comes later changes nothing about an earlier event. */
  lemma EarlierStays(ds: Dataset, front: seq<FeedEvent>, e: FeedEvent, i: nat)
    requires i < |front|
    ensures Processable(ds, front + [e], i) <==> Processable(ds, front, i)
  {
    hide AllSupported;
    assert (front + [e])[i] == front[i] && (i > 0 ==> (front + [e])[i - 1] == front[i - 1]);
  }

  lemma StaysRight(ds: Dataset, warmup: int, front: seq<FeedEvent>, e: FeedEvent, run: Run)
    requires ProcessedRight(ds, warmup, front, run.bars) && StoppedRight(ds, front, run) && run.error != None
    ensures ProcessedRight(ds, warmup, front + [e], run.bars) && StoppedRight(ds, front + [e], run)
  {
    hide AllSupported;
    hide Processable;
    hide ProcessedRight;
    var n := |run.bars|;
    ProcessedOneMore(ds, warmup, front, e, run.bars);
    EarlierStays(ds, front, e, n);
    assert (front + [e])[n] == front[n] && (n > 0 ==> (front + [e])[n - 1] == front[n - 1]);
  }

  /** What the step of one event comes to, after the bars so far. */
  predicate Stepped(ds: Dataset, warmup: int, bars: seq<BarRecord>, candle: Candle, run: Run) {
    var supported := IsInterval(candle.interval);
    var regresses := supported && bars != [] && candle.openTime + Step(candle.interval) < bars[|bars| - 1].closeTs;
    if supported && AllSupported(ds) && !regresses
    then
      && run.error == None
      && |run.bars| == |bars| + 1 && run.bars[..|bars|] == bars
      && var bar := run.bars[|bars|];
         && bar.closeTs == candle.openTime + Step(candle.interval) && bar.seen.event == candle
         && (bar.forwarded <==> |bars| >= warmup && bar.signal.Some?)
    else run.bars == bars && run.error != None && (run.error == Some(ClockRegression) <==> regresses)
  }

  lemma LastProcessable(ds: Dataset, warmup: int, front: seq<FeedEvent>, e: FeedEvent, bars: seq<BarRecord>)
    requires ProcessedRight(ds, warmup, front, bars) && |bars| == |front|
    ensures front != [] ==>
              && IsInterval(front[|front| - 1].candle.interval)
              && bars[|bars| - 1].closeTs == OwnClose(front[|front| - 1])
    ensures Processable(ds, front + [e], |front|)
       <==> && IsInterval(e.candle.interval) && AllSupported(ds)
            && (bars == [] || bars[|bars| - 1].closeTs <= OwnClose(e))
  {
    hide AllSupported;
    var n := |front|;
    assert (front + [e])[n] == e;
    if n > 0 {
      assert Processable(ds, front, n - 1) && (front + [e])[n - 1] == front[n - 1];
    }
  }

  lemma NextProcessed(ds: Dataset, warmup: int, front: seq<FeedEvent>, e: FeedEvent, bars: seq<BarRecord>, after: Run)
    requires ProcessedRight(ds, warmup, front, bars) && |bars| == |front|
    requires Stepped(ds, warmup, bars, e.candle, after) && after.error == None
    ensures ProcessedRight(ds, warmup, front + [e], after.bars)
  {
    hide AllSupported;
    hide Processable;
    LastProcessable(ds, warmup, front, e, bars);
    forall i | 0 <= i < |front|
      ensures Processable(ds, front + [e], i) && after.bars[i] == bars[i] && (front + [e])[i] == front[i]
      ensures IsInterval(front[i].candle.interval)
    {
      EarlierStays(ds, front, e, i);
      ProcessableInterval(ds, front, i);
      assert after.bars[..|front|][i] == after.bars[i];
    }
  }

  lemma ProcessableInterval(ds: Dataset, events: seq<FeedEvent>, i: nat)
    requires i < |events| && Processable(ds, events, i)
    ensures IsInterval(events[i].candle.interval)
  {
  }

  lemma NextStopsRight(ds: Dataset, warmup: int, front: seq<FeedEvent>, e: FeedEvent, before: Run, after: Run)
    requires ProcessedRight(ds, warmup, front, before.bars) && |before.bars| == |front|
    requires Stepped(ds, warmup, before.bars, e.candle, after)
    ensures ProcessedRight(ds, warmup, front + [e], after.bars) && StoppedRight(ds, front + [e], after)
  {
    hide AllSupported;
    hide Processable;
    hide ProcessedRight;
    LastProcessable(ds, warmup, front, e, before.bars);
    assert (front + [e])[|front|] == e && (front != [] ==> (front + [e])[|front| - 1] == front[|front| - 1]);
    if after.error == None {
      NextProcessed(ds, warmup, front, e, before.bars, after);
    } else {
      ProcessedOneMore(ds, warmup, front, e, before.bars);
    }
  }

  lemma ProcessedOneMore(ds: Dataset, warmup: int, front: seq<FeedEvent>, e: FeedEvent, bars: seq<BarRecord>)
    requires ProcessedRight(ds, warmup, front, bars)
    ensures ProcessedRight(ds, warmup, front + [e], bars)
  {
    hide AllSupported;
    hide Processable;
    forall i | 0 <= i < |bars|
      ensures Processable(ds, front + [e], i) && (front + [e])[i] == front[i] && IsInterval(front[i].candle.interval)
    {
      EarlierStays(ds, front, e, i);
      ProcessableInterval(ds, front, i);
    }
  }

  lemma OneBarOutcome(ds: Dataset, strategy: Strategy, warmup: int, bars: seq<BarRecord>, candle: Candle)
    ensures Stepped(ds, warmup, bars, candle, OneBar(ds, strategy, warmup, bars, candle))
  {
    hide AllSupported;
    hide Snapshot;
    hide RevealedAt;
  }

  // ----- a run on well-keyed, ascending series -----

  /** The record of the i-th bar: its close, what was visible, the strategy's
      answer to all seen so far, forwarded only after the warmup. */
  ghost predicate FaithfulAt(ds: Dataset, strategy: Strategy, warmup: int, events: seq<FeedEvent>,
                             bars: seq<BarRecord>, i: nat)
    requires AllSupported(ds) && i < |bars| == |events|
  {
    && Timed(events[i])
    && bars[i].closeTs == EventClose(events[i])
    && bars[i].seen == Observation(events[i].candle, Snapshot(ds, RevealedAt(ds, bars[i].closeTs)))
    && bars[i].signal == strategy(Seen(bars[..i + 1]))
    && (bars[i].forwarded <==> i >= warmup && bars[i].signal.Some?)
  }

  ghost predicate Faithful(ds: Dataset, strategy: Strategy, warmup: int, events: seq<FeedEvent>, bars: seq<BarRecord>)
    requires AllSupported(ds)
  {
    |bars| == |events| && forall i :: 0 <= i < |bars| ==> FaithfulAt(ds, strategy, warmup, events, bars, i)
  }

  lemma OneFaithfulBar(ds: Dataset, strategy: Strategy, warmup: int, events: seq<FeedEvent>, e: FeedEvent,
                       bars: seq<BarRecord>)
    requires AllSupported(ds) && Faithful(ds, strategy, warmup, events, bars)
    requires Timed(e) && e.candle.interval == e.key.timeframe
    requires events != [] ==> Timed(events[|events| - 1]) && EventClose(events[|events| - 1]) <= EventClose(e)
    ensures var run := OneBar(ds, strategy, warmup, bars, e.candle);
            run.error.None? && Faithful(ds, strategy, warmup, events + [e], run.bars)
  {
    hide Snapshot;
    hide RevealedAt;
    var n := |bars|;
    assert n > 0 ==> FaithfulAt(ds, strategy, warmup, events, bars, n - 1);
    var all := OneBar(ds, strategy, warmup, bars, e.candle).bars;
    assert all[..n + 1] == all && Seen(bars) + [all[n].seen] == Seen(all);
    forall i | 0 <= i < n ensures FaithfulAt(ds, strategy, warmup, events + [e], all, i) {
      assert FaithfulAt(ds, strategy, warmup, events, bars, i);
      assert all[..i + 1] == bars[..i + 1];
    }
  }

  lemma NothingRunYet(ds: Dataset, strategy: Strategy, warmup: int)
    requires AllSupported(ds)
    ensures Faithful(ds, strategy, warmup, [], [])
  {
  }

  lemma {:induction false} OrderedRunIsFaithful(ds: Dataset, strategy: Strategy, warmup: int, events: seq<FeedEvent>)
    requires AllSupported(ds) && InOrder(events)
    requires forall e :: e in events ==> e.candle.interval == e.key.timeframe
    ensures var run := RunOver(ds, strategy, warmup, events);
            run.error.None? && Faithful(ds, strategy, warmup, events, run.bars)
  {
    hide OneBar;
    hide Faithful;
    if events == [] {
      NothingRunYet(ds, strategy, warmup);
    } else {
      var n := |events| - 1;
      OrderedRunIsFaithful(ds, strategy, warmup, events[..n]);
      OneFaithfulBar(ds, strategy, warmup, events[..n], events[n], RunOver(ds, strategy, warmup, events[..n]).bars);
      assert events == events[..n] + [events[n]];
    }
  }

  /** On ascending, well-keyed series no exception is raised, every event is
      processed, in order, and a signal reaches on_signal exactly when it is
      non-null and its bar comes after the first `warmup`. */
  lemma WellKeyedRunSucceeds(ds: Dataset, strategy: Strategy, warmup: int)
    requires Loadable(ds) && Ascending(ds) && WellKeyed(ds)
    ensures AllSupported(ds)
    ensures WholeRun(ds, strategy, warmup).error.None?
    ensures Faithful(ds, strategy, warmup, Events(ds), WholeRun(ds, strategy, warmup).bars)
  {
    EventsInOrder(ds);
    EventsWellKeyed(ds);
    OrderedRunIsFaithful(ds, strategy, warmup, Events(ds));
  }

  lemma EventsWellKeyed(ds: Dataset)
    requires Loadable(ds) && WellKeyed(ds)
    ensures forall e :: e in Events(ds) ==> e.candle.interval == e.key.timeframe && e.key in ds.bars
  {
    hide Drain;
    forall e | e in Events(ds) ensures e.candle.interval == e.key.timeframe && e.key in ds.bars {
      var i :| 0 <= i < |Events(ds)| && Events(ds)[i] == e;
      EventFromSeries(ds, i);
    }
  }
}
