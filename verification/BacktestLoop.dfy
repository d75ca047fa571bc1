/** The backtest event loop over feed, clock and view
    (application/backtest/loop.py:167-233). */
module BacktestLoops {
  import opened Common
  import opened Candles
  import opened HistoricalFeeds
  import opened FeedOrder
  import opened MarketDataViews
  import opened SimulatedClocks

  /** What one on_data call can see: the bar, and everything behind the view. */
  datatype Observation = Observation(event: Candle, view: map<SeriesKey, seq<Candle>>)

  /** A strategy answers from all it has seen so far; the answer is opaque. */
  type Signal = nat
  type Strategy = seq<Observation> -> Option<Signal>

  datatype BacktestError = ClockRegression | ValueError

  /** One completed iteration: its close, what on_data saw, what it answered and
      whether the answer was forwarded. */
  datatype BarRecord = BarRecord(closeTs: int, seen: Observation, signal: Option<Signal>, forwarded: bool)

  datatype Run = Run(bars: seq<BarRecord>, error: Option<BacktestError>)

  datatype BacktestResult = BacktestResult(
    datasetVersionId: nat, seed: int, events: seq<Candle>, barsProcessed: nat, warmupBars: int,
    signalOpportunities: nat, signalsProduced: nat, signalsDiscardedDuringWarmup: nat)

  function Seen(bars: seq<BarRecord>): seq<Observation> {
    seq(|bars|, i requires 0 <= i < |bars| => bars[i].seen)
  }

  function BarCandles(bars: seq<BarRecord>): seq<Candle> {
    seq(|bars|, i requires 0 <= i < |bars| => bars[i].seen.event)
  }

  function OneBar(ds: Dataset, strategy: Strategy, warmup: int, bars: seq<BarRecord>, candle: Candle): Run {
    match Reported(candle)
    case Closed(c, ts) =>
      if bars != [] && ts < bars[|bars| - 1].closeTs then Run(bars, Some(ClockRegression))
      else if !AllSupported(ds) then Run(bars, Some(ValueError))
      else
        var seen := Observation(c, Snapshot(ds, RevealedAt(ds, ts)));
        var signal := strategy(Seen(bars) + [seen]);
        Run(bars + [BarRecord(ts, seen, signal, |bars| + 1 > warmup && signal.Some?)], None)
    case _ => Run(bars, Some(ValueError))
  }

  /** The run over a stream of events; an exception ends it. */
  function RunOver(ds: Dataset, strategy: Strategy, warmup: int, events: seq<FeedEvent>): Run {
    if events == [] then Run([], None)
    else
      var before := RunOver(ds, strategy, warmup, events[..|events| - 1]);
      if before.error.Some? then before
      else OneBar(ds, strategy, warmup, before.bars, events[|events| - 1].candle)
  }

  ghost function WholeRun(ds: Dataset, strategy: Strategy, warmup: int): Run
    requires Loadable(ds)
  {
    RunOver(ds, strategy, warmup, Events(ds))
  }

  lemma RunOverOneMore(ds: Dataset, strategy: Strategy, warmup: int, events: seq<FeedEvent>, n: nat)
    requires n < |events| && RunOver(ds, strategy, warmup, events[..n]).error.None?
    ensures RunOver(ds, strategy, warmup, events[..n + 1])
         == OneBar(ds, strategy, warmup, RunOver(ds, strategy, warmup, events[..n]).bars, events[n].candle)
  {
    hide OneBar;
    assert events[..n + 1][..n] == events[..n];
  }

  lemma {:induction false} ErrorsStick(ds: Dataset, strategy: Strategy, warmup: int, events: seq<FeedEvent>, n: nat)
    requires n <= |events|
    requires RunOver(ds, strategy, warmup, events[..n]).error.Some?
    ensures RunOver(ds, strategy, warmup, events) == RunOver(ds, strategy, warmup, events[..n])
    decreases |events|
  {
    hide OneBar;
    if n == |events| {
      assert events[..n] == events;
    } else {
      var shorter := events[..|events| - 1];
      assert shorter[..n] == events[..n];
      ErrorsStick(ds, strategy, warmup, shorter, n);
    }
  }

  function CountSignals(bars: seq<BarRecord>): nat {
    if bars == [] then 0
    else CountSignals(bars[..|bars| - 1]) + if bars[|bars| - 1].signal.Some? then 1 else 0
  }

  function CountForwarded(bars: seq<BarRecord>): nat {
    if bars == [] then 0
    else CountForwarded(bars[..|bars| - 1]) + if bars[|bars| - 1].forwarded then 1 else 0
  }

  // ----- the calls the loop makes -----

  /** A call out of the loop; `now` and `viewTs` are what the clock and the view
      stand at when it is made. */
  datatype Call =
    | PendingFills(closeTs: int, now: Option<int>, viewTs: Option<int>)
    | OnData(event: Candle, now: Option<int>, viewTs: Option<int>)
    | OnSignal(signal: Signal)

  /** The calls of one bar, in order; either callback may be absent. */
  function BarCalls(bar: BarRecord, hasFills: bool, hasSignals: bool): seq<Call> {
    var ts := Some(bar.closeTs);
    (if hasFills then [PendingFills(bar.closeTs, ts, ts)] else [])
    + [OnData(bar.seen.event, ts, ts)]
    + if bar.forwarded && hasSignals && bar.signal.Some? then [OnSignal(bar.signal.value)] else []
  }

  function CallsOf(bars: seq<BarRecord>, hasFills: bool, hasSignals: bool): seq<Call> {
    if bars == [] then []
    else CallsOf(bars[..|bars| - 1], hasFills, hasSignals) + BarCalls(bars[|bars| - 1], hasFills, hasSignals)
  }

  /** The calls of a run are bar after bar: after all those of the bars before it,
      each bar has the pending fills, then on_data, then on_signal if its signal is
      forwarded, both of the former with clock and view at its close. */
  lemma {:induction false} CallsBarByBar(bars: seq<BarRecord>, i: nat, hasFills: bool, hasSignals: bool)
    requires i < |bars|
    ensures var ts := Some(bars[i].closeTs);
            var signaled := hasSignals && bars[i].forwarded && bars[i].signal.Some?;
            var upTo := CallsOf(bars[..i + 1], hasFills, hasSignals);
            && upTo == CallsOf(bars[..i], hasFills, hasSignals)
                     + (if hasFills then [PendingFills(bars[i].closeTs, ts, ts), OnData(bars[i].seen.event, ts, ts)]
                        else [OnData(bars[i].seen.event, ts, ts)])
                     + (if signaled then [OnSignal(bars[i].signal.value)] else [])
            && upTo <= CallsOf(bars, hasFills, hasSignals)
    ensures CallsOf([], hasFills, hasSignals) == []
  {
    var front := bars[..|bars| - 1];
    if i < |front| {
      CallsBarByBar(front, i, hasFills, hasSignals);
      assert front[..i] == bars[..i] && front[..i + 1] == bars[..i + 1];
    } else {
      assert bars[..i + 1] == bars && bars[..i + 1][..i] == bars[..i];
      OneBarsCalls(bars[i], hasFills, hasSignals);
      var bar, ts := bars[i], Some(bars[i].closeTs);
      var onData := OnData(bar.seen.event, ts, ts);
      Associates(CallsOf(bars[..i], hasFills, hasSignals),
                 if hasFills then [PendingFills(bar.closeTs, ts, ts), onData] else [onData],
                 if hasSignals && bar.forwarded && bar.signal.Some? then [OnSignal(bar.signal.value)] else []);
    }
  }

  lemma OneBarsCalls(bar: BarRecord, hasFills: bool, hasSignals: bool)
    ensures var ts := Some(bar.closeTs);
            var signaled := hasSignals && bar.forwarded && bar.signal.Some?;
            BarCalls(bar, hasFills, hasSignals)
            == (if hasFills then [PendingFills(bar.closeTs, ts, ts), OnData(bar.seen.event, ts, ts)]
                else [OnData(bar.seen.event, ts, ts)])
             + (if signaled then [OnSignal(bar.signal.value)] else [])
  {
  }

  /** Every on_data comes directly after the pending fills of its own bar. */
  predicate FillsBeforeData(calls: seq<Call>) {
    forall j :: 0 <= j < |calls| && calls[j].OnData? ==>
      j > 0 && calls[j].now.Some? && calls[j - 1] == PendingFills(calls[j].now.value, calls[j].now, calls[j].viewTs)
  }

  lemma {:induction false} CallsHaveFillsBeforeData(bars: seq<BarRecord>, hasSignals: bool)
    ensures FillsBeforeData(CallsOf(bars, true, hasSignals))
  {
    if bars != [] {
      CallsHaveFillsBeforeData(bars[..|bars| - 1], hasSignals);
      OneBarsCalls(bars[|bars| - 1], true, hasSignals);
    }
  }

  class Callbacks {
    const hasFills: bool
    const hasSignals: bool
    var calls: seq<Call>

    constructor (hasFills: bool, hasSignals: bool)
      ensures this.hasFills == hasFills && this.hasSignals == hasSignals && calls == []
    {
      this.hasFills, this.hasSignals, calls := hasFills, hasSignals, [];
    }

    method ProcessPendingFills(closeTs: int, clock: SimulatedClock, view: CursorMarketDataView)
      modifies this
      ensures calls == old(calls) + [PendingFills(closeTs, clock.current, view.currentTs)]
    {
      calls := calls + [PendingFills(closeTs, clock.current, view.currentTs)];
    }

    method NoteOnData(event: Candle, clock: SimulatedClock, view: CursorMarketDataView)
      modifies this
      ensures calls == old(calls) + [OnData(event, clock.current, view.currentTs)]
    {
      calls := calls + [OnData(event, clock.current, view.currentTs)];
    }

    method HandleSignal(signal: Signal)
      modifies this
      ensures calls == old(calls) + [OnSignal(signal)]
    {
      calls := calls + [OnSignal(signal)];
    }
  }

  // ----- the loop -----

  /** The running totals over the bars so far. */
  predicate Tallied(bars: seq<BarRecord>, warmup: int, events: seq<Candle>, processed: nat, opportunities: nat,
                    produced: nat, discarded: nat)
  {
    && events == BarCandles(bars) && processed == |bars|
    && produced == CountForwarded(bars)
    && produced + discarded == CountSignals(bars)
    && opportunities == if warmup <= 0 then |bars| else if |bars| <= warmup then 0 else |bars| - warmup
  }

  lemma NothingTallied(warmup: int)
    ensures Tallied([], warmup, [], 0, 0, 0, 0)
  {
  }

  lemma TallyBar(bars: seq<BarRecord>, bar: BarRecord, warmup: int, events: seq<Candle>, processed: nat,
                 opportunities: nat, produced: nat, discarded: nat)
    requires Tallied(bars, warmup, events, processed, opportunities, produced, discarded)
    requires bar.forwarded == (|bars| + 1 > warmup && bar.signal.Some?)
    ensures var signals := if bar.signal.Some? then 1 else 0;
            if |bars| + 1 <= warmup
            then Tallied(bars + [bar], warmup, events + [bar.seen.event], processed + 1,
                         opportunities, produced, discarded + signals)
            else Tallied(bars + [bar], warmup, events + [bar.seen.event], processed + 1,
                         opportunities + 1, produced + signals, discarded)
  {
    assert (bars + [bar])[..|bars|] == bars;
  }

  /** The data set is loaded already: feed and view are built from it and fresh,
      and the clock has not started. */
  method RunBacktest(datasetVersionId: nat, feed: HistoricalFeed, clock: SimulatedClock, view: CursorMarketDataView,
                     strategy: Strategy, warmupBars: int, seed: int, callbacks: Callbacks)
    returns (r: Result<BacktestResult, BacktestError>, bars: seq<BarRecord>)
    requires feed.Valid() && view.Valid() && feed.series == view.series
    requires feed.State() == Start(feed.series)
    requires clock.current == None
    requires view.revealedCount == NoneRevealed(view.series)
    requires callbacks.calls == []
    modifies feed, clock, view, callbacks
    ensures WholeRun(feed.series, strategy, warmupBars)
         == Run(bars, if r.Err? then Some(r.error) else None)
    ensures callbacks.calls == CallsOf(bars, callbacks.hasFills, callbacks.hasSignals)
    ensures callbacks.hasFills ==> FillsBeforeData(callbacks.calls)
    ensures feed.handlers == old(feed.handlers)
    ensures r.Ok? ==> feed.handled == old(feed.handled) + Deliveries(feed.handlers, Events(feed.series))
    ensures r.Err? ==>
              && |bars| < |Events(feed.series)|
              && feed.handled == old(feed.handled) + Deliveries(feed.handlers, Events(feed.series)[..|bars| + 1])
    ensures r.Ok? ==>
              && r.value.datasetVersionId == datasetVersionId && r.value.seed == seed
              && r.value.warmupBars == warmupBars
              && |r.value.events| == |bars|
              && (forall i :: 0 <= i < |bars| ==> r.value.events[i] == bars[i].seen.event)
              && r.value.barsProcessed == |bars|
              && r.value.signalsProduced == |set i | 0 <= i < |bars| && bars[i].forwarded|
              && r.value.signalsProduced + r.value.signalsDiscardedDuringWarmup
                 == |set i | 0 <= i < |bars| && bars[i].signal.Some?|
              && r.value.signalOpportunities == if warmupBars <= 0 then |bars|
                                                else if |bars| <= warmupBars then 0 else |bars| - warmupBars
  {
    hide WellFormedBut;
    hide Next;
    hide Drain;
    hide Events;
    hide OneBar;
    hide RunOver;
    hide RunSoFar;
    hide Streaming;
    hide Positioned;
    hide InRange;
    hide NoneRevealed;
    hide Start;
    hide Tallied;
    hide CallsOf;
    hide BarCalls;
    hide BarCandles;
    hide CountForwarded;
    hide CountSignals;
    hide IsEarliest;
    hide Loadable;
    hide Deliveries;
    hide FillsBeforeData;
    hide Reported;
    hide AllSupported;
    hide WellKeyed;
    hide Seen;
    ghost var handlers, handled := feed.handlers, feed.handled;
    FreshStart(feed.series, feed.State(), handlers, handled);
    ghost var ds, stream, n := feed.series, Events(feed.series), 0;
    var events: seq<Candle> := [];
    var barsProcessed := 0;
    var signalOpportunities := 0;
    var signalsProduced := 0;
    var discarded := 0;
    bars := [];
    NothingTallied(warmupBars);
    NothingRun(ds, strategy, warmupBars, stream, callbacks.hasFills, callbacks.hasSignals);

    while true
      invariant feed.Valid() && view.Valid()
      invariant n <= |stream| && Streaming(ds, feed.State(), stream, n, feed.handled, handled, handlers)
      invariant RunSoFar(ds, strategy, warmupBars, stream, n, bars)
      invariant Positioned(ds, clock.current, view.revealedCount, bars)
      invariant callbacks.calls == CallsOf(bars, callbacks.hasFills, callbacks.hasSignals)
      invariant Tallied(bars, warmupBars, events, barsProcessed, signalOpportunities, signalsProduced, discarded)
      invariant feed.handlers == handlers
      decreases |stream| - n
    {
      ghost var before, handledBefore := feed.State(), feed.handled;
      var item := feed.NextClosedEvent();
      StreamStep(ds, before, feed.State(), stream, n, handledBefore, feed.handled, handled, handlers);
      if item == Exhausted {
        break;
      }
      if item == UnsupportedInterval {
        BadBar(ds, strategy, warmupBars, bars, stream[n].candle);
        RunStops(ds, strategy, warmupBars, stream, n, bars, ValueError);
        FinalCalls(bars, callbacks.hasFills, callbacks.hasSignals);
        HandledSoFar(ds, feed.State(), strategy, warmupBars, stream, n, bars, feed.handled, handled, handlers);
        return Err(ValueError), bars;
      }
      TalliedCount(bars, warmupBars, events, barsProcessed, signalOpportunities, signalsProduced, discarded);
      var candle, closeTs := item.candle, item.closeTs;
      var inWarmup := barsProcessed + 1 <= warmupBars;
      var step := DeliverBar(clock, view, strategy, bars, candle, closeTs, inWarmup, callbacks, warmupBars);
      if step.Err? {
        RunStops(ds, strategy, warmupBars, stream, n, bars, step.error);
        FinalCalls(bars, callbacks.hasFills, callbacks.hasSignals);
        HandledSoFar(ds, feed.State(), strategy, warmupBars, stream, n, bars, feed.handled, handled, handlers);
        return Err(step.error), bars;
      }
      RunGoesOn(ds, strategy, warmupBars, stream, n, bars, step.value);
      n := n + 1;
      TallyBar(bars, step.value, warmupBars, events, barsProcessed, signalOpportunities, signalsProduced, discarded);
      CallsOneMore(bars, step.value, callbacks.hasFills, callbacks.hasSignals);
      events := events + [candle];
      barsProcessed := barsProcessed + 1;
      bars := bars + [step.value];
      var signal := step.value.signal;

      if inWarmup {
        if signal.Some? {
          discarded := discarded + 1;
        }
        continue;
      }
      signalOpportunities := signalOpportunities + 1;
      if signal.Some? {
        signalsProduced := signalsProduced + 1;
        if callbacks.hasSignals {
          callbacks.HandleSignal(signal.value);
        }
      }
    }
    RunEnds(ds, strategy, warmupBars, stream, bars);
    FinalCalls(bars, callbacks.hasFills, callbacks.hasSignals);
    FinalTally(bars, warmupBars, events, barsProcessed, signalOpportunities, signalsProduced, discarded);
    r := Ok(BacktestResult(datasetVersionId, seed, events, barsProcessed, warmupBars,
                           signalOpportunities, signalsProduced, discarded));
  }

  /** What is left of the stream is what the feed still holds, and the handlers have
      got what is out. */
  ghost predicate Streaming(ds: Dataset, s: FeedState, stream: seq<FeedEvent>, n: nat, handled: seq<(nat, Candle)>,
                            before: seq<(nat, Candle)>, handlers: map<SeriesKey, nat>)
    requires WellFormed(ds, s) && n <= |stream|
  {
    stream[n..] == Drain(ds, s) && handled == before + Deliveries(handlers, stream[..n])
  }

  lemma HandledSoFar(ds: Dataset, s: FeedState, strategy: Strategy, warmup: int, stream: seq<FeedEvent>, n: nat,
                     bars: seq<BarRecord>, handled: seq<(nat, Candle)>, before: seq<(nat, Candle)>,
                     handlers: map<SeriesKey, nat>)
    requires WellFormed(ds, s) && n < |stream| && RunSoFar(ds, strategy, warmup, stream, n, bars)
    requires Streaming(ds, s, stream, n + 1, handled, before, handlers)
    ensures |bars| < |stream| && handled == before + Deliveries(handlers, stream[..|bars| + 1])
  {
    hide WellFormedBut;
    hide RunOver;
    hide Deliveries;
    hide Drain;
  }

  /** The first n events make these bars, without an exception. */
  predicate RunSoFar(ds: Dataset, strategy: Strategy, warmup: int, stream: seq<FeedEvent>, n: nat, bars: seq<BarRecord>)
    requires n <= |stream|
  {
    RunOver(ds, strategy, warmup, stream[..n]) == Run(bars, None) && |bars| == n
  }

  lemma NothingRun(ds: Dataset, strategy: Strategy, warmup: int, stream: seq<FeedEvent>, hasFills: bool,
                   hasSignals: bool)
    ensures RunSoFar(ds, strategy, warmup, stream, 0, []) && CallsOf([], hasFills, hasSignals) == []
  {
  }

  lemma RunGoesOn(ds: Dataset, strategy: Strategy, warmup: int, stream: seq<FeedEvent>, n: nat, bars: seq<BarRecord>,
                  bar: BarRecord)
    requires n < |stream| && RunSoFar(ds, strategy, warmup, stream, n, bars)
    requires OneBar(ds, strategy, warmup, bars, stream[n].candle) == Run(bars + [bar], None)
    ensures RunSoFar(ds, strategy, warmup, stream, n + 1, bars + [bar])
  {
    hide RunOver;
    hide OneBar;
    RunOverOneMore(ds, strategy, warmup, stream, n);
  }

  lemma RunStops(ds: Dataset, strategy: Strategy, warmup: int, stream: seq<FeedEvent>, n: nat, bars: seq<BarRecord>,
                 error: BacktestError)
    requires n < |stream| && RunSoFar(ds, strategy, warmup, stream, n, bars)
    requires OneBar(ds, strategy, warmup, bars, stream[n].candle) == Run(bars, Some(error))
    ensures RunOver(ds, strategy, warmup, stream) == Run(bars, Some(error))
  {
    hide RunOver;
    hide OneBar;
    RunOverOneMore(ds, strategy, warmup, stream, n);
    ErrorsStick(ds, strategy, warmup, stream, n + 1);
  }

  lemma RunEnds(ds: Dataset, strategy: Strategy, warmup: int, stream: seq<FeedEvent>, bars: seq<BarRecord>)
    requires RunSoFar(ds, strategy, warmup, stream, |stream|, bars)
    ensures RunOver(ds, strategy, warmup, stream) == Run(bars, None)
  {
    hide RunOver;
    assert stream[..|stream|] == stream;
  }

  lemma TalliedCount(bars: seq<BarRecord>, warmup: int, events: seq<Candle>, processed: nat, opportunities: nat,
                     produced: nat, discarded: nat)
    requires Tallied(bars, warmup, events, processed, opportunities, produced, discarded)
    ensures processed == |bars|
  {
  }

  lemma FinalTally(bars: seq<BarRecord>, warmup: int, events: seq<Candle>, processed: nat, opportunities: nat,
                   produced: nat, discarded: nat)
    requires Tallied(bars, warmup, events, processed, opportunities, produced, discarded)
    ensures |events| == |bars| && forall i :: 0 <= i < |bars| ==> events[i] == bars[i].seen.event
    ensures processed == |bars| && produced == |set i | 0 <= i < |bars| && bars[i].forwarded|
    ensures produced + discarded == |set i | 0 <= i < |bars| && bars[i].signal.Some?|
    ensures opportunities == if warmup <= 0 then |bars| else if |bars| <= warmup then 0 else |bars| - warmup
  {
    CountsAreSizes(bars);
  }

  lemma CountsAreSizes(bars: seq<BarRecord>)
    ensures CountForwarded(bars) == |set i | 0 <= i < |bars| && bars[i].forwarded|
    ensures CountSignals(bars) == |set i | 0 <= i < |bars| && bars[i].signal.Some?|
  {
    ForwardedIsSize(bars);
    SignalsIsSize(bars);
  }

  lemma {:induction false} ForwardedIsSize(bars: seq<BarRecord>)
    ensures CountForwarded(bars) == |set i | 0 <= i < |bars| && bars[i].forwarded|
  {
    var all := set i | 0 <= i < |bars| && bars[i].forwarded;
    if bars == [] {
      NoElements(all);
    } else {
      var n := |bars| - 1;
      var front := bars[..n];
      ForwardedIsSize(front);
      OneElementMore(all, (set i | 0 <= i < n && front[i].forwarded), n, bars[n].forwarded);
    }
  }

  lemma {:induction false} SignalsIsSize(bars: seq<BarRecord>)
    ensures CountSignals(bars) == |set i | 0 <= i < |bars| && bars[i].signal.Some?|
  {
    var all := set i | 0 <= i < |bars| && bars[i].signal.Some?;
    if bars == [] {
      NoElements(all);
    } else {
      var n := |bars| - 1;
      var front := bars[..n];
      SignalsIsSize(front);
      OneElementMore(all, (set i | 0 <= i < n && front[i].signal.Some?), n, bars[n].signal.Some?);
    }
  }

  lemma FinalCalls(bars: seq<BarRecord>, hasFills: bool, hasSignals: bool)
    ensures hasFills ==> FillsBeforeData(CallsOf(bars, hasFills, hasSignals))
  {
    hide CallsOf;
    hide FillsBeforeData;
    if hasFills {
      CallsHaveFillsBeforeData(bars, hasSignals);
    }
  }

  lemma CallsOneMore(bars: seq<BarRecord>, bar: BarRecord, hasFills: bool, hasSignals: bool)
    ensures var ts := Some(bar.closeTs);
            var toData := CallsOf(bars, hasFills, hasSignals)
                          + (if hasFills then [PendingFills(bar.closeTs, ts, ts)] else [])
                          + [OnData(bar.seen.event, ts, ts)];
            CallsOf(bars + [bar], hasFills, hasSignals)
            == if bar.forwarded && hasSignals && bar.signal.Some? then toData + [OnSignal(bar.signal.value)] else toData
  {
    assert (bars + [bar])[..|bars|] == bars;
  }

  /** The middle of an iteration: advance the clock, advance the view, process
      pending fills, call on_data; the error is the exception raised on the way,
      and then no call has been made. */
  method DeliverBar(clock: SimulatedClock, view: CursorMarketDataView, strategy: Strategy, bars: seq<BarRecord>,
                    candle: Candle, closeTs: int, inWarmup: bool, callbacks: Callbacks, ghost warmup: int)
    returns (r: Result<BarRecord, BacktestError>)
    requires inWarmup == (|bars| + 1 <= warmup)
    requires view.Valid() && Positioned(view.series, clock.current, view.revealedCount, bars)
    requires IsInterval(candle.interval) && closeTs == CloseTs(candle, candle.interval)
    modifies clock, view, callbacks
    ensures view.Valid()
    ensures r.Err? ==> callbacks.calls == old(callbacks.calls)
    ensures r.Ok? ==>
              callbacks.calls == old(callbacks.calls)
                                 + (if callbacks.hasFills then [PendingFills(closeTs, Some(closeTs), Some(closeTs))]
                                    else [])
                                 + [OnData(candle, Some(closeTs), Some(closeTs))]
    ensures r.Ok? ==> r.value.closeTs == closeTs
    ensures r.Ok? ==> Positioned(view.series, clock.current, view.revealedCount, bars + [r.value])
    ensures r.Ok? ==> r.value.seen.event == candle && r.value.forwarded == (!inWarmup && r.value.signal.Some?)
    ensures OneBar(view.series, strategy, warmup, bars, candle)
         == match r case Ok(bar) => Run(bars + [bar], None) case Err(e) => Run(bars, Some(e))
  {
    hide ScanUpTo;
    hide SupportedPrefix;
    hide AllSupported;
    hide RevealedAt;
    hide NoneRevealed;
    GoodBar(view.series, strategy, bars, candle, view.revealedCount);
    var ok := clock.AdvanceTo(closeTs);
    if !ok {
      return Err(ClockRegression);
    }
    ok := view.Advance(closeTs);
    if !ok {
      return Err(ValueError);
    }
    if callbacks.hasFills {
      callbacks.ProcessPendingFills(closeTs, clock, view);
    }
    callbacks.NoteOnData(candle, clock, view);
    var seen := Observation(candle, Snapshot(view.series, view.revealedCount));
    var signal := strategy(Seen(bars) + [seen]);
    r := Ok(BarRecord(closeTs, seen, signal, !inWarmup && signal.Some?));
  }

  /** Clock and view stand at the close of the last completed bar. */
  ghost predicate Positioned(ds: Dataset, now: Option<int>, counts: Counts, bars: seq<BarRecord>) {
    && InRange(ds, counts)
    && if bars == [] then now == None && counts == NoneRevealed(ds)
       else
         && AllSupported(ds) && now == Some(bars[|bars| - 1].closeTs)
         && counts == RevealedAt(ds, bars[|bars| - 1].closeTs)
  }

  lemma FreshStart(ds: Dataset, s: FeedState, handlers: map<SeriesKey, nat>, handled: seq<(nat, Candle)>)
    requires WellFormed(ds, s)
    ensures Loadable(ds)
    ensures s == Start(ds) ==> Streaming(ds, s, Events(ds), 0, handled, handled, handlers)
    ensures Positioned(ds, None, NoneRevealed(ds), [])
  {
    assert Deliveries(handlers, []) == [];
    EmptyUnits(handled);
  }

  lemma StreamStep(ds: Dataset, before: FeedState, after: FeedState, stream: seq<FeedEvent>, n: nat,
                   handled: seq<(nat, Candle)>, handledAfter: seq<(nat, Candle)>, handledFirst: seq<(nat, Candle)>,
                   handlers: map<SeriesKey, nat>)
    requires WellFormed(ds, before) && n <= |stream|
    requires Streaming(ds, before, stream, n, handled, handledFirst, handlers)
    requires after == if before.heap == map[] then before else Next(ds, before).1
    requires handledAfter == if before.heap == map[] then handled
                             else
                               var e := Next(ds, before).0;
                               handled + if e.key in handlers then [(handlers[e.key], e.candle)] else []
    ensures before.heap == map[] ==> n == |stream| && handledAfter == handledFirst + Deliveries(handlers, stream)
    ensures before.heap != map[] ==>
              && n < |stream| && stream[n] == Next(ds, before).0
              && WellFormed(ds, after) && Streaming(ds, after, stream, n + 1, handledAfter, handledFirst, handlers)
  {
    hide WellFormedBut;
    hide Drain;
    hide Next;
    hide Deliveries;
    if before.heap == map[] {
      DrainEnds(ds, before);
      assert stream[..n] == stream;
    } else {
      DrainStep(ds, before, Earliest(before.heap), after);
      assert stream[n..][0] == stream[n] && stream[n..][1..] == stream[n + 1..];
      var e := stream[n];
      assert stream[..n + 1] == stream[..n] + [e];
      DeliverOneMore(handlers, stream[..n], e);
      Associates(handledFirst, Deliveries(handlers, stream[..n]),
                 if e.key in handlers then [(handlers[e.key], e.candle)] else []);
    }
  }

  lemma BadBar(ds: Dataset, strategy: Strategy, warmup: int, bars: seq<BarRecord>, candle: Candle)
    requires Reported(candle) == UnsupportedInterval
    ensures OneBar(ds, strategy, warmup, bars, candle) == Run(bars, Some(ValueError))
  {
  }

  /** What OneBar needs of the view is what it does from its position. */
  lemma GoodBar(ds: Dataset, strategy: Strategy, bars: seq<BarRecord>, candle: Candle, counts: Counts)
    requires IsInterval(candle.interval)
    requires exists now :: Positioned(ds, now, counts, bars)
    ensures AllSupported(ds) <==> SupportedPrefix(ds.keys) == |ds.keys|
    ensures var ts := CloseTs(candle, candle.interval);
            AllSupported(ds) && (bars == [] || bars[|bars| - 1].closeTs <= ts) ==>
              InRange(ds, counts) && ScanUpTo(ds, counts, ts, |ds.keys|) == RevealedAt(ds, ts)
  {
    SupportedAll(ds);
    var ts := CloseTs(candle, candle.interval);
    if (bars == [] || bars[|bars| - 1].closeTs <= ts) && AllSupported(ds) {
      ViewReaches(ds, counts, bars, ts);
    }
  }

  lemma ViewReaches(ds: Dataset, counts: Counts, bars: seq<BarRecord>, ts: int)
    requires InRange(ds, counts)
    requires bars != [] ==> AllSupported(ds) && bars[|bars| - 1].closeTs <= ts
    requires counts == if bars == [] then NoneRevealed(ds) else RevealedAt(ds, bars[|bars| - 1].closeTs)
    ensures AllSupported(ds) ==>
              SupportedPrefix(ds.keys) == |ds.keys| && ScanUpTo(ds, counts, ts, |ds.keys|) == RevealedAt(ds, ts)
  {
    SupportedAll(ds);
    if AllSupported(ds) {
      if bars != [] {
        StaysBehind(ds, bars[|bars| - 1].closeTs, ts);
      }
      AdvanceForgetsThePath(ds, counts, ts);
    }
  }
}
