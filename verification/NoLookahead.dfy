/** No lookahead as non-interference: what a backtest does up to a time cannot
    depend on any bar that closes later, whatever the strategy. The proof runs
    the merges of two data sets side by side. */
module NoLookaheads {
  import opened Common
  import opened Candles
  import opened HistoricalFeeds
  import opened FeedOrder
  import opened MarketDataViews
  import opened BacktestLoops
  import opened BacktestSafety

  /** The i-th bar under k closes at or before `cutoff`. */
  predicate Known(ds: Dataset, k: SeriesKey, i: nat, cutoff: int) {
    k in ds.bars && IsInterval(k.timeframe) && i < |ds.bars[k]| && CloseTs(ds.bars[k][i], k.timeframe) <= cutoff
  }

  /** Two data sets with the same series, alike in every bar that closes by
      `cutoff` and arbitrary after it. */
  ghost predicate SameUpTo(a: Dataset, b: Dataset, cutoff: int) {
    && a.keys == b.keys
    && forall k, i: nat :: Known(a, k, i, cutoff) || Known(b, k, i, cutoff) ==>
         Known(a, k, i, cutoff) && Known(b, k, i, cutoff) && a.bars[k][i] == b.bars[k][i]
  }

  predicate Early(heap: Heap, k: SeriesKey, cutoff: int) {
    k in heap && heap[k].closeTs <= cutoff
  }

  /** Two heaps that agree on the entries that close by `cutoff`, up to an
      order-preserving renumbering of the insertion counts. */
  ghost predicate Alike(g: Heap, h: Heap, cutoff: int) {
    && (forall k :: Early(g, k, cutoff) <==> Early(h, k, cutoff))
    && (forall k :: Early(g, k, cutoff) ==> g[k].closeTs == h[k].closeTs && g[k].length == h[k].length)
    && (forall k, m :: Early(g, k, cutoff) && Early(g, m, cutoff) ==>
          (g[k].count < g[m].count <==> h[k].count < h[m].count))
  }

  predicate Fresh(heap: Heap, key: SeriesKey, count: nat) {
    key !in heap && forall k :: k in heap ==> heap[k].count < count
  }

  function Put(heap: Heap, key: SeriesKey, e: Option<HeapEntry>): Heap {
    if e.Some? then heap[key := e.value] else heap
  }

  predicate AlikeEntries(d: Option<HeapEntry>, e: Option<HeapEntry>, cutoff: int) {
    && (d.Some? && d.value.closeTs <= cutoff <==> e.Some? && e.value.closeTs <= cutoff)
    && (d.Some? && d.value.closeTs <= cutoff ==> d.value.closeTs == e.value.closeTs && d.value.length == e.value.length)
  }

  /** What is early after a put: what was, and the new entry if it is. */
  lemma PutEarly(heap: Heap, key: SeriesKey, e: Option<HeapEntry>, cutoff: int, k: SeriesKey)
    requires key !in heap
    ensures Early(Put(heap, key, e), k, cutoff)
       <==> if k == key then e.Some? && e.value.closeTs <= cutoff else Early(heap, k, cutoff)
    ensures Early(Put(heap, key, e), k, cutoff) ==>
              Put(heap, key, e)[k] == if k == key then e.value else heap[k]
  {
  }

  lemma PutKeepsAlike(g: Heap, h: Heap, key: SeriesKey, d: Option<HeapEntry>, e: Option<HeapEntry>, cutoff: int)
    requires Alike(g, h, cutoff) && AlikeEntries(d, e, cutoff)
    requires Fresh(g, key, if d.Some? then d.value.count else 0) || (d.None? && key !in g)
    requires Fresh(h, key, if e.Some? then e.value.count else 0) || (e.None? && key !in h)
    ensures Alike(Put(g, key, d), Put(h, key, e), cutoff)
  {
    hide Put;
    var g', h' := Put(g, key, d), Put(h, key, e);
    forall k
      ensures Early(g', k, cutoff) <==> Early(h', k, cutoff)
      ensures Early(g', k, cutoff) ==> g'[k].closeTs == h'[k].closeTs && g'[k].length == h'[k].length
    {
      PutEarly(g, key, d, cutoff, k);
      PutEarly(h, key, e, cutoff, k);
    }
    forall k, m | Early(g', k, cutoff) && Early(g', m, cutoff)
      ensures g'[k].count < g'[m].count <==> h'[k].count < h'[m].count
    {
      PutEarly(g, key, d, cutoff, k);
      PutEarly(h, key, e, cutoff, k);
      PutEarly(g, key, d, cutoff, m);
      PutEarly(h, key, e, cutoff, m);
    }
  }

  lemma DropKeepsAlike(g: Heap, h: Heap, key: SeriesKey, cutoff: int)
    requires Alike(g, h, cutoff)
    ensures Alike(g - {key}, h - {key}, cutoff)
  {
    forall k
      ensures Early(g - {key}, k, cutoff) <==> k != key && Early(g, k, cutoff)
      ensures Early(h - {key}, k, cutoff) <==> k != key && Early(h, k, cutoff)
    {
    }
  }

  /** The feeds are at the same bar of every series with an early entry. */
  ghost predicate Related(s: FeedState, t: FeedState, cutoff: int) {
    && Alike(s.heap, t.heap, cutoff)
    && forall k :: Early(s.heap, k, cutoff) ==> k in s.cursor && k in t.cursor && s.cursor[k] == t.cursor[k]
  }

  /** What pushing a series adds to the heap. */
  function NextEntry(ds: Dataset, s: FeedState, key: SeriesKey): Option<HeapEntry>
    requires Loadable(ds) && key in ds.bars && key in s.cursor
  {
    var i := s.cursor[key];
    if i < |ds.bars[key]| then Some(HeapEntry(CloseTs(ds.bars[key][i], key.timeframe), Step(key.timeframe), s.count))
    else None
  }

  lemma PushIsPut(ds: Dataset, s: FeedState, missing: set<SeriesKey>, key: SeriesKey, cutoff: int)
    requires WellFormedBut(ds, s, missing) && key in missing && key in ds.bars
    ensures Loadable(ds) && key in s.cursor && key !in s.heap
    ensures Pushed(ds, s, key).heap == Put(s.heap, key, NextEntry(ds, s, key))
    ensures Pushed(ds, s, key).cursor == s.cursor
    ensures var e := NextEntry(ds, s, key);
            && (Known(ds, key, s.cursor[key], cutoff) <==> e.Some? && e.value.closeTs <= cutoff)
            && (e.Some? ==> e.value.count == s.count)
            && (e.Some? && e.value.closeTs <= cutoff ==>
                  && e.value.closeTs == CloseTs(ds.bars[key][s.cursor[key]], key.timeframe)
                  && e.value.length == Step(key.timeframe))
    ensures Fresh(s.heap, key, s.count)
  {
    forall k | k in s.heap ensures s.heap[k].count < s.count {
      assert Queued(ds, s, k);
    }
  }

  lemma SameNext(a: Dataset, b: Dataset, key: SeriesKey, i: nat, cutoff: int)
    requires SameUpTo(a, b, cutoff)
    ensures Known(a, key, i, cutoff) <==> Known(b, key, i, cutoff)
    ensures Known(a, key, i, cutoff) ==> a.bars[key][i] == b.bars[key][i]
  {
  }

  lemma RelatedPush(a: Dataset, s: FeedState, b: Dataset, t: FeedState, missing: set<SeriesKey>, key: SeriesKey,
                    cutoff: int)
    requires SameUpTo(a, b, cutoff) && Related(s, t, cutoff)
    requires WellFormedBut(a, s, missing) && WellFormedBut(b, t, missing)
    requires key in missing && key in a.bars && key in b.bars && key in s.cursor && key in t.cursor
    requires s.cursor[key] == t.cursor[key]
    ensures Loadable(a) && Loadable(b) && key !in s.heap && key !in t.heap
    ensures Related(Pushed(a, s, key), Pushed(b, t, key), cutoff)
  {
    hide Alike;
    hide WellFormedBut;
    hide SameUpTo;
    hide Pushed;
    hide NextEntry;
    hide Fresh;
    PushIsPut(a, s, missing, key, cutoff);
    PushIsPut(b, t, missing, key, cutoff);
    SameNext(a, b, key, s.cursor[key], cutoff);
    var d, e := NextEntry(a, s, key), NextEntry(b, t, key);
    PutKeepsAlike(s.heap, t.heap, key, d, e, cutoff);
    forall k | Early(Put(s.heap, key, d), k, cutoff) ensures k == key || Early(s.heap, k, cutoff) {
    }
  }

  lemma RelatedEmpty(s: FeedState, t: FeedState, cutoff: int)
    requires s.heap == map[] && t.heap == map[]
    ensures Related(s, t, cutoff)
  {
  }

  lemma {:induction false} RelatedStart(a: Dataset, b: Dataset, n: nat, cutoff: int)
    requires SameUpTo(a, b, cutoff) && Loadable(a) && Loadable(b) && n <= |a.keys|
    ensures Related(StartUpTo(a, n), StartUpTo(b, n), cutoff)
  {
    hide Related;
    hide SameUpTo;
    hide WellFormedBut;
    hide KeySet;
    if n == 0 {
      RelatedEmpty(StartUpTo(a, 0), StartUpTo(b, 0), cutoff);
    } else {
      KeysAgree(a, b, cutoff, n - 1);
      RelatedStart(a, b, n - 1, cutoff);
      StartUpToIsValid(a, n - 1);
      StartUpToIsValid(b, n - 1);
      RelatedPush(a, StartUpTo(a, n - 1), b, StartUpTo(b, n - 1), KeySet(a.keys[n - 1..]), a.keys[n - 1], cutoff);
    }
  }

  lemma KeysAgree(a: Dataset, b: Dataset, cutoff: int, n: nat)
    requires SameUpTo(a, b, cutoff) && n < |a.keys|
    ensures a.keys == b.keys && a.keys[n] in a.bars && a.keys[n] in b.bars && a.keys[n] in KeySet(a.keys[n..])
  {
    assert a.keys[n..][0] == a.keys[n];
  }

  lemma EarliestIsEarly(heap: Heap, k: SeriesKey, cutoff: int)
    requires Early(heap, k, cutoff)
    ensures heap != map[] && Early(heap, Earliest(heap), cutoff)
  {
    assert !Before(heap[k], heap[Earliest(heap)]);
  }

  /** Alike heaps pop the same series as long as an early entry is left. */
  lemma SameEarliest(g: Heap, h: Heap, cutoff: int)
    requires Alike(g, h, cutoff) && DistinctCounts(g)
    requires exists k :: Early(g, k, cutoff)
    ensures g != map[] && h != map[] && Earliest(g) == Earliest(h) && Early(g, Earliest(g), cutoff)
  {
    var k :| Early(g, k, cutoff);
    assert Early(h, k, cutoff);
    EarliestIsEarly(g, k, cutoff);
    EarliestIsEarly(h, k, cutoff);
    var x, y := Earliest(g), Earliest(h);
    assert Early(g, y, cutoff) && Early(h, x, cutoff);
    assert !Before(g[y], g[x]) && !Before(h[x], h[y]);
  }

  lemma RelatedNext(a: Dataset, s: FeedState, b: Dataset, t: FeedState, cutoff: int)
    requires SameUpTo(a, b, cutoff) && Related(s, t, cutoff)
    requires WellFormed(a, s) && WellFormed(b, t)
    requires exists k :: Early(s.heap, k, cutoff)
    ensures s.heap != map[] && t.heap != map[]
    ensures Related(Next(a, s).1, Next(b, t).1, cutoff)
    ensures Next(a, s).0 == Next(b, t).0
    ensures Timed(Next(a, s).0) && EventClose(Next(a, s).0) <= cutoff
  {
    SameEarliest(s.heap, t.heap, cutoff);
    var key := Earliest(s.heap);
    PopStep(a, s, key, Next(a, s).1);
    PopStep(b, t, key, Next(b, t).1);
    assert Queued(a, s, key);
    assert Known(a, key, s.cursor[key], cutoff);
    SameNext(a, b, key, s.cursor[key], cutoff);
    PopLeavesOneOut(a, s, key);
    PopLeavesOneOut(b, t, key);
    RelatedPop(s, t, key, cutoff);
    RelatedPush(a, Popped(s, key), b, Popped(t, key), {key}, key, cutoff);
  }

  lemma RelatedPop(s: FeedState, t: FeedState, key: SeriesKey, cutoff: int)
    requires Related(s, t, cutoff) && key in s.cursor && key in t.cursor && s.cursor[key] == t.cursor[key]
    ensures Related(Popped(s, key), Popped(t, key), cutoff)
  {
    hide Alike;
    DropKeepsAlike(s.heap, t.heap, key, cutoff);
    forall k | Early(s.heap - {key}, k, cutoff) ensures k != key && Early(s.heap, k, cutoff) {
    }
  }

  /** The events up to the first one that closes after `cutoff`. */
  function UpTo(events: seq<FeedEvent>, cutoff: int): seq<FeedEvent> {
    if events == [] || !Timed(events[0]) || EventClose(events[0]) > cutoff then []
    else [events[0]] + UpTo(events[1..], cutoff)
  }

  lemma UpToCons(e: FeedEvent, rest: seq<FeedEvent>, cutoff: int)
    requires Timed(e)
    ensures UpTo([e] + rest, cutoff) == if EventClose(e) <= cutoff then [e] + UpTo(rest, cutoff) else []
  {
    assert ([e] + rest)[1..] == rest;
  }

  lemma NothingEarlyLeft(ds: Dataset, s: FeedState, cutoff: int)
    requires WellFormed(ds, s) && !exists k :: Early(s.heap, k, cutoff)
    ensures UpTo(Drain(ds, s), cutoff) == []
  {
    if s.heap == map[] {
      DrainEnds(ds, s);
    } else {
      var key := Earliest(s.heap);
      assert Queued(ds, s, key) && !Early(s.heap, key, cutoff);
      PopStep(ds, s, key, Next(ds, s).1);
      DrainStep(ds, s, key, Next(ds, s).1);
      UpToCons(Next(ds, s).0, Drain(ds, Next(ds, s).1), cutoff);
    }
  }

  lemma {:induction false} SameEarlyEvents(a: Dataset, s: FeedState, b: Dataset, t: FeedState, cutoff: int)
    requires SameUpTo(a, b, cutoff) && Related(s, t, cutoff)
    requires WellFormed(a, s) && WellFormed(b, t)
    ensures UpTo(Drain(a, s), cutoff) == UpTo(Drain(b, t), cutoff)
    decreases Remaining(a, s.cursor, a.keys)
  {
    hide WellFormedBut;
    hide SameUpTo;
    hide Next;
    if exists k :: Early(s.heap, k, cutoff) {
      RelatedNext(a, s, b, t, cutoff);
      var s', t' := Next(a, s).1, Next(b, t).1;
      DrainStep(a, s, Earliest(s.heap), s');
      DrainStep(b, t, Earliest(t.heap), t');
      SameEarlyEvents(a, s', b, t', cutoff);
      UpToCons(Next(a, s).0, Drain(a, s'), cutoff);
      UpToCons(Next(b, t).0, Drain(b, t'), cutoff);
    } else {
      NothingEarlyLeft(a, s, cutoff);
      NothingEarlyLeft(b, t, cutoff);
    }
  }

  lemma {:induction false} UpToIsPrefix(events: seq<FeedEvent>, cutoff: int)
    ensures UpTo(events, cutoff) <= events
    ensures forall e :: e in UpTo(events, cutoff) ==> Timed(e) && EventClose(e) <= cutoff
  {
    if events != [] {
      UpToIsPrefix(events[1..], cutoff);
      assert events == [events[0]] + events[1..];
    }
  }

  /** On ascending series nothing that closes by `cutoff` comes after that. */
  lemma UpToTakesAll(ds: Dataset, cutoff: int)
    requires Loadable(ds) && Ascending(ds)
    ensures var n := |UpTo(Events(ds), cutoff)|;
            && n <= |Events(ds)|
            && forall i :: 0 <= i < |Events(ds)| ==>
              Timed(Events(ds)[i]) && (EventClose(Events(ds)[i]) <= cutoff <==> i < n)
  {
    EventsInOrder(ds);
    var events := Events(ds);
    hide Events;
    UpToIsPrefix(events, cutoff);
    UpToStops(events, cutoff);
    var n := |UpTo(events, cutoff)|;
    forall i | n <= i < |events| ensures EventClose(events[i]) > cutoff {
      assert i > n ==> NotAfter(EventClose(events[n]), EventLength(events[n]), events[i]);
    }
    forall i | 0 <= i < n ensures EventClose(events[i]) <= cutoff {
      assert UpTo(events, cutoff)[i] == events[i];
    }
  }

  lemma {:induction false} UpToStops(events: seq<FeedEvent>, cutoff: int)
    ensures var n := |UpTo(events, cutoff)|;
            n <= |events| && (n < |events| ==> !Timed(events[n]) || EventClose(events[n]) > cutoff)
  {
    if events != [] {
      UpToStops(events[1..], cutoff);
    }
  }

  /** By `cutoff` the view shows the same bars. */
  lemma SameSnapshot(a: Dataset, b: Dataset, cutoff: int, ts: int)
    requires SameUpTo(a, b, cutoff) && ts <= cutoff && AllSupported(a) && AllSupported(b)
    ensures Snapshot(a, RevealedAt(a, ts)) == Snapshot(b, RevealedAt(b, ts))
  {
    assert a.bars.Keys == b.bars.Keys;
    forall k | k in a.bars
      ensures Snapshot(a, RevealedAt(a, ts))[k] == Snapshot(b, RevealedAt(b, ts))[k]
    {
      SameScan(a, b, k, cutoff, ts);
    }
  }

  lemma SameScan(a: Dataset, b: Dataset, k: SeriesKey, cutoff: int, ts: int)
    requires SameUpTo(a, b, cutoff) && ts <= cutoff && k in a.bars && k in b.bars && IsInterval(k.timeframe)
    ensures var r := Scan(a.bars[k], Step(k.timeframe), 0, ts);
            r == Scan(b.bars[k], Step(k.timeframe), 0, ts) && a.bars[k][..r] == b.bars[k][..r]
  {
    hide SameUpTo;
    hide Scan;
    var x, y := a.bars[k], b.bars[k];
    var r, q := Scan(x, Step(k.timeframe), 0, ts), Scan(y, Step(k.timeframe), 0, ts);
    forall i: nat
      ensures (Known(a, k, i, cutoff) <==> Known(b, k, i, cutoff)) && (Known(a, k, i, cutoff) ==> x[i] == y[i])
    {
      SameNext(a, b, k, i, cutoff);
    }
    assert forall i: nat :: i < r ==> Known(a, k, i, cutoff);
    assert forall i: nat :: i < q ==> Known(b, k, i, cutoff);
    assert Known(a, k, r, cutoff) == Known(b, k, r, cutoff);
    assert Known(a, k, q, cutoff) == Known(b, k, q, cutoff);
  }

  lemma SameOneBar(a: Dataset, b: Dataset, strategy: Strategy, warmup: int, bars: seq<BarRecord>, candle: Candle,
                   cutoff: int)
    requires SameUpTo(a, b, cutoff) && AllSupported(a) && AllSupported(b)
    requires IsInterval(candle.interval) ==> CloseTs(candle, candle.interval) <= cutoff
    ensures OneBar(a, strategy, warmup, bars, candle) == OneBar(b, strategy, warmup, bars, candle)
  {
    if IsInterval(candle.interval) {
      SameSnapshot(a, b, cutoff, CloseTs(candle, candle.interval));
    }
  }

  lemma {:induction false} SameRunOver(a: Dataset, b: Dataset, strategy: Strategy, warmup: int,
                                       events: seq<FeedEvent>, cutoff: int)
    requires SameUpTo(a, b, cutoff) && AllSupported(a) && AllSupported(b)
    requires forall e :: e in events ==>
               Timed(e) && EventClose(e) <= cutoff && e.candle.interval == e.key.timeframe
    ensures RunOver(a, strategy, warmup, events) == RunOver(b, strategy, warmup, events)
  {
    hide OneBar;
    hide SameUpTo;
    if events != [] {
      var n := |events| - 1;
      SameRunOver(a, b, strategy, warmup, events[..n], cutoff);
      SameOneBar(a, b, strategy, warmup, RunOver(a, strategy, warmup, events[..n]).bars, events[n].candle, cutoff);
    }
  }

  lemma {:induction false} RunExtends(ds: Dataset, strategy: Strategy, warmup: int, events: seq<FeedEvent>, n: nat)
    requires n <= |events|
    ensures RunOver(ds, strategy, warmup, events[..n]).bars <= RunOver(ds, strategy, warmup, events).bars
    decreases |events|
  {
    if n == |events| {
      assert events[..n] == events;
    } else {
      var shorter := events[..|events| - 1];
      RunExtends(ds, strategy, warmup, shorter, n);
      assert shorter[..n] == events[..n];
    }
  }

  /** No lookahead: take any strategy and two data sets that agree on every bar
      that closes by `cutoff`, whatever they hold later. Both runs deliver the
      same bars up to `cutoff`, and every record of those bars is the same: what
      was visible, the signal, and whether it was forwarded. */
  lemma NoLookahead(a: Dataset, b: Dataset, strategy: Strategy, warmup: int, cutoff: int)
    requires Loadable(a) && Ascending(a) && WellKeyed(a)
    requires Loadable(b) && Ascending(b) && WellKeyed(b)
    requires SameUpTo(a, b, cutoff)
    ensures UpTo(Events(a), cutoff) == UpTo(Events(b), cutoff)
    ensures var n := |UpTo(Events(a), cutoff)|;
            && n <= |WholeRun(a, strategy, warmup).bars| && n <= |WholeRun(b, strategy, warmup).bars|
            && WholeRun(a, strategy, warmup).bars[..n] == WholeRun(b, strategy, warmup).bars[..n]
            && (forall i :: 0 <= i < |WholeRun(a, strategy, warmup).bars| ==>
                  (WholeRun(a, strategy, warmup).bars[i].closeTs <= cutoff <==> i < n))
  {
    hide Drain;
    hide SameUpTo;
    hide OneBar;
    StartIsValid(a);
    StartIsValid(b);
    SameStart(a, b, cutoff);
    SameEarlyEvents(a, Start(a), b, Start(b), cutoff);
    var early := UpTo(Events(a), cutoff);
    UpToIsPrefix(Events(a), cutoff);
    UpToIsPrefix(Events(b), cutoff);
    EventsWellKeyed(a);
    SameRunOver(a, b, strategy, warmup, early, cutoff);
    EarlyPart(a, strategy, warmup, cutoff);
    EarlyPart(b, strategy, warmup, cutoff);
  }

  lemma SameStart(a: Dataset, b: Dataset, cutoff: int)
    requires SameUpTo(a, b, cutoff) && Loadable(a) && Loadable(b)
    ensures Related(Start(a), Start(b), cutoff)
  {
    RelatedStart(a, b, |a.keys|, cutoff);
  }

  lemma EarlyPart(ds: Dataset, strategy: Strategy, warmup: int, cutoff: int)
    requires Loadable(ds) && Ascending(ds) && WellKeyed(ds)
    ensures AllSupported(ds)
    ensures var early := UpTo(Events(ds), cutoff);
            var bars := WholeRun(ds, strategy, warmup).bars;
            && |early| <= |bars| && bars[..|early|] == RunOver(ds, strategy, warmup, early).bars
            && forall i :: 0 <= i < |bars| ==> (bars[i].closeTs <= cutoff <==> i < |early|)
  {
    hide Drain;
    hide OneBar;
    WellKeyedRunSucceeds(ds, strategy, warmup);
    UpToTakesAll(ds, cutoff);
    var events := Events(ds);
    hide Events;
    UpToIsPrefix(events, cutoff);
    var n := |UpTo(events, cutoff)|;
    assert events[..n] == UpTo(events, cutoff);
    RunExtends(ds, strategy, warmup, events, n);
    EventsInOrder(ds);
    EventsWellKeyed(ds);
    OrderedRunIsFaithful(ds, strategy, warmup, events[..n]);
    var bars := WholeRun(ds, strategy, warmup).bars;
    forall i | 0 <= i < |bars| ensures bars[i].closeTs <= cutoff <==> i < n {
      assert FaithfulAt(ds, strategy, warmup, events, bars, i);
    }
  }
}
