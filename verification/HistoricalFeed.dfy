/** The k-way merge behind the backtest's event stream
    (infrastructure/backtest/historical_feed.py). */
module HistoricalFeeds {
  import opened Common
  import opened Candles

  /** What the heap orders by: close time, interval length, insertion count. */
  datatype HeapEntry = HeapEntry(closeTs: int, length: int, count: nat)

  predicate Before(a: HeapEntry, b: HeapEntry) {
    a.closeTs < b.closeTs ||
    (a.closeTs == b.closeTs && (a.length < b.length || (a.length == b.length && a.count < b.count)))
  }

  /** The contents of the heap, filed by the series an entry stands for: a series
      is pushed only when it has no entry. */
  type Heap = map<SeriesKey, HeapEntry>

  datatype FeedEvent = FeedEvent(key: SeriesKey, candle: Candle)

  datatype FeedState = FeedState(cursor: map<SeriesKey, nat>, heap: Heap, count: nat)

  /** Cursors inside their series, and exactly the next bar of every series that
      has one waits in the heap; the series in `missing` are still to be pushed. */
  ghost predicate WellFormedBut(ds: Dataset, s: FeedState, missing: set<SeriesKey>) {
    && Loadable(ds)
    && s.cursor.Keys == ds.bars.Keys
    && (forall k :: k in ds.bars ==> s.cursor[k] <= |ds.bars[k]|)
    && (forall k :: k in s.heap <==> k in ds.bars && k !in missing && s.cursor[k] < |ds.bars[k]|)
    && (forall k :: k in s.heap ==> Queued(ds, s, k))
    && DistinctCounts(s.heap)
  }

  ghost predicate WellFormed(ds: Dataset, s: FeedState) {
    WellFormedBut(ds, s, {})
  }

  predicate DistinctCounts(heap: Heap) {
    forall k, m :: k in heap && m in heap && k != m ==> heap[k].count != heap[m].count
  }

  predicate Queued(ds: Dataset, s: FeedState, k: SeriesKey)
    requires k in s.heap && k in s.cursor && k in ds.bars && s.cursor[k] < |ds.bars[k]|
  {
    && IsInterval(k.timeframe)
    && s.heap[k].closeTs == CloseTs(ds.bars[k][s.cursor[k]], k.timeframe)
    && s.heap[k].length == Step(k.timeframe)
    && s.heap[k].count < s.count
  }

  function Pushed(ds: Dataset, s: FeedState, key: SeriesKey): FeedState
    requires Loadable(ds) && key in ds.bars && key in s.cursor && key !in s.heap
  {
    var idx := s.cursor[key];
    if idx >= |ds.bars[key]| then s
    else
      var closeTs := CloseTs(ds.bars[key][idx], key.timeframe);
      s.(heap := s.heap[key := HeapEntry(closeTs, Step(key.timeframe), s.count)], count := s.count + 1)
  }

  /** The state after the first `n` series were pushed. */
  function StartUpTo(ds: Dataset, n: nat): (s: FeedState)
    requires Loadable(ds) && n <= |ds.keys|
    ensures s.cursor == map k | k in ds.bars :: 0
    ensures forall k :: k in s.heap ==> k in ds.keys[..n]
  {
    if n == 0 then FeedState(map k | k in ds.bars :: 0, map[], 0)
    else
      DistinctSuffix(ds.keys, n - 1);
      assert ds.keys[..n] == ds.keys[..n - 1] + [ds.keys[n - 1]];
      Pushed(ds, StartUpTo(ds, n - 1), ds.keys[n - 1])
  }

  function Start(ds: Dataset): FeedState
    requires Loadable(ds)
  {
    StartUpTo(ds, |ds.keys|)
  }

  /** The series whose entry heappop takes. */
  ghost predicate IsEarliest(heap: Heap, k: SeriesKey) {
    k in heap && forall m :: m in heap ==> !Before(heap[m], heap[k])
  }

  ghost function Earliest(heap: Heap): (k: SeriesKey)
    requires heap != map[]
    ensures IsEarliest(heap, k)
  {
    EarliestExists(heap);
    var k :| IsEarliest(heap, k);
    k
  }

  lemma {:induction false} EarliestExists(heap: Heap)
    requires heap != map[]
    ensures exists k :: IsEarliest(heap, k)
    decreases |heap|
  {
    var x :| x in heap;
    var rest := heap - {x};
    if rest == map[] {
      assert heap.Keys == {x} + rest.Keys;
      assert IsEarliest(heap, x);
    } else {
      assert rest.Keys < heap.Keys;
      EarliestExists(rest);
      var k :| IsEarliest(rest, k);
      var best := if Before(heap[x], heap[k]) then x else k;
      forall m | m in heap ensures !Before(heap[m], heap[best]) {
        if m != x {
          assert m in rest && !Before(rest[m], rest[k]);
        }
      }
      assert IsEarliest(heap, best);
    }
  }

  /** The state between the pop and the push of the same series. */
  function Popped(s: FeedState, key: SeriesKey): FeedState
    requires key in s.cursor
  {
    s.(heap := s.heap - {key}, cursor := s.cursor[key := s.cursor[key] + 1])
  }

  /** One pop: the event delivered and the state left. */
  ghost function Next(ds: Dataset, s: FeedState): (FeedEvent, FeedState)
    requires WellFormed(ds, s) && s.heap != map[]
  {
    var key := Earliest(s.heap);
    (FeedEvent(key, ds.bars[key][s.cursor[key]]), Pushed(ds, Popped(s, key), key))
  }

  /** Bars not yet delivered. */
  function Remaining(ds: Dataset, cursor: map<SeriesKey, nat>, keys: seq<SeriesKey>): int
    requires forall k :: k in keys ==> k in ds.bars && k in cursor
  {
    if keys == [] then 0
    else |ds.bars[keys[0]]| - cursor[keys[0]] + Remaining(ds, cursor, keys[1..])
  }

  /** Everything the feed still delivers, in order. */
  ghost function Drain(ds: Dataset, s: FeedState): seq<FeedEvent>
    requires WellFormed(ds, s)
    decreases Remaining(ds, s.cursor, ds.keys)
  {
    if s.heap == map[] then []
    else
      NextLeavesLess(ds, s);
      [Next(ds, s).0] + Drain(ds, Next(ds, s).1)
  }

  // ----- the invariant -----

  lemma PushKeepsValid(ds: Dataset, s: FeedState, missing: set<SeriesKey>, key: SeriesKey)
    requires WellFormedBut(ds, s, missing) && key in missing && key in ds.bars
    ensures WellFormedBut(ds, Pushed(ds, s, key), missing - {key})
  {
    var t := Pushed(ds, s, key);
    forall k | k in t.heap ensures Queued(ds, t, k) {
      if k != key {
        assert Queued(ds, s, k);
      }
    }
    forall k, m | k in t.heap && m in t.heap && k != m ensures t.heap[k].count != t.heap[m].count {
      assert k != key ==> Queued(ds, s, k);
      assert m != key ==> Queued(ds, s, m);
    }
  }

  lemma KeySetStep(keys: seq<SeriesKey>, n: nat)
    requires Distinct(keys) && n < |keys|
    ensures KeySet(keys[n..]) - {keys[n]} == KeySet(keys[n + 1..])
  {
    assert keys[n..] == [keys[n]] + keys[n + 1..];
    DistinctSuffix(keys, n);
  }

  /** One push of the constructor's loop. */
  lemma StartStep(ds: Dataset, s: FeedState, n: nat)
    requires Loadable(ds) && n < |ds.keys| && WellFormedBut(ds, s, KeySet(ds.keys[n..]))
    ensures var key := ds.keys[n];
            && key in ds.bars && key in s.cursor && key !in s.heap
            && WellFormedBut(ds, Pushed(ds, s, key), KeySet(ds.keys[n + 1..]))
  {
    hide Pushed;
    hide Distinct;
    hide Queued;
    hide DistinctCounts;
    assert ds.keys[n] == ds.keys[n..][0];
    KeySetStep(ds.keys, n);
    PushKeepsValid(ds, s, KeySet(ds.keys[n..]), ds.keys[n]);
  }

  lemma StartUpToNext(ds: Dataset, n: nat)
    requires Loadable(ds) && n < |ds.keys|
    ensures var s, key := StartUpTo(ds, n), ds.keys[n];
            && key in ds.bars && key in s.cursor && key !in s.heap
            && StartUpTo(ds, n + 1) == Pushed(ds, s, key)
  {
    hide Pushed;
    hide Distinct;
    DistinctSuffix(ds.keys, n);
  }

  lemma NothingPushed(ds: Dataset)
    requires Loadable(ds)
    ensures StartUpTo(ds, 0) == FeedState(map k | k in ds.bars :: 0, map[], 0)
    ensures WellFormedBut(ds, StartUpTo(ds, 0), KeySet(ds.keys[0..]))
  {
    hide Distinct;
    assert ds.keys[0..] == ds.keys;
  }

  lemma {:induction false} StartUpToIsValid(ds: Dataset, n: nat)
    requires Loadable(ds) && n <= |ds.keys|
    ensures WellFormedBut(ds, StartUpTo(ds, n), KeySet(ds.keys[n..]))
  {
    hide StartUpTo;
    hide Pushed;
    hide Loadable;
    hide WellFormedBut;
    hide KeySet;
    if n == 0 {
      NothingPushed(ds);
    } else {
      StartUpToIsValid(ds, n - 1);
      StartUpToNext(ds, n - 1);
      StartStep(ds, StartUpTo(ds, n - 1), n - 1);
    }
  }

  lemma StartIsValid(ds: Dataset)
    requires Loadable(ds)
    ensures WellFormed(ds, Start(ds))
  {
    StartUpToIsValid(ds, |ds.keys|);
    assert KeySet(ds.keys[|ds.keys|..]) == {};
  }

  lemma PopLeavesOneOut(ds: Dataset, s: FeedState, key: SeriesKey)
    requires WellFormed(ds, s) && key in s.heap
    ensures WellFormedBut(ds, Popped(s, key), {key})
  {
    var t := Popped(s, key);
    forall k | k in t.heap ensures Queued(ds, t, k) {
      assert Queued(ds, s, k);
    }
  }

  lemma NextIsValid(ds: Dataset, s: FeedState)
    requires WellFormed(ds, s) && s.heap != map[]
    ensures WellFormed(ds, Next(ds, s).1)
  {
    var key := Earliest(s.heap);
    PopLeavesOneOut(ds, s, key);
    PushKeepsValid(ds, Popped(s, key), {key}, key);
    assert {key} - {key} == {};
  }

  lemma CursorStep(ds: Dataset, cursor: map<SeriesKey, nat>, key: SeriesKey)
    requires cursor.Keys == ds.bars.Keys && key in cursor
    requires forall k :: k in ds.bars ==> cursor[k] <= |ds.bars[k]|
    requires cursor[key] < |ds.bars[key]|
    ensures Remaining(ds, cursor[key := cursor[key] + 1], ds.keys) == Remaining(ds, cursor, ds.keys) - 1
    ensures Remaining(ds, cursor, ds.keys) > 0
  {
    RemainingAfter(ds, cursor, key, ds.keys);
    RemainingNonNegative(ds, cursor[key := cursor[key] + 1], ds.keys);
  }

  lemma {:induction false} RemainingAfter(ds: Dataset, cursor: map<SeriesKey, nat>, key: SeriesKey,
                                          keys: seq<SeriesKey>)
    requires forall k :: k in keys ==> k in ds.bars && k in cursor
    requires Distinct(keys)
    requires key in cursor
    ensures Remaining(ds, cursor[key := cursor[key] + 1], keys)
         == Remaining(ds, cursor, keys) - (if key in keys then 1 else 0)
  {
    if keys != [] {
      RemainingAfter(ds, cursor, key, keys[1..]);
    }
  }

  lemma {:induction false} RemainingNonNegative(ds: Dataset, cursor: map<SeriesKey, nat>, keys: seq<SeriesKey>)
    requires forall k :: k in keys ==> k in ds.bars && k in cursor && cursor[k] <= |ds.bars[k]|
    ensures Remaining(ds, cursor, keys) >= 0
  {
    if keys != [] {
      RemainingNonNegative(ds, cursor, keys[1..]);
    }
  }

  /** One pop, in terms of what was popped. */
  lemma PopStep(ds: Dataset, s: FeedState, k: SeriesKey, t: FeedState)
    requires WellFormed(ds, s) && s.heap != map[]
    requires k == Earliest(s.heap) && t == Next(ds, s).1
    ensures k in ds.bars && k in s.cursor && s.cursor[k] < |ds.bars[k]|
    ensures Next(ds, s).0 == FeedEvent(k, ds.bars[k][s.cursor[k]])
    ensures t.cursor == s.cursor[k := s.cursor[k] + 1]
    ensures s.cursor.Keys == ds.bars.Keys && Loadable(ds)
  {
  }

  lemma NextLeavesLess(ds: Dataset, s: FeedState)
    requires WellFormed(ds, s) && s.heap != map[]
    ensures WellFormed(ds, Next(ds, s).1)
    ensures 0 <= Remaining(ds, Next(ds, s).1.cursor, ds.keys) < Remaining(ds, s.cursor, ds.keys)
  {
    hide WellFormedBut;
    hide Next;
    hide Remaining;
    NextIsValid(ds, s);
    PopStep(ds, s, Earliest(s.heap), Next(ds, s).1);
    PopCounts(ds, s, Earliest(s.heap));
  }

  lemma PopCounts(ds: Dataset, s: FeedState, k: SeriesKey)
    requires WellFormed(ds, s) && k in s.heap
    ensures k in s.cursor && s.cursor.Keys == ds.bars.Keys
    ensures 0 <= Remaining(ds, s.cursor[k := s.cursor[k] + 1], ds.keys) < Remaining(ds, s.cursor, ds.keys)
  {
    var cursor := s.cursor[k := s.cursor[k] + 1];
    CursorStep(ds, s.cursor, k);
    RemainingNonNegative(ds, cursor, ds.keys);
  }

  lemma DrainStep(ds: Dataset, s: FeedState, k: SeriesKey, t: FeedState)
    requires WellFormed(ds, s) && s.heap != map[]
    requires k == Earliest(s.heap) && t == Next(ds, s).1
    ensures WellFormed(ds, t) && Loadable(ds)
    ensures k in ds.bars && k in s.cursor && s.cursor[k] < |ds.bars[k]|
    ensures Next(ds, s).0 == FeedEvent(k, ds.bars[k][s.cursor[k]])
    ensures t.cursor == s.cursor[k := s.cursor[k] + 1]
    ensures t.cursor.Keys == s.cursor.Keys == ds.bars.Keys
    ensures 0 <= Remaining(ds, t.cursor, ds.keys) < Remaining(ds, s.cursor, ds.keys)
    ensures Drain(ds, s) == [Next(ds, s).0] + Drain(ds, t)
  {
    hide WellFormedBut;
    hide Next;
    hide Loadable;
    hide Remaining;
    NextLeavesLess(ds, s);
    PopStep(ds, s, k, t);
  }

  lemma DrainEnds(ds: Dataset, s: FeedState)
    requires WellFormed(ds, s) && s.heap == map[]
    ensures Drain(ds, s) == []
    ensures s.cursor.Keys == ds.bars.Keys
    ensures forall k :: k in ds.bars ==> s.cursor[k] == |ds.bars[k]|
  {
  }

  lemma EarliestIsUnique(ds: Dataset, s: FeedState, k: SeriesKey, m: SeriesKey)
    requires WellFormed(ds, s) && IsEarliest(s.heap, k) && IsEarliest(s.heap, m)
    ensures k == m
  {
  }

  // ----- the feed object -----

  datatype ClosedEvent = Exhausted | Closed(candle: Candle, closeTs: int) | UnsupportedInterval

  class HistoricalFeed {
    const series: Dataset
    var cursor: map<SeriesKey, nat>
    var heap: Heap
    var tieBreaker: nat
    var handlers: map<SeriesKey, nat>
    var handled: seq<(nat, Candle)>  // every handler invocation, in order

    ghost function State(): FeedState
      reads this
    {
      FeedState(cursor, heap, tieBreaker)
    }

    ghost predicate Valid()
      reads this
    {
      WellFormed(series, State())
    }

    constructor (ds: Dataset)
      requires Loadable(ds)
      ensures series == ds && State() == Start(ds) && Valid()
      ensures handlers == map[] && handled == []
    {
      hide Pushed;
      hide Loadable;
      hide WellFormedBut;
      hide StartUpTo;
      NothingPushed(ds);
      series := ds;
      cursor := map k | k in ds.bars :: 0;
      heap, tieBreaker := map[], 0;
      handlers, handled := map[], [];
      new;
      for n := 0 to |ds.keys|
        invariant State() == StartUpTo(ds, n)
        invariant handlers == map[] && handled == []
      {
        StartUpToNext(ds, n);
        PushNext(ds.keys[n]);
      }
      StartIsValid(ds);
    }

    /** Construction; null is the ValueError of an unsupported timeframe. */
    static method Open(ds: Dataset) returns (feed: HistoricalFeed?)
      ensures feed == null <==> !Loadable(ds)
      ensures feed != null ==> fresh(feed) && feed.series == ds && feed.State() == Start(ds) && feed.Valid()
    {
      if !Loadable(ds) {
        return null;
      }
      feed := new HistoricalFeed(ds);
    }

    method PushNext(key: SeriesKey)
      requires Loadable(series) && key in series.bars && key in cursor && key !in heap
      modifies this`heap, this`tieBreaker
      ensures State() == Pushed(series, old(State()), key)
    {
      var idx := cursor[key];
      var candles := series.bars[key];
      if idx >= |candles| {
        return;
      }
      var step := Step(key.timeframe);
      var closeTs := candles[idx].openTime + step;
      heap := heap[key := HeapEntry(closeTs, step, tieBreaker)];
      tieBreaker := tieBreaker + 1;
    }

    method Subscribe(symbol: nat, timeframe: Interval, handler: nat)
      modifies this`handlers
      ensures handlers == old(handlers)[SeriesKey(symbol, timeframe) := handler]
    {
      handlers := handlers[SeriesKey(symbol, timeframe) := handler];
    }

    method Unsubscribe(symbol: nat, timeframe: Interval)
      modifies this`handlers
      ensures handlers == old(handlers) - {SeriesKey(symbol, timeframe)}
    {
      handlers := handlers - {SeriesKey(symbol, timeframe)};
    }

    /** The next event, handed to its series' handler if there is one; None is
        FeedExhausted. */
    method NextEvent() returns (r: Option<FeedEvent>)
      requires Valid()
      modifies this`cursor, this`heap, this`tieBreaker, this`handled
      ensures Valid()
      ensures r.None? <==> old(heap) == map[]
      ensures r.None? ==> State() == old(State()) && handled == old(handled)
      ensures r.Some? ==>
                && r.value == Next(series, old(State())).0
                && State() == Next(series, old(State())).1
                && handled == old(handled)
                            + if r.value.key in handlers then [(handlers[r.value.key], r.value.candle)] else []
    {
      hide WellFormedBut;
      if heap == map[] {
        return None;
      }
      ghost var before := State();
      DrainStep(series, before, Earliest(heap), Next(series, before).1);
      var key := HeapPop();
      var candle := series.bars[key][cursor[key]];
      cursor := cursor[key := cursor[key] + 1];
      PushNext(key);
      if key in handlers {
        handled := handled + [(handlers[key], candle)];
      }
      r := Some(FeedEvent(key, candle));
    }

    /** heapq.heappop: take out the least tuple. */
    method HeapPop() returns (key: SeriesKey)
      requires Valid() && heap != map[]
      modifies this`heap
      ensures old(heap) != map[] && key == Earliest(old(heap))
      ensures heap == old(heap) - {key}
    {
      EarliestExists(heap);
      key :| key in heap && forall m :: m in heap ==> !Before(heap[m], heap[key]);
      EarliestIsUnique(series, State(), key, Earliest(heap));
      heap := heap - {key};
    }

    /** NextEvent with the bar's own close time, by the interval the bar names. */
    method NextClosedEvent() returns (r: ClosedEvent)
      requires Valid()
      modifies this`cursor, this`heap, this`tieBreaker, this`handled
      ensures Valid()
      ensures r == Exhausted <==> old(heap) == map[]
      ensures r == Exhausted ==> State() == old(State())
      ensures r != Exhausted ==>
                var (e, after) := Next(series, old(State()));
                && State() == after
                && r == Reported(e.candle)
                && r == (if IsInterval(e.candle.interval)
                         then Closed(e.candle, e.candle.openTime + Step(e.candle.interval)) else UnsupportedInterval)
                && handled == old(handled) + if e.key in handlers then [(handlers[e.key], e.candle)] else []
      ensures r == Exhausted ==> handled == old(handled)
    {
      var e := NextEvent();
      if e.None? {
        return Exhausted;
      }
      r := Reported(e.value.candle);
    }
  }

  function Reported(c: Candle): ClosedEvent {
    if IsInterval(c.interval) then Closed(c, CloseTs(c, c.interval)) else UnsupportedInterval
  }
}
