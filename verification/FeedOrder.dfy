/** What the merge guarantees about the stream it delivers: every bar once, each
    series in order, ordered by close time with shorter bars first, whatever the
    order the series were given in. */
module FeedOrder {
  import opened Common
  import opened Candles
  import opened HistoricalFeeds

  /** All events of a data set. */
  ghost function Events(ds: Dataset): seq<FeedEvent>
    requires Loadable(ds)
  {
    StartIsValid(ds);
    Drain(ds, Start(ds))
  }

  function Project(events: seq<FeedEvent>, key: SeriesKey): seq<Candle> {
    if events == [] then []
    else (if events[0].key == key then [events[0].candle] else []) + Project(events[1..], key)
  }

  // ----- every bar once, in order -----

  lemma {:induction false} DrainDeliversTheRest(ds: Dataset, s: FeedState, key: SeriesKey)
    requires WellFormed(ds, s)
    ensures Project(Drain(ds, s), key) == if key in ds.bars then ds.bars[key][s.cursor[key]..] else []
    decreases Remaining(ds, s.cursor, ds.keys)
  {
    hide WellFormedBut;
    hide Next;
    hide Drain;
    hide Remaining;
    hide Loadable;
    if s.heap == map[] {
      DrainEnds(ds, s);
    } else {
      var k, t := Earliest(s.heap), Next(ds, s).1;
      DrainStep(ds, s, k, t);
      DrainDeliversTheRest(ds, t, key);
      ProjectCons(Next(ds, s).0, Drain(ds, t), key);
      if key == k {
        TakeOne(ds.bars[key], s.cursor[key]);
      }
    }
  }

  lemma TakeOne<T>(xs: seq<T>, i: nat)
    requires i < |xs|
    ensures xs[i..] == [xs[i]] + xs[i + 1..]
  {
  }

  lemma ProjectCons(e: FeedEvent, rest: seq<FeedEvent>, key: SeriesKey)
    ensures Project([e] + rest, key) == (if e.key == key then [e.candle] else []) + Project(rest, key)
  {
    assert ([e] + rest)[1..] == rest;
  }

  /** Restricted to one series the stream is exactly that series. */
  lemma EveryBarOnceInOrder(ds: Dataset, key: SeriesKey)
    requires Loadable(ds)
    ensures Project(Events(ds), key) == if key in ds.bars then ds.bars[key] else []
  {
    StartIsValid(ds);
    DrainDeliversTheRest(ds, Start(ds), key);
  }

  // ----- what the handlers get -----

  /** The handler calls a stretch of the stream causes. */
  function Deliveries(handlers: map<SeriesKey, nat>, events: seq<FeedEvent>): seq<(nat, Candle)> {
    if events == [] then []
    else
      var e := Last(events);
      Deliveries(handlers, Front(events)) + if e.key in handlers then [(handlers[e.key], e.candle)] else []
  }

  /** The bars one handler got. */
  function Heard(calls: seq<(nat, Candle)>, handler: nat): seq<Candle> {
    if calls == [] then []
    else Heard(Front(calls), handler) + if Last(calls).0 == handler then [Last(calls).1] else []
  }

  lemma HeardOneMore(calls: seq<(nat, Candle)>, call: (nat, Candle), handler: nat)
    ensures Heard(calls + [call], handler)
         == if call.0 == handler then Heard(calls, handler) + [call.1] else Heard(calls, handler)
  {
    assert Front(calls + [call]) == calls;
    EmptyUnits(Heard(calls, handler));
  }

  lemma {:induction false} ProjectSnoc(events: seq<FeedEvent>, e: FeedEvent, key: SeriesKey)
    ensures Project(events + [e], key)
         == if e.key == key then Project(events, key) + [e.candle] else Project(events, key)
  {
    if events == [] {
      assert [] + [e] == [e];
      assert Project([e][1..], key) == [];
    } else {
      assert (events + [e])[0] == events[0] && (events + [e])[1..] == events[1..] + [e];
      ProjectSnoc(events[1..], e, key);
    }
  }

  lemma DeliverOneMore(handlers: map<SeriesKey, nat>, events: seq<FeedEvent>, e: FeedEvent)
    ensures Deliveries(handlers, events + [e])
         == Deliveries(handlers, events) + if e.key in handlers then [(handlers[e.key], e.candle)] else []
  {
    assert Front(events + [e]) == events;
  }

  /** A handler subscribed to one series alone gets exactly that series' events. */
  lemma {:induction false} HeardIsProjected(handlers: map<SeriesKey, nat>, events: seq<FeedEvent>, key: SeriesKey)
    requires key in handlers && forall k :: k in handlers && k != key ==> handlers[k] != handlers[key]
    ensures Heard(Deliveries(handlers, events), handlers[key]) == Project(events, key)
  {
    hide Deliveries;
    hide Heard;
    hide Project;
    if events == [] {
      NothingHeard(handlers, key);
    } else {
      var front, e := Front(events), Last(events);
      assert events == front + [e];
      HeardIsProjected(handlers, front, key);
      DeliverOneMore(handlers, front, e);
      ProjectSnoc(front, e, key);
      if e.key in handlers {
        HeardOneMore(Deliveries(handlers, front), (handlers[e.key], e.candle), handlers[key]);
      } else {
        EmptyUnits(Deliveries(handlers, front));
      }
    }
  }

  lemma NothingHeard(handlers: map<SeriesKey, nat>, key: SeriesKey)
    requires key in handlers
    ensures Heard(Deliveries(handlers, []), handlers[key]) == [] == Project([], key)
    ensures Deliveries(handlers, []) == []
  {
  }

  /** Over the whole stream a handler subscribed to one series alone gets every bar
      of it, once, in order. */
  lemma HandlerHearsItsSeries(ds: Dataset, handlers: map<SeriesKey, nat>, key: SeriesKey)
    requires Loadable(ds) && key in handlers
    requires forall k :: k in handlers && k != key ==> handlers[k] != handlers[key]
    ensures Heard(Deliveries(handlers, Events(ds)), handlers[key]) == if key in ds.bars then ds.bars[key] else []
  {
    hide Events;
    HeardIsProjected(handlers, Events(ds), key);
    EveryBarOnceInOrder(ds, key);
  }

  // ----- the order -----

  predicate Timed(e: FeedEvent) {
    IsInterval(e.key.timeframe)
  }

  function EventClose(e: FeedEvent): int
    requires Timed(e)
  {
    CloseTs(e.candle, e.key.timeframe)
  }

  function EventLength(e: FeedEvent): int
    requires Timed(e)
  {
    Step(e.key.timeframe)
  }

  predicate NotAfter(close: int, length: int, e: FeedEvent)
    requires Timed(e)
  {
    close < EventClose(e) || (close == EventClose(e) && length <= EventLength(e))
  }

  /** Close time never decreases; at one close time shorter bars come first. */
  predicate InOrder(events: seq<FeedEvent>) {
    && (forall e :: e in events ==> Timed(e))
    && forall i, j :: 0 <= i < j < |events| ==> NotAfter(EventClose(events[i]), EventLength(events[i]), events[j])
  }

  /** No entry of the heap is before (close, length). */
  ghost predicate HeapFrom(heap: Heap, close: int, length: int) {
    forall k :: k in heap ==>
      close < heap[k].closeTs || (close == heap[k].closeTs && length <= heap[k].length)
  }

  lemma NextOnlyMovesOn(ds: Dataset, s: FeedState)
    requires WellFormed(ds, s) && s.heap != map[] && Ascending(ds)
    ensures var e := Next(ds, s).0;
            && Timed(e)
            && EventClose(e) == s.heap[e.key].closeTs && EventLength(e) == s.heap[e.key].length
            && HeapFrom(s.heap, EventClose(e), EventLength(e))
            && HeapFrom(Next(ds, s).1.heap, EventClose(e), EventLength(e))
  {
    var key := Earliest(s.heap);
    assert Queued(ds, s, key);
    var t := Next(ds, s).1;
    forall k | k in t.heap ensures k in s.heap && (k != key ==> t.heap[k] == s.heap[k]) {
    }
  }

  /** Every event after (close, length). */
  predicate From(events: seq<FeedEvent>, close: int, length: int) {
    forall e :: e in events ==> Timed(e) && NotAfter(close, length, e)
  }

  lemma {:induction false} DrainInOrder(ds: Dataset, s: FeedState, close: int, length: int)
    requires WellFormed(ds, s) && Ascending(ds) && HeapFrom(s.heap, close, length)
    ensures InOrder(Drain(ds, s)) && From(Drain(ds, s), close, length)
    decreases Remaining(ds, s.cursor, ds.keys)
  {
    hide WellFormedBut;
    hide Next;
    hide Drain;
    hide Remaining;
    hide Loadable;
    hide Ascending;
    hide InOrder;
    hide From;
    if s.heap == map[] {
      DrainEnds(ds, s);
      NoneInOrder(close, length);
    } else {
      var e, t := Next(ds, s).0, Next(ds, s).1;
      DrainStep(ds, s, Earliest(s.heap), t);
      NextOnlyMovesOn(ds, s);
      DrainInOrder(ds, t, EventClose(e), EventLength(e));
      InOrderCons(e, Drain(ds, t), close, length);
    }
  }

  lemma NoneInOrder(close: int, length: int)
    ensures InOrder([]) && From([], close, length)
  {
  }

  lemma InOrderCons(e: FeedEvent, rest: seq<FeedEvent>, close: int, length: int)
    requires Timed(e) && NotAfter(close, length, e)
    requires InOrder(rest) && From(rest, EventClose(e), EventLength(e))
    ensures InOrder([e] + rest) && From([e] + rest, close, length)
  {
  }

  lemma EventsInOrder(ds: Dataset)
    requires Loadable(ds) && Ascending(ds)
    ensures InOrder(Events(ds))
  {
    StartIsValid(ds);
    var s := Start(ds);
    if s.heap != map[] {
      NextOnlyMovesOn(ds, s);
      var e := Next(ds, s).0;
      DrainInOrder(ds, s, EventClose(e), EventLength(e));
    }
  }

  /** A bar is delivered only after every loaded shorter bar inside its span. */
  lemma ContainedBarsFirst(ds: Dataset, outer: nat, inner: nat)
    requires Loadable(ds) && Ascending(ds)
    requires outer < |Events(ds)| && inner < |Events(ds)|
    ensures Timed(Events(ds)[inner]) && Timed(Events(ds)[outer])
    ensures EventLength(Events(ds)[inner]) < EventLength(Events(ds)[outer])
         && EventClose(Events(ds)[inner]) <= EventClose(Events(ds)[outer])
        ==> inner < outer
  {
    EventsInOrder(ds);
  }

  // ----- independence from the order of the series -----

  /** What the stream is ordered by, event by event. */
  function Marks(events: seq<FeedEvent>): seq<(int, int)>
    requires forall e :: e in events ==> Timed(e)
  {
    seq(|events|, i requires 0 <= i < |events| => (EventClose(events[i]), EventLength(events[i])))
  }

  lemma {:induction false} CountInProjection(events: seq<FeedEvent>, e: FeedEvent)
    ensures multiset(events)[e] == multiset(Project(events, e.key))[e.candle]
  {
    hide Project;
    if events == [] {
      NothingProjected(e.key);
    } else {
      var head, tail := events[0], events[1..];
      assert events == [head] + tail;
      CountInProjection(tail, e);
      ProjectCons(head, tail, e.key);
      CountCons(head, tail, e);
      CountCons(head.candle, Project(tail, e.key), e.candle);
    }
  }

  lemma NothingProjected(key: SeriesKey)
    ensures Project([], key) == []
  {
  }

  lemma CountCons<T>(x: T, xs: seq<T>, y: T)
    ensures multiset([x] + xs)[y] == multiset(xs)[y] + if x == y then 1 else 0
  {
  }

  lemma SameProjectionsSameBag(a: seq<FeedEvent>, b: seq<FeedEvent>)
    requires forall k :: Project(a, k) == Project(b, k)
    ensures multiset(a) == multiset(b)
  {
    forall e ensures multiset(a)[e] == multiset(b)[e] {
      CountInProjection(a, e);
      CountInProjection(b, e);
      assert Project(a, e.key) == Project(b, e.key);
    }
  }

  lemma {:induction false} SameBagSameMarks(a: seq<FeedEvent>, b: seq<FeedEvent>)
    requires InOrder(a) && InOrder(b) && multiset(a) == multiset(b)
    ensures Marks(a) == Marks(b)
    decreases |a|
  {
    if a == [] {
      assert |multiset(b)| == 0;
    } else {
      var k := SameHead(a, b);
      SameBagWithoutHead(a, b, k);
      WithoutInOrder(b, k);
      SameBagSameMarks(a[1..], Without(b, k));
      MarksWithout(a, b, k);
    }
  }

  /** The least events of two ordered lists of the same events have one mark. */
  lemma SameHead(a: seq<FeedEvent>, b: seq<FeedEvent>) returns (k: nat)
    requires InOrder(a) && InOrder(b) && multiset(a) == multiset(b) && a != []
    ensures k < |b| && b[k] == a[0]
    ensures forall i :: 0 <= i <= k ==> EventClose(b[i]) == EventClose(a[0]) && EventLength(b[i]) == EventLength(a[0])
  {
    assert a[0] in multiset(b);
    assert |a| == |multiset(a)| == |b|;
    assert b[0] in multiset(a);
    k :| 0 <= k < |b| && b[k] == a[0];
    var m :| 0 <= m < |a| && a[m] == b[0];
    assert m > 0 ==> NotAfter(EventClose(a[0]), EventLength(a[0]), a[m]);
    assert k > 0 ==> NotAfter(EventClose(b[0]), EventLength(b[0]), b[k]);
    forall i | 0 < i < k ensures EventClose(b[i]) == EventClose(a[0]) && EventLength(b[i]) == EventLength(a[0]) {
      assert NotAfter(EventClose(b[0]), EventLength(b[0]), b[i]);
      assert NotAfter(EventClose(b[i]), EventLength(b[i]), b[k]);
    }
  }

  lemma SameBagWithoutHead(a: seq<FeedEvent>, b: seq<FeedEvent>, k: nat)
    requires multiset(a) == multiset(b) && a != [] && k < |b| && b[k] == a[0]
    ensures multiset(a[1..]) == multiset(Without(b, k))
  {
    assert multiset(a[1..]) == multiset(a) - multiset{a[0]} by {
      assert a == [a[0]] + a[1..];
    }
    assert multiset(Without(b, k)) == multiset(b) - multiset{b[k]} by {
      assert b == b[..k] + [b[k]] + b[k + 1..];
    }
  }

  lemma MarksWithout(a: seq<FeedEvent>, b: seq<FeedEvent>, k: nat)
    requires (forall e :: e in a ==> Timed(e)) && (forall e :: e in b ==> Timed(e))
    requires a != [] && k < |b|
    requires forall e :: e in Without(b, k) ==> Timed(e)
    requires forall i :: 0 <= i <= k ==> EventClose(b[i]) == EventClose(a[0]) && EventLength(b[i]) == EventLength(a[0])
    requires Marks(a[1..]) == Marks(Without(b, k))
    ensures Marks(a) == Marks(b)
  {
    assert |Marks(a[1..])| == |Marks(Without(b, k))|;
    forall i | 0 < i < |a| ensures Marks(a)[i] == Marks(b)[i] {
      assert Marks(a)[i] == Marks(a[1..])[i - 1] == Marks(Without(b, k))[i - 1];
    }
  }

  function Without<T>(s: seq<T>, i: nat): (r: seq<T>)
    requires i < |s|
    ensures |r| == |s| - 1
    ensures forall j :: 0 <= j < |r| ==> r[j] == if j < i then s[j] else s[j + 1]
  {
    s[..i] + s[i + 1..]
  }

  lemma WithoutInOrder(s: seq<FeedEvent>, k: nat)
    requires InOrder(s) && k < |s|
    ensures InOrder(Without(s, k))
  {
    forall e | e in Without(s, k) ensures e in s {
    }
  }

  /** Whatever order the series mapping lists them in, the sequence of
      (close time, interval length) is the same, and so is the bag of events. */
  lemma SeriesOrderDoesNotMatter(a: Dataset, b: Dataset)
    requires Loadable(a) && Loadable(b) && Ascending(a) && Ascending(b)
    requires a.bars == b.bars
    ensures multiset(Events(a)) == multiset(Events(b))
    ensures (forall e :: e in Events(a) ==> Timed(e)) && (forall e :: e in Events(b) ==> Timed(e))
    ensures Marks(Events(a)) == Marks(Events(b))
  {
    EventsInOrder(a);
    EventsInOrder(b);
    forall k ensures Project(Events(a), k) == Project(Events(b), k) {
      EveryBarOnceInOrder(a, k);
      EveryBarOnceInOrder(b, k);
    }
    SameProjectionsSameBag(Events(a), Events(b));
    SameBagSameMarks(Events(a), Events(b));
  }
}
