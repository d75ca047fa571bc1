/** As long as the connection counter does not return to zero, no run of the
    reconnect machine publishes over an unfilled hole. */
module ReconnectSafety {
  import opened Common
  import opened Backfills
  import opened BackfillRecovery
  import opened GapFillStreams

  // ----- reading the log -----

  /** The last gap-fill asked for failed. */
  predicate HaltedAfter(log: seq<Effect>) {
    log != [] && (Last(log).FillFailed? || (!Last(log).Filled? && HaltedAfter(Front(log))))
  }

  /** The bar published last. */
  function LastPublished(log: seq<Effect>): (r: Option<Effect>)
    ensures r.Some? ==> r.value.Published?
  {
    if log == [] then None
    else if Last(log).Published? then Some(Last(log))
    else LastPublished(Front(log))
  }

  /** The last successful gap-fill since the bar published last. */
  function FilledSince(log: seq<Effect>): (r: Option<Effect>)
    ensures r.Some? ==> r.value.Filled?
  {
    if log == [] || Last(log).Published? then None
    else if Last(log).Filled? then Some(Last(log))
    else FilledSince(Front(log))
  }

  function Failures(log: seq<Effect>): nat {
    if log == [] then 0 else Failures(Front(log)) + if Last(log).FillFailed? then 1 else 0
  }

  /** Bars go out exactly when not halted, and a gap-fill starts at the bar
      published last. */
  predicate Apt(e: Effect, before: seq<Effect>) {
    match e
    case Published(_, _, _) => !HaltedAfter(before)
    case Dropped(_, _, _) => HaltedAfter(before)
    case Filled(from, _, _) => LastPublished(before).Some? && from == LastPublished(before).value.openTime
    case FillFailed(from, _, _) => LastPublished(before).Some? && from == LastPublished(before).value.openTime
  }

  /** Every effect was in order when it happened. */
  predicate Orderly(log: seq<Effect>) {
    log == [] || (Orderly(Front(log)) && Apt(Last(log), Front(log)))
  }

  lemma Snoc(log: seq<Effect>, e: Effect)
    ensures Front(log + [e]) == log && Last(log + [e]) == e
  {
  }

  // ----- the invariant -----

  /** The fields say what the log says. */
  predicate Invariant(s: State) {
    && Orderly(s.log)
    && s.halted == HaltedAfter(s.log)
    && s.failures == Failures(s.log)
    && s.lastKnown == (if LastPublished(s.log).Some? then Some(LastPublished(s.log).value.openTime) else None)
  }

  lemma ReconnectedKeeps(s: State, now: int, restWorks: bool)
    requires Orderly(s.log) && s.halted == HaltedAfter(s.log) && s.failures == Failures(s.log)
    requires s.lastKnown == (if LastPublished(s.log).Some? then Some(LastPublished(s.log).value.openTime) else None)
    requires s.lastKnown == None ==> s.log == []
    ensures Invariant(Reconnected(s, now, restWorks))
  {
    match s.lastKnown
    case None => EmptyLog();
    case Some(from) =>
      Snoc(s.log, Filled(from, now, s.seen));
      Snoc(s.log, FillFailed(from, now, s.seen));
  }

  lemma EmptyLog()
    ensures Orderly([]) && !HaltedAfter([])
  {
  }

  /** Nothing at all has happened before the first bar is published. */
  predicate Started(s: State) {
    s.lastKnown == None ==> s.log == []
  }

  lemma ConnectedKeeps(s: State, a: Arrival)
    requires Invariant(s) && Started(s)
    ensures Invariant(Connected(s, a)) && Started(Connected(s, a))
  {
    if a.attempts != s.seen && s.seen != 0 {
      ReconnectedKeeps(s.(seen := a.attempts), a.now, a.restWorks);
    }
  }

  lemma ReceivedKeeps(s: State, frame: Frame)
    requires Invariant(s) && Started(s)
    ensures Invariant(Received(s, frame)) && Started(Received(s, frame))
  {
    if frame.Closed? {
      Snoc(s.log, Dropped(frame.openTime, frame.data, s.seen));
      Snoc(s.log, Published(frame.openTime, frame.data, s.seen));
    }
  }

  /** ... kept by every message, so it holds after every run. */
  lemma {:induction false} EveryRunKeeps(arrivals: seq<Arrival>)
    ensures Invariant(Run(arrivals)) && Started(Run(arrivals))
  {
    hide Invariant;
    if arrivals == [] {
      StartKeeps();
    } else {
      var before := arrivals[..|arrivals| - 1];
      var a := arrivals[|arrivals| - 1];
      EveryRunKeeps(before);
      ConnectedKeeps(Run(before), a);
      ReceivedKeeps(Connected(Run(before), a), a.frame);
    }
  }

  lemma StartKeeps()
    ensures Invariant(START) && Started(START)
  {
  }

  // ----- what the log readers mean -----

  lemma FrontTake(log: seq<Effect>, n: nat)
    requires n < |log|
    ensures Front(log)[..n] == log[..n] && Front(log[..n + 1]) == log[..n] && Last(log[..n + 1]) == log[n]
  {
  }

  lemma {:induction false} OrderlyAt(log: seq<Effect>, n: nat)
    requires Orderly(log) && n < |log|
    ensures Apt(log[n], log[..n])
  {
    hide Apt;
    FrontTake(log, n);
    if n < |log| - 1 {
      OrderlyAt(Front(log), n);
    }
  }

  lemma {:induction false} LastPublishedAt(log: seq<Effect>, i: nat)
    requires i < |log| && log[i].Published? && forall m :: i < m < |log| ==> !log[m].Published?
    ensures LastPublished(log) == Some(log[i])
  {
    if i < |log| - 1 {
      LastPublishedAt(Front(log), i);
    }
  }

  lemma {:induction false} LastPublishedIndex(log: seq<Effect>) returns (i: nat)
    requires LastPublished(log).Some?
    ensures i < |log| && LastPublished(log) == Some(log[i]) && forall m :: i < m < |log| ==> !log[m].Published?
  {
    if Last(log).Published? {
      i := |log| - 1;
    } else {
      i := LastPublishedIndex(Front(log));
    }
  }

  /** A halt lasts until a gap-fill succeeds. */
  lemma {:induction false} HaltLasts(log: seq<Effect>, d: nat, n: nat)
    requires d <= n <= |log| && HaltedAfter(log[..d]) && forall m :: d <= m < n ==> !log[m].Filled?
    ensures HaltedAfter(log[..n])
    decreases n
  {
    if d < n {
      HaltLasts(log, d, n - 1);
      FrontTake(log, n - 1);
    }
  }

  // ----- the guarantees -----

  /** Nothing is forwarded while halted: after a failed gap-fill, no bar is
      published before a gap-fill has succeeded. */
  lemma NothingForwardedWhileHalted(arrivals: seq<Arrival>, f: nat, j: nat) returns (m: nat)
    requires f < j < |Run(arrivals).log| && Run(arrivals).log[f].FillFailed? && Run(arrivals).log[j].Published?
    ensures f < m < j && Run(arrivals).log[m].Filled?
  {
    hide Run;
    EveryRunKeeps(arrivals);
    var log := Run(arrivals).log;
    OrderlyAt(log, j);
    FrontTake(log, f);
    if forall n :: f + 1 <= n < j ==> !log[n].Filled? {
      HaltLasts(log, f + 1, j);
      assert false;
    }
    m :| f + 1 <= m < j && log[m].Filled?;
  }

  /** Bars are dropped only while halted: the last gap-fill asked for failed. */
  lemma DroppedOnlyWhileHalted(arrivals: seq<Arrival>, d: nat)
    requires d < |Run(arrivals).log|
    ensures Run(arrivals).log[d].Dropped? ==> HaltedAfter(Run(arrivals).log[..d])
    ensures Run(arrivals).log[d].Published? ==> !HaltedAfter(Run(arrivals).log[..d])
  {
    hide Run;
    EveryRunKeeps(arrivals);
    OrderlyAt(Run(arrivals).log, d);
  }

  // ----- no hole behind a reconnect -----

  /** The hole between the bar published last and a connection g, if there may be
      one, has been filled for that connection, from that bar on. */
  predicate NoHole(log: seq<Effect>, g: nat) {
    match LastPublished(log)
    case None => true
    case Some(p) =>
      p.generation != g && p.generation != 0 ==>
        && FilledSince(log).Some?
        && FilledSince(log).value.from == p.openTime
        && FilledSince(log).value.conn == g
  }

  /** Once a connection has been counted the counter does not go back to zero: the
      client counts every attempt before it connects and never resets. */
  predicate Counted(arrivals: seq<Arrival>) {
    forall i, j :: 0 <= i < j < |arrivals| && arrivals[i].attempts != 0 ==> arrivals[j].attempts != 0
  }

  lemma {:induction false} SeenIsLast(arrivals: seq<Arrival>)
    ensures Run(arrivals).seen == if arrivals == [] then 0 else arrivals[|arrivals| - 1].attempts
  {
  }

  lemma NoHoleAfterFill(log: seq<Effect>, till: int, g: nat)
    requires LastPublished(log).Some?
    ensures NoHole(log + [Filled(LastPublished(log).value.openTime, till, g)], g)
  {
    Snoc(log, Filled(LastPublished(log).value.openTime, till, g));
  }

  /** While not halted, no hole lies behind the connection at hand. */
  ghost predicate NoOpenHole(s: State) {
    && (!s.halted ==> NoHole(s.log, s.seen))
    && (s.seen == 0 && LastPublished(s.log).Some? ==> LastPublished(s.log).value.generation == 0)
  }

  lemma ConnectedOpensNoHole(s: State, a: Arrival)
    requires Invariant(s) && Started(s) && NoOpenHole(s)
    requires s.seen != 0 ==> a.attempts != 0
    ensures NoOpenHole(Connected(s, a))
  {
    if a.attempts != s.seen && s.seen != 0 && s.lastKnown.Some? {
      Snoc(s.log, Filled(s.lastKnown.value, a.now, a.attempts));
      Snoc(s.log, FillFailed(s.lastKnown.value, a.now, a.attempts));
      NoHoleAfterFill(s.log, a.now, a.attempts);
    }
  }

  lemma ReceivedOpensNoHole(s: State, frame: Frame)
    requires NoOpenHole(s)
    ensures NoOpenHole(Received(s, frame))
  {
    if frame.Closed? {
      Snoc(s.log, Dropped(frame.openTime, frame.data, s.seen));
      Snoc(s.log, Published(frame.openTime, frame.data, s.seen));
    }
  }

  /** After every run: unless halted, the hole behind the bar published last has
      been filled for the very connection at hand. */
  lemma {:induction false} NoHoleIsOpen(arrivals: seq<Arrival>)
    requires Counted(arrivals)
    ensures NoOpenHole(Run(arrivals))
  {
    hide Invariant;
    hide NoOpenHole;
    if arrivals == [] {
      NoHoleAtStart();
    } else {
      var before := arrivals[..|arrivals| - 1];
      var a := arrivals[|arrivals| - 1];
      EveryRunKeeps(before);
      SeenIsLast(before);
      NoHoleIsOpen(before);
      ConnectedOpensNoHole(Run(before), a);
      ReceivedOpensNoHole(Connected(Run(before), a), a.frame);
    }
  }

  lemma NoHoleAtStart()
    ensures NoOpenHole(START)
  {
  }

  // ----- which message made an effect -----

  /** The log once the first n messages are handled. */
  function LogUpTo(arrivals: seq<Arrival>, n: nat): seq<Effect>
    requires n <= |arrivals|
  {
    Run(arrivals[..n]).log
  }

  lemma RunOneMore(arrivals: seq<Arrival>, n: nat)
    requires n < |arrivals|
    ensures Run(arrivals[..n + 1]) == Handle(Run(arrivals[..n]), arrivals[n])
  {
    assert arrivals[..n + 1][..n] == arrivals[..n];
  }

  /** The gap-fill a message asks for, if any. */
  function FillOf(s: State, a: Arrival): seq<Effect> {
    if a.attempts == s.seen || s.seen == 0 || s.lastKnown == None then []
    else if a.restWorks then [Filled(s.lastKnown.value, a.now, a.attempts)]
    else [FillFailed(s.lastKnown.value, a.now, a.attempts)]
  }

  lemma ConnectedAdds(s: State, a: Arrival)
    ensures Connected(s, a).log == s.log + FillOf(s, a) && Connected(s, a).seen == a.attempts
  {
    assert s.log + [] == s.log;
  }

  lemma ReceivedAdds(s: State, frame: Frame) returns (bar: seq<Effect>)
    ensures Received(s, frame).log == s.log + bar && Received(s, frame).seen == s.seen
    ensures |bar| <= 1 && forall m :: 0 <= m < |bar| ==> IsBar(bar[m]) && bar[m].generation == s.seen
  {
    bar := [];
    assert s.log + [] == s.log;
    if frame.Closed? {
      bar := [if s.halted then Dropped(frame.openTime, frame.data, s.seen)
              else Published(frame.openTime, frame.data, s.seen)];
    }
  }

  /** A message adds at most a gap-fill, and then at most a bar of its own
      connection. */
  lemma MessageAdds(s: State, a: Arrival) returns (added: seq<Effect>)
    ensures Handle(s, a).log == s.log + added && Handle(s, a).seen == a.attempts
    ensures |added| <= |FillOf(s, a)| + 1 && FillOf(s, a) <= added
    ensures forall m :: |FillOf(s, a)| <= m < |added| ==> IsBar(added[m]) && added[m].generation == a.attempts
  {
    hide Connected;
    hide Received;
    hide FillOf;
    ConnectedAdds(s, a);
    var bar := ReceivedAdds(Connected(s, a), a.frame);
    added := FillOf(s, a) + bar;
    assert s.log + FillOf(s, a) + bar == s.log + added;
  }

  lemma LogGrows(arrivals: seq<Arrival>, n: nat) returns (added: seq<Effect>)
    requires n < |arrivals|
    ensures LogUpTo(arrivals, n + 1) == LogUpTo(arrivals, n) + added
  {
    RunOneMore(arrivals, n);
    added := MessageAdds(Run(arrivals[..n]), arrivals[n]);
  }

  lemma {:induction false} LogIsPrefix(arrivals: seq<Arrival>, n: nat)
    requires n <= |arrivals|
    ensures LogUpTo(arrivals, n) <= Run(arrivals).log
    decreases |arrivals| - n
  {
    hide Run;
    if n == |arrivals| {
      assert arrivals[..n] == arrivals;
    } else {
      var added := LogGrows(arrivals, n);
      LogIsPrefix(arrivals, n + 1);
    }
  }

  /** The message that made the j-th effect. */
  lemma {:induction false} MadeBy(arrivals: seq<Arrival>, j: nat) returns (m: nat)
    requires j < |Run(arrivals).log|
    ensures m < |arrivals| && |LogUpTo(arrivals, m)| <= j < |LogUpTo(arrivals, m + 1)|
  {
    m := |arrivals| - 1;
    assert arrivals[..m + 1] == arrivals;
    if j < |LogUpTo(arrivals, m)| {
      m := MadeBy(arrivals[..m], j);
      assert arrivals[..|arrivals| - 1][..m] == arrivals[..m];
      assert arrivals[..|arrivals| - 1][..m + 1] == arrivals[..m + 1];
    }
  }

  /** A bar is the last effect of its message and carries its connection. */
  lemma BarOfMessage(arrivals: seq<Arrival>, j: nat, m: nat)
    requires j < |Run(arrivals).log| && IsBar(Run(arrivals).log[j])
    requires m < |arrivals| && |LogUpTo(arrivals, m)| <= j < |LogUpTo(arrivals, m + 1)|
    ensures j == |LogUpTo(arrivals, m + 1)| - 1 && Run(arrivals).log[j].generation == arrivals[m].attempts
  {
    hide Run;
    hide Handle;
    RunOneMore(arrivals, m);
    LogIsPrefix(arrivals, m + 1);
    var added := MessageAdds(Run(arrivals[..m]), arrivals[m]);
    assert Run(arrivals).log[j] == added[j - |LogUpTo(arrivals, m)|];
  }

  /** Message c is the first of the connection that message m came over. */
  predicate FirstOfConnection(arrivals: seq<Arrival>, c: nat, m: nat)
    requires c <= m < |arrivals|
  {
    && (forall x :: c <= x <= m ==> arrivals[x].attempts == arrivals[m].attempts)
    && (c > 0 ==> arrivals[c - 1].attempts != arrivals[m].attempts)
  }

  lemma {:induction false} ConnectionStart(arrivals: seq<Arrival>, m: nat) returns (c: nat)
    requires m < |arrivals|
    ensures c <= m && FirstOfConnection(arrivals, c, m)
  {
    c := m;
    if m > 0 && arrivals[m - 1].attempts == arrivals[m].attempts {
      c := ConnectionStart(arrivals, m - 1);
    }
  }

  /** No gap-fill is asked for within a connection, after its first message. */
  lemma {:induction false} NoFillWithin(arrivals: seq<Arrival>, c: nat, m: nat, x: nat)
    requires c <= m < |arrivals| && FirstOfConnection(arrivals, c, m)
    requires |LogUpTo(arrivals, c + 1)| <= x < |LogUpTo(arrivals, m + 1)|
    ensures IsBar(LogUpTo(arrivals, m + 1)[x])
    decreases m
  {
    hide Run;
    hide Handle;
    RunOneMore(arrivals, m);
    SeenIsLast(arrivals[..m]);
    var added := MessageAdds(Run(arrivals[..m]), arrivals[m]);
    if m > c {
      if x < |LogUpTo(arrivals, m)| {
        NoFillWithin(arrivals, c, m - 1, x);
      } else {
        assert LogUpTo(arrivals, m + 1)[x] == added[x - |LogUpTo(arrivals, m)|];
      }
    }
  }

  /** The first message of a new connection asks for the gap-fill, up to its own
      arrival, from the bar published last. */
  lemma FirstMessageAsks(arrivals: seq<Arrival>, c: nat)
    requires 0 < c < |arrivals| && arrivals[c - 1].attempts !in {0, arrivals[c].attempts}
    requires LastPublished(LogUpTo(arrivals, c)).Some?
    ensures var k, from := |LogUpTo(arrivals, c)|, LastPublished(LogUpTo(arrivals, c)).value.openTime;
            && k < |LogUpTo(arrivals, c + 1)|
            && LogUpTo(arrivals, c + 1)[k]
               == if arrivals[c].restWorks then Filled(from, arrivals[c].now, arrivals[c].attempts)
                  else FillFailed(from, arrivals[c].now, arrivals[c].attempts)
  {
    hide Run;
    hide Handle;
    RunOneMore(arrivals, c);
    SeenIsLast(arrivals[..c]);
    EveryRunKeeps(arrivals[..c]);
    var added := MessageAdds(Run(arrivals[..c]), arrivals[c]);
    assert LogUpTo(arrivals, c + 1)[|LogUpTo(arrivals, c)|] == added[0];
  }

  lemma {:induction false} FailuresAreCounted(log: seq<Effect>)
    ensures Failures(log) == |set i | 0 <= i < |log| && log[i].FillFailed?|
  {
    var all := set i | 0 <= i < |log| && log[i].FillFailed?;
    if log == [] {
      NoElements(all);
    } else {
      var front, n := Front(log), |log| - 1;
      FailuresAreCounted(front);
      OneElementMore(all, (set i | 0 <= i < n && front[i].FillFailed?), n, log[n].FillFailed?);
    }
  }

  /** What one message of a run does, from what happened before it: it asks for a
      gap-fill exactly if the counter changed from a counted value and a bar has
      been published, and then from that bar to its own arrival; a closed bar is
      dropped exactly if the stream stands halted after that. The fields follow. */
  lemma MessageByMessage(arrivals: seq<Arrival>, n: nat)
    requires n < |arrivals|
    ensures var before, after, a := Run(arrivals[..n]), Run(arrivals[..n + 1]), arrivals[n];
            var last := LastPublished(before.log);
            var reconnects := n > 0 && arrivals[n - 1].attempts != 0 && arrivals[n - 1].attempts != a.attempts;
            var asks := reconnects && last.Some?;
            var halted := if asks then !a.restWorks else HaltedAfter(before.log);
            && after.log
               == before.log
                + (if !asks then []
                   else if a.restWorks then [Filled(last.value.openTime, a.now, a.attempts)]
                   else [FillFailed(last.value.openTime, a.now, a.attempts)])
                + (if !a.frame.Closed? then []
                   else if halted then [Dropped(a.frame.openTime, a.frame.data, a.attempts)]
                   else [Published(a.frame.openTime, a.frame.data, a.attempts)])
            && after.halted == halted && after.seen == a.attempts
            && after.lastKnown == (if a.frame.Closed? && !halted then Some(a.frame.openTime)
                                   else if last.Some? then Some(last.value.openTime) else None)
            && after.failures == |set i | 0 <= i < |after.log| && after.log[i].FillFailed?|
  {
    hide Run;
    hide Failures;
    hide Orderly;
    hide HaltedAfter;
    hide LastPublished;
    RunOneMore(arrivals, n);
    SeenIsLast(arrivals[..n]);
    EveryRunKeeps(arrivals[..n]);
    EveryRunKeeps(arrivals[..n + 1]);
    FailuresAreCounted(Run(arrivals[..n + 1]).log);
    EmptyIsNotHalted();
    EmptyUnits(Run(arrivals[..n]).log);
  }

  lemma EmptyIsNotHalted()
    ensures !HaltedAfter([]) && LastPublished([]) == None
  {
  }

  /** Between two consecutively published bars of different connections lies a
      successful gap-fill from exactly the earlier bar's open time to the arrival
      of the first message of the later bar's own connection: whatever the venue
      closed in between was asked for. Only a bar published before any connection
      was counted (generation 0, which the client never delivers) is exempt. */
  lemma ReconnectIsFilled(arrivals: seq<Arrival>, i: nat, j: nat) returns (k: nat, c: nat, m: nat)
    requires Counted(arrivals)
    requires i < j < |Run(arrivals).log| && Run(arrivals).log[i].Published? && Run(arrivals).log[j].Published?
    requires forall x :: i < x < j ==> !Run(arrivals).log[x].Published?
    requires Run(arrivals).log[i].generation != Run(arrivals).log[j].generation
    requires Run(arrivals).log[i].generation != 0
    ensures 0 < c <= m < |arrivals| && FirstOfConnection(arrivals, c, m) && j == |LogUpTo(arrivals, m + 1)| - 1
    ensures i < k < j && k == |LogUpTo(arrivals, c)|
    ensures Run(arrivals).log[k]
         == Filled(Run(arrivals).log[i].openTime, arrivals[c].now, Run(arrivals).log[j].generation)
  {
    hide Run;
    var log := Run(arrivals).log;
    m := MadeBy(arrivals, j);
    BarOfMessage(arrivals, j, m);
    c := ConnectionStart(arrivals, m);
    var p := MadeBy(arrivals, i);
    BarOfMessage(arrivals, i, p);
    if p > m {
      LogsAscend(arrivals, m + 1, p, p);
      assert false;
    }
    assert p < c;
    LogsAscend(arrivals, p + 1, c, m);
    k := |LogUpTo(arrivals, c)|;
    LogIsPrefix(arrivals, c);
    LogIsPrefix(arrivals, c + 1);
    LogIsPrefix(arrivals, m + 1);
    assert i < k && forall x :: 0 <= x < k ==> LogUpTo(arrivals, c)[x] == log[x];
    LastPublishedAt(LogUpTo(arrivals, c), i);
    assert arrivals[c - 1].attempts != 0;
    FirstMessageAsks(arrivals, c);
    assert log[k] == LogUpTo(arrivals, c + 1)[k];
    if log[k].FillFailed? {
      var f := NothingForwardedWhileHalted(arrivals, k, j);
      if f < |LogUpTo(arrivals, c + 1)| {
        FillsOncePerMessage(arrivals, c, k, f);
      } else {
        NoFillWithin(arrivals, c, m, f);
      }
      assert false;
    }
  }

  /** EXAMPLE: if the counter could fall back to zero, the next connection would not
      be taken for a reconnect and its bar would be published with no gap-fill of
      its own. */
  lemma BackToZeroSkipsTheFill(d: Ohlcv)
    ensures var bar1, ping := Arrival(Closed(0, d), 1, 5, true), Arrival(Unreadable, 2, 10, true);
            var back, bar3 := Arrival(Unreadable, 0, 20, true), Arrival(Closed(60, d), 3, 65, true);
            Run([bar1, ping, back, bar3]).log
            == [Published(0, d, 1), Filled(0, 10, 2), Filled(0, 20, 0), Published(60, d, 3)]
  {
    var bar1, ping := Arrival(Closed(0, d), 1, 5, true), Arrival(Unreadable, 2, 10, true);
    var back, bar3 := Arrival(Unreadable, 0, 20, true), Arrival(Closed(60, d), 3, 65, true);
    var all := [bar1, ping, back, bar3];
    assert Run(all[..0]) == START;
    RunOneMore(all, 0);
    RunOneMore(all, 1);
    RunOneMore(all, 2);
    RunOneMore(all, 3);
    assert all[..4] == all;
  }

  lemma FillsOncePerMessage(arrivals: seq<Arrival>, n: nat, k: nat, f: nat)
    requires n < |arrivals| && k == |LogUpTo(arrivals, n)| && k < f < |LogUpTo(arrivals, n + 1)|
    ensures IsBar(LogUpTo(arrivals, n + 1)[f])
  {
    hide Run;
    hide Handle;
    RunOneMore(arrivals, n);
    var added := MessageAdds(Run(arrivals[..n]), arrivals[n]);
    assert LogUpTo(arrivals, n + 1)[f] == added[f - k];
  }

  lemma {:induction false} LogsAscend(arrivals: seq<Arrival>, a: nat, b: nat, c: nat)
    requires a <= |arrivals| && b <= |arrivals| && c <= |arrivals|
    ensures a <= b ==> |LogUpTo(arrivals, a)| <= |LogUpTo(arrivals, b)|
    ensures b <= c ==> |LogUpTo(arrivals, b)| <= |LogUpTo(arrivals, c)|
  {
    hide Run;
    if a <= b {
      LogIsPrefix(arrivals[..b], a);
      assert arrivals[..b][..a] == arrivals[..a];
    }
    if b <= c {
      LogIsPrefix(arrivals[..c], b);
      assert arrivals[..c][..b] == arrivals[..b];
    }
  }

  // ----- every closed bar is published or dropped, in order -----

  datatype Bar = Bar(openTime: int, data: Ohlcv, generation: nat)

  function BarsOf(log: seq<Effect>): seq<Bar> {
    if log == [] then []
    else
      BarsOf(Front(log)) +
      match Last(log)
      case Published(t, d, g) => [Bar(t, d, g)]
      case Dropped(t, d, g) => [Bar(t, d, g)]
      case _ => []
  }

  function BarIn(frame: Frame, generation: nat): seq<Bar> {
    if frame.Closed? then [Bar(frame.openTime, frame.data, generation)] else []
  }

  function ClosedBars(arrivals: seq<Arrival>): seq<Bar> {
    if arrivals == [] then []
    else
      var a := arrivals[|arrivals| - 1];
      ClosedBars(arrivals[..|arrivals| - 1]) + BarIn(a.frame, a.attempts)
  }

  lemma {:induction false} EveryClosedBarIsLogged(arrivals: seq<Arrival>)
    ensures BarsOf(Run(arrivals).log) == ClosedBars(arrivals)
  {
    hide Connected;
    hide Received;
    hide BarsOf;
    hide BarIn;
    if arrivals == [] {
      NoBars();
    } else {
      var before := arrivals[..|arrivals| - 1];
      var a := arrivals[|arrivals| - 1];
      EveryClosedBarIsLogged(before);
      ConnectedLogsNoBar(Run(before), a);
      ReceivedLogsTheBar(Connected(Run(before), a), a.frame);
    }
  }

  lemma NoBars()
    ensures BarsOf(START.log) == []
  {
  }

  lemma ReceivedLogsTheBar(s: State, frame: Frame)
    ensures BarsOf(Received(s, frame).log) == BarsOf(s.log) + BarIn(frame, s.seen)
  {
    if frame.Closed? {
      Snoc(s.log, Dropped(frame.openTime, frame.data, s.seen));
      Snoc(s.log, Published(frame.openTime, frame.data, s.seen));
    }
  }

  lemma ConnectedLogsNoBar(s: State, a: Arrival)
    ensures BarsOf(Connected(s, a).log) == BarsOf(s.log) && Connected(s, a).seen == a.attempts
  {
    if s.lastKnown.Some? {
      Snoc(s.log, Filled(s.lastKnown.value, a.now, a.attempts));
      Snoc(s.log, FillFailed(s.lastKnown.value, a.now, a.attempts));
    }
  }

  // ----- what a halt drops is filled -----

  /** Open times never decrease and never exceed the clock, which never goes
      back. */
  predicate Timely(arrivals: seq<Arrival>) {
    && (forall i, j :: 0 <= i < j < |arrivals| ==> arrivals[i].now <= arrivals[j].now)
    && (forall i :: 0 <= i < |arrivals| && arrivals[i].frame.Closed? ==> arrivals[i].frame.openTime <= arrivals[i].now)
    && (forall i, j :: 0 <= i < j < |arrivals| && arrivals[i].frame.Closed? && arrivals[j].frame.Closed? ==>
          arrivals[i].frame.openTime <= arrivals[j].frame.openTime)
  }

  predicate IsBar(e: Effect) {
    e.Published? || e.Dropped?
  }

  /** No bar in the log opens after t. */
  predicate NoneAfter(log: seq<Effect>, t: int) {
    forall m :: 0 <= m < |log| && IsBar(log[m]) ==> log[m].openTime <= t
  }

  /** A bar no earlier than the bars before it, a gap-fill that reaches beyond
      them. */
  predicate NoEarlier(e: Effect, before: seq<Effect>) {
    match e
    case Published(t, _, _) => NoneAfter(before, t)
    case Dropped(t, _, _) => NoneAfter(before, t)
    case Filled(_, till, _) => NoneAfter(before, till)
    case FillFailed(_, _, _) => true
  }

  /** Bars ascend, and a gap-fill reaches beyond every bar before it. */
  predicate Ascends(log: seq<Effect>) {
    log == [] || (Ascends(Front(log)) && NoEarlier(Last(log), Front(log)))
  }

  lemma NoneAfterSnoc(log: seq<Effect>, e: Effect, t: int)
    ensures NoneAfter(log + [e], t) <==> NoneAfter(log, t) && (IsBar(e) ==> e.openTime <= t)
  {
    if NoneAfter(log + [e], t) {
      forall m | 0 <= m < |log| && IsBar(log[m]) ensures log[m].openTime <= t {
        assert (log + [e])[m] == log[m];
      }
      assert (log + [e])[|log|] == e;
    }
  }

  lemma TimelyPrefix(arrivals: seq<Arrival>)
    requires Timely(arrivals) && arrivals != []
    ensures Timely(arrivals[..|arrivals| - 1])
  {
  }

  /** The latest closed bar's open time and the clock bound the log. */
  lemma {:induction false} TimelyRunAscends(arrivals: seq<Arrival>, now: int, latest: int)
    requires Timely(arrivals)
    requires forall i :: 0 <= i < |arrivals| ==> arrivals[i].now <= now
    requires forall i :: 0 <= i < |arrivals| && arrivals[i].frame.Closed? ==> arrivals[i].frame.openTime <= latest
    ensures Ascends(Run(arrivals).log) && NoneAfter(Run(arrivals).log, now) && NoneAfter(Run(arrivals).log, latest)
  {
    if arrivals != [] {
      var before := arrivals[..|arrivals| - 1];
      var a := arrivals[|arrivals| - 1];
      var s := Run(before);
      assert Timely(before) by {
        TimelyPrefix(arrivals);
      }
      TimelyRunAscends(before, a.now, latest);
      TimelyRunAscends(before, now, if a.frame.Closed? then a.frame.openTime else latest);
      MessageAscends(s, a, now);
      MessageAscends(s, a, latest);
    }
  }

  lemma AppendKeepsAscent(log: seq<Effect>, e: Effect, bound: int)
    requires Ascends(log) && NoneAfter(log, bound)
    requires IsBar(e) ==> NoneAfter(log, e.openTime) && e.openTime <= bound
    requires e.Filled? ==> NoneAfter(log, e.till)
    ensures Ascends(log + [e]) && NoneAfter(log + [e], bound)
  {
    hide NoneAfter;
    Snoc(log, e);
    NoneAfterSnoc(log, e, bound);
  }

  lemma ConnectedAscends(s: State, a: Arrival, bound: int)
    requires Ascends(s.log) && NoneAfter(s.log, a.now) && NoneAfter(s.log, bound)
    ensures Ascends(Connected(s, a).log) && NoneAfter(Connected(s, a).log, bound)
  {
    hide NoneAfter;
    hide Ascends;
    if s.lastKnown.Some? {
      AppendKeepsAscent(s.log, Filled(s.lastKnown.value, a.now, a.attempts), bound);
      AppendKeepsAscent(s.log, FillFailed(s.lastKnown.value, a.now, a.attempts), bound);
    }
  }

  lemma ReceivedAscends(s: State, frame: Frame, bound: int)
    requires Ascends(s.log) && NoneAfter(s.log, bound)
    requires frame.Closed? ==> NoneAfter(s.log, frame.openTime) && frame.openTime <= bound
    ensures Ascends(Received(s, frame).log) && NoneAfter(Received(s, frame).log, bound)
  {
    hide NoneAfter;
    hide Ascends;
    if frame.Closed? {
      AppendKeepsAscent(s.log, if s.halted then Dropped(frame.openTime, frame.data, s.seen)
                               else Published(frame.openTime, frame.data, s.seen), bound);
    }
  }

  lemma MessageAscends(s: State, a: Arrival, bound: int)
    requires Ascends(s.log) && NoneAfter(s.log, a.now) && NoneAfter(s.log, bound)
    requires a.frame.Closed? ==> NoneAfter(s.log, a.frame.openTime) && a.frame.openTime <= bound
    ensures Ascends(Handle(s, a).log) && NoneAfter(Handle(s, a).log, bound)
  {
    hide NoneAfter;
    hide Ascends;
    hide Connected;
    hide Received;
    ConnectedAscends(s, a, bound);
    if a.frame.Closed? {
      ConnectedAscends(s, a, a.frame.openTime);
    }
    ReceivedAscends(Connected(s, a), a.frame, bound);
  }

  lemma {:induction false} AscendsAt(log: seq<Effect>, n: nat)
    requires Ascends(log) && n < |log|
    ensures NoEarlier(log[n], log[..n])
  {
    hide NoEarlier;
    FrontTake(log, n);
    if n < |log| - 1 {
      AscendsAt(Front(log), n);
    }
  }

  lemma {:induction false} FirstFill(log: seq<Effect>, d: nat, m: nat) returns (k: nat)
    requires d < m < |log| && log[m].Filled?
    ensures d < k <= m && log[k].Filled? && forall n :: d < n < k ==> !log[n].Filled?
    decreases m
  {
    if n :| d < n < m && log[n].Filled? {
      k := FirstFill(log, d, n);
    } else {
      k := m;
    }
  }

  /** The gap-fill that ends the halt in which a bar was dropped covers it. */
  lemma HaltIsCovered(log: seq<Effect>, d: nat, k: nat)
    requires Orderly(log) && Ascends(log)
    requires d < k < |log| && log[d].Dropped? && log[k].Filled? && forall n :: d < n < k ==> !log[n].Filled?
    ensures log[k].from <= log[d].openTime <= log[k].till
  {
    hide Orderly;
    hide Ascends;
    hide HaltedAfter;
    hide LastPublished;
    OrderlyAt(log, d);
    OrderlyAt(log, k);
    AscendsAt(log, d);
    AscendsAt(log, k);
    assert log[..k][d] == log[d];
    var i := LastPublishedIndex(log[..k]);
    assert log[..k][i] == log[i];
    if i > d {
      OrderlyAt(log, i);
      HaltLasts(log, d, i);
      assert false;
    }
    assert log[..d][i] == log[i];
  }

  /** Every bar dropped in a halt lies in the range of the gap-fill that ends it:
      no later bar is published before such a fill. */
  lemma DroppedBarIsCovered(arrivals: seq<Arrival>, d: nat, j: nat) returns (k: nat)
    requires Timely(arrivals)
    requires d < j < |Run(arrivals).log| && Run(arrivals).log[d].Dropped? && Run(arrivals).log[j].Published?
    ensures d < k < j && Run(arrivals).log[k].Filled?
    ensures Run(arrivals).log[k].from <= Run(arrivals).log[d].openTime <= Run(arrivals).log[k].till
  {
    hide Run;
    hide Timely;
    var log := Run(arrivals).log;
    EveryRunKeeps(arrivals);
    TimelyAscends(arrivals);
    OrderlyAt(log, j);
    OrderlyAt(log, d);
    if forall n :: d <= n < j ==> !log[n].Filled? {
      HaltLasts(log, d, j);
      assert false;
    }
    var m :| d <= m < j && log[m].Filled?;
    k := FirstFill(log, d, m);
    HaltIsCovered(log, d, k);
  }

  lemma TimelyAscends(arrivals: seq<Arrival>)
    requires Timely(arrivals)
    ensures Ascends(Run(arrivals).log)
  {
    if arrivals != [] {
      var n := |arrivals| - 1;
      var latest := LatestClosed(arrivals);
      TimelyRunAscends(arrivals, arrivals[n].now, latest);
    }
  }

  lemma {:induction false} LatestClosed(arrivals: seq<Arrival>) returns (latest: int)
    ensures forall i :: 0 <= i < |arrivals| && arrivals[i].frame.Closed? ==> arrivals[i].frame.openTime <= latest
  {
    if arrivals == [] {
      latest := 0;
    } else {
      latest := LatestClosed(arrivals[..|arrivals| - 1]);
      var a := arrivals[|arrivals| - 1];
      if a.frame.Closed? && a.frame.openTime > latest {
        latest := a.frame.openTime;
      }
    }
  }

  // ----- end to end -----

  /** The gap-fill as wired up: the REST backfill of the range, default chunk
      size. `template` names the venue, instrument, interval and source. */
  function FillJob(template: Job, from: int, till: int): Job {
    template.(rangeStart := from, rangeEnd := till, chunkSize := 1000)
  }

  /** A bar the stream dropped is in the candle table once the gap-fill that ends
      its halt has run, provided the venue has it. */
  lemma DroppedBarIsStored(arrivals: seq<Arrival>, d: nat, j: nat, db: Db, template: Job, history: seq<Kline>,
                           calledAt: int) returns (k: nat)
    requires Timely(arrivals) && Spaced(history, template.step)
    requires d < j < |Run(arrivals).log| && Run(arrivals).log[d].Dropped? && Run(arrivals).log[j].Published?
    requires VenueAt(history, Run(arrivals).log[d].openTime).Some?
    ensures d < k < j && Run(arrivals).log[k].Filled?
    ensures var fill := FillJob(template, Run(arrivals).log[k].from, Run(arrivals).log[k].till);
            var t := Run(arrivals).log[d].openTime;
            fill.Key() !in db.checkpoints ==>
              Stored(Backfill(db, fill, history, calledAt).candles, fill, t) == VenueAt(history, t)
  {
    hide Run;
    hide Timely;
    hide Backfill;
    hide Spaced;
    hide VenueAt;
    k := DroppedBarIsCovered(arrivals, d, j);
    var fill := FillJob(template, Run(arrivals).log[k].from, Run(arrivals).log[k].till);
    if fill.Key() !in db.checkpoints {
      CallStoresWholeRange(db, fill, history, calledAt);
    }
  }

  /** A bar missed across a reconnect, opening anywhere from the bar published last
      to the first message of the new connection, is in the candle table once that
      connection's gap-fill has run, provided the venue has it. */
  lemma MissedBarIsStored(arrivals: seq<Arrival>, i: nat, j: nat, t: int, db: Db, template: Job, history: seq<Kline>,
                          calledAt: int) returns (k: nat, c: nat, m: nat)
    requires Counted(arrivals) && Spaced(history, template.step) && VenueAt(history, t).Some?
    requires i < j < |Run(arrivals).log| && Run(arrivals).log[i].Published? && Run(arrivals).log[j].Published?
    requires forall x :: i < x < j ==> !Run(arrivals).log[x].Published?
    requires Run(arrivals).log[i].generation != Run(arrivals).log[j].generation
    requires Run(arrivals).log[i].generation != 0
    ensures 0 < c <= m < |arrivals| && FirstOfConnection(arrivals, c, m) && j == |LogUpTo(arrivals, m + 1)| - 1
    ensures i < k < j && Run(arrivals).log[k].Filled?
    ensures var fill := FillJob(template, Run(arrivals).log[k].from, Run(arrivals).log[k].till);
            Run(arrivals).log[i].openTime <= t <= arrivals[c].now && fill.Key() !in db.checkpoints ==>
              Stored(Backfill(db, fill, history, calledAt).candles, fill, t) == VenueAt(history, t)
  {
    hide Run;
    hide Backfill;
    hide Spaced;
    hide VenueAt;
    k, c, m := ReconnectIsFilled(arrivals, i, j);
    var fill := FillJob(template, Run(arrivals).log[k].from, Run(arrivals).log[k].till);
    if fill.Key() !in db.checkpoints {
      CallStoresWholeRange(db, fill, history, calledAt);
    }
  }
}
