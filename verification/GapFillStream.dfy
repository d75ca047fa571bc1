/** The reconnect wrapper around the candle stream: halt, fill over REST, resume
    (infrastructure/venues/binance/gap_fill_stream.py). */
module GapFillStreams {
  import opened Common
  import opened Backfills

  /** One text frame, as the inner stream reads it. */
  datatype Frame =
    | Closed(openTime: int, data: Ohlcv)
    | Partial(openTime: int, data: Ohlcv)
    | Unreadable

  /** A frame, the client's connection counter and the clock as it arrives, and
      what a REST gap-fill would come to if it were needed now. */
  datatype Arrival = Arrival(frame: Frame, attempts: nat, now: int, restWorks: bool)

  /** What the stream does, in order: gap-fills asked for, bars passed on to the
      bus, bars dropped. `generation` is the connection a bar came over, `conn` the
      one whose first message asked for the fill. */
  datatype Effect =
    | Filled(from: int, till: int, conn: nat)
    | FillFailed(from: int, till: int, conn: nat)
    | Published(openTime: int, data: Ohlcv, generation: nat)
    | Dropped(openTime: int, data: Ohlcv, generation: nat)

  datatype State = State(halted: bool, lastKnown: Option<int>, seen: nat, failures: nat, log: seq<Effect>)

  const START := State(false, None, 0, 0, [])

  function Reconnected(s: State, now: int, restWorks: bool): State {
    match s.lastKnown
    case None => s.(halted := false)
    case Some(from) =>
      if restWorks then s.(halted := false, log := s.log + [Filled(from, now, s.seen)])
      else s.(halted := true, failures := s.failures + 1, log := s.log + [FillFailed(from, now, s.seen)])
  }

  function Connected(s: State, a: Arrival): State {
    if a.attempts == s.seen then s
    else if s.seen == 0 then s.(seen := a.attempts)
    else Reconnected(s.(seen := a.attempts), a.now, a.restWorks)
  }

  function Received(s: State, frame: Frame): State {
    match frame
    case Closed(openTime, data) =>
      if s.halted then s.(log := s.log + [Dropped(openTime, data, s.seen)])
      else s.(lastKnown := Some(openTime), log := s.log + [Published(openTime, data, s.seen)])
    case _ => s
  }

  function Handle(s: State, a: Arrival): State {
    Received(Connected(s, a), a.frame)
  }

  function Run(arrivals: seq<Arrival>): State {
    if arrivals == [] then START else Handle(Run(arrivals[..|arrivals| - 1]), arrivals[|arrivals| - 1])
  }

  // ----- the objects -----

  class WebSocketClient {
    var connectionAttempts: nat

    constructor ()
      ensures connectionAttempts == 0
    {
      connectionAttempts := 0;
    }
  }

  datatype Error = NeverBound

  class GapFillingCandleStream {
    var client: WebSocketClient?
    var lastSeenConnectionAttempts: nat
    var halted: bool
    var lastKnownBarTs: Option<int>
    var gapFillFailures: nat
    /** What the bus and the REST side have seen. */
    var log: seq<Effect>

    constructor ()
      ensures client == null && Now() == START
    {
      client := null;
      lastSeenConnectionAttempts, gapFillFailures := 0, 0;
      halted, lastKnownBarTs, log := false, None, [];
    }

    function Now(): State
      reads this
    {
      State(halted, lastKnownBarTs, lastSeenConnectionAttempts, gapFillFailures, log)
    }

    method Bind(c: WebSocketClient)
      modifies this
      ensures client == c && Now() == old(Now())
    {
      client := c;
    }

    /** Called by the inner stream for every closed bar. */
    method Publish(openTime: int, data: Ohlcv)
      modifies this
      ensures client == old(client) && Now() == Received(old(Now()), Closed(openTime, data))
    {
      if halted {
        log := log + [Dropped(openTime, data, lastSeenConnectionAttempts)];
        return;
      }
      lastKnownBarTs := Some(openTime);
      log := log + [Published(openTime, data, lastSeenConnectionAttempts)];
    }

    method HandleReconnect(now: int, restWorks: bool)
      modifies this
      ensures client == old(client) && Now() == Reconnected(old(Now()), now, restWorks)
    {
      halted := true;
      if lastKnownBarTs == None {
        halted := false;
        return;
      }
      if !restWorks {
        log := log + [FillFailed(lastKnownBarTs.value, now, lastSeenConnectionAttempts)];
        gapFillFailures := gapFillFailures + 1;
        return;
      }
      log := log + [Filled(lastKnownBarTs.value, now, lastSeenConnectionAttempts)];
      halted := false;
    }

    method OnMessage(frame: Frame, now: int, restWorks: bool) returns (error: Option<Error>)
      modifies this
      ensures client == old(client)
      ensures error == if client == null then Some(NeverBound) else None
      ensures Now() == if client == null then old(Now())
                       else Handle(old(Now()), Arrival(frame, old(client.connectionAttempts), now, restWorks))
    {
      if client == null {
        return Some(NeverBound);
      }
      var currentAttempts := client.connectionAttempts;
      if currentAttempts != lastSeenConnectionAttempts {
        var isReconnect := lastSeenConnectionAttempts != 0;
        lastSeenConnectionAttempts := currentAttempts;
        if isReconnect {
          HandleReconnect(now, restWorks);
        }
      }
      if frame.Closed? {
        Publish(frame.openTime, frame.data);
      }
      error := None;
    }
  }
}
