/** The event-sourced order: its state machine, the payloads its events carry,
    and the fold that rebuilds it (domain/order.py). */
module Orders {
  import opened Common

  datatype OrderType = Market | Limit

  datatype TimeInForce = Gtc | Ioc | Fok

  datatype Status =
    | PendingNew | Sent | Acked | Rejected | Unknown
    | PartiallyFilled | Filled | PendingCancel | Canceled | Expired

  datatype EventType =
    | CreatedEvent | SentEvent | AckedEvent | RejectedEvent | UnknownEvent
    | PartiallyFilledEvent | FilledEvent | CancelRequestedEvent | CanceledEvent | ExpiredEvent

  // ----- the transition graph -----

  function LegalTargets(status: Status): set<Status> {
    match status
    case PendingNew => {Sent}
    case Sent => {Acked, Rejected, Unknown}
    case Acked => {PartiallyFilled, Filled, PendingCancel, Expired}
    case PartiallyFilled => {PartiallyFilled, Filled, PendingCancel, Expired}
    case PendingCancel => {Canceled, Filled, PartiallyFilled}
    case _ => {}
  }

  /** The graph read backwards, state by state: fills of either kind may come in
      every working state, a pending cancel included; a cancel only completes a
      pending one; an expiry ends acknowledged or partly filled orders. */
  lemma LegalSources(s: Status)
    ensures PendingNew !in LegalTargets(s)
    ensures Sent in LegalTargets(s) <==> s == PendingNew
    ensures Acked in LegalTargets(s) <==> s == Sent
    ensures Rejected in LegalTargets(s) <==> s == Sent
    ensures Unknown in LegalTargets(s) <==> s == Sent
    ensures PartiallyFilled in LegalTargets(s) <==> s in {Acked, PartiallyFilled, PendingCancel}
    ensures Filled in LegalTargets(s) <==> s in {Acked, PartiallyFilled, PendingCancel}
    ensures PendingCancel in LegalTargets(s) <==> s in {Acked, PartiallyFilled}
    ensures Expired in LegalTargets(s) <==> s in {Acked, PartiallyFilled}
    ensures Canceled in LegalTargets(s) <==> s == PendingCancel
    ensures LegalTargets(s) == {} <==> IsTerminal(s) || s == Unknown
  {
    assert s.Acked? || s.PartiallyFilled? || s.PendingNew? || s.PendingCancel? || s.Sent? ==> !IsTerminal(s);
  }

  predicate IsTerminal(status: Status) {
    status in {Filled, Canceled, Rejected, Expired}
  }

  /** None for the initial status, which no transition enters. */
  function EventTypeFor(status: Status): Option<EventType> {
    match status
    case PendingNew => None
    case Sent => Some(SentEvent)
    case Acked => Some(AckedEvent)
    case Rejected => Some(RejectedEvent)
    case Unknown => Some(UnknownEvent)
    case PartiallyFilled => Some(PartiallyFilledEvent)
    case Filled => Some(FilledEvent)
    case PendingCancel => Some(CancelRequestedEvent)
    case Canceled => Some(CanceledEvent)
    case Expired => Some(ExpiredEvent)
  }

  function StatusFor(eventType: EventType): Option<Status> {
    match eventType
    case CreatedEvent => None
    case SentEvent => Some(Sent)
    case AckedEvent => Some(Acked)
    case RejectedEvent => Some(Rejected)
    case UnknownEvent => Some(Unknown)
    case PartiallyFilledEvent => Some(PartiallyFilled)
    case FilledEvent => Some(Filled)
    case CancelRequestedEvent => Some(PendingCancel)
    case CanceledEvent => Some(Canceled)
    case ExpiredEvent => Some(Expired)
  }

  // ----- payloads -----

  /** A payload value of whatever Python type; the members of a StrEnum are
      strings too. */
  datatype Value =
    | None_
    | Text(text: string)
    | Uuid(uuid: nat)
    | Number(number: real)
    | SideValue(side: OrderSide)
    | TypeValue(orderType: OrderType)
    | TifValue(tif: TimeInForce)
    | Opaque(other: nat)

  datatype Kind = AStr | AUuid | ADecimal | ASide | AType | ATif

  predicate IsInstance(value: Value, kind: Kind) {
    match kind
    case AStr => value.Text? || value.SideValue? || value.TypeValue? || value.TifValue?
    case AUuid => value.Uuid?
    case ADecimal => value.Number?
    case ASide => value.SideValue?
    case AType => value.TypeValue?
    case ATif => value.TifValue?
  }

  /** The other way round: the members of an enumeration are strings too, nothing
      else has two types, and None has none. */
  lemma InstancesOf(value: Value, kind: Kind)
    ensures value == None_ || value.Opaque? ==> !IsInstance(value, kind)
    ensures value.Text? ==> (IsInstance(value, kind) <==> kind == AStr)
    ensures value.Uuid? ==> (IsInstance(value, kind) <==> kind == AUuid)
    ensures value.Number? ==> (IsInstance(value, kind) <==> kind == ADecimal)
    ensures value.SideValue? ==> (IsInstance(value, kind) <==> kind == ASide || kind == AStr)
    ensures value.TypeValue? ==> (IsInstance(value, kind) <==> kind == AType || kind == AStr)
    ensures value.TifValue? ==> (IsInstance(value, kind) <==> kind == ATif || kind == AStr)
  {
  }

  datatype Field =
    | ClientOrderId | VenueId | InstrumentId | StrategyInstanceId | RiskDecisionId
    | SideField | OrderTypeField | Qty | Tif | LimitPrice | ParentOrderId
    | Extra(name: string)

  type Payload = map<Field, Value>

  datatype Error =
    | EmptySequence
    | FirstNotCreated
    | FirstSeqNotOne
    | MissingField(field: Field)
    | WrongType(field: Field)
    | SequenceNotMonotonic(expected: int, got: int)
    | InvalidOrderTransition(current: Status, attempted: Status)
    | KeyError(eventType: EventType)

  function Require(payload: Payload, field: Field, kind: Kind): (r: Result<Value, Error>)
    ensures r.Ok? <==> field in payload && IsInstance(payload[field], kind)
    ensures r.Ok? ==> r.value == payload[field]
    ensures r.Err? ==> r.error == if field in payload then WrongType(field) else MissingField(field)
  {
    if field !in payload then Err(MissingField(field))
    else if !IsInstance(payload[field], kind) then Err(WrongType(field))
    else Ok(payload[field])
  }

  /** None if absent or None. */
  function RequireOptional(payload: Payload, field: Field, kind: Kind): (r: Result<Value, Error>)
    ensures r.Ok? <==> field in payload ==> payload[field] == None_ || IsInstance(payload[field], kind)
    ensures r.Ok? ==> r.value == if field in payload then payload[field] else None_
    ensures r.Err? ==> r.error == WrongType(field)
  {
    if field !in payload || payload[field] == None_ then Ok(None_)
    else if !IsInstance(payload[field], kind) then Err(WrongType(field))
    else Ok(payload[field])
  }

  // ----- events and orders -----

  datatype OrderEvent = OrderEvent(id: nat, orderId: nat, seqNo: int, eventType: EventType, ts: int, payload: Payload)

  /** What is fixed at birth, each in the Python type its annotation names. */
  datatype Terms = Terms(
    clientOrderId: Value, venueId: Value, instrumentId: Value, strategyInstanceId: Value, riskDecisionId: Value,
    side: Value, orderType: Value, qty: Value, tif: Value, limitPrice: Value, parentOrderId: Value)
  {
    predicate WellTyped() {
      && IsInstance(clientOrderId, AStr) && IsInstance(venueId, AUuid) && IsInstance(instrumentId, AUuid)
      && IsInstance(strategyInstanceId, AUuid) && IsInstance(riskDecisionId, AUuid)
      && IsInstance(side, ASide) && IsInstance(orderType, AType) && IsInstance(qty, ADecimal) && IsInstance(tif, ATif)
      && (limitPrice == None_ || IsInstance(limitPrice, ADecimal))
      && (parentOrderId == None_ || IsInstance(parentOrderId, AUuid))
    }

    function Encode(): Payload {
      map[ClientOrderId := clientOrderId, VenueId := venueId, InstrumentId := instrumentId,
          StrategyInstanceId := strategyInstanceId, RiskDecisionId := riskDecisionId,
          SideField := side, OrderTypeField := orderType, Qty := qty, Tif := tif,
          LimitPrice := limitPrice, ParentOrderId := parentOrderId]
    }
  }

  datatype Order = Order(id: nat, terms: Terms, status: Status, createdAt: int, updatedAt: int)

  predicate Holds(payload: Payload, field: Field, value: Value) {
    field in payload && payload[field] == value
  }

  /** Every term is the payload's entry under its own key; an optional one may be
      absent for None. */
  predicate ReadFrom(terms: Terms, payload: Payload) {
    && Holds(payload, ClientOrderId, terms.clientOrderId) && Holds(payload, VenueId, terms.venueId)
    && Holds(payload, InstrumentId, terms.instrumentId)
    && Holds(payload, StrategyInstanceId, terms.strategyInstanceId)
    && Holds(payload, RiskDecisionId, terms.riskDecisionId)
    && Holds(payload, SideField, terms.side) && Holds(payload, OrderTypeField, terms.orderType)
    && Holds(payload, Qty, terms.qty) && Holds(payload, Tif, terms.tif)
    && (Holds(payload, LimitPrice, terms.limitPrice) || (LimitPrice !in payload && terms.limitPrice == None_))
    && (|| Holds(payload, ParentOrderId, terms.parentOrderId)
        || (ParentOrderId !in payload && terms.parentOrderId == None_))
  }

  /** Decoding stops at the first field that fails. */
  function Decode(payload: Payload): (r: Result<Terms, Error>)
    ensures r.Ok? ==> r.value.WellTyped() && ReadFrom(r.value, payload)
    ensures r.Err? ==> r.error.MissingField? || r.error.WrongType?
  {
    var clientOrderId :- Require(payload, ClientOrderId, AStr);
    var venueId :- Require(payload, VenueId, AUuid);
    var instrumentId :- Require(payload, InstrumentId, AUuid);
    var strategyInstanceId :- Require(payload, StrategyInstanceId, AUuid);
    var riskDecisionId :- Require(payload, RiskDecisionId, AUuid);
    var side :- Require(payload, SideField, ASide);
    var orderType :- Require(payload, OrderTypeField, AType);
    var qty :- Require(payload, Qty, ADecimal);
    var tif :- Require(payload, Tif, ATif);
    var limitPrice :- RequireOptional(payload, LimitPrice, ADecimal);
    var parentOrderId :- RequireOptional(payload, ParentOrderId, AUuid);
    Ok(Terms(clientOrderId, venueId, instrumentId, strategyInstanceId, riskDecisionId,
             side, orderType, qty, tif, limitPrice, parentOrderId))
  }

  predicate Has(payload: Payload, field: Field, kind: Kind) {
    field in payload && IsInstance(payload[field], kind)
  }

  predicate MayHave(payload: Payload, field: Field, kind: Kind) {
    field in payload ==> payload[field] == None_ || IsInstance(payload[field], kind)
  }

  /** A payload decodes exactly if all nine required fields are there with their
      types and the two optional ones, if there, are None or well typed. */
  lemma DecodesIff(payload: Payload)
    ensures Decode(payload).Ok? <==>
              && Has(payload, ClientOrderId, AStr) && Has(payload, VenueId, AUuid) && Has(payload, InstrumentId, AUuid)
              && Has(payload, StrategyInstanceId, AUuid) && Has(payload, RiskDecisionId, AUuid)
              && Has(payload, SideField, ASide) && Has(payload, OrderTypeField, AType)
              && Has(payload, Qty, ADecimal) && Has(payload, Tif, ATif)
              && MayHave(payload, LimitPrice, ADecimal) && MayHave(payload, ParentOrderId, AUuid)
  {
    hide IsInstance;
  }

  /** Decoding fails at the first of the eleven fields, in this order, that is not
      as it must be, and says whether it is missing or mistyped. */
  lemma DecodeStopsAtTheFirst(payload: Payload) returns (i: nat)
    requires Decode(payload).Err?
    ensures var needed := [(ClientOrderId, AStr), (VenueId, AUuid), (InstrumentId, AUuid), (StrategyInstanceId, AUuid),
                           (RiskDecisionId, AUuid), (SideField, ASide), (OrderTypeField, AType), (Qty, ADecimal),
                           (Tif, ATif), (LimitPrice, ADecimal), (ParentOrderId, AUuid)];
            && i < 11
            && (forall j :: 0 <= j < i && j < 9 ==> Has(payload, needed[j].0, needed[j].1))
            && (i == 10 ==> MayHave(payload, LimitPrice, ADecimal))
            && (if i < 9 then !Has(payload, needed[i].0, needed[i].1) else !MayHave(payload, needed[i].0, needed[i].1))
            && Decode(payload).error
               == if needed[i].0 in payload then WrongType(needed[i].0) else MissingField(needed[i].0)
  {
    hide IsInstance;
    i := if !Has(payload, ClientOrderId, AStr) then 0
         else if !Has(payload, VenueId, AUuid) then 1
         else if !Has(payload, InstrumentId, AUuid) then 2
         else if !Has(payload, StrategyInstanceId, AUuid) then 3
         else if !Has(payload, RiskDecisionId, AUuid) then 4
         else if !Has(payload, SideField, ASide) then 5
         else if !Has(payload, OrderTypeField, AType) then 6
         else if !Has(payload, Qty, ADecimal) then 7
         else if !Has(payload, Tif, ATif) then 8
         else if !MayHave(payload, LimitPrice, ADecimal) then 9
         else 10;
  }

  function New(id: nat, terms: Terms, ts: int, eventId: nat): (Order, OrderEvent) {
    (Order(id, terms, PendingNew, ts, ts), OrderEvent(eventId, id, 1, CreatedEvent, ts, terms.Encode()))
  }

  function Transition(order: Order, target: Status, ts: int, seqNo: int, eventId: nat, payload: Option<Payload>)
    : (r: Result<(Order, OrderEvent), Error>)
    ensures r.Ok? <==> target in LegalTargets(order.status)
    ensures r.Err? ==> r.error == InvalidOrderTransition(order.status, target)
    ensures r.Ok? ==> r.value.0 == order.(status := target, updatedAt := ts)
    ensures r.Ok? ==>
      && StatusFor(r.value.1.eventType) == Some(target)
      && r.value.1.id == eventId && r.value.1.orderId == order.id && r.value.1.seqNo == seqNo && r.value.1.ts == ts
      && r.value.1.payload == if payload.Some? then payload.value else map[]
  {
    if target !in LegalTargets(order.status) then Err(InvalidOrderTransition(order.status, target))
    else
      Ok((order.(status := target, updatedAt := ts),
          OrderEvent(eventId, order.id, seqNo, EventTypeFor(target).value, ts,
                     if payload.Some? then payload.value else map[])))
  }

  // ----- rebuilding -----

  function Begin(first: OrderEvent): Result<Order, Error> {
    if first.eventType != CreatedEvent then Err(FirstNotCreated)
    else if first.seqNo != 1 then Err(FirstSeqNotOne)
    else
      var terms :- Decode(first.payload);
      Ok(New(first.orderId, terms, first.ts, first.id).0)
  }

  function Apply(order: Order, event: OrderEvent, expected: int): Result<Order, Error> {
    if event.seqNo != expected then Err(SequenceNotMonotonic(expected, event.seqNo))
    else if StatusFor(event.eventType).None? then Err(KeyError(event.eventType))
    else
      var moved :- Transition(order, StatusFor(event.eventType).value, event.ts, event.seqNo, event.id,
                              Some(event.payload));
      Ok(moved.0)
  }

  /** The order a log stands for, or why it stands for none. */
  function Rebuild(events: seq<OrderEvent>): Result<Order, Error> {
    if events == [] then Err(EmptySequence)
    else if |events| == 1 then Begin(events[0])
    else
      var order :- Rebuild(events[..|events| - 1]);
      Apply(order, events[|events| - 1], |events|)
  }

  lemma RebuildOneMore(events: seq<OrderEvent>, n: nat)
    requires 0 < n < |events|
    ensures Rebuild(events[..n + 1])
         == (if Rebuild(events[..n]).Err? then Rebuild(events[..n])
             else Apply(Rebuild(events[..n]).value, events[n], n + 1))
  {
    assert events[..n + 1][..n] == events[..n];
  }

  /** A log that fails keeps failing the same way however it continues; so every
      prefix of an accepted log is accepted. */
  lemma {:induction false} FailureIsFinal(events: seq<OrderEvent>, n: nat)
    requires 0 < n <= |events| && Rebuild(events[..n]).Err?
    ensures Rebuild(events) == Rebuild(events[..n])
    decreases |events| - n
  {
    hide Rebuild;
    hide Apply;
    if n < |events| {
      RebuildOneMore(events, n);
      FailureIsFinal(events, n + 1);
    } else {
      assert events[..n] == events;
    }
  }

  /** The order an accepted log stands for: every term is the created payload's entry
      under its own key, it was born with the first event and last updated with
      the last, whose type names its status. */
  lemma {:induction false} RebuiltOrderIs(events: seq<OrderEvent>)
    requires Rebuild(events).Ok?
    ensures events != []
    ensures var order, first, last := Rebuild(events).value, events[0], Last(events);
            && first.eventType == CreatedEvent && first.seqNo == 1 && ReadFrom(order.terms, first.payload)
            && order.terms.WellTyped()
            && order.id == first.orderId && order.createdAt == first.ts && order.updatedAt == last.ts
            && (|events| == 1 ==> order.status == PendingNew)
            && (|events| > 1 ==>
                  && last.seqNo == |events|
                  && (order.status == Sent <==> last.eventType == SentEvent)
                  && (order.status == Acked <==> last.eventType == AckedEvent)
                  && (order.status == Rejected <==> last.eventType == RejectedEvent)
                  && (order.status == Unknown <==> last.eventType == UnknownEvent)
                  && (order.status == PartiallyFilled <==> last.eventType == PartiallyFilledEvent)
                  && (order.status == Filled <==> last.eventType == FilledEvent)
                  && (order.status == PendingCancel <==> last.eventType == CancelRequestedEvent)
                  && (order.status == Canceled <==> last.eventType == CanceledEvent)
                  && (order.status == Expired <==> last.eventType == ExpiredEvent)
                  && order.status != PendingNew)
  {
    hide Decode;
    hide ReadFrom;
    hide IsInstance;
    if |events| > 1 {
      RebuiltOrderIs(events[..|events| - 1]);
    }
  }

  /** A log that is not accepted is rejected by its first event, or by the first that
      does not carry on from those before it. */
  lemma {:induction false} RejectedAtTheFirst(events: seq<OrderEvent>) returns (n: nat)
    requires Rebuild(events).Err? && events != []
    ensures n < |events|
    ensures n > 0 ==> Rebuild(events[..n]).Ok?
    ensures var error, e := Rebuild(events).error, events[n];
            if n == 0
            then
              && (e.eventType != CreatedEvent ==> error == FirstNotCreated)
              && (e.eventType == CreatedEvent && e.seqNo != 1 ==> error == FirstSeqNotOne)
              && (e.eventType == CreatedEvent && e.seqNo == 1 ==> Decode(e.payload) == Err(error))
            else
              var status := Rebuild(events[..n]).value.status;
              && (e.seqNo != n + 1 ==> error == SequenceNotMonotonic(n + 1, e.seqNo))
              && (e.seqNo == n + 1 && e.eventType == CreatedEvent ==> error == KeyError(CreatedEvent))
              && (e.seqNo == n + 1 && e.eventType != CreatedEvent ==>
                    && error.InvalidOrderTransition? && error.current == status
                    && error.attempted !in LegalTargets(status)
                    && StatusFor(e.eventType) == Some(error.attempted))
  {
    hide Decode;
    hide LegalTargets;
    var m := |events| - 1;
    n := 0;
    if m > 0 {
      if Rebuild(events[..m]).Err? {
        n := RejectedAtTheFirst(events[..m]);
        assert events[..m][..n] == events[..n] && events[..m][n] == events[n];
      } else {
        n := m;
      }
    }
  }

  method FromEvents(events: seq<OrderEvent>) returns (r: Result<Order, Error>)
    ensures r == Rebuild(events)
    ensures r.Ok? ==>
      && events != [] && events[0].eventType == CreatedEvent && events[0].seqNo == 1
      && r.value.id == events[0].orderId && ReadFrom(r.value.terms, events[0].payload)
      && r.value.createdAt == events[0].ts && r.value.updatedAt == Last(events).ts
    ensures r == Err(EmptySequence) <==> events == []
    ensures r == Err(FirstNotCreated) <==> events != [] && events[0].eventType != CreatedEvent
    ensures r == Err(FirstSeqNotOne) <==> events != [] && events[0].eventType == CreatedEvent && events[0].seqNo != 1
  {
    hide Rebuild;
    hide Decode;
    hide ReadFrom;
    hide LegalTargets;
    if events == [] {
      NoEvents();
      return Err(EmptySequence);
    }
    var first := events[0];
    BeginsWithFirst(events);
    if first.eventType != CreatedEvent {
      FailureIsFinal(events, 1);
      return Err(FirstNotCreated);
    }
    if first.seqNo != 1 {
      FailureIsFinal(events, 1);
      return Err(FirstSeqNotOne);
    }
    var terms := Decode(first.payload);
    if terms.Err? {
      FailureIsFinal(events, 1);
      return Err(terms.error);
    }
    var order := New(first.orderId, terms.value, first.ts, first.id).0;
    var expectedSeq := first.seqNo;
    for n := 1 to |events|
      invariant Rebuild(events[..n]) == Ok(order) && expectedSeq == n
    {
      RebuildOneMore(events, n);
      var event := events[n];
      expectedSeq := expectedSeq + 1;
      if event.seqNo != expectedSeq {
        FailureIsFinal(events, n + 1);
        return Err(SequenceNotMonotonic(expectedSeq, event.seqNo));
      }
      var target := StatusFor(event.eventType);
      if target.None? {
        FailureIsFinal(events, n + 1);
        return Err(KeyError(event.eventType));
      }
      var moved := Transition(order, target.value, event.ts, event.seqNo, event.id, Some(event.payload));
      if moved.Err? {
        FailureIsFinal(events, n + 1);
        return Err(moved.error);
      }
      order := moved.value.0;
    }
    assert events[..|events|] == events;
    RebuiltOrderIs(events);
    r := Ok(order);
  }

  lemma NoEvents()
    ensures Rebuild([]) == Err(EmptySequence)
  {
  }

  lemma BeginsWithFirst(events: seq<OrderEvent>)
    requires events != []
    ensures Rebuild(events[..1]) == Begin(events[0])
  {
  }

  // ----- live runs -----

  /** One call of `transition` in the life of an order. */
  datatype Move = Move(target: Status, ts: int, eventId: nat, payload: Option<Payload>)

  /** The order and the log a live run ends with: births and moves are numbered
      1, 2, 3, ... */
  function LiveRun(id: nat, terms: Terms, ts: int, eventId: nat, moves: seq<Move>)
    : Result<(Order, seq<OrderEvent>), Error>
  {
    if moves == [] then
      var (order, event) := New(id, terms, ts, eventId);
      Ok((order, [event]))
    else
      var before :- LiveRun(id, terms, ts, eventId, moves[..|moves| - 1]);
      var move := moves[|moves| - 1];
      var moved :- Transition(before.0, move.target, move.ts, |moves| + 1, move.eventId, move.payload);
      Ok((moved.0, before.1 + [moved.1]))
  }

  /** The order a live run ends with is the one that was born, moved: its terms, id
      and birth are kept, and it was last updated with the last event, in the
      status of the last move. */
  lemma {:induction false} LiveOrderIs(id: nat, terms: Terms, ts: int, eventId: nat, moves: seq<Move>)
    requires LiveRun(id, terms, ts, eventId, moves).Ok?
    ensures var (order, log) := LiveRun(id, terms, ts, eventId, moves).value;
            && |log| == |moves| + 1
            && order.id == id && order.terms == terms && order.createdAt == ts && order.updatedAt == Last(log).ts
            && order.status == if moves == [] then PendingNew else Last(moves).target
  {
    hide StatusFor;
    hide LegalTargets;
    if moves != [] {
      LiveOrderIs(id, terms, ts, eventId, moves[..|moves| - 1]);
    }
  }

  /** Its log is the birth and then the moves, numbered from one. */
  lemma {:induction false} LiveLogIs(id: nat, terms: Terms, ts: int, eventId: nat, moves: seq<Move>, k: nat)
    requires LiveRun(id, terms, ts, eventId, moves).Ok? && k <= |moves|
    ensures var log := LiveRun(id, terms, ts, eventId, moves).value.1;
            && |log| == |moves| + 1 && log[k].orderId == id && log[k].seqNo == k + 1
            && (k == 0 ==>
                  && log[0].id == eventId && log[0].ts == ts && log[0].eventType == CreatedEvent
                  && ReadFrom(terms, log[0].payload))
            && (k > 0 ==>
                  var move := moves[k - 1];
                  && log[k].id == move.eventId && log[k].ts == move.ts
                  && StatusFor(log[k].eventType) == Some(move.target)
                  && log[k].payload == if move.payload.Some? then move.payload.value else map[])
  {
    hide StatusFor;
    hide LegalTargets;
    hide LiveRun;
    if moves == [] {
      BirthIsLogged(id, terms, ts, eventId);
    } else {
      var front := moves[..|moves| - 1];
      LiveRunsStart(id, terms, ts, eventId, moves);
      LiveOneMore(id, terms, ts, eventId, moves);
      LiveOrderIs(id, terms, ts, eventId, front);
      if k < |moves| {
        LiveLogIs(id, terms, ts, eventId, front, k);
      }
    }
  }

  lemma BirthIsLogged(id: nat, terms: Terms, ts: int, eventId: nat)
    ensures var run := LiveRun(id, terms, ts, eventId, []);
            && run.Ok? && |run.value.1| == 1
            && var e := run.value.1[0];
               && e.id == eventId && e.orderId == id && e.seqNo == 1 && e.ts == ts && e.eventType == CreatedEvent
               && ReadFrom(terms, e.payload)
  {
  }

  lemma LiveRunsStart(id: nat, terms: Terms, ts: int, eventId: nat, moves: seq<Move>)
    requires LiveRun(id, terms, ts, eventId, moves).Ok? && moves != []
    ensures LiveRun(id, terms, ts, eventId, moves[..|moves| - 1]).Ok?
  {
    hide Transition;
  }

  lemma DecodeEncode(terms: Terms)
    requires terms.WellTyped()
    ensures Decode(terms.Encode()) == Ok(terms)
  {
    hide Decode;
    hide IsInstance;
    hide ReadFrom;
    DecodesIff(terms.Encode());
    ReadBack(Decode(terms.Encode()).value, terms);
  }

  lemma ReadBack(read: Terms, terms: Terms)
    requires ReadFrom(read, terms.Encode())
    ensures read == terms
  {
  }

  lemma EventTypesInvert(status: Status, eventType: EventType)
    ensures EventTypeFor(status) == Some(eventType) <==> StatusFor(eventType) == Some(status)
  {
  }

  /** Rebuilding from the log of a live run gives back exactly the live order. */
  lemma {:induction false} RebuildOfLiveRun(id: nat, terms: Terms, ts: int, eventId: nat, moves: seq<Move>)
    requires terms.WellTyped() && LiveRun(id, terms, ts, eventId, moves).Ok?
    ensures var (order, log) := LiveRun(id, terms, ts, eventId, moves).value;
            && |log| == |moves| + 1 && Rebuild(log) == Ok(order)
            && order.id == id && order.terms == terms && order.createdAt == ts && order.updatedAt == Last(log).ts
            && order.status == if moves == [] then PendingNew else Last(moves).target
  {
    hide Decode;
    if moves == [] {
      DecodeEncode(terms);
    } else {
      RebuildOfLiveRun(id, terms, ts, eventId, moves[..|moves| - 1]);
      var (before, log) := LiveRun(id, terms, ts, eventId, moves[..|moves| - 1]).value;
      var move := moves[|moves| - 1];
      var (after, event) := Transition(before, move.target, move.ts, |moves| + 1, move.eventId, move.payload).value;
      EventTypesInvert(move.target, event.eventType);
      assert (log + [event])[..|log|] == log;
    }
  }

  // ----- every accepted log is a live one -----

  /** The move an event records. */
  function MoveOf(event: OrderEvent): Move
    requires StatusFor(event.eventType).Some?
  {
    Move(StatusFor(event.eventType).value, event.ts, event.id, Some(event.payload))
  }

  predicate AllMoves(events: seq<OrderEvent>) {
    forall i :: 0 < i < |events| ==> StatusFor(events[i].eventType).Some?
  }

  function MovesOf(events: seq<OrderEvent>): (r: seq<Move>)
    requires events != [] && AllMoves(events)
    ensures |r| == |events| - 1
  {
    seq(|events| - 1, i requires 0 <= i < |events| - 1 => MoveOf(events[i + 1]))
  }

  /** The log with the parts replay ignores put right: the created payload cut
      down to its eleven fields, later events given the order's id. */
  function Canonical(events: seq<OrderEvent>): (r: seq<OrderEvent>)
    requires events != [] && Decode(events[0].payload).Ok?
    ensures |r| == |events|
  {
    [events[0].(payload := Decode(events[0].payload).value.Encode())]
    + seq(|events| - 1, i requires 0 <= i < |events| - 1 => events[i + 1].(orderId := events[0].orderId))
  }

  lemma {:induction false} AcceptedHasMoves(events: seq<OrderEvent>)
    requires Rebuild(events).Ok?
    ensures events != [] && AllMoves(events) && Decode(events[0].payload).Ok?
  {
    hide Decode;
    hide Rebuild;
    hide Apply;
    hide StatusFor;
    RebuildUnfold(events);
    if |events| == 1 {
      BirthIsPendingNew(events[0]);
    } else if |events| > 1 {
      var front, last := events[..|events| - 1], events[|events| - 1];
      AcceptedHasMoves(front);
      ApplyIsTransition(Rebuild(front).value, last, |events|);
      forall i | 0 < i < |events| ensures StatusFor(events[i].eventType).Some? {
        assert i < |front| ==> front[i] == events[i];
      }
    }
  }

  /** Every accepted log is, apart from what replay ignores, the log of a live run
      that ends in the same order. */
  lemma {:induction false} AcceptedIsLive(events: seq<OrderEvent>)
    requires events != [] && AllMoves(events) && Decode(events[0].payload).Ok?
    requires Rebuild(events).Ok?
    ensures var first := events[0];
            LiveRun(first.orderId, Decode(first.payload).value, first.ts, first.id, MovesOf(events))
            == Ok((Rebuild(events).value, Canonical(events)))
    ensures Rebuild(events).value.id == events[0].orderId
  {
    hide Decode;
    hide Rebuild;
    hide LiveRun;
    hide Canonical;
    hide MovesOf;
    hide Apply;
    var first := events[0];
    if |events| == 1 {
      LiveBirth(events);
    } else {
      var front, last := events[..|events| - 1], events[|events| - 1];
      assert AllMoves(front) by {
        forall i | 0 < i < |front| ensures StatusFor(front[i].eventType).Some? {
          assert front[i] == events[i];
        }
      }
      RebuildUnfold(events);
      AcceptedIsLive(front);
      LastMove(events);
      LastCanonical(events);
      ApplyIsTransition(Rebuild(front).value, last, |events|);
      LiveOneMore(first.orderId, Decode(first.payload).value, first.ts, first.id, MovesOf(events));
    }
  }

  lemma RebuildUnfold(events: seq<OrderEvent>)
    ensures Rebuild(events)
         == if events == [] then Err(EmptySequence)
            else if |events| == 1 then Begin(events[0])
            else
              var before := Rebuild(events[..|events| - 1]);
              if before.Err? then before else Apply(before.value, events[|events| - 1], |events|)
  {
    hide Apply;
    hide Begin;
  }

  lemma LiveBirth(events: seq<OrderEvent>)
    requires |events| == 1 && AllMoves(events) && Rebuild(events).Ok? && Decode(events[0].payload).Ok?
    ensures var first := events[0];
            LiveRun(first.orderId, Decode(first.payload).value, first.ts, first.id, MovesOf(events))
            == Ok((Rebuild(events).value, Canonical(events)))
    ensures Rebuild(events).value.id == events[0].orderId
  {
    hide Decode;
    var first := events[0];
    assert MovesOf(events) == [];
    assert Canonical(events) == [New(first.orderId, Decode(first.payload).value, first.ts, first.id).1];
  }

  lemma LastMove(events: seq<OrderEvent>)
    requires |events| > 1 && AllMoves(events) && AllMoves(events[..|events| - 1])
    ensures MovesOf(events) == MovesOf(events[..|events| - 1]) + [MoveOf(events[|events| - 1])]
  {
    hide StatusFor;
  }

  lemma LastCanonical(events: seq<OrderEvent>)
    requires |events| > 1 && Decode(events[0].payload).Ok?
    ensures Canonical(events)
         == Canonical(events[..|events| - 1]) + [events[|events| - 1].(orderId := events[0].orderId)]
  {
    hide Decode;
  }

  lemma LiveOneMore(id: nat, terms: Terms, ts: int, eventId: nat, moves: seq<Move>)
    requires moves != [] && LiveRun(id, terms, ts, eventId, moves[..|moves| - 1]).Ok?
    ensures var before := LiveRun(id, terms, ts, eventId, moves[..|moves| - 1]).value;
            var move := moves[|moves| - 1];
            var moved := Transition(before.0, move.target, move.ts, |moves| + 1, move.eventId, move.payload);
            LiveRun(id, terms, ts, eventId, moves)
            == if moved.Err? then Err(moved.error) else Ok((moved.value.0, before.1 + [moved.value.1]))
  {
    hide Transition;
  }

  lemma ApplyIsTransition(order: Order, event: OrderEvent, n: nat)
    requires Apply(order, event, n).Ok?
    ensures StatusFor(event.eventType).Some?
    ensures var move := MoveOf(event);
            Transition(order, move.target, move.ts, n, move.eventId, move.payload)
            == Ok((Apply(order, event, n).value, event.(orderId := order.id)))
    ensures Apply(order, event, n).value.id == order.id
  {
    EventTypesInvert(StatusFor(event.eventType).value, event.eventType);
  }

  /** ... and no other log is accepted: a log is accepted exactly if it begins with
      a decodable created event numbered 1, every later event records a move, and
      it is the live run of those moves but for what replay ignores. */
  lemma AcceptedIffLive(events: seq<OrderEvent>)
    ensures Rebuild(events).Ok? <==>
              && events != [] && AllMoves(events) && Decode(events[0].payload).Ok?
              && var first := events[0];
                 var live := LiveRun(first.orderId, Decode(first.payload).value, first.ts, first.id, MovesOf(events));
                 live.Ok? && live.value.1 == Canonical(events)
  {
    hide Decode;
    hide Rebuild;
    hide LiveRun;
    hide Canonical;
    if Rebuild(events).Ok? {
      AcceptedHasMoves(events);
      AcceptedIsLive(events);
    }
    if events != [] && AllMoves(events) && Decode(events[0].payload).Ok? {
      var first := events[0];
      var terms := Decode(first.payload).value;
      var live := LiveRun(first.orderId, terms, first.ts, first.id, MovesOf(events));
      if live.Ok? && live.value.1 == Canonical(events) {
        RebuildOfLiveRun(first.orderId, terms, first.ts, first.id, MovesOf(events));
        ReplayIgnores(events);
      }
    }
  }

  /** What `Canonical` changes makes no difference to replay. */
  lemma {:induction false} ReplayIgnores(events: seq<OrderEvent>)
    requires events != [] && Decode(events[0].payload).Ok?
    ensures Rebuild(Canonical(events)) == Rebuild(events)
  {
    hide Decode;
    hide Rebuild;
    hide Apply;
    RebuildUnfold(events);
    RebuildUnfold(Canonical(events));
    if |events| == 1 {
      DecodeEncode(Decode(events[0].payload).value);
    } else {
      var front, last := events[..|events| - 1], events[|events| - 1];
      ReplayIgnores(front);
      LastCanonical(events);
      assert Canonical(events)[..|events| - 1] == Canonical(front);
      if Rebuild(front).Ok? {
        ApplyIgnoresOrderId(Rebuild(front).value, last, events[0].orderId, |events|);
      }
    }
  }

  lemma ApplyIgnoresOrderId(order: Order, event: OrderEvent, orderId: nat, n: nat)
    ensures Apply(order, event.(orderId := orderId), n) == Apply(order, event, n)
  {
    hide LegalTargets;
    hide StatusFor;
  }

  // ----- what an accepted log can contain -----

  lemma PrefixAccepted(events: seq<OrderEvent>, n: nat)
    requires Rebuild(events).Ok? && 0 < n <= |events|
    ensures Rebuild(events[..n]).Ok?
    ensures n < |events| ==>
              && StatusFor(events[n].eventType).Some? && events[n].seqNo == n + 1
              && StatusFor(events[n].eventType).value in LegalTargets(Rebuild(events[..n]).value.status)
              && Rebuild(events[..n + 1]).Ok?
              && Rebuild(events[..n + 1]).value.status == StatusFor(events[n].eventType).value
  {
    hide Rebuild;
    if Rebuild(events[..n]).Err? {
      FailureIsFinal(events, n);
    }
    if n < |events| {
      RebuildOneMore(events, n);
      if Rebuild(events[..n + 1]).Err? {
        FailureIsFinal(events, n + 1);
      }
    }
  }

  lemma BirthIsPendingNew(first: OrderEvent)
    ensures Begin(first).Ok? ==>
              && first.eventType == CreatedEvent && Decode(first.payload).Ok?
              && Begin(first).value.status == PendingNew
  {
    hide Decode;
  }

  lemma AcceptedBirth(events: seq<OrderEvent>)
    requires Rebuild(events).Ok?
    ensures events != [] && events[0].eventType == CreatedEvent
    ensures Rebuild(events[..1]).Ok? && Rebuild(events[..1]).value.status == PendingNew
  {
    hide Rebuild;
    hide Begin;
    RebuildUnfold(events);
    BeginsWithFirst(events);
    PrefixAccepted(events, 1);
    BirthIsPendingNew(events[0]);
  }

  lemma EndsThere(eventType: EventType)
    requires eventType in {FilledEvent, CanceledEvent, RejectedEvent, ExpiredEvent, UnknownEvent}
    ensures StatusFor(eventType).Some?
    ensures var status := StatusFor(eventType).value;
            LegalTargets(status) == {} && (IsTerminal(status) || status == Unknown)
  {
  }

  /** Nothing follows a terminal event, nor an unknown one. */
  lemma NothingAfterTheEnd(events: seq<OrderEvent>, n: nat)
    requires Rebuild(events).Ok? && n < |events|
    requires events[n].eventType in {FilledEvent, CanceledEvent, RejectedEvent, ExpiredEvent, UnknownEvent}
    ensures n == |events| - 1
    ensures IsTerminal(Rebuild(events).value.status) || Rebuild(events).value.status == Unknown
  {
    hide Rebuild;
    hide LegalTargets;
    hide StatusFor;
    hide IsTerminal;
    AcceptedBirth(events);
    EndsThere(events[n].eventType);
    PrefixAccepted(events, n);
    if n < |events| - 1 {
      PrefixAccepted(events, n + 1);
    } else {
      assert events[..n + 1] == events;
    }
  }

  lemma OpeningMoves(a: EventType, b: EventType)
    requires StatusFor(a).Some? && StatusFor(b).Some?
    ensures StatusFor(a).value in LegalTargets(PendingNew) ==> a == SentEvent && StatusFor(a).value == Sent
    ensures StatusFor(a).value in LegalTargets(Sent) && StatusFor(b).value in LegalTargets(StatusFor(a).value) ==>
              a == AckedEvent
  {
  }

  lemma NotAnOpeningMove(eventType: EventType)
    requires eventType in {PartiallyFilledEvent, FilledEvent, CancelRequestedEvent, CanceledEvent, ExpiredEvent}
    ensures StatusFor(eventType).Some?
    ensures StatusFor(eventType).value !in LegalTargets(PendingNew)
    ensures StatusFor(eventType).value !in LegalTargets(Sent)
  {
  }

  /** An accepted log opens created, sent, acked before anything that can follow
      an acknowledgement: so every fill has a Sent and then an Acked before it. */
  lemma FillsComeAfterAck(events: seq<OrderEvent>, k: nat)
    requires Rebuild(events).Ok? && k < |events|
    requires events[k].eventType
          in {PartiallyFilledEvent, FilledEvent, CancelRequestedEvent, CanceledEvent, ExpiredEvent}
    ensures k >= 3
    ensures events[0].eventType == CreatedEvent && events[1].eventType == SentEvent && events[2].eventType == AckedEvent
  {
    hide Rebuild;
    hide LegalTargets;
    hide StatusFor;
    AcceptedBirth(events);
    NotAnOpeningMove(events[k].eventType);
    PrefixAccepted(events, 1);
    OpeningMoves(events[1].eventType, events[1].eventType);
    if |events| > 2 {
      PrefixAccepted(events, 2);
    }
    if |events| > 3 {
      PrefixAccepted(events, 3);
      OpeningMoves(events[2].eventType, events[3].eventType);
    }
  }
}
