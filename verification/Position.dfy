/** Weighted-average-cost accounting of one position (domain/position.py). */
module Positions {
  import opened Common
  import opened Fills

  datatype Position = Position(qty: real, avgEntry: real, realized: Money, applied: set<nat>)

  function Flat(currency: string): Position {
    Position(0.0, 0.0, Money(0.0, currency), {})
  }

  /** Opening from flat, or adding in the current direction. */
  predicate SameDirection(p: Position, f: Fill) {
    p.qty == 0.0 || (p.qty > 0.0) == (SignedQty(f) > 0.0)
  }

  /** The price of `w` bought at `x` pooled with `v` bought at `y`. */
  function WeightedAverage(w: real, x: real, v: real, y: real): real
    requires w + v > 0.0
  {
    (w * x + v * y) / (w + v)
  }

  /** Profit booked by the part of `f` that closes against `p`. */
  function PricePnl(p: Position, f: Fill): real {
    if SameDirection(p, f) then 0.0
    else Min(Abs(p.qty), f.qty) * (f.price - p.avgEntry) * (if p.qty > 0.0 then 1.0 else -1.0)
  }

  function ApplyFill(p: Position, f: Fill): Result<Position, CurrencyMismatch> {
    if f.id in p.applied then Ok(p)
    else
      var newQty := p.qty + SignedQty(f);
      var newAvg :=
        if SameDirection(p, f) then WeightedAverage(Abs(p.qty), p.avgEntry, f.qty, f.price)
        else if newQty == 0.0 then 0.0
        else if (newQty > 0.0) != (p.qty > 0.0) then f.price
        else p.avgEntry;
      var realizedDelta :- Sub(Money(PricePnl(p, f), f.fee.currency), f.fee);
      var realized :- Add(p.realized, realizedDelta);
      Ok(Position(newQty, newAvg, realized, p.applied + {f.id}))
  }

  /** A whole fill history, oldest first; the first exception ends it. */
  function Replay(p: Position, fills: seq<Fill>): Result<Position, CurrencyMismatch> {
    if fills == [] then Ok(p)
    else
      var before :- Replay(p, fills[..|fills| - 1]);
      ApplyFill(before, fills[|fills| - 1])
  }

  /** Realized plus unrealized profit with the holding valued at `mark`. */
  function TotalPnl(p: Position, mark: real): real {
    p.realized.amount + p.qty * (mark - p.avgEntry)
  }

  // ----- one fill -----

  lemma PooledCost(w: real, x: real, v: real, y: real)
    requires w + v > 0.0
    ensures (w + v) * WeightedAverage(w, x, v, y) == w * x + v * y
  {
    QuotientTimesDivisor(w * x + v * y, w + v);
  }

  /** Adding to a position: the pooled cost is the old cost plus the fill's. */
  lemma AddKeepsCost(p: Position, f: Fill, q: Position)
    requires f.id !in p.applied && ApplyFill(p, f) == Ok(q) && SameDirection(p, f)
    ensures q.qty * q.avgEntry == p.qty * p.avgEntry + SignedQty(f) * f.price
    ensures q.realized.amount == p.realized.amount - f.fee.amount
    ensures q.qty != 0.0
  {
    hide WeightedAverage;
    PooledCost(Abs(p.qty), p.avgEntry, f.qty, f.price);
    if SignedQty(f) > 0.0 {
      assert q.qty == Abs(p.qty) + f.qty;
    } else {
      assert q.qty == -(Abs(p.qty) + f.qty);
    }
  }

  /** Closing books the closed quantity at the fill's price against its cost. */
  lemma CloseBooksPnl(p: Position, f: Fill, q: Position)
    requires f.id !in p.applied && ApplyFill(p, f) == Ok(q) && !SameDirection(p, f)
    ensures var closed := if Abs(p.qty) <= f.qty then p.qty else -SignedQty(f);
            q.realized.amount == p.realized.amount + closed * (f.price - p.avgEntry) - f.fee.amount
  {
    hide WeightedAverage;
  }

  /** Every branch moves the total by exactly what the fill itself is worth. */
  lemma FillMovesTotal(p: Position, f: Fill, q: Position, mark: real)
    requires f.id !in p.applied && ApplyFill(p, f) == Ok(q)
    ensures TotalPnl(q, mark) == TotalPnl(p, mark) + Worth(f, mark)
    ensures q.qty == p.qty + SignedQty(f)
  {
    hide WeightedAverage;
    hide PricePnl;
    if SameDirection(p, f) {
      AddKeepsCost(p, f, q);
      MarkedCost(q.qty, q.avgEntry, mark);
      MarkedCost(p.qty, p.avgEntry, mark);
      MarkedCost(SignedQty(f), f.price, mark);
      assert q.qty * mark == p.qty * mark + SignedQty(f) * mark;
    } else {
      CloseBooksPnl(p, f, q);
      if q.qty == 0.0 {
        assert SignedQty(f) == -p.qty;
      }
    }
  }

  lemma MarkedCost(qty: real, price: real, mark: real)
    ensures qty * (mark - price) == qty * mark - qty * price
  {
  }

  /** What a fill does, case by case: a repeat nothing; another currency an error, the
      position's named first; otherwise it is added to the quantity and its fee is
      booked. Opening takes the fill's price, adding pools the cost, reducing keeps
      the entry, closing clears it and a flip takes the fill's price; what closes
      is booked at the difference to the entry. */
  lemma CaseByCase(p: Position, f: Fill)
    ensures var r := ApplyFill(p, f);
            var delta := if f.side == Buy then f.qty else -f.qty;
            var booked := if r.Ok? then r.value.realized.amount - p.realized.amount + f.fee.amount else 0.0;
            var closed := if f.qty < Abs(p.qty) then f.qty else Abs(p.qty);
            var gain := if p.qty > 0.0 then f.price - p.avgEntry else p.avgEntry - f.price;
            && (f.id in p.applied ==> r == Ok(p))
            && (f.id !in p.applied && f.fee.currency != p.realized.currency ==>
                  r == Err(CurrencyMismatch(p.realized.currency, f.fee.currency)))
            && (f.id !in p.applied && f.fee.currency == p.realized.currency ==>
                  && r.Ok? && r.value.qty == p.qty + delta && r.value.applied == p.applied + {f.id}
                  && r.value.realized.currency == p.realized.currency
                  && (p.qty == 0.0 ==> r.value.avgEntry == f.price && booked == 0.0)
                  && (p.qty != 0.0 && (p.qty > 0.0 <==> delta > 0.0) ==>
                        r.value.qty * r.value.avgEntry == p.qty * p.avgEntry + delta * f.price && booked == 0.0)
                  && (p.qty != 0.0 && !(p.qty > 0.0 <==> delta > 0.0) ==>
                        && booked == closed * gain
                        && r.value.avgEntry == if f.qty < Abs(p.qty) then p.avgEntry
                                               else if f.qty == Abs(p.qty) then 0.0 else f.price))
  {
    hide WeightedAverage;
    hide PricePnl;
    var r := ApplyFill(p, f);
    if f.id !in p.applied && f.fee.currency == p.realized.currency {
      if SameDirection(p, f) {
        AddKeepsCost(p, f, r.value);
        if p.qty == 0.0 {
          OpensAtItsPrice(p.avgEntry, f.qty, f.price);
        }
      } else {
        ClosingPnl(p, f);
      }
    }
  }

  lemma ClosingPnl(p: Position, f: Fill)
    requires !SameDirection(p, f)
    ensures var closed := if f.qty < Abs(p.qty) then f.qty else Abs(p.qty);
            PricePnl(p, f) == closed * if p.qty > 0.0 then f.price - p.avgEntry else p.avgEntry - f.price
  {
    Opposite(f.price, p.avgEntry, Min(Abs(p.qty), f.qty));
  }

  lemma OpensAtItsPrice(x: real, v: real, y: real)
    requires v > 0.0
    ensures WeightedAverage(0.0, x, v, y) == y
  {
    QuotientOfProduct(y, v);
  }

  lemma Opposite(x: real, y: real, q: real)
    ensures q * (x - y) * -1.0 == q * (y - x) && q * (x - y) * 1.0 == q * (x - y)
  {
  }

  // ----- whole histories -----

  lemma FillOutcome(p: Position, f: Fill)
    ensures var r := ApplyFill(p, f);
            && (r.Ok? <==> f.id in p.applied || f.fee.currency == p.realized.currency)
            && (f.id in p.applied ==> r == Ok(p))
            && (r.Ok? ==> r.value.applied == p.applied + {f.id} && r.value.realized.currency == p.realized.currency)
  {
    hide WeightedAverage;
    hide PricePnl;
  }

  lemma {:induction false} ReplayTracksIds(p: Position, fills: seq<Fill>, q: Position)
    requires Replay(p, fills) == Ok(q)
    ensures q.applied == p.applied + Ids(fills)
    ensures q.realized.currency == p.realized.currency
  {
    hide ApplyFill;
    if fills != [] {
      var n := |fills| - 1;
      var before := Replay(p, fills[..n]).value;
      ReplayTracksIds(p, fills[..n], before);
      FillOutcome(before, fills[n]);
      IdsSnoc(fills[..n], fills[n]);
      assert fills == fills[..n] + [fills[n]];
    }
  }

  /** Re-delivering fills any number of times, anywhere later in the history,
      gives the state of the history without the repeats; the only failure is a
      first delivery whose fee is in another currency. */
  lemma {:induction false} RepeatsAreIgnored(currency: string, fills: seq<Fill>)
    ensures Replay(Flat(currency), fills) == Replay(Flat(currency), FirstDeliveries(fills))
    ensures Replay(Flat(currency), fills).Ok?
       <==> forall f :: f in FirstDeliveries(fills) ==> f.fee.currency == currency
  {
    hide ApplyFill;
    if fills != [] {
      var n := |fills| - 1;
      var first := FirstDeliveries(fills[..n]);
      RepeatsAreIgnored(currency, fills[..n]);
      var before := Replay(Flat(currency), fills[..n]);
      if before.Ok? {
        ReplayTracksIds(Flat(currency), fills[..n], before.value);
        FillOutcome(before.value, fills[n]);
      }
      if fills[n].id !in Ids(fills[..n]) {
        assert (first + [fills[n]])[..|first|] == first;
        assert forall f :: f in first + [fills[n]] <==> f in first || f == fills[n];
      }
    }
  }

  /** The cash identity, for every history and every mark price. */
  lemma {:induction false} TotalIsCash(currency: string, fills: seq<Fill>, p: Position, mark: real)
    requires Replay(Flat(currency), fills) == Ok(p)
    ensures TotalPnl(p, mark) == CashValue(FirstDeliveries(fills), mark)
    ensures p.qty == NetQty(FirstDeliveries(fills))
  {
    if fills != [] {
      hide ApplyFill;
      hide TotalPnl;
      hide Worth;
      var n := |fills| - 1;
      var before := Replay(Flat(currency), fills[..n]).value;
      TotalIsCash(currency, fills[..n], before, mark);
      ReplayTracksIds(Flat(currency), fills[..n], before);
      FillOutcome(before, fills[n]);
      if fills[n].id !in Ids(fills[..n]) {
        SumsSnoc(FirstDeliveries(fills[..n]), fills[n], mark);
        FillMovesTotal(before, fills[n], p, mark);
      }
    }
  }

  lemma SameHolding(p: Position, q: Position, mark: real)
    requires p.qty == q.qty && TotalPnl(p, mark) == TotalPnl(q, mark)
    ensures p.qty == 0.0 ==> p.realized.amount == q.realized.amount
  {
  }

  /** Reordering distinct fills changes neither the holding nor, at any mark
      price, the total; when it leaves the position flat it does not even
      change what has been realized. */
  lemma TotalIsOrderFree(currency: string, a: seq<Fill>, b: seq<Fill>, p: Position, q: Position, mark: real)
    requires multiset(a) == multiset(b) && DistinctIds(a) && DistinctIds(b)
    requires Replay(Flat(currency), a) == Ok(p) && Replay(Flat(currency), b) == Ok(q)
    ensures p.qty == q.qty
    ensures TotalPnl(p, mark) == TotalPnl(q, mark)
    ensures p.qty == 0.0 ==> p.realized == q.realized
  {
    hide ApplyFill;
    hide TotalPnl;
    assert p.qty == NetQty(a) && TotalPnl(p, mark) == CashValue(a, mark) by {
      DistinctUnchanged(a);
      TotalIsCash(currency, a, p, mark);
    }
    assert q.qty == NetQty(b) && TotalPnl(q, mark) == CashValue(b, mark) by {
      DistinctUnchanged(b);
      TotalIsCash(currency, b, q, mark);
    }
    assert p.realized.currency == q.realized.currency by {
      ReplayTracksIds(Flat(currency), a, p);
      ReplayTracksIds(Flat(currency), b, q);
    }
    SumsOrderFree(a, b, mark);
    SameHolding(p, q, mark);
  }

  /** The entry price of an open position is an average of prices paid: it
      stays inside every interval that holds all of them. */
  lemma {:induction false} EntryIsAnAverage(currency: string, fills: seq<Fill>, p: Position, lo: real, hi: real)
    requires Replay(Flat(currency), fills) == Ok(p)
    requires forall f :: f in fills ==> lo <= f.price <= hi
    ensures EntryWithin(p, lo, hi)
  {
    if fills != [] {
      var n := |fills| - 1;
      var before := Replay(Flat(currency), fills[..n]).value;
      EntryIsAnAverage(currency, fills[..n], before, lo, hi);
      FillKeepsEntryWithin(before, fills[n], p, lo, hi);
    }
  }

  predicate EntryWithin(p: Position, lo: real, hi: real) {
    if p.qty == 0.0 then p.avgEntry == 0.0 else lo <= p.avgEntry <= hi
  }

  lemma FillKeepsEntryWithin(p: Position, f: Fill, q: Position, lo: real, hi: real)
    requires ApplyFill(p, f) == Ok(q)
    requires EntryWithin(p, lo, hi) && lo <= f.price <= hi
    ensures EntryWithin(q, lo, hi)
  {
    hide WeightedAverage;
    hide PricePnl;
    if f.id !in p.applied && SameDirection(p, f) {
      AverageBetween(Abs(p.qty), p.avgEntry, f.qty, f.price, lo, hi);
    }
  }

  lemma QuotientBetween(n: real, s: real, lo: real, hi: real)
    requires s > 0.0 && lo * s <= n <= hi * s
    ensures lo <= n / s <= hi
  {
    var a := n / s;
    QuotientTimesDivisor(n, s);
    assert a < lo ==> (lo - a) * s > 0.0;
    assert hi < a ==> (a - hi) * s > 0.0;
  }

  lemma WeightedSum(w: real, x: real, v: real, y: real, hi: real)
    requires w >= 0.0 && v > 0.0 && y <= hi
    requires w > 0.0 ==> x <= hi
    ensures w * x + v * y <= hi * (w + v)
  {
    Scale(v, y, hi);
    if w > 0.0 {
      Scale(w, x, hi);
    }
    assert hi * (w + v) == w * hi + v * hi;
  }

  lemma AverageBetween(w: real, x: real, v: real, y: real, lo: real, hi: real)
    requires w >= 0.0 && v > 0.0 && lo <= y <= hi
    requires w > 0.0 ==> lo <= x <= hi
    ensures lo <= WeightedAverage(w, x, v, y) <= hi
  {
    WeightedSum(w, x, v, y, hi);
    WeightedSum(w, -x, v, -y, -lo);
    QuotientBetween(w * x + v * y, w + v, lo, hi);
  }
}
