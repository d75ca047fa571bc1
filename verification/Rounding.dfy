/** What rounding the average-cost quotient does to the cash identity
    (domain/position.py:86-121): the only quotient in the accounting. */
module Rounding {
  import opened Common
  import opened Fills
  import opened Positions

  /** ApplyFill with the quotient off by `err`; the other branches are exact. */
  function ApplyRounded(p: Position, f: Fill, err: real): Result<Position, CurrencyMismatch> {
    var q :- ApplyFill(p, f);
    if f.id !in p.applied && SameDirection(p, f) then Ok(q.(avgEntry := q.avgEntry + err))
    else Ok(q)
  }

  function ReplayRounded(p: Position, fills: seq<Fill>, errs: seq<real>): Result<Position, CurrencyMismatch>
    requires |errs| == |fills|
  {
    if fills == [] then Ok(p)
    else
      var n := |fills| - 1;
      var before :- ReplayRounded(p, fills[..n], errs[..n]);
      ApplyRounded(before, fills[n], errs[n])
  }

  /** Total size held after each opening or adding fill: what the bound scales with. */
  function SizeAdded(currency: string, fills: seq<Fill>, errs: seq<real>): real
    requires |errs| == |fills|
  {
    if fills == [] then 0.0
    else
      var n := |fills| - 1;
      var sofar := SizeAdded(currency, fills[..n], errs[..n]);
      match ReplayRounded(Flat(currency), fills[..n], errs[..n])
      case Err(_) => sofar
      case Ok(p) =>
        if fills[n].id !in p.applied && SameDirection(p, fills[n])
        then sofar + Abs(p.qty + SignedQty(fills[n]))
        else sofar
  }

  function Allowance(eps: real, size: real): real {
    eps * size
  }

  lemma RoundedFillMovesTotal(p: Position, f: Fill, err: real, eps: real, q: Position, mark: real)
    requires f.id !in p.applied && ApplyRounded(p, f, err) == Ok(q) && Abs(err) <= eps
    ensures q.qty == p.qty + SignedQty(f)
    ensures Abs(TotalPnl(q, mark) - (TotalPnl(p, mark) + Worth(f, mark)))
         <= if SameDirection(p, f) then Allowance(eps, Abs(q.qty)) else 0.0
  {
    hide ApplyFill;
    hide Worth;
    var exact := ApplyFill(p, f).value;
    FillMovesTotal(p, f, exact, mark);
    if SameDirection(p, f) {
      ShiftedEntry(exact, err, eps, mark);
    }
  }

  lemma ShiftedEntry(p: Position, err: real, eps: real, mark: real)
    requires Abs(err) <= eps
    ensures Abs(TotalPnl(p.(avgEntry := p.avgEntry + err), mark) - TotalPnl(p, mark)) <= Allowance(eps, Abs(p.qty))
  {
    assert p.qty * (mark - (p.avgEntry + err)) == p.qty * (mark - p.avgEntry) - p.qty * err;
    ProductWithin(p.qty, err, eps);
  }

  lemma ProductWithin(x: real, err: real, eps: real)
    requires Abs(err) <= eps
    ensures Abs(x * err) <= Allowance(eps, Abs(x))
  {
    if x >= 0.0 {
      Scale(x, err, eps);
      Scale(x, -eps, err);
    } else {
      Scale(-x, err, eps);
      Scale(-x, -eps, err);
    }
  }

  /** How far the total is from the cash statement. */
  function Drift(p: Position, fills: seq<Fill>, mark: real): real {
    Abs(TotalPnl(p, mark) - CashValue(FirstDeliveries(fills), mark))
  }

  /** Quantity and ids are exact, only the total may be off. */
  predicate Tracks(p: Position, fills: seq<Fill>) {
    p.applied == Ids(fills) && p.qty == NetQty(FirstDeliveries(fills))
  }

  lemma DriftOfOneFill(p: Position, fills: seq<Fill>, f: Fill, err: real, eps: real, q: Position, mark: real)
    requires Abs(err) <= eps
    requires Tracks(p, fills) && ApplyRounded(p, f, err) == Ok(q)
    ensures Tracks(q, fills + [f])
    ensures if f.id !in p.applied && SameDirection(p, f)
            then Drift(q, fills + [f], mark) <= Drift(p, fills, mark) + Allowance(eps, Abs(q.qty))
                 && q.qty == p.qty + SignedQty(f)
            else Drift(q, fills + [f], mark) <= Drift(p, fills, mark)
  {
    hide TotalPnl;
    hide Worth;
    hide Allowance;
    hide ApplyRounded;
    hide CashValue;
    hide NetQty;
    hide FirstDeliveries;
    hide Ids;
    hide SignedQty;
    RoundedOutcome(p, f, err, q);
    DeliverOneMore(fills, f);
    if f.id !in p.applied {
      RoundedFillMovesTotal(p, f, err, eps, q, mark);
      SumsSnoc(FirstDeliveries(fills), f, mark);
    }
  }

  lemma RoundedOutcome(p: Position, f: Fill, err: real, q: Position)
    requires ApplyRounded(p, f, err) == Ok(q)
    ensures q.applied == p.applied + {f.id}
    ensures f.id in p.applied ==> q == p
  {
    hide ApplyFill;
    FillOutcome(p, f);
  }

  lemma Spread(eps: real, a: real, b: real)
    ensures Allowance(eps, a + b) == Allowance(eps, a) + Allowance(eps, b)
  {
  }

  /** If every quotient is within eps, the total is within eps times the sizes
      held after opening and adding fills, at every mark price; reductions,
      closes, flips and repeats add nothing, and the quantity stays exact. */
  lemma {:induction false} DriftIsBounded(currency: string, fills: seq<Fill>, errs: seq<real>, eps: real,
                                          p: Position, mark: real)
    requires |errs| == |fills|
    requires forall i :: 0 <= i < |errs| ==> Abs(errs[i]) <= eps
    requires ReplayRounded(Flat(currency), fills, errs) == Ok(p)
    ensures Tracks(p, fills)
    ensures Drift(p, fills, mark) <= Allowance(eps, SizeAdded(currency, fills, errs))
  {
    if fills != [] {
      var n := |fills| - 1;
      var before := ReplayRounded(Flat(currency), fills[..n], errs[..n]).value;
      DriftIsBounded(currency, fills[..n], errs[..n], eps, before, mark);
      DriftStep(currency, fills, errs, eps, before, p, mark);
    }
  }

  lemma SizeOneMore(currency: string, fills: seq<Fill>, errs: seq<real>, before: Position)
    requires |errs| == |fills| > 0
    requires ReplayRounded(Flat(currency), fills[..|fills| - 1], errs[..|fills| - 1]) == Ok(before)
    ensures var f, sofar := Last(fills), SizeAdded(currency, Front(fills), Front(errs));
            SizeAdded(currency, fills, errs)
            == if f.id !in before.applied && SameDirection(before, f) then sofar + Abs(before.qty + SignedQty(f))
               else sofar
  {
    hide ReplayRounded;
    hide SameDirection;
    hide SignedQty;
    hide Abs;
  }

  lemma DriftStep(currency: string, fills: seq<Fill>, errs: seq<real>, eps: real,
                  before: Position, p: Position, mark: real)
    requires |errs| == |fills| > 0
    requires var n := |fills| - 1;
             && Abs(errs[n]) <= eps
             && ReplayRounded(Flat(currency), fills[..n], errs[..n]) == Ok(before)
             && ApplyRounded(before, fills[n], errs[n]) == Ok(p)
             && Tracks(before, fills[..n])
             && Drift(before, fills[..n], mark) <= Allowance(eps, SizeAdded(currency, fills[..n], errs[..n]))
    ensures Tracks(p, fills)
    ensures Drift(p, fills, mark) <= Allowance(eps, SizeAdded(currency, fills, errs))
  {
    hide ApplyRounded;
    hide Drift;
    hide Tracks;
    hide Allowance;
    hide ReplayRounded;
    hide SizeAdded;
    hide SameDirection;
    hide SignedQty;
    hide Abs;
    var n := |fills| - 1;
    DriftOfOneFill(before, fills[..n], fills[n], errs[n], eps, p, mark);
    SizeOneMore(currency, fills, errs, before);
    assert fills[..n] + [fills[n]] == fills;
    if fills[n].id !in before.applied && SameDirection(before, fills[n]) {
      Spread(eps, SizeAdded(currency, fills[..n], errs[..n]), Abs(p.qty));
    }
  }
}
