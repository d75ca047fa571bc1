/** Funding accrual of an open perpetual position (domain/fee_schedule.py:182-238). */
module Funding {
  import opened Candles
  import opened Fills

  datatype FundingPayment = FundingPayment(amount: Money, accruedAt: int)

  /** The n-th boundary after opening. */
  function Boundary(openedAt: int, interval: Duration, n: int): int {
    openedAt + n * interval
  }

  /** How many whole intervals lie between opening and `ts`; none before it. */
  function Crossed(openedAt: int, interval: Duration, ts: int): nat
  {
    if ts < openedAt then 0
    else
      WholeIntervals(ts - openedAt, interval);
      (ts - openedAt) / interval
  }

  lemma WholeIntervals(d: nat, interval: Duration)
    ensures d / interval >= 0
  {
  }

  lemma DivisionBounds(d: int, interval: Duration)
    ensures d / interval * interval <= d < (d / interval + 1) * interval
  {
  }

  /** The count is pinned down by the boundaries around `ts`. */
  lemma CrossedIs(openedAt: int, interval: Duration, ts: int, n: nat)
    requires Boundary(openedAt, interval, n) <= ts < Boundary(openedAt, interval, n + 1)
    ensures Crossed(openedAt, interval, ts) == n
  {
    var d := ts - openedAt;
    BoundariesAscend(openedAt, interval, 0, n);
    DivisionBounds(d, interval);
    var q := d / interval;
    if q < n {
      BoundariesAscend(openedAt, interval, q + 1, n);
    } else if q > n {
      BoundariesAscend(openedAt, interval, n + 1, q);
    }
  }

  lemma BoundariesAscend(openedAt: int, interval: Duration, i: int, j: int)
    requires i <= j
    ensures Boundary(openedAt, interval, i) <= Boundary(openedAt, interval, j)
  {
    var k := j - i;
    assert j * interval == i * interval + k * interval;
    assert k * interval >= 0;
  }

  /** The boundaries after the i-th up to the j-th. */
  function Stamps(openedAt: int, interval: Duration, i: nat, j: nat): seq<int> {
    if j <= i then [] else Stamps(openedAt, interval, i, j - 1) + [Boundary(openedAt, interval, j)]
  }

  lemma {:induction false} StampsJoin(openedAt: int, interval: Duration, i: nat, j: nat, k: nat)
    requires i <= j <= k
    ensures Stamps(openedAt, interval, i, j) + Stamps(openedAt, interval, j, k) == Stamps(openedAt, interval, i, k)
  {
    hide Boundary;
    if j < k {
      StampsJoin(openedAt, interval, i, j, k - 1);
      assert Stamps(openedAt, interval, i, j) + Stamps(openedAt, interval, j, k)
          == Stamps(openedAt, interval, i, j) + Stamps(openedAt, interval, j, k - 1)
           + [Boundary(openedAt, interval, k)];
    }
  }

  function StampsOf(payments: seq<FundingPayment>): seq<int> {
    seq(|payments|, i requires 0 <= i < |payments| => payments[i].accruedAt)
  }

  function More(a: nat, b: nat): nat {
    if a >= b then a else b
  }

  class FundingAccrualTracker {
    const openedAt: int
    const fundingInterval: Duration
    var lastAccrualAt: int
    /** How many boundaries have been paid. */
    ghost var paid: nat

    ghost predicate Valid()
      reads this
    {
      lastAccrualAt == Boundary(openedAt, fundingInterval, paid)
    }

    constructor (openedAt: int, fundingInterval: Duration)
      ensures Valid() && paid == 0 && this.openedAt == openedAt && this.fundingInterval == fundingInterval
    {
      this.openedAt, this.fundingInterval := openedAt, fundingInterval;
      lastAccrualAt, paid := openedAt, 0;
      new;
      assert Boundary(openedAt, fundingInterval, 0) == openedAt;
    }

    /** One payment per boundary crossed, each a whole number of intervals after
        opening, the last one no later than the call; a call at a time that has
        already been paid for changes nothing. */
    method Accrue(currentTs: int, positionQty: real, markPrice: real, fundingRate: real, currency: string)
      returns (payments: seq<FundingPayment>)
      requires Valid()
      modifies this
      ensures Valid() && paid == More(old(paid), Crossed(openedAt, fundingInterval, currentTs))
      ensures StampsOf(payments) == Stamps(openedAt, fundingInterval, old(paid), paid)
      ensures paid == old(paid) + |payments| && currentTs < openedAt + (paid + 1) * fundingInterval
      ensures payments != [] ==> openedAt + paid * fundingInterval <= currentTs
      ensures forall i :: 0 <= i < |payments| ==>
              && payments[i].amount == Money(-(positionQty * markPrice * fundingRate), currency)
              && payments[i].accruedAt == openedAt + (old(paid) + i + 1) * fundingInterval
    {
      hide Crossed;
      hide Boundary;
      payments := [];
      ghost var before := paid;
      var amount := Money(-(positionQty * markPrice * fundingRate), currency);
      while currentTs - lastAccrualAt >= fundingInterval
        invariant Valid() && paid >= before && (paid > before ==> lastAccrualAt <= currentTs)
        invariant StampsOf(payments) == Stamps(openedAt, fundingInterval, before, paid)
        invariant paid == before + |payments|
        invariant forall i :: 0 <= i < |payments| ==>
                  payments[i] == FundingPayment(amount, Boundary(openedAt, fundingInterval, before + i + 1))
        decreases currentTs - lastAccrualAt
      {
        NextBoundary(openedAt, fundingInterval, paid);
        lastAccrualAt := lastAccrualAt + fundingInterval;
        paid := paid + 1;
        ghost var shorter := payments;
        payments := payments + [FundingPayment(amount, lastAccrualAt)];
        assert StampsOf(payments) == StampsOf(shorter) + [lastAccrualAt];
      }
      NextBoundary(openedAt, fundingInterval, paid);
      PaidUpTo(openedAt, fundingInterval, currentTs, before, paid);
      BoundaryIs(openedAt, fundingInterval, paid);
      BoundaryIs(openedAt, fundingInterval, paid + 1);
      forall i | 0 <= i < |payments|
        ensures payments[i].accruedAt == openedAt + (before + i + 1) * fundingInterval
      {
        BoundaryIs(openedAt, fundingInterval, before + i + 1);
      }
    }
  }

  lemma BoundaryIs(openedAt: int, interval: Duration, n: int)
    ensures Boundary(openedAt, interval, n) == openedAt + n * interval
  {
  }

  lemma NextBoundary(openedAt: int, interval: Duration, n: int)
    ensures Boundary(openedAt, interval, n + 1) == Boundary(openedAt, interval, n) + interval
  {
  }

  lemma PaidUpTo(openedAt: int, interval: Duration, ts: int, before: nat, paid: nat)
    requires before <= paid && ts < Boundary(openedAt, interval, paid + 1)
    requires paid > before ==> Boundary(openedAt, interval, paid) <= ts
    ensures paid == More(before, Crossed(openedAt, interval, ts))
  {
    if Boundary(openedAt, interval, paid) <= ts {
      CrossedIs(openedAt, interval, ts, paid);
    } else {
      FewerCrossed(openedAt, interval, ts, paid);
    }
  }

  lemma FewerCrossed(openedAt: int, interval: Duration, ts: int, n: nat)
    requires ts < Boundary(openedAt, interval, n)
    ensures Crossed(openedAt, interval, ts) <= n
  {
    if ts >= openedAt {
      var q := (ts - openedAt) / interval;
      DivisionBounds(ts - openedAt, interval);
      if q > n {
        BoundariesAscend(openedAt, interval, n, q);
      }
    }
  }

  // ----- any sequence of calls -----

  datatype Call = Call(ts: int, qty: real, mark: real, rate: real)

  /** Boundaries paid after all the calls. */
  function PaidAfter(openedAt: int, interval: Duration, calls: seq<Call>): nat {
    if calls == [] then 0
    else More(PaidAfter(openedAt, interval, calls[..|calls| - 1]), Crossed(openedAt, interval, calls[|calls| - 1].ts))
  }

  lemma CrossedMonotone(openedAt: int, interval: Duration, a: int, b: int)
    requires a <= b
    ensures Crossed(openedAt, interval, a) <= Crossed(openedAt, interval, b)
  {
    if a >= openedAt {
      var p, q := (a - openedAt) / interval, (b - openedAt) / interval;
      DivisionBounds(a - openedAt, interval);
      DivisionBounds(b - openedAt, interval);
      if p > q {
        BoundariesAscend(openedAt, interval, q + 1, p);
      }
    }
  }

  /** Only the latest time seen matters, in whatever order the calls came. */
  lemma {:induction false} PaidAfterIsLatest(openedAt: int, interval: Duration, calls: seq<Call>, latest: int)
    requires forall i :: 0 <= i < |calls| ==> calls[i].ts <= latest
    requires exists i :: 0 <= i < |calls| && calls[i].ts == latest
    ensures PaidAfter(openedAt, interval, calls) == Crossed(openedAt, interval, latest)
  {
    hide Crossed;
    var front, last := calls[..|calls| - 1], calls[|calls| - 1];
    PaidAtMost(openedAt, interval, front, latest);
    CrossedMonotone(openedAt, interval, last.ts, latest);
    if last.ts != latest {
      var i :| 0 <= i < |calls| && calls[i].ts == latest;
      assert front[i].ts == latest;
      PaidAfterIsLatest(openedAt, interval, front, latest);
    }
  }

  lemma {:induction false} PaidAtMost(openedAt: int, interval: Duration, calls: seq<Call>, latest: int)
    requires forall i :: 0 <= i < |calls| ==> calls[i].ts <= latest
    ensures PaidAfter(openedAt, interval, calls) <= Crossed(openedAt, interval, latest)
  {
    hide Crossed;
    if calls != [] {
      PaidAtMost(openedAt, interval, calls[..|calls| - 1], latest);
      CrossedMonotone(openedAt, interval, calls[|calls| - 1].ts, latest);
    }
  }

  /** What a boundary costs at the terms of a call. */
  function Due(call: Call, currency: string): Money {
    Money(-(call.qty * call.mark * call.rate), currency)
  }

  /** The boundary is paid at the terms of the first call that reaches it. */
  ghost predicate PaidAtFirstReach(calls: seq<Call>, boundary: int, amount: Money, currency: string) {
    exists i :: 0 <= i < |calls|
      && boundary <= calls[i].ts && (forall j :: 0 <= j < i ==> calls[j].ts < boundary)
      && amount == Due(calls[i], currency)
  }

  lemma StaysPaid(calls: seq<Call>, call: Call, boundary: int, amount: Money, currency: string)
    requires PaidAtFirstReach(calls, boundary, amount, currency)
    ensures PaidAtFirstReach(calls + [call], boundary, amount, currency)
  {
    hide Due;
    var i :| 0 <= i < |calls|
      && boundary <= calls[i].ts && (forall j :: 0 <= j < i ==> calls[j].ts < boundary)
      && amount == Due(calls[i], currency);
    assert (calls + [call])[i] == calls[i];
    forall j | 0 <= j < i ensures (calls + [call])[j].ts < boundary {
      assert (calls + [call])[j] == calls[j];
    }
  }

  lemma NewlyPaid(calls: seq<Call>, call: Call, boundary: int, currency: string)
    requires boundary <= call.ts && forall j :: 0 <= j < |calls| ==> calls[j].ts < boundary
    ensures PaidAtFirstReach(calls + [call], boundary, Due(call, currency), currency)
  {
    hide Due;
    var i := |calls|;
    assert (calls + [call])[i] == call;
    forall j | 0 <= j < i ensures (calls + [call])[j].ts < boundary {
      assert (calls + [call])[j] == calls[j];
    }
  }

  /** What the payments so far must look like: the first ones of the boundaries. */
  ghost predicate Settled(openedAt: int, interval: Duration, calls: seq<Call>, currency: string,
                          payments: seq<FundingPayment>)
  {
    && (forall k :: 0 <= k < |payments| ==>
          && payments[k].accruedAt == Boundary(openedAt, interval, k + 1)
          && PaidAtFirstReach(calls, payments[k].accruedAt, payments[k].amount, currency))
    && (forall j :: 0 <= j < |calls| ==> calls[j].ts < Boundary(openedAt, interval, |payments| + 1))
  }

  lemma OneCallSettles(openedAt: int, interval: Duration, calls: seq<Call>, call: Call, currency: string,
                       payments: seq<FundingPayment>, more: seq<FundingPayment>)
    requires Settled(openedAt, interval, calls, currency, payments)
    requires var paid := |payments| + |more|;
             && call.ts < Boundary(openedAt, interval, paid + 1)
             && (more != [] ==> Boundary(openedAt, interval, paid) <= call.ts)
    requires forall i :: 0 <= i < |more| ==>
               && more[i].amount == Due(call, currency)
               && more[i].accruedAt == Boundary(openedAt, interval, |payments| + i + 1)
    ensures Settled(openedAt, interval, calls + [call], currency, payments + more)
  {
    hide Boundary;
    hide PaidAtFirstReach;
    hide Due;
    var all, paid := payments + more, |payments| + |more|;
    BoundariesAscend(openedAt, interval, |payments| + 1, paid + 1);
    forall j | 0 <= j < |calls + [call]| ensures (calls + [call])[j].ts < Boundary(openedAt, interval, paid + 1) {
      assert j < |calls| ==> (calls + [call])[j] == calls[j];
    }
    forall k | 0 <= k < paid
      ensures all[k].accruedAt == Boundary(openedAt, interval, k + 1)
      ensures PaidAtFirstReach(calls + [call], all[k].accruedAt, all[k].amount, currency)
    {
      if k < |payments| {
        StaysPaid(calls, call, payments[k].accruedAt, payments[k].amount, currency);
      } else {
        BoundariesAscend(openedAt, interval, |payments| + 1, k + 1);
        BoundariesAscend(openedAt, interval, k + 1, paid);
        NewlyPaid(calls, call, Boundary(openedAt, interval, k + 1), currency);
        assert all[k] == more[k - |payments|];
      }
    }
  }

  /** All the payments of a position's life: stamped exactly with the boundaries
      1 .. n, the last of them the last that any call has reached, and each at the
      terms of the first call that reached it. */
  method AccrueAll(openedAt: int, interval: Duration, calls: seq<Call>, currency: string)
    returns (payments: seq<FundingPayment>)
    ensures StampsOf(payments) == Stamps(openedAt, interval, 0, PaidAfter(openedAt, interval, calls))
    ensures |payments| == PaidAfter(openedAt, interval, calls)
    ensures forall k :: 0 <= k < |payments| ==>
              && payments[k].accruedAt == openedAt + (k + 1) * interval
              && PaidAtFirstReach(calls, openedAt + (k + 1) * interval, payments[k].amount, currency)
    ensures forall j :: 0 <= j < |calls| ==> calls[j].ts < openedAt + (|payments| + 1) * interval
  {
    hide Crossed;
    hide Stamps;
    hide Settled;
    hide Boundary;
    hide PaidAtFirstReach;
    var tracker := new FundingAccrualTracker(openedAt, interval);
    payments := [];
    NoStamps(openedAt, interval);
    NothingSettled(openedAt, interval, currency);
    for n := 0 to |calls|
      invariant fresh(tracker) && tracker.Valid() && tracker.openedAt == openedAt && tracker.fundingInterval == interval
      invariant tracker.paid == PaidAfter(openedAt, interval, calls[..n]) == |payments|
      invariant StampsOf(payments) == Stamps(openedAt, interval, 0, tracker.paid)
      invariant Settled(openedAt, interval, calls[..n], currency, payments)
    {
      ghost var before := tracker.paid;
      var more := tracker.Accrue(calls[n].ts, calls[n].qty, calls[n].mark, calls[n].rate, currency);
      assert calls[..n + 1][..n] == calls[..n] && calls[..n + 1] == calls[..n] + [calls[n]];
      StampsJoin(openedAt, interval, 0, before, tracker.paid);
      assert StampsOf(payments + more) == StampsOf(payments) + StampsOf(more);
      BoundariesAre(openedAt, interval, before, more, tracker.paid);
      OneCallSettles(openedAt, interval, calls[..n], calls[n], currency, payments, more);
      payments := payments + more;
    }
    assert calls[..|calls|] == calls;
    SettledSpelled(openedAt, interval, calls, currency, payments);
  }

  lemma BoundariesAre(openedAt: int, interval: Duration, before: nat, more: seq<FundingPayment>, paid: nat)
    requires forall i :: 0 <= i < |more| ==> more[i].accruedAt == openedAt + (before + i + 1) * interval
    ensures forall i :: 0 <= i < |more| ==> more[i].accruedAt == Boundary(openedAt, interval, before + i + 1)
    ensures Boundary(openedAt, interval, paid) == openedAt + paid * interval
    ensures Boundary(openedAt, interval, paid + 1) == openedAt + (paid + 1) * interval
  {
  }

  lemma NothingSettled(openedAt: int, interval: Duration, currency: string)
    ensures Settled(openedAt, interval, [], currency, [])
  {
  }

  lemma SettledSpelled(openedAt: int, interval: Duration, calls: seq<Call>, currency: string,
                       payments: seq<FundingPayment>)
    requires Settled(openedAt, interval, calls, currency, payments)
    ensures forall k :: 0 <= k < |payments| ==>
              && payments[k].accruedAt == openedAt + (k + 1) * interval
              && PaidAtFirstReach(calls, openedAt + (k + 1) * interval, payments[k].amount, currency)
    ensures forall j :: 0 <= j < |calls| ==> calls[j].ts < openedAt + (|payments| + 1) * interval
  {
    hide PaidAtFirstReach;
  }

  lemma NoStamps(openedAt: int, interval: Duration)
    ensures Stamps(openedAt, interval, 0, 0) == [] == StampsOf([])
  {
  }

  lemma {:induction false} PaidAfterConcat(openedAt: int, interval: Duration, a: seq<Call>, b: seq<Call>)
    ensures PaidAfter(openedAt, interval, a + b)
            == More(PaidAfter(openedAt, interval, a), PaidAfter(openedAt, interval, b))
  {
    hide Crossed;
    if b == [] {
      assert a + b == a;
    } else {
      PaidAfterConcat(openedAt, interval, a, b[..|b| - 1]);
      assert (a + b)[..|a + b| - 1] == a + b[..|b| - 1];
    }
  }

  /** Splitting a call into several at earlier times changes no stamp, whatever
      calls came before: the stamps from there on are those of the one call. */
  lemma SplittingChangesNoStamp(openedAt: int, interval: Duration, before: seq<Call>, earlier: seq<Call>, call: Call)
    requires forall i :: 0 <= i < |earlier| ==> earlier[i].ts <= call.ts
    ensures var paid := PaidAfter(openedAt, interval, before);
            Stamps(openedAt, interval, paid, PaidAfter(openedAt, interval, before + earlier + [call]))
            == Stamps(openedAt, interval, paid, PaidAfter(openedAt, interval, before + [call]))
  {
    hide Crossed;
    hide Stamps;
    var calls := earlier + [call];
    assert calls[|earlier|] == call;
    PaidAfterIsLatest(openedAt, interval, calls, call.ts);
    assert [call][0].ts == call.ts;
    PaidAfterIsLatest(openedAt, interval, [call], call.ts);
    PaidAfterConcat(openedAt, interval, before, calls);
    PaidAfterConcat(openedAt, interval, before, [call]);
    assert before + earlier + [call] == before + calls;
  }
}
