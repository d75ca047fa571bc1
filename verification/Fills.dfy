/** Money and executions (domain/money.py, domain/fill.py). Decimal amounts are
    exact reals; UUIDs and timestamps are opaque integers. */
module Fills {
  import opened Common

  datatype Money = Money(amount: real, currency: string)

  datatype CurrencyMismatch = CurrencyMismatch(left: string, right: string)

  function Add(a: Money, b: Money): Result<Money, CurrencyMismatch> {
    if a.currency != b.currency then Err(CurrencyMismatch(a.currency, b.currency))
    else Ok(Money(a.amount + b.amount, a.currency))
  }

  function Sub(a: Money, b: Money): Result<Money, CurrencyMismatch> {
    if a.currency != b.currency then Err(CurrencyMismatch(a.currency, b.currency))
    else Ok(Money(a.amount - b.amount, a.currency))
  }

  datatype FillRecord = FillRecord(id: nat, side: OrderSide, qty: real, price: real, fee: Money, ts: int)

  /** The Fill constructor refuses a non-positive quantity or price. */
  type Fill = f: FillRecord | f.qty > 0.0 && f.price > 0.0
    witness FillRecord(0, Buy, 1.0, 1.0, Money(0.0, "USDT"), 0)

  function SignedQty(f: Fill): real {
    if f.side == Buy then f.qty else -f.qty
  }

  function Ids(fills: seq<Fill>): set<nat> {
    set i | 0 <= i < |fills| :: fills[i].id
  }

  predicate DistinctIds(fills: seq<Fill>) {
    forall i, j :: 0 <= i < j < |fills| ==> fills[i].id != fills[j].id
  }

  /** The history with every repeat of an id dropped: the first delivery counts. */
  function FirstDeliveries(fills: seq<Fill>): (r: seq<Fill>)
    ensures Ids(r) == Ids(fills)
    ensures DistinctIds(r)
  {
    if fills == [] then []
    else
      var n := |fills| - 1;
      var r := FirstDeliveries(fills[..n]);
      assert Ids(fills) == Ids(fills[..n]) + {fills[n].id} by {
        IdsSnoc(fills[..n], fills[n]);
        assert fills == fills[..n] + [fills[n]];
      }
      if fills[n].id in Ids(fills[..n]) then r
      else
        IdsSnoc(r, fills[n]);
        r + [fills[n]]
  }

  /** What is kept: a subsequence, in order, of the first copy of every id. */
  lemma {:induction false} FirstDeliveriesAreFirst(fills: seq<Fill>) returns (at: seq<nat>)
    ensures |at| == |FirstDeliveries(fills)|
    ensures forall i :: 0 <= i < |at| ==> at[i] < |fills| && FirstDeliveries(fills)[i] == fills[at[i]]
    ensures forall i, j :: 0 <= i < j < |at| ==> at[i] < at[j]
    ensures forall i, j :: 0 <= i < |at| && 0 <= j < at[i] ==> fills[j].id != fills[at[i]].id
  {
    hide FirstDeliveries;
    hide DistinctIds;
    hide Ids;
    at := [];
    if fills == [] {
      NothingDelivered();
    } else {
      var front, f := Front(fills), Last(fills);
      assert fills == front + [f];
      at := FirstDeliveriesAreFirst(front);
      DeliverOneMore(front, f);
      if f.id !in Ids(front) {
        NewId(front, f.id);
        at := at + [|front|];
      }
    }
  }

  lemma NothingDelivered()
    ensures FirstDeliveries([]) == []
  {
  }

  lemma NewId(fills: seq<Fill>, id: nat)
    requires id !in Ids(fills)
    ensures forall j :: 0 <= j < |fills| ==> fills[j].id != id
  {
  }

  lemma IdsSnoc(fills: seq<Fill>, f: Fill)
    ensures Ids(fills + [f]) == Ids(fills) + {f.id}
  {
    var all := fills + [f];
    assert forall i :: 0 <= i < |fills| ==> all[i] == fills[i];
    assert all[|fills|] == f;
    forall x | x in Ids(fills) + {f.id} ensures x in Ids(all) {
      if x in Ids(fills) {
        var i :| 0 <= i < |fills| && fills[i].id == x;
        assert all[i].id == x;
      }
    }
  }

  lemma DeliverOneMore(fills: seq<Fill>, f: Fill)
    ensures FirstDeliveries(fills + [f])
         == if f.id in Ids(fills) then FirstDeliveries(fills) else FirstDeliveries(fills) + [f]
    ensures Ids(fills + [f]) == Ids(fills) + {f.id}
  {
    assert (fills + [f])[..|fills|] == fills;
    IdsSnoc(fills, f);
  }

  lemma {:induction false} DistinctUnchanged(fills: seq<Fill>)
    requires DistinctIds(fills)
    ensures FirstDeliveries(fills) == fills
  {
    if fills != [] {
      var n := |fills| - 1;
      DistinctUnchanged(fills[..n]);
      assert fills == fills[..n] + [fills[n]];
    }
  }

  /** What one fill is worth when its quantity is valued at `mark`. */
  function Worth(f: Fill, mark: real): real {
    SignedQty(f) * (mark - f.price) - f.fee.amount
  }

  /** The cash statement of a history: no lots, no averages, no realization. */
  function CashValue(fills: seq<Fill>, mark: real): real {
    if fills == [] then 0.0
    else CashValue(fills[..|fills| - 1], mark) + Worth(fills[|fills| - 1], mark)
  }

  function NetQty(fills: seq<Fill>): real {
    if fills == [] then 0.0
    else NetQty(fills[..|fills| - 1]) + SignedQty(fills[|fills| - 1])
  }

  lemma {:induction false} SumsConcat(a: seq<Fill>, b: seq<Fill>, mark: real)
    ensures CashValue(a + b, mark) == CashValue(a, mark) + CashValue(b, mark)
    ensures NetQty(a + b) == NetQty(a) + NetQty(b)
  {
    if b == [] {
      assert a + b == a;
    } else {
      var n := |b| - 1;
      SumsConcat(a, b[..n], mark);
      assert (a + b)[..|a + b| - 1] == a + b[..n];
    }
  }

  lemma SumsSnoc(a: seq<Fill>, f: Fill, mark: real)
    ensures CashValue(a + [f], mark) == CashValue(a, mark) + Worth(f, mark)
    ensures NetQty(a + [f]) == NetQty(a) + SignedQty(f)
  {
    assert (a + [f])[..|a|] == a;
  }

  lemma SumsWithout(a: seq<Fill>, k: nat, mark: real)
    requires k < |a|
    ensures CashValue(a, mark) == CashValue(a[..k] + a[k + 1..], mark) + Worth(a[k], mark)
    ensures NetQty(a) == NetQty(a[..k] + a[k + 1..]) + SignedQty(a[k])
  {
    assert a == a[..k] + [a[k]] + a[k + 1..];
    SumsSnoc(a[..k], a[k], mark);
    SumsConcat(a[..k] + [a[k]], a[k + 1..], mark);
    SumsConcat(a[..k], a[k + 1..], mark);
  }

  lemma BagWithout(a: seq<Fill>, k: nat)
    requires k < |a|
    ensures multiset(a[..k] + a[k + 1..]) == multiset(a) - multiset{a[k]}
  {
    assert a == a[..k] + [a[k]] + a[k + 1..];
  }

  lemma Locate(a: seq<Fill>, b: seq<Fill>) returns (k: nat)
    requires multiset(a) == multiset(b) && a != []
    ensures k < |b| && b[k] == a[0]
    ensures multiset(a[..0] + a[1..]) == multiset(b[..k] + b[k + 1..])
  {
    assert a[0] in multiset(b);
    k :| 0 <= k < |b| && b[k] == a[0];
    BagWithout(a, 0);
    BagWithout(b, k);
  }

  lemma SameBagSameLength(a: seq<Fill>, b: seq<Fill>)
    requires multiset(a) == multiset(b)
    ensures |a| == |b|
  {
    assert |multiset(a)| == |multiset(b)|;
  }

  /** The sums do not see the order of the fills. */
  lemma {:induction false} SumsOrderFree(a: seq<Fill>, b: seq<Fill>, mark: real)
    requires multiset(a) == multiset(b)
    ensures CashValue(a, mark) == CashValue(b, mark)
    ensures NetQty(a) == NetQty(b)
    decreases |a|
  {
    hide CashValue;
    hide NetQty;
    hide Worth;
    SameBagSameLength(a, b);
    if a == [] {
      assert a == b;
    } else {
      var k := Locate(a, b);
      var lessA, lessB := a[..0] + a[1..], b[..k] + b[k + 1..];
      SumsOrderFree(lessA, lessB, mark);
      SumsWithout(a, 0, mark);
      SumsWithout(b, k, mark);
    }
  }
}
