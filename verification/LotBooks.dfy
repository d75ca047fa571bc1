/** The lot accounting a Position does without: every opening fill keeps its own
    lot and a policy picks which lot the next closing quantity comes from. FIFO,
    LIFO and specific identification are all such policies, and the average-cost
    Position has the total profit of each of them (domain/position.py:9-18). */
module LotBooks {
  import opened Common
  import opened Fills
  import opened Positions

  datatype Lot = Lot(qty: real, price: real)

  /** `realized` is in the currency of the history. */
  datatype Book = Book(long: bool, lots: seq<Lot>, realized: real)

  /** Which of several open lots is closed next; out of range means the oldest. */
  type Policy = seq<Lot> -> nat

  const FIFO: Policy := (lots: seq<Lot>) => 0
  const LIFO: Policy := (lots: seq<Lot>) => if |lots| == 0 then 0 else |lots| - 1

  function Chosen(pick: Policy, lots: seq<Lot>): (i: nat)
    requires lots != []
    ensures i < |lots|
  {
    if pick(lots) < |lots| then pick(lots) else 0
  }

  predicate Open(lots: seq<Lot>) {
    forall i :: 0 <= i < |lots| ==> lots[i].qty > 0.0
  }

  function Sign(long: bool): real {
    if long then 1.0 else -1.0
  }

  datatype Closing = Closing(lots: seq<Lot>, left: real, pnl: real)

  /** Profit of closing `qty` of a lot bought at `cost`. */
  function LotPnl(long: bool, qty: real, cost: real, price: real): real {
    qty * (price - cost) * Sign(long)
  }

  /** Close up to `qty` against the open lots, one chosen lot at a time. */
  function Close(long: bool, lots: seq<Lot>, qty: real, price: real, pick: Policy): Closing
    decreases |lots|
  {
    if lots == [] || qty <= 0.0 then Closing(lots, qty, 0.0)
    else
      var i := Chosen(pick, lots);
      var lot := lots[i];
      if lot.qty <= qty then
        var rest := Close(long, lots[..i] + lots[i + 1..], qty - lot.qty, price, pick);
        rest.(pnl := rest.pnl + LotPnl(long, lot.qty, lot.price, price))
      else
        Closing(lots[i := Lot(lot.qty - qty, lot.price)], 0.0, LotPnl(long, qty, lot.price, price))
  }

  function ApplyToBook(b: Book, f: Fill, pick: Policy): Book {
    if b.lots == [] || b.long == (f.side == Buy) then
      Book(f.side == Buy, b.lots + [Lot(f.qty, f.price)], b.realized - f.fee.amount)
    else
      var c := Close(b.long, b.lots, f.qty, f.price, pick);
      var realized := b.realized + c.pnl - f.fee.amount;
      if c.left > 0.0 then Book(!b.long, c.lots + [Lot(c.left, f.price)], realized)
      else Book(b.long, c.lots, realized)
  }

  function ReplayLots(fills: seq<Fill>, pick: Policy): Book {
    if fills == [] then Book(true, [], 0.0)
    else ApplyToBook(ReplayLots(fills[..|fills| - 1], pick), fills[|fills| - 1], pick)
  }

  function LotQty(lots: seq<Lot>): real {
    if lots == [] then 0.0 else lots[0].qty + LotQty(lots[1..])
  }

  function LotCost(lots: seq<Lot>): real {
    if lots == [] then 0.0 else Cost(lots[0]) + LotCost(lots[1..])
  }

  function BookQty(b: Book): real {
    Sign(b.long) * LotQty(b.lots)
  }

  function BookCost(b: Book): real {
    Sign(b.long) * LotCost(b.lots)
  }

  /** Realized profit plus the value of every open lot at `mark`. */
  function BookTotal(b: Book, mark: real): real {
    b.realized + BookQty(b) * mark - BookCost(b)
  }

  // ----- sums over lots -----

  lemma {:induction false} LotSumsConcat(a: seq<Lot>, b: seq<Lot>)
    ensures LotQty(a + b) == LotQty(a) + LotQty(b)
    ensures LotCost(a + b) == LotCost(a) + LotCost(b)
  {
    if a == [] {
      assert a + b == b;
    } else {
      LotSumsConcat(a[1..], b);
      assert (a + b)[1..] == a[1..] + b;
    }
  }

  function Cost(lot: Lot): real {
    lot.qty * lot.price
  }

  lemma {:induction false} LotSumsWithout(lots: seq<Lot>, i: nat)
    requires i < |lots|
    ensures LotQty(lots[..i] + lots[i + 1..]) == LotQty(lots) - lots[i].qty
    ensures LotCost(lots[..i] + lots[i + 1..]) == LotCost(lots) - Cost(lots[i])
  {
    if i == 0 {
      assert lots[..0] + lots[1..] == lots[1..];
    } else {
      LotSumsWithout(lots[1..], i - 1);
      var rest := lots[..i] + lots[i + 1..];
      assert rest[0] == lots[0];
      assert rest[1..] == lots[1..][..i - 1] + lots[1..][i..];
    }
  }

  lemma {:induction false} LotSumsUpdate(lots: seq<Lot>, i: nat, lot: Lot)
    requires i < |lots|
    ensures LotQty(lots[i := lot]) == LotQty(lots) - lots[i].qty + lot.qty
    ensures LotCost(lots[i := lot]) == LotCost(lots) - Cost(lots[i]) + Cost(lot)
  {
    if i == 0 {
      assert lots[i := lot][1..] == lots[1..];
    } else {
      LotSumsUpdate(lots[1..], i - 1, lot);
      assert lots[i := lot][1..] == lots[1..][i - 1 := lot];
    }
  }

  lemma {:induction false} OpenLotsPositive(lots: seq<Lot>)
    requires Open(lots)
    ensures LotQty(lots) >= 0.0
    ensures LotQty(lots) == 0.0 <==> lots == []
  {
    if lots != [] {
      OpenLotsPositive(lots[1..]);
    }
  }

  // ----- one fill -----

  /** Closing conserves quantity, and the profit booked is what the closed
      quantity fetched minus the cost that left the book. */
  predicate Conserved(long: bool, lots: seq<Lot>, qty: real, price: real, c: Closing) {
    && Open(c.lots)
    && 0.0 <= c.left <= qty
    && (c.left > 0.0 ==> c.lots == [])
    && LotQty(c.lots) == LotQty(lots) - (qty - c.left)
    && c.pnl == Proceeds(long, qty - c.left, price, LotCost(lots) - LotCost(c.lots))
  }

  function Proceeds(long: bool, closed: real, price: real, cost: real): real {
    Sign(long) * (closed * price - cost)
  }

  lemma {:induction false} CloseConserves(long: bool, lots: seq<Lot>, qty: real, price: real, pick: Policy)
    requires Open(lots) && qty >= 0.0
    ensures Conserved(long, lots, qty, price, Close(long, lots, qty, price, pick))
    decreases |lots|
  {
    hide Conserved;
    hide LotPnl;
    hide Open;
    if lots == [] || qty <= 0.0 {
      ClosesNothing(long, lots, qty, price);
    } else {
      var i := Chosen(pick, lots);
      if lots[i].qty <= qty {
        var rest := lots[..i] + lots[i + 1..];
        OpenWithout(lots, i);
        CloseConserves(long, rest, qty - lots[i].qty, price, pick);
        CloseWholeLot(long, lots, i, qty, price, Close(long, rest, qty - lots[i].qty, price, pick));
      } else {
        ClosePartOfLot(long, lots, i, qty, price);
      }
    }
  }

  lemma ClosesNothing(long: bool, lots: seq<Lot>, qty: real, price: real)
    requires Open(lots) && qty >= 0.0 && (lots == [] || qty <= 0.0)
    ensures Conserved(long, lots, qty, price, Closing(lots, qty, 0.0))
  {
  }

  lemma OpenWithout(lots: seq<Lot>, i: nat)
    requires Open(lots) && i < |lots|
    ensures lots[i].qty > 0.0 && Open(lots[..i] + lots[i + 1..])
  {
  }

  lemma CloseWholeLot(long: bool, lots: seq<Lot>, i: nat, qty: real, price: real, c: Closing)
    requires i < |lots| && 0.0 < lots[i].qty <= qty
    requires Conserved(long, lots[..i] + lots[i + 1..], qty - lots[i].qty, price, c)
    ensures Conserved(long, lots, qty, price, c.(pnl := c.pnl + LotPnl(long, lots[i].qty, lots[i].price, price)))
  {
    LotSumsWithout(lots, i);
    hide Cost;
    hide LotPnl;
    hide Proceeds;
    AddProceeds(long, qty - lots[i].qty - c.left, price, LotCost(lots[..i] + lots[i + 1..]) - LotCost(c.lots), lots[i]);
  }

  lemma AddProceeds(long: bool, closed: real, price: real, cost: real, lot: Lot)
    ensures Proceeds(long, closed, price, cost) + LotPnl(long, lot.qty, lot.price, price)
         == Proceeds(long, closed + lot.qty, price, cost + Cost(lot))
  {
  }

  lemma ClosePartOfLot(long: bool, lots: seq<Lot>, i: nat, qty: real, price: real)
    requires Open(lots) && i < |lots| && 0.0 < qty < lots[i].qty
    ensures Conserved(long, lots, qty, price,
              Closing(lots[i := Lot(lots[i].qty - qty, lots[i].price)], 0.0, LotPnl(long, qty, lots[i].price, price)))
  {
    var cut := Lot(lots[i].qty - qty, lots[i].price);
    LotSumsUpdate(lots, i, cut);
    AddProceeds(long, 0.0, price, 0.0, Lot(qty, lots[i].price));
    assert Cost(cut) == Cost(lots[i]) - Cost(Lot(qty, lots[i].price));
  }

  lemma FillMovesBook(b: Book, f: Fill, pick: Policy, mark: real)
    requires Open(b.lots)
    ensures var c := ApplyToBook(b, f, pick);
            && Open(c.lots)
            && BookTotal(c, mark) == BookTotal(b, mark) + Worth(f, mark)
            && BookQty(c) == BookQty(b) + SignedQty(f)
  {
    if b.lots == [] || b.long == (f.side == Buy) {
      AddLot(b, f, mark);
    } else {
      CloseConserves(b.long, b.lots, f.qty, f.price, pick);
      CloseAgainst(b, f, Close(b.long, b.lots, f.qty, f.price, pick), mark);
    }
  }

  lemma AddLot(b: Book, f: Fill, mark: real)
    requires b.lots == [] || b.long == (f.side == Buy)
    ensures var c := Book(f.side == Buy, b.lots + [Lot(f.qty, f.price)], b.realized - f.fee.amount);
            BookTotal(c, mark) == BookTotal(b, mark) + Worth(f, mark) && BookQty(c) == BookQty(b) + SignedQty(f)
  {
    hide BookTotal;
    hide BookQty;
    hide Worth;
    hide SignedQty;
    hide Times;
    hide LotQty;
    hide LotCost;
    var after := Book(f.side == Buy, b.lots + [Lot(f.qty, f.price)], b.realized - f.fee.amount);
    LotSumsConcat(b.lots, [Lot(f.qty, f.price)]);
    OneLotCost(Lot(f.qty, f.price));
    TotalBySide(b, mark);
    TotalBySide(after, mark);
    WorthBySide(f, mark);
    Split(LotQty(b.lots), f.qty, mark);
    NoLots(mark);
  }

  lemma NoLots(mark: real)
    ensures Times(LotQty([]), mark) == 0.0 && LotQty([]) == 0.0 && LotCost([]) == 0.0
  {
  }

  lemma SingleLot(lot: Lot)
    ensures LotQty([lot]) == lot.qty && LotCost([lot]) == Cost(lot)
  {
    assert [lot][1..] == [];
  }

  lemma TotalBySide(b: Book, mark: real)
    ensures BookTotal(b, mark) == if b.long then b.realized + Times(LotQty(b.lots), mark) - LotCost(b.lots)
                                  else b.realized - Times(LotQty(b.lots), mark) + LotCost(b.lots)
    ensures BookQty(b) == if b.long then LotQty(b.lots) else -LotQty(b.lots)
  {
  }

  lemma WorthBySide(f: Fill, mark: real)
    ensures Worth(f, mark) == (if f.side == Buy then Times(f.qty, mark) - Times(f.qty, f.price)
                               else Times(f.qty, f.price) - Times(f.qty, mark)) - f.fee.amount
    ensures SignedQty(f) == if f.side == Buy then f.qty else -f.qty
  {
  }

  lemma ProceedsBySide(long: bool, closed: real, price: real, cost: real)
    ensures Proceeds(long, closed, price, cost)
         == if long then Times(closed, price) - cost else cost - Times(closed, price)
  {
  }

  lemma Split(x: real, y: real, z: real)
    ensures Times(x + y, z) == Times(x, z) + Times(y, z)
  {
  }

  lemma OneLotCost(lot: Lot)
    ensures LotQty([lot]) == lot.qty && LotCost([lot]) == Times(lot.qty, lot.price)
  {
    SingleLot(lot);
  }

  lemma CloseAgainst(b: Book, f: Fill, c: Closing, mark: real)
    requires b.long != (f.side == Buy) && Conserved(b.long, b.lots, f.qty, f.price, c)
    ensures var realized := b.realized + c.pnl - f.fee.amount;
            var after := if c.left > 0.0 then Book(!b.long, c.lots + [Lot(c.left, f.price)], realized)
                         else Book(b.long, c.lots, realized);
            BookTotal(after, mark) == BookTotal(b, mark) + Worth(f, mark) && BookQty(after) == BookQty(b) + SignedQty(f)
  {
    hide BookTotal;
    hide BookQty;
    hide Worth;
    hide SignedQty;
    hide Proceeds;
    hide Times;
    hide LotQty;
    hide LotCost;
    var closed := f.qty - c.left;
    var realized := b.realized + c.pnl - f.fee.amount;
    WorthBySide(f, mark);
    ProceedsBySide(b.long, closed, f.price, LotCost(b.lots) - LotCost(c.lots));
    TotalBySide(b, mark);
    Split(LotQty(c.lots), closed, mark);
    Split(closed, c.left, mark);
    Split(closed, c.left, f.price);
    if c.left > 0.0 {
      assert c.lots + [Lot(c.left, f.price)] == [Lot(c.left, f.price)];
      OneLotCost(Lot(c.left, f.price));
      NoLots(mark);
      TotalBySide(Book(!b.long, [Lot(c.left, f.price)], realized), mark);
    } else {
      TotalBySide(Book(b.long, c.lots, realized), mark);
    }
  }

  lemma {:induction false} BookTotalIsCash(fills: seq<Fill>, pick: Policy, mark: real)
    ensures var b := ReplayLots(fills, pick);
            && Open(b.lots)
            && BookTotal(b, mark) == CashValue(fills, mark)
            && BookQty(b) == NetQty(fills)
  {
    if fills != [] {
      BookTotalIsCash(fills[..|fills| - 1], pick, mark);
      FillMovesBook(ReplayLots(fills[..|fills| - 1], pick), fills[|fills| - 1], pick, mark);
    }
  }

  // ----- average cost against lots -----

  /** For every fill history, every lot policy and every mark price: the same
      holding and the same total. The realized parts differ by exactly the
      difference of the two cost bases, so they agree if and only if those do,
      and in particular whenever the position is flat. */
  lemma TotalAgreesWithEveryLotPolicy(currency: string, fills: seq<Fill>, p: Position, pick: Policy, mark: real)
    requires Replay(Flat(currency), fills) == Ok(p)
    ensures var b := ReplayLots(FirstDeliveries(fills), pick);
            && BookQty(b) == p.qty
            && BookTotal(b, mark) == TotalPnl(p, mark)
            && p.realized.amount - b.realized == p.qty * p.avgEntry - BookCost(b)
            && (p.qty == 0.0 ==> b.lots == [] && p.realized.amount == b.realized)
  {
    hide Replay;
    hide TotalPnl;
    hide BookTotal;
    hide BookQty;
    hide BookCost;
    var b := ReplayLots(FirstDeliveries(fills), pick);
    TotalIsCash(currency, fills, p, mark);
    BookTotalIsCash(FirstDeliveries(fills), pick, mark);
    TotalIsCash(currency, fills, p, 0.0);
    BookTotalIsCash(FirstDeliveries(fills), pick, 0.0);
    OpenLotsPositive(b.lots);
    SameTotalDifferentBasis(p, b);
  }

  lemma SameTotalDifferentBasis(p: Position, b: Book)
    requires Open(b.lots) && BookQty(b) == p.qty
    requires TotalPnl(p, 0.0) == BookTotal(b, 0.0)
    ensures p.realized.amount - b.realized == p.qty * p.avgEntry - BookCost(b)
    ensures p.qty == 0.0 ==> b.lots == [] && p.realized.amount == b.realized
  {
    OpenLotsPositive(b.lots);
    MarkedCost(p.qty, p.avgEntry, 0.0);
  }

  lemma FifoAndLifoAgree(currency: string, fills: seq<Fill>, p: Position, mark: real)
    requires Replay(Flat(currency), fills) == Ok(p)
    ensures var first := FirstDeliveries(fills);
            && BookTotal(ReplayLots(first, FIFO), mark) == TotalPnl(p, mark)
            && BookTotal(ReplayLots(first, LIFO), mark) == TotalPnl(p, mark)
            && (p.qty == 0.0 ==> ReplayLots(first, FIFO).realized == ReplayLots(first, LIFO).realized)
  {
    hide Replay;
    hide TotalPnl;
    hide BookTotal;
    hide BookCost;
    TotalAgreesWithEveryLotPolicy(currency, fills, p, FIFO, mark);
    TotalAgreesWithEveryLotPolicy(currency, fills, p, LIFO, mark);
  }

  function ExampleFill(id: nat, side: OrderSide, price: real): Fill
    requires price > 0.0
  {
    FillRecord(id, side, 1.0, price, Money(0.0, "USDT"), id)
  }

  /** Buy one at 10, buy one at 30, sell one at 40. */
  const EXAMPLE: seq<Fill> :=
    [] + [ExampleFill(1, Buy, 10.0)] + [ExampleFill(2, Buy, 30.0)] + [ExampleFill(3, Sell, 40.0)]

  /** The realized parts alone do depend on the policy: of the example FIFO has
      realized 30 and LIFO 10. */
  lemma RealizedAloneDependsOnThePolicy()
    ensures ReplayLots(EXAMPLE, FIFO).realized == 30.0
    ensures ReplayLots(EXAMPLE, LIFO).realized == 10.0
  {
    ExampleBook(FIFO);
    ExampleBook(LIFO);
  }

  lemma ReplayLotsOneMore(fills: seq<Fill>, f: Fill, pick: Policy)
    ensures ReplayLots(fills + [f], pick) == ApplyToBook(ReplayLots(fills, pick), f, pick)
  {
    assert (fills + [f])[..|fills|] == fills;
  }

  lemma NoFillsNoLots(pick: Policy)
    ensures ReplayLots([], pick) == Book(true, [], 0.0)
  {
  }

  lemma SellOneOfTwo(pick: Policy)
    ensures var open := [Lot(1.0, 10.0), Lot(1.0, 30.0)];
            Close(true, open, 1.0, 40.0, pick).pnl == 40.0 - open[Chosen(pick, open)].price
  {
    var open := [Lot(1.0, 10.0), Lot(1.0, 30.0)];
    var i := Chosen(pick, open);
    assert Close(true, open[..i] + open[i + 1..], 0.0, 40.0, pick).pnl == 0.0;
  }

  lemma ExampleBook(pick: Policy)
    ensures var open := [Lot(1.0, 10.0), Lot(1.0, 30.0)];
            ReplayLots(EXAMPLE, pick).realized == 40.0 - open[Chosen(pick, open)].price
  {
    hide ReplayLots;
    hide Close;
    hide Chosen;
    var buy10, buy30, sell := ExampleFill(1, Buy, 10.0), ExampleFill(2, Buy, 30.0), ExampleFill(3, Sell, 40.0);
    var open := [Lot(1.0, 10.0), Lot(1.0, 30.0)];
    NoFillsNoLots(pick);
    ReplayLotsOneMore([], buy10, pick);
    ReplayLotsOneMore([] + [buy10], buy30, pick);
    ReplayLotsOneMore([] + [buy10] + [buy30], sell, pick);
    assert [] + [Lot(1.0, 10.0)] + [Lot(1.0, 30.0)] == open;
    SellOneOfTwo(pick);
  }

  // ----- average cost as a one-lot book -----

  function AsBook(p: Position): Book {
    Book(p.qty > 0.0, if p.qty == 0.0 then [] else [Lot(Abs(p.qty), p.avgEntry)], p.realized.amount)
  }

  /** Melt all lots into one at their average price. */
  function Pool(b: Book): Book {
    var size := LotQty(b.lots);
    if size == 0.0 then b else b.(lots := [Lot(size, LotCost(b.lots) / size)])
  }

  /** Applying a fill is applying it to a one-lot book and pooling again,
      whatever the policy. With the entry of a flat result, the currency and the
      applied ids this fixes every field of the new position. */
  lemma ApplyFillPools(p: Position, f: Fill, q: Position, pick: Policy)
    requires f.id !in p.applied && ApplyFill(p, f) == Ok(q)
    ensures var b := Pool(ApplyToBook(AsBook(p), f, pick));
            && AsBook(q).lots == b.lots
            && AsBook(q).realized == b.realized
            && (b.lots != [] ==> b.long == AsBook(q).long)
            && q.applied == p.applied + {f.id}
    ensures q.qty == 0.0 ==> q.avgEntry == 0.0
    ensures q.realized.currency == p.realized.currency == f.fee.currency
  {
    hide WeightedAverage;
    hide Pool;
    FlatHasNoEntry(p, f, q);
    if SameDirection(p, f) {
      PoolAdded(p, f, q);
      assert ApplyToBook(AsBook(p), f, pick).lots == AsBook(p).lots + [Lot(f.qty, f.price)];
    } else {
      PoolClosed(p, f, q, pick);
    }
  }

  lemma FlatHasNoEntry(p: Position, f: Fill, q: Position)
    requires f.id !in p.applied && ApplyFill(p, f) == Ok(q)
    ensures q.qty == 0.0 ==> q.avgEntry == 0.0
    ensures q.realized.currency == p.realized.currency == f.fee.currency
  {
    hide WeightedAverage;
    hide PricePnl;
  }

  lemma PoolAdded(p: Position, f: Fill, q: Position)
    requires f.id !in p.applied && ApplyFill(p, f) == Ok(q) && SameDirection(p, f)
    ensures var b := Pool(Book(f.side == Buy, AsBook(p).lots + [Lot(f.qty, f.price)],
                               p.realized.amount - f.fee.amount));
            && AsBook(q).lots == b.lots
            && AsBook(q).realized == b.realized
            && b.long == AsBook(q).long
  {
    var lots := AsBook(p).lots + [Lot(f.qty, f.price)];
    SingleLot(Lot(f.qty, f.price));
    if p.qty != 0.0 {
      SingleLot(Lot(Abs(p.qty), p.avgEntry));
    }
    LotSumsConcat(AsBook(p).lots, [Lot(f.qty, f.price)]);
    PooledPrice(Abs(p.qty), p.avgEntry, f.qty, f.price, lots);
    hide WeightedAverage;
  }

  lemma PooledPrice(w: real, x: real, v: real, y: real, lots: seq<Lot>)
    requires w + v > 0.0 && LotQty(lots) == w + v && LotCost(lots) == w * x + v * y
    ensures LotCost(lots) / LotQty(lots) == WeightedAverage(w, x, v, y)
  {
  }

  lemma PoolClosed(p: Position, f: Fill, q: Position, pick: Policy)
    requires f.id !in p.applied && ApplyFill(p, f) == Ok(q) && !SameDirection(p, f)
    ensures var b := Pool(ApplyToBook(AsBook(p), f, pick));
            && AsBook(q).lots == b.lots
            && AsBook(q).realized == b.realized
            && (b.lots != [] ==> b.long == AsBook(q).long)
  {
    hide WeightedAverage;
    hide Pool;
    hide PricePnl;
    hide LotPnl;
    var was := AsBook(p);
    var lot := was.lots[0];
    var b := ApplyToBook(was, f, pick);
    CloseOnlyLot(was.long, lot, f.qty, f.price, pick);
    PnlOfTheOnlyLot(p, f);
    if |b.lots| == 1 {
      OneLotPool(b);
    } else {
      NoLotPool(b);
    }
  }

  lemma PnlOfTheOnlyLot(p: Position, f: Fill)
    requires !SameDirection(p, f)
    ensures PricePnl(p, f) == LotPnl(p.qty > 0.0, Min(Abs(p.qty), f.qty), p.avgEntry, f.price)
  {
  }

  lemma NoLotPool(b: Book)
    requires b.lots == []
    ensures Pool(b) == b
  {
  }

  lemma CloseOnlyLot(long: bool, lot: Lot, qty: real, price: real, pick: Policy)
    requires lot.qty > 0.0 && qty > 0.0
    ensures Close(long, [lot], qty, price, pick)
         == if lot.qty <= qty then Closing([], qty - lot.qty, LotPnl(long, lot.qty, lot.price, price))
            else Closing([Lot(lot.qty - qty, lot.price)], 0.0, LotPnl(long, qty, lot.price, price))
  {
    var lots := [lot];
    assert Chosen(pick, lots) == 0;
    assert lots[..0] + lots[1..] == [];
    assert lots[0 := Lot(lot.qty - qty, lot.price)] == [Lot(lot.qty - qty, lot.price)];
  }

  lemma OneLotPool(b: Book)
    requires |b.lots| == 1 && b.lots[0].qty > 0.0
    ensures Pool(b) == b
  {
    var lot := b.lots[0];
    assert b.lots == [lot];
    SingleLot(lot);
    QuotientOfProduct(lot.price, lot.qty);
    assert LotQty(b.lots) == lot.qty && LotCost(b.lots) / lot.qty == lot.price;
  }
}
