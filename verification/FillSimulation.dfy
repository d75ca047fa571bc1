/** Fee tiers and simulated fills, one call and whole runs
    (domain/fill_simulation.py, domain/fee_schedule.py). */
module FillSimulation {
  import opened Common
  import opened Fills

  // ----- fees -----

  datatype FeeTier = FeeTier(threshold: real, makerRate: real, takerRate: real)

  /** What the FeeSchedule constructor accepts. */
  predicate ValidTiers(tiers: seq<FeeTier>) {
    && tiers != []
    && (exists i :: 0 <= i < |tiers| && tiers[i].threshold == 0.0)
    && (forall i, j :: 0 <= i < j < |tiers| ==> tiers[i].threshold < tiers[j].threshold)
    && (forall i :: 0 <= i < |tiers| ==>
          tiers[i].threshold >= 0.0 && tiers[i].makerRate >= 0.0 && tiers[i].takerRate >= 0.0)
  }

  /** The highest-threshold tier the volume qualifies for. */
  function TierForVolume(tiers: seq<FeeTier>, volume: real): (r: Option<FeeTier>)
    ensures r.Some? ==>
      && r.value in tiers && r.value.threshold <= volume
      && forall i :: 0 <= i < |tiers| && tiers[i].threshold <= volume ==> tiers[i].threshold <= r.value.threshold
    ensures r.None? <==> forall i :: 0 <= i < |tiers| ==> tiers[i].threshold > volume
  {
    if tiers == [] then None
    else
      var best, last := TierForVolume(tiers[..|tiers| - 1], volume), tiers[|tiers| - 1];
      if last.threshold <= volume && (best.None? || last.threshold > best.value.threshold) then Some(last) else best
  }

  /** A schedule always has a tier, and only one that fits, for a volume that is
      not negative. */
  lemma EveryVolumeHasATier(tiers: seq<FeeTier>, volume: real)
    requires ValidTiers(tiers) && volume >= 0.0
    ensures TierForVolume(tiers, volume).Some?
    ensures TierForVolume(tiers, volume).value.makerRate >= 0.0 && TierForVolume(tiers, volume).value.takerRate >= 0.0
  {
    var base :| 0 <= base < |tiers| && tiers[base].threshold == 0.0;
  }

  function FillFee(qty: real, price: real, currency: string, isMaker: bool, tier: FeeTier): Money {
    Money(qty * price * (if isMaker then tier.makerRate else tier.takerRate), currency)
  }

  // ----- one call -----

  datatype Instrument = Instrument(lotSize: real, minNotional: real, quoteCurrency: string)

  /** Instrument refuses sizes that are not positive. */
  type Listed = i: Instrument | i.lotSize > 0.0 && i.minNotional > 0.0 witness Instrument(1.0, 1.0, "USDT")

  datatype SimOrder = SimOrder(side: OrderSide, qty: real)

  /** Everything about the next bar and the account. */
  datatype Tick = Tick(open: real, volume: real, openTime: int, spread: real, volatility: real, balance: Money,
                       isMaker: bool, fillId: nat, fraction: real, latency: int, thirtyDayVolume: real)

  type Slippage = (real, real, real) -> real

  /** Half the spread plus an impact that grows with participation and volatility. */
  function DefaultSlippage(spread: real, participation: real, volatility: real): (r: real)
    ensures spread >= 0.0 && participation >= 0.0 && volatility >= 0.0 ==> r >= 0.0
    ensures spread == 0.0 && volatility == 0.0 ==> r == 0.0
  {
    spread / 2.0 + participation * volatility
  }

  datatype Rejection = MinNotional | Precision | InsufficientMargin

  datatype Outcome = Executed(fill: Fill, remaining: real) | NoFill(remaining: real) | Rejected(reason: Rejection)

  datatype Error = NegativeSpread | NegativeVolatility | WrongCurrency | NothingRemaining | NoTier

  predicate OnLot(qty: real, lot: real)
    requires lot > 0.0
  {
    (qty / lot).Floor as real * lot == qty
  }

  function Available(tick: Tick): real {
    tick.volume * tick.fraction
  }

  function Participation(remaining: real, tick: Tick): real {
    if tick.volume > 0.0 then remaining / tick.volume else 0.0
  }

  function FillPrice(side: OrderSide, tick: Tick, slippage: real): real {
    tick.open + (if side == Buy then 1.0 else -1.0) * slippage
  }

  function SimulateFill(order: SimOrder, filled: real, instrument: Listed, tiers: seq<FeeTier>, model: Slippage,
                        tick: Tick)
    : Result<Outcome, Error>
  {
    var remaining := order.qty - filled;
    if tick.spread < 0.0 then Err(NegativeSpread)
    else if tick.volatility < 0.0 then Err(NegativeVolatility)
    else if tick.balance.currency != instrument.quoteCurrency then Err(WrongCurrency)
    else if remaining <= 0.0 then Err(NothingRemaining)
    else if !OnLot(remaining, instrument.lotSize) then Ok(Rejected(Precision))
    else
      var fillable := Min(remaining, Available(tick));
      if fillable <= 0.0 then Ok(NoFill(remaining))
      else
        var price := FillPrice(order.side, tick, model(tick.spread, Participation(remaining, tick), tick.volatility));
        var notional := fillable * price;
        if notional < instrument.minNotional then Ok(Rejected(MinNotional))
        else if notional > tick.balance.amount then Ok(Rejected(InsufficientMargin))
        else if TierForVolume(tiers, tick.thirtyDayVolume).None? then Err(NoTier)
        else
          PositiveFactor(fillable, price);
          var fee := FillFee(fillable, price, instrument.quoteCurrency, tick.isMaker,
                             TierForVolume(tiers, tick.thirtyDayVolume).value);
          Ok(Executed(FillRecord(tick.fillId, order.side, fillable, price, fee, tick.openTime + tick.latency),
                      remaining - fillable))
  }

  lemma PositiveFactor(x: real, y: real)
    requires x > 0.0 && x * y > 0.0
    ensures y > 0.0
  {
  }

  /** A fill never exceeds what is left or what the bar offers, and its notional
      lies between the instrument's minimum and the balance. Its price is off the
      bar's open by the slippage, and never better if that is not negative. */
  lemma FillIsBounded(order: SimOrder, filled: real, instrument: Listed, tiers: seq<FeeTier>, model: Slippage,
                      tick: Tick)
    requires SimulateFill(order, filled, instrument, tiers, model, tick).Ok?
    requires SimulateFill(order, filled, instrument, tiers, model, tick).value.Executed?
    ensures var r := SimulateFill(order, filled, instrument, tiers, model, tick).value;
            && r.fill.qty <= order.qty - filled && r.fill.qty <= Available(tick)
            && r.remaining >= 0.0 && r.fill.qty + r.remaining == order.qty - filled
            && instrument.minNotional <= r.fill.qty * r.fill.price <= tick.balance.amount
            && r.fill.side == order.side && r.fill.ts == tick.openTime + tick.latency
    ensures var r := SimulateFill(order, filled, instrument, tiers, model, tick).value;
            model(tick.spread, Participation(order.qty - filled, tick), tick.volatility) >= 0.0 ==>
              && (if order.side == Buy then r.fill.price >= tick.open else r.fill.price <= tick.open)
              && Abs(r.fill.price - tick.open)
                 == model(tick.spread, Participation(order.qty - filled, tick), tick.volatility)
  {
    hide TierForVolume;
    hide OnLot;
  }

  /** When nothing is filled whatever the price: the errors first, then remainders
      that are off lot, then bars that offer nothing, which leave all there was. */
  lemma RefusedIff(order: SimOrder, filled: real, instrument: Listed, tiers: seq<FeeTier>, model: Slippage, tick: Tick)
    ensures var r := SimulateFill(order, filled, instrument, tiers, model, tick);
            var left, offered := order.qty - filled, tick.volume * tick.fraction;
            var bad := tick.spread < 0.0 || tick.volatility < 0.0;
            var foreign := tick.balance.currency != instrument.quoteCurrency;
            var proper := !bad && !foreign && left > 0.0;
            && (r == Err(NegativeSpread) <==> tick.spread < 0.0)
            && (r == Err(NegativeVolatility) <==> tick.spread >= 0.0 && tick.volatility < 0.0)
            && (r == Err(WrongCurrency) <==> !bad && foreign)
            && (r == Err(NothingRemaining) <==> !bad && !foreign && left <= 0.0)
            && (r == Ok(Rejected(Precision)) <==> proper && !OnLot(left, instrument.lotSize))
            && (r.Ok? && r.value.NoFill? <==> proper && OnLot(left, instrument.lotSize) && offered <= 0.0)
            && (r.Ok? && r.value.NoFill? ==> r.value.remaining == left)
  {
    hide OnLot;
    hide FillFee;
    hide TierForVolume;
    hide FillPrice;
    hide Participation;
  }

  /** Otherwise the smaller of what is left and what is offered, at the open moved
      against the side by the slippage for the whole remainder's share of the
      volume: rejected below the minimum, then above the balance, then without a
      tier, and else filled. */
  lemma OutcomeIff(order: SimOrder, filled: real, instrument: Listed, tiers: seq<FeeTier>, model: Slippage, tick: Tick)
    ensures var r := SimulateFill(order, filled, instrument, tiers, model, tick);
            var left, offered := order.qty - filled, tick.volume * tick.fraction;
            var qty := if offered < left then offered else left;
            var slip := model(tick.spread, if tick.volume > 0.0 then left / tick.volume else 0.0, tick.volatility);
            var price := if order.side == Buy then tick.open + slip else tick.open - slip;
            var notional := qty * price;
            var offers := && tick.spread >= 0.0 && tick.volatility >= 0.0
                          && tick.balance.currency == instrument.quoteCurrency
                          && OnLot(left, instrument.lotSize) && qty > 0.0;
            var affords := offers && instrument.minNotional <= notional <= tick.balance.amount;
            var hasTier := TierForVolume(tiers, tick.thirtyDayVolume).Some?;
            && (r == Ok(Rejected(MinNotional)) <==> offers && notional < instrument.minNotional)
            && (r == Ok(Rejected(InsufficientMargin)) <==>
                  offers && instrument.minNotional <= notional && notional > tick.balance.amount)
            && (r == Err(NoTier) <==> affords && !hasTier)
            && (r.Ok? && r.value.Executed? <==> affords && hasTier)
            && (r.Ok? && r.value.Executed? ==>
                  && r.value.fill.id == tick.fillId && r.value.fill.side == order.side
                  && r.value.fill.qty == qty && r.value.fill.price == price
                  && r.value.fill.ts == tick.openTime + tick.latency && r.value.remaining == left - qty)
  {
    hide OnLot;
    hide FillFee;
    hide TierForVolume;
    Slipped(order.side, tick, model(tick.spread, Participation(order.qty - filled, tick), tick.volatility));
  }

  lemma Slipped(side: OrderSide, tick: Tick, slippage: real)
    ensures FillPrice(side, tick, slippage) == if side == Buy then tick.open + slippage else tick.open - slippage
  {
  }

  /** With the default slippage, what a buy pays over what a sell of the same
      remainder gets at the same bar is the whole spread and twice the impact. */
  lemma DefaultSlippageCostsTheSpread(qty: real, filled: real, instrument: Listed, tiers: seq<FeeTier>, tick: Tick)
    requires tick.volume > 0.0
    requires var buy := SimulateFill(SimOrder(Buy, qty), filled, instrument, tiers, DefaultSlippage, tick);
             var sell := SimulateFill(SimOrder(Sell, qty), filled, instrument, tiers, DefaultSlippage, tick);
             buy.Ok? && buy.value.Executed? && sell.Ok? && sell.value.Executed?
    ensures var buy := SimulateFill(SimOrder(Buy, qty), filled, instrument, tiers, DefaultSlippage, tick).value;
            var sell := SimulateFill(SimOrder(Sell, qty), filled, instrument, tiers, DefaultSlippage, tick).value;
            buy.fill.price - sell.fill.price
            == tick.spread + 2.0 * ((qty - filled) / tick.volume * tick.volatility)
  {
    hide OnLot;
    hide SimulateFill;
    OutcomeIff(SimOrder(Buy, qty), filled, instrument, tiers, DefaultSlippage, tick);
    OutcomeIff(SimOrder(Sell, qty), filled, instrument, tiers, DefaultSlippage, tick);
  }

  lemma ExecutedFee(order: SimOrder, filled: real, instrument: Listed, tiers: seq<FeeTier>, model: Slippage, tick: Tick)
    requires SimulateFill(order, filled, instrument, tiers, model, tick).Ok?
    requires SimulateFill(order, filled, instrument, tiers, model, tick).value.Executed?
    ensures TierForVolume(tiers, tick.thirtyDayVolume).Some?
    ensures var fill := SimulateFill(order, filled, instrument, tiers, model, tick).value.fill;
            fill.fee == FillFee(fill.qty, fill.price, instrument.quoteCurrency, tick.isMaker,
                                TierForVolume(tiers, tick.thirtyDayVolume).value)
  {
    hide TierForVolume;
    hide OnLot;
    hide FillFee;
  }

  /** The best tier is the last one whose threshold the volume reaches. */
  lemma BestTierIsLast(tiers: seq<FeeTier>, volume: real) returns (i: nat)
    requires ValidTiers(tiers) && TierForVolume(tiers, volume).Some?
    ensures i < |tiers| && tiers[i] == TierForVolume(tiers, volume).value && tiers[i].threshold <= volume
    ensures i == |tiers| - 1 || volume < tiers[i + 1].threshold
    ensures tiers[i].makerRate >= 0.0 && tiers[i].takerRate >= 0.0
  {
    i :| 0 <= i < |tiers| && tiers[i] == TierForVolume(tiers, volume).value;
    if i < |tiers| - 1 {
      assert tiers[i].threshold < tiers[i + 1].threshold;
    }
  }

  lemma FeeNonNegative(fill: Fill, currency: string, isMaker: bool, tier: FeeTier)
    requires tier.makerRate >= 0.0 && tier.takerRate >= 0.0
    ensures FillFee(fill.qty, fill.price, currency, isMaker, tier).amount >= 0.0
  {
    NonNegativeProduct(fill.qty, fill.price);
    NonNegativeProduct(fill.qty * fill.price, if isMaker then tier.makerRate else tier.takerRate);
  }

  /** The fee is the fill's notional at the maker or taker rate of the best tier the
      volume qualifies for, in the quote currency; under a valid schedule it is
      never a rebate. */
  lemma FeeOfFill(order: SimOrder, filled: real, instrument: Listed, tiers: seq<FeeTier>, model: Slippage, tick: Tick)
    returns (i: nat)
    requires ValidTiers(tiers)
    requires SimulateFill(order, filled, instrument, tiers, model, tick).Ok?
    requires SimulateFill(order, filled, instrument, tiers, model, tick).value.Executed?
    ensures i < |tiers| && tiers[i].threshold <= tick.thirtyDayVolume
    ensures i == |tiers| - 1 || tick.thirtyDayVolume < tiers[i + 1].threshold
    ensures var fill := SimulateFill(order, filled, instrument, tiers, model, tick).value.fill;
            var rate := if tick.isMaker then tiers[i].makerRate else tiers[i].takerRate;
            fill.fee == Money(fill.qty * fill.price * rate, instrument.quoteCurrency) && fill.fee.amount >= 0.0
  {
    hide OnLot;
    hide SimulateFill;
    hide TierForVolume;
    hide ValidTiers;
    ExecutedFee(order, filled, instrument, tiers, model, tick);
    i := BestTierIsLast(tiers, tick.thirtyDayVolume);
    var fill := SimulateFill(order, filled, instrument, tiers, model, tick).value.fill;
    FeeNonNegative(fill, instrument.quoteCurrency, tick.isMaker, tiers[i]);
  }

  lemma NonNegativeProduct(x: real, y: real)
    requires x >= 0.0 && y >= 0.0
    ensures x * y >= 0.0
  {
  }

  // ----- a whole run -----

  /** The order driven over bars until it is filled: the fills so far. */
  function Drive(order: SimOrder, instrument: Listed, tiers: seq<FeeTier>, model: Slippage,
                 ticks: seq<Tick>): seq<Fill>
  {
    if ticks == [] then []
    else
      var before := Drive(order, instrument, tiers, model, ticks[..|ticks| - 1]);
      match SimulateFill(order, FilledQty(before), instrument, tiers, model, ticks[|ticks| - 1])
      case Ok(Executed(fill, _)) => before + [fill]
      case _ => before
  }

  function FilledQty(fills: seq<Fill>): real {
    if fills == [] then 0.0 else FilledQty(fills[..|fills| - 1]) + fills[|fills| - 1].qty
  }

  lemma DriveOneMore(order: SimOrder, instrument: Listed, tiers: seq<FeeTier>, model: Slippage, ticks: seq<Tick>)
    requires ticks != []
    ensures var before := Drive(order, instrument, tiers, model, ticks[..|ticks| - 1]);
            var r := SimulateFill(order, FilledQty(before), instrument, tiers, model, ticks[|ticks| - 1]);
            Drive(order, instrument, tiers, model, ticks)
            == if r.Ok? && r.value.Executed? then before + [r.value.fill] else before
  {
    hide SimulateFill;
  }

  lemma NothingDriven(order: SimOrder, instrument: Listed, tiers: seq<FeeTier>, model: Slippage)
    ensures Drive(order, instrument, tiers, model, []) == [] && FilledQty([]) == 0.0 && NetQty([]) == 0.0
  {
  }

  lemma FilledSnoc(fills: seq<Fill>, f: Fill)
    ensures FilledQty(fills + [f]) == FilledQty(fills) + f.qty
    ensures NetQty(fills + [f]) == NetQty(fills) + SignedQty(f)
  {
    assert (fills + [f])[..|fills|] == fills;
  }

  /** Filled and remaining always make up the order; it never overfills, and the
      position the fills build is the filled quantity, signed. */
  lemma {:induction false} NeverOverfills(order: SimOrder, instrument: Listed, tiers: seq<FeeTier>, model: Slippage,
                                          ticks: seq<Tick>)
    requires order.qty >= 0.0
    ensures var fills := Drive(order, instrument, tiers, model, ticks);
            && 0.0 <= FilledQty(fills) <= order.qty
            && NetQty(fills) == (if order.side == Buy then FilledQty(fills) else -FilledQty(fills))
            && |fills| <= |ticks|
  {
    hide SimulateFill;
    hide SignedQty;
    hide Drive;
    hide FilledQty;
    hide NetQty;
    hide Available;
    if ticks == [] {
      NothingDriven(order, instrument, tiers, model);
    } else {
      DriveOneMore(order, instrument, tiers, model, ticks);
      var before := Drive(order, instrument, tiers, model, ticks[..|ticks| - 1]);
      var tick := ticks[|ticks| - 1];
      NeverOverfills(order, instrument, tiers, model, ticks[..|ticks| - 1]);
      var r := SimulateFill(order, FilledQty(before), instrument, tiers, model, tick);
      if r.Ok? && r.value.Executed? {
        FillFits(order, FilledQty(before), instrument, tiers, model, tick);
        FilledSnoc(before, r.value.fill);
        SignOf(r.value.fill);
      }
    }
  }

  lemma FillFits(order: SimOrder, filled: real, instrument: Listed, tiers: seq<FeeTier>, model: Slippage, tick: Tick)
    requires SimulateFill(order, filled, instrument, tiers, model, tick).Ok?
    requires SimulateFill(order, filled, instrument, tiers, model, tick).value.Executed?
    ensures var fill := SimulateFill(order, filled, instrument, tiers, model, tick).value.fill;
            0.0 < fill.qty <= order.qty - filled && fill.side == order.side
  {
    hide SimulateFill;
    hide Available;
    FillIsBounded(order, filled, instrument, tiers, model, tick);
  }

  lemma SignOf(f: Fill)
    ensures SignedQty(f) == if f.side == Buy then f.qty else -f.qty
  {
  }

  // ----- lots -----

  lemma WholeLots(qty: real, lot: real, k: int)
    requires lot > 0.0 && qty == k as real * lot
    ensures OnLot(qty, lot)
  {
    QuotientOfProduct(k as real, lot);
    assert qty / lot == k as real;
  }

  lemma LotsSubtract(x: real, y: real, lot: real)
    requires lot > 0.0 && OnLot(x, lot) && OnLot(y, lot)
    ensures OnLot(x - y, lot)
  {
    var i, j := (x / lot).Floor, (y / lot).Floor;
    assert (i - j) as real * lot == x - y;
    WholeLots(x - y, lot, i - j);
  }

  /** An executed call, which starts on lot, leaves whole lots if and only if it
      filled everything or what the bar offered was whole lots. */
  lemma RemainderOnLotIff(order: SimOrder, filled: real, instrument: Listed, tiers: seq<FeeTier>, model: Slippage,
                          tick: Tick)
    requires SimulateFill(order, filled, instrument, tiers, model, tick).Ok?
    requires SimulateFill(order, filled, instrument, tiers, model, tick).value.Executed?
    ensures OnLot(SimulateFill(order, filled, instrument, tiers, model, tick).value.remaining, instrument.lotSize)
       <==> Available(tick) >= order.qty - filled || OnLot(Available(tick), instrument.lotSize)
  {
    hide OnLot;
    hide TierForVolume;
    var remaining, lot := order.qty - filled, instrument.lotSize;
    LotsSubtractIf(remaining, remaining, lot);
    LotsSubtractIf(remaining, Available(tick), lot);
    LotsSubtractIf(remaining, remaining - Available(tick), lot);
  }

  lemma LotsSubtractIf(x: real, y: real, lot: real)
    requires lot > 0.0
    ensures OnLot(x, lot) && OnLot(y, lot) ==> OnLot(x - y, lot)
  {
    hide OnLot;
    if OnLot(x, lot) && OnLot(y, lot) {
      LotsSubtract(x, y, lot);
    }
  }

  /** If the order and every bar's available quantity are whole lots, so is
      whatever remains, and the next call, whatever its bar, is not rejected for
      precision. */
  lemma {:induction false} WholeLotsStayWhole(order: SimOrder, instrument: Listed, tiers: seq<FeeTier>,
                                              model: Slippage, ticks: seq<Tick>)
    requires OnLot(order.qty, instrument.lotSize)
    requires forall i :: 0 <= i < |ticks| ==> OnLot(Available(ticks[i]), instrument.lotSize)
    ensures OnLot(order.qty - FilledQty(Drive(order, instrument, tiers, model, ticks)), instrument.lotSize)
    ensures forall next: Tick ::
              SimulateFill(order, FilledQty(Drive(order, instrument, tiers, model, ticks)), instrument, tiers, model,
                           next)
              != Ok(Rejected(Precision))
  {
    hide OnLot;
    hide SimulateFill;
    hide Drive;
    hide FilledQty;
    hide Available;
    if ticks == [] {
      NothingDriven(order, instrument, tiers, model);
    } else {
      DriveOneMore(order, instrument, tiers, model, ticks);
      var before := Drive(order, instrument, tiers, model, ticks[..|ticks| - 1]);
      var tick := ticks[|ticks| - 1];
      WholeLotsStayWhole(order, instrument, tiers, model, ticks[..|ticks| - 1]);
      var r := SimulateFill(order, FilledQty(before), instrument, tiers, model, tick);
      if r.Ok? && r.value.Executed? {
        FillIsTheSmaller(order, FilledQty(before), instrument, tiers, model, tick);
        FilledSnoc(before, r.value.fill);
        var remaining := order.qty - FilledQty(before);
        LotsSubtract(remaining, remaining, instrument.lotSize);
        LotsSubtract(remaining, Available(tick), instrument.lotSize);
      }
    }
    forall next: Tick
      ensures SimulateFill(order, FilledQty(Drive(order, instrument, tiers, model, ticks)), instrument, tiers, model,
                           next)
           != Ok(Rejected(Precision))
    {
      PrecisionIffOffLot(order, FilledQty(Drive(order, instrument, tiers, model, ticks)), instrument, tiers, model,
                         next);
    }
  }

  lemma FillIsTheSmaller(order: SimOrder, filled: real, instrument: Listed, tiers: seq<FeeTier>, model: Slippage,
                         tick: Tick)
    requires SimulateFill(order, filled, instrument, tiers, model, tick).Ok?
    requires SimulateFill(order, filled, instrument, tiers, model, tick).value.Executed?
    ensures var qty := SimulateFill(order, filled, instrument, tiers, model, tick).value.fill.qty;
            qty == order.qty - filled || qty == Available(tick)
  {
    hide TierForVolume;
    hide OnLot;
  }

  /** A call is rejected for precision exactly if it is a proper call and what
      remains is not whole lots. */
  lemma PrecisionIffOffLot(order: SimOrder, filled: real, instrument: Listed, tiers: seq<FeeTier>, model: Slippage,
                           tick: Tick)
    ensures SimulateFill(order, filled, instrument, tiers, model, tick) == Ok(Rejected(Precision))
       <==> && tick.spread >= 0.0 && tick.volatility >= 0.0 && tick.balance.currency == instrument.quoteCurrency
            && order.qty - filled > 0.0 && !OnLot(order.qty - filled, instrument.lotSize)
  {
    hide TierForVolume;
    hide OnLot;
  }

  lemma OffLotNeverExecutes(order: SimOrder, filled: real, instrument: Listed, tiers: seq<FeeTier>, model: Slippage,
                            tick: Tick)
    requires !OnLot(order.qty - filled, instrument.lotSize)
    ensures var r := SimulateFill(order, filled, instrument, tiers, model, tick); r.Ok? ==> !r.value.Executed?
  {
    hide TierForVolume;
    hide OnLot;
  }

  /** Once a partial fill has left something off lot, the order is stuck: no later
      bar fills any of it. */
  lemma {:induction false} OffLotIsStuck(order: SimOrder, instrument: Listed, tiers: seq<FeeTier>, model: Slippage,
                                         ticks: seq<Tick>, later: seq<Tick>)
    requires !OnLot(order.qty - FilledQty(Drive(order, instrument, tiers, model, ticks)), instrument.lotSize)
    ensures Drive(order, instrument, tiers, model, ticks + later) == Drive(order, instrument, tiers, model, ticks)
    decreases |later|
  {
    hide OnLot;
    hide SimulateFill;
    hide Drive;
    hide FilledQty;
    if later == [] {
      assert ticks + later == ticks;
    } else {
      OffLotIsStuck(order, instrument, tiers, model, ticks, later[..|later| - 1]);
      var all := ticks + later;
      assert all[..|all| - 1] == ticks + later[..|later| - 1];
      DriveOneMore(order, instrument, tiers, model, all);
      var filled := FilledQty(Drive(order, instrument, tiers, model, ticks));
      OffLotNeverExecutes(order, filled, instrument, tiers, model, all[|all| - 1]);
    }
  }

  /** EXAMPLE: an order of one lot that meets a bar of half a lot is half filled, and
      what remains is off lot. */
  lemma HalfALotStrandsTheOrder()
    ensures var thin := Tick(1.0, 0.5, 0, 0.0, 0.0, Money(10.0, "USDT"), false, 1, 1.0, 0, 0.0);
            var r := SimulateFill(SimOrder(Buy, 1.0), 0.0, Instrument(1.0, 0.5, "USDT"), [FeeTier(0.0, 0.0, 0.0)],
                                  DefaultSlippage, thin);
            r.Ok? && r.value.Executed? && r.value.remaining == 0.5 && !OnLot(r.value.remaining, 1.0)
  {
    WholeLots(1.0, 1.0, 1);
    var tiers := [FeeTier(0.0, 0.0, 0.0)];
    assert tiers[0].threshold == 0.0;
    assert (0.5 / 1.0).Floor == 0;
  }
}
