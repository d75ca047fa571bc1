/** What the indicators compute, as terms: floating-point operations are kept
    symbolic and in order, so two computations that give the same term give the
    same float64, bit for bit (infrastructure/indicators). */
module Indicators {
  import opened Common

  /** A float64 expression; nothing is assumed of the operations. */
  datatype Num =
    | Price(value: real)
    | Int(n: int)
    | Add(Num, Num)
    | Sub(Num, Num)
    | Mul(Num, Num)
    | Div(Num, Num)
    | Greater(Num, Num)
    | Abs(Num)
    | Neg(Num)
    | Sqrt(Num)

  /** How comparisons with zero come out, whatever the rounding does. */
  datatype Signs = Signs(positive: iset<Num>, negative: iset<Num>, zero: iset<Num>)

  const ZERO := Int(0)

  datatype PriceBar = PriceBar(high: Num, low: Num, close: Num)

  datatype Bands = Bands(upper: Num, middle: Num, lower: Num)

  datatype Error = ValueError | IndexError | ZeroDivisionError

  // ----- windows -----

  /** The running total, added up from the left. */
  function Cumulative(values: seq<Num>): Num {
    if values == [] then ZERO else Add(Cumulative(Front(values)), Last(values))
  }

  /** All the running totals, from the empty one on. */
  function Totals(values: seq<Num>): (r: seq<Num>)
    ensures |r| == |values| + 1 && Last(r) == Cumulative(values)
  {
    if values == [] then [ZERO] else Totals(Front(values)) + [Cumulative(values)]
  }

  lemma TotalsSnoc(values: seq<Num>, value: Num)
    ensures Cumulative(values + [value]) == Add(Cumulative(values), value)
    ensures Totals(values + [value]) == Totals(values) + [Cumulative(values + [value])]
  {
    assert Front(values + [value]) == values;
  }

  lemma {:induction false} TotalsAt(values: seq<Num>, k: nat)
    requires k <= |values|
    ensures Totals(values)[k] == Cumulative(values[..k])
  {
    if k == |values| {
      assert values[..k] == values;
    } else {
      TotalsAt(Front(values), k);
      assert Front(values)[..k] == values[..k];
    }
  }

  /** The window sum after the last value: a difference of running totals. */
  function WindowSum(values: seq<Num>, period: nat): (r: Option<Num>)
    ensures r.None? <==> |values| < period
  {
    if |values| < period then None
    else Some(Sub(Cumulative(values), Cumulative(values[..|values| - period])))
  }

  lemma WindowIs(values: seq<Num>, period: nat)
    ensures WindowSum(values, period)
         == if |values| < period then None
            else Some(Sub(Cumulative(values), Cumulative(values[..|values| - period])))
  {
    hide Cumulative;
  }

  function Mean(values: seq<Num>, period: nat): Option<Num> {
    var total := WindowSum(values, period);
    if total.None? then None else Some(Div(total.value, Int(period)))
  }

  function Squares(values: seq<Num>): (r: seq<Num>)
    ensures |r| == |values|
  {
    seq(|values|, i requires 0 <= i < |values| => Mul(values[i], values[i]))
  }

  function SampleVariance(mean: Num, meanSq: Num, period: int): Num {
    Mul(Greater(Sub(meanSq, Mul(mean, mean)), ZERO), Div(Int(period), Int(period - 1)))
  }

  /** Mean and sample standard deviation of the window. */
  function MeanStd(values: seq<Num>, period: nat): Option<(Num, Num)> {
    var mean, meanSq := Mean(values, period), Mean(Squares(values), period);
    if mean.None? || meanSq.None? then None
    else Some((mean.value, Sqrt(SampleVariance(mean.value, meanSq.value, period))))
  }

  // ----- differenced series -----

  function Delta(closes: seq<Num>, i: nat): Num
    requires i < |closes|
  {
    Sub(closes[i], closes[if i == 0 then 0 else i - 1])
  }

  function Gain(signs: Signs, delta: Num): Num {
    if delta in signs.positive then delta else ZERO
  }

  function Loss(signs: Signs, delta: Num): Num {
    if delta in signs.negative then Neg(delta) else ZERO
  }

  function Gains(signs: Signs, closes: seq<Num>): (r: seq<Num>)
    ensures |r| == |closes|
  {
    seq(|closes|, i requires 0 <= i < |closes| => Gain(signs, Delta(closes, i)))
  }

  function Losses(signs: Signs, closes: seq<Num>): (r: seq<Num>)
    ensures |r| == |closes|
  {
    seq(|closes|, i requires 0 <= i < |closes| => Loss(signs, Delta(closes, i)))
  }

  function TrueRange(bars: seq<PriceBar>, i: nat): Num
    requires i < |bars|
  {
    var range := Sub(bars[i].high, bars[i].low);
    if i == 0 then range
    else
      var previous := bars[i - 1].close;
      Greater(Greater(range, Abs(Sub(bars[i].high, previous))), Abs(Sub(bars[i].low, previous)))
  }

  function TrueRanges(bars: seq<PriceBar>): (r: seq<Num>)
    ensures |r| == |bars|
  {
    seq(|bars|, i requires 0 <= i < |bars| => TrueRange(bars, i))
  }

  function Return(closes: seq<Num>, i: nat): Num
    requires i < |closes|
  {
    if i == 0 then ZERO else Div(Sub(closes[i], closes[i - 1]), closes[i - 1])
  }

  function Returns(closes: seq<Num>): (r: seq<Num>)
    ensures |r| == |closes|
  {
    seq(|closes|, i requires 0 <= i < |closes| => Return(closes, i))
  }

  // ----- one bar more -----

  lemma SquaresSnoc(values: seq<Num>, value: Num)
    ensures Squares(values + [value]) == Squares(values) + [Mul(value, value)]
  {
  }

  /** The close before a new one, or the new one itself. */
  function Before(closes: seq<Num>, close: Num): Num {
    if closes == [] then close else Last(closes)
  }

  lemma GainsSnoc(signs: Signs, closes: seq<Num>, close: Num)
    ensures Gains(signs, closes + [close]) == Gains(signs, closes) + [Gain(signs, Sub(close, Before(closes, close)))]
  {
    var longer := closes + [close];
    forall i | 0 <= i < |closes| ensures Delta(longer, i) == Delta(closes, i) {
    }
    assert Delta(longer, |closes|) == Sub(close, Before(closes, close));
  }

  lemma LossesSnoc(signs: Signs, closes: seq<Num>, close: Num)
    ensures Losses(signs, closes + [close]) == Losses(signs, closes) + [Loss(signs, Sub(close, Before(closes, close)))]
  {
    var longer := closes + [close];
    forall i | 0 <= i < |closes| ensures Delta(longer, i) == Delta(closes, i) {
    }
    assert Delta(longer, |closes|) == Sub(close, Before(closes, close));
  }

  lemma TrueRangesSnoc(bars: seq<PriceBar>, bar: PriceBar)
    ensures TrueRanges(bars + [bar]) == TrueRanges(bars) + [TrueRange(bars + [bar], |bars|)]
  {
    forall i | 0 <= i < |bars| ensures TrueRange(bars + [bar], i) == TrueRange(bars, i) {
    }
  }

  lemma ReturnsSnoc(closes: seq<Num>, close: Num)
    ensures Returns(closes + [close]) == Returns(closes) + [Return(closes + [close], |closes|)]
  {
    forall i | 0 <= i < |closes| ensures Return(closes + [close], i) == Return(closes, i) {
    }
  }

  // ----- the indicators, after the last bar -----

  function RsiOf(signs: Signs, avgGain: Num, avgLoss: Num): Num {
    var denom := Add(avgGain, avgLoss);
    if denom in signs.zero then Int(50) else Div(Mul(Int(100), avgGain), denom)
  }

  function Rsi(signs: Signs, closes: seq<Num>, period: nat): Option<Num> {
    var avgGain, avgLoss := Mean(Gains(signs, closes), period), Mean(Losses(signs, closes), period);
    if avgGain.None? || avgLoss.None? then None else Some(RsiOf(signs, avgGain.value, avgLoss.value))
  }

  function Atr(bars: seq<PriceBar>, period: nat): Option<Num> {
    Mean(TrueRanges(bars), period)
  }

  function BandsOf(mean: Num, std: Num, numStd: Num): Bands {
    Bands(Add(mean, Mul(numStd, std)), mean, Sub(mean, Mul(numStd, std)))
  }

  function Bollinger(closes: seq<Num>, period: nat, numStd: Num): Option<Bands> {
    var r := MeanStd(closes, period);
    if r.None? then None else Some(BandsOf(r.value.0, r.value.1, numStd))
  }

  /** None also where the annualisation root is that of a negative number. */
  function Volatility(closes: seq<Num>, period: nat, perYear: int): Option<Num> {
    var r := MeanStd(Returns(closes), period);
    if r.None? || perYear < 0 then None else Some(Mul(r.value.1, Sqrt(Int(perYear))))
  }

  // ----- exponential averages -----

  /** y + alpha * (x - y), alpha = 2 / (span + 1), in that order of operations. */
  function EmaStep(previous: Option<Num>, value: Num, span: nat): Num {
    if previous.None? then value
    else Add(previous.value, Mul(Div(Int(2), Int(span + 1)), Sub(value, previous.value)))
  }

  function Ema(values: seq<Num>, span: nat): (r: Option<Num>)
    ensures r.None? <==> values == []
  {
    if values == [] then None else Some(EmaStep(Ema(Front(values), span), Last(values), span))
  }

  datatype MacdPoint = MacdPoint(macd: Num, signal: Num, histogram: Num)

  /** The MACD line of every prefix. */
  function MacdLines(closes: seq<Num>, fast: nat, slow: nat): (r: seq<Num>)
    ensures |r| == |closes|
  {
    if closes == [] then []
    else MacdLines(Front(closes), fast, slow) + [Sub(Ema(closes, fast).value, Ema(closes, slow).value)]
  }

  function Macd(closes: seq<Num>, fast: nat, slow: nat, signal: nat): MacdPoint
    requires closes != []
  {
    var lines := MacdLines(closes, fast, slow);
    MacdPoint(Last(lines), Ema(lines, signal).value, Sub(Last(lines), Ema(lines, signal).value))
  }

  lemma EmaSnoc(values: seq<Num>, value: Num, span: nat)
    ensures Ema(values + [value], span) == Some(EmaStep(Ema(values, span), value, span))
  {
    assert Front(values + [value]) == values;
  }

  lemma MacdLinesSnoc(closes: seq<Num>, close: Num, fast: nat, slow: nat)
    ensures var longer := closes + [close];
            MacdLines(longer, fast, slow)
            == MacdLines(closes, fast, slow) + [Sub(Ema(longer, fast).value, Ema(longer, slow).value)]
  {
    assert Front(closes + [close]) == closes;
  }
}
