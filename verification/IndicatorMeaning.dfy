/** What the indicator terms come to in exact arithmetic: the textbook values. */
module IndicatorMeaning {
  import opened Common
  import opened Indicators

  /** Division by zero has no exact value and is given one; of the terms below only
      the return after a close of zero divides by it. */
  function Over(x: real, y: real): real {
    if y == 0.0 then 0.0 else x / y
  }

  /** The value of a term over the reals; `root` stands for the square root. */
  function Eval(t: Num, root: real -> real): real {
    match t
    case Price(v) => v
    case Int(n) => n as real
    case Add(x, y) => Eval(x, root) + Eval(y, root)
    case Sub(x, y) => Eval(x, root) - Eval(y, root)
    case Mul(x, y) => Times(Eval(x, root), Eval(y, root))
    case Div(x, y) => Over(Eval(x, root), Eval(y, root))
    case Greater(x, y) => Max(Eval(x, root), Eval(y, root))
    case Abs(x) => Common.Abs(Eval(x, root))
    case Neg(x) => -Eval(x, root)
    case Sqrt(x) => root(Eval(x, root))
  }

  lemma EvalSums(x: Num, y: Num, root: real -> real)
    ensures Eval(Add(x, y), root) == Eval(x, root) + Eval(y, root)
    ensures Eval(Sub(x, y), root) == Eval(x, root) - Eval(y, root)
    ensures Eval(Greater(x, y), root) == Max(Eval(x, root), Eval(y, root))
    ensures Eval(Neg(x), root) == -Eval(x, root)
  {
    hide Times;
    hide Over;
  }

  lemma EvalProducts(x: Num, y: Num, root: real -> real)
    ensures Eval(Mul(x, y), root) == Times(Eval(x, root), Eval(y, root))
    ensures Eval(Div(x, y), root) == Over(Eval(x, root), Eval(y, root))
  {
    hide Times;
    hide Over;
  }

  lemma EvalProduct(x: Num, y: Num, root: real -> real)
    ensures Eval(Mul(x, y), root) == Eval(x, root) * Eval(y, root)
  {
    hide Eval;
    EvalProducts(x, y, root);
  }

  lemma EvalQuotient(x: Num, y: Num, root: real -> real)
    ensures Eval(Div(x, y), root) == if Eval(y, root) == 0.0 then 0.0 else Eval(x, root) / Eval(y, root)
  {
    hide Eval;
    EvalProducts(x, y, root);
  }

  lemma EvalInt(n: int, root: real -> real)
    ensures Eval(Int(n), root) == n as real
  {
    hide Times;
    hide Over;
  }

  /** Comparisons with zero come out as they do over the reals. */
  ghost predicate ExactSigns(signs: Signs, root: real -> real) {
    && (forall t :: t in signs.positive <==> Eval(t, root) > 0.0)
    && (forall t :: t in signs.negative <==> Eval(t, root) < 0.0)
    && (forall t :: t in signs.zero <==> Eval(t, root) == 0.0)
  }

  // ----- sums -----

  function Total(values: seq<Num>, root: real -> real): real {
    if values == [] then 0.0 else Total(Front(values), root) + Eval(Last(values), root)
  }

  lemma {:induction false} CumulativeIsTotal(values: seq<Num>, root: real -> real)
    ensures Eval(Cumulative(values), root) == Total(values, root)
  {
    if values != [] {
      CumulativeIsTotal(Front(values), root);
    }
  }

  lemma {:induction false} TotalConcat(a: seq<Num>, b: seq<Num>, root: real -> real)
    ensures Total(a + b, root) == Total(a, root) + Total(b, root)
  {
    if b == [] {
      assert a + b == a;
    } else {
      TotalConcat(a, Front(b), root);
      assert Front(a + b) == a + Front(b);
    }
  }

  /** The last `period` values. */
  function Window(values: seq<Num>, period: nat): (r: seq<Num>)
    requires period <= |values|
    ensures |r| == period
  {
    values[|values| - period..]
  }

  /** The difference of running totals is the sum over the window. */
  lemma WindowSumIsDirect(values: seq<Num>, period: nat, root: real -> real)
    requires period <= |values|
    ensures WindowSum(values, period).Some?
    ensures Eval(WindowSum(values, period).value, root) == Total(Window(values, period), root)
  {
    hide Cumulative;
    hide Total;
    var rest := values[..|values| - period];
    CumulativeIsTotal(values, root);
    CumulativeIsTotal(rest, root);
    TotalConcat(rest, Window(values, period), root);
    assert rest + Window(values, period) == values;
  }

  function Average(values: seq<Num>, root: real -> real): real
    requires values != []
  {
    Total(values, root) / |values| as real
  }

  lemma MeanIsAverage(values: seq<Num>, period: nat, root: real -> real)
    requires 1 <= period <= |values|
    ensures Mean(values, period).Some?
    ensures Eval(Mean(values, period).value, root) == Average(Window(values, period), root)
  {
    hide WindowSum;
    WindowSumIsDirect(values, period, root);
  }

  // ----- variance -----

  function Square(x: real): (r: real)
    ensures r >= 0.0
  {
    x * x
  }

  /** The sum of squared distances from m. */
  function SquaredDistances(values: seq<Num>, m: real, root: real -> real): (r: real)
    ensures r >= 0.0
  {
    if values == [] then 0.0
    else SquaredDistances(Front(values), m, root) + Square(Eval(Last(values), root) - m)
  }

  /** The same sum from the sum of squares and the sum of n values. */
  function Expanded(squares: real, total: real, n: nat, m: real): real {
    squares - 2.0 * m * total + n as real * (m * m)
  }

  lemma OneMoreSquare(squares: real, total: real, n: nat, x: real, m: real)
    ensures Expanded(squares, total, n, m) + Square(x - m) == Expanded(squares + Square(x), total + x, n + 1, m)
  {
    assert (n + 1) as real * (m * m) == n as real * (m * m) + m * m;
    assert (x - m) * (x - m) == x * x - 2.0 * m * x + m * m;
    assert 2.0 * m * (total + x) == 2.0 * m * total + 2.0 * m * x;
  }

  lemma NothingYet(m: real, root: real -> real)
    ensures SquaredDistances([], m, root) == 0.0 == Expanded(0.0, 0.0, 0, m)
    ensures Total(Squares([]), root) == Total([], root) == 0.0
  {
  }

  lemma DistancesSnoc(values: seq<Num>, m: real, root: real -> real)
    requires values != []
    ensures SquaredDistances(values, m, root)
         == SquaredDistances(Front(values), m, root) + Square(Eval(Last(values), root) - m)
    ensures Total(values, root) == Total(Front(values), root) + Eval(Last(values), root)
  {
  }

  lemma SquaresTotal(values: seq<Num>, root: real -> real)
    requires values != []
    ensures Total(Squares(values), root) == Total(Squares(Front(values)), root) + Square(Eval(Last(values), root))
  {
    hide Eval;
    hide Square;
    assert Front(Squares(values)) == Squares(Front(values));
    assert Last(Squares(values)) == Mul(Last(values), Last(values));
    SquareTerm(Last(values), root);
  }

  lemma {:induction false} SquaredDistancesExpand(values: seq<Num>, m: real, root: real -> real)
    ensures SquaredDistances(values, m, root)
         == Expanded(Total(Squares(values), root), Total(values, root), |values|, m)
  {
    hide SquaredDistances;
    hide Expanded;
    hide Square;
    hide Total;
    hide Squares;
    hide Eval;
    if values == [] {
      NothingYet(m, root);
    } else {
      var front, x := Front(values), Eval(Last(values), root);
      SquaredDistancesExpand(front, m, root);
      DistancesSnoc(values, m, root);
      SquaresTotal(values, root);
      OneMoreSquare(Total(Squares(front), root), Total(front, root), |front|, x, m);
    }
  }

  /** E[x^2] - E[x]^2 is the mean squared distance from the mean, so it is never
      negative and the clamp at zero does nothing. */
  lemma PopulationVariance(window: seq<Num>, root: real -> real)
    requires window != []
    ensures var m := Average(window, root);
            Average(Squares(window), root) - Square(m) == SquaredDistances(window, m, root) / |window| as real
  {
    hide SquaredDistances;
    hide Expanded;
    hide Square;
    hide Total;
    hide Squares;
    var m := Average(window, root);
    SquaredDistancesExpand(window, m, root);
    VarianceArithmetic(Total(Squares(window), root), Total(window, root), |window|, m);
  }

  lemma VarianceArithmetic(squares: real, total: real, n: nat, m: real)
    requires n > 0 && m == total / n as real
    ensures squares / n as real - Square(m) == Expanded(squares, total, n, m) / n as real
  {
    QuotientTimesDivisor(total, n as real);
    assert m * total == n as real * (m * m);
    assert Expanded(squares, total, n, m) == squares - n as real * Square(m);
    SubtractOverDivision(squares, Square(m), n as real);
  }

  lemma SubtractOverDivision(x: real, y: real, n: real)
    requires n > 0.0
    ensures (x - n * y) / n == x / n - y
  {
  }

  lemma SquaresOfWindow(values: seq<Num>, period: nat)
    requires period <= |values|
    ensures Window(Squares(values), period) == Squares(Window(values, period))
  {
  }

  /** The factor from population to sample variance. */
  function Bessel(n: nat): real
    requires n >= 2
  {
    n as real / (n - 1) as real
  }

  lemma ScaleVariance(d: real, n: nat)
    requires n >= 2
    ensures d / n as real * Bessel(n) == d / (n - 1) as real
  {
    var m, q := n as real, (n - 1) as real;
    QuotientTimesDivisor(d, m);
    assert m / q == m * (1.0 / q);
    assert d / q == d * (1.0 / q);
    assert d / m * (m * (1.0 / q)) == (d / m * m) * (1.0 / q);
  }

  /** The scaled value is the textbook sample variance. */
  lemma SampleVarianceIsTextbook(values: seq<Num>, period: nat, root: real -> real)
    requires 2 <= period <= |values|
    ensures Mean(values, period).Some? && Mean(Squares(values), period).Some?
    ensures var w := Window(values, period);
            Eval(SampleVariance(Mean(values, period).value, Mean(Squares(values), period).value, period), root)
            == SquaredDistances(w, Average(w, root), root) / (period - 1) as real
  {
    hide Mean;
    hide Average;
    hide SquaredDistances;
    hide SampleVariance;
    hide Square;
    hide Bessel;
    hide Eval;
    var w := Window(values, period);
    MeanIsAverage(values, period, root);
    MeanIsAverage(Squares(values), period, root);
    var mean := Eval(Mean(values, period).value, root);
    SquaresOfWindow(values, period);
    PopulationVariance(w, root);
    var d := SquaredDistances(w, mean, root);
    QuotientNonNegative(d, period as real);
    ScaleVariance(d, period);
    VarianceTerm(Mean(values, period).value, Mean(Squares(values), period).value, period, d / period as real, root);
  }

  lemma BesselTerm(period: nat, root: real -> real)
    requires period >= 2
    ensures Eval(Div(Int(period), Int(period - 1)), root) == Bessel(period)
  {
    hide Eval;
    EvalInt(period, root);
    EvalInt(period - 1, root);
    EvalQuotient(Int(period), Int(period - 1), root);
  }

  lemma SquareTerm(x: Num, root: real -> real)
    ensures Eval(Mul(x, x), root) == Square(Eval(x, root))
  {
    hide Eval;
    EvalProduct(x, x, root);
  }

  lemma VarianceTerm(mean: Num, meanSq: Num, period: nat, v: real, root: real -> real)
    requires period >= 2 && v >= 0.0 && Eval(meanSq, root) - Square(Eval(mean, root)) == v
    ensures Eval(SampleVariance(mean, meanSq, period), root) == v * Bessel(period)
  {
    hide Bessel;
    hide Square;
    hide Eval;
    BesselTerm(period, root);
    SquareTerm(mean, root);
    var spread := Sub(meanSq, Mul(mean, mean));
    EvalSums(meanSq, Mul(mean, mean), root);
    EvalSums(spread, ZERO, root);
    EvalInt(0, root);
    EvalProduct(Greater(spread, ZERO), Div(Int(period), Int(period - 1)), root);
  }

  /** Bollinger: the middle is the average, the bands lie numStd textbook standard
      deviations on either side. */
  lemma BollingerIsTextbook(values: seq<Num>, period: nat, numStd: Num, root: real -> real)
    requires 2 <= period <= |values|
    ensures Bollinger(values, period, numStd).Some?
    ensures var bands := Bollinger(values, period, numStd).value;
            var w := Window(values, period);
            var std := root(SquaredDistances(w, Average(w, root), root) / (period - 1) as real);
            && Eval(bands.middle, root) == Average(w, root)
            && Eval(bands.upper, root) == Average(w, root) + Eval(numStd, root) * std
            && Eval(bands.lower, root) == Average(w, root) - Eval(numStd, root) * std
  {
    hide Mean;
    hide Average;
    hide SquaredDistances;
    hide SampleVariance;
    MeanIsAverage(values, period, root);
    SampleVarianceIsTextbook(values, period, root);
    BandTerms(Mean(values, period).value, MeanStd(values, period).value.1, numStd, root);
  }

  lemma BandTerms(mean: Num, std: Num, numStd: Num, root: real -> real)
    ensures var bands := BandsOf(mean, std, numStd);
            && Eval(bands.upper, root) == Eval(mean, root) + Eval(numStd, root) * Eval(std, root)
            && Eval(bands.lower, root) == Eval(mean, root) - Eval(numStd, root) * Eval(std, root)
  {
    hide Eval;
    EvalProduct(numStd, std, root);
    EvalSums(mean, Mul(numStd, std), root);
  }

  /** The return of bar i is the change relative to the close before, where that is
      not zero; the first bar has none. */
  ghost predicate RelativeChange(closes: seq<Num>, i: nat, root: real -> real)
    requires i < |closes|
  {
    if i == 0 then Eval(Returns(closes)[i], root) == 0.0
    else
      var before := Eval(closes[i - 1], root);
      before != 0.0 ==> Eval(Returns(closes)[i], root) == (Eval(closes[i], root) - before) / before
  }

  lemma ReturnsAreRelative(closes: seq<Num>, root: real -> real)
    ensures forall i :: 0 <= i < |closes| ==> RelativeChange(closes, i, root)
  {
    hide Eval;
    forall i | 0 <= i < |closes| ensures RelativeChange(closes, i, root) {
      if i == 0 {
        EvalInt(0, root);
      } else {
        EvalSums(closes[i], closes[i - 1], root);
        EvalQuotient(Sub(closes[i], closes[i - 1]), closes[i - 1], root);
      }
    }
  }

  /** Rolling volatility: the textbook standard deviation of the returns, annualised.
      The returns are the relative changes wherever the close before is not zero;
      after a zero close there is none, and the value stands for nothing. */
  lemma VolatilityIsTextbook(closes: seq<Num>, period: nat, perYear: nat, root: real -> real)
    requires 2 <= period <= |closes|
    ensures Volatility(closes, period, perYear).Some?
    ensures var w := Window(Returns(closes), period);
            Eval(Volatility(closes, period, perYear).value, root)
            == root(SquaredDistances(w, Average(w, root), root) / (period - 1) as real) * root(perYear as real)
    ensures forall i :: 0 <= i < |closes| ==> RelativeChange(closes, i, root)
  {
    hide Mean;
    hide Average;
    hide SquaredDistances;
    hide SampleVariance;
    hide Returns;
    hide RelativeChange;
    ReturnsAreRelative(closes, root);
    SampleVarianceIsTextbook(Returns(closes), period, root);
    EvalProduct(MeanStd(Returns(closes), period).value.1, Sqrt(Int(perYear)), root);
  }

  // ----- RSI -----

  lemma GainTerm(signs: Signs, delta: Num, root: real -> real)
    requires ExactSigns(signs, root)
    ensures Eval(Gain(signs, delta), root) == Max(Eval(delta, root), 0.0)
    ensures Eval(Loss(signs, delta), root) == Max(-Eval(delta, root), 0.0)
  {
    hide Eval;
    EvalInt(0, root);
    EvalSums(delta, delta, root);
    assert delta in signs.positive <==> Eval(delta, root) > 0.0;
    assert delta in signs.negative <==> Eval(delta, root) < 0.0;
  }

  /** A gain is a rise of the close, a loss a fall; the first bar has neither. */
  lemma GainsAreRises(signs: Signs, closes: seq<Num>, i: nat, root: real -> real)
    requires ExactSigns(signs, root) && i < |closes|
    ensures var rise := if i == 0 then 0.0 else Eval(closes[i], root) - Eval(closes[i - 1], root);
            && Eval(Gains(signs, closes)[i], root) == Max(rise, 0.0)
            && Eval(Losses(signs, closes)[i], root) == Max(-rise, 0.0)
  {
    hide Eval;
    hide Gain;
    hide Loss;
    hide ExactSigns;
    EvalSums(closes[i], closes[if i == 0 then 0 else i - 1], root);
    GainTerm(signs, Delta(closes, i), root);
  }

  lemma {:induction false} TotalNonNegative(values: seq<Num>, root: real -> real)
    requires forall i :: 0 <= i < |values| ==> Eval(values[i], root) >= 0.0
    ensures Total(values, root) >= 0.0
  {
    if values != [] {
      TotalNonNegative(Front(values), root);
    }
  }

  lemma AverageNonNegative(values: seq<Num>, period: nat, root: real -> real)
    requires 1 <= period <= |values|
    requires forall i :: 0 <= i < |values| ==> Eval(values[i], root) >= 0.0
    ensures Mean(values, period).Some? && Eval(Mean(values, period).value, root) >= 0.0
  {
    hide Mean;
    var w := Window(values, period);
    forall i | 0 <= i < |w| ensures Eval(w[i], root) >= 0.0 {
      assert w[i] == values[|values| - period + i];
    }
    TotalNonNegative(w, root);
    MeanIsAverage(values, period, root);
    QuotientNonNegative(Total(w, root), period as real);
  }

  lemma GainsAndLossesNonNegative(signs: Signs, closes: seq<Num>, root: real -> real)
    requires ExactSigns(signs, root)
    ensures forall i :: 0 <= i < |closes| ==> Eval(Gains(signs, closes)[i], root) >= 0.0
    ensures forall i :: 0 <= i < |closes| ==> Eval(Losses(signs, closes)[i], root) >= 0.0
  {
  }

  /** The share of gains in all movement, in percent; 50 if there is none. */
  function ShareOfGains(g: real, l: real): real {
    if g + l == 0.0 then 50.0 else 100.0 * g / (g + l)
  }

  /** The textbook form. */
  function TextbookRsi(g: real, l: real): real
    requires g >= 0.0 && l > 0.0
  {
    QuotientNonNegative(g, l);
    100.0 - 100.0 / (1.0 + g / l)
  }

  lemma ShareWithin(g: real, l: real)
    requires g >= 0.0 && l >= 0.0
    ensures 0.0 <= ShareOfGains(g, l) <= 100.0
    ensures g > 0.0 && l == 0.0 ==> ShareOfGains(g, l) == 100.0
  {
    if g + l != 0.0 {
      var s := g + l;
      var q := 100.0 * g / s;
      QuotientTimesDivisor(100.0 * g, s);
      if q < 0.0 {
        NegativeTimes(q, s);
      }
      if q > 100.0 {
        NegativeTimes(100.0 - q, s);
        assert (100.0 - q) * s == 100.0 * s - q * s;
      }
      if l == 0.0 {
        QuotientOfProduct(100.0, g);
      }
    }
  }

  lemma ShareIsTextbook(g: real, l: real)
    requires g >= 0.0 && l > 0.0
    ensures ShareOfGains(g, l) == TextbookRsi(g, l)
  {
    var s := g + l;
    ShareOfLoss(g, l);
    TakeAway(100.0, 100.0 * l, s);
    assert 100.0 * g == 100.0 * s - 100.0 * l;
  }

  lemma TakeAway(c: real, x: real, s: real)
    requires s > 0.0
    ensures (c * s - x) / s == c - x / s
  {
    QuotientTimesDivisor(x, s);
    assert (c - x / s) * s == c * s - x;
    QuotientOfProduct(c - x / s, s);
  }

  lemma NegativeTimes(x: real, y: real)
    requires x < 0.0 && y > 0.0
    ensures x * y < 0.0
  {
  }

  lemma ShareOfLoss(g: real, l: real)
    requires g >= 0.0 && l > 0.0
    ensures 1.0 + g / l > 0.0 && 100.0 / (1.0 + g / l) == 100.0 * l / (g + l)
  {
    QuotientNonNegative(g, l);
    var r := 1.0 + g / l;
    QuotientTimesDivisor(g, l);
    assert r * l == l + g / l * l;
    assert r * l == g + l;
    CancelFactor(100.0, r, l);
  }

  lemma CancelFactor(c: real, r: real, l: real)
    requires r > 0.0 && l > 0.0
    ensures r * l > 0.0 && c / r == c * l / (r * l)
  {
    assert r * l > 0.0;
    var q := c / r;
    QuotientTimesDivisor(c, r);
    assert q * (r * l) == c * l;
    QuotientOfProduct(q, r * l);
  }

  /** RSI lies in [0, 100], is 50 on a flat window, 100 on one without losses, and
      the textbook 100 - 100 / (1 + RS) on any other. */
  lemma RsiIsTextbook(signs: Signs, closes: seq<Num>, period: nat, root: real -> real)
    requires ExactSigns(signs, root) && 1 <= period <= |closes|
    ensures Rsi(signs, closes, period).Some?
    ensures var gain := Average(Window(Gains(signs, closes), period), root);
            var loss := Average(Window(Losses(signs, closes), period), root);
            var rsi := Eval(Rsi(signs, closes, period).value, root);
            && gain >= 0.0 && loss >= 0.0 && 0.0 <= rsi <= 100.0
            && (gain == 0.0 && loss == 0.0 ==> rsi == 50.0)
            && (gain > 0.0 && loss == 0.0 ==> rsi == 100.0)
            && (loss > 0.0 ==> rsi == TextbookRsi(gain, loss))
  {
    hide Mean;
    hide Gains;
    hide Losses;
    hide Average;
    hide Window;
    hide RsiOf;
    hide Eval;
    hide TextbookRsi;
    hide ExactSigns;
    GainsAndLossesNonNegative(signs, closes, root);
    AverageNonNegative(Gains(signs, closes), period, root);
    AverageNonNegative(Losses(signs, closes), period, root);
    MeanIsAverage(Gains(signs, closes), period, root);
    MeanIsAverage(Losses(signs, closes), period, root);
    var g := Mean(Gains(signs, closes), period).value;
    var l := Mean(Losses(signs, closes), period).value;
    RsiTerm(signs, g, l, root);
    ShareWithin(Eval(g, root), Eval(l, root));
    if Eval(l, root) > 0.0 {
      ShareIsTextbook(Eval(g, root), Eval(l, root));
    }
  }

  lemma RsiTerm(signs: Signs, avgGain: Num, avgLoss: Num, root: real -> real)
    requires ExactSigns(signs, root)
    ensures Eval(RsiOf(signs, avgGain, avgLoss), root) == ShareOfGains(Eval(avgGain, root), Eval(avgLoss, root))
  {
    hide Eval;
    var denom := Add(avgGain, avgLoss);
    EvalSums(avgGain, avgLoss, root);
    EvalInt(50, root);
    EvalInt(100, root);
    EvalProduct(Int(100), avgGain, root);
    EvalQuotient(Mul(Int(100), avgGain), denom, root);
  }

  // ----- true range -----

  /** ATR is the average true range of the window, over the reals. */
  lemma AtrIsTextbook(bars: seq<PriceBar>, period: nat, root: real -> real)
    requires 1 <= period <= |bars|
    ensures Atr(bars, period).Some?
    ensures Eval(Atr(bars, period).value, root) == Average(TrueRanges(bars)[|bars| - period..], root)
  {
    hide Mean;
    MeanIsAverage(TrueRanges(bars), period, root);
  }

  /** The true range of the first bar is its own; any other spans the bar and the
      previous close: true high less true low. */
  lemma TrueRangeIsTheSpan(bars: seq<PriceBar>, i: nat, root: real -> real)
    requires i < |bars| && Eval(bars[i].low, root) <= Eval(bars[i].high, root)
    ensures TrueRanges(bars)[i] == TrueRange(bars, i)
    ensures i == 0 ==> Eval(TrueRange(bars, i), root) == Eval(bars[i].high, root) - Eval(bars[i].low, root)
    ensures i > 0 ==>
              var close := Eval(bars[i - 1].close, root);
              Eval(TrueRange(bars, i), root)
              == Max(Eval(bars[i].high, root), close) - Min(Eval(bars[i].low, root), close)
  {
    if i == 0 {
      return;
    }
    var high, low, close := bars[i].high, bars[i].low, bars[i - 1].close;
    assert Eval(Abs(Sub(high, close)), root) == Common.Abs(Eval(high, root) - Eval(close, root));
    assert Eval(Abs(Sub(low, close)), root) == Common.Abs(Eval(low, root) - Eval(close, root));
    assert Eval(Greater(Sub(high, low), Abs(Sub(high, close))), root)
        == Max(Eval(high, root) - Eval(low, root), Eval(Abs(Sub(high, close)), root));
  }

  // ----- exponential averages -----

  /** The weight of the newest value. */
  function Alpha(span: nat): real {
    2.0 / (span + 1) as real
  }

  lemma AlphaWithin(span: nat)
    requires span >= 1
    ensures 0.0 < Alpha(span) <= 1.0
  {
    var n := (span + 1) as real;
    QuotientTimesDivisor(2.0, n);
    TwoOverMore(2.0 / n, n);
  }

  lemma TwoOverMore(a: real, n: real)
    requires a * n == 2.0 && n >= 2.0
    ensures 0.0 < a <= 1.0
  {
  }

  lemma AlphaTerm(span: nat, root: real -> real)
    ensures Eval(Div(Int(2), Int(span + 1)), root) == Alpha(span)
  {
    hide Eval;
    EvalInt(2, root);
    EvalInt(span + 1, root);
    EvalQuotient(Int(2), Int(span + 1), root);
  }

  function Blend(a: real, x: real, y: real): real {
    Times(a, x) + Times(1.0 - a, y)
  }

  lemma StepIsBlend(a: real, x: real, y: real)
    ensures y + a * (x - y) == Blend(a, x, y)
  {
    assert a * (x - y) == a * x - a * y;
    assert (1.0 - a) * y == y - a * y;
  }

  lemma BlendWithin(a: real, x: real, y: real, lo: real, hi: real)
    requires 0.0 < a <= 1.0 && lo <= x <= hi && lo <= y <= hi
    ensures lo <= Blend(a, x, y) <= hi
  {
    hide Times;
    var b := 1.0 - a;
    Scale(a, lo, x);
    Scale(a, x, hi);
    Scale(b, lo, y);
    Scale(b, y, hi);
    SharesOf(a, b, lo);
    SharesOf(a, b, hi);
  }

  lemma SharesOf(a: real, b: real, x: real)
    requires a + b == 1.0
    ensures Times(a, x) + Times(b, x) == x
  {
    assert (a + b) * x == a * x + b * x;
  }

  /** One step of the recurrence is the textbook alpha * x + (1 - alpha) * y. */
  lemma EmaIsTextbook(values: seq<Num>, value: Num, span: nat, root: real -> real)
    ensures values == [] ==> Eval(Ema(values + [value], span).value, root) == Eval(value, root)
    ensures values != [] ==>
              Eval(Ema(values + [value], span).value, root)
              == Blend(Alpha(span), Eval(value, root), Eval(Ema(values, span).value, root))
    ensures values != [] ==>
              var alpha := 2.0 / (span + 1) as real;
              Eval(Ema(values + [value], span).value, root)
              == alpha * Eval(value, root) + (1.0 - alpha) * Eval(Ema(values, span).value, root)
  {
    hide Eval;
    hide Alpha;
    hide Blend;
    hide Ema;
    EmaSnoc(values, value, span);
    if values != [] {
      var y := Ema(values, span).value;
      AlphaTerm(span, root);
      EvalSums(value, y, root);
      EvalProduct(Div(Int(2), Int(span + 1)), Sub(value, y), root);
      EvalSums(y, Mul(Div(Int(2), Int(span + 1)), Sub(value, y)), root);
      StepIsBlend(Alpha(span), Eval(value, root), Eval(y, root));
      BlendSpelled(span, Eval(value, root), Eval(y, root));
    }
  }

  lemma BlendSpelled(span: nat, x: real, y: real)
    ensures var alpha := 2.0 / (span + 1) as real; Blend(Alpha(span), x, y) == alpha * x + (1.0 - alpha) * y
  {
  }

  /** An exponential average never leaves the range of what it has seen. */
  lemma {:induction false} EmaStaysWithin(values: seq<Num>, span: nat, lo: real, hi: real, root: real -> real)
    requires span >= 1 && values != []
    requires forall i :: 0 <= i < |values| ==> lo <= Eval(values[i], root) <= hi
    ensures lo <= Eval(Ema(values, span).value, root) <= hi
  {
    hide Eval;
    hide Alpha;
    hide Blend;
    hide Ema;
    var front, last := Front(values), Last(values);
    assert values == front + [last];
    assert last == values[|values| - 1];
    EmaIsTextbook(front, last, span, root);
    if front != [] {
      EmaStaysWithin(front, span, lo, hi, root);
      AlphaWithin(span);
      BlendWithin(Alpha(span), Eval(last, root), Eval(Ema(front, span).value, root), lo, hi);
    }
  }

  // ----- MACD -----

  lemma {:induction false} MacdLineAt(closes: seq<Num>, fast: nat, slow: nat, i: nat)
    requires i < |closes|
    ensures MacdLines(closes, fast, slow)[i] == Sub(Ema(closes[..i + 1], fast).value, Ema(closes[..i + 1], slow).value)
  {
    hide Ema;
    if i == |closes| - 1 {
      assert closes[..i + 1] == closes;
    } else {
      MacdLineAt(Front(closes), fast, slow, i);
      assert Front(closes)[..i + 1] == closes[..i + 1];
    }
  }

  /** The MACD line is at every bar the fast average less the slow one, the signal
      is the average of the line, and the histogram the line less the signal. */
  lemma MacdIsTextbook(closes: seq<Num>, fast: nat, slow: nat, signal: nat, root: real -> real)
    requires closes != []
    ensures var point, lines := Macd(closes, fast, slow, signal), MacdLines(closes, fast, slow);
            && |lines| == |closes|
            && (forall i :: 0 <= i < |lines| ==>
                  Eval(lines[i], root)
                  == Eval(Ema(closes[..i + 1], fast).value, root) - Eval(Ema(closes[..i + 1], slow).value, root))
            && Eval(point.macd, root) == Eval(Ema(closes, fast).value, root) - Eval(Ema(closes, slow).value, root)
            && Eval(point.signal, root) == Eval(Ema(lines, signal).value, root)
            && Eval(point.histogram, root) == Eval(point.macd, root) - Eval(point.signal, root)
  {
    hide Ema;
    hide MacdLines;
    hide Eval;
    var lines := MacdLines(closes, fast, slow);
    forall i | 0 <= i < |lines|
      ensures Eval(lines[i], root)
           == Eval(Ema(closes[..i + 1], fast).value, root) - Eval(Ema(closes[..i + 1], slow).value, root)
    {
      MacdLineAt(closes, fast, slow, i);
      EvalSums(Ema(closes[..i + 1], fast).value, Ema(closes[..i + 1], slow).value, root);
    }
    assert closes[..|lines|] == closes;
    EvalSums(Last(lines), Ema(lines, signal).value, root);
  }
}
