/** The batch indicators: whole arrays at a time
    (infrastructure/indicators/vectorized/indicators.py). None is NaN. */
module VectorizedIndicators {
  import opened Common
  import opened Indicators

  // ----- what the result arrays hold -----

  ghost predicate RollingSums(result: seq<Option<Num>>, values: seq<Num>, period: nat) {
    |result| == |values| && forall i :: 0 <= i < |result| ==> result[i] == WindowSum(values[..i + 1], period)
  }

  ghost predicate RollingMeans(result: seq<Option<Num>>, values: seq<Num>, period: nat) {
    |result| == |values| && forall i :: 0 <= i < |result| ==> result[i] == Mean(values[..i + 1], period)
  }

  ghost predicate RsiSeries(result: seq<Option<Num>>, signs: Signs, closes: seq<Num>, period: nat) {
    |result| == |closes| && forall i :: 0 <= i < |result| ==> result[i] == Rsi(signs, closes[..i + 1], period)
  }

  ghost predicate AtrSeries(result: seq<Option<Num>>, bars: seq<PriceBar>, period: nat) {
    |result| == |bars| && forall i :: 0 <= i < |result| ==> result[i] == Atr(bars[..i + 1], period)
  }

  ghost predicate BollingerSeries(result: seq<Option<Bands>>, closes: seq<Num>, period: nat, numStd: Num) {
    |result| == |closes| && forall i :: 0 <= i < |result| ==> result[i] == Bollinger(closes[..i + 1], period, numStd)
  }

  ghost predicate VolatilitySeries(result: seq<Option<Num>>, closes: seq<Num>, period: nat, perYear: int) {
    |result| == |closes| && forall i :: 0 <= i < |result| ==> result[i] == Volatility(closes[..i + 1], period, perYear)
  }

  // ----- prefixes -----

  lemma TotalsStep(values: seq<Num>, k: nat)
    requires k < |values|
    ensures Totals(values)[0] == ZERO
    ensures Totals(values)[k + 1] == Add(Totals(values)[k], values[k])
  {
    hide Totals;
    hide Cumulative;
    TotalsAt(values, 0);
    TotalsAt(values, k);
    TotalsAt(values, k + 1);
    CumulativeNext(values, k);
  }

  lemma CumulativeNext(values: seq<Num>, k: nat)
    requires k < |values|
    ensures Cumulative(values[..0]) == ZERO
    ensures Cumulative(values[..k + 1]) == Add(Cumulative(values[..k]), values[k])
  {
    assert values[..k + 1] == values[..k] + [values[k]];
    TotalsSnoc(values[..k], values[k]);
  }

  lemma WindowAt(values: seq<Num>, period: nat, i: nat)
    requires i < |values|
    ensures WindowSum(values[..i + 1], period)
         == if i + 1 < period then None else Some(Sub(Totals(values)[i + 1], Totals(values)[i + 1 - period]))
  {
    hide WindowSum;
    WindowIs(values[..i + 1], period);
    if i + 1 >= period {
      WindowEnds(values, i + 1 - period, i + 1);
    }
  }

  lemma WindowEnds(values: seq<Num>, m: nat, n: nat)
    requires m <= n <= |values|
    ensures Totals(values)[n] == Cumulative(values[..n])
    ensures Totals(values)[m] == Cumulative(values[..n][..m])
  {
    hide Totals;
    hide Cumulative;
    TotalsAt(values, m);
    TotalsAt(values, n);
    PrefixOfPrefix(values, m, n);
  }

  lemma SquaresPrefix(values: seq<Num>, n: nat)
    requires n <= |values|
    ensures Squares(values[..n]) == Squares(values)[..n]
  {
  }

  lemma GainsPrefix(signs: Signs, closes: seq<Num>, n: nat)
    requires n <= |closes|
    ensures Gains(signs, closes[..n]) == Gains(signs, closes)[..n]
    ensures Losses(signs, closes[..n]) == Losses(signs, closes)[..n]
  {
  }

  lemma RsiAt(signs: Signs, closes: seq<Num>, period: nat, i: nat)
    requires i < |closes|
    ensures var gain, loss := Mean(Gains(signs, closes)[..i + 1], period), Mean(Losses(signs, closes)[..i + 1], period);
            Rsi(signs, closes[..i + 1], period)
            == if gain.None? || loss.None? then None else Some(RsiOf(signs, gain.value, loss.value))
  {
    hide Mean;
    GainsPrefix(signs, closes, i + 1);
  }

  lemma AtrAt(bars: seq<PriceBar>, period: nat, i: nat)
    requires i < |bars|
    ensures Atr(bars[..i + 1], period) == Mean(TrueRanges(bars)[..i + 1], period)
  {
    assert TrueRanges(bars[..i + 1]) == TrueRanges(bars)[..i + 1];
  }

  lemma VolatilityAt(closes: seq<Num>, period: nat, perYear: int, i: nat)
    requires i < |closes|
    ensures var r := MeanStd(Returns(closes)[..i + 1], period);
            Volatility(closes[..i + 1], period, perYear)
            == if r.None? || perYear < 0 then None else Some(Mul(r.value.1, Sqrt(Int(perYear))))
  {
    hide MeanStd;
    assert Returns(closes[..i + 1]) == Returns(closes)[..i + 1];
  }

  // ----- rolling windows -----

  /** np.cumsum of the values with a zero before them. */
  method CumSum(values: seq<Num>) returns (totals: seq<Num>)
    ensures totals == Totals(values)
  {
    hide Totals;
    var cumsum := new Num[|values| + 1];
    cumsum[0] := ZERO;
    if |values| > 0 {
      TotalsStep(values, 0);
    } else {
      TotalsAt(values, 0);
    }
    for k := 0 to |values|
      invariant forall j :: 0 <= j <= k ==> cumsum[j] == Totals(values)[j]
    {
      TotalsStep(values, k);
      cumsum[k + 1] := Add(cumsum[k], values[k]);
    }
    totals := cumsum[..];
  }

  method RollingSum(values: seq<Num>, period: nat) returns (r: seq<Option<Num>>)
    requires period >= 1
    ensures RollingSums(r, values, period)
  {
    hide Totals;
    hide WindowSum;
    var n := |values|;
    var result := new Option<Num>[n](_ => None);
    if n < period {
      forall i | 0 <= i < n ensures result[i] == WindowSum(values[..i + 1], period) {
        WindowAt(values, period, i);
      }
      return result[..];
    }
    var cumsum := CumSum(values);
    for i := period - 1 to n
      invariant forall j :: 0 <= j < i ==>
        result[j] == if j + 1 < period then None else Some(Sub(Totals(values)[j + 1], Totals(values)[j + 1 - period]))
      invariant forall j :: i <= j < n ==> result[j] == None
    {
      result[i] := Some(Sub(cumsum[i + 1], cumsum[i + 1 - period]));
    }
    forall i | 0 <= i < n ensures result[i] == WindowSum(values[..i + 1], period) {
      WindowAt(values, period, i);
    }
    r := result[..];
  }

  method RollingMean(values: seq<Num>, period: nat) returns (r: seq<Option<Num>>)
    requires period >= 1
    ensures RollingMeans(r, values, period)
  {
    hide WindowSum;
    var sums := RollingSum(values, period);
    var result := new Option<Num>[|sums|];
    for i := 0 to |sums|
      invariant forall j :: 0 <= j < i ==> result[j] == Mean(values[..j + 1], period)
    {
      assert sums[i] == WindowSum(values[..i + 1], period);
      result[i] := if sums[i].None? then None else Some(Div(sums[i].value, Int(period)));
    }
    r := result[..];
  }

  ghost predicate RollingDeviations(result: seq<Option<Num>>, values: seq<Num>, period: nat) {
    |result| == |values| &&
    forall i :: 0 <= i < |result| ==>
      result[i] == var r := MeanStd(values[..i + 1], period); if r.None? then None else Some(r.value.1)
  }

  lemma MeanStdAt(values: seq<Num>, period: nat, i: nat)
    requires i < |values|
    ensures var mean, meanSq := Mean(values[..i + 1], period), Mean(Squares(values)[..i + 1], period);
            MeanStd(values[..i + 1], period)
            == (if mean.None? || meanSq.None? then None
                else Some((mean.value, Sqrt(SampleVariance(mean.value, meanSq.value, period)))))
    ensures MeanStd(values[..i + 1], period).Some? <==> Mean(values[..i + 1], period).Some?
  {
    hide Mean;
    SquaresPrefix(values, i + 1);
    SameMeans(values[..i + 1], Squares(values)[..i + 1], period);
  }

  lemma SameMeans(a: seq<Num>, b: seq<Num>, period: nat)
    requires |a| == |b|
    ensures Mean(a, period).Some? <==> Mean(b, period).Some?
  {
  }

  method RollingMeanStd(values: seq<Num>, period: nat) returns (mean: seq<Option<Num>>, std: seq<Option<Num>>)
    requires period >= 2
    ensures RollingMeans(mean, values, period) && RollingDeviations(std, values, period)
  {
    hide Mean;
    hide MeanStd;
    hide Squares;
    var n := |values|;
    mean := RollingMean(values, period);
    var squares := new Num[n];
    for i := 0 to n
      invariant forall j :: 0 <= j < i ==> squares[j] == Mul(values[j], values[j])
    {
      squares[i] := Mul(values[i], values[i]);
    }
    SquaresAre(squares[..], values);
    var meanSq := RollingMean(squares[..], period);
    var result := new Option<Num>[n];
    for i := 0 to n
      invariant forall j :: 0 <= j < i ==>
        result[j] == var r := MeanStd(values[..j + 1], period); if r.None? then None else Some(r.value.1)
    {
      MeanStdAt(values, period, i);
      assert mean[i] == Mean(values[..i + 1], period);
      assert meanSq[i] == Mean(Squares(values)[..i + 1], period);
      if mean[i].Some? && meanSq[i].Some? {
        var m := mean[i].value;
        var populationVariance := Greater(Sub(meanSq[i].value, Mul(m, m)), ZERO);
        result[i] := Some(Sqrt(Mul(populationVariance, Div(Int(period), Int(period - 1)))));
      } else {
        result[i] := None;
      }
    }
    std := result[..];
  }

  lemma SquaresAre(squares: seq<Num>, values: seq<Num>)
    requires |squares| == |values| && forall j :: 0 <= j < |squares| ==> squares[j] == Mul(values[j], values[j])
    ensures squares == Squares(values)
  {
  }

  // ----- the indicators -----

  method Sma(values: seq<Num>, period: int) returns (r: Result<seq<Option<Num>>, Error>)
    ensures period < 1 ==> r == Err(ValueError)
    ensures period >= 1 ==> r.Ok? && RollingMeans(r.value, values, period)
  {
    if period < 1 {
      return Err(ValueError);
    }
    var means := RollingMean(values, period);
    r := Ok(means);
  }

  method BatchRsi(signs: Signs, values: seq<Num>, period: int) returns (r: Result<seq<Option<Num>>, Error>)
    ensures period < 1 ==> r == Err(ValueError)
    ensures period >= 1 ==> r.Ok? && RsiSeries(r.value, signs, values, period)
  {
    hide Mean;
    hide Gains;
    hide Losses;
    hide Rsi;
    if period < 1 {
      return Err(ValueError);
    }
    var n := |values|;
    var gain, loss := new Num[n], new Num[n];
    for i := 0 to n
      invariant forall j :: 0 <= j < i ==>
        gain[j] == Gain(signs, Delta(values, j)) && loss[j] == Loss(signs, Delta(values, j))
    {
      var delta := Sub(values[i], values[if i == 0 then 0 else i - 1]);
      gain[i] := if delta in signs.positive then delta else ZERO;
      loss[i] := if delta in signs.negative then Neg(delta) else ZERO;
    }
    GainsAre(gain[..], loss[..], signs, values);
    var avgGain := RollingMean(gain[..], period);
    var avgLoss := RollingMean(loss[..], period);
    var result := new Option<Num>[n];
    for i := 0 to n
      invariant forall j :: 0 <= j < i ==> result[j] == Rsi(signs, values[..j + 1], period)
    {
      RsiAt(signs, values, period, i);
      assert avgGain[i] == Mean(Gains(signs, values)[..i + 1], period);
      assert avgLoss[i] == Mean(Losses(signs, values)[..i + 1], period);
      if avgGain[i].None? || avgLoss[i].None? {
        result[i] := None;
      } else {
        var denom := Add(avgGain[i].value, avgLoss[i].value);
        result[i] := Some(if denom in signs.zero then Int(50) else Div(Mul(Int(100), avgGain[i].value), denom));
      }
    }
    r := Ok(result[..]);
  }

  lemma GainsAre(gain: seq<Num>, loss: seq<Num>, signs: Signs, closes: seq<Num>)
    requires |gain| == |loss| == |closes|
    requires forall j :: 0 <= j < |closes| ==>
               gain[j] == Gain(signs, Delta(closes, j)) && loss[j] == Loss(signs, Delta(closes, j))
    ensures gain == Gains(signs, closes) && loss == Losses(signs, closes)
  {
  }

  function Bars(high: seq<Num>, low: seq<Num>, close: seq<Num>): (r: seq<PriceBar>)
    requires |high| == |low| == |close|
    ensures |r| == |high|
  {
    seq(|high|, i requires 0 <= i < |high| => PriceBar(high[i], low[i], close[i]))
  }

  method BatchAtr(high: seq<Num>, low: seq<Num>, close: seq<Num>, period: int)
    returns (r: Result<seq<Option<Num>>, Error>)
    requires |high| == |low| == |close|
    ensures period < 1 ==> r == Err(ValueError)
    ensures period >= 1 && |close| == 0 ==> r == Err(IndexError)
    ensures period >= 1 && |close| > 0 ==>
      r.Ok? && AtrSeries(r.value, Bars(high, low, close), period)
  {
    hide Mean;
    hide TrueRanges;
    hide Atr;
    if period < 1 {
      return Err(ValueError);
    }
    var n := |close|;
    if n == 0 {
      return Err(IndexError);
    }
    ghost var bars := Bars(high, low, close);
    var trueRange := new Num[n];
    for i := 0 to n
      invariant forall j :: 0 <= j < i ==> trueRange[j] == TrueRange(bars, j)
    {
      trueRange[i] := Sub(high[i], low[i]);
      if i > 0 {
        trueRange[i] := Greater(Greater(trueRange[i], Abs(Sub(high[i], close[i - 1]))), Abs(Sub(low[i], close[i - 1])));
      }
    }
    TrueRangesAre(trueRange[..], bars);
    var means := RollingMean(trueRange[..], period);
    forall i | 0 <= i < n ensures means[i] == Atr(bars[..i + 1], period) {
      AtrAt(bars, period, i);
    }
    r := Ok(means);
  }

  lemma TrueRangesAre(trueRange: seq<Num>, bars: seq<PriceBar>)
    requires |trueRange| == |bars| && forall j :: 0 <= j < |bars| ==> trueRange[j] == TrueRange(bars, j)
    ensures trueRange == TrueRanges(bars)
  {
  }

  method BatchBollinger(values: seq<Num>, period: int, numStd: Num) returns (r: Result<seq<Option<Bands>>, Error>)
    ensures period < 2 ==> r == Err(ValueError)
    ensures period >= 2 ==> r.Ok? && BollingerSeries(r.value, values, period, numStd)
  {
    hide Mean;
    hide MeanStd;
    if period < 2 {
      return Err(ValueError);
    }
    var n := |values|;
    var mean, std := RollingMeanStd(values, period);
    var bands := new Option<Bands>[n];
    for i := 0 to n
      invariant forall j :: 0 <= j < i ==> bands[j] == Bollinger(values[..j + 1], period, numStd)
    {
      MeanStdAt(values, period, i);
      assert mean[i] == Mean(values[..i + 1], period);
      assert std[i] == var d := MeanStd(values[..i + 1], period); if d.None? then None else Some(d.value.1);
      bands[i] := if mean[i].None? || std[i].None? then None
                  else Some(Bands(Add(mean[i].value, Mul(numStd, std[i].value)), mean[i].value,
                                  Sub(mean[i].value, Mul(numStd, std[i].value))));
    }
    r := Ok(bands[..]);
  }

  method BatchVolatility(values: seq<Num>, period: int, periodsPerYear: int)
    returns (r: Result<seq<Option<Num>>, Error>)
    ensures period < 2 ==> r == Err(ValueError)
    ensures period >= 2 && |values| == 0 ==> r == Err(IndexError)
    ensures period >= 2 && |values| > 0 ==> r.Ok? && VolatilitySeries(r.value, values, period, periodsPerYear)
  {
    hide MeanStd;
    hide Returns;
    hide Volatility;
    if period < 2 {
      return Err(ValueError);
    }
    var n := |values|;
    if n == 0 {
      return Err(IndexError);
    }
    var simpleReturns := new Num[n];
    for i := 0 to n
      invariant forall j :: 0 <= j < i ==> simpleReturns[j] == Return(values, j)
    {
      simpleReturns[i] := if i == 0 then ZERO else Div(Sub(values[i], values[i - 1]), values[i - 1]);
    }
    ReturnsAre(simpleReturns[..], values);
    var _, std := RollingMeanStd(simpleReturns[..], period);
    var result := new Option<Num>[n];
    for i := 0 to n
      invariant forall j :: 0 <= j < i ==> result[j] == Volatility(values[..j + 1], period, periodsPerYear)
    {
      VolatilityAt(values, period, periodsPerYear, i);
      assert std[i] == var d := MeanStd(Returns(values)[..i + 1], period); if d.None? then None else Some(d.value.1);
      // the square root of a negative number is NaN, and so is its product
      result[i] := if std[i].None? || periodsPerYear < 0 then None
                   else Some(Mul(std[i].value, Sqrt(Int(periodsPerYear))));
    }
    r := Ok(result[..]);
  }

  lemma ReturnsAre(simpleReturns: seq<Num>, closes: seq<Num>)
    requires |simpleReturns| == |closes| && forall j :: 0 <= j < |closes| ==> simpleReturns[j] == Return(closes, j)
    ensures simpleReturns == Returns(closes)
  {
  }
}
