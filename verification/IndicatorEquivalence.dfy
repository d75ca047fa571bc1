/** Streaming and batch give the same term at every bar, and None in the same
    places (tests/infrastructure/indicators/test_equivalence.py). */
module IndicatorEquivalence {
  import opened Common
  import opened Indicators
  import opened IncrementalIndicators
  import opened VectorizedIndicators

  /** Nothing until `period` bars have been seen, something from then on. */
  ghost predicate WarmsUp<T(!new)>(result: seq<Option<T>>, period: int) {
    forall i :: 0 <= i < |result| ==> (result[i] == None <==> i + 1 < period)
  }

  lemma MeanWarmsUp(values: seq<Num>, period: nat)
    ensures Mean(values, period) == None <==> |values| < period
  {
  }

  // ----- SMA -----

  method StreamSma(closes: seq<Num>, period: int) returns (r: Result<seq<Option<Num>>, Error>)
    ensures period < 1 ==> r == Err(ValueError)
    ensures period >= 1 ==> r.Ok? && RollingMeans(r.value, closes, period)
  {
    hide IncrementalSMA.Valid;
    hide Mean;
    if period < 1 {
      return Err(ValueError);
    }
    var indicator := new IncrementalSMA(period);
    var values: seq<Option<Num>> := [];
    for i := 0 to |closes|
      invariant fresh(indicator) && fresh(indicator.sum)
      invariant indicator.Valid() && indicator.closes == closes[..i]
      invariant |values| == i && forall j :: 0 <= j < i ==> values[j] == Mean(closes[..j + 1], period)
    {
      var v := indicator.Update(closes[i]);
      assert closes[..i] + [closes[i]] == closes[..i + 1];
      values := values + [v];
    }
    assert closes[..|closes|] == closes;
    r := Ok(values);
  }

  method SmaIsTheSame(closes: seq<Num>, period: int)
    returns (streamed: Result<seq<Option<Num>>, Error>, batch: Result<seq<Option<Num>>, Error>)
    ensures streamed == batch
    ensures streamed == Err(ValueError) <==> period < 1
    ensures streamed.Ok? ==> |streamed.value| == |closes| && WarmsUp(streamed.value, period)
  {
    hide Mean;
    streamed := StreamSma(closes, period);
    batch := Sma(closes, period);
    if period >= 1 {
      forall i | 0 <= i < |closes|
        ensures streamed.value[i] == batch.value[i] && (streamed.value[i] == None <==> i + 1 < period)
      {
        MeanWarmsUp(closes[..i + 1], period);
      }
      assert streamed.value == batch.value;
    }
  }

  // ----- RSI -----

  method StreamRsi(signs: Signs, closes: seq<Num>, period: int) returns (r: Result<seq<Option<Num>>, Error>)
    ensures period < 1 ==> r == Err(ValueError)
    ensures period >= 1 ==> r.Ok? && RsiSeries(r.value, signs, closes, period)
  {
    hide IncrementalRSI.Valid;
    hide Rsi;
    if period < 1 {
      return Err(ValueError);
    }
    var indicator := new IncrementalRSI(signs, period);
    var values: seq<Option<Num>> := [];
    for i := 0 to |closes|
      invariant fresh(indicator) && fresh(indicator.gainSum) && fresh(indicator.lossSum)
      invariant indicator.Valid() && indicator.closes == closes[..i]
      invariant |values| == i && forall j :: 0 <= j < i ==> values[j] == Rsi(signs, closes[..j + 1], period)
    {
      var v := indicator.Update(closes[i]);
      assert closes[..i] + [closes[i]] == closes[..i + 1];
      values := values + [v];
    }
    r := Ok(values);
  }

  lemma RsiWarmsUp(signs: Signs, closes: seq<Num>, period: nat)
    ensures Rsi(signs, closes, period) == None <==> |closes| < period
  {
    MeanWarmsUp(Gains(signs, closes), period);
    MeanWarmsUp(Losses(signs, closes), period);
  }

  method RsiIsTheSame(signs: Signs, closes: seq<Num>, period: int)
    returns (streamed: Result<seq<Option<Num>>, Error>, batch: Result<seq<Option<Num>>, Error>)
    ensures streamed == batch
    ensures streamed == Err(ValueError) <==> period < 1
    ensures streamed.Ok? ==> |streamed.value| == |closes| && WarmsUp(streamed.value, period)
  {
    hide Rsi;
    streamed := StreamRsi(signs, closes, period);
    batch := BatchRsi(signs, closes, period);
    if period >= 1 {
      forall i | 0 <= i < |closes|
        ensures streamed.value[i] == batch.value[i] && (streamed.value[i] == None <==> i + 1 < period)
      {
        RsiWarmsUp(signs, closes[..i + 1], period);
      }
      assert streamed.value == batch.value;
    }
  }

  // ----- ATR -----

  method StreamAtr(bars: seq<PriceBar>, period: int) returns (r: Result<seq<Option<Num>>, Error>)
    ensures period < 1 ==> r == Err(ValueError)
    ensures period >= 1 ==> r.Ok? && AtrSeries(r.value, bars, period)
  {
    hide IncrementalATR.Valid;
    hide Atr;
    if period < 1 {
      return Err(ValueError);
    }
    var indicator := new IncrementalATR(period);
    var values: seq<Option<Num>> := [];
    for i := 0 to |bars|
      invariant fresh(indicator) && fresh(indicator.trSum)
      invariant indicator.Valid() && indicator.bars == bars[..i]
      invariant |values| == i && forall j :: 0 <= j < i ==> values[j] == Atr(bars[..j + 1], period)
    {
      var v := indicator.Update(bars[i]);
      assert bars[..i] + [bars[i]] == bars[..i + 1];
      values := values + [v];
    }
    r := Ok(values);
  }

  lemma AtrWarmsUp(bars: seq<PriceBar>, period: nat)
    ensures Atr(bars, period) == None <==> |bars| < period
  {
    MeanWarmsUp(TrueRanges(bars), period);
  }

  /** The batch function indexes its first element before anything else, so on
      no bars at all it raises where the stream yields nothing. */
  method AtrIsTheSame(bars: seq<PriceBar>, period: int)
    returns (streamed: Result<seq<Option<Num>>, Error>, batch: Result<seq<Option<Num>>, Error>)
    ensures streamed == batch <==> period < 1 || bars != []
    ensures bars == [] && period >= 1 ==> streamed == Ok([]) && batch == Err(IndexError)
    ensures streamed == Err(ValueError) <==> period < 1
    ensures streamed.Ok? ==> |streamed.value| == |bars| && WarmsUp(streamed.value, period)
  {
    hide Atr;
    streamed := StreamAtr(bars, period);
    var high := seq(|bars|, i requires 0 <= i < |bars| => bars[i].high);
    var low := seq(|bars|, i requires 0 <= i < |bars| => bars[i].low);
    var close := seq(|bars|, i requires 0 <= i < |bars| => bars[i].close);
    batch := BatchAtr(high, low, close, period);
    assert Bars(high, low, close) == bars;
    if period >= 1 {
      forall i | 0 <= i < |bars|
        ensures batch.Ok? && streamed.value[i] == batch.value[i] && (streamed.value[i] == None <==> i + 1 < period)
      {
        AtrWarmsUp(bars[..i + 1], period);
      }
      assert batch.Ok? ==> streamed.value == batch.value;
    }
  }

  // ----- Bollinger bands -----

  method StreamBollinger(closes: seq<Num>, period: int, numStd: Num) returns (r: Result<seq<Option<Bands>>, Error>)
    ensures period < 2 ==> r == Err(ValueError)
    ensures period >= 2 ==> r.Ok? && BollingerSeries(r.value, closes, period, numStd)
  {
    hide IncrementalBollingerBands.Valid;
    hide Bollinger;
    if period < 2 {
      return Err(ValueError);
    }
    var indicator := new IncrementalBollingerBands(period, numStd);
    var values: seq<Option<Bands>> := [];
    for i := 0 to |closes|
      invariant fresh(indicator) && fresh(indicator.valueSum) && fresh(indicator.sqSum)
      invariant indicator.Valid() && indicator.closes == closes[..i]
      invariant |values| == i && forall j :: 0 <= j < i ==> values[j] == Bollinger(closes[..j + 1], period, numStd)
    {
      var v := indicator.Update(closes[i]);
      assert closes[..i] + [closes[i]] == closes[..i + 1];
      values := values + [v];
    }
    r := Ok(values);
  }

  lemma MeanStdWarmsUp(values: seq<Num>, period: nat)
    ensures MeanStd(values, period) == None <==> |values| < period
  {
    MeanWarmsUp(values, period);
    MeanWarmsUp(Squares(values), period);
  }

  method BollingerIsTheSame(closes: seq<Num>, period: int, numStd: Num)
    returns (streamed: Result<seq<Option<Bands>>, Error>, batch: Result<seq<Option<Bands>>, Error>)
    ensures streamed == batch
    ensures streamed == Err(ValueError) <==> period < 2
    ensures streamed.Ok? ==> |streamed.value| == |closes| && WarmsUp(streamed.value, period)
  {
    hide MeanStd;
    streamed := StreamBollinger(closes, period, numStd);
    batch := BatchBollinger(closes, period, numStd);
    if period >= 2 {
      forall i | 0 <= i < |closes|
        ensures streamed.value[i] == batch.value[i] && (streamed.value[i] == None <==> i + 1 < period)
      {
        MeanStdWarmsUp(closes[..i + 1], period);
      }
      assert streamed.value == batch.value;
    }
  }

  // ----- rolling volatility -----

  /** A close of zero that another close follows. */
  predicate DividesByZero(signs: Signs, closes: seq<Num>) {
    exists i :: 0 <= i < |closes| - 1 && closes[i] in signs.zero
  }

  /** A square root of a negative number, which the stream meets at its first value. */
  predicate NegativeRoot(closes: seq<Num>, period: int, perYear: int) {
    perYear < 0 && |closes| >= period
  }

  /** The closes up to the bar at which such a root would be taken. */
  function Horizon(closes: seq<Num>, period: int, perYear: int): seq<Num>
    requires period >= 0
  {
    if NegativeRoot(closes, period, perYear) then closes[..period] else closes
  }

  method StreamVolatility(signs: Signs, closes: seq<Num>, period: int, perYear: int)
    returns (r: Result<seq<Option<Num>>, Error>)
    ensures period < 2 ==> r == Err(ValueError)
    ensures period >= 2 && DividesByZero(signs, Horizon(closes, period, perYear)) ==> r == Err(ZeroDivisionError)
    ensures period >= 2 && !DividesByZero(signs, Horizon(closes, period, perYear)) ==>
      if NegativeRoot(closes, period, perYear) then r == Err(ValueError)
      else r.Ok? && VolatilitySeries(r.value, closes, period, perYear)
  {
    hide IncrementalRollingVolatility.Valid;
    hide Volatility;
    if period < 2 {
      return Err(ValueError);
    }
    var indicator := new IncrementalRollingVolatility(signs, period, perYear);
    var values: seq<Option<Num>> := [];
    for i := 0 to |closes|
      invariant fresh(indicator) && fresh(indicator.valueSum) && fresh(indicator.sqSum)
      invariant indicator.Valid() && indicator.closes == closes[..i]
      invariant perYear < 0 ==> i < period
      invariant forall j :: 0 <= j < i - 1 ==> closes[j] !in signs.zero
      invariant |values| == i && forall j :: 0 <= j < i ==> values[j] == Volatility(closes[..j + 1], period, perYear)
    {
      var v := indicator.Update(closes[i]);
      assert i > 0 ==> Last(closes[..i]) == closes[i - 1];
      if v.Err? {
        ghost var horizon := Horizon(closes, period, perYear);
        assert i > 0 ==> horizon[i - 1] == closes[i - 1];
        return Err(v.error);
      }
      assert closes[..i] + [closes[i]] == closes[..i + 1];
      values := values + [v.value];
    }
    r := Ok(values);
  }

  /** The batch function divides by a zero close and takes the root of a negative
      number without raising, and raises on no closes at all; otherwise the two
      are the same. */
  method VolatilityIsTheSame(signs: Signs, closes: seq<Num>, period: int, perYear: int)
    returns (streamed: Result<seq<Option<Num>>, Error>, batch: Result<seq<Option<Num>>, Error>)
    ensures streamed == batch <==>
      period < 2 || (closes != [] && !DividesByZero(signs, closes) && !NegativeRoot(closes, period, perYear))
    ensures period >= 2 && DividesByZero(signs, Horizon(closes, period, perYear)) ==>
      streamed == Err(ZeroDivisionError) && batch.Ok?
    ensures streamed.Ok? && perYear >= 0 ==> |streamed.value| == |closes| && WarmsUp(streamed.value, period)
  {
    hide MeanStd;
    streamed := StreamVolatility(signs, closes, period, perYear);
    batch := BatchVolatility(closes, period, perYear);
    if period >= 2 && !DividesByZero(signs, closes) && !NegativeRoot(closes, period, perYear) {
      forall i | 0 <= i < |closes|
        ensures batch.Ok? && streamed.value[i] == batch.value[i]
        ensures perYear >= 0 ==> (streamed.value[i] == None <==> i + 1 < period)
      {
        MeanStdWarmsUp(Returns(closes[..i + 1]), period);
      }
      assert batch.Ok? ==> streamed.value == batch.value;
    }
  }
}
