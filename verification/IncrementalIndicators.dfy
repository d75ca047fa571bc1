/** The streaming indicators: one bar at a time, bounded state
    (infrastructure/indicators/incremental/indicators.py). */
module IncrementalIndicators {
  import opened Common
  import opened Indicators

  /** The running total after `pushed`, and the last period + 1 of them. */
  ghost predicate Tracks(cumsum: Num, history: seq<Num>, pushed: seq<Num>, period: nat) {
    && cumsum == Cumulative(pushed)
    && |history| == (if |pushed| < period then |pushed| + 1 else period + 1)
    && history == Totals(pushed)[|pushed| + 1 - |history|..]
  }

  class RunningWindowSum {
    const period: nat
    var cumsum: Num
    /** At most period + 1 running totals, oldest first. */
    var history: seq<Num>
    ghost var pushed: seq<Num>

    ghost predicate Valid()
      reads this
    {
      period >= 1 && Tracks(cumsum, history, pushed, period)
    }

    constructor (period: nat)
      requires period >= 1
      ensures Valid() && pushed == [] && this.period == period
    {
      this.period := period;
      cumsum, history, pushed := ZERO, [ZERO], [];
    }

    method Push(value: Num) returns (r: Option<Num>)
      requires Valid()
      modifies this
      ensures Valid() && pushed == old(pushed) + [value]
      ensures r == WindowSum(pushed, period)
    {
      hide Tracks;
      hide WindowSum;
      TracksNext(cumsum, history, pushed, period, value);
      cumsum := Add(cumsum, value);
      history := history + [cumsum];
      if |history| > period + 1 {
        history := history[1..];
      }
      pushed := pushed + [value];
      TrackedWindow(cumsum, history, pushed, period);
      if |history| == period + 1 {
        return Some(Sub(history[|history| - 1], history[0]));
      }
      r := None;
    }
  }

  /** What one push keeps of the history. */
  function Kept(history: seq<Num>, period: nat): seq<Num> {
    if |history| > period + 1 then history[1..] else history
  }

  lemma TracksNext(cumsum: Num, history: seq<Num>, pushed: seq<Num>, period: nat, value: Num)
    requires Tracks(cumsum, history, pushed, period) && period >= 1
    ensures var total := Add(cumsum, value);
            Tracks(total, Kept(history + [total], period), pushed + [value], period)
  {
    hide Totals;
    hide Cumulative;
    TotalsSnoc(pushed, value);
    TailSnoc(Totals(pushed), |pushed| + 1 - |history|, Add(cumsum, value));
  }

  lemma TailSnoc<T>(xs: seq<T>, i: nat, x: T)
    requires i <= |xs|
    ensures (xs + [x])[i..] == xs[i..] + [x]
    ensures (xs + [x])[i + 1..] == (xs[i..] + [x])[1..]
  {
  }

  lemma TrackedWindow(cumsum: Num, history: seq<Num>, pushed: seq<Num>, period: nat)
    requires Tracks(cumsum, history, pushed, period) && period >= 1
    ensures WindowSum(pushed, period)
         == if |history| == period + 1 then Some(Sub(history[|history| - 1], history[0])) else None
  {
    hide Totals;
    hide Cumulative;
    hide WindowSum;
    WindowIs(pushed, period);
    if |history| == period + 1 {
      TotalsAt(pushed, |pushed| - period);
    }
  }

  class IncrementalSMA {
    const period: nat
    const sum: RunningWindowSum
    ghost var closes: seq<Num>

    ghost predicate Valid()
      reads this, sum
    {
      sum.Valid() && sum.period == period && sum.pushed == closes
    }

    constructor (period: nat)
      requires period >= 1
      ensures Valid() && fresh(sum) && closes == [] && this.period == period
    {
      hide Tracks;
      this.period := period;
      sum := new RunningWindowSum(period);
      closes := [];
    }

    method Update(close: Num) returns (r: Option<Num>)
      requires Valid()
      modifies this, sum
      ensures Valid() && closes == old(closes) + [close]
      ensures r == Mean(closes, period)
    {
      hide Tracks;
      hide WindowSum;
      closes := closes + [close];
      var total := sum.Push(close);
      if total.None? {
        return None;
      }
      r := Some(Div(total.value, Int(period)));
    }
  }

  class IncrementalRSI {
    const signs: Signs
    const period: nat
    const gainSum: RunningWindowSum
    const lossSum: RunningWindowSum
    var prevClose: Option<Num>
    ghost var closes: seq<Num>

    ghost predicate Valid()
      reads this, gainSum, lossSum
    {
      && gainSum != lossSum
      && gainSum.Valid() && gainSum.period == period
      && lossSum.Valid() && lossSum.period == period
      && gainSum.pushed == Gains(signs, closes) && lossSum.pushed == Losses(signs, closes)
      && prevClose == if closes == [] then None else Some(Last(closes))
    }

    constructor (signs: Signs, period: nat)
      requires period >= 1
      ensures Valid() && fresh(gainSum) && fresh(lossSum) && closes == [] && this.signs == signs
              && this.period == period
    {
      hide Tracks;
      this.signs, this.period := signs, period;
      gainSum := new RunningWindowSum(period);
      lossSum := new RunningWindowSum(period);
      prevClose, closes := None, [];
    }

    method Update(close: Num) returns (r: Option<Num>)
      requires Valid()
      modifies this, gainSum, lossSum
      ensures Valid() && closes == old(closes) + [close]
      ensures r == Rsi(signs, closes, period)
    {
      hide Gains;
      hide Losses;
      hide WindowSum;
      hide Tracks;
      GainsSnoc(signs, closes, close);
      LossesSnoc(signs, closes, close);
      var previous := if prevClose.Some? then prevClose.value else close;
      var delta := Sub(close, previous);
      prevClose := Some(close);
      var gain := if delta in signs.positive then delta else ZERO;
      var loss := if delta in signs.negative then Neg(delta) else ZERO;
      closes := closes + [close];
      var gainTotal := gainSum.Push(gain);
      var lossTotal := lossSum.Push(loss);
      if gainTotal.None? || lossTotal.None? {
        return None;
      }
      var avgGain := Div(gainTotal.value, Int(period));
      var avgLoss := Div(lossTotal.value, Int(period));
      var denom := Add(avgGain, avgLoss);
      r := Some(if denom in signs.zero then Int(50) else Div(Mul(Int(100), avgGain), denom));
    }
  }

  class IncrementalATR {
    const period: nat
    const trSum: RunningWindowSum
    var prevClose: Option<Num>
    ghost var bars: seq<PriceBar>

    ghost predicate Valid()
      reads this, trSum
    {
      && trSum.Valid() && trSum.period == period && trSum.pushed == TrueRanges(bars)
      && prevClose == if bars == [] then None else Some(Last(bars).close)
    }

    constructor (period: nat)
      requires period >= 1
      ensures Valid() && fresh(trSum) && bars == [] && this.period == period
    {
      hide Tracks;
      this.period := period;
      trSum := new RunningWindowSum(period);
      prevClose, bars := None, [];
    }

    method Update(bar: PriceBar) returns (r: Option<Num>)
      requires Valid()
      modifies this, trSum
      ensures Valid() && bars == old(bars) + [bar]
      ensures r == Atr(bars, period)
    {
      hide TrueRanges;
      hide WindowSum;
      hide Tracks;
      TrueRangesSnoc(bars, bar);
      var trueRange := Sub(bar.high, bar.low);
      if prevClose.Some? {
        trueRange := Greater(Greater(trueRange, Abs(Sub(bar.high, prevClose.value))),
                             Abs(Sub(bar.low, prevClose.value)));
      }
      prevClose := Some(bar.close);
      bars := bars + [bar];
      var total := trSum.Push(trueRange);
      if total.None? {
        return None;
      }
      r := Some(Div(total.value, Int(period)));
    }
  }

  class IncrementalBollingerBands {
    const period: nat
    const numStd: Num
    const valueSum: RunningWindowSum
    const sqSum: RunningWindowSum
    ghost var closes: seq<Num>

    ghost predicate Valid()
      reads this, valueSum, sqSum
    {
      && period >= 2 && valueSum != sqSum
      && valueSum.Valid() && valueSum.period == period
      && sqSum.Valid() && sqSum.period == period
      && valueSum.pushed == closes && sqSum.pushed == Squares(closes)
    }

    constructor (period: nat, numStd: Num)
      requires period >= 2
      ensures Valid() && fresh(valueSum) && fresh(sqSum) && closes == []
      ensures this.period == period && this.numStd == numStd
    {
      hide Tracks;
      this.period, this.numStd := period, numStd;
      valueSum := new RunningWindowSum(period);
      sqSum := new RunningWindowSum(period);
      closes := [];
    }

    method Update(close: Num) returns (r: Option<Bands>)
      requires Valid()
      modifies this, valueSum, sqSum
      ensures Valid() && closes == old(closes) + [close]
      ensures r == Bollinger(closes, period, numStd)
    {
      hide Squares;
      hide WindowSum;
      hide Tracks;
      SquaresSnoc(closes, close);
      closes := closes + [close];
      var valueTotal := valueSum.Push(close);
      var sqTotal := sqSum.Push(Mul(close, close));
      if valueTotal.None? || sqTotal.None? {
        return None;
      }
      var mean := Div(valueTotal.value, Int(period));
      var meanSq := Div(sqTotal.value, Int(period));
      var populationVariance := Greater(Sub(meanSq, Mul(mean, mean)), ZERO);
      var sampleVariance := Mul(populationVariance, Div(Int(period), Int(period - 1)));
      var std := Sqrt(sampleVariance);
      r := Some(Bands(Add(mean, Mul(numStd, std)), mean, Sub(mean, Mul(numStd, std))));
    }
  }

  class IncrementalRollingVolatility {
    const signs: Signs
    const period: nat
    const periodsPerYear: int
    const valueSum: RunningWindowSum
    const sqSum: RunningWindowSum
    var prevClose: Option<Num>
    ghost var closes: seq<Num>

    ghost predicate Valid()
      reads this, valueSum, sqSum
    {
      && period >= 2 && valueSum != sqSum
      && valueSum.Valid() && valueSum.period == period
      && sqSum.Valid() && sqSum.period == period
      && valueSum.pushed == Returns(closes) && sqSum.pushed == Squares(Returns(closes))
      && prevClose == if closes == [] then None else Some(Last(closes))
    }

    constructor (signs: Signs, period: nat, periodsPerYear: int)
      requires period >= 2
      ensures Valid() && fresh(valueSum) && fresh(sqSum) && closes == []
      ensures this.signs == signs && this.period == period && this.periodsPerYear == periodsPerYear
    {
      hide Tracks;
      this.signs, this.period, this.periodsPerYear := signs, period, periodsPerYear;
      valueSum := new RunningWindowSum(period);
      sqSum := new RunningWindowSum(period);
      prevClose, closes := None, [];
    }

    /** Raises on a previous close of zero, before anything is updated, and on a
        negative number of periods per year once warmed up, after everything is. */
    method Update(close: Num) returns (r: Result<Option<Num>, Error>)
      requires Valid()
      modifies this, valueSum, sqSum
      ensures Valid()
      ensures old(closes) != [] && Last(old(closes)) in signs.zero ==>
              r == Err(ZeroDivisionError) && closes == old(closes)
      ensures old(closes) == [] || Last(old(closes)) !in signs.zero ==>
        && closes == old(closes) + [close]
        && r == if periodsPerYear < 0 && |closes| >= period then Err(ValueError)
                else Ok(Volatility(closes, period, periodsPerYear))
    {
      hide Squares;
      hide Returns;
      hide WindowSum;
      hide Tracks;
      if prevClose.Some? && prevClose.value in signs.zero {
        return Err(ZeroDivisionError);
      }
      var ret := if prevClose.None? then ZERO else Div(Sub(close, prevClose.value), prevClose.value);
      prevClose := Some(close);
      closes := closes + [close];
      ReturnsSnoc(old(closes), close);
      SquaresSnoc(Returns(old(closes)), ret);
      var valueTotal := valueSum.Push(ret);
      var sqTotal := sqSum.Push(Mul(ret, ret));
      if valueTotal.None? || sqTotal.None? {
        return Ok(None);
      }
      var mean := Div(valueTotal.value, Int(period));
      var meanSq := Div(sqTotal.value, Int(period));
      var populationVariance := Greater(Sub(meanSq, Mul(mean, mean)), ZERO);
      var sampleVariance := Mul(populationVariance, Div(Int(period), Int(period - 1)));
      var std := Sqrt(sampleVariance);
      if periodsPerYear < 0 {
        return Err(ValueError);
      }
      r := Ok(Some(Mul(std, Sqrt(Int(periodsPerYear)))));
    }
  }

  class IncrementalEMA {
    const span: nat
    var value: Option<Num>
    ghost var closes: seq<Num>

    ghost predicate Valid()
      reads this
    {
      span >= 1 && value == Ema(closes, span)
    }

    constructor (span: nat)
      requires span >= 1
      ensures Valid() && closes == [] && this.span == span
    {
      this.span, value, closes := span, None, [];
    }

    /** Never None: defined from the first bar on. */
    method Update(close: Num) returns (r: Num)
      requires Valid()
      modifies this
      ensures Valid() && closes == old(closes) + [close] && Some(r) == Ema(closes, span)
    {
      EmaSnoc(closes, close, span);
      r := EmaStep(value, close, span);
      value := Some(r);
      closes := closes + [close];
    }
  }

  class IncrementalMACD {
    const fastSpan: nat
    const slowSpan: nat
    const signalSpan: nat
    var fast: Option<Num>
    var slow: Option<Num>
    var signal: Option<Num>
    ghost var closes: seq<Num>

    ghost predicate Valid()
      reads this
    {
      && 1 <= fastSpan < slowSpan && 1 <= signalSpan
      && fast == Ema(closes, fastSpan) && slow == Ema(closes, slowSpan)
      && signal == Ema(MacdLines(closes, fastSpan, slowSpan), signalSpan)
    }

    constructor (fastSpan: nat, slowSpan: nat, signalSpan: nat)
      requires 1 <= fastSpan < slowSpan && 1 <= signalSpan
      ensures Valid() && closes == []
      ensures this.fastSpan == fastSpan && this.slowSpan == slowSpan && this.signalSpan == signalSpan
    {
      this.fastSpan, this.slowSpan, this.signalSpan := fastSpan, slowSpan, signalSpan;
      fast, slow, signal, closes := None, None, None, [];
    }

    method Update(close: Num) returns (r: MacdPoint)
      requires Valid()
      modifies this
      ensures Valid() && closes == old(closes) + [close] && r == Macd(closes, fastSpan, slowSpan, signalSpan)
    {
      hide Ema;
      hide MacdLines;
      EmaSnoc(closes, close, fastSpan);
      EmaSnoc(closes, close, slowSpan);
      MacdLinesSnoc(closes, close, fastSpan, slowSpan);
      fast := Some(EmaStep(fast, close, fastSpan));
      slow := Some(EmaStep(slow, close, slowSpan));
      var macdLine := Sub(fast.value, slow.value);
      EmaSnoc(MacdLines(closes, fastSpan, slowSpan), macdLine, signalSpan);
      signal := Some(EmaStep(signal, macdLine, signalSpan));
      closes := closes + [close];
      r := MacdPoint(macdLine, signal.value, Sub(macdLine, signal.value));
    }
  }
}
