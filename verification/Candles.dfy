/** Candles, bar intervals and the per-(symbol, timeframe) series a backtest is
    built from (domain/candle.py, infrastructure/jobs/ohlcv_backfill_job.py:70-95).
    Timestamps and durations are microseconds. */
module Candles {
  type Duration = d: int | d > 0 witness 1

  const MINUTE: Duration := 60_000_000
  const HOUR: Duration := 60 * MINUTE
  const DAY: Duration := 24 * HOUR

  /** An interval name after the lookup: its step, or a name the table lacks
      (the ValueError of whoever asks for the step). */
  datatype Interval = Supported(step: Duration) | Unsupported(name: string)

  function IntervalToTimedelta(name: string): Interval {
    match name
    case "1m" => Supported(MINUTE)
    case "3m" => Supported(3 * MINUTE)
    case "5m" => Supported(5 * MINUTE)
    case "15m" => Supported(15 * MINUTE)
    case "30m" => Supported(30 * MINUTE)
    case "1h" => Supported(HOUR)
    case "2h" => Supported(2 * HOUR)
    case "4h" => Supported(4 * HOUR)
    case "6h" => Supported(6 * HOUR)
    case "8h" => Supported(8 * HOUR)
    case "12h" => Supported(12 * HOUR)
    case "1d" => Supported(DAY)
    case "3d" => Supported(3 * DAY)
    case "1w" => Supported(7 * DAY)
    case _ => Unsupported(name)
  }

  /** The name of a step in the table. */
  function NameOf(step: Duration): string {
    if step < HOUR then
      if step == MINUTE then "1m" else if step == 3 * MINUTE then "3m" else if step == 5 * MINUTE then "5m"
      else if step == 15 * MINUTE then "15m" else "30m"
    else if step < DAY then
      if step == HOUR then "1h" else if step == 2 * HOUR then "2h" else if step == 4 * HOUR then "4h"
      else if step == 6 * HOUR then "6h" else if step == 8 * HOUR then "8h" else "12h"
    else
      if step == DAY then "1d" else if step == 3 * DAY then "3d" else "1w"
  }

  /** A supported name can be read off its step, and the name of an unsupported
      interval is kept: so an interval stands for exactly one name. */
  lemma IntervalIsItsName(name: string)
    ensures var interval := IntervalToTimedelta(name);
            name == if IsInterval(interval) then NameOf(interval.step) else interval.name
  {
  }

  /** What a decimal numeral of up to two digits stands for. */
  function Numeral(digits: string): int
    requires 1 <= |digits| <= 2
  {
    if |digits| == 1 then digits[0] as int - '0' as int
    else 10 * (digits[0] as int - '0' as int) + (digits[1] as int - '0' as int)
  }

  /** A supported interval spans the number in its name times the unit: minutes of
      sixty million microseconds, hours of sixty minutes, days of 24 hours and weeks
      of seven days. */
  lemma IntervalIsNumberTimesUnit(name: string)
    ensures IsInterval(IntervalToTimedelta(name)) <==>
            name in {"1m", "3m", "5m", "15m", "30m", "1h", "2h", "4h", "6h", "8h", "12h", "1d", "3d", "1w"}
    ensures IsInterval(IntervalToTimedelta(name)) ==>
              && 2 <= |name| <= 3 && name[|name| - 1] in {'m', 'h', 'd', 'w'}
              && IntervalToTimedelta(name).step
                 == Numeral(name[..|name| - 1])
                    * (match name[|name| - 1]
                       case 'm' => 60_000_000
                       case 'h' => 60 * 60_000_000
                       case 'd' => 24 * 60 * 60_000_000
                       case _ => 7 * 24 * 60 * 60_000_000)
  {
  }

  predicate IsInterval(interval: Interval) {
    interval.Supported?
  }

  function Step(interval: Interval): Duration
    requires IsInterval(interval)
  {
    interval.step
  }

  datatype Candle = Candle(
    instrumentId: nat, interval: Interval, openTime: int,
    open: real, high: real, low: real, close: real, volume: real, isClosed: bool)

  /** Symbols are opaque identifiers. */
  datatype SeriesKey = SeriesKey(symbol: nat, timeframe: Interval)

  /** When a bar loaded under `timeframe` closes. */
  function CloseTs(c: Candle, timeframe: Interval): int
    requires IsInterval(timeframe)
  {
    c.openTime + Step(timeframe)
  }

  /** An insertion-ordered mapping from key to bars. */
  datatype SeriesMap = SeriesMap(keys: seq<SeriesKey>, bars: map<SeriesKey, seq<Candle>>)

  predicate Distinct<T(==)>(s: seq<T>) {
    s == [] || (s[0] !in s[1..] && Distinct(s[1..]))
  }

  lemma {:induction false} DistinctSuffix(keys: seq<SeriesKey>, n: nat)
    requires Distinct(keys) && n < |keys|
    ensures keys[n] !in keys[n + 1..] && keys[n] !in keys[..n]
  {
    if n > 0 {
      DistinctSuffix(keys[1..], n - 1);
      assert keys[1..][n..] == keys[n + 1..];
      assert keys[..n] == [keys[0]] + keys[1..][..n - 1];
    }
  }

  lemma {:induction false} DistinctIndex(keys: seq<SeriesKey>, i: nat, j: nat)
    requires Distinct(keys) && i < |keys| && j < |keys|
    ensures keys[i] == keys[j] <==> i == j
  {
    if i < j {
      DistinctSuffix(keys, j);
      assert keys[i] in keys[..j];
    } else if j < i {
      DistinctSuffix(keys, i);
      assert keys[j] in keys[..i];
    }
  }

  function KeySet(keys: seq<SeriesKey>): set<SeriesKey> {
    set k | k in keys
  }

  predicate Consistent(m: SeriesMap) {
    Distinct(m.keys) && m.bars.Keys == KeySet(m.keys)
  }

  type Dataset = m: SeriesMap | Consistent(m) witness SeriesMap([], map[])

  /** No series with a bar in it has an unsupported timeframe. */
  predicate Loadable(ds: Dataset) {
    forall k :: k in ds.bars && ds.bars[k] != [] ==> IsInterval(k.timeframe)
  }

  /** The documented precondition of feed and view: bars ascend by open time. */
  predicate Ascending(ds: Dataset) {
    forall k, i, j :: k in ds.bars && 0 <= i < j < |ds.bars[k]| ==>
      ds.bars[k][i].openTime <= ds.bars[k][j].openTime
  }

  /** Every timeframe is supported and every bar says the timeframe it is filed under. */
  predicate WellKeyed(ds: Dataset) {
    forall k :: k in ds.bars ==>
      IsInterval(k.timeframe) && forall i :: 0 <= i < |ds.bars[k]| ==> ds.bars[k][i].interval == k.timeframe
  }
}
