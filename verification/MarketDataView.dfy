/** The past-only cursor strategies read through
    (infrastructure/backtest/market_data_view.py). */
module MarketDataViews {
  import opened Common
  import opened Candles

  type Counts = map<SeriesKey, nat>

  /** Where the forward scan of one series stops. */
  function Scan(bars: seq<Candle>, step: int, count: nat, ts: int): (r: nat)
    requires count <= |bars|
    ensures count <= r <= |bars|
    ensures forall i :: count <= i < r ==> bars[i].openTime + step < ts
    ensures r < |bars| ==> bars[r].openTime + step >= ts
    decreases |bars| - count
  {
    if count < |bars| && bars[count].openTime + step < ts then Scan(bars, step, count + 1, ts) else count
  }

  predicate AllSupported(ds: Dataset) {
    forall k :: k in ds.bars ==> IsInterval(k.timeframe)
  }

  predicate InRange(ds: Dataset, counts: Counts) {
    counts.Keys == ds.bars.Keys && forall k :: k in ds.bars ==> counts[k] <= |ds.bars[k]|
  }

  /** The counts before the first advance. */
  function NoneRevealed(ds: Dataset): (r: Counts)
    ensures InRange(ds, r)
  {
    map k | k in ds.bars :: 0
  }

  /** How many series come before the first unsupported timeframe. */
  function SupportedPrefix(keys: seq<SeriesKey>): (n: nat)
    ensures n <= |keys|
    ensures forall i :: 0 <= i < n ==> IsInterval(keys[i].timeframe)
    ensures n < |keys| ==> !IsInterval(keys[n].timeframe)
  {
    if keys == [] || !IsInterval(keys[0].timeframe) then 0 else 1 + SupportedPrefix(keys[1..])
  }

  /** The counts once the scans of the first `n` series are done. */
  function ScanUpTo(ds: Dataset, counts: Counts, ts: int, n: nat): (r: Counts)
    requires InRange(ds, counts) && n <= SupportedPrefix(ds.keys)
    ensures InRange(ds, r)
  {
    if n == 0 then counts
    else
      var before := ScanUpTo(ds, counts, ts, n - 1);
      var key := ds.keys[n - 1];
      before[key := Scan(ds.bars[key], Step(key.timeframe), before[key], ts)]
  }

  lemma ScanNext(ds: Dataset, counts: Counts, ts: int, n: nat)
    requires InRange(ds, counts) && n < SupportedPrefix(ds.keys)
    ensures var key := ds.keys[n];
            var sofar := ScanUpTo(ds, counts, ts, n);
            && key in ds.bars && key in sofar && sofar[key] <= |ds.bars[key]| && IsInterval(key.timeframe)
            && ScanUpTo(ds, counts, ts, n + 1) == sofar[key := Scan(ds.bars[key], Step(key.timeframe), sofar[key], ts)]
            && InRange(ds, ScanUpTo(ds, counts, ts, n + 1))
  {
  }

  lemma NothingScanned(ds: Dataset, counts: Counts, ts: int)
    requires InRange(ds, counts)
    ensures ScanUpTo(ds, counts, ts, 0) == counts
  {
  }

  /** Everything visible at a given state of the cursor. */
  function Snapshot(ds: Dataset, counts: Counts): map<SeriesKey, seq<Candle>>
    requires InRange(ds, counts)
  {
    map k | k in ds.bars :: ds.bars[k][..counts[k]]
  }

  class CursorMarketDataView {
    const series: Dataset
    var revealedCount: Counts
    var currentTs: Option<int>

    ghost predicate Valid()
      reads this
    {
      InRange(series, revealedCount)
    }

    constructor (ds: Dataset)
      ensures Valid() && series == ds && currentTs == None
      ensures revealedCount == NoneRevealed(ds)
    {
      series := ds;
      revealedCount := NoneRevealed(ds);
      currentTs := None;
    }

    /** False is the ValueError of the first unsupported timeframe; the series
        before it have been advanced by then. */
    method Advance(ts: int) returns (ok: bool)
      requires Valid()
      modifies this
      ensures Valid()
      ensures var n := SupportedPrefix(series.keys);
              && (ok <==> n == |series.keys|)
              && revealedCount == ScanUpTo(series, old(revealedCount), ts, n)
              && currentTs == if ok then Some(ts) else old(currentTs)
    {
      hide Distinct;
      hide InRange;
      hide SupportedPrefix;
      hide Scan;
      hide ScanUpTo;
      ok := true;
      ghost var before := revealedCount;
      NothingScanned(series, before, ts);
      for n := 0 to |series.keys|
        invariant Valid() && currentTs == old(currentTs)
        invariant n <= SupportedPrefix(series.keys)
        invariant revealedCount == ScanUpTo(series, before, ts, n)
      {
        var key := series.keys[n];
        if !IsInterval(key.timeframe) {
          return false;
        }
        var step := Step(key.timeframe);
        ScanNext(series, before, ts, n);
        var candles := series.bars[key];
        var count := revealedCount[key];
        while count < |candles| && candles[count].openTime + step < ts
          invariant revealedCount[key] <= count <= |candles|
          invariant Scan(candles, step, count, ts) == Scan(candles, step, revealedCount[key], ts)
        {
          count := count + 1;
        }
        revealedCount := revealedCount[key := count];
      }
      currentTs := Some(ts);
    }

    /** The last n revealed bars, or all if there are fewer: a slice, no comparison
        of times. */
    function Bars(symbol: nat, timeframe: Interval, n: int): (r: seq<Candle>)
      requires Valid()
      reads this
      ensures n <= 0 || SeriesKey(symbol, timeframe) !in series.bars ==> r == []
      ensures n > 0 && SeriesKey(symbol, timeframe) in series.bars ==>
                var seen := Snapshot(series, revealedCount)[SeriesKey(symbol, timeframe)];
                && |r| == (if n <= |seen| then n else |seen|)
                && r == seen[|seen| - |r|..]
    {
      if n <= 0 then []
      else
        var key := SeriesKey(symbol, timeframe);
        var count := if key in revealedCount then revealedCount[key] else 0;
        var revealed := if key in series.bars then series.bars[key][..count] else [];
        if n >= |revealed| then revealed else revealed[|revealed| - n..]
    }
  }

  // ----- what the counts mean -----

  lemma {:induction false} ScanFromFurther(bars: seq<Candle>, step: int, count: nat, from: nat, ts: int)
    requires count <= from <= |bars|
    requires forall i :: count <= i < from ==> bars[i].openTime + step < ts
    ensures Scan(bars, step, from, ts) == Scan(bars, step, count, ts)
    decreases from - count
  {
    if count < from {
      ScanFromFurther(bars, step, count + 1, from, ts);
    }
  }

  /** The counts that a first call with `ts` leaves: a function of ts alone. */
  function RevealedAt(ds: Dataset, ts: int): (r: Counts)
    requires AllSupported(ds)
    ensures InRange(ds, r)
  {
    map k | k in ds.bars :: Scan(ds.bars[k], Step(k.timeframe), 0, ts)
  }

  predicate BehindOf(ds: Dataset, counts: Counts, ts: int)
    requires InRange(ds, counts) && AllSupported(ds)
  {
    forall k, i :: k in ds.bars && 0 <= i < counts[k] ==> ds.bars[k][i].openTime + Step(k.timeframe) < ts
  }

  lemma InRangeAt(ds: Dataset, counts: Counts, k: SeriesKey)
    requires InRange(ds, counts) && k in ds.bars
    ensures k in counts && counts[k] <= |ds.bars[k]|
  {
  }

  lemma {:induction false} ScanUpToPointwise(ds: Dataset, counts: Counts, ts: int, n: nat, j: nat)
    requires InRange(ds, counts) && n <= SupportedPrefix(ds.keys) && j < SupportedPrefix(ds.keys)
    ensures var k := ds.keys[j];
            && k in ds.bars && k in counts && k in ScanUpTo(ds, counts, ts, n) && counts[k] <= |ds.bars[k]|
            && ScanUpTo(ds, counts, ts, n)[k]
               == if j < n then Scan(ds.bars[k], Step(k.timeframe), counts[k], ts) else counts[k]
  {
    hide InRange;
    hide Distinct;
    hide SupportedPrefix;
    hide Scan;
    hide ScanUpTo;
    InRangeAt(ds, counts, ds.keys[j]);
    if n == 0 {
      NothingScanned(ds, counts, ts);
    } else {
      ScanUpToPointwise(ds, counts, ts, n - 1, j);
      ScanNext(ds, counts, ts, n - 1);
      DistinctIndex(ds.keys, n - 1, j);
    }
  }

  lemma SupportedAll(ds: Dataset)
    ensures AllSupported(ds) <==> SupportedPrefix(ds.keys) == |ds.keys|
  {
    var n := SupportedPrefix(ds.keys);
    if n < |ds.keys| {
      assert ds.keys[n] in ds.bars;
    }
  }

  /** However the cursor got behind `ts`, advancing to `ts` reveals the same bars. */
  lemma AdvanceForgetsThePath(ds: Dataset, counts: Counts, ts: int)
    requires InRange(ds, counts) && AllSupported(ds) && BehindOf(ds, counts, ts)
    ensures SupportedPrefix(ds.keys) == |ds.keys|
    ensures ScanUpTo(ds, counts, ts, |ds.keys|) == RevealedAt(ds, ts)
  {
    hide Distinct;
    SupportedAll(ds);
    var r := ScanUpTo(ds, counts, ts, |ds.keys|);
    forall k | k in ds.bars ensures r[k] == RevealedAt(ds, ts)[k] {
      var j :| 0 <= j < |ds.keys| && ds.keys[j] == k;
      ScanUpToPointwise(ds, counts, ts, |ds.keys|, j);
      ScanFromFurther(ds.bars[k], Step(k.timeframe), 0, counts[k], ts);
    }
  }

  /** Time going forward keeps the cursor behind. */
  lemma StaysBehind(ds: Dataset, ts: int, later: int)
    requires AllSupported(ds) && ts <= later
    ensures BehindOf(ds, RevealedAt(ds, ts), later)
  {
  }
}
