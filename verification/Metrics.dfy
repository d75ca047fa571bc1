/** The tearsheet's path measures: drawdown, trades and time in the market
    (application/backtest/metrics.py). Timestamps are microseconds. */
module Metrics {
  import opened Common
  import opened Fills
  import opened Positions

  datatype EquityPoint = EquityPoint(ts: int, equity: real)

  // ----- elapsed time -----

  const SECOND := 1_000_000
  const DAY := 86_400 * SECOND

  /** Days and whole seconds of the difference; what is left over is dropped. */
  function ElapsedDays(start: int, end: int): real {
    var delta := end - start;
    (delta / DAY) as real + (delta % DAY / SECOND) as real / 86400.0
  }

  /** Whole seconds of a million microseconds, 86400 of them to the day. */
  lemma WholeSeconds(start: int, end: int)
    ensures ElapsedDays(start, end) == ((end - start) / SECOND) as real / 86400.0
    ensures ElapsedDays(start, end) == ((end - start) / 1_000_000) as real / 86400.0
  {
    var delta := end - start;
    var days, rest := delta / DAY, delta % DAY;
    assert delta / SECOND == 86400 * days + rest / SECOND;
  }

  lemma FloorsAdd(x: int, y: int)
    ensures x / SECOND + y / SECOND <= (x + y) / SECOND
  {
  }

  /** Dropping fractions of a second can only lose time: two stretches never
      measure more than the whole. */
  lemma ElapsedIsSuperadditive(a: int, b: int, c: int)
    ensures ElapsedDays(a, b) + ElapsedDays(b, c) <= ElapsedDays(a, c)
  {
    WholeSeconds(a, b);
    WholeSeconds(b, c);
    WholeSeconds(a, c);
    FloorsAdd(b - a, c - b);
  }

  lemma ElapsedNonNegative(a: int, b: int)
    requires a <= b
    ensures ElapsedDays(a, b) >= 0.0
    ensures ElapsedDays(a, a) == 0.0
  {
    WholeSeconds(a, b);
    WholeSeconds(a, a);
  }

  // ----- drawdown -----

  /** Where the running maximum of the first n + 1 points was first attained. */
  function PeakIndex(curve: seq<EquityPoint>, n: nat): (p: nat)
    requires n < |curve|
    ensures p <= n
    ensures forall i :: 0 <= i <= n ==> curve[i].equity <= curve[p].equity
    ensures forall i :: 0 <= i < p ==> curve[i].equity < curve[p].equity
  {
    if n == 0 then 0
    else
      var p := PeakIndex(curve, n - 1);
      if curve[n].equity > curve[p].equity then n else p
  }

  function Drawdown(peak: real, equity: real): real
    requires peak > 0.0
  {
    (peak - equity) / peak
  }

  /** The largest drop from the running maximum over the first n points. */
  function WorstDrop(curve: seq<EquityPoint>, n: nat): real
    requires n <= |curve|
  {
    if n == 0 then 0.0
    else
      var peak := curve[PeakIndex(curve, n - 1)].equity;
      if peak > 0.0 then Max(WorstDrop(curve, n - 1), Drawdown(peak, curve[n - 1].equity)) else WorstDrop(curve, n - 1)
  }

  /** The time since the running maximum was first attained. */
  function Wait(curve: seq<EquityPoint>, n: nat): real
    requires n < |curve|
  {
    ElapsedDays(curve[PeakIndex(curve, n)].ts, curve[n].ts)
  }

  /** The longest such time over the first n points. */
  function LongestWait(curve: seq<EquityPoint>, n: nat): real
    requires n <= |curve|
  {
    if n == 0 then 0.0
    else Max(LongestWait(curve, n - 1), Wait(curve, n - 1))
  }

  lemma NewPeak(curve: seq<EquityPoint>, n: nat)
    requires n < |curve| && PeakIndex(curve, n) == n
    ensures WorstDrop(curve, n + 1) == Max(WorstDrop(curve, n), 0.0) || curve[n].equity <= 0.0
    ensures LongestWait(curve, n + 1) == Max(LongestWait(curve, n), 0.0)
  {
    ElapsedNonNegative(curve[n].ts, curve[n].ts);
  }

  lemma {:induction false} WorstDropNonNegative(curve: seq<EquityPoint>, n: nat)
    requires n <= |curve|
    ensures WorstDrop(curve, n) >= 0.0 && LongestWait(curve, n) >= 0.0
  {
    if n > 0 {
      WorstDropNonNegative(curve, n - 1);
    }
  }

  method MaxDrawdownAndDuration(curve: seq<EquityPoint>) returns (maxDrawdown: real, maxDuration: real)
    requires curve != []
    ensures maxDrawdown == WorstDrop(curve, |curve|)
    ensures maxDuration == LongestWait(curve, |curve|)
  {
    hide Drawdown;
    hide ElapsedDays;
    var peak, peakTs := curve[0].equity, curve[0].ts;
    maxDrawdown, maxDuration := 0.0, 0.0;
    for n := 0 to |curve|
      invariant var p := PeakIndex(curve, if n == 0 then 0 else n - 1);
                peak == curve[p].equity && peakTs == curve[p].ts
      invariant maxDrawdown == WorstDrop(curve, n) && maxDuration == LongestWait(curve, n)
    {
      var point := curve[n];
      if point.equity > peak {
        NewPeak(curve, n);
        WorstDropNonNegative(curve, n);
        DropAtPeak(point.equity);
        ElapsedNonNegative(point.ts, point.ts);
        peak, peakTs := point.equity, point.ts;
        continue;
      }
      if peak > 0.0 {
        maxDrawdown := Max(maxDrawdown, (peak - point.equity) / peak);
        DrawdownIs(peak, point.equity);
      }
      maxDuration := Max(maxDuration, ElapsedDays(peakTs, point.ts));
    }
  }

  lemma DropAtPeak(equity: real)
    ensures equity > 0.0 ==> Drawdown(equity, equity) == 0.0
  {
  }

  lemma DrawdownIs(peak: real, equity: real)
    requires peak > 0.0
    ensures Drawdown(peak, equity) == (peak - equity) / peak
  {
  }

  // ----- what the two numbers mean -----

  lemma HigherPeakDeeperDrop(a: real, b: real, e: real)
    requires 0.0 < a <= b && e >= 0.0
    ensures Drawdown(a, e) <= Drawdown(b, e)
  {
    var x, y := Drawdown(a, e), Drawdown(b, e);
    QuotientTimesDivisor(a - e, a);
    QuotientTimesDivisor(b - e, b);
    assert (1.0 - x) * a == e && (1.0 - y) * b == e;
    if x > y {
      ProductGrows(1.0 - x, 1.0 - y, a, b);
    }
  }

  lemma ProductGrows(x: real, y: real, a: real, b: real)
    requires x < y && 0.0 < a <= b && x * a >= 0.0
    ensures x * a < y * b
  {
    assert x >= 0.0;
    assert x * a < y * a;
    assert y * a <= y * b;
  }

  lemma DropBelowOne(peak: real, e: real)
    requires peak > 0.0
    ensures Drawdown(peak, e) < 1.0 <==> e > 0.0
    ensures e <= peak ==> Drawdown(peak, e) >= 0.0
  {
    var x := Drawdown(peak, e);
    QuotientTimesDivisor(peak - e, peak);
    assert (1.0 - x) * peak == e;
  }

  predicate Solvent(curve: seq<EquityPoint>) {
    curve != [] && curve[0].equity > 0.0 && forall i :: 0 <= i < |curve| ==> curve[i].equity >= 0.0
  }

  /** No pair of points shows a deeper drop ... */
  lemma {:induction false} NoDeeperDrop(curve: seq<EquityPoint>, n: nat, i: nat, j: nat)
    requires Solvent(curve) && i <= j < n <= |curve| && curve[i].equity > 0.0
    ensures Drawdown(curve[i].equity, curve[j].equity) <= WorstDrop(curve, n)
  {
    hide Drawdown;
    var peak := curve[PeakIndex(curve, n - 1)].equity;
    assert curve[0].equity <= peak;
    if j < n - 1 {
      NoDeeperDrop(curve, n - 1, i, j);
    } else {
      HigherPeakDeeperDrop(curve[i].equity, peak, curve[j].equity);
    }
  }

  /** ... and one pair shows this one. */
  lemma {:induction false} SomeDropIsWorst(curve: seq<EquityPoint>, n: nat) returns (i: nat, j: nat)
    requires Solvent(curve) && 0 < n <= |curve|
    ensures i <= j < n && curve[i].equity > 0.0
    ensures Drawdown(curve[i].equity, curve[j].equity) == WorstDrop(curve, n)
  {
    hide Drawdown;
    var p := PeakIndex(curve, n - 1);
    assert curve[0].equity <= curve[p].equity;
    if n == 1 {
      DropAtPeak(curve[0].equity);
      i, j := 0, 0;
    } else {
      i, j := SomeDropIsWorst(curve, n - 1);
      if WorstDrop(curve, n) != WorstDrop(curve, n - 1) {
        i, j := p, n - 1;
      }
    }
  }

  /** The one-pass drawdown is the maximum over all pairs; it is below one exactly
      if the equity never reaches zero. */
  lemma MaxDrawdownIsTheWorstPair(curve: seq<EquityPoint>)
    requires Solvent(curve)
    ensures forall i, j :: 0 <= i <= j < |curve| && curve[i].equity > 0.0 ==>
              Drawdown(curve[i].equity, curve[j].equity) <= WorstDrop(curve, |curve|)
    ensures exists i, j :: 0 <= i <= j < |curve| && curve[i].equity > 0.0 &&
              Drawdown(curve[i].equity, curve[j].equity) == WorstDrop(curve, |curve|)
    ensures 0.0 <= WorstDrop(curve, |curve|) <= 1.0
    ensures WorstDrop(curve, |curve|) < 1.0 <==> forall i :: 0 <= i < |curve| ==> curve[i].equity > 0.0
  {
    hide Drawdown;
    hide WorstDrop;
    var worst := WorstDrop(curve, |curve|);
    forall i, j | 0 <= i <= j < |curve| && curve[i].equity > 0.0
      ensures Drawdown(curve[i].equity, curve[j].equity) <= worst
    {
      NoDeeperDrop(curve, |curve|, i, j);
    }
    var i, j := SomeDropIsWorst(curve, |curve|);
    WorstDropNonNegative(curve, |curve|);
    DropBelowOne(curve[i].equity, curve[j].equity);
    DropAtMostOne(curve[i].equity, curve[j].equity);
    forall k | 0 <= k < |curve| && curve[k].equity == 0.0 ensures worst == 1.0 {
      NoDeeperDrop(curve, |curve|, 0, k);
      DropBelowOne(curve[0].equity, curve[k].equity);
    }
  }

  lemma DropAtMostOne(peak: real, e: real)
    requires peak > 0.0 && e >= 0.0
    ensures Drawdown(peak, e) <= 1.0
  {
    var x := Drawdown(peak, e);
    QuotientTimesDivisor(peak - e, peak);
    assert (1.0 - x) * peak == e;
  }

  predicate AscendingInTime(curve: seq<EquityPoint>) {
    forall i, j :: 0 <= i <= j < |curve| ==> curve[i].ts <= curve[j].ts
  }

  lemma WaitNonNegative(curve: seq<EquityPoint>, n: nat)
    requires AscendingInTime(curve) && n < |curve|
    ensures Wait(curve, n) >= 0.0
  {
    ElapsedNonNegative(curve[PeakIndex(curve, n)].ts, curve[n].ts);
  }

  /** The duration is the longest time, over all points, since the running maximum
      was first attained. */
  lemma {:induction false} DurationIsTheLongestWait(curve: seq<EquityPoint>, n: nat) returns (j: nat)
    requires AscendingInTime(curve) && 0 < n <= |curve|
    ensures j < n && Wait(curve, j) == LongestWait(curve, n)
    ensures forall k :: 0 <= k < n ==> Wait(curve, k) <= LongestWait(curve, n)
  {
    hide Wait;
    hide AscendingInTime;
    WaitNonNegative(curve, n - 1);
    if n == 1 {
      j := 0;
    } else {
      j := DurationIsTheLongestWait(curve, n - 1);
      if LongestWait(curve, n) != LongestWait(curve, n - 1) {
        j := n - 1;
      }
    }
  }

  // ----- the code's duration against the documented one -----

  /** The first point from `n` on above the level, or else the last point. */
  function FirstAbove(curve: seq<EquityPoint>, level: real, n: nat): (r: nat)
    requires n < |curve|
    ensures n <= r < |curve|
    ensures forall i :: n <= i < r ==> curve[i].equity <= level
    ensures curve[r].equity > level || r == |curve| - 1
    decreases |curve| - n
  {
    if curve[n].equity > level || n == |curve| - 1 then n else FirstAbove(curve, level, n + 1)
  }

  /** A point above all before it. */
  predicate Peak(curve: seq<EquityPoint>, p: nat)
    requires p < |curve|
  {
    PeakIndex(curve, p) == p
  }

  /** Where a peak is exceeded; the series' end if it never is. */
  function Recovery(curve: seq<EquityPoint>, p: nat): (r: nat)
    requires p < |curve|
    ensures p <= r < |curve|
  {
    FirstAbove(curve, curve[p].equity, p)
  }

  predicate Recovered(curve: seq<EquityPoint>, p: nat)
    requires p < |curve|
  {
    curve[Recovery(curve, p)].equity > curve[p].equity
  }

  /** The documented stretch of one peak: to its recovery, or to the end. */
  function Underwater(curve: seq<EquityPoint>, p: nat): real
    requires p < |curve|
  {
    ElapsedDays(curve[p].ts, curve[Recovery(curve, p)].ts)
  }

  /** The documented duration: the longest such stretch of the peaks before `n`. */
  function LongestRecovery(curve: seq<EquityPoint>, n: nat): real
    requires n <= |curve|
  {
    if n == 0 then 0.0
    else if Peak(curve, n - 1) then Max(LongestRecovery(curve, n - 1), Underwater(curve, n - 1))
    else LongestRecovery(curve, n - 1)
  }

  lemma ElapsedGrows(a: int, b: int, c: int)
    requires b <= c
    ensures ElapsedDays(a, b) <= ElapsedDays(a, c)
    ensures c - b >= SECOND ==> ElapsedDays(a, b) < ElapsedDays(a, c)
  {
    hide ElapsedDays;
    WholeSeconds(a, b);
    WholeSeconds(a, c);
    FloorGrows(b - a, c - a);
    DaysGrow((b - a) / SECOND, (c - a) / SECOND);
  }

  lemma FloorGrows(x: int, y: int)
    requires x <= y
    ensures x / SECOND <= y / SECOND
    ensures x + SECOND <= y ==> x / SECOND < y / SECOND
  {
  }

  lemma DaysGrow(m: int, n: int)
    requires m <= n
    ensures m as real / 86400.0 <= n as real / 86400.0
    ensures m < n ==> m as real / 86400.0 < n as real / 86400.0
  {
  }

  lemma UnderwaterNonNegative(curve: seq<EquityPoint>, p: nat)
    requires AscendingInTime(curve) && p < |curve|
    ensures Underwater(curve, p) >= 0.0
  {
    ElapsedNonNegative(curve[p].ts, curve[Recovery(curve, p)].ts);
  }

  lemma {:induction false} LongestRecoveryIsAttained(curve: seq<EquityPoint>, n: nat) returns (p: nat)
    requires AscendingInTime(curve) && 0 < n <= |curve|
    ensures p < n && Peak(curve, p) && Underwater(curve, p) == LongestRecovery(curve, n)
    ensures forall q: nat :: q < n && Peak(curve, q) ==> Underwater(curve, q) <= LongestRecovery(curve, n)
  {
    hide ElapsedDays;
    hide Underwater;
    hide AscendingInTime;
    if n == 1 {
      UnderwaterNonNegative(curve, 0);
      p := 0;
    } else {
      p := LongestRecoveryIsAttained(curve, n - 1);
      if LongestRecovery(curve, n) != LongestRecovery(curve, n - 1) {
        p := n - 1;
      }
    }
  }

  /** A peak stands until it is exceeded, and one never exceeded is the last. */
  lemma {:induction false} PeakStands(curve: seq<EquityPoint>, p: nat, n: nat)
    requires p <= n < |curve| && Peak(curve, p)
    requires forall i :: p <= i <= n ==> curve[i].equity <= curve[p].equity
    ensures PeakIndex(curve, n) == p
  {
    if p < n {
      PeakStands(curve, p, n - 1);
    }
  }

  lemma {:induction false} PeakOfPeak(curve: seq<EquityPoint>, n: nat)
    requires n < |curve|
    ensures Peak(curve, PeakIndex(curve, n))
  {
    if n > 0 {
      PeakOfPeak(curve, n - 1);
    }
  }

  /** A point waits no longer than its peak stays under water, and strictly less
      before a recovery at least a second later. */
  lemma WaitIsUnderwater(curve: seq<EquityPoint>, j: nat)
    requires AscendingInTime(curve) && j < |curve|
    ensures var p := PeakIndex(curve, j);
            && Peak(curve, p)
            && Wait(curve, j) <= Underwater(curve, p)
            && (Recovered(curve, p) && SecondsApart(curve) ==> Wait(curve, j) < Underwater(curve, p))
            && (!Recovered(curve, p) ==> Wait(curve, j) <= Wait(curve, |curve| - 1))
  {
    hide ElapsedDays;
    var p := PeakIndex(curve, j);
    PeakOfPeak(curve, j);
    var r := Recovery(curve, p);
    assert j <= r && (Recovered(curve, p) ==> j < r);
    ElapsedGrows(curve[p].ts, curve[j].ts, curve[r].ts);
    if !Recovered(curve, p) {
      PeakStands(curve, p, r);
    } else if SecondsApart(curve) {
      assert curve[r - 1].ts + SECOND <= curve[r].ts;
    }
  }

  predicate SecondsApart(curve: seq<EquityPoint>) {
    forall i :: 0 < i < |curve| ==> curve[i - 1].ts + SECOND <= curve[i].ts
  }

  /** The stretch of a peak never exceeded is the last wait. */
  lemma OpenStretch(curve: seq<EquityPoint>, p: nat)
    requires p < |curve| && Peak(curve, p) && !Recovered(curve, p)
    ensures Underwater(curve, p) == Wait(curve, |curve| - 1)
  {
    PeakStands(curve, p, |curve| - 1);
  }

  /** The code stops its clock one point before a recovery. It never measures more
      than the documented duration, and measures all of it exactly if some longest
      stretch either is never recovered or measures the same up to the point before
      its recovery; that is, if no recovered stretch is longer than the measure.
      With points a second or more apart it is exactly if none is longer than the
      last, unrecovered stretch. */
  lemma DurationIsDocumentedIff(curve: seq<EquityPoint>)
    requires AscendingInTime(curve) && curve != []
    ensures LongestWait(curve, |curve|) <= LongestRecovery(curve, |curve|)
    ensures LongestWait(curve, |curve|) == LongestRecovery(curve, |curve|) <==>
            exists p: nat :: p < |curve| && LongestIsMeasured(curve, p)
    ensures LongestWait(curve, |curve|) == LongestRecovery(curve, |curve|) <==>
            RecoveredWithin(curve, LongestWait(curve, |curve|))
    ensures SecondsApart(curve) ==>
              (LongestWait(curve, |curve|) == LongestRecovery(curve, |curve|) <==>
               RecoveredWithin(curve, Wait(curve, |curve| - 1)))
  {
    hide ElapsedDays;
    hide Wait;
    hide Peak;
    hide Recovered;
    hide Underwater;
    hide LongestWait;
    hide LongestRecovery;
    hide SecondsApart;
    hide AscendingInTime;
    hide LongestIsMeasured;
    var j := DurationIsTheLongestWait(curve, |curve|);
    var p := LongestRecoveryIsAttained(curve, |curve|);
    WaitIsUnderwater(curve, j);
    if !Recovered(curve, p) {
      OpenStretch(curve, p);
    }
    if LongestWait(curve, |curve|) == LongestRecovery(curve, |curve|) {
      AttainedIsMeasured(curve, j);
    }
    forall q: nat | q < |curve| && LongestIsMeasured(curve, q)
      ensures LongestRecovery(curve, |curve|) <= LongestWait(curve, |curve|)
    {
      MeasuredIsWaited(curve, q);
    }
  }

  /** A longest documented stretch that the code measures in full: it is never
      recovered, or no time passes from the point before its recovery. */
  predicate LongestIsMeasured(curve: seq<EquityPoint>, p: nat)
    requires p < |curve|
  {
    && Peak(curve, p) && Underwater(curve, p) == LongestRecovery(curve, |curve|)
    && (Recovered(curve, p) ==>
          ElapsedDays(curve[p].ts, curve[Recovery(curve, p) - 1].ts) == Underwater(curve, p))
  }

  lemma AttainedIsMeasured(curve: seq<EquityPoint>, j: nat)
    requires AscendingInTime(curve) && j < |curve| && Wait(curve, j) == LongestRecovery(curve, |curve|)
    ensures LongestIsMeasured(curve, PeakIndex(curve, j))
  {
    hide ElapsedDays;
    hide LongestRecovery;
    var p := PeakIndex(curve, j);
    WaitIsUnderwater(curve, j);
    var longest := LongestRecoveryIsAttained(curve, |curve|);
    if Recovered(curve, p) {
      var r := Recovery(curve, p);
      ElapsedGrows(curve[p].ts, curve[j].ts, curve[r - 1].ts);
      ElapsedGrows(curve[p].ts, curve[r - 1].ts, curve[r].ts);
    }
  }

  lemma MeasuredIsWaited(curve: seq<EquityPoint>, p: nat)
    requires AscendingInTime(curve) && p < |curve| && LongestIsMeasured(curve, p)
    ensures LongestRecovery(curve, |curve|) <= LongestWait(curve, |curve|)
  {
    hide ElapsedDays;
    hide LongestRecovery;
    hide LongestWait;
    var j := DurationIsTheLongestWait(curve, |curve|);
    if Recovered(curve, p) {
      var r := Recovery(curve, p);
      PeakStands(curve, p, r - 1);
      assert Wait(curve, r - 1) <= LongestWait(curve, |curve|);
    } else {
      OpenStretch(curve, p);
    }
  }

  predicate RecoveredWithin(curve: seq<EquityPoint>, days: real) {
    forall p: nat :: p < |curve| && Peak(curve, p) && Recovered(curve, p) ==> Underwater(curve, p) <= days
  }

  /** One drawdown over twenty days is measured as ten. */
  lemma RecoveryIsNotMeasured()
    ensures var curve := [EquityPoint(0, 100.0), EquityPoint(10 * DAY, 90.0), EquityPoint(20 * DAY, 110.0)];
            LongestWait(curve, 3) == 10.0 && LongestRecovery(curve, 3) == 20.0
  {
    var curve := [EquityPoint(0, 100.0), EquityPoint(10 * DAY, 90.0), EquityPoint(20 * DAY, 110.0)];
    assert PeakIndex(curve, 0) == 0 && PeakIndex(curve, 1) == 0 && PeakIndex(curve, 2) == 2;
    assert Wait(curve, 0) == 0.0 && Wait(curve, 1) == 10.0 && Wait(curve, 2) == 0.0;
    assert LongestWait(curve, 1) == 0.0 && LongestWait(curve, 2) == 10.0;
    assert FirstAbove(curve, 100.0, 2) == 2 && FirstAbove(curve, 100.0, 1) == 2;
    assert Recovery(curve, 0) == 2 && Recovery(curve, 2) == 2;
    assert Underwater(curve, 0) == 20.0 && Underwater(curve, 2) == 0.0;
    assert Peak(curve, 0) && !Peak(curve, 1) && Peak(curve, 2);
    assert LongestRecovery(curve, 0) == 0.0;
    assert LongestRecovery(curve, 1) == 20.0;
    assert LongestRecovery(curve, 2) == 20.0;
  }

  // ----- replaying the fills -----

  /** Later fills of the same time go after earlier ones. */
  function InsertByTime(sorted: seq<Fill>, f: Fill): (r: seq<Fill>) {
    if sorted == [] || sorted[|sorted| - 1].ts <= f.ts then sorted + [f]
    else InsertByTime(sorted[..|sorted| - 1], f) + [sorted[|sorted| - 1]]
  }

  /** Python's sorted() by time: stable. */
  function SortByTime(fills: seq<Fill>): seq<Fill> {
    if fills == [] then [] else InsertByTime(SortByTime(fills[..|fills| - 1]), fills[|fills| - 1])
  }

  datatype Ledger = Ledger(position: Position, trades: seq<real>, days: real, cursor: int)

  function Record(l: Ledger, f: Fill): Result<Ledger, CurrencyMismatch> {
    var position :- ApplyFill(l.position, f);
    Ok(Ledger(position,
              if SameDirection(l.position, f) then l.trades
              else l.trades + [position.realized.amount - l.position.realized.amount],
              if l.position.qty != 0.0 then l.days + ElapsedDays(l.cursor, f.ts) else l.days,
              f.ts))
  }

  function RecordAll(currency: string, start: int, fills: seq<Fill>): Result<Ledger, CurrencyMismatch> {
    if fills == [] then Ok(Ledger(Flat(currency), [], 0.0, start))
    else
      var before :- RecordAll(currency, start, fills[..|fills| - 1]);
      Record(before, fills[|fills| - 1])
  }

  function DaysInMarket(l: Ledger, end: int): real {
    if l.position.qty != 0.0 then l.days + ElapsedDays(l.cursor, end) else l.days
  }

  lemma RecordOneMore(currency: string, start: int, fills: seq<Fill>, n: nat)
    requires n < |fills|
    ensures RecordAll(currency, start, fills[..n + 1])
         == match RecordAll(currency, start, fills[..n]) case Ok(l) => Record(l, fills[n]) case Err(e) => Err(e)
  {
    assert fills[..n + 1][..n] == fills[..n];
  }

  lemma {:induction false} RecordStops(currency: string, start: int, fills: seq<Fill>, n: nat)
    requires n <= |fills| && RecordAll(currency, start, fills[..n]).Err?
    ensures RecordAll(currency, start, fills) == RecordAll(currency, start, fills[..n])
    decreases |fills| - n
  {
    hide RecordAll;
    hide Record;
    if n < |fills| {
      RecordOneMore(currency, start, fills, n);
      RecordStops(currency, start, fills, n + 1);
    } else {
      assert fills[..n] == fills;
    }
  }

  method ReplayFills(fills: seq<Fill>, curve: seq<EquityPoint>, currency: string)
    returns (r: Result<(seq<real>, real), CurrencyMismatch>)
    requires curve != []
    ensures var ledger := RecordAll(currency, curve[0].ts, SortByTime(fills));
            r == match ledger
                 case Ok(l) => Ok((l.trades, DaysInMarket(l, curve[|curve| - 1].ts)))
                 case Err(e) => Err(e)
  {
    hide RecordAll;
    hide SortByTime;
    hide ElapsedDays;
    hide ApplyFill;
    var sorted := SortByTime(fills);
    var position := Flat(currency);
    var tradePnls: seq<real> := [];
    var daysInMarket := 0.0;
    var cursor := curve[0].ts;
    NothingRecorded(currency, cursor);
    for n := 0 to |sorted|
      invariant RecordAll(currency, curve[0].ts, sorted[..n]) == Ok(Ledger(position, tradePnls, daysInMarket, cursor))
    {
      RecordOneMore(currency, curve[0].ts, sorted, n);
      var fill := sorted[n];
      if position.qty != 0.0 {
        daysInMarket := daysInMarket + ElapsedDays(cursor, fill.ts);
      }
      var isClosing := position.qty != 0.0 && (position.qty > 0.0) != (SignedQty(fill) > 0.0);
      var realizedBefore := position.realized;
      var applied := ApplyFill(position, fill);
      if applied.Err? {
        RecordStops(currency, curve[0].ts, sorted, n + 1);
        return Err(applied.error);
      }
      position := applied.value;
      if isClosing {
        tradePnls := tradePnls + [position.realized.amount - realizedBefore.amount];
      }
      cursor := fill.ts;
    }
    assert sorted[..|sorted|] == sorted;
    if position.qty != 0.0 {
      daysInMarket := daysInMarket + ElapsedDays(cursor, curve[|curve| - 1].ts);
    }
    r := Ok((tradePnls, daysInMarket));
  }

  lemma NothingRecorded(currency: string, start: int)
    ensures RecordAll(currency, start, []) == Ok(Ledger(Flat(currency), [], 0.0, start))
  {
  }

  // ----- what the replay means -----

  predicate UpTo(fills: seq<Fill>, ts: int) {
    forall i :: 0 <= i < |fills| ==> fills[i].ts <= ts
  }

  /** Each fill no earlier than all before it. */
  predicate InTime(fills: seq<Fill>) {
    fills == [] || (InTime(fills[..|fills| - 1]) && UpTo(fills[..|fills| - 1], fills[|fills| - 1].ts))
  }

  lemma SnocUpTo(fills: seq<Fill>, f: Fill, ts: int)
    ensures UpTo(fills + [f], ts) <==> UpTo(fills, ts) && f.ts <= ts
    ensures InTime(fills + [f]) <==> InTime(fills) && UpTo(fills, f.ts)
  {
    assert (fills + [f])[..|fills|] == fills;
    if UpTo(fills + [f], ts) {
      forall i | 0 <= i < |fills| ensures fills[i].ts <= ts {
        assert (fills + [f])[i] == fills[i];
      }
      assert (fills + [f])[|fills|] == f;
    }
  }

  lemma {:induction false} InsertKeepsTime(sorted: seq<Fill>, f: Fill, ts: int)
    requires InTime(sorted)
    ensures InTime(InsertByTime(sorted, f))
    ensures UpTo(sorted, ts) && f.ts <= ts ==> UpTo(InsertByTime(sorted, f), ts)
  {
    hide UpTo;
    if sorted == [] {
      NoneUpTo(f.ts);
      SnocUpTo(sorted, f, ts);
    } else {
      var front, last := sorted[..|sorted| - 1], sorted[|sorted| - 1];
      assert sorted == front + [last];
      SnocUpTo(front, last, ts);
      if last.ts <= f.ts {
        UpToLater(front, last.ts, f.ts);
        SnocUpTo(front, last, f.ts);
        SnocUpTo(sorted, f, ts);
      } else {
        InsertKeepsTime(front, f, last.ts);
        InsertKeepsTime(front, f, ts);
        SnocUpTo(InsertByTime(front, f), last, ts);
      }
    }
  }

  lemma NoneUpTo(ts: int)
    ensures UpTo([], ts)
  {
  }

  lemma UpToLater(fills: seq<Fill>, ts: int, later: int)
    requires UpTo(fills, ts) && ts <= later
    ensures UpTo(fills, later)
  {
  }

  lemma {:induction false} InsertKeepsFills(sorted: seq<Fill>, f: Fill)
    ensures multiset(InsertByTime(sorted, f)) == multiset(sorted) + multiset{f}
  {
    if sorted != [] && sorted[|sorted| - 1].ts > f.ts {
      InsertKeepsFills(sorted[..|sorted| - 1], f);
      assert sorted == sorted[..|sorted| - 1] + [sorted[|sorted| - 1]];
    }
  }

  lemma SortSnoc(fills: seq<Fill>)
    requires fills != []
    ensures SortByTime(fills) == InsertByTime(SortByTime(fills[..|fills| - 1]), fills[|fills| - 1])
  {
  }

  lemma BagSnoc<T>(s: seq<T>)
    requires s != []
    ensures multiset(s) == multiset(s[..|s| - 1]) + multiset{s[|s| - 1]}
  {
    assert s == s[..|s| - 1] + [s[|s| - 1]];
  }

  /** Sorting loses no fill and puts them in time order. */
  lemma {:induction false} SortIsSorted(fills: seq<Fill>)
    ensures multiset(SortByTime(fills)) == multiset(fills)
    ensures InTime(SortByTime(fills))
  {
    hide InTime;
    hide InsertByTime;
    hide SortByTime;
    if fills == [] {
      NothingToSort();
    } else {
      var front := fills[..|fills| - 1];
      SortIsSorted(front);
      SortSnoc(fills);
      BagSnoc(fills);
      InsertKeepsFills(SortByTime(front), fills[|fills| - 1]);
      InsertKeepsTime(SortByTime(front), fills[|fills| - 1], 0);
    }
  }

  lemma NothingToSort()
    ensures SortByTime([]) == [] && InTime([])
  {
  }

  /** The fills of one moment, in order. */
  function AtTime(fills: seq<Fill>, ts: int): seq<Fill> {
    if fills == [] then []
    else AtTime(Front(fills), ts) + if Last(fills).ts == ts then [Last(fills)] else []
  }

  lemma AtTimeSnoc(fills: seq<Fill>, f: Fill, ts: int)
    ensures AtTime(fills + [f], ts) == AtTime(fills, ts) + if f.ts == ts then [f] else []
  {
    assert Front(fills + [f]) == fills;
  }

  lemma {:induction false} InsertKeepsTies(sorted: seq<Fill>, f: Fill, ts: int)
    ensures AtTime(InsertByTime(sorted, f), ts) == AtTime(sorted, ts) + if f.ts == ts then [f] else []
  {
    hide AtTime;
    if sorted == [] || Last(sorted).ts <= f.ts {
      AtTimeSnoc(sorted, f, ts);
    } else {
      var front, last := Front(sorted), Last(sorted);
      assert sorted == front + [last];
      InsertKeepsTies(front, f, ts);
      AtTimeSnoc(InsertByTime(front, f), last, ts);
      AtTimeSnoc(front, last, ts);
    }
  }

  /** Sorting is stable: fills of one moment keep their order. */
  lemma {:induction false} SortKeepsTies(fills: seq<Fill>, ts: int)
    ensures AtTime(SortByTime(fills), ts) == AtTime(fills, ts)
  {
    hide InsertByTime;
    if fills != [] {
      SortKeepsTies(Front(fills), ts);
      InsertKeepsTies(SortByTime(Front(fills)), Last(fills), ts);
    }
  }

  lemma ClosingIsOpposite(p: Position, f: Fill)
    ensures !SameDirection(p, f) <==> (p.qty > 0.0 && f.side == Sell) || (p.qty < 0.0 && f.side == Buy)
  {
  }

  /** What a closing fill realizes: what it closes at the difference to the entry,
      less the fee. */
  function ClosingValue(p: Position, f: Fill): real {
    var closed := if f.qty < Abs(p.qty) then f.qty else Abs(p.qty);
    var gain := if p.qty > 0.0 then f.price - p.avgEntry else p.avgEntry - f.price;
    closed * gain - f.fee.amount
  }

  lemma ClosingGain(p: Position, f: Fill)
    requires !SameDirection(p, f) && ApplyFill(p, f).Ok? && f.id !in p.applied
    ensures ApplyFill(p, f).value.realized.amount - p.realized.amount == ClosingValue(p, f)
  {
    hide ApplyFill;
    CaseByCase(p, f);
    ClosingIsOpposite(p, f);
  }

  lemma RecordedTrade(l: Ledger, f: Fill)
    requires Record(l, f).Ok?
    ensures var after, p := Record(l, f).value, l.position;
            if (p.qty > 0.0 && f.side == Sell) || (p.qty < 0.0 && f.side == Buy)
            then
              && after.trades == l.trades + [after.position.realized.amount - p.realized.amount]
              && after.position.realized.amount - p.realized.amount
                 == if f.id in p.applied then 0.0 else ClosingValue(p, f)
            else after.trades == l.trades
  {
    hide ApplyFill;
    hide SameDirection;
    hide Record;
    hide ClosingValue;
    RecordOutcome(l, f);
    FillOutcome(l.position, f);
    ClosingIsOpposite(l.position, f);
    if !SameDirection(l.position, f) && f.id !in l.position.applied {
      ClosingGain(l.position, f);
    }
  }

  /** Exactly a fill against the position is a trade, and its value what the fill
      realizes, fee included; a repeat is a trade of nothing. */
  lemma LastTrade(currency: string, start: int, fills: seq<Fill>)
    requires fills != [] && RecordAll(currency, start, fills).Ok?
    ensures RecordAll(currency, start, Front(fills)).Ok?
    ensures var before := RecordAll(currency, start, Front(fills)).value;
            var after := RecordAll(currency, start, fills).value;
            var p, f := before.position, Last(fills);
            var closed := if f.qty < Abs(p.qty) then f.qty else Abs(p.qty);
            var gain := if p.qty > 0.0 then f.price - p.avgEntry else p.avgEntry - f.price;
            var traded := after.position.realized.amount - p.realized.amount;
            if (p.qty > 0.0 && f.side == Sell) || (p.qty < 0.0 && f.side == Buy)
            then after.trades == before.trades + [traded]
                 && traded == if f.id in p.applied then 0.0 else closed * gain - f.fee.amount
            else after.trades == before.trades
  {
    hide Record;
    RecordedTrade(RecordAll(currency, start, Front(fills)).value, Last(fills));
  }

  /** The time held up to `end`, from the quantities alone: every stretch after a
      fill that leaves the net quantity of the history so far non-zero. */
  function TimeHeld(fills: seq<Fill>, end: int): real {
    if fills == [] then 0.0
    else
      TimeHeld(Front(fills), Last(fills).ts)
      + if NetQty(FirstDeliveries(fills)) != 0.0 then ElapsedDays(Last(fills).ts, end) else 0.0
  }

  /** Days in market are the time held, the last stretch to the end of the curve
      included. */
  lemma {:induction false} DaysAreTimeHeld(currency: string, start: int, fills: seq<Fill>, end: int)
    requires RecordAll(currency, start, fills).Ok?
    ensures DaysInMarket(RecordAll(currency, start, fills).value, end) == TimeHeld(fills, end)
  {
    hide ApplyFill;
    hide ElapsedDays;
    hide FirstDeliveries;
    hide NetQty;
    if fills != [] {
      var front, f := Front(fills), Last(fills);
      DaysAreTimeHeld(currency, start, front, f.ts);
      TradesAccountForRealized(currency, start, fills);
      TotalIsCash(currency, fills, RecordAll(currency, start, fills).value.position, 0.0);
    }
  }

  function Sum(xs: seq<real>): real {
    if xs == [] then 0.0 else Sum(xs[..|xs| - 1]) + xs[|xs| - 1]
  }

  /** The fees of fills that open or add, a repeat delivery counting nothing. */
  function EntryFees(currency: string, fills: seq<Fill>): real {
    if fills == [] then 0.0
    else
      var f := fills[|fills| - 1];
      EntryFees(currency, fills[..|fills| - 1]) +
      match Replay(Flat(currency), fills[..|fills| - 1])
      case Ok(p) => if SameDirection(p, f) && f.id !in p.applied then f.fee.amount else 0.0
      case Err(_) => 0.0
  }

  /** Trades and entry fees account for everything realized. */
  lemma {:induction false} TradesAccountForRealized(currency: string, start: int, fills: seq<Fill>)
    requires RecordAll(currency, start, fills).Ok?
    ensures var l := RecordAll(currency, start, fills).value;
            && Replay(Flat(currency), fills) == Ok(l.position)
            && Sum(l.trades) - EntryFees(currency, fills) == l.position.realized.amount
  {
    if fills != [] {
      hide ApplyFill;
      hide ElapsedDays;
      hide WeightedAverage;
      var f := fills[|fills| - 1];
      TradesAccountForRealized(currency, start, fills[..|fills| - 1]);
      var before := RecordAll(currency, start, fills[..|fills| - 1]).value;
      if SameDirection(before.position, f) {
        EntryBooksTheFee(before.position, f);
      }
      var l := RecordAll(currency, start, fills).value;
      assert !SameDirection(before.position, f) ==> l.trades[..|l.trades| - 1] == before.trades;
    }
  }

  lemma EntryBooksTheFee(p: Position, f: Fill)
    requires ApplyFill(p, f).Ok? && SameDirection(p, f)
    ensures ApplyFill(p, f).value.realized.amount
         == p.realized.amount - if f.id in p.applied then 0.0 else f.fee.amount
  {
    if f.id !in p.applied {
      AddKeepsCost(p, f, ApplyFill(p, f).value);
    }
  }

  /** Fills delivered again at a moment when they would close: each is booked as a
      trade of nothing. */
  function ClosingRepeats(currency: string, fills: seq<Fill>): nat {
    if fills == [] then 0
    else
      var f := fills[|fills| - 1];
      ClosingRepeats(currency, fills[..|fills| - 1]) +
      match Replay(Flat(currency), fills[..|fills| - 1])
      case Ok(p) => if f.id in p.applied && !SameDirection(p, f) then 1 else 0
      case Err(_) => 0
  }

  function WithoutZeros(trades: seq<real>): seq<real> {
    if trades == [] then []
    else WithoutZeros(Front(trades)) + if Last(trades) == 0.0 then [] else [Last(trades)]
  }

  /** The same trades but for `extra` more zeros. */
  predicate Padded(all: seq<real>, first: seq<real>, extra: nat) {
    && |all| == |first| + extra
    && WithoutZeros(all) == WithoutZeros(first)
    && (extra == 0 ==> all == first)
  }

  lemma PaddedStep(all: seq<real>, first: seq<real>, extra: nat, t: real)
    requires Padded(all, first, extra)
    ensures Padded(all + [t], first + [t], extra)
    ensures t == 0.0 ==> Padded(all + [t], first, extra + 1)
  {
    assert Front(all + [t]) == all && Front(first + [t]) == first;
  }

  /** The trade of a fill, if it is one. */
  lemma RecordOutcome(l: Ledger, f: Fill)
    requires Record(l, f).Ok?
    ensures ApplyFill(l.position, f) == Ok(Record(l, f).value.position)
    ensures Record(l, f).value.trades
         == if SameDirection(l.position, f) then l.trades
            else l.trades + [ApplyFill(l.position, f).value.realized.amount - l.position.realized.amount]
  {
    hide WeightedAverage;
    hide ElapsedDays;
    hide PricePnl;
  }

  lemma RecordAllOneMore(currency: string, start: int, fills: seq<Fill>, f: Fill)
    ensures RecordAll(currency, start, fills + [f])
         == match RecordAll(currency, start, fills) case Ok(l) => Record(l, f) case Err(e) => Err(e)
    ensures ClosingRepeats(currency, fills + [f])
         == ClosingRepeats(currency, fills)
          + match Replay(Flat(currency), fills)
            case Ok(p) => if f.id in p.applied && !SameDirection(p, f) then 1 else 0
            case Err(_) => 0
  {
    hide ApplyFill;
    hide Record;
    assert (fills + [f])[..|fills|] == fills;
  }

  /** Two ledgers of the same position take the same trade from a fill. */
  lemma RecordAlike(l: Ledger, m: Ledger, f: Fill, extra: nat)
    requires l.position == m.position && Record(l, f).Ok? && Padded(l.trades, m.trades, extra)
    ensures Record(m, f).Ok? && Record(m, f).value.position == Record(l, f).value.position
    ensures Padded(Record(l, f).value.trades, Record(m, f).value.trades, extra)
  {
    hide ApplyFill;
    hide ElapsedDays;
    hide Padded;
    RecordOutcome(l, f);
    PaddedStep(l.trades, m.trades, extra, ApplyFill(l.position, f).value.realized.amount - l.position.realized.amount);
  }

  /** A repeat books a trade of nothing where it would close. */
  lemma RecordRepeat(l: Ledger, m: Ledger, f: Fill, extra: nat)
    requires Record(l, f).Ok? && f.id in l.position.applied && Padded(l.trades, m.trades, extra)
    ensures Record(l, f).value.position == l.position
    ensures Padded(Record(l, f).value.trades, m.trades, extra + if SameDirection(l.position, f) then 0 else 1)
  {
    hide ElapsedDays;
    hide Padded;
    hide WeightedAverage;
    PaddedStep(l.trades, m.trades, extra, 0.0);
  }

  /** Against the first deliveries alone the trade list has one zero more for each
      closing repeat and otherwise the same trades in the same order; so it is the
      same list exactly if no fill was delivered again when it would close. */
  lemma RepeatsAddZeroTrades(currency: string, start: int, fills: seq<Fill>)
    requires RecordAll(currency, start, fills).Ok?
    ensures var all, first := RecordAll(currency, start, fills), RecordAll(currency, start, FirstDeliveries(fills));
            && first.Ok? && first.value.position == all.value.position
            && |all.value.trades| == |first.value.trades| + ClosingRepeats(currency, fills)
            && WithoutZeros(all.value.trades) == WithoutZeros(first.value.trades)
            && (all.value.trades == first.value.trades <==> ClosingRepeats(currency, fills) == 0)
  {
    PaddedByRepeats(currency, start, fills);
  }

  lemma {:induction false} PaddedByRepeats(currency: string, start: int, fills: seq<Fill>)
    requires RecordAll(currency, start, fills).Ok?
    ensures var all, first := RecordAll(currency, start, fills), RecordAll(currency, start, FirstDeliveries(fills));
            && first.Ok? && first.value.position == all.value.position
            && Padded(all.value.trades, first.value.trades, ClosingRepeats(currency, fills))
  {
    hide Record;
    hide RecordAll;
    hide SameDirection;
    hide Padded;
    hide ClosingRepeats;
    hide FirstDeliveries;
    hide Ids;
    if fills == [] {
      NoTrades(currency, start);
    } else {
      var front, f := Front(fills), Last(fills);
      assert fills == front + [f];
      RecordAllOneMore(currency, start, front, f);
      PaddedByRepeats(currency, start, front);
      DeliverOneMore(front, f);
      var l := RecordAll(currency, start, front).value;
      var m := RecordAll(currency, start, FirstDeliveries(front)).value;
      TradesAccountForRealized(currency, start, front);
      ReplayTracksIds(Flat(currency), front, l.position);
      if f.id in Ids(front) {
        RecordRepeat(l, m, f, ClosingRepeats(currency, front));
      } else {
        RecordAllOneMore(currency, start, FirstDeliveries(front), f);
        RecordAlike(l, m, f, ClosingRepeats(currency, front));
      }
    }
  }

  lemma NoTrades(currency: string, start: int)
    ensures FirstDeliveries([]) == [] && ClosingRepeats(currency, []) == 0
    ensures RecordAll(currency, start, []) == Ok(Ledger(Flat(currency), [], 0.0, start)) && Padded([], [], 0)
  {
  }

  /** Time in the market is measured within the stretch the fills lie in. */
  lemma {:induction false} DaysWithin(currency: string, start: int, fills: seq<Fill>)
    requires RecordAll(currency, start, fills).Ok?
    requires forall i :: 0 <= i < |fills| ==> start <= fills[i].ts
    requires InTime(fills)
    ensures var l := RecordAll(currency, start, fills).value;
            && start <= l.cursor && 0.0 <= l.days <= ElapsedDays(start, l.cursor)
            && (fills != [] ==> l.cursor == fills[|fills| - 1].ts)
  {
    hide ApplyFill;
    hide ElapsedDays;
    if fills == [] {
      ElapsedNonNegative(start, start);
    } else {
      var n := |fills| - 1;
      DaysWithin(currency, start, fills[..n]);
      var before := RecordAll(currency, start, fills[..n]).value;
      if n > 0 {
        assert before.cursor == fills[..n][n - 1].ts;
      }
      ElapsedIsSuperadditive(start, before.cursor, fills[n].ts);
      ElapsedNonNegative(before.cursor, fills[n].ts);
    }
  }

  /** With exact quotients and all fills inside the curve's span, days in market lie
      between zero and the total, although every stretch is truncated to whole
      seconds. */
  lemma DaysInMarketWithinTotal(currency: string, fills: seq<Fill>, start: int, end: int)
    requires RecordAll(currency, start, SortByTime(fills)).Ok?
    requires start <= end && forall i :: 0 <= i < |fills| ==> start <= fills[i].ts <= end
    ensures 0.0 <= DaysInMarket(RecordAll(currency, start, SortByTime(fills)).value, end) <= ElapsedDays(start, end)
  {
    hide RecordAll;
    hide SortByTime;
    hide ElapsedDays;
    var sorted := SortByTime(fills);
    SortIsSorted(fills);
    forall i | 0 <= i < |sorted| ensures start <= sorted[i].ts <= end {
      assert sorted[i] in multiset(sorted);
      assert sorted[i] in fills;
    }
    DaysWithin(currency, start, sorted);
    NothingRecorded(currency, start);
    var l := RecordAll(currency, start, sorted).value;
    assert l.cursor <= end;
    ElapsedIsSuperadditive(start, l.cursor, end);
    ElapsedNonNegative(l.cursor, end);
  }

  // ----- rounded quotients -----

  /** The days as accumulated when the step of each fill is off by some error. */
  function RoundedDays(currency: string, start: int, fills: seq<Fill>, errors: seq<real>): real
    requires |errors| == |fills|
  {
    if fills == [] then 0.0
    else
      var n := |fills| - 1;
      RoundedDays(currency, start, fills[..n], errors[..n]) +
      match RecordAll(currency, start, fills[..n])
      case Ok(l) => if l.position.qty != 0.0 then ElapsedDays(l.cursor, fills[n].ts) + errors[n] else 0.0
      case Err(_) => 0.0
  }

  /** How many stretches up to the last fill were spent in the market. */
  function Stretches(currency: string, start: int, fills: seq<Fill>): nat {
    if fills == [] then 0
    else
      Stretches(currency, start, fills[..|fills| - 1]) +
      match RecordAll(currency, start, fills[..|fills| - 1])
      case Ok(l) => if l.position.qty != 0.0 then 1 else 0
      case Err(_) => 0
  }

  predicate Within(errors: seq<real>, eps: real) {
    forall i :: 0 <= i < |errors| ==> Abs(errors[i]) <= eps
  }

  /** Errors of at most eps a stretch move the days by at most eps times the
      stretches in the market. */
  lemma {:induction false} DaysDrift(currency: string, start: int, fills: seq<Fill>, errors: seq<real>, eps: real)
    requires RecordAll(currency, start, fills).Ok?
    requires |errors| == |fills| && Within(errors, eps)
    ensures Abs(RoundedDays(currency, start, fills, errors) - RecordAll(currency, start, fills).value.days)
         <= Times(eps, Stretches(currency, start, fills) as real)
  {
    hide ApplyFill;
    hide ElapsedDays;
    hide Times;
    if fills == [] {
      NoTimes(eps);
    } else {
      var n := |fills| - 1;
      DaysDrift(currency, start, fills[..n], errors[..n], eps);
      TimesOneMore(eps, Stretches(currency, start, fills[..n]));
      assert Abs(errors[n]) <= eps;
    }
  }

  lemma NoTimes(eps: real)
    ensures Times(eps, 0.0) == 0.0
  {
  }

  lemma TimesOneMore(eps: real, n: nat)
    ensures Times(eps, (n + 1) as real) == Times(eps, n as real) + eps
  {
  }

  /** Days in market and the number of stretches, the one still open included. */
  function RoundedDaysInMarket(currency: string, start: int, fills: seq<Fill>, errors: seq<real>, end: int): real
    requires |errors| == |fills| + 1
  {
    RoundedDays(currency, start, fills, errors[..|fills|]) +
    match RecordAll(currency, start, fills)
    case Ok(l) => if l.position.qty != 0.0 then ElapsedDays(l.cursor, end) + errors[|fills|] else 0.0
    case Err(_) => 0.0
  }

  function StretchesInMarket(currency: string, start: int, fills: seq<Fill>): nat {
    Stretches(currency, start, fills) +
    match RecordAll(currency, start, fills)
    case Ok(l) => if l.position.qty != 0.0 then 1 else 0
    case Err(_) => 0
  }

  /** With every stretch off by at most eps, days in market exceed the total by at
      most eps for each stretch in the market, and fall below zero by no more. */
  lemma RoundedDaysWithinTotal(currency: string, fills: seq<Fill>, start: int, end: int, errors: seq<real>, eps: real)
    requires RecordAll(currency, start, SortByTime(fills)).Ok?
    requires start <= end && forall i :: 0 <= i < |fills| ==> start <= fills[i].ts <= end
    requires |errors| == |SortByTime(fills)| + 1 && Within(errors, eps)
    ensures var days := RoundedDaysInMarket(currency, start, SortByTime(fills), errors, end);
            var slack := Times(eps, StretchesInMarket(currency, start, SortByTime(fills)) as real);
            -slack <= days <= ElapsedDays(start, end) + slack
  {
    hide RecordAll;
    hide SortByTime;
    hide ElapsedDays;
    hide Times;
    hide RoundedDays;
    hide Stretches;
    var sorted := SortByTime(fills);
    DaysInMarketWithinTotal(currency, fills, start, end);
    DaysDrift(currency, start, sorted, errors[..|sorted|], eps);
    TimesOneMore(eps, Stretches(currency, start, sorted));
    assert Abs(errors[|sorted|]) <= eps;
  }

  /** Whole seconds lie between the two times. */
  predicate WholeSecondsApart(a: int, b: int) {
    (b - a) % SECOND == 0
  }

  lemma ElapsedAdds(a: int, b: int, c: int)
    requires WholeSecondsApart(a, b)
    ensures ElapsedDays(a, b) + ElapsedDays(b, c) == ElapsedDays(a, c)
  {
    WholeSeconds(a, b);
    WholeSeconds(b, c);
    WholeSeconds(a, c);
    assert (c - a) / SECOND == (b - a) / SECOND + (c - b) / SECOND;
  }

  /** The complement: days spent without a position up to the last fill. */
  function DaysFlat(currency: string, start: int, fills: seq<Fill>): real {
    if fills == [] then 0.0
    else
      DaysFlat(currency, start, fills[..|fills| - 1]) +
      match RecordAll(currency, start, fills[..|fills| - 1])
      case Ok(l) => if l.position.qty == 0.0 then ElapsedDays(l.cursor, fills[|fills| - 1].ts) else 0.0
      case Err(_) => 0.0
  }

  lemma {:induction false} WholeSecondsAddUp(currency: string, start: int, fills: seq<Fill>)
    requires RecordAll(currency, start, fills).Ok?
    requires forall i :: 0 <= i < |fills| ==> WholeSecondsApart(start, fills[i].ts)
    ensures var l := RecordAll(currency, start, fills).value;
            && WholeSecondsApart(start, l.cursor)
            && l.days + DaysFlat(currency, start, fills) == ElapsedDays(start, l.cursor)
  {
    hide ApplyFill;
    hide ElapsedDays;
    hide WholeSecondsApart;
    if fills == [] {
      ElapsedNonNegative(start, start);
      NoTimeApart(start);
    } else {
      var n := |fills| - 1;
      WholeSecondsAddUp(currency, start, fills[..n]);
      var before := RecordAll(currency, start, fills[..n]).value;
      ElapsedAdds(start, before.cursor, fills[n].ts);
    }
  }

  /** Two stretches lose less than a second of the whole. */
  lemma SplitLosesASecond(a: int, b: int, c: int)
    ensures ElapsedDays(a, c) <= ElapsedDays(a, b) + ElapsedDays(b, c) + SecondsInDays(1)
  {
    WholeSeconds(a, b);
    WholeSeconds(b, c);
    WholeSeconds(a, c);
    assert (c - a) / SECOND <= (b - a) / SECOND + (c - b) / SECOND + 1;
  }

  function SecondsInDays(n: nat): real {
    n as real / 86400.0
  }

  /** With exact quotients, days in and out of the market never exceed the time to
      the last fill and fall short of it by at most a second for each fill; when
      fills come at whole seconds they make it up exactly. */
  lemma InAndOutMakeTheWhole(currency: string, start: int, fills: seq<Fill>)
    requires RecordAll(currency, start, fills).Ok?
    ensures var l := RecordAll(currency, start, fills).value;
            && l.days + DaysFlat(currency, start, fills) <= ElapsedDays(start, l.cursor)
            && ElapsedDays(start, l.cursor)
               <= l.days + DaysFlat(currency, start, fills) + SecondsInDays(|fills|)
            && ((forall i :: 0 <= i < |fills| ==> WholeSecondsApart(start, fills[i].ts)) ==>
                  l.days + DaysFlat(currency, start, fills) == ElapsedDays(start, l.cursor))
  {
    hide RecordAll;
    hide DaysFlat;
    hide ElapsedDays;
    hide SecondsInDays;
    InAndOutWithin(currency, start, fills);
    if forall i :: 0 <= i < |fills| ==> WholeSecondsApart(start, fills[i].ts) {
      WholeSecondsAddUp(currency, start, fills);
    }
  }

  lemma {:induction false} InAndOutWithin(currency: string, start: int, fills: seq<Fill>)
    requires RecordAll(currency, start, fills).Ok?
    ensures var l := RecordAll(currency, start, fills).value;
            && l.days + DaysFlat(currency, start, fills) <= ElapsedDays(start, l.cursor)
            && ElapsedDays(start, l.cursor)
               <= l.days + DaysFlat(currency, start, fills) + SecondsInDays(|fills|)
  {
    hide ApplyFill;
    hide ElapsedDays;
    hide SecondsInDays;
    SecondsAdd(if fills == [] then 0 else |fills| - 1);
    if fills == [] {
      ElapsedNonNegative(start, start);
    } else {
      var n := |fills| - 1;
      InAndOutWithin(currency, start, fills[..n]);
      var before := RecordAll(currency, start, fills[..n]).value;
      ElapsedIsSuperadditive(start, before.cursor, fills[n].ts);
      SplitLosesASecond(start, before.cursor, fills[n].ts);
    }
  }

  lemma SecondsAdd(n: nat)
    ensures SecondsInDays(n + 1) == SecondsInDays(n) + SecondsInDays(1) && SecondsInDays(0) == 0.0
  {
  }

  lemma NoTimeApart(a: int)
    ensures WholeSecondsApart(a, a)
  {
  }

  /** The days out of the market as accumulated with the same errors. */
  function RoundedFlat(currency: string, start: int, fills: seq<Fill>, errors: seq<real>): real
    requires |errors| == |fills|
  {
    if fills == [] then 0.0
    else
      var n := |fills| - 1;
      RoundedFlat(currency, start, fills[..n], errors[..n]) +
      match RecordAll(currency, start, fills[..n])
      case Ok(l) => if l.position.qty == 0.0 then ElapsedDays(l.cursor, fills[n].ts) + errors[n] else 0.0
      case Err(_) => 0.0
  }

  lemma {:induction false} InAndOutDrift(currency: string, start: int, fills: seq<Fill>, errors: seq<real>, eps: real)
    requires RecordAll(currency, start, fills).Ok?
    requires |errors| == |fills| && Within(errors, eps)
    ensures Abs(RoundedDays(currency, start, fills, errors) + RoundedFlat(currency, start, fills, errors)
                - (RecordAll(currency, start, fills).value.days + DaysFlat(currency, start, fills)))
         <= Times(eps, |fills| as real)
  {
    hide ApplyFill;
    hide ElapsedDays;
    hide Times;
    if fills == [] {
      NoTimes(eps);
    } else {
      var n := |fills| - 1;
      InAndOutDrift(currency, start, fills[..n], errors[..n], eps);
      TimesOneMore(eps, n);
      assert Abs(errors[n]) <= eps;
    }
  }

  /** With every stretch off by at most eps, days in and out of the market are within
      eps and a second for each fill of the time to the last fill. */
  lemma RoundedInAndOut(currency: string, start: int, fills: seq<Fill>, errors: seq<real>, eps: real)
    requires RecordAll(currency, start, fills).Ok?
    requires |errors| == |fills| && Within(errors, eps)
    ensures var slack := Times(eps, |fills| as real);
            var both := RoundedDays(currency, start, fills, errors) + RoundedFlat(currency, start, fills, errors);
            var whole := ElapsedDays(start, RecordAll(currency, start, fills).value.cursor);
            both - slack <= whole <= both + slack + SecondsInDays(|fills|)
  {
    hide RecordAll;
    hide DaysFlat;
    hide RoundedDays;
    hide RoundedFlat;
    hide ElapsedDays;
    hide SecondsInDays;
    hide Times;
    hide Within;
    InAndOutMakeTheWhole(currency, start, fills);
    InAndOutDrift(currency, start, fills, errors, eps);
  }

  /** For a round trip that ends flat, the trades less the entry fees are the cash
      the fills moved. */
  lemma RoundTripTradesAreCash(currency: string, start: int, fills: seq<Fill>)
    requires RecordAll(currency, start, fills).Ok? && NetQty(FirstDeliveries(fills)) == 0.0
    ensures Sum(RecordAll(currency, start, fills).value.trades) - EntryFees(currency, fills)
         == CashValue(FirstDeliveries(fills), 0.0)
  {
    hide RecordAll;
    hide CashValue;
    TradesAccountForRealized(currency, start, fills);
    var p := RecordAll(currency, start, fills).value.position;
    TotalIsCash(currency, fills, p, 0.0);
    assert TotalPnl(p, 0.0) == p.realized.amount;
  }
}
