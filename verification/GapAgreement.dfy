/** What the two gap detectors mean: the diff splits into maximal runs, boundary
    detection and exhaustive diff find the same gaps, and a scan that backfilled
    leaves exactly what it chose not to backfill. */
module GapAgreement {
  import opened Common
  import opened Candles
  import opened Backfills
  import opened GapDetections

  // ----- the runs -----

  function Flatten(runs: seq<seq<int>>): seq<int> {
    if runs == [] then [] else Flatten(runs[..|runs| - 1]) + Last(runs)
  }

  predicate Contiguous(run: seq<int>, step: int) {
    run != [] && forall i :: 0 < i < |run| ==> run[i] - run[i - 1] == step
  }

  /** Every run is contiguous and no two neighbours could be joined. */
  predicate Maximal(runs: seq<seq<int>>, step: int) {
    runs == [] ||
    (var front := runs[..|runs| - 1];
     && Contiguous(Last(runs), step)
     && Maximal(front, step)
     && (front != [] && Last(front) != [] ==> Last(runs)[0] - Last(Last(front)) != step))
  }

  lemma FlattenSnoc(runs: seq<seq<int>>, run: seq<int>)
    ensures Flatten(runs + [run]) == Flatten(runs) + run
  {
    assert (runs + [run])[..|runs|] == runs;
  }

  lemma MaximalSnoc(runs: seq<seq<int>>, run: seq<int>, step: int)
    ensures Maximal(runs + [run], step)
       <==> && Contiguous(run, step) && Maximal(runs, step)
            && (runs != [] && Last(runs) != [] ==> run[0] - Last(Last(runs)) != step)
  {
    assert (runs + [run])[..|runs|] == runs;
  }

  lemma ContiguousSnoc(run: seq<int>, t: int, step: int)
    requires run != []
    ensures Contiguous(run + [t], step) <==> Contiguous(run, step) && t - Last(run) == step
  {
    var longer := run + [t];
    if Contiguous(longer, step) {
      forall i | 0 < i < |run| ensures run[i] - run[i - 1] == step {
        assert longer[i] - longer[i - 1] == step;
      }
      assert longer[|run|] - longer[|run| - 1] == step;
    }
  }

  /** The grouping loop splits what it is given into maximal contiguous runs. */
  lemma {:induction false} RunsAreMaximal(missing: seq<int>, step: int)
    ensures Flatten(Runs(missing, step)) == missing && Maximal(Runs(missing, step), step)
  {
    hide Contiguous;
    hide Runs;
    hide Flatten;
    hide Maximal;
    if missing == [] {
      NoRuns(step);
    } else {
      var n := |missing| - 1;
      var t := missing[n];
      RunsAreMaximal(missing[..n], step);
      RunsUnfold(missing, step);
      var before := Runs(missing[..n], step);
      assert missing == missing[..n] + [t];
      if before != [] && t - Last(Last(before)) == step {
        var front, run := before[..|before| - 1], Last(before);
        assert before == front + [run];
        ContiguousSnoc(run, t, step);
        MaximalSnoc(front, run, step);
        MaximalSnoc(front, run + [t], step);
        FlattenSnoc(front, run);
        FlattenSnoc(front, run + [t]);
        Associates(Flatten(front), run, [t]);
      } else {
        SingletonContiguous(t, step);
        MaximalSnoc(before, [t], step);
        FlattenSnoc(before, [t]);
      }
    }
  }

  lemma SingletonContiguous(t: int, step: int)
    ensures Contiguous([t], step)
  {
  }

  /** There is only one split into maximal contiguous runs. */
  lemma {:induction false} MaximalRunsAreTheRuns(runs: seq<seq<int>>, step: int)
    requires Maximal(runs, step)
    ensures Runs(Flatten(runs), step) == runs
    decreases |Flatten(runs)|, |runs|
  {
    hide Contiguous;
    hide Runs;
    hide Flatten;
    if runs == [] {
      NoRuns(step);
    } else {
      var front, run := runs[..|runs| - 1], Last(runs);
      assert runs == front + [run];
      NonEmptyRun(run, step);
      MaximalSnoc(front, run, step);
      FlattenSnoc(front, run);
      var n := |run| - 1;
      var flat := Flatten(runs);
      if n == 0 {
        assert flat[..|flat| - 1] == Flatten(front);
        MaximalRunsAreTheRuns(front, step);
        assert run == [run[0]] && Last(flat) == run[0];
      } else {
        var shorter := run[..n];
        assert run == shorter + [run[n]];
        ContiguousSnoc(shorter, run[n], step);
        MaximalSnoc(front, shorter, step);
        FlattenSnoc(front, shorter);
        assert flat[..|flat| - 1] == Flatten(front + [shorter]);
        MaximalRunsAreTheRuns(front + [shorter], step);
        assert (front + [shorter])[..|front|] == front;
        assert Last(flat) == run[n] && Last(front + [shorter]) == shorter;
      }
      RunsUnfold(flat, step);
    }
  }

  lemma NoRuns(step: int)
    ensures Flatten([]) == [] && Runs([], step) == [] && Maximal([], step)
  {
  }

  lemma NonEmptyRun(run: seq<int>, step: int)
    requires Contiguous(run, step)
    ensures |run| > 0
  {
  }

  lemma RunsUnfold(missing: seq<int>, step: int)
    requires missing != []
    ensures var t := Last(missing);
            var before := Runs(missing[..|missing| - 1], step);
            Runs(missing, step)
            == if before != [] && t - Last(Last(before)) == step
               then before[..|before| - 1] + [Last(before) + [t]] else before + [[t]]
  {
  }

  // ----- slots and what is absent of them -----

  /** Ascending, at least `step` between any two. */
  predicate Steps(times: seq<int>, step: int) {
    times == [] || ((forall t :: t in times[1..] ==> times[0] + step <= t) && Steps(times[1..], step))
  }

  lemma InTail(times: seq<int>)
    requires times != []
    ensures times == [times[0]] + times[1..]
    ensures forall t :: t in times <==> t == times[0] || t in times[1..]
  {
    assert times == [times[0]] + times[1..];
  }

  lemma {:induction false} SlotsStep(begin: int, end: int, step: Duration)
    ensures Steps(Slots(begin, end, step), step)
    ensures forall t :: t in Slots(begin, end, step) ==> begin <= t <= end
    decreases end - begin
  {
    if begin <= end {
      SlotsStep(begin + step, end, step);
      InTail(Slots(begin, end, step));
    }
  }

  lemma {:induction false} SlotsContiguous(begin: int, end: int, step: Duration)
    requires begin <= end
    ensures Contiguous(Slots(begin, end, step), step)
    decreases end - begin
  {
    hide Slots;
    hide Contiguous;
    SlotsFrom(begin, end, step);
    if begin + step <= end {
      SlotsContiguous(begin + step, end, step);
      ContiguousCons(begin, Slots(begin + step, end, step), step);
    } else {
      SingletonContiguous(begin, step);
    }
  }

  lemma ContiguousCons(t: int, run: seq<int>, step: int)
    requires Contiguous(run, step) && run[0] - t == step
    ensures Contiguous([t] + run, step)
  {
  }

  lemma {:induction false} AbsentSteps(expected: seq<int>, actual: set<int>, step: Duration)
    requires Steps(expected, step)
    ensures Steps(Absent(expected, actual), step)
    ensures forall t :: t in Absent(expected, actual) <==> t in expected && t !in actual
  {
    if expected != [] {
      InTail(expected);
      AbsentSteps(expected[1..], actual, step);
      var rest := Absent(expected[1..], actual);
      if expected[0] in actual {
        assert Absent(expected, actual) == rest;
      } else {
        assert Absent(expected, actual) == [expected[0]] + rest;
        InTail(Absent(expected, actual));
      }
    }
  }

  lemma {:induction false} SortIsIdentity(times: seq<int>, step: Duration)
    requires Steps(times, step)
    ensures Sort(times) == times
  {
    if times != [] {
      SortIsIdentity(times[1..], step);
      InTail(times);
      assert |times| > 1 ==> times[1..][0] in times[1..];
    }
  }

  // ----- the two detectors -----

  /** The stored open times among the slots, in order. */
  function Present(slots: seq<int>, actual: set<int>): seq<int> {
    if slots == [] then []
    else (if slots[0] in actual then [slots[0]] else []) + Present(slots[1..], actual)
  }

  /** The first slot beyond the window. */
  function Beyond(begin: int, end: int, step: Duration): int
    decreases end - begin
  {
    if begin > end then begin else Beyond(begin + step, end, step)
  }

  /** The slots strictly inside every boundary pair. */
  function RunsBetween(pairs: seq<(int, int)>, step: Duration): seq<seq<int>> {
    if pairs == [] then []
    else [Slots(pairs[0].0 + step, pairs[0].1 - step, step)] + RunsBetween(pairs[1..], step)
  }

  lemma {:induction false} MaximalCons(run: seq<int>, rest: seq<seq<int>>, step: int)
    requires Contiguous(run, step) && Maximal(rest, step)
    requires rest != [] ==> rest[0] != [] && rest[0][0] - Last(run) != step
    ensures Maximal([run] + rest, step)
  {
    hide Contiguous;
    if rest == [] {
      assert [run] + rest == [] + [run];
      MaximalSnoc([], run, step);
    } else {
      var front := rest[..|rest| - 1];
      MaximalCons(run, front, step);
      assert rest == front + [Last(rest)];
      assert [run] + rest == ([run] + front) + [Last(rest)];
      MaximalSnoc([run] + front, Last(rest), step);
      assert front != [] ==> Last([run] + front) == Last(front);
    }
  }

  lemma {:induction false} FlattenConcat(a: seq<seq<int>>, b: seq<seq<int>>)
    ensures Flatten(a + b) == Flatten(a) + Flatten(b)
  {
    hide Flatten;
    if b == [] {
      assert a + b == a;
      NoRuns(1);
    } else {
      var front, run := b[..|b| - 1], Last(b);
      assert b == front + [run];
      FlattenConcat(a, front);
      FlattenSnoc(front, run);
      FlattenSnoc(a + front, run);
      Associates(a, front, [run]);
      Associates(Flatten(a), Flatten(front), run);
    }
  }

  lemma FlattenOne(run: seq<int>)
    ensures Flatten([run]) == run
  {
    assert [run][..0] == [];
  }

  /** Pairs in order, each with a slot inside, from `low` on. */
  predicate Ordered(pairs: seq<(int, int)>, low: int, step: Duration) {
    pairs == [] ||
    (low <= pairs[0].0 && pairs[0].0 + step <= pairs[0].1 - step && Ordered(pairs[1..], pairs[0].1, step))
  }

  lemma {:induction false} OrderedPairsAreMaximal(pairs: seq<(int, int)>, low: int, step: Duration)
    requires Ordered(pairs, low, step)
    ensures Maximal(RunsBetween(pairs, step), step)
    decreases |pairs|
  {
    if pairs != [] {
      var p, later := pairs[0], pairs[1..];
      OrderedPairsAreMaximal(later, p.1, step);
      FarApart(p, later, step);
      MaximalCons(Slots(p.0 + step, p.1 - step, step), RunsBetween(later, step), step);
    }
  }

  lemma FarApart(p: (int, int), later: seq<(int, int)>, step: Duration)
    requires p.0 + step <= p.1 - step && Ordered(later, p.1, step)
    ensures Contiguous(Slots(p.0 + step, p.1 - step, step), step)
    ensures RunsBetween(later, step) != [] ==>
              RunsBetween(later, step)[0] != [] &&
              RunsBetween(later, step)[0][0] - Last(Slots(p.0 + step, p.1 - step, step)) > step
  {
    SlotsContiguous(p.0 + step, p.1 - step, step);
    SlotsStep(p.0 + step, p.1 - step, step);
    assert Last(Slots(p.0 + step, p.1 - step, step)) in Slots(p.0 + step, p.1 - step, step);
  }

  lemma FlattenPairsCons(p: (int, int), later: seq<(int, int)>, step: Duration)
    ensures Flatten(RunsBetween([p] + later, step))
         == Slots(p.0 + step, p.1 - step, step) + Flatten(RunsBetween(later, step))
  {
    hide Flatten;
    hide Slots;
    assert ([p] + later)[1..] == later;
    FlattenConcat([Slots(p.0 + step, p.1 - step, step)], RunsBetween(later, step));
    FlattenOne(Slots(p.0 + step, p.1 - step, step));
  }

  /** What boundary detection reports when the slot c arrives n slots after the
      last stored one and is stored (or is the sentinel). */
  lemma PairAt(prior: int, c: int, n: nat, rest: seq<int>, step: Duration)
    requires c == prior + step + n * step
    ensures FindGaps([c] + rest, step, Some(prior))
            == (if n > 0 then [(prior, c)] else []) + FindGaps(rest, step, Some(c))
    ensures n == 0 ==> Slots(prior + step, c - step, step) == []
    ensures n > 0 ==> prior + step <= c - step
  {
    StepsInside(n, step);
    assert ([c] + rest)[1..] == rest;
  }

  /** The boundary pairs after `prior`, when the slots up to c are absent,
      enclose exactly those and the absent slots of the rest of the window. */
  ghost predicate Encloses(prior: int, c: int, end: int, actual: set<int>, step: Duration) {
    var times := Present(Slots(c, end, step), actual) + [Beyond(c, end, step)];
    var pairs := FindGaps(times, step, Some(prior));
    && Flatten(RunsBetween(pairs, step)) == Slots(prior + step, c - step, step) + Absent(Slots(c, end, step), actual)
    && Ordered(pairs, prior, step)
  }

  lemma NoSlots(begin: int, end: int, step: Duration)
    requires begin > end
    ensures Slots(begin, end, step) == []
  {
  }

  lemma EnclosesAtTheEnd(prior: int, c: int, n: nat, end: int, actual: set<int>, step: Duration)
    requires c == prior + step + n * step && c > end
    ensures Encloses(prior, c, end, actual, step)
  {
    PairAt(prior, c, n, [], step);
    StoredSlot(prior, c, n, [], step);
    var pairs := if n > 0 then [(prior, c)] else [];
    assert pairs + [] == pairs && [] + [c] == [c] && [c] + [] == [c];
    assert FindGaps([c], step, Some(prior)) == pairs;
    assert Flatten(RunsBetween(pairs, step)) == Slots(prior + step, c - step, step) + [];
  }

  lemma EnclosesStoredSlot(prior: int, c: int, n: nat, end: int, actual: set<int>, step: Duration)
    requires c == prior + step + n * step && c <= end && c in actual
    requires Encloses(c, c + step, end, actual, step)
    ensures Encloses(prior, c, end, actual, step)
  {
    hide Flatten;
    hide RunsBetween;
    hide Slots;
    hide Present;
    hide Absent;
    var tail := Present(Slots(c + step, end, step), actual) + [Beyond(c + step, end, step)];
    var later := FindGaps(tail, step, Some(c));
    PairAt(prior, c, n, tail, step);
    NoSlots(c + step, c, step);
    StoredSlot(prior, c, n, later, step);
    WindowCons(c, end, actual, step);
    Associates([c], Present(Slots(c + step, end, step), actual), [Beyond(c + step, end, step)]);
  }

  lemma EnclosesAbsentSlot(prior: int, c: int, n: nat, end: int, actual: set<int>, step: Duration)
    requires c == prior + step + n * step && c <= end && c !in actual
    requires Encloses(prior, c + step, end, actual, step)
    ensures Encloses(prior, c, end, actual, step)
  {
    hide Flatten;
    hide RunsBetween;
    hide FindGaps;
    hide Slots;
    hide Present;
    hide Absent;
    hide Ordered;
    WindowCons(c, end, actual, step);
    SlotsSnoc(prior, c, n, step);
    Associates(Slots(prior + step, c - step, step), [c], Absent(Slots(c + step, end, step), actual));
  }

  lemma SlotsSnoc(prior: int, c: int, n: nat, step: Duration)
    requires c == prior + step + n * step
    ensures Slots(prior + step, c + step - step, step) == Slots(prior + step, c - step, step) + [c]
  {
    SlotsSplit(prior + step, c, c, step, n);
    NoSlots(c + step, c, step);
    assert Slots(c, c, step) == [c];
  }

  lemma WindowCons(c: int, end: int, actual: set<int>, step: Duration)
    requires c <= end
    ensures var rest := Slots(c + step, end, step);
            && Slots(c, end, step) == [c] + rest
            && Present(Slots(c, end, step), actual)
               == (if c in actual then [c] + Present(rest, actual) else Present(rest, actual))
            && Absent(Slots(c, end, step), actual)
               == (if c !in actual then [c] + Absent(rest, actual) else Absent(rest, actual))
            && Beyond(c, end, step) == Beyond(c + step, end, step)
  {
    var rest := Slots(c + step, end, step);
    assert ([c] + rest)[1..] == rest;
    EmptyUnits(Present(rest, actual));
    EmptyUnits(Absent(rest, actual));
  }

  lemma {:induction false} PairsEncloseAbsent(prior: int, c: int, n: nat, end: int, actual: set<int>, step: Duration)
    requires c == prior + step + n * step
    ensures Encloses(prior, c, end, actual, step)
    decreases end - c
  {
    hide Encloses;
    if c > end {
      EnclosesAtTheEnd(prior, c, n, end, actual, step);
    } else if c in actual {
      PairsEncloseAbsent(c, c + step, 0, end, actual, step);
      EnclosesStoredSlot(prior, c, n, end, actual, step);
    } else {
      assert c + step == prior + step + (n + 1) * step;
      PairsEncloseAbsent(prior, c + step, n + 1, end, actual, step);
      EnclosesAbsentSlot(prior, c, n, end, actual, step);
    }
  }

  lemma StoredSlot(prior: int, c: int, n: nat, later: seq<(int, int)>, step: Duration)
    requires c == prior + step + n * step
    requires Ordered(later, c, step)
    ensures var pairs := (if n > 0 then [(prior, c)] else []) + later;
            && Flatten(RunsBetween(pairs, step))
               == Slots(prior + step, c - step, step) + Flatten(RunsBetween(later, step))
            && Ordered(pairs, prior, step)
  {
    hide Flatten;
    PairAt(prior, c, n, [], step);
    if n > 0 {
      FlattenPairsCons((prior, c), later, step);
      assert ([(prior, c)] + later)[1..] == later;
    } else {
      assert [] + later == later;
      assert [] + Flatten(RunsBetween(later, step)) == Flatten(RunsBetween(later, step));
    }
  }

  /** Boundary detection over the stored open times, with sentinels one step
      outside the window, and the exhaustive diff find the same gaps: the runs of
      the diff are, one to one and in order, the slots inside the pairs. */
  lemma DetectorsAgree(windowStart: int, windowEnd: int, actual: set<int>, step: Duration)
    ensures var slots := Slots(windowStart, windowEnd, step);
            var times := [windowStart - step] + Present(slots, actual) + [Beyond(windowStart, windowEnd, step)];
            Runs(Sort(Absent(slots, actual)), step) == RunsBetween(FindGaps(times, step, None), step)
  {
    hide FindGaps;
    hide Slots;
    hide Present;
    hide Absent;
    hide Runs;
    hide RunsBetween;
    hide Flatten;
    hide Maximal;
    hide Ordered;
    hide Steps;
    var slots, low := Slots(windowStart, windowEnd, step), windowStart - step;
    var tail := Present(slots, actual) + [Beyond(windowStart, windowEnd, step)];
    PairsEncloseAbsent(low, windowStart, 0, windowEnd, actual, step);
    NoSlots(low + step, windowStart - step, step);
    SentinelOnly(low, tail, step);
    assert [low] + Present(slots, actual) + [Beyond(windowStart, windowEnd, step)] == [low] + tail;
    var pairs := FindGaps(tail, step, Some(low));
    assert Flatten(RunsBetween(pairs, step)) == Absent(slots, actual);
    SlotsStep(windowStart, windowEnd, step);
    AbsentSteps(slots, actual, step);
    SortIsIdentity(Absent(slots, actual), step);
    OrderedPairsAreMaximal(pairs, low, step);
    MaximalRunsAreTheRuns(RunsBetween(pairs, step), step);
  }

  lemma SentinelOnly(low: int, tail: seq<int>, step: Duration)
    ensures FindGaps([low] + tail, step, None) == FindGaps(tail, step, Some(low))
  {
    assert ([low] + tail)[1..] == tail;
  }

  /** Boundary detection sees all of the stored times: they are the slots that
      are stored, each once, ascending. */
  lemma {:induction false} PresentIsTheStored(slots: seq<int>, actual: set<int>, step: Duration)
    requires Steps(slots, step)
    ensures Steps(Present(slots, actual), step)
    ensures forall t :: t in Present(slots, actual) <==> t in slots && t in actual
  {
    if slots != [] {
      InTail(slots);
      PresentIsTheStored(slots[1..], actual, step);
      var rest := Present(slots[1..], actual);
      if slots[0] !in actual {
        assert Present(slots, actual) == rest;
      } else {
        assert Present(slots, actual) == [slots[0]] + rest;
        InTail(Present(slots, actual));
      }
    }
  }
}
