/** Timing statistics of a binary comparison. */
module ActivationTiming {
  // Medians and nearest-rank percentiles of lists that are each sorted on their own (eval_activation.go).

  import opened Options
  import opened Sorting

  /** What one command run reports; the median picks a whole run, not only its duration. */
  datatype Run = Run(durationMillis: int, stdoutBytes: int, stderrBytes: int, stdoutSHA256: string)

  datatype Sample = Sample(baseline: Run, candidate: Run, durationMillis: int)

  datatype Timing = Timing(baselineMedian: int, candidateMedian: int, candidateDelta: int, medianPairedDelta: int,
                           medianAbsolutePairDelta: int, maximumAbsolutePairDelta: int)

  datatype Stats = Stats(total: int, p50: int, p95: int, max: int)

  function Abs(x: int): int {
    if x < 0 then -x else x
  }

  function Sum(s: seq<int>): int {
    if s == [] then 0 else Sum(s[..|s| - 1]) + s[|s| - 1]
  }

  /** The largest element, or zero when none is above it. */
  function MaxOrZero(s: seq<int>): int {
    if s == [] then 0
    else
      var m := MaxOrZero(s[..|s| - 1]);
      if s[|s| - 1] > m then s[|s| - 1] else m
  }

  function Sorted(s: seq<int>): (r: seq<int>)
    ensures |r| == |s|
  {
    SortPermutes(IntLe, s);
    Sort(IntLe, s)
  }

  function Median(s: seq<int>): int {
    if s == [] then 0 else Sorted(s)[|s| / 2]
  }

  function Rank(n: nat, p: nat): (r: nat)
    requires n > 0
    ensures 1 <= r <= n
  {
    var rank := (p * n + 99) / 100;
    if rank < 1 then 1 else if rank > n then n else rank
  }

  function Percentile(sorted: seq<int>, p: nat): int {
    if sorted == [] then 0 else sorted[Rank(|sorted|, p) - 1]
  }

  predicate RunLe(a: Run, b: Run) {
    a.durationMillis <= b.durationMillis
  }

  function Baselines(samples: seq<Sample>): seq<Run> {
    Map((s: Sample) => s.baseline, samples)
  }

  function Candidates(samples: seq<Sample>): seq<Run> {
    Map((s: Sample) => s.candidate, samples)
  }

  function Durations(runs: seq<Run>): seq<int> {
    Map((r: Run) => r.durationMillis, runs)
  }

  function Delta(s: Sample): int {
    s.candidate.durationMillis - s.baseline.durationMillis
  }

  function Deltas(samples: seq<Sample>): seq<int> {
    Map(Delta, samples)
  }

  function AbsoluteDeltas(samples: seq<Sample>): seq<int> {
    Map((s: Sample) => Abs(Delta(s)), samples)
  }

  function MedianRun(runs: seq<Run>): Run {
    SortPermutes(RunLe, runs);
    if runs == [] then Run(0, 0, 0, "") else Sort(RunLe, runs)[|runs| / 2]
  }

  function ComparisonTiming(samples: seq<Sample>, baselineMedian: int, candidateMedian: int): Option<Timing> {
    if samples == [] then None
    else
      Some(Timing(baselineMedian, candidateMedian, candidateMedian - baselineMedian, Median(Deltas(samples)),
                  Median(AbsoluteDeltas(samples)), MaxOrZero(AbsoluteDeltas(samples))))
  }

  /** The timing of a whole comparison: the medians come from the two lists of runs. */
  function Comparison(samples: seq<Sample>): Option<Timing> {
    ComparisonTiming(samples, MedianRun(Baselines(samples)).durationMillis,
                     MedianRun(Candidates(samples)).durationMillis)
  }

  // ---------------------------------------------------------------- the source's loops

  method MedianMillis(values: seq<int>) returns (m: int)
    ensures m == Median(values)
  {
    if |values| == 0 {
      return 0;
    }
    var sorted := Sorted(values);
    m := sorted[|sorted| / 2];
  }

  method MedianComparisonRun(samples: seq<Sample>, baseline: bool) returns (r: Run)
    ensures r == MedianRun(if baseline then Baselines(samples) else Candidates(samples))
  {
    var runs: seq<Run> := [];
    for i := 0 to |samples|
      invariant runs == if baseline then Baselines(samples[..i]) else Candidates(samples[..i])
    {
      if baseline {
        runs := runs + [samples[i].baseline];
      } else {
        runs := runs + [samples[i].candidate];
      }
    }
    assert samples[..|samples|] == samples;
    if |runs| == 0 {
      return Run(0, 0, 0, "");
    }
    SortPermutes(RunLe, runs);
    r := Sort(RunLe, runs)[|runs| / 2];
  }

  method TakeDeltas(samples: seq<Sample>) returns (pairedDeltas: seq<int>, absoluteDeltas: seq<int>, maximum: int)
    ensures pairedDeltas == Deltas(samples) && absoluteDeltas == AbsoluteDeltas(samples)
            && maximum == MaxOrZero(absoluteDeltas)
  {
    pairedDeltas, absoluteDeltas, maximum := [], [], 0;
    for i := 0 to |samples|
      invariant pairedDeltas == Deltas(samples[..i]) && absoluteDeltas == AbsoluteDeltas(samples[..i])
      invariant maximum == MaxOrZero(absoluteDeltas)
    {
      ghost var before := absoluteDeltas;
      var delta := samples[i].candidate.durationMillis - samples[i].baseline.durationMillis;
      pairedDeltas := pairedDeltas + [delta];
      if delta < 0 {
        delta := -delta;
      }
      absoluteDeltas := absoluteDeltas + [delta];
      assert absoluteDeltas[..|absoluteDeltas| - 1] == before;
      if delta > maximum {
        maximum := delta;
      }
    }
    assert samples[..|samples|] == samples;
  }

  method ActivationComparisonTiming(samples: seq<Sample>, baselineMedian: int, candidateMedian: int)
    returns (r: Option<Timing>)
    ensures r == ComparisonTiming(samples, baselineMedian, candidateMedian)
  {
    if |samples| == 0 {
      return None;
    }
    var pairedDeltas, absoluteDeltas, maximum := TakeDeltas(samples);
    var medianPaired := MedianMillis(pairedDeltas);
    var medianAbsolute := MedianMillis(absoluteDeltas);
    r := Some(Timing(baselineMedian, candidateMedian, candidateMedian - baselineMedian, medianPaired, medianAbsolute,
                     maximum));
  }

  method SortInts(values: array<int>)
    modifies values
    ensures values[..] == Sorted(old(values[..]))
  {
    var sorted := Sorted(values[..]);
    forall i | 0 <= i < values.Length {
      values[i] := sorted[i];
    }
  }

  function StatsOf(values: seq<int>): Stats {
    if values == [] then Stats(0, 0, 0, 0)
    else
      var sorted := Sorted(values);
      Stats(Sum(sorted), Percentile(sorted, 50), Percentile(sorted, 95), sorted[|sorted| - 1])
  }

  /** The caller's values are sorted in place. */
  method TimingStats(values: array<int>) returns (r: Stats)
    modifies values
    ensures r == StatsOf(old(values[..]))
    ensures values[..] == Sorted(old(values[..]))
  {
    if values.Length == 0 {
      return Stats(0, 0, 0, 0);
    }
    SortInts(values);
    ghost var sorted := values[..];
    var total := 0;
    for i := 0 to values.Length
      invariant values[..] == sorted && total == Sum(sorted[..i])
    {
      assert sorted[..i + 1][..i] == sorted[..i];
      total := total + values[i];
    }
    assert sorted[..values.Length] == sorted;
    r := Stats(total, Percentile(values[..], 50), Percentile(values[..], 95), values[values.Length - 1]);
  }

  // ---------------------------------------------------------------- order statistics

  function CountLe(s: seq<int>, x: int): nat {
    |Filter(y => y <= x, s)|
  }

  lemma {:induction false} SortedCount(t: seq<int>, k: nat, x: int)
    requires SortedBy(IntLe, t) && k < |t|
    ensures t[k] <= x <==> CountLe(t, x) > k
  {
    assert IntLe(t[0], t[k]) || k == 0;
    if t[0] > x {
      NoneBelow(t, x);
    } else if k > 0 {
      SortedCount(t[1..], k - 1, x);
    }
  }

  lemma {:induction false} NoneBelow(t: seq<int>, x: int)
    requires forall y :: y in t ==> x < y
    ensures CountLe(t, x) == 0
  {
    if t != [] {
      assert t[0] in t && forall y :: y in t[1..] ==> y in t;
      NoneBelow(t[1..], x);
    }
  }

  /** The k-th smallest value is at or below x exactly when more than k values are. */
  lemma OrderStatistic(s: seq<int>, k: nat, x: int)
    requires k < |s|
    ensures Sorted(s)[k] <= x <==> CountLe(s, x) > k
  {
    SortSorts(IntLe, s);
    SortPermutes(IntLe, s);
    SortedCount(Sorted(s), k, x);
    FilterPermutes(y => y <= x, s, Sorted(s));
    assert |multiset(Filter(y => y <= x, s))| == |multiset(Filter(y => y <= x, Sorted(s)))|;
  }

  lemma {:induction false} CountsFollow(a: seq<int>, b: seq<int>, margin: int, x: int)
    requires |a| == |b| && forall i :: 0 <= i < |a| ==> a[i] <= b[i] + margin
    ensures CountLe(b, x) <= CountLe(a, x + margin)
  {
    if a != [] {
      assert a[0] <= b[0] + margin;
      forall i | 0 <= i < |a[1..]| ensures a[1..][i] <= b[1..][i] + margin {
        assert a[i + 1] <= b[i + 1] + margin;
      }
      CountsFollow(a[1..], b[1..], margin, x);
    }
  }

  /** Sorting two lists separately keeps a pointwise bound at every rank. */
  lemma PointwiseBoundSurvivesSorting(a: seq<int>, b: seq<int>, margin: int, k: nat)
    requires |a| == |b| && k < |a| && forall i :: 0 <= i < |a| ==> a[i] <= b[i] + margin
    ensures Sorted(a)[k] <= Sorted(b)[k] + margin
  {
    var v := Sorted(b)[k];
    OrderStatistic(b, k, v);
    CountsFollow(a, b, margin, v);
    OrderStatistic(a, k, v + margin);
  }

  lemma {:induction false} NegativesAndSmall(s: seq<int>, t: seq<int>, bound: int)
    requires |s| == |t| && forall i :: 0 <= i < |s| ==> t[i] == Abs(s[i])
    ensures CountLe(s, -bound - 1) + CountLe(t, bound) <= |s|
  {
    if s != [] {
      assert t[0] == Abs(s[0]);
      forall i | 0 <= i < |s[1..]| ensures t[1..][i] == Abs(s[1..][i]) {
        assert t[i + 1] == Abs(s[i + 1]);
      }
      NegativesAndSmall(s[1..], t[1..], bound);
    }
  }

  /** The median of the paired differences is no larger, in absolute value, than the median of their absolute
      values. */
  lemma MedianOfAbsolutesBounds(s: seq<int>, t: seq<int>)
    requires s != [] && |s| == |t| && forall i :: 0 <= i < |s| ==> t[i] == Abs(s[i])
    ensures Abs(Median(s)) <= Median(t)
  {
    var h := |s| / 2;
    PointwiseBoundSurvivesSorting(s, t, 0, h);
    OrderStatistic(t, h, Median(t));
    NegativesAndSmall(s, t, Median(t));
    OrderStatistic(s, h, -Median(t) - 1);
  }

  lemma {:induction false} MaxIsMax(s: seq<int>)
    ensures forall x :: x in s ==> x <= MaxOrZero(s)
    ensures MaxOrZero(s) == 0 || MaxOrZero(s) in s
  {
    if s != [] {
      MaxIsMax(s[..|s| - 1]);
      assert s == s[..|s| - 1] + [s[|s| - 1]];
    }
  }

  lemma SortedMembers(s: seq<int>, k: nat)
    requires k < |s|
    ensures Sorted(s)[k] in s
  {
    SortPermutes(IntLe, s);
    assert Sorted(s)[k] in multiset(Sorted(s));
  }

  lemma DurationsSort(s: seq<Run>)
    ensures Durations(Sort(RunLe, s)) == Sort(IntLe, Durations(s))
  {
    MapSort(RunLe, IntLe, (r: Run) => r.durationMillis, s);
  }

  lemma MedianRunHasMedianDuration(runs: seq<Run>)
    ensures MedianRun(runs).durationMillis == Median(Durations(runs))
  {
    DurationsSort(runs);
    SortPermutes(RunLe, runs);
  }

  function Lasting(d: int): Run -> bool {
    (r: Run) => r.durationMillis == d
  }

  function Shorter(d: int): Run -> bool {
    (r: Run) => r.durationMillis < d
  }

  /** In a list by duration, a run stands behind all shorter runs and the runs of its own duration before it. */
  lemma {:induction false} PlaceByDuration(s: seq<Run>, k: nat)
    requires k < |s| && SortedBy(RunLe, s)
    ensures var d := s[k].durationMillis; var shorter := |Filter(Shorter(d), s)|;
            shorter <= k && k - shorter < |Filter(Lasting(d), s)| && Filter(Lasting(d), s)[k - shorter] == s[k]
  {
    var d := s[k].durationMillis;
    if k > 0 {
      PlaceByDuration(s[1..], k - 1);
      assert RunLe(s[0], s[k]);
    } else {
      forall r | r in s[1..] ensures !Shorter(d)(r) {
        assert RunLe(s[0], r);
      }
      NoneShorter(Shorter(d), s);
    }
  }

  lemma {:induction false} NoneShorter(p: Run -> bool, s: seq<Run>)
    requires forall r :: r in s ==> !p(r)
    ensures Filter(p, s) == []
  {
    if s != [] {
      NoneShorter(p, s[1..]);
    }
  }

  /** Which run stands for a side: among the runs of the median duration, in the order they were measured, the
      one with as many before it as the middle position exceeds the number of shorter runs. */
  lemma MedianRunIs(runs: seq<Run>)
    requires runs != []
    ensures var d := MedianRun(runs).durationMillis;
            var place := |runs| / 2 - |Filter(Shorter(d), runs)|;
            0 <= place < |Filter(Lasting(d), runs)| && MedianRun(runs) == Filter(Lasting(d), runs)[place]
  {
    var d := MedianRun(runs).durationMillis;
    SortPermutes(RunLe, runs);
    SortSorts(RunLe, runs);
    PlaceByDuration(Sort(RunLe, runs), |runs| / 2);
    FilterLengthPermutes(Shorter(d), Sort(RunLe, runs), runs);
    SortIsStable(RunLe, Lasting(d), runs);
  }

  /** The difference of two medians, taken over lists sorted separately, is within the largest difference of
      any pair; the median difference is within the median absolute difference, which is within the largest. */
  lemma TimingIsConsistent(samples: seq<Sample>)
    requires samples != []
    ensures var t := Comparison(samples).value;
            && t.candidateDelta == t.candidateMedian - t.baselineMedian
            && Abs(t.candidateDelta) <= t.maximumAbsolutePairDelta
            && Abs(t.medianPairedDelta) <= t.medianAbsolutePairDelta <= t.maximumAbsolutePairDelta
  {
    var before, after := Durations(Baselines(samples)), Durations(Candidates(samples));
    var deltas, absolutes := Deltas(samples), AbsoluteDeltas(samples);
    var h := |samples| / 2;
    var m := MaxOrZero(absolutes);
    MaxIsMax(absolutes);
    forall i | 0 <= i < |samples| ensures after[i] <= before[i] + m && before[i] <= after[i] + m {
      assert absolutes[i] in absolutes;
    }
    PointwiseBoundSurvivesSorting(before, after, m, h);
    PointwiseBoundSurvivesSorting(after, before, m, h);
    MedianRunHasMedianDuration(Baselines(samples));
    MedianRunHasMedianDuration(Candidates(samples));
    MedianOfAbsolutesBounds(deltas, absolutes);
    SortedMembers(absolutes, h);
  }

  // ---------------------------------------------------------------- percentiles

  lemma RankIsLeast(n: nat, p: nat, count: nat)
    requires n > 0 && 0 < p <= 100
    ensures count >= Rank(n, p) <==> 100 * count >= p * n
  {
    var product := p * n;
    assert 0 < product <= 100 * n by {
      assert 1 * n <= p * n <= 100 * n;
    }
    assert Rank(n, p) == (product + 99) / 100;
  }

  /** The nearest-rank percentile is the smallest number with at least p percent of the values at or below
      it, and it is one of the values. */
  lemma PercentileIsNearestRank(values: seq<int>, p: nat)
    requires values != [] && 0 < p <= 100
    ensures var v := Percentile(Sorted(values), p);
            && v in values
            && forall x :: v <= x <==> 100 * CountLe(values, x) >= p * |values|
  {
    var k := Rank(|values|, p) - 1;
    SortedMembers(values, k);
    forall x ensures Sorted(values)[k] <= x <==> 100 * CountLe(values, x) >= p * |values| {
      OrderStatistic(values, k, x);
      RankIsLeast(|values|, p, CountLe(values, x));
    }
  }

  lemma RankGrows(n: nat, p: nat, q: nat)
    requires n > 0 && p <= q
    ensures Rank(n, p) <= Rank(n, q)
  {
    ProductGrows(n, p, q);
    DivisionGrows(p * n, q * n);
  }

  lemma {:induction false} ProductGrows(n: nat, p: nat, q: nat)
    requires p <= q
    ensures p * n <= q * n
  {
    if p < q {
      ProductGrows(n, p, q - 1);
      assert q * n == (q - 1) * n + n;
    }
  }

  lemma DivisionGrows(x: nat, y: nat)
    requires x <= y
    ensures (x + 99) / 100 <= (y + 99) / 100
  {
  }

  lemma {:induction false} SumPermuted(a: seq<int>, b: seq<int>)
    requires multiset(a) == multiset(b)
    ensures Sum(a) == Sum(b)
  {
    if a == [] {
      assert |multiset(b)| == 0;
    } else {
      var x := a[|a| - 1];
      assert a == a[..|a| - 1] + [x];
      assert x in multiset(b);
      var i :| 0 <= i < |b| && b[i] == x;
      RemoveAt(b, i);
      assert multiset(a[..|a| - 1]) == multiset(a) - multiset{x};
      assert multiset(b[..i] + b[i + 1..]) == multiset(b) - multiset{x};
      SumPermuted(a[..|a| - 1], b[..i] + b[i + 1..]);
      SumWithout(b, i);
    }
  }

  lemma {:induction false} SumWithout(b: seq<int>, i: nat)
    requires i < |b|
    ensures Sum(b) == Sum(b[..i] + b[i + 1..]) + b[i]
  {
    var n := |b| - 1;
    if i == n {
      assert b[..i] + b[i + 1..] == b[..n];
    } else {
      SumWithout(b[..n], i);
      var rest := b[..i] + b[i + 1..];
      assert rest[..|rest| - 1] == b[..n][..i] + b[..n][i + 1..];
    }
  }

  lemma SortedGrows(values: seq<int>, i: nat, j: nat)
    requires i <= j < |values|
    ensures Sorted(values)[i] <= Sorted(values)[j]
  {
    SortSorts(IntLe, values);
    assert i < j ==> IntLe(Sorted(values)[i], Sorted(values)[j]);
  }

  lemma HalfRank(n: nat)
    requires n > 0
    ensures Rank(n, 50) - 1 <= n / 2 && (n % 2 == 1 ==> Rank(n, 50) - 1 == n / 2)
  {
    assert Rank(n, 50) == (n + 1) / 2;
  }

  lemma Ordered(values: seq<int>, i: nat, j: nat)
    requires i <= j < |values| && i <= |values| / 2 && (|values| % 2 == 1 ==> i == |values| / 2)
    ensures Sorted(values)[i] <= Sorted(values)[j] <= Sorted(values)[|values| - 1]
    ensures Sorted(values)[i] <= Median(values) && (|values| % 2 == 1 ==> Sorted(values)[i] == Median(values))
  {
    SortedGrows(values, i, j);
    SortedGrows(values, j, |values| - 1);
    SortedGrows(values, i, |values| / 2);
  }

  lemma LastIsLargest(values: seq<int>, x: int)
    requires x in values
    ensures x <= Sorted(values)[|values| - 1]
  {
    SortPermutes(IntLe, values);
    assert x in multiset(Sorted(values));
    var k :| 0 <= k < |values| && Sorted(values)[k] == x;
    SortedGrows(values, k, |values| - 1);
  }

  lemma StatsAt(values: seq<int>) returns (i: nat, j: nat)
    requires values != []
    ensures i <= j < |values| && i <= |values| / 2 && (|values| % 2 == 1 ==> i == |values| / 2)
    ensures StatsOf(values) == Stats(Sum(values), Sorted(values)[i], Sorted(values)[j], Sorted(values)[|values| - 1])
  {
    i, j := Rank(|values|, 50) - 1, Rank(|values|, 95) - 1;
    RankGrows(|values|, 50, 95);
    HalfRank(|values|);
    SortPermutes(IntLe, values);
    SumPermuted(Sorted(values), values);
  }

  /** The statistics of any values: the total is theirs in any order, the percentiles and the maximum are
      ordered, and P50 is the median for an odd number of values and at most the median otherwise. */
  lemma StatsAreOrdered(values: seq<int>)
    requires values != []
    ensures var r := StatsOf(values);
            && r.total == Sum(values)
            && r.p50 <= r.p95 <= r.max
            && r.max in values && (forall x :: x in values ==> x <= r.max)
            && r.p50 <= Median(values) && (|values| % 2 == 1 ==> r.p50 == Median(values))
  {
    var i, j := StatsAt(values);
    Ordered(values, i, j);
    SortedMembers(values, |values| - 1);
    forall x | x in values ensures x <= Sorted(values)[|values| - 1] {
      LastIsLargest(values, x);
    }
  }

  // ---------------------------------------------------------------- what each number is

  /** How many samples have a measure of at most x. */
  function AtMost(measure: Sample -> int, samples: seq<Sample>, x: int): nat {
    |Filter((s: Sample) => measure(s) <= x, samples)|
  }

  /** The smallest measure of a sample that more than half of the samples do not exceed. */
  ghost predicate IsMedian(m: int, measure: Sample -> int, samples: seq<Sample>) {
    && (exists s :: s in samples && measure(s) == m)
    && forall x :: m <= x <==> 2 * AtMost(measure, samples, x) > |samples|
  }

  lemma {:induction false} MeasuredAtMost(measure: Sample -> int, samples: seq<Sample>, x: int)
    ensures AtMost(measure, samples, x) == CountLe(Map(measure, samples), x)
  {
    if samples != [] {
      MeasuredAtMost(measure, samples[1..], x);
      assert Map(measure, samples)[1..] == Map(measure, samples[1..]);
    }
  }

  lemma MedianIsMedian(measure: Sample -> int, samples: seq<Sample>)
    requires samples != []
    ensures IsMedian(Median(Map(measure, samples)), measure, samples)
  {
    var values, h := Map(measure, samples), |samples| / 2;
    SortedMembers(values, h);
    var i :| 0 <= i < |values| && values[i] == Median(values);
    assert measure(samples[i]) == Median(values);
    forall x ensures Median(values) <= x <==> 2 * AtMost(measure, samples, x) > |samples| {
      OrderStatistic(values, h, x);
      MeasuredAtMost(measure, samples, x);
    }
  }

  /** Of a comparison with samples: each side's median, the median difference of a pair and the median absolute one
      are the smallest that more than half of the samples do not exceed; the largest absolute difference is that of
      some pair and of none is it exceeded. Without samples there is no timing. */
  lemma TimingExactly(samples: seq<Sample>)
    ensures samples == [] <==> Comparison(samples) == None
    ensures samples != [] ==>
              var t := Comparison(samples).value;
              && IsMedian(t.baselineMedian, (s: Sample) => s.baseline.durationMillis, samples)
              && IsMedian(t.candidateMedian, (s: Sample) => s.candidate.durationMillis, samples)
              && t.candidateDelta == t.candidateMedian - t.baselineMedian
              && IsMedian(t.medianPairedDelta, (s: Sample) => s.candidate.durationMillis - s.baseline.durationMillis,
                          samples)
              && IsMedian(t.medianAbsolutePairDelta, (s: Sample) => Abs(Delta(s)), samples)
              && (exists s :: s in samples && Abs(Delta(s)) == t.maximumAbsolutePairDelta)
              && forall s :: s in samples ==> Abs(Delta(s)) <= t.maximumAbsolutePairDelta
  {
    if samples != [] {
      SidesExactly(samples);
      DifferencesExactly(samples);
      var absolutes := AbsoluteDeltas(samples);
      MaxIsMax(absolutes);
      LargestIs(samples, MaxOrZero(absolutes));
    }
  }

  lemma SidesExactly(samples: seq<Sample>)
    requires samples != []
    ensures IsMedian(MedianRun(Baselines(samples)).durationMillis, (s: Sample) => s.baseline.durationMillis, samples)
    ensures IsMedian(MedianRun(Candidates(samples)).durationMillis, (s: Sample) => s.candidate.durationMillis, samples)
  {
    var before, after := (s: Sample) => s.baseline.durationMillis, (s: Sample) => s.candidate.durationMillis;
    MedianRunHasMedianDuration(Baselines(samples));
    MedianRunHasMedianDuration(Candidates(samples));
    assert Durations(Baselines(samples)) == Map(before, samples);
    assert Durations(Candidates(samples)) == Map(after, samples);
    MedianIsMedian(before, samples);
    MedianIsMedian(after, samples);
  }

  lemma DifferencesExactly(samples: seq<Sample>)
    requires samples != []
    ensures IsMedian(Median(Deltas(samples)),
                     (s: Sample) => s.candidate.durationMillis - s.baseline.durationMillis, samples)
    ensures IsMedian(Median(AbsoluteDeltas(samples)), (s: Sample) => Abs(Delta(s)), samples)
  {
    var delta := (s: Sample) => s.candidate.durationMillis - s.baseline.durationMillis;
    assert Deltas(samples) == Map(delta, samples);
    MedianIsMedian(delta, samples);
    MedianIsMedian((s: Sample) => Abs(Delta(s)), samples);
  }

  lemma LargestIs(samples: seq<Sample>, m: int)
    requires samples != [] && m >= 0 && (m == 0 || m in AbsoluteDeltas(samples))
    requires forall x :: x in AbsoluteDeltas(samples) ==> x <= m
    ensures forall s :: s in samples ==> Abs(Delta(s)) <= m
    ensures exists s :: s in samples && Abs(Delta(s)) == m
  {
    var absolutes := AbsoluteDeltas(samples);
    forall s | s in samples ensures Abs(Delta(s)) <= m {
      var i :| 0 <= i < |samples| && samples[i] == s;
      assert absolutes[i] in absolutes;
    }
    assert absolutes[0] in absolutes && absolutes[0] >= 0;
    var i :| 0 <= i < |absolutes| && absolutes[i] == m;
    assert samples[i] in samples;
  }

  /** The statistics of values: P50 is the smallest number with half of the values at or below it, P95 the smallest
      with 95 percent, and both are values. Without values all are zero. */
  lemma StatsExactly(values: seq<int>)
    ensures values == [] ==> StatsOf(values) == Stats(0, 0, 0, 0)
    ensures values != [] ==>
              var r := StatsOf(values);
              && r.p50 in values && (forall x :: r.p50 <= x <==> 2 * CountLe(values, x) >= |values|)
              && r.p95 in values && (forall x :: r.p95 <= x <==> 100 * CountLe(values, x) >= 95 * |values|)
  {
    if values != [] {
      PercentileIsNearestRank(values, 50);
      PercentileIsNearestRank(values, 95);
      assert forall x :: 100 * CountLe(values, x) >= 50 * |values| <==> 2 * CountLe(values, x) >= |values|;
    }
  }
}
