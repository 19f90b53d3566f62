/** Interpolated quantiles and bootstrap intervals of `src/rulekiln/pipeline/statistics.py`.
    The random indices are a parameter. */
module Bootstrap {
  import opened Wrappers
  import opened Sorting
  import opened Counting
  import opened Statistics

  predicate RealLe(a: real, b: real) { a <= b }

  ghost predicate Ascending(values: seq<real>) {
    forall i, j :: 0 <= i <= j < |values| ==> values[i] <= values[j]
  }

  function Lerp(low: real, high: real, weight: real): real {
    low + (high - low) * weight
  }

  lemma LerpBetween(low: real, high: real, weight: real)
    requires low <= high && 0.0 <= weight <= 1.0
    ensures low <= Lerp(low, high, weight) <= high
  {
    var rise, share := high - low, (high - low) * weight;
    assert share >= 0.0;
    assert rise - share == rise * (1.0 - weight);
  }

  lemma LerpMonotone(low: real, high: real, u: real, v: real)
    requires low <= high && u <= v
    ensures Lerp(low, high, u) <= Lerp(low, high, v)
  {
    var rise := high - low;
    assert Lerp(low, high, v) - Lerp(low, high, u) == rise * (v - u);
  }

  /** The value at fractional position `x`: linear between the two neighbouring order statistics. */
  function ValueAt(values: seq<real>, x: real): real
    requires 0.0 <= x <= (|values| - 1) as real
  {
    var lower := x.Floor;
    var upper := if lower as real == x then lower else lower + 1;
    if lower == upper then values[lower]
    else Lerp(values[lower], values[upper], x - lower as real)
  }

  /** The fractional position of a quantile among n values. */
  function Position(n: nat, q: real): real
    requires n >= 1
  {
    (n - 1) as real * q
  }

  function InterpolatedQuantile(values: seq<real>, q: real): Result<real, string>
    requires 0.0 <= q <= 1.0
  {
    if values == [] then Failure("Cannot compute quantile of empty values.")
    else if |values| == 1 then Success(values[0])
    else
      PositionInRange(|values|, q);
      Success(ValueAt(values, Position(|values|, q)))
  }

  lemma PositionInRange(n: nat, q: real)
    requires n >= 1 && 0.0 <= q <= 1.0
    ensures 0.0 <= Position(n, q) <= (n - 1) as real
  {
    ProductBounds((n - 1) as real, q);
  }

  lemma PositionMonotone(n: nat, q: real, r: real)
    requires n >= 1 && 0.0 <= q <= r <= 1.0
    ensures Position(n, q) <= Position(n, r)
  {
    var w := (n - 1) as real;
    assert w * r - w * q == w * (r - q);
  }

  /** A value lies between its two neighbouring order statistics. */
  lemma ValueBetween(values: seq<real>, x: real)
    requires Ascending(values) && 0.0 <= x <= (|values| - 1) as real
    ensures values[x.Floor] <= ValueAt(values, x)
    ensures x.Floor + 1 < |values| ==> ValueAt(values, x) <= values[x.Floor + 1]
    ensures values[0] <= ValueAt(values, x) <= values[|values| - 1]
  {
    var lower := x.Floor;
    if lower as real != x {
      LerpBetween(values[lower], values[lower + 1], x - lower as real);
    }
  }

  lemma ValueMonotone(values: seq<real>, x: real, y: real)
    requires Ascending(values) && 0.0 <= x <= y <= (|values| - 1) as real
    ensures ValueAt(values, x) <= ValueAt(values, y)
  {
    ValueBetween(values, x);
    ValueBetween(values, y);
    if x.Floor == y.Floor {
      var lower := x.Floor;
      if lower as real != x && lower as real != y {
        LerpMonotone(values[lower], values[lower + 1], x - lower as real, y - lower as real);
      }
    }
  }

  lemma QuantileBetween(values: seq<real>, q: real, x: real)
    requires Ascending(values) && |values| > 1 && 0.0 <= q <= 1.0
    requires x == Position(|values|, q) && 0.0 <= x <= (|values| - 1) as real
    ensures InterpolatedQuantile(values, q) == Success(ValueAt(values, x))
    ensures values[0] <= ValueAt(values, x) <= values[|values| - 1]
  {
    hide Position;
    ValueBetween(values, x);
  }

  /** On sorted values a quantile lies between the minimum and the maximum. */
  lemma QuantileInRange(values: seq<real>, q: real)
    requires Ascending(values) && values != [] && 0.0 <= q <= 1.0
    ensures InterpolatedQuantile(values, q).Success?
    ensures values[0] <= InterpolatedQuantile(values, q).value <= values[|values| - 1]
  {
    hide Position, ValueAt;
    if |values| > 1 {
      PositionInRange(|values|, q);
      QuantileBetween(values, q, Position(|values|, q));
    }
  }

  /** On sorted values a larger quantile is never smaller. */
  lemma QuantileMonotone(values: seq<real>, q: real, r: real)
    requires Ascending(values) && values != [] && 0.0 <= q <= r <= 1.0
    ensures InterpolatedQuantile(values, q).value <= InterpolatedQuantile(values, r).value
  {
    hide Position, ValueAt;
    if |values| > 1 {
      PositionInRange(|values|, q);
      PositionInRange(|values|, r);
      PositionMonotone(|values|, q, r);
      ValueMonotone(values, Position(|values|, q), Position(|values|, r));
    }
  }

  /** At the position of an order statistic the quantile is that order statistic. */
  lemma QuantileAtKnot(values: seq<real>, q: real, k: nat)
    requires k < |values| && 0.0 <= q <= 1.0 && q * (|values| - 1) as real == k as real
    ensures InterpolatedQuantile(values, q) == Success(values[k])
  {
    assert Position(|values|, q) == k as real;
  }

  /** Between two of them it is on the straight line: as far from the lower value, measured in the step to the upper one,
      as the position is from the lower position. */
  lemma QuantileBetweenKnots(values: seq<real>, q: real, k: nat)
    requires k + 1 < |values| && 0.0 <= q <= 1.0 && k as real <= q * (|values| - 1) as real < (k + 1) as real
    ensures InterpolatedQuantile(values, q).Success?
    ensures InterpolatedQuantile(values, q).value - values[k]
         == (values[k + 1] - values[k]) * (q * (|values| - 1) as real - k as real)
  {
    assert Position(|values|, q).Floor == k;
  }

  /** There is no quantile of nothing. */
  lemma QuantileOfNothing(q: real)
    requires 0.0 <= q <= 1.0
    ensures InterpolatedQuantile([], q).Failure?
  {
  }

  lemma PermutedInUnit(values: seq<real>, sorted: seq<real>)
    requires InUnit(values) && multiset(values) == multiset(sorted)
    ensures InUnit(sorted)
  {
    SameElements(values, sorted);
    forall i | 0 <= i < |sorted| ensures 0.0 <= sorted[i] <= 1.0 {
      assert sorted[i] in values;
    }
  }

  lemma SortedAscends(sorted: seq<real>)
    requires Sorted(RealLe, sorted)
    ensures Ascending(sorted)
  {
  }

  lemma SortAscends(values: seq<real>)
    ensures Ascending(Sort(RealLe, values)) && |Sort(RealLe, values)| == |values|
    ensures InUnit(values) ==> InUnit(Sort(RealLe, values))
  {
    hide Sorted, Ascending, InUnit;
    var sorted := Sort(RealLe, values);
    RealLeIsPreorder();
    SortSorts(RealLe, values);
    SortedAscends(sorted);
    SameElements(values, sorted);
    if InUnit(values) {
      PermutedInUnit(values, sorted);
    }
  }

  lemma RealLeIsPreorder()
    ensures TotalPreorder(RealLe)
  {
  }

  ghost predicate InUnit(values: seq<real>) {
    forall i :: 0 <= i < |values| ==> 0.0 <= values[i] <= 1.0
  }

  datatype Interval = Interval(low: real, high: real)

  /** The interval of the 0.025 and 0.975 quantiles of any samples in [0, 1]. */
  function IntervalOf(samples: seq<real>): (ci: Interval)
    requires samples != [] && InUnit(samples)
    ensures 0.0 <= ci.low <= ci.high <= 1.0
  {
    var sorted := Sort(RealLe, samples);
    SortAscends(samples);
    QuantileInRange(sorted, 0.025);
    QuantileInRange(sorted, 0.975);
    QuantileMonotone(sorted, 0.025, 0.975);
    Interval(InterpolatedQuantile(sorted, 0.025).value, InterpolatedQuantile(sorted, 0.975).value)
  }

  lemma OuterQuantiles(values: seq<real>, m: nat)
    requires |values| == 40 * m + 1
    ensures InterpolatedQuantile(values, 0.025) == Success(values[m])
    ensures InterpolatedQuantile(values, 0.975) == Success(values[39 * m])
  {
    hide InterpolatedQuantile;
    assert (|values| - 1) as real == 40.0 * m as real;
    QuantileAtKnot(values, 0.025, m);
    QuantileAtKnot(values, 0.975, 39 * m);
  }

  /** Of forty m and one samples the interval leaves out the m lowest and the m highest: it covers ninety-five percent. */
  lemma IntervalTrims(samples: seq<real>, m: nat)
    requires InUnit(samples) && |samples| == 40 * m + 1
    ensures |Sort(RealLe, samples)| == |samples|
    ensures IntervalOf(samples) == Interval(Sort(RealLe, samples)[m], Sort(RealLe, samples)[39 * m])
  {
    hide InterpolatedQuantile, Ascending, InUnit, Sort;
    SortAscends(samples);
    OuterQuantiles(Sort(RealLe, samples), m);
  }

  function Resample(xs: seq<string>, indices: seq<nat>): (r: seq<string>)
    requires forall i :: 0 <= i < |indices| ==> indices[i] < |xs|
    ensures |r| == |indices|
  {
    seq(|indices|, i requires 0 <= i < |indices| => xs[indices[i]])
  }

  /** One list of indices per bootstrap iteration, each as long as the data. */
  ghost predicate Draws(draws: seq<seq<nat>>, n: nat) {
    forall k :: 0 <= k < |draws| ==> IsDraw(draws[k], n)
  }

  predicate IsDraw(draw: seq<nat>, n: nat) {
    |draw| == n && forall i :: 0 <= i < n ==> draw[i] < n
  }

  function AccuracyOf(actual: seq<string>, predicted: seq<string>, draw: seq<nat>): (r: real)
    requires |actual| == |predicted| && IsDraw(draw, |actual|)
    ensures 0.0 <= r <= 1.0
  {
    AccuracyBounds(Resample(actual, draw), Resample(predicted, draw));
    Accuracy(Resample(actual, draw), Resample(predicted, draw))
  }

  function MacroF1Of(actual: seq<string>, predicted: seq<string>, draw: seq<nat>): (r: real)
    requires |actual| == |predicted| && IsDraw(draw, |actual|)
    ensures 0.0 <= r <= 1.0
  {
    MacroF1Bounds(Resample(actual, draw), Resample(predicted, draw));
    MacroF1(PerLabel(Resample(actual, draw), Resample(predicted, draw)))
  }

  /** A sample draws cases: the accuracy of one is the share of the draws that hit a case whose prediction is right. */
  lemma SampleAccuracyMeans(actual: seq<string>, predicted: seq<string>, draw: seq<nat>)
    requires |actual| == |predicted| && IsDraw(draw, |actual|)
    ensures AccuracyOf(actual, predicted, draw) * |draw| as real
         == |set i: nat | i < |draw| && actual[draw[i]] == predicted[draw[i]]| as real
  {
    hide Accuracy;
    AccuracyMeans(Resample(actual, draw), Resample(predicted, draw));
    assert CasesWith(Resample(actual, draw), Resample(predicted, draw), (a, q) => a == q)
        == set i: nat | i < |draw| && actual[draw[i]] == predicted[draw[i]];
  }

  /** A classifier without errors has no error in any sample, and one that is never right is never right in any. */
  lemma SampleExtremes(actual: seq<string>, predicted: seq<string>, draw: seq<nat>)
    requires |actual| == |predicted| && IsDraw(draw, |actual|) && actual != []
    ensures actual == predicted ==> MacroF1Of(actual, predicted, draw) == 1.0
    ensures (forall i :: 0 <= i < |actual| ==> actual[i] != predicted[i]) ==> MacroF1Of(actual, predicted, draw) == 0.0
  {
    hide MacroF1, PerLabel;
    MacroF1Bounds(Resample(actual, draw), Resample(predicted, draw));
    assert actual == predicted ==> Resample(actual, draw) == Resample(predicted, draw);
  }

  function AccuracySamples(actual: seq<string>, predicted: seq<string>, draws: seq<seq<nat>>): (samples: seq<real>)
    requires |actual| == |predicted| && Draws(draws, |actual|)
    ensures |samples| == |draws| && InUnit(samples)
  {
    seq(|draws|, k requires 0 <= k < |draws| => AccuracyOf(actual, predicted, draws[k]))
  }

  function MacroF1Samples(actual: seq<string>, predicted: seq<string>, draws: seq<seq<nat>>): (samples: seq<real>)
    requires |actual| == |predicted| && Draws(draws, |actual|)
    ensures |samples| == |draws| && InUnit(samples)
  {
    seq(|draws|, k requires 0 <= k < |draws| => MacroF1Of(actual, predicted, draws[k]))
  }

  method ScoreSample(actual: seq<string>, predicted: seq<string>, draw: seq<nat>)
    returns (accuracy: real, macroF1: real)
    requires |actual| == |predicted| && IsDraw(draw, |actual|)
    ensures accuracy == AccuracyOf(actual, predicted, draw) && macroF1 == MacroF1Of(actual, predicted, draw)
  {
    var sampleActual, samplePredicted := Resample(actual, draw), Resample(predicted, draw);
    var rows := ComputePerLabelMetrics(sampleActual, samplePredicted);
    accuracy, macroF1 := Accuracy(sampleActual, samplePredicted), MacroF1(rows.value);
  }

  lemma OneMoreSample(samples: seq<real>, all: seq<real>, k: nat)
    requires k < |all| && samples == all[..k]
    ensures samples + [all[k]] == all[..k + 1]
  {
  }

  lemma SampleAt(actual: seq<string>, predicted: seq<string>, draws: seq<seq<nat>>, k: nat)
    requires |actual| == |predicted| && Draws(draws, |actual|) && k < |draws|
    ensures IsDraw(draws[k], |actual|)
    ensures AccuracySamples(actual, predicted, draws)[k] == AccuracyOf(actual, predicted, draws[k])
    ensures MacroF1Samples(actual, predicted, draws)[k] == MacroF1Of(actual, predicted, draws[k])
  {
  }

  method NextSample(actual: seq<string>, predicted: seq<string>, draws: seq<seq<nat>>, k: nat)
    returns (accuracy: real, macroF1: real)
    requires |actual| == |predicted| && Draws(draws, |actual|) && k < |draws|
    ensures accuracy == AccuracySamples(actual, predicted, draws)[k] && macroF1 == MacroF1Samples(actual, predicted, draws)[k]
  {
    SampleAt(actual, predicted, draws, k);
    accuracy, macroF1 := ScoreSample(actual, predicted, draws[k]);
  }

  method CollectSamples(actual: seq<string>, predicted: seq<string>, draws: seq<seq<nat>>)
    returns (accuracySamples: seq<real>, macroF1Samples: seq<real>)
    requires |actual| == |predicted| && Draws(draws, |actual|)
    ensures accuracySamples == AccuracySamples(actual, predicted, draws)
    ensures macroF1Samples == MacroF1Samples(actual, predicted, draws)
  {
    ghost var allAccuracy, allMacroF1 := AccuracySamples(actual, predicted, draws), MacroF1Samples(actual, predicted, draws);
    accuracySamples, macroF1Samples := [], [];
    for k := 0 to |draws|
      invariant accuracySamples == allAccuracy[..k] && macroF1Samples == allMacroF1[..k]
    {
      var accuracy, macroF1 := NextSample(actual, predicted, draws, k);
      OneMoreSample(accuracySamples, allAccuracy, k);
      OneMoreSample(macroF1Samples, allMacroF1, k);
      accuracySamples := accuracySamples + [accuracy];
      macroF1Samples := macroF1Samples + [macroF1];
    }
  }

  /** For every possible resampling, both intervals are ordered and lie in [0, 1]. */
  method BootstrapConfidenceIntervals(actual: seq<string>, predicted: seq<string>, draws: seq<seq<nat>>)
    returns (accuracyCi: Option<Interval>, macroF1Ci: Option<Interval>)
    requires |actual| == |predicted| && Draws(draws, |actual|)
    ensures |actual| < 2 || draws == [] ==> accuracyCi == macroF1Ci == None
    ensures |actual| >= 2 && draws != [] ==>
      && accuracyCi == Some(IntervalOf(AccuracySamples(actual, predicted, draws)))
      && macroF1Ci == Some(IntervalOf(MacroF1Samples(actual, predicted, draws)))
      && 0.0 <= accuracyCi.value.low <= accuracyCi.value.high <= 1.0
      && 0.0 <= macroF1Ci.value.low <= macroF1Ci.value.high <= 1.0
  {
    if |actual| < 2 || |draws| < 1 {
      return None, None;
    }
    var accuracySamples, macroF1Samples := CollectSamples(actual, predicted, draws);
    accuracyCi := Some(IntervalOf(accuracySamples));
    macroF1Ci := Some(IntervalOf(macroF1Samples));
  }
}
