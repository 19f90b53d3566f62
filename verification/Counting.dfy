/** Counts over aligned (actual, predicted) label pairs, and the double counting that relates them. */
module Counting {
  import opened Sorting

  datatype Pair = Pair(actual: string, predicted: string)

  function Zip(actual: seq<string>, predicted: seq<string>): (pairs: seq<Pair>)
    requires |actual| == |predicted|
    ensures |pairs| == |actual|
    ensures forall i :: 0 <= i < |pairs| ==> pairs[i] == Pair(actual[i], predicted[i])
  {
    seq(|actual|, i requires 0 <= i < |actual| => Pair(actual[i], predicted[i]))
  }

  function Bit(b: bool): nat { if b then 1 else 0 }

  /** How many pairs satisfy a condition. */
  function Count(pairs: seq<Pair>, p: Pair -> bool): nat {
    if pairs == [] then 0 else Count(pairs[..|pairs| - 1], p) + Bit(p(pairs[|pairs| - 1]))
  }

  function Is(actual: string, predicted: string): Pair -> bool {
    (x: Pair) => x.actual == actual && x.predicted == predicted
  }

  function ActualIs(lab: string): Pair -> bool { (x: Pair) => x.actual == lab }

  function PredictedIs(lab: string): Pair -> bool { (x: Pair) => x.predicted == lab }

  function FalsePositiveOf(lab: string): Pair -> bool {
    (x: Pair) => x.actual != lab && x.predicted == lab
  }

  function FalseNegativeOf(lab: string): Pair -> bool {
    (x: Pair) => x.actual == lab && x.predicted != lab
  }

  function Correct(): Pair -> bool { (x: Pair) => x.actual == x.predicted }

  function Wrong(): Pair -> bool { (x: Pair) => x.actual != x.predicted }

  lemma CountSnoc(pairs: seq<Pair>, x: Pair, p: Pair -> bool)
    ensures Count(pairs + [x], p) == Count(pairs, p) + Bit(p(x))
  {
    assert (pairs + [x])[..|pairs|] == pairs;
  }

  lemma {:induction false} CountPositive(pairs: seq<Pair>, p: Pair -> bool)
    ensures Count(pairs, p) > 0 <==> exists x :: x in pairs && p(x)
    ensures Count(pairs, p) <= |pairs|
    ensures Count(pairs, p) == |pairs| <==> forall x :: x in pairs ==> p(x)
  {
    if pairs != [] {
      var init, last := pairs[..|pairs| - 1], pairs[|pairs| - 1];
      assert pairs == init + [last];
      CountPositive(init, p);
    }
  }

  /** If every pair counted by `p` is counted by exactly one of `q` and `r`, and conversely, counts add up. */
  lemma {:induction false} CountSplit(pairs: seq<Pair>, p: Pair -> bool, q: Pair -> bool, r: Pair -> bool)
    requires forall x :: Bit(p(x)) == Bit(q(x)) + Bit(r(x))
    ensures Count(pairs, p) == Count(pairs, q) + Count(pairs, r)
  {
    if pairs != [] {
      CountSplit(pairs[..|pairs| - 1], p, q, r);
    }
  }

  lemma CorrectAndWrong(pairs: seq<Pair>)
    ensures Count(pairs, Correct()) + Count(pairs, Wrong()) == |pairs|
  {
    CountSplit(pairs, (x: Pair) => true, Correct(), Wrong());
    CountPositive(pairs, (x: Pair) => true);
  }

  /** Support and predictions of a label are its true positives plus the respective errors. */
  lemma LabelCounts(pairs: seq<Pair>, lab: string)
    ensures Count(pairs, ActualIs(lab)) == Count(pairs, Is(lab, lab)) + Count(pairs, FalseNegativeOf(lab))
    ensures Count(pairs, PredictedIs(lab)) == Count(pairs, Is(lab, lab)) + Count(pairs, FalsePositiveOf(lab))
  {
    CountSplit(pairs, ActualIs(lab), Is(lab, lab), FalseNegativeOf(lab));
    CountSplit(pairs, PredictedIs(lab), Is(lab, lab), FalsePositiveOf(lab));
  }

  // ── Labels ───────────────────────────────────────────────────────────────

  function FirstOccurrences(xs: seq<string>): (r: seq<string>)
    ensures Distinct(r) && forall x :: x in r <==> x in xs
  {
    if xs == [] then []
    else
      var rest := FirstOccurrences(xs[..|xs| - 1]);
      assert forall x :: x in xs <==> x in xs[..|xs| - 1] || x == xs[|xs| - 1];
      if xs[|xs| - 1] in rest then rest else rest + [xs[|xs| - 1]]
  }

  /** `sorted(set(xs))`. */
  function SortedSet(xs: seq<string>): (r: seq<string>)
    ensures Distinct(r) && forall x :: x in r <==> x in xs
  {
    var r := Sort(StringLe, FirstOccurrences(xs));
    SameElements(FirstOccurrences(xs), r);
    PermutedDistinct(FirstOccurrences(xs), r);
    r
  }

  function SumOver(labels: seq<string>, f: string -> int): int {
    if labels == [] then 0 else SumOver(labels[..|labels| - 1], f) + f(labels[|labels| - 1])
  }

  /** Changing one summand of a sum over distinct labels changes the sum by as much. */
  lemma {:induction false} SumBump(labels: seq<string>, f: string -> int, g: string -> int, x: string)
    requires Distinct(labels) && forall l :: l != x ==> f(l) == g(l)
    ensures SumOver(labels, g) == SumOver(labels, f) + if x in labels then g(x) - f(x) else 0
  {
    if labels != [] {
      var init, last := labels[..|labels| - 1], labels[|labels| - 1];
      assert labels == init + [last];
      SumBump(init, f, g, x);
      if last == x {
        assert x !in init;
      }
    }
  }

  lemma {:induction false} SumMonotone(labels: seq<string>, f: string -> int, g: string -> int)
    requires forall l :: l in labels ==> f(l) <= g(l)
    ensures SumOver(labels, f) <= SumOver(labels, g)
  {
    if labels != [] {
      SumMonotone(labels[..|labels| - 1], f, g);
    }
  }

  lemma {:induction false} SumEqual(labels: seq<string>, f: string -> int, g: string -> int)
    requires forall l :: l in labels ==> f(l) == g(l)
    ensures SumOver(labels, f) == SumOver(labels, g)
  {
    if labels != [] {
      SumEqual(labels[..|labels| - 1], f, g);
    }
  }

  lemma {:induction false} SumZero(labels: seq<string>, f: string -> int)
    requires forall l :: l in labels ==> f(l) == 0
    ensures SumOver(labels, f) == 0
  {
    if labels != [] {
      SumZero(labels[..|labels| - 1], f);
    }
  }

  /** Double counting: if each counted pair is counted under exactly one label, the per-label counts add
      up to the total. `at` names that label. */
  lemma {:induction false} DoubleCount(
      pairs: seq<Pair>, labels: seq<string>, under: string -> (Pair -> bool), total: Pair -> bool, at: Pair -> string)
    requires Distinct(labels)
    requires forall x, l :: under(l)(x) <==> total(x) && l == at(x)
    requires forall x :: x in pairs && total(x) ==> at(x) in labels
    ensures SumOver(labels, (l: string) => Count(pairs, under(l))) == Count(pairs, total)
  {
    if pairs == [] {
      SumZero(labels, (l: string) => Count(pairs, under(l)));
    } else {
      var init, last := pairs[..|pairs| - 1], pairs[|pairs| - 1];
      assert pairs == init + [last];
      DoubleCount(init, labels, under, total, at);
      var f := (l: string) => Count(init, under(l));
      var g := (l: string) => Count(pairs, under(l));
      SumBump(labels, f, g, at(last));
    }
  }

  ghost predicate Covers(labels: seq<string>, pairs: seq<Pair>) {
    Distinct(labels) && forall x :: x in pairs ==> x.actual in labels && x.predicted in labels
  }

  /** Summing a confusion-matrix row over all labels gives the support of its label. */
  lemma RowSum(pairs: seq<Pair>, labels: seq<string>, actual: string)
    requires Covers(labels, pairs)
    ensures SumOver(labels, (l: string) => Count(pairs, Is(actual, l))) == Count(pairs, ActualIs(actual))
  {
    var under := (l: string) => Is(actual, l);
    DoubleCount(pairs, labels, under, ActualIs(actual), (x: Pair) => x.predicted);
    SumEqual(labels, (l: string) => Count(pairs, under(l)), (l: string) => Count(pairs, Is(actual, l)));
  }

  /** Summing a column gives the number of predictions of its label. */
  lemma ColumnSum(pairs: seq<Pair>, labels: seq<string>, predicted: string)
    requires Covers(labels, pairs)
    ensures SumOver(labels, (l: string) => Count(pairs, Is(l, predicted))) == Count(pairs, PredictedIs(predicted))
  {
    var under := (l: string) => Is(l, predicted);
    DoubleCount(pairs, labels, under, PredictedIs(predicted), (x: Pair) => x.actual);
    SumEqual(labels, (l: string) => Count(pairs, under(l)), (l: string) => Count(pairs, Is(l, predicted)));
  }

  /** Each wrong pair is one label's false negative and one label's false positive. */
  lemma ErrorsCountedTwice(pairs: seq<Pair>, labels: seq<string>)
    requires Covers(labels, pairs)
    ensures SumOver(labels, (l: string) => Count(pairs, FalseNegativeOf(l))) == |pairs| - Count(pairs, Correct())
    ensures SumOver(labels, (l: string) => Count(pairs, FalsePositiveOf(l))) == |pairs| - Count(pairs, Correct())
  {
    var fn, fp := (l: string) => FalseNegativeOf(l), (l: string) => FalsePositiveOf(l);
    DoubleCount(pairs, labels, fn, Wrong(), (x: Pair) => x.actual);
    DoubleCount(pairs, labels, fp, Wrong(), (x: Pair) => x.predicted);
    SumEqual(labels, (l: string) => Count(pairs, fn(l)), (l: string) => Count(pairs, FalseNegativeOf(l)));
    SumEqual(labels, (l: string) => Count(pairs, fp(l)), (l: string) => Count(pairs, FalsePositiveOf(l)));
    CorrectAndWrong(pairs);
  }
}
