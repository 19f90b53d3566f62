/** Classification statistics of `src/rulekiln/pipeline/statistics.py`, over reals in place of floats. */
module Statistics {
  import opened Wrappers
  import opened Sorting
  import opened Counting

  const MISALIGNED := "Expected aligned inputs with equal lengths."

  datatype LabelRow = LabelRow(
    lab: string,
    support: nat,
    truePositive: nat,
    falsePositive: nat,
    falseNegative: nat,
    precision: real,
    recall: real,
    f1: real)

  type Matrix = map<string, map<string, nat>>

  function Ratio(part: nat, whole: nat): real {
    if whole > 0 then part as real / whole as real else 0.0
  }

  function F1(precision: real, recall: real): real {
    if precision + recall > 0.0 then 2.0 * precision * recall / (precision + recall) else 0.0
  }

  /** The row of a label, given how often it is hit, wrongly predicted and missed. */
  function RowOf(lab: string, support: nat, tp: nat, fp: nat, fn: nat): LabelRow {
    LabelRow(lab, support, tp, fp, fn, Ratio(tp, tp + fp), Ratio(tp, tp + fn), F1(Ratio(tp, tp + fp), Ratio(tp, tp + fn)))
  }

  function CountedRow(pairs: seq<Pair>, lab: string): LabelRow {
    RowOf(lab, Count(pairs, ActualIs(lab)), Count(pairs, Is(lab, lab)),
          Count(pairs, FalsePositiveOf(lab)), Count(pairs, FalseNegativeOf(lab)))
  }

  function CountedRows(pairs: seq<Pair>, labels: seq<string>): seq<LabelRow> {
    seq(|labels|, i requires 0 <= i < |labels| => CountedRow(pairs, labels[i]))
  }

  function LabelsOf(actual: seq<string>, predicted: seq<string>): (labels: seq<string>)
    requires |actual| == |predicted|
    ensures Covers(labels, Zip(actual, predicted))
    ensures forall l :: l in labels <==> l in actual || l in predicted
  {
    SortedSet(actual + predicted)
  }

  function PerLabel(actual: seq<string>, predicted: seq<string>): seq<LabelRow>
    requires |actual| == |predicted|
  {
    CountedRows(Zip(actual, predicted), LabelsOf(actual, predicted))
  }

  // ── Ratios and F1 ────────────────────────────────────────────────────────

  lemma DivisionBounds(part: real, whole: real)
    requires whole > 0.0 && 0.0 <= part <= whole
    ensures 0.0 <= part / whole <= 1.0
    ensures part / whole == 1.0 <==> part == whole
    ensures part / whole == 0.0 <==> part == 0.0
  {
    assert (part / whole) * whole == part;
  }

  lemma RatioBounds(part: nat, whole: nat)
    requires part <= whole
    ensures 0.0 <= Ratio(part, whole) <= 1.0
    ensures Ratio(part, whole) == 0.0 <==> part == 0
    ensures Ratio(part, whole) == 1.0 <==> part == whole && whole > 0
  {
    if whole > 0 {
      DivisionBounds(part as real, whole as real);
    }
  }

  lemma ProductBounds(p: real, r: real)
    requires 0.0 <= p && 0.0 <= r <= 1.0
    ensures 0.0 <= p * r <= p
    ensures p * r == p <==> p == 0.0 || r == 1.0
    ensures p * r == 0.0 <==> p == 0.0 || r == 0.0
  {
    assert p - p * r == p * (1.0 - r);
  }

  lemma ProductCommutes(p: real, r: real)
    ensures p * r == r * p
  {
  }

  lemma IsProductOf(p: real, r: real, x: real)
    requires 0.0 <= p && 0.0 <= r <= 1.0 && x == p * r
    ensures 0.0 <= x <= p
    ensures x == p <==> p == 0.0 || r == 1.0
    ensures x == 0.0 <==> p == 0.0 || r == 0.0
  {
    ProductBounds(p, r);
  }

  lemma ProductOfFractions(p: real, r: real, x: real)
    requires 0.0 <= p <= 1.0 && 0.0 <= r <= 1.0 && x == p * r
    ensures 0.0 <= x <= p && x <= r
    ensures x == p && x == r <==> (p == 1.0 && r == 1.0) || (p == 0.0 && r == 0.0)
    ensures x == 0.0 <==> p == 0.0 || r == 0.0
  {
    ProductCommutes(p, r);
    IsProductOf(p, r, x);
    IsProductOf(r, p, x);
  }

  lemma HarmonicBounds(p: real, r: real, x: real)
    requires 0.0 <= x <= p && x <= r && p + r > 0.0
    ensures 0.0 <= (x + x) / (p + r) <= 1.0
    ensures (x + x) / (p + r) == 1.0 <==> x == p && x == r
    ensures (x + x) / (p + r) == 0.0 <==> x == 0.0
  {
    DivisionBounds(x + x, p + r);
  }

  lemma F1OfReals(p: real, r: real)
    requires 0.0 <= p <= 1.0 && 0.0 <= r <= 1.0
    ensures 0.0 <= F1(p, r) <= 1.0
    ensures F1(p, r) == 1.0 <==> p == 1.0 && r == 1.0
    ensures F1(p, r) == 0.0 <==> p == 0.0 || r == 0.0
  {
    if p + r > 0.0 {
      var x := p * r;
      ProductOfFractions(p, r, x);
      HarmonicBounds(p, r, x);
      assert 2.0 * p * r == x + x;
    }
  }

  /** F1 is in [0, 1]; it is 1 exactly for a label without errors and 0 exactly for one never hit. */
  lemma F1Bounds(pairs: seq<Pair>, lab: string)
    requires exists x :: x in pairs && (x.actual == lab || x.predicted == lab)
    ensures var row := CountedRow(pairs, lab);
            && 0.0 <= row.f1 <= 1.0
            && (row.f1 == 1.0 <==> row.falsePositive == 0 && row.falseNegative == 0)
            && (row.f1 == 0.0 <==> row.truePositive == 0)
  {
    var row := CountedRow(pairs, lab);
    RatioBounds(row.truePositive, row.truePositive + row.falsePositive);
    RatioBounds(row.truePositive, row.truePositive + row.falseNegative);
    F1OfReals(row.precision, row.recall);
    LabelCounts(pairs, lab);
    CountPositive(pairs, ActualIs(lab));
    CountPositive(pairs, PredictedIs(lab));
  }

  /** How many cases are like this. */
  function CasesWith(actual: seq<string>, predicted: seq<string>, like: (string, string) -> bool): set<nat>
    requires |actual| == |predicted|
  {
    set i: nat | i < |actual| && like(actual[i], predicted[i])
  }

  /** The positions among the first n whose pair satisfies a condition. */
  function Places(pairs: seq<Pair>, p: Pair -> bool): set<nat> {
    set i: nat | i < |pairs| && p(pairs[i])
  }

  lemma {:induction false} CountMeans(pairs: seq<Pair>, p: Pair -> bool)
    ensures Count(pairs, p) == |Places(pairs, p)|
  {
    if pairs == [] {
      assert Places(pairs, p) == {};
    } else {
      var n := |pairs| - 1;
      CountMeans(pairs[..n], p);
      assert Places(pairs, p) == Places(pairs[..n], p) + if p(pairs[n]) then {n} else {};
    }
  }

  lemma CountsCases(actual: seq<string>, predicted: seq<string>, p: Pair -> bool, like: (string, string) -> bool)
    requires |actual| == |predicted| && forall a, q :: p(Pair(a, q)) <==> like(a, q)
    ensures Count(Zip(actual, predicted), p) == |CasesWith(actual, predicted, like)|
  {
    CountMeans(Zip(actual, predicted), p);
    assert CasesWith(actual, predicted, like) == Places(Zip(actual, predicted), p);
  }

  /** The counts of a label's row are those of the cases it names. */
  lemma RowCounts(actual: seq<string>, predicted: seq<string>, lab: string)
    requires |actual| == |predicted|
    ensures var row := CountedRow(Zip(actual, predicted), lab);
            && row.lab == lab
            && row.support == |CasesWith(actual, predicted, (a, q) => a == lab)|
            && row.truePositive == |CasesWith(actual, predicted, (a, q) => a == lab && q == lab)|
            && row.falsePositive == |CasesWith(actual, predicted, (a, q) => a != lab && q == lab)|
            && row.falseNegative == |CasesWith(actual, predicted, (a, q) => a == lab && q != lab)|
  {
    CountsCases(actual, predicted, ActualIs(lab), (a, q) => a == lab);
    CountsCases(actual, predicted, Is(lab, lab), (a, q) => a == lab && q == lab);
    CountsCases(actual, predicted, FalsePositiveOf(lab), (a, q) => a != lab && q == lab);
    CountsCases(actual, predicted, FalseNegativeOf(lab), (a, q) => a == lab && q != lab);
  }

  lemma RatioMeans(part: nat, whole: nat)
    requires part <= whole
    ensures Ratio(part, whole) * whole as real == part as real
  {
  }

  /** The harmonic mean, told by cross multiplication. */
  lemma F1Means(p: real, r: real, a: real, b: real, t: real)
    requires p * a == t && r * b == t && p >= 0.0 && r >= 0.0
    ensures F1(p, r) * (a + b) == if p + r > 0.0 then 2.0 * t else 0.0
  {
    if p + r > 0.0 {
      var f := F1(p, r);
      assert f * (p + r) == 2.0 * p * r;
      CrossMultiplied(p, r, a, b, t, f);
    }
  }

  lemma CrossMultiplied(p: real, r: real, a: real, b: real, t: real, f: real)
    requires p * a == t && r * b == t && p + r > 0.0 && f * (p + r) == 2.0 * p * r
    ensures f * (a + b) == 2.0 * t
  {
    var sum := p + r;
    assert p * r * (a + b) == t * sum by {
      assert p * r * a == r * (p * a);
      assert p * r * b == p * (r * b);
      assert p * r * (a + b) == p * r * a + p * r * b;
    }
    assert f * (a + b) * sum == 2.0 * t * sum by {
      assert f * (a + b) * sum == (f * sum) * (a + b);
      assert 2.0 * p * r * (a + b) == 2.0 * (p * r * (a + b));
    }
    Cancelled(f * (a + b), 2.0 * t, sum);
  }

  lemma Cancelled(x: real, y: real, c: real)
    requires c > 0.0 && x * c == y * c
    ensures x == y
  {
    assert (x - y) * c == 0.0;
  }

  /** Precision is the share of hits among the predictions of a label, recall among its cases, and F1 twice the hits among
      both together; each is zero where there is nothing to share. */
  lemma RowMeans(lab: string, support: nat, tp: nat, fp: nat, fn: nat)
    ensures var row := RowOf(lab, support, tp, fp, fn);
            && row.precision * (tp + fp) as real == tp as real && (tp + fp == 0 ==> row.precision == 0.0)
            && row.recall * (tp + fn) as real == tp as real && (tp + fn == 0 ==> row.recall == 0.0)
            && row.f1 * (2 * tp + fp + fn) as real == (2 * tp) as real && (2 * tp + fp + fn == 0 ==> row.f1 == 0.0)
  {
    RatioMeans(tp, tp + fp);
    RatioMeans(tp, tp + fn);
    RatioBounds(tp, tp + fp);
    RatioBounds(tp, tp + fn);
    F1Means(Ratio(tp, tp + fp), Ratio(tp, tp + fn), (tp + fp) as real, (tp + fn) as real, tp as real);
  }

  // ── Per-label rows ───────────────────────────────────────────────────────

  lemma CountsNext(actual: seq<string>, predicted: seq<string>, i: nat, p: Pair -> bool)
    requires |actual| == |predicted| && i < |actual|
    ensures Count(Zip(actual, predicted)[..i + 1], p)
         == Count(Zip(actual, predicted)[..i], p) + Bit(p(Pair(actual[i], predicted[i])))
  {
    var pairs := Zip(actual, predicted);
    assert pairs[..i + 1] == pairs[..i] + [pairs[i]];
    CountSnoc(pairs[..i], pairs[i], p);
  }

  method CountLabel(actual: seq<string>, predicted: seq<string>, lab: string) returns (row: LabelRow)
    requires |actual| == |predicted|
    ensures row == CountedRow(Zip(actual, predicted), lab)
  {
    var truePositive, falsePositive, falseNegative, support := 0, 0, 0, 0;
    ghost var pairs := Zip(actual, predicted);
    for i := 0 to |actual|
      invariant support == Count(pairs[..i], ActualIs(lab))
      invariant truePositive == Count(pairs[..i], Is(lab, lab))
      invariant falsePositive == Count(pairs[..i], FalsePositiveOf(lab))
      invariant falseNegative == Count(pairs[..i], FalseNegativeOf(lab))
    {
      CountsNext(actual, predicted, i, ActualIs(lab));
      CountsNext(actual, predicted, i, Is(lab, lab));
      CountsNext(actual, predicted, i, FalsePositiveOf(lab));
      CountsNext(actual, predicted, i, FalseNegativeOf(lab));
      if actual[i] == lab {
        support := support + 1;
      }
      if actual[i] == lab && predicted[i] == lab {
        truePositive := truePositive + 1;
      } else if actual[i] != lab && predicted[i] == lab {
        falsePositive := falsePositive + 1;
      } else if actual[i] == lab && predicted[i] != lab {
        falseNegative := falseNegative + 1;
      }
    }
    assert pairs[..|actual|] == pairs;
    row := RowOf(lab, support, truePositive, falsePositive, falseNegative);
  }

  method CountLabels(actual: seq<string>, predicted: seq<string>, labels: seq<string>) returns (rows: seq<LabelRow>)
    requires |actual| == |predicted|
    ensures rows == CountedRows(Zip(actual, predicted), labels)
  {
    rows := [];
    ghost var pairs := Zip(actual, predicted);
    for i := 0 to |labels|
      invariant |rows| == i && forall j :: 0 <= j < i ==> rows[j] == CountedRow(pairs, labels[j])
    {
      var row := CountLabel(actual, predicted, labels[i]);
      rows := rows + [row];
    }
  }

  method ComputePerLabelMetrics(actual: seq<string>, predicted: seq<string>) returns (r: Result<seq<LabelRow>, string>)
    ensures |actual| != |predicted| ==> r == Failure(MISALIGNED)
    ensures |actual| == |predicted| ==> r == Success(PerLabel(actual, predicted))
  {
    if |actual| != |predicted| {
      return Failure(MISALIGNED);
    }
    var rows := CountLabels(actual, predicted, LabelsOf(actual, predicted));
    r := Success(rows);
  }

  /** The rows' labels, in order, are the sorted set of all labels. */
  lemma PerLabelRows(actual: seq<string>, predicted: seq<string>)
    requires |actual| == |predicted|
    ensures var rows, labels := PerLabel(actual, predicted), LabelsOf(actual, predicted);
            && |rows| == |labels|
            && forall i :: 0 <= i < |rows| ==>
                 rows[i].lab == labels[i] && rows[i].support == rows[i].truePositive + rows[i].falseNegative
  {
    forall l ensures CountedRow(Zip(actual, predicted), l).support ==
      CountedRow(Zip(actual, predicted), l).truePositive + CountedRow(Zip(actual, predicted), l).falseNegative
    {
      LabelCounts(Zip(actual, predicted), l);
    }
  }

  // ── Confusion matrix ─────────────────────────────────────────────────────

  function Entry(m: Matrix, actual: string, predicted: string): Option<nat> {
    if actual in m && predicted in m[actual] then Some(m[actual][predicted]) else None
  }

  function Cell(m: Matrix, actual: string, predicted: string): nat {
    if Entry(m, actual, predicted).Some? then Entry(m, actual, predicted).value else 0
  }

  function Positive(n: nat): Option<nat> { if n > 0 then Some(n) else None }

  /** A key is present exactly when its count is positive, and then holds that count. */
  ghost predicate Counts(m: Matrix, pairs: seq<Pair>) {
    && (forall a :: a in m <==> Count(pairs, ActualIs(a)) > 0)
    && (forall a, p :: Entry(m, a, p) == Positive(Count(pairs, Is(a, p))))
  }

  lemma CountsAfter(m: Matrix, pairs: seq<Pair>, x: Pair)
    requires Counts(m, pairs)
    ensures var row := if x.actual in m then m[x.actual] else map[];
            Counts(m[x.actual := row[x.predicted := Cell(m, x.actual, x.predicted) + 1]], pairs + [x])
  {
    var row := if x.actual in m then m[x.actual] else map[];
    var updated := m[x.actual := row[x.predicted := Cell(m, x.actual, x.predicted) + 1]];
    forall a ensures a in updated <==> Count(pairs + [x], ActualIs(a)) > 0 {
      CountSnoc(pairs, x, ActualIs(a));
    }
    forall a, p ensures Entry(updated, a, p) == Positive(Count(pairs + [x], Is(a, p))) {
      CountSnoc(pairs, x, Is(a, p));
      assert Entry(m, a, p) == Positive(Count(pairs, Is(a, p)));
    }
  }

  method ComputeConfusionMatrix(actual: seq<string>, predicted: seq<string>) returns (r: Result<Matrix, string>)
    ensures |actual| != |predicted| ==> r == Failure(MISALIGNED)
    ensures |actual| == |predicted| ==> r.Success? && Counts(r.value, Zip(actual, predicted))
  {
    if |actual| != |predicted| {
      return Failure(MISALIGNED);
    }
    ghost var pairs := Zip(actual, predicted);
    var matrix: Matrix := map[];
    for i := 0 to |actual|
      invariant Counts(matrix, pairs[..i])
    {
      CountsAfter(matrix, pairs[..i], pairs[i]);
      assert pairs[..i] + [pairs[i]] == pairs[..i + 1];
      var row := if actual[i] in matrix then matrix[actual[i]] else map[];
      var count := if predicted[i] in row then row[predicted[i]] else 0;
      matrix := matrix[actual[i] := row[predicted[i] := count + 1]];
    }
    assert pairs[..|actual|] == pairs;
    r := Success(matrix);
  }

  /** The confusion matrix and a label's row, computed separately, agree: the matrix row sums to the
      support, the column to the predictions, and the diagonal is the true positives. */
  lemma MatrixAgreesWithRow(actual: seq<string>, predicted: seq<string>, m: Matrix, i: nat)
    requires |actual| == |predicted| && Counts(m, Zip(actual, predicted))
    requires i < |LabelsOf(actual, predicted)|
    ensures var labels, row := LabelsOf(actual, predicted), PerLabel(actual, predicted)[i];
            && row.lab == labels[i]
            && SumOver(labels, (l: string) => Cell(m, row.lab, l)) == row.support
            && row.support == row.truePositive + row.falseNegative
            && SumOver(labels, (l: string) => Cell(m, l, row.lab)) == row.truePositive + row.falsePositive
            && Cell(m, row.lab, row.lab) == row.truePositive
  {
    var pairs, labels := Zip(actual, predicted), LabelsOf(actual, predicted);
    var lab := labels[i];
    LabelCounts(pairs, lab);
    RowSum(pairs, labels, lab);
    ColumnSum(pairs, labels, lab);
    forall a, p ensures Cell(m, a, p) == Count(pairs, Is(a, p)) {
      assert Entry(m, a, p) == Positive(Count(pairs, Is(a, p)));
    }
    SumEqual(labels, (l: string) => Cell(m, lab, l), (l: string) => Count(pairs, Is(lab, l)));
    SumEqual(labels, (l: string) => Cell(m, l, lab), (l: string) => Count(pairs, Is(l, lab)));
  }

  /** Over all labels, false positives and false negatives both number the wrong predictions. */
  lemma ErrorTotals(actual: seq<string>, predicted: seq<string>)
    requires |actual| == |predicted|
    ensures var pairs, labels := Zip(actual, predicted), LabelsOf(actual, predicted);
            && SumOver(labels, (l: string) => CountedRow(pairs, l).falsePositive) == |actual| - Count(pairs, Correct())
            && SumOver(labels, (l: string) => CountedRow(pairs, l).falseNegative) == |actual| - Count(pairs, Correct())
  {
    var pairs, labels := Zip(actual, predicted), LabelsOf(actual, predicted);
    ErrorsCountedTwice(pairs, labels);
    SumEqual(labels, (l: string) => CountedRow(pairs, l).falsePositive, (l: string) => Count(pairs, FalsePositiveOf(l)));
    SumEqual(labels, (l: string) => CountedRow(pairs, l).falseNegative, (l: string) => Count(pairs, FalseNegativeOf(l)));
  }

  // ── Accuracy and macro F1 ────────────────────────────────────────────────

  function Accuracy(actual: seq<string>, predicted: seq<string>): real
    requires |actual| == |predicted|
  {
    Ratio(Count(Zip(actual, predicted), Correct()), |actual|)
  }

  function SumF1(rows: seq<LabelRow>): real {
    if rows == [] then 0.0 else SumF1(rows[..|rows| - 1]) + rows[|rows| - 1].f1
  }

  function MacroF1(rows: seq<LabelRow>): real {
    if rows == [] then 0.0 else SumF1(rows) / |rows| as real
  }

  lemma {:induction false} SumF1Bounds(rows: seq<LabelRow>)
    requires forall i :: 0 <= i < |rows| ==> 0.0 <= rows[i].f1 <= 1.0
    ensures 0.0 <= SumF1(rows) <= |rows| as real
    ensures SumF1(rows) == |rows| as real <==> forall i :: 0 <= i < |rows| ==> rows[i].f1 == 1.0
    ensures SumF1(rows) == 0.0 <==> forall i :: 0 <= i < |rows| ==> rows[i].f1 == 0.0
  {
    if rows != [] {
      SumF1Bounds(rows[..|rows| - 1]);
    }
  }

  lemma MacroF1OfRows(rows: seq<LabelRow>)
    requires forall i :: 0 <= i < |rows| ==> 0.0 <= rows[i].f1 <= 1.0
    ensures 0.0 <= MacroF1(rows) <= 1.0
    ensures rows != [] ==> (MacroF1(rows) == 1.0 <==> forall i :: 0 <= i < |rows| ==> rows[i].f1 == 1.0)
    ensures rows != [] ==> (MacroF1(rows) == 0.0 <==> forall i :: 0 <= i < |rows| ==> rows[i].f1 == 0.0)
  {
    SumF1Bounds(rows);
    if rows != [] {
      DivisionBounds(SumF1(rows), |rows| as real);
    }
  }

  lemma ZipContains(actual: seq<string>, predicted: seq<string>, l: string)
    requires |actual| == |predicted| && (l in actual || l in predicted)
    ensures exists x :: x in Zip(actual, predicted) && (x.actual == l || x.predicted == l)
  {
    var i :| 0 <= i < |actual| && (actual[i] == l || predicted[i] == l);
    assert Zip(actual, predicted)[i] in Zip(actual, predicted);
  }

  lemma RowF1(actual: seq<string>, predicted: seq<string>, i: nat)
    requires |actual| == |predicted| && i < |PerLabel(actual, predicted)|
    ensures var row := PerLabel(actual, predicted)[i];
            && 0.0 <= row.f1 <= 1.0
            && (row.f1 == 1.0 <==> row.falsePositive == 0 && row.falseNegative == 0)
            && (row.f1 == 0.0 <==> row.truePositive == 0)
  {
    var lab := LabelsOf(actual, predicted)[i];
    assert lab in LabelsOf(actual, predicted);
    ZipContains(actual, predicted, lab);
    F1Bounds(Zip(actual, predicted), lab);
  }

  /** Macro F1 lies in [0, 1]; on a non-empty sample it is 1 exactly when every prediction is right
      and 0 exactly when none is. */
  lemma MacroF1Bounds(actual: seq<string>, predicted: seq<string>)
    requires |actual| == |predicted|
    ensures var f := MacroF1(PerLabel(actual, predicted));
            && 0.0 <= f <= 1.0
            && (actual != [] ==> (f == 1.0 <==> actual == predicted))
            && (actual != [] ==> (f == 0.0 <==> forall i :: 0 <= i < |actual| ==> actual[i] != predicted[i]))
  {
    var rows := PerLabel(actual, predicted);
    forall i | 0 <= i < |rows|
      ensures 0.0 <= rows[i].f1 <= 1.0
      ensures rows[i].f1 == 1.0 <==> rows[i].falsePositive == 0 && rows[i].falseNegative == 0
      ensures rows[i].f1 == 0.0 <==> rows[i].truePositive == 0
    {
      RowF1(actual, predicted, i);
    }
    MacroF1OfRows(rows);
    PerfectRowsIff(actual, predicted);
    HopelessRowsIff(actual, predicted);
    assert actual != [] ==> actual[0] in LabelsOf(actual, predicted);
  }

  lemma PerfectRowsIff(actual: seq<string>, predicted: seq<string>)
    requires |actual| == |predicted|
    ensures (forall i :: 0 <= i < |PerLabel(actual, predicted)| ==>
               var row := PerLabel(actual, predicted)[i]; row.falsePositive == 0 && row.falseNegative == 0)
            <==> actual == predicted
  {
    var pairs, labels, rows := Zip(actual, predicted), LabelsOf(actual, predicted), PerLabel(actual, predicted);
    if actual == predicted {
      forall i | 0 <= i < |rows| ensures rows[i].falsePositive == 0 && rows[i].falseNegative == 0 {
        CountPositive(pairs, FalsePositiveOf(labels[i]));
        CountPositive(pairs, FalseNegativeOf(labels[i]));
      }
    } else {
      var k :| 0 <= k < |actual| && actual[k] != predicted[k];
      assert actual[k] in labels && pairs[k] in pairs;
      var i :| 0 <= i < |labels| && labels[i] == actual[k];
      CountPositive(pairs, FalseNegativeOf(labels[i]));
      assert rows[i].falseNegative > 0;
    }
  }

  lemma HopelessRowsIff(actual: seq<string>, predicted: seq<string>)
    requires |actual| == |predicted|
    ensures (forall i :: 0 <= i < |PerLabel(actual, predicted)| ==> PerLabel(actual, predicted)[i].truePositive == 0)
            <==> forall i :: 0 <= i < |actual| ==> actual[i] != predicted[i]
  {
    var pairs, labels, rows := Zip(actual, predicted), LabelsOf(actual, predicted), PerLabel(actual, predicted);
    if k :| 0 <= k < |actual| && actual[k] == predicted[k] {
      assert actual[k] in labels && pairs[k] in pairs;
      var i :| 0 <= i < |labels| && labels[i] == actual[k];
      CountPositive(pairs, Is(labels[i], labels[i]));
      assert rows[i].truePositive > 0;
    } else {
      forall i | 0 <= i < |rows| ensures rows[i].truePositive == 0 {
        CountPositive(pairs, Is(labels[i], labels[i]));
      }
    }
  }

  /** Accuracy is the share of the cases whose prediction is right. */
  lemma AccuracyMeans(actual: seq<string>, predicted: seq<string>)
    requires |actual| == |predicted|
    ensures Accuracy(actual, predicted) * |actual| as real == |CasesWith(actual, predicted, (a, q) => a == q)| as real
    ensures actual == [] ==> Accuracy(actual, predicted) == 0.0
  {
    hide Count, CasesWith;
    CountsCases(actual, predicted, Correct(), (a, q) => a == q);
    CountPositive(Zip(actual, predicted), Correct());
    RatioMeans(Count(Zip(actual, predicted), Correct()), |actual|);
  }

  lemma {:induction false} SumF1Moves(rows: seq<LabelRow>, i: nat, row: LabelRow)
    requires i < |rows|
    ensures SumF1(rows[i := row]) == SumF1(rows) + row.f1 - rows[i].f1
  {
    var n := |rows| - 1;
    if i == n {
      assert rows[i := row][..n] == rows[..n];
    } else {
      assert rows[i := row][..n] == rows[..n][i := row];
      SumF1Moves(rows[..n], i, row);
    }
  }

  /** Every label moves the macro F1 alike, whatever its support: by its own change divided by the number of labels. */
  lemma MacroF1Moves(rows: seq<LabelRow>, i: nat, row: LabelRow)
    requires i < |rows|
    ensures (MacroF1(rows[i := row]) - MacroF1(rows)) * |rows| as real == row.f1 - rows[i].f1
  {
    SumF1Moves(rows, i, row);
    var n := |rows| as real;
    assert (SumF1(rows) / n) * n == SumF1(rows);
    assert (SumF1(rows[i := row]) / n) * n == SumF1(rows[i := row]);
  }

  lemma AccuracyBounds(actual: seq<string>, predicted: seq<string>)
    requires |actual| == |predicted|
    ensures 0.0 <= Accuracy(actual, predicted) <= 1.0
  {
    CountPositive(Zip(actual, predicted), Correct());
    RatioBounds(Count(Zip(actual, predicted), Correct()), |actual|);
  }
}
