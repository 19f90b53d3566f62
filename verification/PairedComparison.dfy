/** Paired comparison and regressed labels of `src/rulekiln/pipeline/statistics.py`: what a candidate
    strategy fixes and breaks relative to a baseline. */
module PairedComparison {
  import opened Wrappers
  import opened Sorting
  import opened Counting
  import opened Statistics

  datatype ChangeClass = Fixed | Broken | BothCorrect | BothWrong

  function Classify(expected: string, baseline: string, candidate: string): ChangeClass {
    if baseline != expected && candidate == expected then Fixed
    else if baseline == expected && candidate != expected then Broken
    else if baseline == expected then BothCorrect
    else BothWrong
  }

  /** Case indices of one class, in case order. */
  function OfClass(actual: seq<string>, baseline: seq<string>, candidate: seq<string>, n: nat, c: ChangeClass): seq<nat>
    requires n <= |actual| && |actual| == |baseline| == |candidate|
  {
    if n == 0 then []
    else OfClass(actual, baseline, candidate, n - 1, c)
         + if Classify(actual[n - 1], baseline[n - 1], candidate[n - 1]) == c then [n - 1] else []
  }

  datatype Comparison = Comparison(
    fixed: seq<nat>,
    broken: seq<nat>,
    unchangedCorrect: seq<nat>,
    unchangedWrong: seq<nat>,
    netFixRate: Option<real>,
    overallNetFixRate: real)

  /** The first n cases, sorted into their four classes. */
  ghost predicate Classified(actual: seq<string>, baseline: seq<string>, candidate: seq<string>, n: nat,
                             fixed: seq<nat>, broken: seq<nat>, correct: seq<nat>, wrong: seq<nat>)
    requires n <= |actual| && |actual| == |baseline| == |candidate|
  {
    && fixed == OfClass(actual, baseline, candidate, n, Fixed)
    && broken == OfClass(actual, baseline, candidate, n, Broken)
    && correct == OfClass(actual, baseline, candidate, n, BothCorrect)
    && wrong == OfClass(actual, baseline, candidate, n, BothWrong)
    && |fixed| + |broken| + |correct| + |wrong| == n
  }

  lemma ClassifiedNext(actual: seq<string>, baseline: seq<string>, candidate: seq<string>, n: nat,
                       fixed: seq<nat>, broken: seq<nat>, correct: seq<nat>, wrong: seq<nat>)
    requires n < |actual| && |actual| == |baseline| == |candidate|
    requires Classified(actual, baseline, candidate, n, fixed, broken, correct, wrong)
    ensures match Classify(actual[n], baseline[n], candidate[n])
            case Fixed => Classified(actual, baseline, candidate, n + 1, fixed + [n], broken, correct, wrong)
            case Broken => Classified(actual, baseline, candidate, n + 1, fixed, broken + [n], correct, wrong)
            case BothCorrect => Classified(actual, baseline, candidate, n + 1, fixed, broken, correct + [n], wrong)
            case BothWrong => Classified(actual, baseline, candidate, n + 1, fixed, broken, correct, wrong + [n])
  {
  }

  /** Which cases a list of one class holds, in case order. */
  ghost predicate Lists(cases: seq<nat>, actual: seq<string>, baseline: seq<string>, candidate: seq<string>, n: nat,
                        wasRight: bool, isRight: bool)
    requires n <= |actual| && |actual| == |baseline| == |candidate|
  {
    && (forall i: nat :: i in cases <==> i < n && (baseline[i] == actual[i]) == wasRight && (candidate[i] == actual[i]) == isRight)
    && forall j, k :: 0 <= j < k < |cases| ==> cases[j] < cases[k]
  }

  lemma {:induction false} OfClassLists(actual: seq<string>, baseline: seq<string>, candidate: seq<string>, n: nat, c: ChangeClass)
    requires n <= |actual| && |actual| == |baseline| == |candidate|
    ensures Lists(OfClass(actual, baseline, candidate, n, c), actual, baseline, candidate, n,
                  c == Broken || c == BothCorrect, c == Fixed || c == BothCorrect)
  {
    if n > 0 {
      var before := OfClass(actual, baseline, candidate, n - 1, c);
      OfClassLists(actual, baseline, candidate, n - 1, c);
      assert forall j :: 0 <= j < |before| ==> before[j] in before;
    }
  }

  /** The four lists, told by what was right before and is right now. */
  lemma ClassifiedMeans(actual: seq<string>, baseline: seq<string>, candidate: seq<string>,
                        fixed: seq<nat>, broken: seq<nat>, correct: seq<nat>, wrong: seq<nat>)
    requires |actual| == |baseline| == |candidate|
    requires Classified(actual, baseline, candidate, |actual|, fixed, broken, correct, wrong)
    ensures Lists(fixed, actual, baseline, candidate, |actual|, false, true)
    ensures Lists(broken, actual, baseline, candidate, |actual|, true, false)
    ensures Lists(correct, actual, baseline, candidate, |actual|, true, true)
    ensures Lists(wrong, actual, baseline, candidate, |actual|, false, false)
  {
    OfClassLists(actual, baseline, candidate, |actual|, Fixed);
    OfClassLists(actual, baseline, candidate, |actual|, Broken);
    OfClassLists(actual, baseline, candidate, |actual|, BothCorrect);
    OfClassLists(actual, baseline, candidate, |actual|, BothWrong);
  }

  method ClassifyCases(actual: seq<string>, baseline: seq<string>, candidate: seq<string>)
    returns (fixed: seq<nat>, broken: seq<nat>, correct: seq<nat>, wrong: seq<nat>)
    requires |actual| == |baseline| == |candidate|
    ensures Classified(actual, baseline, candidate, |actual|, fixed, broken, correct, wrong)
  {
    fixed, broken, correct, wrong := [], [], [], [];
    for i := 0 to |actual|
      invariant Classified(actual, baseline, candidate, i, fixed, broken, correct, wrong)
    {
      ClassifiedNext(actual, baseline, candidate, i, fixed, broken, correct, wrong);
      var baselineCorrect := baseline[i] == actual[i];
      var candidateCorrect := candidate[i] == actual[i];
      if !baselineCorrect && candidateCorrect {
        fixed := fixed + [i];
      } else if baselineCorrect && !candidateCorrect {
        broken := broken + [i];
      } else if baselineCorrect {
        correct := correct + [i];
      } else {
        wrong := wrong + [i];
      }
    }
  }

  /** Every case is in exactly one of the four lists, and the net rates weigh what was fixed against what was broken.
      A case stands for the example the report shows: its id, its input text and its three labels. */
  method ComputePairedComparison(caseIds: seq<string>, actual: seq<string>, baseline: seq<string>, candidate: seq<string>,
                                 inputTexts: seq<string>)
    returns (r: Result<Comparison, string>)
    ensures !(|caseIds| == |actual| == |baseline| == |candidate| == |inputTexts|) ==> r == Failure(MISALIGNED)
    ensures |caseIds| == |actual| == |baseline| == |candidate| == |inputTexts| ==>
      && r.Success?
      && Classified(actual, baseline, candidate, |actual|,
                    r.value.fixed, r.value.broken, r.value.unchangedCorrect, r.value.unchangedWrong)
      && Lists(r.value.fixed, actual, baseline, candidate, |actual|, false, true)
      && Lists(r.value.broken, actual, baseline, candidate, |actual|, true, false)
      && Lists(r.value.unchangedCorrect, actual, baseline, candidate, |actual|, true, true)
      && Lists(r.value.unchangedWrong, actual, baseline, candidate, |actual|, false, false)
      && (r.value.netFixRate.None? <==> r.value.fixed == [] && r.value.broken == [])
      && (r.value.netFixRate.Some? ==>
            r.value.netFixRate.value * (|r.value.fixed| + |r.value.broken|) as real == (|r.value.fixed| - |r.value.broken|) as real)
      && (actual != [] ==> r.value.overallNetFixRate * |actual| as real == (|r.value.fixed| - |r.value.broken|) as real)
  {
    if |caseIds| != |actual| || |actual| != |baseline| || |actual| != |candidate| || |actual| != |inputTexts| {
      return Failure(MISALIGNED);
    }
    var fixed, broken, correct, wrong := ClassifyCases(actual, baseline, candidate);
    ClassifiedMeans(actual, baseline, candidate, fixed, broken, correct, wrong);
    hide Classified, Lists;
    var changed := |fixed| + |broken|;
    var netFixRate := if changed == 0 then None else Some((|fixed| - |broken|) as real / changed as real);
    var overall := if |actual| > 0 then (|fixed| - |broken|) as real / |actual| as real else 0.0;
    r := Success(Comparison(fixed, broken, correct, wrong, netFixRate, overall));
  }

  // ── Regressed labels ─────────────────────────────────────────────────────

  datatype Regression = Regression(
    lab: string,
    support: nat,
    baselineRecall: real,
    candidateRecall: real,
    recallDelta: real,
    baselineF1: real,
    candidateF1: real,
    f1Delta: real,
    newFalseNegatives: nat)

  function FindRow(rows: seq<LabelRow>, lab: string): Option<LabelRow> {
    if rows == [] then None
    else if rows[|rows| - 1].lab == lab then Some(rows[|rows| - 1])
    else FindRow(rows[..|rows| - 1], lab)
  }

  function RegressionOf(b: Option<LabelRow>, c: Option<LabelRow>): Option<Regression> {
    if b.None? || c.None? then None
    else if c.value.recall - b.value.recall >= 0.0 then None
    else Some(Regression(c.value.lab, c.value.support, b.value.recall, c.value.recall,
                         c.value.recall - b.value.recall, b.value.f1, c.value.f1, c.value.f1 - b.value.f1,
                         if c.value.falseNegative > b.value.falseNegative
                         then c.value.falseNegative - b.value.falseNegative else 0))
  }

  /** Order of the report: worst recall loss first, then larger support, then label. */
  predicate RegressionLe(x: Regression, y: Regression) {
    x.recallDelta < y.recallDelta
    || (x.recallDelta == y.recallDelta
        && (x.support > y.support || (x.support == y.support && StringLe(x.lab, y.lab))))
  }

  /** A missed label in one labelling: how often it is actual but not predicted. */
  function Misses(actual: seq<string>, predicted: seq<string>, lab: string): nat
    requires |actual| == |predicted|
  {
    Count(Zip(actual, predicted), FalseNegativeOf(lab))
  }

  lemma {:induction false} FindRowIn(pairs: seq<Pair>, labels: seq<string>, n: nat, lab: string)
    requires Distinct(labels) && n <= |labels|
    ensures FindRow(CountedRows(pairs, labels)[..n], lab) == if lab in labels[..n] then Some(CountedRow(pairs, lab)) else None
  {
    if n > 0 {
      var rows := CountedRows(pairs, labels);
      FindRowIn(pairs, labels, n - 1, lab);
      assert rows[..n][..n - 1] == rows[..n - 1];
      assert labels[..n] == labels[..n - 1] + [labels[n - 1]];
    }
  }

  lemma FindRowPerLabel(actual: seq<string>, predicted: seq<string>, lab: string)
    requires |actual| == |predicted|
    ensures FindRow(PerLabel(actual, predicted), lab)
         == if lab in actual || lab in predicted then Some(CountedRow(Zip(actual, predicted), lab)) else None
  {
    var labels := LabelsOf(actual, predicted);
    FindRowIn(Zip(actual, predicted), labels, |labels|, lab);
    assert labels[..|labels|] == labels;
    assert PerLabel(actual, predicted)[..|labels|] == PerLabel(actual, predicted);
  }

  lemma {:induction false} SameSupport(actual: seq<string>, p: seq<string>, q: seq<string>, n: nat, lab: string)
    requires |actual| == |p| == |q| && n <= |actual|
    ensures Count(Zip(actual, p)[..n], ActualIs(lab)) == Count(Zip(actual, q)[..n], ActualIs(lab))
  {
    if n > 0 {
      SameSupport(actual, p, q, n - 1, lab);
      CountsNext(actual, p, n - 1, ActualIs(lab));
      CountsNext(actual, q, n - 1, ActualIs(lab));
    }
  }

  lemma QuotientTimes(a: real, s: real)
    requires s > 0.0
    ensures (a / s) * s == a
  {
  }

  lemma IsQuotient(x: real, c: real, s: real)
    requires s > 0.0 && x * s == c
    ensures x == c / s
    ensures x < 0.0 <==> c < 0.0
  {
  }

  lemma Distributes(x: real, y: real, s: real)
    ensures (x - y) * s == x * s - y * s
  {
  }

  lemma QuotientDifference(a: real, b: real, s: real)
    requires s > 0.0
    ensures a / s - b / s == (a - b) / s
    ensures a / s - b / s < 0.0 <==> a < b
  {
    QuotientTimes(a, s);
    QuotientTimes(b, s);
    Distributes(a / s, b / s, s);
    IsQuotient(a / s - b / s, a - b, s);
  }

  lemma NegatedQuotient(c: real, s: real)
    requires s > 0.0
    ensures -(c / s) == (-c) / s
  {
    QuotientTimes(c, s);
    Distributes(0.0, c / s, s);
    IsQuotient(0.0 - c / s, -c, s);
  }

  /** With the same support, recall falls exactly when misses rise, and by that share of the support. */
  lemma RecallFallsWithMisses(support: nat, tpB: nat, fnB: nat, tpC: nat, fnC: nat)
    requires tpB + fnB == support && tpC + fnC == support
    ensures Ratio(tpC, support) - Ratio(tpB, support) < 0.0 <==> fnC > fnB
    ensures support > 0 ==> Ratio(tpC, support) - Ratio(tpB, support) == -((fnC - fnB) as real / support as real)
  {
    if support > 0 {
      QuotientDifference(tpC as real, tpB as real, support as real);
      NegatedQuotient((fnC - fnB) as real, support as real);
      assert tpC as real - tpB as real == -((fnC - fnB) as real);
    }
  }

  ghost predicate IsCounted(row: LabelRow) {
    row.support == row.truePositive + row.falseNegative && row.recall == Ratio(row.truePositive, row.support)
  }

  lemma RowsRegress(b: LabelRow, c: LabelRow)
    requires IsCounted(b) && IsCounted(c) && b.support == c.support
    ensures var r := RegressionOf(Some(b), Some(c));
            && (r.Some? <==> c.falseNegative > b.falseNegative)
            && (r.Some? ==>
                  && r.value.newFalseNegatives == c.falseNegative - b.falseNegative && r.value.support == c.support > 0
                  && r.value.recallDelta == -(r.value.newFalseNegatives as real / r.value.support as real))
  {
    RecallFallsWithMisses(b.support, b.truePositive, b.falseNegative, c.truePositive, c.falseNegative);
  }

  function RegressionAt(actual: seq<string>, baseline: seq<string>, candidate: seq<string>,
                        lab: string): Option<Regression>
    requires |actual| == |baseline| == |candidate|
  {
    RegressionOf(FindRow(PerLabel(actual, baseline), lab), FindRow(PerLabel(actual, candidate), lab))
  }

  lemma CountedRowIsCounted(actual: seq<string>, predicted: seq<string>, lab: string)
    requires |actual| == |predicted|
    ensures IsCounted(CountedRow(Zip(actual, predicted), lab))
    ensures lab !in actual ==> Misses(actual, predicted, lab) == 0
  {
    LabelCounts(Zip(actual, predicted), lab);
    CountPositive(Zip(actual, predicted), FalseNegativeOf(lab));
  }

  lemma RegressionAtCounts(actual: seq<string>, baseline: seq<string>, candidate: seq<string>, lab: string)
    requires |actual| == |baseline| == |candidate|
    ensures RegressionAt(actual, baseline, candidate, lab) ==
      if lab in actual || (lab in baseline && lab in candidate)
      then RegressionOf(Some(CountedRow(Zip(actual, baseline), lab)), Some(CountedRow(Zip(actual, candidate), lab)))
      else None
  {
    FindRowPerLabel(actual, baseline, lab);
    FindRowPerLabel(actual, candidate, lab);
  }

  /** A label regresses exactly when its misses rise; the row then reports at least one new miss and the
      recall lost is that many out of its support. */
  lemma RegressionIff(actual: seq<string>, baseline: seq<string>, candidate: seq<string>, lab: string)
    requires |actual| == |baseline| == |candidate|
    ensures var r := RegressionAt(actual, baseline, candidate, lab);
            var b, c := Misses(actual, baseline, lab), Misses(actual, candidate, lab);
            && (r.Some? <==> c > b)
            && (r.Some? ==>
                  && r.value.lab == lab && r.value.newFalseNegatives == c - b && r.value.newFalseNegatives >= 1
                  && r.value.support > 0
                  && r.value.recallDelta == -(r.value.newFalseNegatives as real / r.value.support as real))
  {
    var pb, pc := Zip(actual, baseline), Zip(actual, candidate);
    CountedRowIsCounted(actual, baseline, lab);
    CountedRowIsCounted(actual, candidate, lab);
    SameSupport(actual, baseline, candidate, |actual|, lab);
    assert pb[..|actual|] == pb && pc[..|actual|] == pc;
    RegressionAtCounts(actual, baseline, candidate, lab);
    RowsRegress(CountedRow(pb, lab), CountedRow(pc, lab));
  }

  /** All regressions, in the order in which the loop meets their labels. */
  function RegressionsIn(b: seq<LabelRow>, c: seq<LabelRow>, labels: seq<string>): seq<Regression> {
    if labels == [] then []
    else
      var lab := labels[|labels| - 1];
      var rest := RegressionsIn(b, c, labels[..|labels| - 1]);
      var r := RegressionOf(FindRow(b, lab), FindRow(c, lab));
      if r.Some? then rest + [r.value] else rest
  }

  function Regressions(actual: seq<string>, baseline: seq<string>, candidate: seq<string>,
                       labels: seq<string>): seq<Regression>
    requires |actual| == |baseline| == |candidate|
  {
    RegressionsIn(PerLabel(actual, baseline), PerLabel(actual, candidate), labels)
  }

  method CollectRegressions(b: seq<LabelRow>, c: seq<LabelRow>, labels: seq<string>)
    returns (regressed: seq<Regression>)
    ensures regressed == RegressionsIn(b, c, labels)
  {
    regressed := [];
    for i := 0 to |labels|
      invariant regressed == RegressionsIn(b, c, labels[..i])
    {
      assert labels[..i + 1][..i] == labels[..i];
      var baselineRow, candidateRow := FindRow(b, labels[i]), FindRow(c, labels[i]);
      if baselineRow.None? || candidateRow.None? {
        continue;
      }
      var recallDelta := candidateRow.value.recall - baselineRow.value.recall;
      if recallDelta >= 0.0 {
        continue;
      }
      regressed := regressed + [RegressionOf(baselineRow, candidateRow).value];
    }
    assert labels[..|labels|] == labels;
  }

  method ComputeRegressedLabels(caseIds: seq<string>, actual: seq<string>, baseline: seq<string>, candidate: seq<string>)
    returns (r: Result<seq<Regression>, string>)
    ensures !(|caseIds| == |actual| == |baseline| == |candidate|) ==> r == Failure(MISALIGNED)
    ensures |caseIds| == |actual| == |baseline| == |candidate| ==>
      r == Success(Sort(RegressionLe, Regressions(actual, baseline, candidate, SortedSet(actual + baseline + candidate))))
  {
    if |caseIds| != |actual| || |actual| != |baseline| || |actual| != |candidate| {
      return Failure(MISALIGNED);
    }
    var baselineRows := ComputePerLabelMetrics(actual, baseline);
    var candidateRows := ComputePerLabelMetrics(actual, candidate);
    var regressed := CollectRegressions(baselineRows.value, candidateRows.value, SortedSet(actual + baseline + candidate));
    r := Success(Sort(RegressionLe, regressed));
  }

  lemma {:induction false} RegressionsIff(
      actual: seq<string>, baseline: seq<string>, candidate: seq<string>, labels: seq<string>, lab: string)
    requires |actual| == |baseline| == |candidate|
    ensures (exists r :: r in Regressions(actual, baseline, candidate, labels) && r.lab == lab)
       <==> lab in labels && Misses(actual, candidate, lab) > Misses(actual, baseline, lab)
  {
    if labels != [] {
      var init, last := labels[..|labels| - 1], labels[|labels| - 1];
      assert labels == init + [last];
      RegressionsIff(actual, baseline, candidate, init, lab);
      RegressionIff(actual, baseline, candidate, last);
      var all, rest := Regressions(actual, baseline, candidate, labels), Regressions(actual, baseline, candidate, init);
      forall r | r in rest ensures r in all {}
      if last == lab && Misses(actual, candidate, lab) > Misses(actual, baseline, lab) {
        assert all[|all| - 1] in all;
      }
    }
  }

  /** The reported labels are exactly those whose false negatives rose. */
  lemma RegressedExactly(actual: seq<string>, baseline: seq<string>, candidate: seq<string>, lab: string)
    requires |actual| == |baseline| == |candidate|
    ensures var rows := Sort(RegressionLe,
              Regressions(actual, baseline, candidate, SortedSet(actual + baseline + candidate)));
            (exists r :: r in rows && r.lab == lab) <==> Misses(actual, candidate, lab) > Misses(actual, baseline, lab)
  {
    var labels := SortedSet(actual + baseline + candidate);
    var found := Regressions(actual, baseline, candidate, labels);
    RegressionsIff(actual, baseline, candidate, labels, lab);
    SameElements(found, Sort(RegressionLe, found));
    if lab !in labels {
      assert forall x :: x in actual ==> x in actual + baseline + candidate;
      CountPositive(Zip(actual, candidate), FalseNegativeOf(lab));
    }
  }

  lemma RegressionLeIsPreorder()
    ensures TotalPreorder(RegressionLe)
  {
    StringLeIsTotalOrder();
  }

  /** The report starts with the worst loss of recall; at equal loss the label with more cases comes first, and then the
      lesser name. */
  lemma ReportIsOrdered(regressions: seq<Regression>, i: nat, j: nat)
    requires i < j < |regressions|
    ensures var rows := Sort(RegressionLe, regressions);
            && |rows| == |regressions| && multiset(rows) == multiset(regressions)
            && rows[i].recallDelta <= rows[j].recallDelta
            && (rows[i].recallDelta == rows[j].recallDelta ==>
                  && rows[i].support >= rows[j].support
                  && (rows[i].support == rows[j].support ==> StringLe(rows[i].lab, rows[j].lab)))
  {
    RegressionLeIsPreorder();
    SortSorts(RegressionLe, regressions);
    SameElements(regressions, Sort(RegressionLe, regressions));
    assert RegressionLe(Sort(RegressionLe, regressions)[i], Sort(RegressionLe, regressions)[j]);
  }

  /** A reported row shows the recall and F1 of its label before and now. */
  lemma RegressionShows(actual: seq<string>, baseline: seq<string>, candidate: seq<string>, lab: string)
    requires |actual| == |baseline| == |candidate| && RegressionAt(actual, baseline, candidate, lab).Some?
    ensures var r := RegressionAt(actual, baseline, candidate, lab).value;
            var b, c := CountedRow(Zip(actual, baseline), lab), CountedRow(Zip(actual, candidate), lab);
            && r.lab == lab && r.support == c.support && r.baselineRecall == b.recall && r.candidateRecall == c.recall
            && r.baselineF1 == b.f1 && r.candidateF1 == c.f1 && r.f1Delta == c.f1 - b.f1
            && r.recallDelta == r.candidateRecall - r.baselineRecall < 0.0
  {
    RegressionAtCounts(actual, baseline, candidate, lab);
  }

  // ── Every new miss is a broken case ──────────────────────────────────────

  function BrokenCount(actual: seq<string>, baseline: seq<string>, candidate: seq<string>, n: nat,
                       lab: Option<string>): nat
    requires n <= |actual| && |actual| == |baseline| == |candidate|
  {
    if n == 0 then 0
    else BrokenCount(actual, baseline, candidate, n - 1, lab)
         + Bit(Classify(actual[n - 1], baseline[n - 1], candidate[n - 1]) == Broken
               && (lab.None? || lab.value == actual[n - 1]))
  }

  function BrokenOf(actual: seq<string>, baseline: seq<string>, candidate: seq<string>, n: nat): string -> nat
    requires n <= |actual| && |actual| == |baseline| == |candidate|
  {
    (lab: string) => BrokenCount(actual, baseline, candidate, n, Some(lab))
  }

  lemma {:induction false} BrokenCountIsLength(actual: seq<string>, baseline: seq<string>, candidate: seq<string>,
                                               n: nat)
    requires n <= |actual| && |actual| == |baseline| == |candidate|
    ensures BrokenCount(actual, baseline, candidate, n, None) == |OfClass(actual, baseline, candidate, n, Broken)|
  {
    if n > 0 {
      BrokenCountIsLength(actual, baseline, candidate, n - 1);
    }
  }

  lemma {:induction false} NewMissesAreBroken(
      actual: seq<string>, baseline: seq<string>, candidate: seq<string>, n: nat, lab: string)
    requires n <= |actual| && |actual| == |baseline| == |candidate|
    ensures Count(Zip(actual, candidate)[..n], FalseNegativeOf(lab))
         <= Count(Zip(actual, baseline)[..n], FalseNegativeOf(lab)) + BrokenCount(actual, baseline, candidate, n, Some(lab))
  {
    if n > 0 {
      NewMissesAreBroken(actual, baseline, candidate, n - 1, lab);
      CountsNext(actual, candidate, n - 1, FalseNegativeOf(lab));
      CountsNext(actual, baseline, n - 1, FalseNegativeOf(lab));
    }
  }

  lemma {:induction false} BrokenByLabel(
      actual: seq<string>, baseline: seq<string>, candidate: seq<string>, n: nat, labels: seq<string>)
    requires n <= |actual| && |actual| == |baseline| == |candidate| && Distinct(labels)
    ensures SumOver(labels, BrokenOf(actual, baseline, candidate, n)) <= BrokenCount(actual, baseline, candidate, n, None)
  {
    if n == 0 {
      SumZero(labels, BrokenOf(actual, baseline, candidate, n));
    } else {
      BrokenByLabel(actual, baseline, candidate, n - 1, labels);
      SumBump(labels, BrokenOf(actual, baseline, candidate, n - 1), BrokenOf(actual, baseline, candidate, n), actual[n - 1]);
    }
  }

  function NewMissTotal(rows: seq<Regression>): nat {
    if rows == [] then 0 else NewMissTotal(rows[..|rows| - 1]) + rows[|rows| - 1].newFalseNegatives
  }

  lemma NewMissTotalNext(actual: seq<string>, baseline: seq<string>, candidate: seq<string>, labels: seq<string>)
    requires |actual| == |baseline| == |candidate| && labels != []
    ensures var init, last := labels[..|labels| - 1], labels[|labels| - 1];
            var r := RegressionAt(actual, baseline, candidate, last);
            NewMissTotal(Regressions(actual, baseline, candidate, labels))
            == NewMissTotal(Regressions(actual, baseline, candidate, init)) + if r.Some? then r.value.newFalseNegatives else 0
  {
    var init := labels[..|labels| - 1];
    var rest, all := Regressions(actual, baseline, candidate, init), Regressions(actual, baseline, candidate, labels);
    assert all != rest ==> all[..|all| - 1] == rest;
  }

  lemma NewMissesOfLabel(actual: seq<string>, baseline: seq<string>, candidate: seq<string>, lab: string)
    requires |actual| == |baseline| == |candidate|
    ensures var r := RegressionAt(actual, baseline, candidate, lab);
            (if r.Some? then r.value.newFalseNegatives else 0) <= BrokenOf(actual, baseline, candidate, |actual|)(lab)
  {
    hide RegressionAt, Count, BrokenCount;
    RegressionIff(actual, baseline, candidate, lab);
    NewMissesAreBroken(actual, baseline, candidate, |actual|, lab);
    assert Zip(actual, baseline)[..|actual|] == Zip(actual, baseline);
    assert Zip(actual, candidate)[..|actual|] == Zip(actual, candidate);
  }

  lemma {:induction false} NewMissTotalBound(
      actual: seq<string>, baseline: seq<string>, candidate: seq<string>, labels: seq<string>)
    requires |actual| == |baseline| == |candidate|
    ensures NewMissTotal(Regressions(actual, baseline, candidate, labels))
         <= SumOver(labels, BrokenOf(actual, baseline, candidate, |actual|))
  {
    if labels == [] {
      assert NewMissTotal(Regressions(actual, baseline, candidate, labels)) == 0;
    } else {
      NewMissTotalBound(actual, baseline, candidate, labels[..|labels| - 1]);
      NewMissesOfLabel(actual, baseline, candidate, labels[|labels| - 1]);
      NewMissTotalNext(actual, baseline, candidate, labels);
      hide Regressions, NewMissTotal, RegressionAt, BrokenOf;
    }
  }

  /** New misses over all regressed labels are accounted for by broken cases: they never exceed the
      broken count, so with nothing broken no label regresses. */
  lemma RegressionsAccountedFor(actual: seq<string>, baseline: seq<string>, candidate: seq<string>)
    requires |actual| == |baseline| == |candidate|
    ensures var found := Regressions(actual, baseline, candidate, SortedSet(actual + baseline + candidate));
            var broken := |OfClass(actual, baseline, candidate, |actual|, Broken)|;
            && NewMissTotal(found) <= broken
            && (broken == 0 ==> found == [])
  {
    var labels := SortedSet(actual + baseline + candidate);
    var found := Regressions(actual, baseline, candidate, labels);
    NewMissTotalBound(actual, baseline, candidate, labels);
    BrokenByLabel(actual, baseline, candidate, |actual|, labels);
    BrokenCountIsLength(actual, baseline, candidate, |actual|);
    EachCostsOne(actual, baseline, candidate, labels);
  }

  lemma {:induction false} EachCostsOne(
      actual: seq<string>, baseline: seq<string>, candidate: seq<string>, labels: seq<string>)
    requires |actual| == |baseline| == |candidate|
    ensures |Regressions(actual, baseline, candidate, labels)| <= NewMissTotal(Regressions(actual, baseline, candidate, labels))
  {
    if labels != [] {
      var init, last := labels[..|labels| - 1], labels[|labels| - 1];
      EachCostsOne(actual, baseline, candidate, init);
      RegressionIff(actual, baseline, candidate, last);
      var rest := Regressions(actual, baseline, candidate, init);
      var all := Regressions(actual, baseline, candidate, labels);
      assert all != rest ==> all[..|all| - 1] == rest;
    }
  }
}
