/** Scoring one case and weighting the cases, `src/rulekiln/pipeline/evaluator.py`. */
module CaseScores {
  import opened Wrappers
  import opened Rules
  import opened Strings

  datatype Value = Str(s: string) | Int(i: int) | Num(x: real) | Bool(b: bool) | Null

  datatype Output = Text(text: string) | Fields(fields: map<string, Value>)

  datatype Kind = MustEqual | MustInclude | MustNotInclude | MustMatchRegex | Other

  datatype Assertion = Assertion(kind: Kind, value: Value, path: string, weight: real)

  datatype Case = Case(id: string, assertions: seq<Assertion>, weight: real)

  datatype CaseResult = CaseResult(
    caseId: string,
    score: real,
    passed: bool,
    malformed: bool,
    assertionScores: map<string, real>,
    actual: Option<Output>,
    error: Option<string>)

  /** What an assertion looks at: the whole output, or one field of it. */
  datatype Target = Whole(output: Output) | Leaf(value: Value)

  /** Python's equality, `str` and regular expressions; `matches` is asked only for patterns that compile. */
  datatype Library = Library(
    equal: (Target, Value) -> bool,
    textOf: Target -> string,
    textOfValue: Value -> string,
    compiles: string -> bool,
    matches: (string, string) -> bool)

  function Split(path: string): (parts: seq<string>)
    ensures |parts| >= 1 && (|parts| == 1 <==> '.' !in path)
  {
    if path == "" then [""]
    else
      var rest := Split(path[1..]);
      assert path == [path[0]] + path[1..];
      if path[0] == '.' then [""] + rest else [[path[0]] + rest[0]] + rest[1..]
  }

  function Resolve(target: Target, parts: seq<string>): Option<Target>
    decreases |parts|
  {
    if parts == [] then Some(target)
    else if target.Whole? && target.output.Fields? && parts[0] in target.output.fields then
      Resolve(Leaf(target.output.fields[parts[0]]), parts[1..])
    else None
  }

  function Resolved(actual: Output, path: string): Option<Target> {
    if path != "" && actual.Fields? then Resolve(Whole(actual), Split(path)) else Some(Whole(actual))
  }

  /** Scoring raises on a pattern that does not compile, once there is something to match it against. */
  predicate Raises(lib: Library, a: Assertion, actual: Output) {
    a.kind == MustMatchRegex && Resolved(actual, a.path).Some? && !lib.compiles(lib.textOfValue(a.value))
  }

  function ScoreAssertion(lib: Library, a: Assertion, actual: Output): real {
    var target := Resolved(actual, a.path);
    if target.None? then 0.0
    else
      match a.kind
      case MustEqual => if lib.equal(target.value, a.value) then 1.0 else 0.0
      case MustInclude => if Contains(lib.textOf(target.value), lib.textOfValue(a.value)) then 1.0 else 0.0
      case MustNotInclude => if !Contains(lib.textOf(target.value), lib.textOfValue(a.value)) then 1.0 else 0.0
      case MustMatchRegex => if lib.matches(lib.textOfValue(a.value), lib.textOf(target.value)) then 1.0 else 0.0
      case Other => 1.0
  }

  /** Outputs are flat, so an assertion with a dotted path fails on every structured output, whatever its kind. */
  lemma DottedPathFails(lib: Library, a: Assertion, actual: Output)
    requires actual.Fields? && '.' in a.path
    ensures ScoreAssertion(lib, a, actual) == 0.0
  {
    var parts := Split(a.path);
    if parts[0] in actual.fields {
      assert Resolve(Leaf(actual.fields[parts[0]]), parts[1..]) == None;
    }
  }

  // ── What it means to pass ────────────────────────────────────────────────

  /** What a path leads to: a text has no parts and is looked at as a whole, as is every output without a path; a field
      is found by its whole name, which a dot would split. */
  ghost predicate LooksAt(actual: Output, path: string, target: Target) {
    if path == "" || actual.Text? then target == Whole(actual)
    else '.' !in path && path in actual.fields && target == Leaf(actual.fields[path])
  }

  ghost predicate Satisfies(lib: Library, kind: Kind, value: Value, target: Target) {
    match kind
    case MustEqual => lib.equal(target, value)
    case MustInclude => Includes(lib.textOf(target), lib.textOfValue(value))
    case MustNotInclude => !Includes(lib.textOf(target), lib.textOfValue(value))
    case MustMatchRegex => lib.matches(lib.textOfValue(value), lib.textOf(target))
    case Other => true
  }

  ghost predicate Holds(lib: Library, a: Assertion, actual: Output) {
    exists target :: LooksAt(actual, a.path, target) && Satisfies(lib, a.kind, a.value, target)
  }

  lemma {:induction false} SplitPlain(path: string)
    requires '.' !in path
    ensures Split(path) == [path]
  {
    if path != "" {
      SplitPlain(path[1..]);
      assert path == [path[0]] + path[1..];
    }
  }

  lemma ResolvedMeans(actual: Output, path: string, target: Target)
    ensures Resolved(actual, path) == Some(target) <==> LooksAt(actual, path, target)
  {
    if path != "" && actual.Fields? {
      if '.' in path {
        var parts := Split(path);
        if parts[0] in actual.fields {
          assert Resolve(Leaf(actual.fields[parts[0]]), parts[1..]) == None;
        }
      } else {
        SplitPlain(path);
        if path in actual.fields {
          assert [path][1..] == [];
          assert Resolve(Leaf(actual.fields[path]), [path][1..]) == Some(Leaf(actual.fields[path]));
        }
      }
    }
  }

  /** An assertion scores one if what its path leads to is as it says, and zero if not or if it leads nowhere. */
  lemma ScoreMeans(lib: Library, a: Assertion, actual: Output)
    ensures ScoreAssertion(lib, a, actual) == if Holds(lib, a, actual) then 1.0 else 0.0
  {
    hide Resolved, LooksAt, Contains, Includes;
    forall target ensures Resolved(actual, a.path) == Some(target) <==> LooksAt(actual, a.path, target) {
      ResolvedMeans(actual, a.path, target);
    }
    var target := Resolved(actual, a.path);
    if target.Some? {
      ContainsIff(lib.textOf(target.value), lib.textOfValue(a.value));
      assert LooksAt(actual, a.path, target.value);
    }
  }

  // ── One case ─────────────────────────────────────────────────────────────

  function TotalWeight(assertions: seq<Assertion>): real {
    if assertions == [] then 0.0
    else TotalWeight(assertions[..|assertions| - 1]) + assertions[|assertions| - 1].weight
  }

  function WeightedSum(lib: Library, assertions: seq<Assertion>, actual: Output): real {
    if assertions == [] then 0.0
    else
      var last := assertions[|assertions| - 1];
      WeightedSum(lib, assertions[..|assertions| - 1], actual) + ScoreAssertion(lib, last, actual) * last.weight
  }

  function ScoreKey(i: nat): string { "assertion_" + Decimal(i) }

  lemma ScoreKeyInjective(i: nat, j: nat)
    requires ScoreKey(i) == ScoreKey(j)
    ensures i == j
  {
    var prefix := "assertion_";
    assert ScoreKey(i)[|prefix|..] == Decimal(i) && ScoreKey(j)[|prefix|..] == Decimal(j);
    DecimalInjective(i, j);
  }

  function AssertionScores(lib: Library, assertions: seq<Assertion>, actual: Output): map<string, real> {
    if assertions == [] then map[]
    else
      var n := |assertions| - 1;
      AssertionScores(lib, assertions[..n], actual)[ScoreKey(n) := ScoreAssertion(lib, assertions[n], actual)]
  }

  function FinalScore(lib: Library, c: Case, actual: Output): real {
    if TotalWeight(c.assertions) > 0.0 then WeightedSum(lib, c.assertions, actual) / TotalWeight(c.assertions) else 1.0
  }

  datatype Reply = Reply(actual: Option<Output>, malformed: bool)

  function Scored(lib: Library, c: Case, reply: Reply): CaseResult {
    if reply.malformed || reply.actual.None? then CaseResult(c.id, 0.0, false, true, map[], reply.actual, None)
    else
      var score := FinalScore(lib, c, reply.actual.value);
      CaseResult(c.id, score, score >= 1.0, false, AssertionScores(lib, c.assertions, reply.actual.value), reply.actual, None)
  }

  /** The answer to a case cannot be scored: one of its assertions raises. */
  predicate ScoringRaises(lib: Library, c: Case, reply: Reply) {
    !reply.malformed && reply.actual.Some? && exists a | a in c.assertions :: Raises(lib, a, reply.actual.value)
  }

  predicate CompilesIn(lib: Library, a: Assertion) {
    a.kind == MustMatchRegex ==> lib.compiles(lib.textOfValue(a.value))
  }

  /** What an author can check before a job: every pattern of every case compiles. */
  predicate PatternsCompile(lib: Library, cases: seq<Case>) {
    forall i | 0 <= i < |cases| :: forall a | a in cases[i].assertions :: CompilesIn(lib, a)
  }

  lemma CompilingNeverRaises(lib: Library, cases: seq<Case>, c: Case, reply: Reply)
    requires PatternsCompile(lib, cases) && c in cases
    ensures !ScoringRaises(lib, c, reply)
  {
    var i :| 0 <= i < |cases| && cases[i] == c;
    assert forall a | a in cases[i].assertions :: CompilesIn(lib, a);
  }

  lemma BadPattern(lib: Library, cases: seq<Case>) returns (i: nat)
    requires !PatternsCompile(lib, cases)
    ensures i < |cases| && exists a | a in cases[i].assertions :: !CompilesIn(lib, a)
  {
    i :| 0 <= i < |cases| && !forall a | a in cases[i].assertions :: CompilesIn(lib, a);
  }

  function TextReply(): Reply { Reply(Some(Text("")), false) }

  /** There is something to match in every text, so a pattern that does not compile raises on it. */
  lemma BadPatternRaises(lib: Library, c: Case)
    requires exists a | a in c.assertions :: !CompilesIn(lib, a)
    ensures ScoringRaises(lib, c, TextReply())
  {
    var a :| a in c.assertions && !CompilesIn(lib, a);
    assert Raises(lib, a, Text(""));
  }

  /** The sums after the first n assertions, none of which raised. */
  ghost predicate SummedUpTo(lib: Library, assertions: seq<Assertion>, actual: Output, n: nat,
                             scores: map<string, real>, total: real, sum: real)
    requires n <= |assertions|
  {
    && scores == AssertionScores(lib, assertions[..n], actual)
    && total == TotalWeight(assertions[..n]) && sum == WeightedSum(lib, assertions[..n], actual)
    && forall j :: 0 <= j < n ==> !Raises(lib, assertions[j], actual)
  }

  lemma SummedAtStart(lib: Library, assertions: seq<Assertion>, actual: Output)
    ensures SummedUpTo(lib, assertions, actual, 0, map[], 0.0, 0.0)
  {
    assert |assertions[..0]| == 0;
  }

  lemma SummedNext(lib: Library, assertions: seq<Assertion>, actual: Output, n: nat,
                   scores: map<string, real>, total: real, sum: real)
    requires n < |assertions| && SummedUpTo(lib, assertions, actual, n, scores, total, sum)
    requires !Raises(lib, assertions[n], actual)
    ensures var score := ScoreAssertion(lib, assertions[n], actual);
            SummedUpTo(lib, assertions, actual, n + 1, scores[ScoreKey(n) := score], total + assertions[n].weight,
                       sum + score * assertions[n].weight)
  {
    hide Raises, ScoreAssertion, ScoreKey;
    assert assertions[..n + 1][..n] == assertions[..n];
  }

  /** An assertion raises on an answer: it matches a pattern that does not compile against something. */
  ghost predicate Breaks(lib: Library, a: Assertion, actual: Output) {
    && a.kind == MustMatchRegex && !lib.compiles(lib.textOfValue(a.value))
    && exists target :: LooksAt(actual, a.path, target)
  }

  lemma RaisesIff(lib: Library, a: Assertion, actual: Output)
    ensures Raises(lib, a, actual) <==> Breaks(lib, a, actual)
  {
    hide Resolved, LooksAt;
    forall target ensures Resolved(actual, a.path) == Some(target) <==> LooksAt(actual, a.path, target) {
      ResolvedMeans(actual, a.path, target);
    }
    if Resolved(actual, a.path).Some? {
      assert LooksAt(actual, a.path, Resolved(actual, a.path).value);
    }
  }

  lemma ScoringRaisesIff(lib: Library, c: Case, reply: Reply)
    ensures ScoringRaises(lib, c, reply) <==> WellFormed(reply) && exists a :: a in c.assertions && Breaks(lib, a, reply.actual.value)
  {
    hide Raises, Breaks;
    if WellFormed(reply) {
      forall a ensures Raises(lib, a, reply.actual.value) <==> Breaks(lib, a, reply.actual.value) {
        RaisesIff(lib, a, reply.actual.value);
      }
    }
  }

  /** `None` stands for the exception, raised exactly when some assertion has a pattern that does not compile and
      something to match. */
  method ScoreCase(lib: Library, c: Case, reply: Reply) returns (result: Option<CaseResult>)
    ensures result == if ScoringRaises(lib, c, reply) then None else Some(Scored(lib, c, reply))
    ensures result.None? <==> WellFormed(reply) && exists a :: a in c.assertions && Breaks(lib, a, reply.actual.value)
    ensures result.Some? ==> Judges(lib, c, reply, result.value)
  {
    hide Raises, ScoreAssertion, ScoreKey, Judges, Breaks;
    ScoredJudges(lib, c, reply);
    ScoringRaisesIff(lib, c, reply);
    if reply.malformed || reply.actual.None? {
      return Some(CaseResult(c.id, 0.0, false, true, map[], reply.actual, None));
    }
    var actual := reply.actual.value;
    var assertionScores, totalWeight, weightedSum := map[], 0.0, 0.0;
    SummedAtStart(lib, c.assertions, actual);
    for i := 0 to |c.assertions|
      invariant SummedUpTo(lib, c.assertions, actual, i, assertionScores, totalWeight, weightedSum)
    {
      if Raises(lib, c.assertions[i], actual) {
        assert c.assertions[i] in c.assertions;
        return None;
      }
      SummedNext(lib, c.assertions, actual, i, assertionScores, totalWeight, weightedSum);
      var score := ScoreAssertion(lib, c.assertions[i], actual);
      assertionScores := assertionScores[ScoreKey(i) := score];
      weightedSum := weightedSum + score * c.assertions[i].weight;
      totalWeight := totalWeight + c.assertions[i].weight;
    }
    assert c.assertions[..|c.assertions|] == c.assertions;
    var finalScore := if totalWeight > 0.0 then weightedSum / totalWeight else 1.0;
    return Some(CaseResult(c.id, finalScore, finalScore >= 1.0, false, assertionScores, Some(actual), None));
  }

  lemma {:induction false} RecordedKeys(lib: Library, assertions: seq<Assertion>, actual: Output)
    ensures forall key :: key in AssertionScores(lib, assertions, actual) ==> exists i :: 0 <= i < |assertions| && key == ScoreKey(i)
  {
    if assertions != [] {
      var n := |assertions| - 1;
      RecordedKeys(lib, assertions[..n], actual);
      forall key | key in AssertionScores(lib, assertions, actual) ensures exists i :: 0 <= i < |assertions| && key == ScoreKey(i) {
        assert key == ScoreKey(n) || key in AssertionScores(lib, assertions[..n], actual);
      }
    }
  }

  /** Each assertion has a key of its own: as many scores are recorded as there are assertions. */
  lemma {:induction false} EveryAssertionRecorded(lib: Library, assertions: seq<Assertion>, actual: Output)
    ensures |AssertionScores(lib, assertions, actual)| == |assertions|
  {
    if assertions != [] {
      var n := |assertions| - 1;
      EveryAssertionRecorded(lib, assertions[..n], actual);
      RecordedKeys(lib, assertions[..n], actual);
      if ScoreKey(n) in AssertionScores(lib, assertions[..n], actual) {
        var i :| 0 <= i < n && ScoreKey(n) == ScoreKey(i);
        ScoreKeyInjective(i, n);
      }
    }
  }

  lemma {:induction false} RecordedScore(lib: Library, assertions: seq<Assertion>, actual: Output, i: nat)
    requires i < |assertions|
    ensures ScoreKey(i) in AssertionScores(lib, assertions, actual)
    ensures AssertionScores(lib, assertions, actual)[ScoreKey(i)] == ScoreAssertion(lib, assertions[i], actual)
  {
    var n := |assertions| - 1;
    if i < n {
      RecordedScore(lib, assertions[..n], actual, i);
      if ScoreKey(i) == ScoreKey(n) {
        ScoreKeyInjective(i, n);
      }
    }
  }

  /** The assertions that hold. */
  ghost function Holding(lib: Library, assertions: seq<Assertion>, actual: Output): seq<Assertion> {
    if assertions == [] then []
    else
      var last := assertions[|assertions| - 1];
      Holding(lib, assertions[..|assertions| - 1], actual) + if Holds(lib, last, actual) then [last] else []
  }

  lemma TotalWeightNext(assertions: seq<Assertion>, a: Assertion)
    ensures TotalWeight(assertions + [a]) == TotalWeight(assertions) + a.weight
  {
    assert (assertions + [a])[..|assertions|] == assertions;
  }

  lemma WeightedSumNext(lib: Library, assertions: seq<Assertion>, a: Assertion, actual: Output)
    ensures WeightedSum(lib, assertions + [a], actual) == WeightedSum(lib, assertions, actual) + ScoreAssertion(lib, a, actual) * a.weight
    ensures Holding(lib, assertions + [a], actual) == Holding(lib, assertions, actual) + if Holds(lib, a, actual) then [a] else []
  {
    hide ScoreAssertion, Holds;
    assert (assertions + [a])[..|assertions|] == assertions;
  }

  lemma NothingWeighs(lib: Library, assertions: seq<Assertion>, actual: Output)
    requires assertions == []
    ensures WeightedSum(lib, assertions, actual) == 0.0 && TotalWeight(Holding(lib, assertions, actual)) == 0.0
  {
  }

  /** The weighted sum is the weight of what holds. */
  lemma {:induction false} WeightedSumMeans(lib: Library, assertions: seq<Assertion>, actual: Output)
    ensures WeightedSum(lib, assertions, actual) == TotalWeight(Holding(lib, assertions, actual))
  {
    hide ScoreAssertion, Holds, WeightedSum, Holding, TotalWeight;
    if assertions == [] {
      NothingWeighs(lib, assertions, actual);
    } else {
      var init, last := assertions[..|assertions| - 1], assertions[|assertions| - 1];
      WeightedSumMeans(lib, init, actual);
      assert assertions == init + [last];
      WeightedSumNext(lib, init, last, actual);
      ScoreMeans(lib, last, actual);
      TotalWeightNext(Holding(lib, init, actual), last);
      assert Holding(lib, init, actual) + [] == Holding(lib, init, actual);
    }
  }

  ghost predicate WellFormed(reply: Reply) { !reply.malformed && reply.actual.Some? }

  /** What a result says about an answer: a malformed one scores zero, any other one the share of the weight whose
      assertions hold; each assertion is on record; and the case passes exactly if every assertion that carries weight
      holds. */
  ghost predicate Judges(lib: Library, c: Case, reply: Reply, result: CaseResult) {
    && result.caseId == c.id && result.actual == reply.actual && result.error == None
    && (result.malformed <==> !WellFormed(reply))
    && (!WellFormed(reply) ==> result.score == 0.0 && !result.passed && result.assertionScores == map[])
    && (WellFormed(reply) ==>
          && (if TotalWeight(c.assertions) > 0.0
              then result.score == TotalWeight(Holding(lib, c.assertions, reply.actual.value)) / TotalWeight(c.assertions)
              else result.score == 1.0)
          && |result.assertionScores| == |c.assertions|
          && (forall i :: 0 <= i < |c.assertions| ==> Records(lib, c, reply.actual.value, result, i))
          && (WeightsNonNegative(c.assertions) ==>
                (result.passed <==> forall a :: a in c.assertions && a.weight > 0.0 ==> Holds(lib, a, reply.actual.value))))
  }

  ghost predicate Records(lib: Library, c: Case, actual: Output, result: CaseResult, i: nat)
    requires i < |c.assertions|
  {
    && "assertion_" + Decimal(i) in result.assertionScores
    && result.assertionScores["assertion_" + Decimal(i)] == if Holds(lib, c.assertions[i], actual) then 1.0 else 0.0
  }

  ghost predicate WeightsNonNegative(assertions: seq<Assertion>) {
    forall a :: a in assertions ==> a.weight >= 0.0
  }

  /** The weighted sum falls short of the total weight exactly by what failed. */
  lemma {:induction false} WeightedSumBounds(lib: Library, assertions: seq<Assertion>, actual: Output)
    requires WeightsNonNegative(assertions)
    ensures 0.0 <= WeightedSum(lib, assertions, actual) <= TotalWeight(assertions)
    ensures WeightedSum(lib, assertions, actual) == TotalWeight(assertions) <==>
      forall a :: a in assertions && a.weight > 0.0 ==> ScoreAssertion(lib, a, actual) == 1.0
  {
    if assertions != [] {
      var init, last := assertions[..|assertions| - 1], assertions[|assertions| - 1];
      assert assertions == init + [last];
      WeightedSumBounds(lib, init, actual);
      assert ScoreAssertion(lib, last, actual) == 0.0 || ScoreAssertion(lib, last, actual) == 1.0;
    }
  }

  /** With non-negative weights the score is in [0, 1], and a well-formed output passes exactly when every
      assertion that carries weight does. */
  lemma CaseScoreBounds(lib: Library, c: Case, reply: Reply)
    requires WeightsNonNegative(c.assertions)
    ensures 0.0 <= Scored(lib, c, reply).score <= 1.0
    ensures Scored(lib, c, reply).passed <==>
      !reply.malformed && reply.actual.Some?
      && forall a :: a in c.assertions && a.weight > 0.0 ==> ScoreAssertion(lib, a, reply.actual.value) == 1.0
  {
    if !reply.malformed && reply.actual.Some? {
      WeightedSumBounds(lib, c.assertions, reply.actual.value);
      Quotient(WeightedSum(lib, c.assertions, reply.actual.value), TotalWeight(c.assertions));
      NoWeightNoAssertion(c.assertions);
    }
  }

  lemma PassesIff(lib: Library, c: Case, reply: Reply)
    requires WeightsNonNegative(c.assertions) && WellFormed(reply)
    ensures Scored(lib, c, reply).passed <==>
      forall a :: a in c.assertions && a.weight > 0.0 ==> Holds(lib, a, reply.actual.value)
  {
    hide ScoreAssertion, Holds, Scored;
    CaseScoreBounds(lib, c, reply);
    forall a ensures ScoreAssertion(lib, a, reply.actual.value) == 1.0 <==> Holds(lib, a, reply.actual.value) {
      ScoreMeans(lib, a, reply.actual.value);
    }
  }

  lemma ScoredJudges(lib: Library, c: Case, reply: Reply)
    ensures Judges(lib, c, reply, Scored(lib, c, reply))
  {
    hide ScoreAssertion, Holds, TotalWeight, WeightedSum, Holding, AssertionScores, WeightsNonNegative;
    if WellFormed(reply) {
      var actual := reply.actual.value;
      WeightedSumMeans(lib, c.assertions, actual);
      EveryAssertionRecorded(lib, c.assertions, actual);
      forall i | 0 <= i < |c.assertions| ensures Records(lib, c, actual, Scored(lib, c, reply), i) {
        RecordedScore(lib, c.assertions, actual, i);
        ScoreMeans(lib, c.assertions[i], actual);
      }
      if WeightsNonNegative(c.assertions) {
        PassesIff(lib, c, reply);
      }
    }
  }

  lemma Quotient(part: real, whole: real)
    requires whole > 0.0 ==> 0.0 <= part <= whole
    ensures whole > 0.0 ==> 0.0 <= part / whole <= 1.0 && (part / whole >= 1.0 <==> part == whole)
  {
    if whole > 0.0 {
      assert part == (part / whole) * whole;
    }
  }

  lemma {:induction false} NoWeightNoAssertion(assertions: seq<Assertion>)
    requires WeightsNonNegative(assertions)
    ensures TotalWeight(assertions) >= 0.0
    ensures TotalWeight(assertions) == 0.0 ==> forall a :: a in assertions ==> a.weight == 0.0
  {
    if assertions != [] {
      var init, last := assertions[..|assertions| - 1], assertions[|assertions| - 1];
      assert assertions == init + [last];
      NoWeightNoAssertion(init);
    }
  }

  // ── The weighted score of all cases ──────────────────────────────────────

  /** The weight of a result: that of the last case with its id, or one. */
  function WeightOf(cases: seq<Case>, id: string): real {
    if cases == [] then 1.0
    else if cases[|cases| - 1].id == id then cases[|cases| - 1].weight
    else WeightOf(cases[..|cases| - 1], id)
  }

  function ResultWeights(cases: seq<Case>, results: seq<CaseResult>): real {
    if results == [] then 0.0
    else ResultWeights(cases, results[..|results| - 1]) + WeightOf(cases, results[|results| - 1].caseId)
  }

  function Part(cases: seq<Case>, r: CaseResult): real {
    r.score * WeightOf(cases, r.caseId)
  }

  function ResultScores(cases: seq<Case>, results: seq<CaseResult>): real {
    if results == [] then 0.0
    else
      ResultScores(cases, results[..|results| - 1]) + Part(cases, results[|results| - 1])
  }

  method WeightedCaseScore(cases: seq<Case>, results: seq<CaseResult>) returns (score: real)
    ensures score == if ResultWeights(cases, results) > 0.0 then ResultScores(cases, results) / ResultWeights(cases, results) else 0.0
  {
    var totalWeight, weightedSum := 0.0, 0.0;
    for i := 0 to |results|
      invariant totalWeight == ResultWeights(cases, results[..i]) && weightedSum == ResultScores(cases, results[..i])
    {
      assert results[..i + 1][..i] == results[..i];
      totalWeight := totalWeight + WeightOf(cases, results[i].caseId);
      weightedSum := weightedSum + results[i].score * WeightOf(cases, results[i].caseId);
    }
    assert results[..|results|] == results;
    score := if totalWeight > 0.0 then weightedSum / totalWeight else 0.0;
  }

  lemma {:induction false} WeightOfNonNegative(cases: seq<Case>, id: string)
    requires forall c :: c in cases ==> c.weight >= 0.0
    ensures WeightOf(cases, id) >= 0.0
  {
    if cases != [] {
      assert cases[|cases| - 1] in cases;
      WeightOfNonNegative(cases[..|cases| - 1], id);
    }
  }

  lemma PartBounds(cases: seq<Case>, r: CaseResult)
    requires (forall c :: c in cases ==> c.weight >= 0.0) && 0.0 <= r.score <= 1.0
    ensures 0.0 <= Part(cases, r) <= WeightOf(cases, r.caseId)
  {
    hide WeightOf;
    WeightOfNonNegative(cases, r.caseId);
    Scaled(r.score, WeightOf(cases, r.caseId));
  }

  lemma {:induction false} ResultScoresBounds(cases: seq<Case>, results: seq<CaseResult>)
    requires (forall c :: c in cases ==> c.weight >= 0.0) && forall r :: r in results ==> 0.0 <= r.score <= 1.0
    ensures 0.0 <= ResultScores(cases, results) <= ResultWeights(cases, results)
  {
    if results == [] {
      NoResults(cases, results);
    } else {
      var init, last := results[..|results| - 1], results[|results| - 1];
      assert results == init + [last];
      ResultScoresBounds(cases, init);
      PartBounds(cases, last);
    }
  }

  lemma NoResults(cases: seq<Case>, results: seq<CaseResult>)
    requires results == []
    ensures ResultScores(cases, results) == 0.0 && ResultWeights(cases, results) == 0.0
  {
  }

  lemma Scaled(score: real, weight: real)
    requires 0.0 <= score <= 1.0 && weight >= 0.0
    ensures 0.0 <= score * weight <= weight
  {
    assert weight - score * weight == (1.0 - score) * weight;
  }

  /** A result weighs what the case with its id does, and one if there is none. */
  lemma {:induction false} WeightOfMeans(cases: seq<Case>, id: string)
    ensures (forall c :: c in cases ==> c.id != id) ==> WeightOf(cases, id) == 1.0
    ensures (forall i, j :: 0 <= i < j < |cases| ==> cases[i].id != cases[j].id)
      ==> forall c :: c in cases && c.id == id ==> WeightOf(cases, id) == c.weight
  {
    if cases != [] {
      var init, last := cases[..|cases| - 1], cases[|cases| - 1];
      assert cases == init + [last];
      WeightOfMeans(init, id);
      assert last in cases;
      if forall i, j :: 0 <= i < j < |cases| ==> cases[i].id != cases[j].id {
        forall c | c in cases && c.id == id ensures WeightOf(cases, id) == c.weight {
          var i :| 0 <= i < |cases| && cases[i] == c;
          assert i < |cases| - 1 ==> c in init && last.id != id;
        }
      }
    }
  }

  lemma PartIsWhole(cases: seq<Case>, r: CaseResult)
    requires WeightOf(cases, r.caseId) >= 0.0 && 0.0 <= r.score <= 1.0
    ensures Part(cases, r) == WeightOf(cases, r.caseId) <==> WeightOf(cases, r.caseId) == 0.0 || r.score == 1.0
  {
    hide WeightOf;
    var weight := WeightOf(cases, r.caseId);
    assert weight - r.score * weight == (1.0 - r.score) * weight;
  }

  lemma {:induction false} ResultScoresReach(cases: seq<Case>, results: seq<CaseResult>)
    requires (forall c :: c in cases ==> c.weight >= 0.0) && forall r :: r in results ==> 0.0 <= r.score <= 1.0
    ensures ResultScores(cases, results) == ResultWeights(cases, results) <==>
      forall r :: r in results && WeightOf(cases, r.caseId) > 0.0 ==> r.score == 1.0
  {
    if results == [] {
      NoResults(cases, results);
    } else {
      var init, last := results[..|results| - 1], results[|results| - 1];
      assert results == init + [last];
      ResultScoresReach(cases, init);
      ResultScoresBounds(cases, init);
      PartBounds(cases, last);
      WeightOfNonNegative(cases, last.caseId);
      PartIsWhole(cases, last);
    }
  }

  /** With non-negative weights the weighted score is one exactly if every result that carries weight scores one. */
  lemma WeightedPerfectIff(cases: seq<Case>, results: seq<CaseResult>)
    requires (forall c :: c in cases ==> c.weight >= 0.0) && forall r :: r in results ==> 0.0 <= r.score <= 1.0
    ensures ResultWeights(cases, results) > 0.0 ==>
      (ResultScores(cases, results) / ResultWeights(cases, results) == 1.0
       <==> forall r :: r in results && WeightOf(cases, r.caseId) > 0.0 ==> r.score == 1.0)
  {
    ResultScoresBounds(cases, results);
    ResultScoresReach(cases, results);
    if ResultWeights(cases, results) > 0.0 {
      Quotient(ResultScores(cases, results), ResultWeights(cases, results));
    }
  }

  /** With non-negative weights the weighted score of results in [0, 1] is in [0, 1]. */
  lemma WeightedScoreBounds(cases: seq<Case>, results: seq<CaseResult>)
    requires (forall c :: c in cases ==> c.weight >= 0.0) && forall r :: r in results ==> 0.0 <= r.score <= 1.0
    ensures ResultWeights(cases, results) > 0.0 ==>
      0.0 <= ResultScores(cases, results) / ResultWeights(cases, results) <= 1.0
  {
    ResultScoresBounds(cases, results);
    if ResultWeights(cases, results) > 0.0 {
      Quotient(ResultScores(cases, results), ResultWeights(cases, results));
    }
  }
}
