/** Choosing the strategy to ship, `select_strategy_generic` of `src/rulekiln/pipeline/strategy_selection.py`. */
module StrategySelection {
  import opened Wrappers
  import opened Sorting

  datatype TaskMode =
    | Classification | Routing | ToolUse | Extraction | Summarization | RubricReview | FreeformGeneration | AgentBehavior

  datatype EvalResult = EvalResult(macroF1: Option<real>, weightedCaseScore: Option<real>, malformedRate: real)

  datatype Gate = Gate(passed: bool, goldenFailures: int)

  /** The evaluated strategies and what is known about them. */
  datatype Input = Input(
    mode: TaskMode,
    evals: map<string, EvalResult>,
    gates: map<string, Gate>,
    tokens: map<string, int>,
    baseline: string)

  datatype Reason = NoCandidates | PrimaryMetric | GoldenFailures | MalformedRate | PromptTokens | DefaultHdbscan | DefaultName

  const PRIMARY_METRIC_EPSILON := 0.005
  const MALFORMED_EPSILON := 0.001
  const HDBSCAN := "hdbscan"

  function Score(i: Input, c: string): real {
    if c !in i.evals then 0.0
    else if i.mode == Classification || i.mode == Routing then OrZero(i.evals[c].macroF1)
    else OrZero(i.evals[c].weightedCaseScore)
  }

  function Golden(i: Input, c: string): int { if c in i.gates then i.gates[c].goldenFailures else 0 }

  function Malformed(i: Input, c: string): real { if c in i.evals then i.evals[c].malformedRate else 0.0 }

  function Tokens(i: Input, c: string): int { if c in i.tokens then i.tokens[c] else 0 }

  predicate Candidate(i: Input, c: string) { c in i.evals && c != i.baseline && c != "baseline" }

  predicate Passes(i: Input, c: string) { c !in i.gates || i.gates[c].passed }

  // ── What should be selected, without any order ───────────────────────────

  ghost predicate InPool(i: Input, c: string) {
    Candidate(i, c) && ((exists d :: Candidate(i, d) && Passes(i, d)) ==> Passes(i, c))
  }

  ghost predicate NearTop(i: Input, c: string) {
    InPool(i, c) && forall d :: InPool(i, d) ==> Score(i, d) - Score(i, c) <= PRIMARY_METRIC_EPSILON
  }

  ghost predicate FewestGolden(i: Input, c: string) {
    NearTop(i, c) && forall d :: NearTop(i, d) ==> Golden(i, c) <= Golden(i, d)
  }

  ghost predicate LeastMalformed(i: Input, c: string) {
    FewestGolden(i, c) && forall d :: FewestGolden(i, d) ==> Malformed(i, c) - Malformed(i, d) <= MALFORMED_EPSILON
  }

  ghost predicate FewestTokens(i: Input, c: string) {
    LeastMalformed(i, c) && forall d :: LeastMalformed(i, d) ==> Tokens(i, c) <= Tokens(i, d)
  }

  ghost predicate IsSelected(i: Input, c: string) {
    && FewestTokens(i, c)
    && if FewestTokens(i, HDBSCAN) then c == HDBSCAN else forall d :: FewestTokens(i, d) ==> StringLe(c, d)
  }

  /** No two strategies are selected, so the choice depends on the evaluations alone and not on any order of them. */
  lemma SelectionIsUnique(i: Input, a: string, b: string)
    requires IsSelected(i, a) && IsSelected(i, b)
    ensures a == b
  {
    StringLeIsTotalOrder();
  }

  /** The selected strategy passes its gate if any candidate does; no strategy it had to compete with scores more than
      0.005 higher, and none that scores as close to the top has fewer golden failures. */
  lemma SelectedIsGood(i: Input, s: string, c: string)
    requires IsSelected(i, s) && Candidate(i, c)
    ensures Candidate(i, s) && (Passes(i, c) ==> Passes(i, s))
    ensures Passes(i, c) || !Passes(i, s) ==> Score(i, s) >= Score(i, c) - 0.005
    ensures NearTop(i, c) ==> Golden(i, s) <= Golden(i, c)
  {
  }

  /** What a task mode measures strategies by: macro F1 where there is a label to get right, the case score otherwise. */
  predicate Measures(i: Input, c: string, value: real) {
    c in i.evals
    && var measured := if i.mode in {Classification, Routing} then i.evals[c].macroF1 else i.evals[c].weightedCaseScore;
       value == if measured == None then 0.0 else measured.value
  }

  /** Not a baseline, and either no gate to pass or one that was passed. */
  predicate MayShip(i: Input, c: string) {
    c in i.evals && c != i.baseline && c != "baseline" && (c in i.gates ==> i.gates[c].passed)
  }

  /** What is selected is evaluated and no baseline; it may ship if anything may; and where all criteria leave several, it
      is hdbscan if that is one of them, and the one with the least name otherwise. */
  lemma SelectionShips(i: Input, s: string, c: string)
    requires IsSelected(i, s)
    ensures s in i.evals && s != i.baseline && s != "baseline"
    ensures MayShip(i, c) ==> MayShip(i, s)
    ensures FewestTokens(i, "hdbscan") ==> s == "hdbscan"
    ensures FewestTokens(i, c) && !FewestTokens(i, "hdbscan") ==> StringLe(s, c)
  {
    if MayShip(i, c) {
      assert Candidate(i, c) && Passes(i, c);
    }
  }

  /** Among candidates that all pass their gates: nobody measures more than 0.005 above the selected strategy; of those who
      come that close to everybody nobody has fewer golden failures, of these nobody has malformed outputs rarer by more
      than 0.001, and of these nobody has a shorter prompt. */
  lemma SelectedIsBest(i: Input, s: string, c: string, x: real, y: real)
    requires IsSelected(i, s) && Candidate(i, c) && (forall d :: Candidate(i, d) ==> Passes(i, d))
    requires Measures(i, s, x) && Measures(i, c, y) && s in i.gates && c in i.gates && s in i.tokens && c in i.tokens
    ensures y - x <= 0.005
    ensures NearTop(i, c) ==> i.gates[s].goldenFailures <= i.gates[c].goldenFailures
    ensures NearTop(i, c) && i.gates[s].goldenFailures == i.gates[c].goldenFailures
        ==> i.evals[s].malformedRate - i.evals[c].malformedRate <= 0.001
    ensures LeastMalformed(i, c) ==> i.tokens[s] <= i.tokens[c]
  {
    assert InPool(i, c) && NearTop(i, s) && Score(i, c) - Score(i, s) <= PRIMARY_METRIC_EPSILON;
    assert Score(i, s) == x && Score(i, c) == y;
    if NearTop(i, c) && i.gates[s].goldenFailures == i.gates[c].goldenFailures {
      assert FewestGolden(i, c);
    }
  }

  // ── The chain of filters ─────────────────────────────────────────────────

  /** `min(key(name) for name in names)`. */
  method Lowest(names: seq<string>, key: string -> real) returns (lowest: real)
    requires names != []
    ensures (exists d :: d in names && key(d) == lowest) && forall d :: d in names ==> lowest <= key(d)
  {
    lowest := key(names[0]);
    assert names[0] in names;
    for n := 0 to |names|
      invariant forall j :: 0 <= j < n ==> lowest <= key(names[j])
      invariant exists d :: d in names && key(d) == lowest
    {
      if key(names[n]) < lowest {
        assert names[n] in names;
        lowest := key(names[n]);
      }
    }
  }

  /** Keeps the names whose key is within `slack` of the lowest key, in order: the shape of all four filters. */
  method KeepLowest(names: seq<string>, key: string -> real, slack: real) returns (kept: seq<string>)
    requires names != [] && slack >= 0.0
    ensures kept != []
    ensures forall c :: c in kept <==> c in names && forall d :: d in names ==> key(c) - key(d) <= slack
  {
    var lowest := Lowest(names, key);
    kept := [];
    for n := 0 to |names|
      invariant forall c :: c in kept <==> c in names[..n] && key(c) - lowest <= slack
    {
      assert names[..n + 1] == names[..n] + [names[n]];
      if key(names[n]) - lowest <= slack {
        kept := kept + [names[n]];
      }
    }
    assert names[..|names|] == names;
    ghost var least :| least in names && key(least) == lowest;
    assert least in kept;
  }

  /** The candidates in dictionary order, or only those that pass their gate if there are any. */
  method RankedPool(i: Input, order: seq<string>) returns (pool: seq<string>)
    requires forall c :: c in order <==> c in i.evals
    ensures forall c :: c in pool <==> InPool(i, c)
    ensures pool == [] <==> forall c :: !Candidate(i, c)
  {
    var candidates, passing := [], [];
    for n := 0 to |order|
      invariant forall c :: c in candidates <==> Candidate(i, c) && c in order[..n]
      invariant forall c :: c in passing <==> Candidate(i, c) && Passes(i, c) && c in order[..n]
    {
      assert order[..n + 1] == order[..n] + [order[n]];
      if Candidate(i, order[n]) {
        candidates := candidates + [order[n]];
        if Passes(i, order[n]) {
          passing := passing + [order[n]];
        }
      }
    }
    assert order[..|order|] == order;
    pool := if passing != [] then passing else candidates;
    assert passing != [] ==> passing[0] in passing;
    assert candidates != [] ==> candidates[0] in candidates;
  }

  method SelectNearTop(i: Input, names: seq<string>) returns (kept: seq<string>)
    requires names != [] && forall c :: c in names <==> InPool(i, c)
    ensures kept != [] && forall c :: c in kept <==> NearTop(i, c)
  {
    kept := KeepLowest(names, (c: string) => -Score(i, c), PRIMARY_METRIC_EPSILON);
  }

  method SelectLowestGoldenFailures(i: Input, names: seq<string>) returns (kept: seq<string>)
    requires names != [] && forall c :: c in names <==> NearTop(i, c)
    ensures kept != [] && forall c :: c in kept <==> FewestGolden(i, c)
  {
    kept := KeepLowest(names, (c: string) => Golden(i, c) as real, 0.0);
  }

  method SelectLowestMalformed(i: Input, names: seq<string>) returns (kept: seq<string>)
    requires names != [] && forall c :: c in names <==> FewestGolden(i, c)
    ensures kept != [] && forall c :: c in kept <==> LeastMalformed(i, c)
  {
    kept := KeepLowest(names, (c: string) => Malformed(i, c), MALFORMED_EPSILON);
  }

  method SelectLowestPromptTokens(i: Input, names: seq<string>) returns (kept: seq<string>)
    requires names != [] && forall c :: c in names <==> LeastMalformed(i, c)
    ensures kept != [] && forall c :: c in kept <==> FewestTokens(i, c)
  {
    kept := KeepLowest(names, (c: string) => Tokens(i, c) as real, 0.0);
  }

  // A filter that leaves one name has selected it: the later filters could not remove it.

  lemma SoleNearTop(i: Input, names: seq<string>)
    requires |names| == 1 && forall c :: c in names <==> NearTop(i, c)
    ensures IsSelected(i, names[0]) && forall c :: NearTop(i, c) ==> c == names[0]
  {
    StringLeTotal(names[0], names[0]);
    assert names[0] in names;
    forall c | NearTop(i, c) ensures c == names[0] {
      assert c in names;
    }
  }

  lemma SoleFewestGolden(i: Input, names: seq<string>)
    requires |names| == 1 && forall c :: c in names <==> FewestGolden(i, c)
    ensures IsSelected(i, names[0]) && forall c :: FewestGolden(i, c) ==> c == names[0]
  {
    StringLeTotal(names[0], names[0]);
    assert names[0] in names;
    forall c | FewestGolden(i, c) ensures c == names[0] {
      assert c in names;
    }
  }

  lemma SoleLeastMalformed(i: Input, names: seq<string>)
    requires |names| == 1 && forall c :: c in names <==> LeastMalformed(i, c)
    ensures IsSelected(i, names[0]) && forall c :: LeastMalformed(i, c) ==> c == names[0]
  {
    StringLeTotal(names[0], names[0]);
    assert names[0] in names;
    forall c | LeastMalformed(i, c) ensures c == names[0] {
      assert c in names;
    }
  }

  lemma SoleFewestTokens(i: Input, names: seq<string>)
    requires |names| == 1 && forall c :: c in names <==> FewestTokens(i, c)
    ensures IsSelected(i, names[0]) && forall c :: FewestTokens(i, c) ==> c == names[0]
  {
    StringLeTotal(names[0], names[0]);
    assert names[0] in names;
    forall c | FewestTokens(i, c) ensures c == names[0] {
      assert c in names;
    }
  }

  /** When every filter left several. */
  method Default(i: Input, names: seq<string>) returns (selected: string, reason: Reason)
    requires names != [] && forall c :: c in names <==> FewestTokens(i, c)
    ensures IsSelected(i, selected) && (reason == DefaultHdbscan || reason == DefaultName)
  {
    if HDBSCAN in names {
      return HDBSCAN, DefaultHdbscan;
    }
    StringLeIsTotalOrder();
    var sorted := Sort(StringLe, names);
    SortSorts(StringLe, names);
    SameElements(names, sorted);
    selected, reason := sorted[0], DefaultName;
    forall d | FewestTokens(i, d) ensures StringLe(selected, d) {
      var k :| 0 <= k < |sorted| && sorted[k] == d;
    }
  }

  method SelectStrategyGeneric(i: Input, order: seq<string>) returns (selected: string, reason: Reason)
    requires forall c :: c in order <==> c in i.evals
    ensures if exists c :: Candidate(i, c) then IsSelected(i, selected) else selected == i.baseline && reason == NoCandidates
    ensures (exists c :: c in i.evals && c != i.baseline && c != "baseline") <==> reason != NoCandidates
    ensures reason == PrimaryMetric ==> forall c :: NearTop(i, c) ==> c == selected
    ensures reason == GoldenFailures ==> forall c :: FewestGolden(i, c) ==> c == selected
    ensures reason == MalformedRate ==> forall c :: LeastMalformed(i, c) ==> c == selected
    ensures reason == PromptTokens ==> forall c :: FewestTokens(i, c) ==> c == selected
  {
    var contenders := RankedPool(i, order);
    assert forall c :: c in i.evals && c != i.baseline && c != "baseline" <==> Candidate(i, c);
    if contenders == [] {
      return i.baseline, NoCandidates;
    }
    contenders := SelectNearTop(i, contenders);
    if |contenders| == 1 {
      SoleNearTop(i, contenders);
      return contenders[0], PrimaryMetric;
    }
    contenders := SelectLowestGoldenFailures(i, contenders);
    if |contenders| == 1 {
      SoleFewestGolden(i, contenders);
      return contenders[0], GoldenFailures;
    }
    contenders := SelectLowestMalformed(i, contenders);
    if |contenders| == 1 {
      SoleLeastMalformed(i, contenders);
      return contenders[0], MalformedRate;
    }
    contenders := SelectLowestPromptTokens(i, contenders);
    if |contenders| == 1 {
      SoleFewestTokens(i, contenders);
      return contenders[0], PromptTokens;
    }
    selected, reason := Default(i, contenders);
  }
}
