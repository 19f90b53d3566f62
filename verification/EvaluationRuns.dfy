/** Whole evaluations: attempts that die after any number of commits, resumed until one gets through,
    `_evaluate_prompt_strategy` and `_insert_eval_run_if_missing` of `src/rulekiln/workers/distillation_worker.py`. */
module EvaluationRuns {
  import opened Wrappers
  import opened CaseScores
  import opened CaseStore
  import opened Evaluation

  predicate SameRun(a: EvalRun, b: EvalRun) { a.strategy == b.strategy && a.split == b.split }

  class EvalRunTable {
    var runs: seq<EvalRun>

    /** At most one run per strategy and split. */
    ghost predicate Valid()
      reads this
    {
      forall i, j :: 0 <= i < j < |runs| ==> !SameRun(runs[i], runs[j])
    }

    constructor ()
      ensures Valid() && runs == []
    {
      runs := [];
    }

    method InsertIfMissing(run: EvalRun, budget: nat) returns (left: nat, crashed: bool)
      requires Valid()
      modifies this
      ensures Valid() && (crashed ==> runs == old(runs))
      ensures crashed <==> budget == 0 && !exists r :: r in old(runs) && SameRun(r, run)
      ensures left + |runs| == budget + |old(runs)|
      ensures !crashed ==> runs == if exists r :: r in old(runs) && SameRun(r, run) then old(runs) else old(runs) + [run]
    {
      for i := 0 to |runs|
        invariant runs == old(runs) && forall j :: 0 <= j < i ==> !SameRun(runs[j], run)
      {
        if SameRun(runs[i], run) {
          assert runs[i] in runs;
          return budget, false;
        }
      }
      if budget == 0 {
        return 0, true;
      }
      runs := runs + [run];
      return budget - 1, false;
    }
  }

  function RunOf(e: Evaluator, results: seq<CaseResult>): EvalRun {
    EvalRun(e.scope.strategy, e.scope.split, e.summarize(results))
  }

  /** A run on record for this strategy and split summarizes the stored results of all cases. */
  ghost predicate RunsCurrent(e: Evaluator, stored: map<string, CaseResult>, runs: seq<EvalRun>) {
    forall r :: r in runs && r.strategy == e.scope.strategy && r.split == e.scope.split ==>
      AllStored(e, stored) && r == RunOf(e, InOrder(e, stored))
  }

  lemma RunsStayCurrent(e: Evaluator, stored: map<string, CaseResult>, later: map<string, CaseResult>,
                        runs: seq<EvalRun>)
    requires RunsCurrent(e, stored, runs) && Extends(e, stored, later)
    ensures RunsCurrent(e, later, runs)
  {
    if AllStored(e, stored) {
      assert InOrder(e, later) == InOrder(e, stored);
    }
  }

  ghost predicate EvalInv(e: Evaluator, table: CaseTable, runTable: EvalRunTable, log: seq<Answer>)
    reads table, runTable
  {
    && table.Valid() && runTable.Valid() && ValidEvaluator(e)
    && Sourced(e, Stored(table.rows, e.scope), log)
    && RunsCurrent(e, Stored(table.rows, e.scope), runTable.runs)
  }

  /** The strategy and split have a run on record. */
  ghost predicate HasRun(e: Evaluator, runs: seq<EvalRun>) {
    exists r :: r in runs && r.strategy == e.scope.strategy && r.split == e.scope.split
  }

  /** After its cases, an attempt needs one more commit, unless the run is on record. */
  ghost predicate GotThrough(s: Standing, hasRun: bool) {
    !s.crashed && (hasRun || s.left > 0)
  }

  method EvaluatePromptStrategy(table: CaseTable, runTable: EvalRunTable, student: Student, e: Evaluator, budget: nat)
    returns (results: seq<CaseResult>, left: nat, crashed: bool)
    requires EvalInv(e, table, runTable, student.log)
    modifies table, runTable, student
    ensures EvalInv(e, table, runTable, student.log)
    ensures Attempt(e, old(student.log), old(Stored(table.rows, e.scope)), table, student.log)
    ensures var s := FirstCases(e, student.script, Standing(old(Stored(table.rows, e.scope)), |old(student.log)|, budget, false),
                                |e.cases|);
      && s.stored == Stored(table.rows, e.scope) && s.asked == |student.log|
      && (!crashed <==> GotThrough(s, HasRun(e, old(runTable.runs))))
    ensures |student.log| - |old(student.log)| <=
      |Stored(table.rows, e.scope)| - |old(Stored(table.rows, e.scope))| + if crashed then 1 else 0
    ensures !crashed ==> AllStored(e, Stored(table.rows, e.scope)) && results == InOrder(e, Stored(table.rows, e.scope))
    ensures !crashed ==> RunOf(e, results) in runTable.runs
    ensures crashed ==> runTable.runs == old(runTable.runs)
  {
    results, left, crashed := EvaluatePrompt(table, student, e, budget);
    RunsStayCurrent(e, old(Stored(table.rows, e.scope)), Stored(table.rows, e.scope), runTable.runs);
    if crashed {
      return;
    }
    RunRecorded(e, Stored(table.rows, e.scope), runTable.runs, RunOf(e, results));
    hide RunsCurrent, HasRun, FirstCases, RunOf, AllStored, Sourced, SameRun, Stored;
    left, crashed := runTable.InsertIfMissing(RunOf(e, results), left);
  }

  /** Adding the run of the stored results, unless there is one, keeps runs current and leaves it on record. */
  lemma RunRecorded(e: Evaluator, stored: map<string, CaseResult>, runs: seq<EvalRun>, run: EvalRun)
    requires AllStored(e, stored) && RunsCurrent(e, stored, runs) && run == RunOf(e, InOrder(e, stored))
    ensures HasRun(e, runs) <==> exists r :: r in runs && SameRun(r, run)
    ensures var after := if exists r :: r in runs && SameRun(r, run) then runs else runs + [run];
            RunsCurrent(e, stored, after) && run in after
  {
    if exists r :: r in runs && SameRun(r, run) {
      var r :| r in runs && SameRun(r, run);
    }
  }

  lemma SubsetBounded(a: set<string>, b: set<string>)
    requires a <= b
    ensures |a| <= |b|
  {
    assert b == a + (b - a);
  }

  /** Nothing but results of cases is stored, and every call so far but one per dead attempt was stored. */
  ghost predicate Frugal(e: Evaluator, stored: map<string, CaseResult>, calls: nat, died: nat) {
    stored.Keys <= CaseIds(e.cases) && calls <= |stored| + died
  }

  lemma FrugalNext(e: Evaluator, script: (nat, string) -> Reply, stored: map<string, CaseResult>, calls: nat, died: nat,
                   budget: nat)
    requires Frugal(e, stored, calls, died)
    requires var s := FirstCases(e, script, Standing(stored, calls, budget, false), |e.cases|); Extends(e, stored, s.stored)
    ensures var s := FirstCases(e, script, Standing(stored, calls, budget, false), |e.cases|);
      && Frugal(e, s.stored, s.asked, if s.crashed then died + 1 else died)
      && (!s.crashed ==> s.left + |e.cases| >= budget) && |s.stored| <= |e.cases|
  {
    var s := FirstCases(e, script, Standing(stored, calls, budget, false), |e.cases|);
    AttemptCosts(e, script, Standing(stored, calls, budget, false), |e.cases|);
    SubsetBounded(s.stored.Keys, CaseIds(e.cases));
  }

  /** Whether some attempt gets through, starting from what is stored and how often the student was asked. */
  ghost predicate Completes(e: Evaluator, script: (nat, string) -> Reply, stored: map<string, CaseResult>, asked: nat,
                            budgets: seq<nat>)
    decreases |budgets|
  {
    budgets != []
    && var s := FirstCases(e, script, Standing(stored, asked, budgets[0], false), |e.cases|);
       GotThrough(s, false) || Completes(e, script, s.stored, s.asked, budgets[1..])
  }

  /** A strategy from its first attempt on, with any student and any attempts.  At most one call per dead attempt goes
      beyond one call per case; once an attempt gets through, every case has its stored result, the results are in case
      order, each is the score of an answer given for it, and the strategy and split have exactly one run: theirs.
      `Completes` says when that happens. */
  method ResumeEvaluation(e: Evaluator, script: (nat, string) -> Reply, budgets: seq<nat>)
    returns (table: CaseTable, runTable: EvalRunTable, student: Student, results: seq<CaseResult>, completed: bool, died: nat)
    requires ValidEvaluator(e)
    ensures EvalInv(e, table, runTable, student.log) && died <= |budgets| && (!completed ==> died == |budgets|)
    ensures |student.log| <= |e.cases| + died
    ensures completed ==> AllStored(e, Stored(table.rows, e.scope)) && results == InOrder(e, Stored(table.rows, e.scope))
    ensures completed ==> EvalRun(e.scope.strategy, e.scope.split, e.summarize(results)) in runTable.runs
    ensures completed <==> Completes(e, script, map[], 0, budgets)
  {
    hide FirstCases, Costs;
    table := new CaseTable();
    runTable := new EvalRunTable();
    student := new Student(script);
    results, completed, died := [], false, 0;
    while died < |budgets| && !completed
      invariant fresh(table) && fresh(runTable) && fresh(student) && student.script == script && died <= |budgets|
      invariant EvalInv(e, table, runTable, student.log) && Frugal(e, Stored(table.rows, e.scope), |student.log|, died)
      invariant if completed then Completes(e, script, map[], 0, budgets)
                else runTable.runs == []
                     && (Completes(e, script, map[], 0, budgets)
                         <==> Completes(e, script, Stored(table.rows, e.scope), |student.log|, budgets[died..]))
      invariant completed ==> AllStored(e, Stored(table.rows, e.scope)) && results == InOrder(e, Stored(table.rows, e.scope))
      invariant completed ==> RunOf(e, results) in runTable.runs
      decreases |budgets| - died, !completed
    {
      ghost var stored, asked := Stored(table.rows, e.scope), |student.log|;
      var left, crashed;
      results, left, crashed := EvaluatePromptStrategy(table, runTable, student, e, budgets[died]);
      FrugalNext(e, script, stored, asked, died, budgets[died]);
      assert budgets[died..][1..] == budgets[died + 1..];
      completed, died := !crashed, if crashed then died + 1 else died;
    }
    SubsetBounded(Stored(table.rows, e.scope).Keys, CaseIds(e.cases));
  }

  // ── Exactly when every evaluation gets through ───────────────────────────

  lemma {:induction false} StaysWithinCases(e: Evaluator, script: (nat, string) -> Reply, s: Standing, n: nat)
    requires n <= |e.cases| && ValidEvaluator(e) && s.stored.Keys <= CaseIds(e.cases)
    ensures FirstCases(e, script, s, n).stored.Keys <= CaseIds(e.cases)
  {
    if n > 0 {
      StaysWithinCases(e, script, s, n - 1);
      CaseIdIn(e.cases, n - 1);
    }
  }

  /** An attempt with more commits than cases gets through if scoring never raises. */
  lemma EnoughCommits(e: Evaluator, script: (nat, string) -> Reply, stored: map<string, CaseResult>, asked: nat, budget: nat)
    requires ValidEvaluator(e) && NeverRaises(e) && stored.Keys <= CaseIds(e.cases) && budget > |e.cases|
    ensures GotThrough(FirstCases(e, script, Standing(stored, asked, budget, false), |e.cases|), false)
  {
    var start := Standing(stored, asked, budget, false);
    StaysWithinCases(e, script, start, |e.cases|);
    AttemptCosts(e, script, start, |e.cases|);
    DiesOfCommits(e, script, start, |e.cases|);
    SubsetBounded(FirstCases(e, script, start, |e.cases|).stored.Keys, CaseIds(e.cases));
  }

  lemma {:induction false} SomeAttemptCompletes(e: Evaluator, script: (nat, string) -> Reply,
                                                stored: map<string, CaseResult>, asked: nat, budgets: seq<nat>)
    requires ValidEvaluator(e) && NeverRaises(e) && stored.Keys <= CaseIds(e.cases)
    requires exists k :: 0 <= k < |budgets| && budgets[k] > |e.cases|
    ensures Completes(e, script, stored, asked, budgets)
    decreases |budgets|
  {
    hide FirstCases;
    var start := Standing(stored, asked, budgets[0], false);
    if budgets[0] > |e.cases| {
      EnoughCommits(e, script, stored, asked, budgets[0]);
    } else {
      var s := FirstCases(e, script, start, |e.cases|);
      StaysWithinCases(e, script, start, |e.cases|);
      var k :| 0 <= k < |budgets| && budgets[k] > |e.cases|;
      assert budgets[1..][k - 1] == budgets[k];
      SomeAttemptCompletes(e, script, s.stored, s.asked, budgets[1..]);
    }
  }

  /** A student whose every answer to one case makes scoring raise. */
  ghost predicate Hopeless(e: Evaluator, script: (nat, string) -> Reply, i: nat) {
    i < |e.cases| && forall n :: e.score(e.cases[i], script(n, e.cases[i].id)).None?
  }

  lemma {:induction false} HopelessStaysOut(e: Evaluator, script: (nat, string) -> Reply, s: Standing, i: nat, n: nat)
    requires n <= |e.cases| && ValidEvaluator(e) && Hopeless(e, script, i) && e.cases[i].id !in s.stored
    ensures e.cases[i].id !in FirstCases(e, script, s, n).stored
    ensures n > i ==> FirstCases(e, script, s, n).crashed
  {
    if n > 0 {
      HopelessStaysOut(e, script, s, i, n - 1);
      assert e.cases[n - 1].id == e.cases[i].id ==> n - 1 == i;
    }
  }

  lemma {:induction false} HopelessNeverCompletes(e: Evaluator, script: (nat, string) -> Reply, i: nat,
                                                  stored: map<string, CaseResult>, asked: nat, budgets: seq<nat>)
    requires ValidEvaluator(e) && Hopeless(e, script, i) && e.cases[i].id !in stored
    ensures !Completes(e, script, stored, asked, budgets)
    decreases |budgets|
  {
    hide FirstCases;
    if budgets != [] {
      var start := Standing(stored, asked, budgets[0], false);
      HopelessStaysOut(e, script, start, i, |e.cases|);
      var s := FirstCases(e, script, start, |e.cases|);
      HopelessNeverCompletes(e, script, i, s.stored, s.asked, budgets[1..]);
    }
  }

  lemma EvaluatorIsValid(lib: Library, dumps: Dumps, scope: Scope, cases: seq<Case>, summarize: seq<CaseResult> -> Metrics)
    requires forall i, j :: 0 <= i < j < |cases| ==> cases[i].id != cases[j].id
    ensures ValidEvaluator(EvaluatorFor(lib, dumps, scope, cases, summarize))
  {
  }

  /** Given an attempt with more commits than cases, the evaluation gets through whatever the student answers, exactly if
      every pattern of the cases' assertions compiles. */
  lemma GetsThroughIff(lib: Library, dumps: Dumps, scope: Scope, cases: seq<Case>, summarize: seq<CaseResult> -> Metrics,
                       budgets: seq<nat>)
    requires forall i, j :: 0 <= i < j < |cases| ==> cases[i].id != cases[j].id
    requires exists k :: 0 <= k < |budgets| && budgets[k] > |cases|
    ensures var e := EvaluatorFor(lib, dumps, scope, cases, summarize);
            (forall script :: Completes(e, script, map[], 0, budgets)) <==> PatternsCompile(lib, cases)
  {
    hide Completes;
    var e := EvaluatorFor(lib, dumps, scope, cases, summarize);
    EvaluatorIsValid(lib, dumps, scope, cases, summarize);
    if PatternsCompile(lib, cases) {
      forall c, reply | c in cases ensures e.score(c, reply).Some? {
        CompilingNeverRaises(lib, cases, c, reply);
      }
      forall script ensures Completes(e, script, map[], 0, budgets) {
        SomeAttemptCompletes(e, script, map[], 0, budgets);
      }
    } else {
      var i := BadPattern(lib, cases);
      var script := (n: nat, id: string) => TextReply();
      BadPatternRaises(lib, cases[i]);
      assert Hopeless(e, script, i);
      HopelessNeverCompletes(e, script, i, map[], 0, budgets);
    }
  }

  // ── What a finished evaluation is ────────────────────────────────────────

  /** No case was answered in two ways. */
  ghost predicate Agree(log: seq<Answer>, other: seq<Answer>) {
    forall i, j :: 0 <= i < |log| && 0 <= j < |other| && log[i].caseId == other[j].caseId ==> log[i].reply == other[j].reply
  }

  /** Two finished evaluations of the same cases, crashed and resumed however often, have the same results in the same
      order if the student answers a case alike: in particular a resumed one equals the one that never crashed. */
  lemma ResumedEqualsUninterrupted(e: Evaluator, stored: map<string, CaseResult>, log: seq<Answer>,
                                   stored': map<string, CaseResult>, log': seq<Answer>)
    requires Sourced(e, stored, log) && Sourced(e, stored', log') && Agree(log, log')
    requires AllStored(e, stored) && AllStored(e, stored')
    ensures InOrder(e, stored) == InOrder(e, stored')
  {
    forall i | 0 <= i < |e.cases| ensures stored[e.cases[i].id] == stored'[e.cases[i].id] {
      var k :| 0 <= k < |log| && log[k].caseId == e.cases[i].id && e.score(e.cases[i], log[k].reply) == Some(stored[e.cases[i].id]);
      var l :| 0 <= l < |log'| && log'[l].caseId == e.cases[i].id && e.score(e.cases[i], log'[l].reply) == Some(stored'[e.cases[i].id]);
      assert log[k].reply == log'[l].reply;
    }
  }

  /** The strategy and split of a finished evaluation have exactly one run, and it summarizes these results. */
  lemma ExactlyOneRun(e: Evaluator, stored: map<string, CaseResult>, runs: seq<EvalRun>)
    requires AllStored(e, stored) && RunsCurrent(e, stored, runs) && RunOf(e, InOrder(e, stored)) in runs
    requires forall i, j :: 0 <= i < j < |runs| ==> !SameRun(runs[i], runs[j])
    ensures exists k ::
              && 0 <= k < |runs| && runs[k] == RunOf(e, InOrder(e, stored))
              && forall j :: 0 <= j < |runs| && j != k ==> !SameRun(runs[j], runs[k])
  {
    var k :| 0 <= k < |runs| && runs[k] == RunOf(e, InOrder(e, stored));
    forall j | 0 <= j < |runs| && j != k ensures !SameRun(runs[j], runs[k]) {
      if j < k {
        assert !SameRun(runs[j], runs[k]);
      } else {
        assert !SameRun(runs[k], runs[j]);
      }
    }
  }

  /** Every stored result of a finished evaluation judges an answer that was given to its case. */
  lemma StoredResultsJudge(lib: Library, dumps: Dumps, scope: Scope, cases: seq<Case>, summarize: seq<CaseResult> -> Metrics,
                           stored: map<string, CaseResult>, log: seq<Answer>, i: nat)
    requires var e := EvaluatorFor(lib, dumps, scope, cases, summarize); Sourced(e, stored, log) && AllStored(e, stored)
    requires i < |cases|
    ensures exists k :: 0 <= k < |log| && log[k].caseId == cases[i].id
              && Judges(lib, cases[i], log[k].reply, InOrder(EvaluatorFor(lib, dumps, scope, cases, summarize), stored)[i])
  {
    hide Judges;
    var e := EvaluatorFor(lib, dumps, scope, cases, summarize);
    assert e.cases[i].id in stored;
    var k :| 0 <= k < |log| && log[k].caseId == e.cases[i].id && e.score(e.cases[i], log[k].reply) == Some(stored[e.cases[i].id]);
    ScoredJudges(lib, cases[i], log[k].reply);
  }

  /** Scored as the evaluator does and with non-negative weights, every stored result and the weighted score are in [0, 1]. */
  lemma StoredScoresBounded(lib: Library, dumps: Dumps, scope: Scope, cases: seq<Case>,
                            summarize: seq<CaseResult> -> Metrics,
                            stored: map<string, CaseResult>, log: seq<Answer>)
    requires var e := EvaluatorFor(lib, dumps, scope, cases, summarize); Sourced(e, stored, log) && AllStored(e, stored)
    requires forall c :: c in cases ==> c.weight >= 0.0 && WeightsNonNegative(c.assertions)
    ensures var results := InOrder(EvaluatorFor(lib, dumps, scope, cases, summarize), stored);
            && (forall i :: 0 <= i < |results| ==> 0.0 <= results[i].score <= 1.0)
            && (ResultWeights(cases, results) > 0.0 ==> 0.0 <= ResultScores(cases, results) / ResultWeights(cases, results) <= 1.0)
  {
    var e := EvaluatorFor(lib, dumps, scope, cases, summarize);
    var results := InOrder(e, stored);
    forall i | 0 <= i < |results| ensures 0.0 <= results[i].score <= 1.0 {
      var k :| 0 <= k < |log| && log[k].caseId == e.cases[i].id && e.score(e.cases[i], log[k].reply) == Some(stored[e.cases[i].id]);
      CaseScoreBounds(lib, cases[i], log[k].reply);
    }
    WeightedScoreBounds(cases, results);
  }
}
