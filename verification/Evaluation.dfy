/** Resumable evaluation of a prompt, `src/rulekiln/pipeline/evaluator.py` and `_evaluate_prompt_strategy` of
    `src/rulekiln/workers/distillation_worker.py`, with a crash possible before any commit and an arbitrary student. */
module Evaluation {
  import opened Wrappers
  import opened Sorting
  import opened CaseScores
  import opened CaseStore

  /** One call of the student for a case. */
  datatype Answer = Answer(caseId: string, reply: Reply)

  class Student {
    const script: (nat, string) -> Reply
    var log: seq<Answer>

    constructor (script: (nat, string) -> Reply)
      ensures this.script == script && log == []
    {
      this.script, log := script, [];
    }

    method Call(caseId: string) returns (reply: Reply)
      modifies this
      ensures log == old(log) + [Answer(caseId, reply)] && reply == script(|old(log)|, caseId)
    {
      reply := script(|log|, caseId);
      log := log + [Answer(caseId, reply)];
    }
  }

  type Metrics = map<string, real>

  datatype EvalRun = EvalRun(strategy: string, split: string, metrics: Metrics)

  /** One strategy to evaluate.  `score` gives `None` where scoring raises, which ends the attempt, and `summarize` stands
      for the metrics computed from the results in case order. */
  datatype Evaluator = Evaluator(
    score: (Case, Reply) -> Option<CaseResult>,
    dumps: Dumps,
    scope: Scope,
    cases: seq<Case>,
    summarize: seq<CaseResult> -> Metrics)

  /** A strategy as the evaluator scores it. */
  function EvaluatorFor(lib: Library, dumps: Dumps, scope: Scope, cases: seq<Case>,
                        summarize: seq<CaseResult> -> Metrics): Evaluator {
    Evaluator((c: Case, reply: Reply) => if ScoringRaises(lib, c, reply) then None else Some(Scored(lib, c, reply)),
              dumps, scope, cases, summarize)
  }

  ghost predicate ValidEvaluator(e: Evaluator) {
    && (forall c, reply :: e.score(c, reply).Some? ==> e.score(c, reply).value.caseId == c.id)
    && (forall i, j :: 0 <= i < j < |e.cases| ==> e.cases[i].id != e.cases[j].id)
  }

  /** Every stored result of a case is the score of a logged answer to it. */
  ghost predicate Sourced(e: Evaluator, stored: map<string, CaseResult>, log: seq<Answer>) {
    forall i :: 0 <= i < |e.cases| && e.cases[i].id in stored ==>
      exists k :: 0 <= k < |log| && log[k].caseId == e.cases[i].id && e.score(e.cases[i], log[k].reply) == Some(stored[e.cases[i].id])
  }

  predicate StoredUpTo(e: Evaluator, stored: map<string, CaseResult>, n: nat)
    requires n <= |e.cases|
  {
    forall i | 0 <= i < n :: e.cases[i].id in stored
  }

  predicate AllStored(e: Evaluator, stored: map<string, CaseResult>) {
    StoredUpTo(e, stored, |e.cases|)
  }

  lemma StoredUpToNext(e: Evaluator, stored: map<string, CaseResult>, later: map<string, CaseResult>, n: nat)
    requires n < |e.cases| && StoredUpTo(e, stored, n) && stored.Keys <= later.Keys && e.cases[n].id in later
    ensures StoredUpTo(e, later, n + 1)
  {
  }

  /** The stored results in case order. */
  function InOrder(e: Evaluator, stored: map<string, CaseResult>): (results: seq<CaseResult>)
    requires AllStored(e, stored)
    ensures |results| == |e.cases|
  {
    seq(|e.cases|, i requires 0 <= i < |e.cases| => stored[e.cases[i].id])
  }

  lemma SourcedNext(e: Evaluator, stored: map<string, CaseResult>, log: seq<Answer>, i: nat, reply: Reply)
    requires ValidEvaluator(e) && Sourced(e, stored, log) && i < |e.cases|
    ensures Sourced(e, stored, log + [Answer(e.cases[i].id, reply)])
    ensures e.score(e.cases[i], reply).Some?
        ==> Sourced(e, stored[e.cases[i].id := e.score(e.cases[i], reply).value], log + [Answer(e.cases[i].id, reply)])
  {
    var after := log + [Answer(e.cases[i].id, reply)];
    assert after[|log|] == Answer(e.cases[i].id, reply);
    forall j | 0 <= j < |e.cases| && e.cases[j].id in stored
      ensures exists k :: 0 <= k < |after| && after[k].caseId == e.cases[j].id && e.score(e.cases[j], after[k].reply) == Some(stored[e.cases[j].id])
    {
      var k :| 0 <= k < |log| && log[k].caseId == e.cases[j].id && e.score(e.cases[j], log[k].reply) == Some(stored[e.cases[j].id]);
      assert after[k] == log[k];
    }
  }

  // ── One attempt ──────────────────────────────────────────────────────────

  /** `log` extends `before` by answers to cases that were not stored yet. */
  ghost predicate NeverReasked(before: seq<Answer>, log: seq<Answer>, stored: map<string, CaseResult>) {
    && before <= log
    && forall k :: |before| <= k < |log| ==> log[k].caseId !in stored
  }

  lemma NeverReaskedCompose(e: Evaluator, a: seq<Answer>, b: seq<Answer>, c: seq<Answer>,
                            stored: map<string, CaseResult>, later: map<string, CaseResult>)
    requires NeverReasked(a, b, stored) && NeverReasked(b, c, later) && Extends(e, stored, later)
    ensures NeverReasked(a, c, stored)
  {
    forall k | |a| <= k < |c| ensures c[k].caseId !in stored {
      if k < |b| {
        assert c[k] == b[k];
      }
    }
  }

  function CaseIds(cases: seq<Case>): (ids: set<string>)
    ensures |ids| <= |cases|
  {
    if cases == [] then {} else CaseIds(cases[..|cases| - 1]) + {cases[|cases| - 1].id}
  }

  lemma {:induction false} CaseIdIn(cases: seq<Case>, i: nat)
    requires i < |cases|
    ensures cases[i].id in CaseIds(cases)
  {
    if i < |cases| - 1 {
      CaseIdIn(cases[..|cases| - 1], i);
    }
  }

  /** Nothing stored is changed or lost, and what is added are results of cases. */
  ghost predicate Extends(e: Evaluator, stored: map<string, CaseResult>, later: map<string, CaseResult>) {
    && (forall c :: c in stored ==> c in later && later[c] == stored[c])
    && later.Keys <= stored.Keys + CaseIds(e.cases)
  }

  lemma ExtendsCompose(e: Evaluator, a: map<string, CaseResult>, b: map<string, CaseResult>, c: map<string, CaseResult>)
    requires Extends(e, a, b) && Extends(e, b, c)
    ensures Extends(e, a, c)
  {
  }

  // ── What an attempt does, as a function ──────────────────────────────────

  /** What is stored, how often the student was asked, the commits left, and whether the attempt has died. */
  datatype Standing = Standing(stored: map<string, CaseResult>, asked: nat, left: nat, crashed: bool)

  /** A case on record costs nothing.  Any other is answered and scored; the attempt dies if scoring raises or no commit is
      left for the result. */
  function OneCase(e: Evaluator, script: (nat, string) -> Reply, s: Standing, c: Case): Standing {
    if s.crashed || c.id in s.stored then s
    else
      var result := e.score(c, script(s.asked, c.id));
      if result.None? || s.left == 0 then Standing(s.stored, s.asked + 1, s.left, true)
      else Standing(s.stored[c.id := result.value], s.asked + 1, s.left - 1, false)
  }

  function FirstCases(e: Evaluator, script: (nat, string) -> Reply, s: Standing, n: nat): Standing
    requires n <= |e.cases|
  {
    if n == 0 then s else OneCase(e, script, FirstCases(e, script, s, n - 1), e.cases[n - 1])
  }

  lemma {:induction false} CrashedStays(e: Evaluator, script: (nat, string) -> Reply, s: Standing, n: nat, m: nat)
    requires n <= m <= |e.cases| && FirstCases(e, script, s, n).crashed
    ensures FirstCases(e, script, s, m) == FirstCases(e, script, s, n)
    decreases m
  {
    if n < m {
      CrashedStays(e, script, s, n, m - 1);
    }
  }

  method EvaluateCase(table: CaseTable, student: Student, e: Evaluator, i: nat, budget: nat)
    returns (result: Option<CaseResult>, left: nat, crashed: bool)
    requires table.Valid() && ValidEvaluator(e) && i < |e.cases| && Sourced(e, Stored(table.rows, e.scope), student.log)
    requires e.cases[i].id !in Stored(table.rows, e.scope)
    modifies table, student
    ensures table.Valid() && Sourced(e, Stored(table.rows, e.scope), student.log)
    ensures !crashed ==> result.Some? && Stored(table.rows, e.scope) == old(Stored(table.rows, e.scope))[e.cases[i].id := result.value]
    ensures Extends(e, old(Stored(table.rows, e.scope)), Stored(table.rows, e.scope))
    ensures NeverReasked(old(student.log), student.log, old(Stored(table.rows, e.scope)))
    ensures Standing(Stored(table.rows, e.scope), |student.log|, left, crashed)
         == OneCase(e, student.script, Standing(old(Stored(table.rows, e.scope)), |old(student.log)|, budget, false), e.cases[i])
  {
    CaseIdIn(e.cases, i);
    left, crashed := budget, true;
    var reply := student.Call(e.cases[i].id);
    result := e.score(e.cases[i], reply);
    SourcedNext(e, Stored(table.rows, e.scope), old(student.log), i, reply);
    if result.Some? {
      left, crashed := table.Upsert(e.dumps, e.scope, result.value, budget);
    }
  }

  /** Where an attempt that began with `log` and `before` stands: every call but possibly the last was stored. */
  ghost predicate Attempt(e: Evaluator, log: seq<Answer>, before: map<string, CaseResult>, table: CaseTable,
                          now: seq<Answer>)
    reads table
  {
    && table.Valid() && Sourced(e, Stored(table.rows, e.scope), now)
    && Extends(e, before, Stored(table.rows, e.scope)) && NeverReasked(log, now, before)
  }

  method EvaluateIfMissing(table: CaseTable, student: Student, e: Evaluator, i: nat,
                           caseResultById: map<string, CaseResult>,
                           ghost log: seq<Answer>, ghost before: map<string, CaseResult>, budget: nat)
    returns (updated: map<string, CaseResult>, left: nat, crashed: bool)
    requires Attempt(e, log, before, table, student.log) && ValidEvaluator(e) && i < |e.cases|
    requires caseResultById == Stored(table.rows, e.scope)
    modifies table, student
    ensures Attempt(e, log, before, table, student.log)
    ensures Standing(Stored(table.rows, e.scope), |student.log|, left, crashed)
         == OneCase(e, student.script, Standing(caseResultById, |old(student.log)|, budget, false), e.cases[i])
    ensures !crashed ==> updated == Stored(table.rows, e.scope) && e.cases[i].id in updated
    ensures !crashed ==> caseResultById.Keys <= updated.Keys
  {
    updated, left, crashed := caseResultById, budget, false;
    if e.cases[i].id in caseResultById {
      return;
    }
    var result;
    result, left, crashed := EvaluateCase(table, student, e, i, left);
    NeverReaskedCompose(e, log, old(student.log), student.log, before, caseResultById);
    ExtendsCompose(e, before, caseResultById, Stored(table.rows, e.scope));
    if !crashed {
      updated := caseResultById[e.cases[i].id := result.value];
    }
  }

  method EvaluateMissing(table: CaseTable, student: Student, e: Evaluator, completed: map<string, CaseResult>,
                         budget: nat)
    returns (caseResultById: map<string, CaseResult>, left: nat, crashed: bool)
    requires Attempt(e, student.log, completed, table, student.log) && ValidEvaluator(e)
    requires completed == Stored(table.rows, e.scope)
    modifies table, student
    ensures Attempt(e, old(student.log), completed, table, student.log)
    ensures Standing(Stored(table.rows, e.scope), |student.log|, left, crashed)
         == FirstCases(e, student.script, Standing(completed, |old(student.log)|, budget, false), |e.cases|)
    ensures Costs(Standing(completed, |old(student.log)|, budget, false),
                  Standing(Stored(table.rows, e.scope), |student.log|, left, crashed))
    ensures !crashed ==> caseResultById == Stored(table.rows, e.scope)
    ensures !crashed ==> AllStored(e, caseResultById)
  {
    hide Attempt, OneCase, Costs;
    caseResultById, left, crashed := completed, budget, false;
    ghost var log, start := student.log, Standing(completed, |student.log|, budget, false);
    AttemptCosts(e, student.script, start, |e.cases|);
    for i := 0 to |e.cases|
      invariant Attempt(e, log, completed, table, student.log) && caseResultById == Stored(table.rows, e.scope)
      invariant StoredUpTo(e, caseResultById, i)
      invariant Standing(caseResultById, |student.log|, left, false) == FirstCases(e, student.script, start, i)
    {
      ghost var stored := caseResultById;
      caseResultById, left, crashed := EvaluateIfMissing(table, student, e, i, caseResultById, log, completed, left);
      if crashed {
        CrashedStays(e, student.script, start, i + 1, |e.cases|);
        return;
      }
      StoredUpToNext(e, stored, caseResultById, i);
    }
  }

  /** `[case_result_by_id[case.id] for case in cases if case.id in case_result_by_id]`. */
  method CollectResults(e: Evaluator, caseResultById: map<string, CaseResult>) returns (results: seq<CaseResult>)
    requires AllStored(e, caseResultById)
    ensures results == InOrder(e, caseResultById)
  {
    results := [];
    for i := 0 to |e.cases|
      invariant results == InOrder(e, caseResultById)[..i]
    {
      if e.cases[i].id in caseResultById {
        results := results + [caseResultById[e.cases[i].id]];
      }
    }
  }

  method EvaluatePrompt(table: CaseTable, student: Student, e: Evaluator, budget: nat)
    returns (results: seq<CaseResult>, left: nat, crashed: bool)
    requires table.Valid() && ValidEvaluator(e) && Sourced(e, Stored(table.rows, e.scope), student.log)
    modifies table, student
    ensures Attempt(e, old(student.log), old(Stored(table.rows, e.scope)), table, student.log)
    ensures Standing(Stored(table.rows, e.scope), |student.log|, left, crashed)
         == FirstCases(e, student.script, Standing(old(Stored(table.rows, e.scope)), |old(student.log)|, budget, false), |e.cases|)
    ensures Costs(Standing(old(Stored(table.rows, e.scope)), |old(student.log)|, budget, false),
                  Standing(Stored(table.rows, e.scope), |student.log|, left, crashed))
    ensures !crashed ==> AllStored(e, Stored(table.rows, e.scope)) && results == InOrder(e, Stored(table.rows, e.scope))
  {
    hide Costs;
    var completed := table.Completed(e.scope);
    var caseResultById;
    results := [];
    caseResultById, left, crashed := EvaluateMissing(table, student, e, completed, budget);
    if !crashed {
      results := CollectResults(e, caseResultById);
    }
  }

  // ── What an attempt costs ────────────────────────────────────────────────

  /** Every call but the last of a dead attempt was stored and every stored result used one commit. */
  ghost predicate Costs(before: Standing, after: Standing) {
    && after.asked - before.asked == |after.stored| - |before.stored| + (if after.crashed && !before.crashed then 1 else 0)
    && after.left + |after.stored| == before.left + |before.stored|
  }

  lemma OneCaseCosts(e: Evaluator, script: (nat, string) -> Reply, s: Standing, c: Case)
    ensures Costs(s, OneCase(e, script, s, c)) && (s.crashed ==> OneCase(e, script, s, c) == s)
  {
  }

  lemma {:induction false} AttemptCosts(e: Evaluator, script: (nat, string) -> Reply, s: Standing, n: nat)
    requires n <= |e.cases| && !s.crashed
    ensures Costs(s, FirstCases(e, script, s, n))
  {
    hide OneCase;
    if n > 0 {
      AttemptCosts(e, script, s, n - 1);
      OneCaseCosts(e, script, FirstCases(e, script, s, n - 1), e.cases[n - 1]);
    }
  }

  ghost predicate NeverRaises(e: Evaluator) {
    forall c, reply :: c in e.cases ==> e.score(c, reply).Some?
  }

  /** An attempt that died had used up its commits, unless scoring raised. */
  lemma {:induction false} DiesOfCommits(e: Evaluator, script: (nat, string) -> Reply, s: Standing, n: nat)
    requires n <= |e.cases| && NeverRaises(e) && !s.crashed
    ensures FirstCases(e, script, s, n).crashed ==> FirstCases(e, script, s, n).left == 0
  {
    if n > 0 {
      DiesOfCommits(e, script, s, n - 1);
      assert e.cases[n - 1] in e.cases;
    }
  }
}
