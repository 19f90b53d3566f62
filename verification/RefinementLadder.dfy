/** What the refinement loop accepts, told without its state: a run from scratch climbs a ladder of outcomes, and ends for
    one of four reasons only. */
module RefinementLadder {
  import opened Wrappers
  import opened Rules
  import opened Pruning
  import opened RuleRefinement
  import opened RefinementLoop

  type Round = RefinementLoop.Round

  /** The rules a run stands on after some accepted outcomes. */
  function RulesAfter(rules: seq<Rule>, rungs: seq<Outcome>): seq<Rule> {
    if rungs == [] then rules else rungs[|rungs| - 1].rules
  }

  function EvalAfter(eval: Eval, rungs: seq<Outcome>): Eval {
    if rungs == [] then eval else rungs[|rungs| - 1].eval
  }

  /** The measured value; an absent one counts as zero. */
  function Measured(metric: Metric, e: Eval): real {
    var value := if metric == MacroF1 then e.macroF1 else if metric == Accuracy then e.accuracy else e.weightedCaseScore;
    if value == None then 0.0 else value.value
  }

  /** The outcome is not worse than what the run stood on. */
  predicate NotWorse(task: Task, eval: Eval, rungs: seq<Outcome>, outcome: Outcome) {
    Measured(task.metric, outcome.eval) >= Measured(task.metric, EvalAfter(eval, rungs))
  }

  /** The last accepted outcome gained less than epsilon. */
  predicate GainedLittle(task: Task, eval: Eval, rungs: seq<Outcome>) {
    rungs != []
    && var n := |rungs| - 1;
       Measured(task.metric, rungs[n].eval) < Measured(task.metric, EvalAfter(eval, rungs[..n])) + task.epsilon
  }

  /** Each rung is the outcome of the next iteration on the rules before it, and not worse than what was before it; before
      each rung but the first the gain was no less than epsilon. */
  predicate Ladder(task: Task, round: Round, rules: seq<Rule>, eval: Eval, rungs: seq<Outcome>) {
    rungs == []
    || (var n := |rungs| - 1;
        && Ladder(task, round, rules, eval, rungs[..n])
        && round(n, RulesAfter(rules, rungs[..n])) == Some(rungs[n])
        && NotWorse(task, eval, rungs[..n], rungs[n])
        && !GainedLittle(task, eval, rungs[..n]))
  }

  /** Why a run goes no further: iterations ran out, the last gain was below epsilon, the next round had no outcome, or its
      outcome was worse. */
  predicate Ends(task: Task, round: Round, rules: seq<Rule>, eval: Eval, rungs: seq<Outcome>) {
    |rungs| == task.maxIterations || GainedLittle(task, eval, rungs) || Falls(task, round, rules, eval, rungs)
  }

  predicate Falls(task: Task, round: Round, rules: seq<Rule>, eval: Eval, rungs: seq<Outcome>) {
    var next := round(|rungs|, RulesAfter(rules, rungs));
    next.None? || !NotWorse(task, eval, rungs, next.value)
  }

  // ── A fresh run climbs its ladder ────────────────────────────────────────

  /** The state holds what the rungs say, and has stopped exactly if it cannot go on. */
  ghost predicate Stands(task: Task, round: Round, rules: seq<Rule>, eval: Eval, n: nat, rungs: seq<Outcome>, s: State) {
    && Ladder(task, round, rules, eval, rungs) && s.accepted == |rungs| <= n
    && s.currentRules == RulesAfter(rules, rungs) && s.currentMetric == Measured(task.metric, EvalAfter(eval, rungs))
    && (rungs != [] ==> rungs[|rungs| - 1] == Outcome(s.bestRules, s.bestEval))
    && (s.stopped ==> GainedLittle(task, eval, rungs) || (|rungs| < n && Falls(task, round, rules, eval, rungs)))
    && (!s.stopped ==> |rungs| == n && !GainedLittle(task, eval, rungs))
  }

  lemma StandsNext(task: Task, round: Round, rules: seq<Rule>, eval: Eval, n: nat, rungs: seq<Outcome>, s: State)
    returns (more: seq<Outcome>)
    requires Stands(task, round, rules, eval, n, rungs, s) && !s.stopped
    ensures Stands(task, round, rules, eval, n + 1, more, Iterate(task, round, map[], n, s))
  {
    more := rungs;
    var outcome := round(n, s.currentRules);
    if outcome.Some? && NotWorse(task, eval, rungs, outcome.value) {
      more := rungs + [outcome.value];
      assert more[..n] == rungs;
    }
  }

  lemma {:induction false} FreshRunStands(task: Task, round: Round, rules: seq<Rule>, eval: Eval, n: nat)
    returns (rungs: seq<Outcome>)
    ensures Stands(task, round, rules, eval, n, rungs, Iterated(task, round, map[], n, Start(rules, eval, task)))
  {
    rungs := [];
    if n > 0 {
      rungs := FreshRunStands(task, round, rules, eval, n - 1);
      var before := Iterated(task, round, map[], n - 1, Start(rules, eval, task));
      if !before.stopped {
        rungs := StandsNext(task, round, rules, eval, n - 1, rungs, before);
      }
    }
  }

  /** A fresh run returns the top of a ladder that it climbed until it had to end, and nothing if it climbed no rung. */
  lemma FreshRunClimbs(task: Task, round: Round, rules: seq<Rule>, eval: Eval) returns (rungs: seq<Outcome>)
    requires rules != []
    ensures Ladder(task, round, rules, eval, rungs) && |rungs| <= task.maxIterations && Ends(task, round, rules, eval, rungs)
    ensures Final(task, round, map[], rules, eval).accepted == |rungs|
    ensures Returned(task, round, map[], rules, eval) == if rungs == [] then None else Some(rungs[|rungs| - 1])
  {
    rungs := FreshRunStands(task, round, rules, eval, task.maxIterations);
  }

  lemma {:induction false} LadderPrefix(task: Task, round: Round, rules: seq<Rule>, eval: Eval, rungs: seq<Outcome>, k: nat)
    requires Ladder(task, round, rules, eval, rungs) && k <= |rungs|
    ensures Ladder(task, round, rules, eval, rungs[..k])
    ensures k < |rungs| ==> !GainedLittle(task, eval, rungs[..k]) && !Falls(task, round, rules, eval, rungs[..k])
    decreases |rungs|
  {
    if k == |rungs| {
      assert rungs[..k] == rungs;
    } else {
      var n := |rungs| - 1;
      LadderPrefix(task, round, rules, eval, rungs[..n], k);
      assert rungs[..n][..k] == rungs[..k];
    }
  }

  lemma {:induction false} LaddersAgree(task: Task, round: Round, rules: seq<Rule>, eval: Eval, a: seq<Outcome>, b: seq<Outcome>)
    requires Ladder(task, round, rules, eval, a) && Ladder(task, round, rules, eval, b) && |a| == |b|
    ensures a == b
    decreases |a|
  {
    if a != [] {
      var n := |a| - 1;
      LaddersAgree(task, round, rules, eval, a[..n], b[..n]);
      assert a == a[..n] + [a[n]] && b == b[..n] + [b[n]];
    }
  }

  /** There is one such ladder only: the rounds alone decide what the loop accepts and where it ends. */
  lemma LadderIsUnique(task: Task, round: Round, rules: seq<Rule>, eval: Eval, a: seq<Outcome>, b: seq<Outcome>)
    requires Ladder(task, round, rules, eval, a) && Ends(task, round, rules, eval, a) && |a| <= task.maxIterations
    requires Ladder(task, round, rules, eval, b) && Ends(task, round, rules, eval, b) && |b| <= task.maxIterations
    ensures a == b
  {
    var k := if |a| <= |b| then |a| else |b|;
    LadderPrefix(task, round, rules, eval, a, k);
    LadderPrefix(task, round, rules, eval, b, k);
    LaddersAgree(task, round, rules, eval, a[..k], b[..k]);
    assert a[..|a|] == a && b[..|b|] == b;
  }

  /** A fresh run returns something if and only if there is an iteration to make, and the first one has an outcome that is
      not below the baseline: no improvement is thrown away. */
  lemma FreshRunReturnsIff(task: Task, world: World, rules: seq<Rule>, eval: Eval)
    ensures Returned(task, RoundOf(task, world), map[], rules, eval).Some? <==>
      && rules != [] && task.maxIterations >= 1
      && RoundAt(task, world, 0, rules).Some?
      && Measured(task.metric, RoundAt(task, world, 0, rules).value.eval) >= Measured(task.metric, eval)
  {
    if rules != [] {
      var rungs := FreshRunClimbs(task, RoundOf(task, world), rules, eval);
      if rungs != [] {
        LadderPrefix(task, RoundOf(task, world), rules, eval, rungs, 0);
        assert rungs[..0] == [];
      }
    }
  }

  /** A run that takes at least k rounds takes the one after them, too, if it may: the accepted outcomes are maximal. */
  lemma GoodRoundIsAccepted(task: Task, round: Round, rules: seq<Rule>, eval: Eval, rungs: seq<Outcome>)
    requires rules != [] && Ladder(task, round, rules, eval, rungs)
    requires |rungs| < task.maxIterations && !GainedLittle(task, eval, rungs) && !Falls(task, round, rules, eval, rungs)
    ensures Final(task, round, map[], rules, eval).accepted > |rungs|
  {
    var all := FreshRunClimbs(task, round, rules, eval);
    var k := if |all| <= |rungs| then |all| else |rungs|;
    LadderPrefix(task, round, rules, eval, rungs, k);
    LadderPrefix(task, round, rules, eval, all, k);
    LaddersAgree(task, round, rules, eval, rungs[..k], all[..k]);
    assert all[..|all|] == all && rungs[..|rungs|] == rungs;
  }

  // ── What a fresh run leaves on disk ──────────────────────────────────────

  /** One artifact per evaluated iteration: the accepted ones, and the one that was worse. */
  ghost predicate LeftBehind(task: Task, round: Round, rules: seq<Rule>, eval: Eval, rungs: seq<Outcome>, n: nat, left: Artifacts) {
    var next := round(|rungs|, RulesAfter(rules, rungs));
    && (forall i: nat :: i in left <==>
          i < |rungs| || (i == |rungs| < n && next.Some? && !GainedLittle(task, eval, rungs)))
    && (forall i: nat :: i < |rungs| ==> left[i] == Some(Measured(task.metric, rungs[i].eval)))
    && (|rungs| in left ==> left[|rungs|] == Some(Measured(task.metric, next.value.eval)))
  }

  lemma LeftBehindNext(task: Task, round: Round, rules: seq<Rule>, eval: Eval, n: nat, rungs: seq<Outcome>, s: State,
                       left: Artifacts, more: seq<Outcome>)
    requires Stands(task, round, rules, eval, n, rungs, s) && LeftBehind(task, round, rules, eval, rungs, n, left)
    requires Stands(task, round, rules, eval, n + 1, more, if s.stopped then s else Iterate(task, round, map[], n, s))
    ensures LeftBehind(task, round, rules, eval, more, n + 1,
                       if s.stopped then left else Recorded(task, round, map[], n, s, left))
  {
    LadderPrefix(task, round, rules, eval, more, if |rungs| <= |more| then |rungs| else |more|);
    if |rungs| <= |more| {
      LaddersAgree(task, round, rules, eval, rungs, more[..|rungs|]);
    }
    if s.stopped {
      assert more == rungs;
    } else {
      var outcome := round(n, s.currentRules);
      if outcome.Some? && |more| > n {
        assert more[..n] == rungs;
      }
    }
  }

  lemma {:induction false} FreshRunLeavesLadder(task: Task, round: Round, rules: seq<Rule>, eval: Eval, n: nat, rungs: seq<Outcome>)
    requires Stands(task, round, rules, eval, n, rungs, Iterated(task, round, map[], n, Start(rules, eval, task)))
    ensures LeftBehind(task, round, rules, eval, rungs, n, ArtifactsAfter(task, round, map[], n, Start(rules, eval, task)))
    decreases n
  {
    if n > 0 {
      var before := FreshRunStands(task, round, rules, eval, n - 1);
      FreshRunLeavesLadder(task, round, rules, eval, n - 1, before);
      LeftBehindNext(task, round, rules, eval, n - 1, before,
                     Iterated(task, round, map[], n - 1, Start(rules, eval, task)),
                     ArtifactsAfter(task, round, map[], n - 1, Start(rules, eval, task)), rungs);
    }
  }

  /** The ladder that a fresh run climbs is what it leaves on disk. */
  lemma FreshRunLeavesItsLadder(task: Task, round: Round, rules: seq<Rule>, eval: Eval, rungs: seq<Outcome>)
    requires rules != [] && Ladder(task, round, rules, eval, rungs)
    requires Ends(task, round, rules, eval, rungs) && |rungs| <= task.maxIterations
    ensures LeftBehind(task, round, rules, eval, rungs, task.maxIterations,
                       ArtifactsAfter(task, round, map[], task.maxIterations, Start(rules, eval, task)))
  {
    var all := FreshRunStands(task, round, rules, eval, task.maxIterations);
    FreshRunLeavesLadder(task, round, rules, eval, task.maxIterations, all);
    LadderIsUnique(task, round, rules, eval, rungs, all);
  }

  // ── When an iteration has an outcome ─────────────────────────────────────

  /** Some rule is implicated and the teacher's reply acts on one, or has a version 1 entry. */
  ghost predicate Answers(rules: seq<Rule>, implicated: set<string>, reply: Option<Refinement>) {
    && (exists r :: r in rules && r.id in implicated)
    && reply.Some?
    && (reply.value.entries != []
        || exists a, r :: a in reply.value.actions && r in rules && r.id == a.ruleId && r.id in implicated)
  }

  /** An iteration has an outcome if and only if there are signals, the teacher gives something to do, some rule survives
      the pruning, the prompt compiles and the student is evaluated; the outcome is then what is left after pruning. */
  lemma RoundHasOutcomeIff(task: Task, world: World, i: nat, rules: seq<Rule>)
    ensures var reply := world.teacher(i, rules);
            var left := if reply.None? then []
                        else Selected(task.pruning.(utility := world.signals(i), goldenCaseIds := {}, classroom := []),
                                      Refined(rules, world.implicated(i), reply.value));
            && (RoundAt(task, world, i, rules).Some? <==>
                  && world.signals(i) != map[] && Answers(rules, world.implicated(i), reply)
                  && left != [] && world.compiles(i, left) && world.student(i, left).Some?)
            && (RoundAt(task, world, i, rules).Some? ==>
                  RoundAt(task, world, i, rules).value == Outcome(left, world.student(i, left).value))
  {
    hide Selected, Applied, Answers, AllowedIds, Accepted;
    AnswersIff(world, i, rules);
  }

  /** The refinement of an answer has something to apply, and nothing else has. */
  lemma AnswersIff(world: World, i: nat, rules: seq<Rule>)
    ensures var reply, refinement := world.teacher(i, rules), Refining(world, i, rules);
            && (Answers(rules, world.implicated(i), reply) <==>
                  refinement.Some? && (refinement.value.actions != [] || refinement.value.entries != []))
            && (Answers(rules, world.implicated(i), reply)
                ==> refinement == Some(Filtered(rules, world.implicated(i), reply.value)))
  {
    hide Accepted;
    var reply, implicated := world.teacher(i, rules), world.implicated(i);
    var allowed := AllowedIds(rules, implicated);
    if r :| r in rules && r.id in implicated {
      assert r.id in allowed;
    }
    if reply.Some? {
      ActsOnSome(rules, implicated, reply.value.actions);
    }
  }

  lemma ActsOnSome(rules: seq<Rule>, implicated: set<string>, actions: seq<Action>)
    ensures Accepted(actions, AllowedIds(rules, implicated)) != [] <==>
      exists a, r :: a in actions && r in rules && r.id == a.ruleId && r.id in implicated
  {
    var allowed := AllowedIds(rules, implicated);
    var accepted := Accepted(actions, allowed);
    AcceptedAreAllowed(actions, allowed);
    if accepted != [] {
      var a := accepted[0];
      assert a in accepted;
      var r :| r in rules && r.id in implicated && r.id == a.ruleId;
    }
    if a, r :| a in actions && r in rules && r.id == a.ruleId && r.id in implicated {
      AcceptedKeeps(actions, allowed, a);
    }
  }
}
