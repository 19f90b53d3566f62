/** The closed refinement loop, `_run_refinement_loop` of `src/rulekiln/workers/distillation_worker.py`,
    against an arbitrary teacher, student and prompt compiler. */
module RefinementLoop {
  import opened Wrappers
  import opened Sorting
  import opened Rules
  import opened Pruning
  import opened RuleRefinement

  datatype Eval = Eval(macroF1: Option<real>, accuracy: Option<real>, weightedCaseScore: Option<real>)

  datatype Metric = MacroF1 | Accuracy | WeightedCaseScore

  function PrimaryScore(e: Eval, metric: Metric): real {
    match metric
    case MacroF1 => OrZero(e.macroF1)
    case Accuracy => OrZero(e.accuracy)
    case WeightedCaseScore => OrZero(e.weightedCaseScore)
  }

  /** What the loop cannot control, by iteration; `None` stands for an exception.  `signals` and `implicated` come from
      the failure analysis, `teacher` is the reply to the implicated rules before it is filtered. */
  datatype World = World(
    signals: nat -> Signals,
    implicated: nat -> set<string>,
    teacher: (nat, seq<Rule>) -> Option<Refinement>,
    compiles: (nat, seq<Rule>) -> bool,
    student: (nat, seq<Rule>) -> Option<Eval>)

  datatype Task = Task(maxIterations: nat, epsilon: real, metric: Metric, pruning: Config)

  /** Iteration artifacts already on disk; `None` is one that cannot be loaded. */
  type Artifacts = map<nat, Option<real>>

  /** `accepted` counts accepted iterations and `acceptedAt` is the last of them. */
  datatype State = State(
    currentMetric: real,
    currentRules: seq<Rule>,
    bestRules: seq<Rule>,
    bestEval: Eval,
    accepted: nat,
    acceptedAt: nat,
    stopped: bool)

  function Start(rules: seq<Rule>, eval: Eval, task: Task): State {
    State(PrimaryScore(eval, task.metric), rules, rules, eval, 0, 0, false)
  }

  function PruningFor(task: Task, world: World, i: nat): Config {
    task.pruning.(utility := world.signals(i), goldenCaseIds := {}, classroom := [])
  }

  /** What `refine_rules_with_teacher` returns; `None` stands for an exception.  Without an implicated rule the teacher
      is not asked, and the refinement is empty. */
  function Refining(world: World, i: nat, rules: seq<Rule>): Option<Refinement> {
    if AllowedIds(rules, world.implicated(i)) == {} then Some(Refinement([], []))
    else
      var reply := world.teacher(i, rules);
      if reply.None? then None else Some(Filtered(rules, world.implicated(i), reply.value))
  }

  /** The rules an iteration evaluates, if it gets that far. */
  function Proposal(task: Task, world: World, i: nat, rules: seq<Rule>): Option<seq<Rule>> {
    if world.signals(i) == map[] then None
    else
      var refinement := Refining(world, i, rules);
      if refinement.None? || (refinement.value.actions == [] && refinement.value.entries == []) then None
      else
        var selected := Selected(PruningFor(task, world, i), Applied(rules, refinement.value));
        if selected == [] || !world.compiles(i, selected) then None else Some(selected)
  }

  /** What an iteration that runs to its end evaluates, and the student's evaluation of it. */
  datatype Outcome = Outcome(rules: seq<Rule>, eval: Eval)

  /** The outcome of iteration i on the current rules, if it gets that far. */
  type Round = (nat, seq<Rule>) -> Option<Outcome>

  function RoundAt(task: Task, world: World, i: nat, rules: seq<Rule>): Option<Outcome> {
    var proposal := Proposal(task, world, i, rules);
    if proposal.None? || world.student(i, proposal.value).None? then None
    else Some(Outcome(proposal.value, world.student(i, proposal.value).value))
  }

  function RoundOf(task: Task, world: World): Round {
    (i: nat, rules: seq<Rule>) => RoundAt(task, world, i, rules)
  }

  function Iterate(task: Task, round: Round, done: Artifacts, i: nat, s: State): State {
    if i in done then s.(currentMetric := if done[i].Some? then done[i].value else s.currentMetric)
    else
      var outcome := round(i, s.currentRules);
      if outcome.None? then s.(stopped := true)
      else
        var metric := PrimaryScore(outcome.value.eval, task.metric);
        if metric < s.currentMetric then s.(stopped := true)
        else State(metric, outcome.value.rules, outcome.value.rules, outcome.value.eval, s.accepted + 1, i,
                   metric - s.currentMetric < task.epsilon)
  }

  function Iterated(task: Task, round: Round, done: Artifacts, n: nat, s: State): State {
    if n == 0 then s
    else
      var before := Iterated(task, round, done, n - 1, s);
      if before.stopped then before else Iterate(task, round, done, n - 1, before)
  }

  /** The artifacts after iteration i: one that evaluates a proposal records its metric, accepted or not. */
  function Recorded(task: Task, round: Round, done: Artifacts, i: nat, s: State, left: Artifacts): Artifacts {
    var outcome := round(i, s.currentRules);
    if i in done || outcome.None? then left else left[i := Some(PrimaryScore(outcome.value.eval, task.metric))]
  }

  /** What is on disk after n iterations of a run that found `done`. */
  function ArtifactsAfter(task: Task, round: Round, done: Artifacts, n: nat, s: State): Artifacts {
    if n == 0 then done
    else
      var before, left := Iterated(task, round, done, n - 1, s), ArtifactsAfter(task, round, done, n - 1, s);
      if before.stopped then left else Recorded(task, round, done, n - 1, before, left)
  }

  function Final(task: Task, round: Round, done: Artifacts, rules: seq<Rule>, eval: Eval): State {
    Iterated(task, round, done, task.maxIterations, Start(rules, eval, task))
  }

  /** What the loop returns: the last accepted outcome, if any. */
  function Returned(task: Task, round: Round, done: Artifacts, rules: seq<Rule>, eval: Eval): Option<Outcome> {
    var s := Final(task, round, done, rules, eval);
    if rules == [] || s.accepted == 0 then None else Some(Outcome(s.bestRules, s.bestEval))
  }

  lemma {:induction false} StoppedStays(task: Task, round: Round, done: Artifacts, m: nat, n: nat, s: State)
    requires m <= n && Iterated(task, round, done, m, s).stopped
    ensures Iterated(task, round, done, n, s) == Iterated(task, round, done, m, s)
    ensures ArtifactsAfter(task, round, done, n, s) == ArtifactsAfter(task, round, done, m, s)
    decreases n
  {
    if m < n {
      StoppedStays(task, round, done, m, n - 1, s);
    }
  }

  method Refine(world: World, iteration: nat, currentRules: seq<Rule>) returns (refinement: Option<Refinement>)
    ensures refinement == Refining(world, iteration, currentRules)
  {
    var allowed := AllowedIds(currentRules, world.implicated(iteration));
    if allowed == {} {
      return Some(Refinement([], []));
    }
    var reply := world.teacher(iteration, currentRules);
    if reply.None? {
      return None;
    }
    var accepted, rejected := FilterActions(reply.value.actions, allowed);
    return Some(Refinement(accepted, reply.value.entries));
  }

  /** One iteration as the code runs it: the outcome of its teacher, pruner, compiler and student. */
  method RunRound(task: Task, world: World, iteration: nat, currentRules: seq<Rule>) returns (outcome: Option<Outcome>)
    ensures outcome == RoundAt(task, world, iteration, currentRules)
  {
    var signals := world.signals(iteration);
    if signals == map[] {
      return None;
    }
    var refinement := Refine(world, iteration, currentRules);
    if refinement.None? {
      return None;
    }
    if refinement.value.actions == [] && refinement.value.entries == [] {
      return None;
    }
    var newRules := ApplyRefinements(currentRules, refinement.value);
    var selected, pruned := PruneRules(PruningFor(task, world, iteration), newRules);
    if selected == [] {
      return None;
    }
    if !world.compiles(iteration, selected) {
      return None;
    }
    var newEval := world.student(iteration, selected);
    return if newEval.None? then None else Some(Outcome(selected, newEval.value));
  }

  /** The state and the artifacts after n iterations. */
  predicate Reached(task: Task, round: Round, done: Artifacts, start: State, n: nat, s: State, left: Artifacts) {
    s == Iterated(task, round, done, n, start) && left == ArtifactsAfter(task, round, done, n, start)
  }

  lemma ReachedNext(task: Task, round: Round, done: Artifacts, start: State, n: nat, s: State, left: Artifacts)
    requires Reached(task, round, done, start, n, s, left) && !s.stopped
    ensures Reached(task, round, done, start, n + 1, Iterate(task, round, done, n, s),
                    Recorded(task, round, done, n, s, left))
  {
  }

  lemma ReachedEnd(task: Task, round: Round, done: Artifacts, start: State, n: nat, s: State, left: Artifacts)
    requires Reached(task, round, done, start, n, s, left) && n <= task.maxIterations
    requires s.stopped || n == task.maxIterations
    ensures Reached(task, round, done, start, task.maxIterations, s, left)
  {
    if s.stopped {
      StoppedStays(task, round, done, n, task.maxIterations, start);
    }
  }

  lemma ReachedStart(task: Task, round: Round, done: Artifacts, start: State)
    ensures Reached(task, round, done, start, 0, start, done)
  {
  }

  /** The loop's variables hold the state. */
  predicate Holds(s: State, currentMetric: real, currentRules: seq<Rule>, best: Option<Outcome>) {
    && s.currentMetric == currentMetric && s.currentRules == currentRules
    && best == if s.accepted == 0 then None else Some(Outcome(s.bestRules, s.bestEval))
  }

  /** One pass of the loop body.  An iteration that runs to its end writes its artifact before it may stop the loop. */
  method RunIteration(task: Task, world: World, done: Artifacts, iteration: nat, metric: real, rules: seq<Rule>,
                      soFar: Option<Outcome>, left: Artifacts, ghost s: State)
    returns (newMetric: real, newRules: seq<Rule>, best: Option<Outcome>, written: Artifacts, stop: bool)
    requires Holds(s, metric, rules, soFar) && !s.stopped
    ensures Holds(Iterate(task, RoundOf(task, world), done, iteration, s), newMetric, newRules, best)
    ensures written == Recorded(task, RoundOf(task, world), done, iteration, s, left)
    ensures stop == Iterate(task, RoundOf(task, world), done, iteration, s).stopped
  {
    newMetric, newRules, best, written, stop := metric, rules, soFar, left, false;
    if iteration in done {
      if done[iteration].Some? {
        newMetric := done[iteration].value;
      }
      return;
    }
    var outcome := RunRound(task, world, iteration, rules);
    if outcome.None? {
      stop := true;
      return;
    }
    var score := PrimaryScore(outcome.value.eval, task.metric);
    written := left[iteration := Some(score)];
    if score < metric {
      stop := true;
      return;
    }
    newMetric, newRules, best, stop := score, outcome.value.rules, outcome, score - metric < task.epsilon;
  }

  /** The loop is still running when n iterations are over: the process may die in the next one. */
  predicate StillRunning(task: Task, round: Round, done: Artifacts, n: nat, start: State) {
    n < task.maxIterations && !Iterated(task, round, done, n, start).stopped
  }

  /** What is on disk when the process dies in iteration n; the artifact it was writing may be torn. */
  function Interrupted(task: Task, round: Round, done: Artifacts, n: nat, torn: bool, start: State): Artifacts {
    var left, next := ArtifactsAfter(task, round, done, n, start), ArtifactsAfter(task, round, done, n + 1, start);
    if torn && n in next && n !in left then left[n := None] else left
  }

  /** A process that dies in iteration n leaves what n iterations leave, and one torn artifact at most. */
  lemma InterruptedLeaves(task: Task, round: Round, done: Artifacts, n: nat, torn: bool, start: State, i: nat)
    ensures var before, left := ArtifactsAfter(task, round, done, n, start), Interrupted(task, round, done, n, torn, start);
            && (i in before ==> i in left && left[i] == before[i])
            && (i in left && i !in before ==> torn && i == n && left[i] == None)
  {
  }

  /** The loop of a process that dies in the iteration after `lives` others, if it gets there. */
  method RunRefinementLoop(task: Task, world: World, done: Artifacts, initialRules: seq<Rule>, currentEval: Eval,
                           lives: nat, torn: bool)
    returns (best: Option<Outcome>, written: Artifacts, crashed: bool)
    ensures var round, start := RoundOf(task, world), Start(initialRules, currentEval, task);
      && (crashed <==> initialRules != [] && StillRunning(task, round, done, lives, start))
      && (crashed ==> written == Interrupted(task, round, done, lives, torn, start) && best.None?)
      && (!crashed ==> best == Returned(task, round, done, initialRules, currentEval))
      && (!crashed ==> written == if initialRules == [] then done
                                  else ArtifactsAfter(task, round, done, task.maxIterations, start))
  {
    best, written, crashed := None, done, false;
    if initialRules == [] {
      return;
    }
    ghost var round, start := RoundOf(task, world), Start(initialRules, currentEval, task);
    ghost var s := start;
    var currentMetric, currentRules := PrimaryScore(currentEval, task.metric), initialRules;
    var iteration, stop := 0, false;
    ReachedStart(task, round, done, start);
    while iteration < task.maxIterations && !stop
      invariant iteration <= task.maxIterations && iteration <= lives && stop == s.stopped
      invariant Reached(task, round, done, start, iteration, s, written)
      invariant Holds(s, currentMetric, currentRules, best)
    {
      ReachedNext(task, round, done, start, iteration, s, written);
      ghost var before := s;
      s := Iterate(task, round, done, iteration, before);
      var newBest, newlyWritten;
      currentMetric, currentRules, newBest, newlyWritten, stop :=
        RunIteration(task, world, done, iteration, currentMetric, currentRules, best, written, before);
      if iteration == lives {
        written := if torn && iteration in newlyWritten && iteration !in written then written[iteration := None] else written;
        return None, written, true;
      }
      best, written, iteration := newBest, newlyWritten, iteration + 1;
    }
    if stop {
      StoppedStays(task, round, done, iteration, lives, start);
    }
    ReachedEnd(task, round, done, start, iteration, s, written);
  }

  // ── Safety of fresh runs ─────────────────────────────────────────────────

  predicate WithinBudgets(task: Task, rules: seq<Rule>) {
    && rules != [] && TokenSum(rules) <= task.pruning.maxTokens
    && (task.pruning.maxRules >= 0 ==> |rules| <= task.pruning.maxRules)
  }

  /** The best evaluation is the student's evaluation of the best rules, which are within the budgets. */
  predicate BestIsEvaluated(task: Task, world: World, s: State) {
    && world.student(s.acceptedAt, s.bestRules) == Some(s.bestEval)
    && WithinBudgets(task, s.bestRules)
  }

  /** How much `k` accepted iterations have gained at least: all but the one that stopped the loop gained epsilon. */
  function Gain(k: nat, stopped: bool, epsilon: real): real {
    if k == 0 then 0.0 else (if stopped then k - 1 else k) as real * epsilon
  }

  lemma TimesNext(k: int, x: real)
    ensures (k + 1) as real * x == k as real * x + x
  {
    assert (k + 1) as real == k as real + 1.0;
  }

  lemma TimesSign(k: nat, x: real)
    ensures x < 0.0 ==> k as real * x <= 0.0
  {
  }

  /** The steps of the gain; a negative epsilon never asks for anything. */
  lemma GainStep(k: nat, stopped: bool, epsilon: real)
    ensures Gain(k + 1, true, epsilon) == Gain(k, false, epsilon)
    ensures Gain(k + 1, false, epsilon) == Gain(k, false, epsilon) + epsilon
    ensures epsilon < 0.0 ==> Gain(k, stopped, epsilon) <= 0.0 && Gain(k + 1, stopped, epsilon) <= 0.0
    ensures epsilon >= 0.0 ==> Gain(k, true, epsilon) <= Gain(k, false, epsilon)
    ensures k > 0 && epsilon >= 0.0 ==> Gain(k, stopped, epsilon) >= (k - 1) as real * epsilon
    ensures k > 0 && epsilon < 0.0 ==> (k - 1) as real * epsilon <= 0.0
  {
    TimesNext(k, epsilon);
    TimesNext(k - 1, epsilon);
    TimesSign(k, epsilon);
    TimesSign(k + 1, epsilon);
    if k > 0 {
      TimesSign(k - 1, epsilon);
    }
  }

  ghost predicate LoopInv(task: Task, round: Round, baseline: real, n: nat, s: State) {
    && s.accepted <= n && s.currentMetric >= baseline
    && s.currentMetric >= baseline + Gain(s.accepted, s.stopped, task.epsilon)
    && (s.accepted > 0 ==>
         && s.currentMetric == PrimaryScore(s.bestEval, task.metric)
         && exists rules :: round(s.acceptedAt, rules) == Some(Outcome(s.bestRules, s.bestEval)))
  }

  lemma IterateKeepsInv(task: Task, round: Round, baseline: real, i: nat, s: State)
    requires LoopInv(task, round, baseline, i, s) && !s.stopped
    ensures LoopInv(task, round, baseline, i + 1, Iterate(task, round, map[], i, s))
  {
    GainStep(s.accepted, false, task.epsilon);
  }

  lemma {:induction false} FreshRunInv(task: Task, round: Round, n: nat, rules: seq<Rule>, eval: Eval)
    ensures LoopInv(task, round, PrimaryScore(eval, task.metric), n, Iterated(task, round, map[], n, Start(rules, eval, task)))
  {
    if n > 0 {
      FreshRunInv(task, round, n - 1, rules, eval);
      var before := Iterated(task, round, map[], n - 1, Start(rules, eval, task));
      if !before.stopped {
        IterateKeepsInv(task, round, PrimaryScore(eval, task.metric), n - 1, before);
      }
    }
  }

  /** k accepted iterations ended on a metric not below the baseline, and (k - 1) epsilon above it. */
  predicate Gained(task: Task, baseline: real, s: State) {
    && PrimaryScore(s.bestEval, task.metric) >= baseline
    && PrimaryScore(s.bestEval, task.metric) >= baseline + (s.accepted - 1) as real * task.epsilon
  }

  /** What a fresh run gains, for any source of rounds. */
  lemma FreshRunGains(task: Task, round: Round, n: nat, rules: seq<Rule>, eval: Eval) returns (from: seq<Rule>)
    ensures var s := Iterated(task, round, map[], n, Start(rules, eval, task));
            s.accepted > 0 ==>
              && round(s.acceptedAt, from) == Some(Outcome(s.bestRules, s.bestEval))
              && Gained(task, PrimaryScore(eval, task.metric), s)
              && s.accepted <= n
  {
    FreshRunInv(task, round, n, rules, eval);
    var s := Iterated(task, round, map[], n, Start(rules, eval, task));
    from := [];
    if s.accepted > 0 {
      GainStep(s.accepted, s.stopped, task.epsilon);
      from :| round(s.acceptedAt, from) == Some(Outcome(s.bestRules, s.bestEval));
    }
  }

  lemma ProposalWithinBudgets(task: Task, world: World, i: nat, rules: seq<Rule>)
    requires Proposal(task, world, i, rules).Some?
    ensures WithinBudgets(task, Proposal(task, world, i, rules).value)
  {
    SelectionIsRankedAndWithinBudgets(PruningFor(task, world, i), Applied(rules, Refining(world, i, rules).value));
  }

  lemma OutcomeIsEvaluated(task: Task, world: World, i: nat, rules: seq<Rule>, outcome: Outcome)
    requires RoundAt(task, world, i, rules) == Some(outcome)
    ensures world.student(i, outcome.rules) == Some(outcome.eval) && WithinBudgets(task, outcome.rules)
  {
    assert Proposal(task, world, i, rules).Some?;
    ProposalWithinBudgets(task, world, i, rules);
  }

  /** A fresh run of k accepted iterations returns rules within the budgets together with the student's
      evaluation of exactly those rules, at least (k - 1) epsilon above the baseline and never below it. */
  lemma FreshRunIsSafe(task: Task, world: World, rules: seq<Rule>, eval: Eval)
    ensures var s := Final(task, RoundOf(task, world), map[], rules, eval);
            s.accepted > 0 ==>
              && BestIsEvaluated(task, world, s)
              && Gained(task, PrimaryScore(eval, task.metric), s)
              && s.accepted <= task.maxIterations
  {
    var s := Final(task, RoundOf(task, world), map[], rules, eval);
    var from := FreshRunGains(task, RoundOf(task, world), task.maxIterations, rules, eval);
    if s.accepted > 0 {
      OutcomeIsEvaluated(task, world, s.acceptedAt, from, Outcome(s.bestRules, s.bestEval));
    }
  }

  /** A metric bounded by one cannot be raised for long. */
  lemma AcceptedRoundsBounded(task: Task, world: World, rules: seq<Rule>, eval: Eval)
    requires PrimaryScore(eval, task.metric) >= 0.0
    requires forall i, r :: world.student(i, r).Some? ==> PrimaryScore(world.student(i, r).value, task.metric) <= 1.0
    ensures var s := Final(task, RoundOf(task, world), map[], rules, eval);
            s.accepted > 0 ==> (s.accepted - 1) as real * task.epsilon <= 1.0
  {
    FreshRunIsSafe(task, world, rules, eval);
  }

  // ── Rule ids over the whole loop ─────────────────────────────────────────

  ghost predicate KeepsAntichain(round: Round) {
    forall i, rules :: Antichain(Ids(rules)) && round(i, rules).Some? ==> Antichain(Ids(round(i, rules).value.rules))
  }

  lemma OutcomeKeepsAntichain(task: Task, world: World, i: nat, rules: seq<Rule>)
    requires Antichain(Ids(rules)) && Proposal(task, world, i, rules).Some?
    ensures Antichain(Ids(Proposal(task, world, i, rules).value))
  {
    var refinement := Refining(world, i, rules).value;
    AppliedKeepsAntichain(rules, refinement);
    PruningKeepsAntichain(PruningFor(task, world, i), Applied(rules, refinement));
  }

  lemma {:induction false} RunKeepsAntichain(task: Task, round: Round, done: Artifacts, n: nat, rules: seq<Rule>,
                                             eval: Eval)
    requires KeepsAntichain(round) && Antichain(Ids(rules))
    ensures var s := Iterated(task, round, done, n, Start(rules, eval, task));
            Antichain(Ids(s.currentRules)) && Antichain(Ids(s.bestRules))
  {
    if n > 0 {
      RunKeepsAntichain(task, round, done, n - 1, rules, eval);
    }
  }

  /** Fresh or resumed, with any teacher: the loop never returns two rules with one id. */
  lemma LoopRuleIdsDistinct(task: Task, world: World, done: Artifacts, rules: seq<Rule>, eval: Eval)
    requires Distinct(Ids(rules)) && forall i :: 0 <= i < |rules| ==> UnderscoreFree(rules[i].id)
    ensures Distinct(Ids(Final(task, RoundOf(task, world), done, rules, eval).bestRules))
  {
    UuidsAreAntichain(Ids(rules));
    forall i, r | Antichain(Ids(r)) && Proposal(task, world, i, r).Some?
      ensures Antichain(Ids(Proposal(task, world, i, r).value))
    {
      OutcomeKeepsAntichain(task, world, i, r);
    }
    RunKeepsAntichain(task, RoundOf(task, world), done, task.maxIterations, rules, eval);
    AntichainDistinct(Ids(Final(task, RoundOf(task, world), done, rules, eval).bestRules));
  }

  // ── Resumed runs ─────────────────────────────────────────────────────────

  /** Iterations 0 to m - 1 have left their artifacts. */
  ghost predicate DoneUpTo(done: Artifacts, m: nat) {
    forall i: nat :: i in done <==> i < m
  }

  /** The metric a resumed run takes over: that of the last artifact it can load. */
  function ResumedMetric(done: Artifacts, m: nat, baseline: real): real
    requires DoneUpTo(done, m)
  {
    LoadedMetric(done, m, baseline)
  }

  function LoadedMetric(done: Artifacts, n: nat, baseline: real): real {
    if n == 0 then baseline
    else if n - 1 in done && done[n - 1].Some? then done[n - 1].value
    else LoadedMetric(done, n - 1, baseline)
  }

  /** Replaying artifacts changes the metric and nothing else. */
  lemma {:induction false} ReplayOnlyMovesMetric(task: Task, round: Round, done: Artifacts, m: nat, n: nat,
                                                 rules: seq<Rule>, eval: Eval)
    requires DoneUpTo(done, m) && n <= m
    ensures Iterated(task, round, done, n, Start(rules, eval, task)) ==
      Start(rules, eval, task).(currentMetric := LoadedMetric(done, n, PrimaryScore(eval, task.metric)))
  {
    if n > 0 {
      ReplayOnlyMovesMetric(task, round, done, m, n - 1, rules, eval);
    }
  }

  /** After the replay, accepted metrics never fall below the metric taken over. */
  lemma {:induction false} ResumedFloor(task: Task, round: Round, done: Artifacts, m: nat, n: nat,
                                        rules: seq<Rule>, eval: Eval)
    requires DoneUpTo(done, m) && m <= n
    ensures var s := Iterated(task, round, done, n, Start(rules, eval, task));
            && s.currentMetric >= ResumedMetric(done, m, PrimaryScore(eval, task.metric))
            && (s.accepted > 0 ==> s.currentMetric == PrimaryScore(s.bestEval, task.metric))
    decreases n
  {
    if m == n {
      ReplayOnlyMovesMetric(task, round, done, m, m, rules, eval);
    } else {
      ResumedFloor(task, round, done, m, n - 1, rules, eval);
    }
  }

  /** Whatever the teacher and the student do, with scores between lo and hi: the resumed run returns nothing below the
      baseline. */
  ghost predicate ResumeIsSafe(task: Task, done: Artifacts, rules: seq<Rule>, eval: Eval, lo: real, hi: real) {
    forall world | ScoresWithin(world, task.metric, lo, hi) ::
      var best := Returned(task, RoundOf(task, world), done, rules, eval);
      best.Some? ==> PrimaryScore(best.value.eval, task.metric) >= PrimaryScore(eval, task.metric)
  }

  ghost predicate ScoresWithin(world: World, metric: Metric, lo: real, hi: real) {
    forall i, rules :: world.student(i, rules).Some? ==> lo <= PrimaryScore(world.student(i, rules).value, metric) <= hi
  }

  /** A rule that every pruning configuration keeps, and that fits into its token budget. */
  function Survivor(task: Task): Rule {
    var budget := task.pruning.maxTokens;
    Rule("survivor", "", [], "", 0, [], false, task.pruning.minSupport, 0.0, false, if budget >= 1 then 1 else budget - 1)
  }

  predicate IsSurvivor(task: Task, r: Rule) { r == Survivor(task).(id := r.id) }

  /** More parts than a negative cap drops. */
  function Copies(task: Task): (parts: seq<Rule>)
    ensures |parts| >= 1 && |parts| > -task.pruning.maxRules
    ensures forall r :: r in parts ==> r == Survivor(task)
  {
    seq(if task.pruning.maxRules < 0 then 1 - task.pruning.maxRules else 1, _ => Survivor(task))
  }

  function SplitEach(task: Task, rules: seq<Rule>): (actions: seq<Action>)
    ensures |actions| == |rules|
  {
    seq(|rules|, i requires 0 <= i < |rules| => Action(Split, rules[i].id, Copies(task)))
  }

  function IdSet(rules: seq<Rule>): set<string> { set r | r in rules :: r.id }

  /** In iteration m, and in no other, the analysis implicates all of `rules`.  The teacher then splits each of them into
      survivors, and the student scores `score` on anything. */
  function FlatWorld(task: Task, rules: seq<Rule>, m: nat, score: real): World {
    World((i: nat) => if i == m then map id | id in IdSet(rules) :: (0, 1) else map[],
          (i: nat) => if i == m then IdSet(rules) else {},
          (i: nat, r: seq<Rule>) => Some(Refinement(SplitEach(task, r), [])),
          (i: nat, r: seq<Rule>) => true,
          (i: nat, r: seq<Rule>) => Some(Eval(Some(score), Some(score), Some(score))))
  }

  lemma {:induction false} FittingTakesSome(budget: int, rules: seq<Rule>)
    requires rules != [] && forall r :: r in rules ==> Tokens(r) <= budget
    ensures Fitting(budget, rules) != []
  {
    if |rules| == 1 {
      assert Fitting(budget, rules[..0]) == [] && rules[..0] == [];
    } else {
      FittingTakesSome(budget, rules[..|rules| - 1]);
    }
  }

  predicate SplitsInto(task: Task, actions: seq<Action>, id: string) {
    var action := LastAction(actions, id);
    action.Some? && action.value.kind == Split && action.value.revised == Copies(task)
  }

  lemma ReplacedBySurvivors(task: Task, r: Rule, actions: seq<Action>)
    requires SplitsInto(task, actions, r.id)
    ensures var block := Replacement(r, LastAction(actions, r.id));
            |block| == |Copies(task)| && forall x :: x in block ==> IsSurvivor(task, x)
  {
    var parts := Copies(task);
    forall i | 0 <= i < |parts| ensures IsSurvivor(task, Parts(r.id, parts)[i]) {
      assert parts[i] in parts;
    }
  }

  lemma {:induction false} AllSurvivors(task: Task, rules: seq<Rule>, actions: seq<Action>)
    requires rules != [] && forall r :: r in rules ==> SplitsInto(task, actions, r.id)
    ensures |AppliedActions(rules, actions)| >= |Copies(task)|
    ensures forall x :: x in AppliedActions(rules, actions) ==> IsSurvivor(task, x)
  {
    var init, last := rules[..|rules| - 1], rules[|rules| - 1];
    assert rules == init + [last];
    AppliedSnoc(init, last, actions);
    ReplacedBySurvivors(task, last, actions);
    if |init| == 0 {
      AppliedNothing(init, actions);
    } else {
      AllSurvivors(task, init, actions);
    }
  }

  lemma FlatApplied(task: Task, rules: seq<Rule>)
    requires rules != []
    ensures var applied := Applied(rules, Refinement(SplitEach(task, rules), []));
            |applied| >= |Copies(task)| && forall x :: x in applied ==> IsSurvivor(task, x)
  {
    var actions := SplitEach(task, rules);
    forall r | r in rules ensures SplitsInto(task, actions, r.id) {
      var i :| 0 <= i < |rules| && rules[i] == r;
      LastActionExists(actions, i);
      LastActionIn(actions, r.id);
    }
    AllSurvivors(task, rules, actions);
  }

  lemma {:induction false} AllAccepted(actions: seq<Action>, allowed: set<string>)
    requires forall a :: a in actions ==> a.ruleId in allowed
    ensures Accepted(actions, allowed) == actions
  {
    if actions != [] {
      var init, last := actions[..|actions| - 1], actions[|actions| - 1];
      assert actions == init + [last];
      AllAccepted(init, allowed);
    }
  }

  /** The filter lets the flat teacher's reply through: every rule was implicated. */
  lemma FlatRefinement(task: Task, rules: seq<Rule>, m: nat, score: real)
    requires rules != []
    ensures Refining(FlatWorld(task, rules, m, score), m, rules) == Some(Refinement(SplitEach(task, rules), []))
  {
    var actions := SplitEach(task, rules);
    assert AllowedIds(rules, IdSet(rules)) == IdSet(rules);
    assert rules[0] in rules && rules[0].id in IdSet(rules);
    forall a | a in actions ensures a.ruleId in IdSet(rules) {
      var i :| 0 <= i < |actions| && actions[i] == a;
      assert rules[i] in rules;
    }
    AllAccepted(actions, IdSet(rules));
  }

  lemma SurvivorsSurvive(task: Task, cfg: Config, rules: seq<Rule>)
    requires cfg.maxRules == task.pruning.maxRules != 0 && cfg.maxTokens == task.pruning.maxTokens
    requires cfg.minSupport == task.pruning.minSupport && |rules| >= |Copies(task)|
    requires forall r :: r in rules ==> IsSurvivor(task, r)
    ensures Selected(cfg, rules) != []
  {
    KeptAll(cfg, rules);
    CappedLength(cfg, rules);
    CappedMembers(cfg, rules);
    FittingTakesSome(cfg.maxTokens, Capped(cfg, rules));
  }

  lemma FlatProposal(task: Task, rules: seq<Rule>, m: nat, score: real)
    requires rules != [] && task.pruning.maxRules != 0
    ensures Proposal(task, FlatWorld(task, rules, m, score), m, rules).Some?
  {
    var world := FlatWorld(task, rules, m, score);
    FlatRefinement(task, rules, m, score);
    FlatApplied(task, rules);
    SurvivorsSurvive(task, PruningFor(task, world, m), Applied(rules, Refinement(SplitEach(task, rules), [])));
    assert rules[0] in rules && rules[0].id in world.signals(m);
  }

  /** One round, of iteration m on these rules, scores `score`; there is none after it. */
  ghost predicate OneRound(task: Task, round: Round, rules: seq<Rule>, m: nat, score: real) {
    && round(m, rules).Some? && PrimaryScore(round(m, rules).value.eval, task.metric) == score
    && forall i, r :: i > m ==> round(i, r).None?
  }

  lemma FlatWorldHasOneRound(task: Task, rules: seq<Rule>, m: nat, score: real)
    requires rules != [] && task.pruning.maxRules != 0
    ensures OneRound(task, RoundOf(task, FlatWorld(task, rules, m, score)), rules, m, score)
    ensures forall lo, hi :: lo <= score <= hi ==> ScoresWithin(FlatWorld(task, rules, m, score), task.metric, lo, hi)
  {
    FlatProposal(task, rules, m, score);
  }

  lemma {:induction false} OneRoundRun(task: Task, round: Round, done: Artifacts, m: nat, n: nat, rules: seq<Rule>,
                                       eval: Eval)
    requires rules != [] && DoneUpTo(done, m) && m < n
    requires OneRound(task, round, rules, m, ResumedMetric(done, m, PrimaryScore(eval, task.metric)))
    ensures var s := Iterated(task, round, done, n, Start(rules, eval, task));
            s.accepted > 0 && PrimaryScore(s.bestEval, task.metric) == ResumedMetric(done, m, PrimaryScore(eval, task.metric))
    decreases n
  {
    if n == m + 1 {
      ReplayOnlyMovesMetric(task, round, done, m, m, rules, eval);
    } else {
      OneRoundRun(task, round, done, m, n - 1, rules, eval);
    }
  }

  lemma ProposalNeedsRoom(task: Task, world: World, i: nat, rules: seq<Rule>)
    ensures task.pruning.maxRules == 0 ==> Proposal(task, world, i, rules).None?
  {
    if Proposal(task, world, i, rules).Some? {
      ProposalWithinBudgets(task, world, i, rules);
    }
  }

  /** A cap of zero rules leaves nothing to evaluate. */
  lemma {:induction false} NoRoomNothingAccepted(task: Task, world: World, done: Artifacts, n: nat, rules: seq<Rule>,
                                                 eval: Eval)
    requires task.pruning.maxRules == 0
    ensures Iterated(task, RoundOf(task, world), done, n, Start(rules, eval, task)).accepted == 0
  {
    if n > 0 {
      NoRoomNothingAccepted(task, world, done, n - 1, rules, eval);
      var before := Iterated(task, RoundOf(task, world), done, n - 1, Start(rules, eval, task));
      ProposalNeedsRoom(task, world, n - 1, before.currentRules);
    }
  }

  /** There is something to run: rules, room for one, and an iteration without an artifact. */
  predicate HasRoundsLeft(task: Task, rules: seq<Rule>, m: nat) {
    rules != [] && task.pruning.maxRules != 0 && m < task.maxIterations
  }

  lemma SafeResume(task: Task, world: World, done: Artifacts, m: nat, rules: seq<Rule>, eval: Eval)
    requires DoneUpTo(done, m)
    requires HasRoundsLeft(task, rules, m)
      ==> ResumedMetric(done, m, PrimaryScore(eval, task.metric)) >= PrimaryScore(eval, task.metric)
    ensures var best := Returned(task, RoundOf(task, world), done, rules, eval);
            best.Some? ==> PrimaryScore(best.value.eval, task.metric) >= PrimaryScore(eval, task.metric)
  {
    if rules == [] {
    } else if task.pruning.maxRules == 0 {
      NoRoomNothingAccepted(task, world, done, task.maxIterations, rules, eval);
    } else if m >= task.maxIterations {
      ReplayOnlyMovesMetric(task, RoundOf(task, world), done, m, task.maxIterations, rules, eval);
    } else {
      ResumedFloor(task, RoundOf(task, world), done, m, task.maxIterations, rules, eval);
    }
  }

  /** Called with artifacts on disk, the loop takes over the metric of a round that was rejected as well: it guards the
      baseline exactly when nothing is left to run or the metric taken over is not below it.  After a crash the worker does
      not make this call: see `RefinementStage`. */
  lemma ResumeIsSafeIff(task: Task, done: Artifacts, m: nat, rules: seq<Rule>, eval: Eval, lo: real, hi: real)
    requires DoneUpTo(done, m) && lo <= ResumedMetric(done, m, PrimaryScore(eval, task.metric)) <= hi
    ensures ResumeIsSafe(task, done, rules, eval, lo, hi) <==>
      (HasRoundsLeft(task, rules, m)
       ==> ResumedMetric(done, m, PrimaryScore(eval, task.metric)) >= PrimaryScore(eval, task.metric))
  {
    var baseline := PrimaryScore(eval, task.metric);
    var resumed := ResumedMetric(done, m, baseline);
    if HasRoundsLeft(task, rules, m) && resumed < baseline {
      var world := FlatWorld(task, rules, m, resumed);
      FlatWorldHasOneRound(task, rules, m, resumed);
      OneRoundRun(task, RoundOf(task, world), done, m, task.maxIterations, rules, eval);
      var best := Returned(task, RoundOf(task, world), done, rules, eval);
      assert best.Some? && PrimaryScore(best.value.eval, task.metric) < baseline;
    } else {
      forall world ensures var best := Returned(task, RoundOf(task, world), done, rules, eval);
                           best.Some? ==> PrimaryScore(best.value.eval, task.metric) >= baseline
      {
        SafeResume(task, world, done, m, rules, eval);
      }
    }
  }

  /** One rejected round is enough: its artifact holds its score, and with that artifact on disk the loop is not safe. */
  lemma RejectedArtifactIsUnsafe(task: Task, rules: seq<Rule>, eval: Eval, score: real)
    requires HasRoundsLeft(task, rules, 1) && 0.0 <= score < PrimaryScore(eval, task.metric)
    ensures var round := RoundOf(task, FlatWorld(task, rules, 0, score));
            ArtifactsAfter(task, round, map[], 1, Start(rules, eval, task)) == map[0 := Some(score)]
    ensures !ResumeIsSafe(task, map[0 := Some(score)], rules, eval, 0.0, PrimaryScore(eval, task.metric))
  {
    var round, done: Artifacts := RoundOf(task, FlatWorld(task, rules, 0, score)), map[0 := Some(score)];
    FlatWorldHasOneRound(task, rules, 0, score);
    FirstArtifact(task, round, Start(rules, eval, task));
    LoadedFirst(done, PrimaryScore(eval, task.metric));
    ResumeIsSafeIff(task, done, 1, rules, eval, 0.0, PrimaryScore(eval, task.metric));
  }

  lemma LoadedFirst(done: Artifacts, baseline: real)
    requires done.Keys == {0} && done[0].Some?
    ensures DoneUpTo(done, 1) && ResumedMetric(done, 1, baseline) == done[0].value
  {
    assert forall i: nat :: i in done <==> i in done.Keys;
  }

  lemma FirstArtifact(task: Task, round: Round, start: State)
    requires !start.stopped && round(0, start.currentRules).Some?
    ensures ArtifactsAfter(task, round, map[], 1, start)
         == map[0 := Some(PrimaryScore(round(0, start.currentRules).value.eval, task.metric))]
  {
    var none := 0;
    assert Iterated(task, round, map[], none, start) == start && ArtifactsAfter(task, round, map[], none, start) == map[];
    assert ArtifactsAfter(task, round, map[], none + 1, start) == Recorded(task, round, map[], none, start, map[]);
  }

  // ── What a run from scratch leaves ───────────────────────────────────────

  /** The first k iterations of a run from scratch have left artifacts.  All but the last record metrics that are not
      below the baseline, and so does the last unless the run has stopped at it. */
  ghost predicate LeftByFreshRun(task: Task, baseline: real, n: nat, s: State, left: Artifacts, k: nat) {
    && k <= n && DoneUpTo(left, k) && s.currentMetric >= baseline && (!s.stopped ==> k == n)
    && (forall i :: 0 <= i < k ==> left[i].Some?)
    && (forall i :: 0 <= i < k && (i < k - 1 || !s.stopped) ==> left[i].value >= baseline)
  }

  lemma FreshRunLeavesNext(task: Task, round: Round, baseline: real, n: nat, s: State, left: Artifacts, k: nat)
    returns (l: nat)
    requires LeftByFreshRun(task, baseline, n, s, left, k) && !s.stopped
    ensures LeftByFreshRun(task, baseline, n + 1, Iterate(task, round, map[], n, s),
                           Recorded(task, round, map[], n, s, left), l)
  {
    l := if round(n, s.currentRules).None? then k else k + 1;
  }

  lemma NothingLeft(task: Task, rules: seq<Rule>, eval: Eval)
    ensures LeftByFreshRun(task, PrimaryScore(eval, task.metric), 0, Start(rules, eval, task), map[], 0)
  {
  }

  lemma {:induction false} FreshRunLeaves(task: Task, round: Round, n: nat, rules: seq<Rule>, eval: Eval) returns (k: nat)
    ensures LeftByFreshRun(task, PrimaryScore(eval, task.metric), n, Iterated(task, round, map[], n, Start(rules, eval, task)),
                           ArtifactsAfter(task, round, map[], n, Start(rules, eval, task)), k)
  {
    k := 0;
    NothingLeft(task, rules, eval);
    if n > 0 {
      k := FreshRunLeaves(task, round, n - 1, rules, eval);
      var start := Start(rules, eval, task);
      var before, left := Iterated(task, round, map[], n - 1, start), ArtifactsAfter(task, round, map[], n - 1, start);
      if !before.stopped {
        k := FreshRunLeavesNext(task, round, PrimaryScore(eval, task.metric), n - 1, before, left, k);
      }
    }
  }
}
