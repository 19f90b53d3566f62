/** Failure analysis, refinement and metric logging within `_run`, `src/rulekiln/workers/distillation_worker.py`: the
    analysis lives in the memory of one attempt only, so the refinement loop runs in that attempt or never. */
module RefinementStage {
  import opened Wrappers
  import opened Rules
  import opened RefinementLoop

  datatype Stage = AnalyzingFailures | RefiningRules | LoggingArtifacts

  /** What every attempt at a job starts from; `evaluation` is the stored evaluation of the selected strategy, `distilled`
      whether that is a distilled strategy, and `rules` are its stored rules. */
  datatype Plan = Plan(task: Task, enabled: bool, distilled: bool, rules: seq<Rule>, evaluation: Option<Eval>)

  /** What survives an attempt: stage markers, iteration artifacts, the file of best rules, the logged metrics. */
  datatype Disk = Disk(markers: set<Stage>, artifacts: Artifacts, bestRules: Option<seq<Rule>>, logged: Option<Eval>)

  /** Where the process dies, if it gets there. */
  datatype Death =
    | Never | BeforeAnalysisMark | BeforeLoop | InLoop(n: nat, torn: bool) | BeforeRefiningMark
    | BeforeLog | BeforeLoggingMark

  datatype Attempt = Attempt(world: World, death: Death)

  /** What an attempt has in memory: whether it analyzed the failures itself, the entry of the selected strategy in
      `eval_map`, and whether that entry is the refined one. */
  datatype Memory = Memory(alive: bool, analysis: bool, selected: Option<Eval>, refined: bool)

  const INITIAL := Disk({}, map[], None, None)

  function Marked(d: Disk, stage: Stage): Disk { d.(markers := d.markers + {stage}) }

  function Died(m: Memory): Memory { m.(alive := false) }

  // ── The three stages ─────────────────────────────────────────────────────

  function AfterAnalysis(p: Plan, d: Disk, a: Attempt): (r: (Disk, Memory)) {
    var idle := Memory(true, false, p.evaluation, false);
    if AnalyzingFailures in d.markers then (d, idle)
    else if a.death == BeforeAnalysisMark then (d, Died(idle))
    else (Marked(d, AnalyzingFailures), idle.(analysis := p.evaluation.Some? && p.distilled))
  }

  predicate CallsLoop(p: Plan, m: Memory) {
    p.enabled && m.analysis && p.distilled && m.selected.Some?
  }

  /** The process dies within the loop. */
  predicate DiesInLoop(p: Plan, d: Disk, m: Memory, a: Attempt)
    requires m.selected.Some?
  {
    a.death.InLoop? && p.rules != []
    && StillRunning(p.task, RoundOf(p.task, a.world), d.artifacts, a.death.n, Start(p.rules, m.selected.value, p.task))
  }

  function AfterLoop(p: Plan, d: Disk, m: Memory, a: Attempt): (Disk, Memory)
    requires m.selected.Some?
  {
    var round, start := RoundOf(p.task, a.world), Start(p.rules, m.selected.value, p.task);
    if DiesInLoop(p, d, m, a) then
      (d.(artifacts := Interrupted(p.task, round, d.artifacts, a.death.n, a.death.torn, start)), Died(m))
    else
      var best := Returned(p.task, round, d.artifacts, p.rules, m.selected.value);
      var left := if p.rules == [] then d.artifacts
                  else ArtifactsAfter(p.task, round, d.artifacts, p.task.maxIterations, start);
      if best.None? then (d.(artifacts := left), m)
      else
        (d.(artifacts := left, bestRules := Some(best.value.rules)), m.(selected := Some(best.value.eval), refined := true))
  }

  function AfterRefining(p: Plan, d: Disk, m: Memory, a: Attempt): (Disk, Memory) {
    if !m.alive || RefiningRules in d.markers then (d, m)
    else if a.death == BeforeLoop then (d, Died(m))
    else
      var (e, n) := if CallsLoop(p, m) then AfterLoop(p, d, m, a) else (d, m);
      if !n.alive then (e, n)
      else if a.death == BeforeRefiningMark then (e, Died(n))
      else (Marked(e, RefiningRules), n)
  }

  function AfterLogging(d: Disk, m: Memory, a: Attempt): (Disk, Memory) {
    if !m.alive || LoggingArtifacts in d.markers then (d, m)
    else if a.death == BeforeLog then (d, Died(m))
    else
      var e := d.(logged := m.selected);
      if a.death == BeforeLoggingMark then (e, Died(m)) else (Marked(e, LoggingArtifacts), m)
  }

  /** One attempt: what it leaves on disk, and what it had in memory. */
  function AfterAttempt(p: Plan, d: Disk, a: Attempt): (Disk, Memory) {
    var (d1, m1) := AfterAnalysis(p, d, a);
    var (d2, m2) := AfterRefining(p, d1, m1, a);
    AfterLogging(d2, m2, a)
  }

  class Job {
    const plan: Plan
    var markers: set<Stage>
    var artifacts: Artifacts
    var bestRules: Option<seq<Rule>>
    var logged: Option<Eval>

    constructor (plan: Plan)
      ensures this.plan == plan && Contents() == INITIAL
    {
      this.plan, markers, artifacts, bestRules, logged := plan, {}, map[], None, None;
    }

    ghost function Contents(): Disk
      reads this
    {
      Disk(markers, artifacts, bestRules, logged)
    }

    method AnalyzeFailures(a: Attempt) returns (m: Memory)
      modifies this`markers
      ensures (Contents(), m) == AfterAnalysis(plan, old(Contents()), a)
    {
      m := Memory(true, false, plan.evaluation, false);
      if AnalyzingFailures !in markers {
        if a.death == BeforeAnalysisMark {
          return Died(m);
        }
        if plan.evaluation.Some? && plan.distilled {
          m := m.(analysis := true);
        }
        markers := markers + {AnalyzingFailures};
      }
    }

    method CallLoop(m: Memory, a: Attempt) returns (n: Memory)
      requires m.selected.Some? && m.alive
      modifies this`artifacts, this`bestRules
      ensures (Contents(), n) == AfterLoop(plan, old(Contents()), m, a)
    {
      n := m;
      var lives, torn := if a.death.InLoop? then a.death.n else plan.task.maxIterations, a.death.InLoop? && a.death.torn;
      var best, crashed;
      best, artifacts, crashed :=
        RunRefinementLoop(plan.task, a.world, artifacts, plan.rules, m.selected.value, lives, torn);
      if crashed {
        return Died(m);
      }
      if best.Some? {
        bestRules := Some(best.value.rules);
        n := m.(selected := Some(best.value.eval), refined := true);
      }
    }

    method RefineRules(m: Memory, a: Attempt) returns (n: Memory)
      modifies this`markers, this`artifacts, this`bestRules
      ensures (Contents(), n) == AfterRefining(plan, old(Contents()), m, a)
    {
      n := m;
      if !m.alive || RefiningRules in markers {
        return;
      }
      if a.death == BeforeLoop {
        return Died(m);
      }
      if plan.enabled && m.analysis && plan.distilled && m.selected.Some? {
        n := CallLoop(m, a);
        if !n.alive {
          return;
        }
      }
      if a.death == BeforeRefiningMark {
        return Died(n);
      }
      markers := markers + {RefiningRules};
    }

    method LogMetrics(m: Memory, a: Attempt) returns (n: Memory)
      modifies this`markers, this`logged
      ensures (Contents(), n) == AfterLogging(old(Contents()), m, a)
    {
      n := m;
      if !m.alive || LoggingArtifacts in markers {
        return;
      }
      if a.death == BeforeLog {
        return Died(m);
      }
      logged := m.selected;
      if a.death == BeforeLoggingMark {
        return Died(m);
      }
      markers := markers + {LoggingArtifacts};
    }

    method RunAttempt(a: Attempt) returns (m: Memory)
      modifies this
      ensures (Contents(), m) == AfterAttempt(plan, old(Contents()), a)
    {
      m := AnalyzeFailures(a);
      m := RefineRules(m, a);
      m := LogMetrics(m, a);
    }
  }

  // ── One attempt ──────────────────────────────────────────────────────────

  /** Nothing of the refinement is on disk before the analysis marker, and nothing is logged before the refining marker. */
  predicate Orderly(d: Disk) {
    && (AnalyzingFailures !in d.markers ==> d == INITIAL)
    && (RefiningRules !in d.markers ==> LoggingArtifacts !in d.markers && d.logged.None?)
  }

  lemma AttemptStaysOrderly(p: Plan, d: Disk, a: Attempt)
    requires Orderly(d)
    ensures Orderly(AfterAttempt(p, d, a).0) && d.markers <= AfterAttempt(p, d, a).0.markers
  {
    hide AfterLoop;
    var (d1, m1) := AfterAnalysis(p, d, a);
    if CallsLoop(p, m1) {
      LoopKeepsMarkers(p, d1, m1, a);
    }
  }

  lemma LoopKeepsMarkers(p: Plan, d: Disk, m: Memory, a: Attempt)
    requires m.selected.Some?
    ensures AfterLoop(p, d, m, a).0.markers == d.markers && AfterLoop(p, d, m, a).0.logged == d.logged
  {
  }

  /** An attempt that finds the analysis marker does not call the loop, whatever artifacts are there and wherever it dies:
      it leaves them and the best rules alone, and works with the unrefined evaluation. */
  lemma AnalysisIsNotRepeated(p: Plan, d: Disk, a: Attempt)
    requires AnalyzingFailures in d.markers
    ensures var (e, m) := AfterAttempt(p, d, a);
            e.artifacts == d.artifacts && e.bestRules == d.bestRules && m.selected == p.evaluation && !m.refined
    ensures var e := AfterAttempt(p, d, a).0;
            e.logged == if LoggingArtifacts in d.markers then d.logged
                        else if LoggingArtifacts in e.markers then p.evaluation else e.logged
  {
  }

  /** The process lives from before the analysis marker to the end of the loop. */
  predicate LivesThroughLoop(p: Plan, d: Disk, a: Attempt) {
    && p.evaluation.Some? && a.death != BeforeAnalysisMark && a.death != BeforeLoop
    && !DiesInLoop(p, d, Memory(true, true, p.evaluation, false), a)
  }

  /** What the loop makes of the stored rules and evaluation, without any artifact to take over. */
  function RefinedBy(p: Plan, world: World): Option<Outcome>
    requires p.evaluation.Some?
  {
    Returned(p.task, RoundOf(p.task, world), map[], p.rules, p.evaluation.value)
  }

  /** The attempt refines: it made the analysis itself, lived to the end of the loop, and a round was accepted. */
  predicate Refines(p: Plan, d: Disk, a: Attempt) {
    && AnalyzingFailures !in d.markers && p.enabled && p.distilled && LivesThroughLoop(p, d, a)
    && RefinedBy(p, a.world).Some?
  }

  /** A refined evaluation reaches `eval_map` exactly if one attempt with the loop enabled lives from before the analysis
      marker to the end of the loop and a round was accepted; it is then that of a run without any artifact. */
  lemma RefinedIff(p: Plan, d: Disk, a: Attempt)
    requires Orderly(d)
    ensures var m := AfterAttempt(p, d, a).1;
            && (m.refined <==> Refines(p, d, a))
            && m.selected == if Refines(p, d, a) then Some(RefinedBy(p, a.world).value.eval) else p.evaluation
  {
    if AnalyzingFailures in d.markers {
      AnalysisIsNotRepeated(p, d, a);
    } else {
      assert Marked(d, AnalyzingFailures).artifacts == d.artifacts == map[];
    }
  }

  /** So what an attempt works with is never below the stored evaluation. */
  lemma NeverBelowBaseline(p: Plan, d: Disk, a: Attempt)
    requires Orderly(d) && p.evaluation.Some?
    ensures var m := AfterAttempt(p, d, a).1;
            && m.selected.Some?
            && PrimaryScore(m.selected.value, p.task.metric) >= PrimaryScore(p.evaluation.value, p.task.metric)
  {
    RefinedIff(p, d, a);
    FreshRunIsSafe(p.task, a.world, p.rules, p.evaluation.value);
  }

  // ── All attempts at a job ────────────────────────────────────────────────

  function AfterAttempts(p: Plan, attempts: seq<Attempt>): Disk {
    if attempts == [] then INITIAL
    else AfterAttempt(p, AfterAttempts(p, attempts[..|attempts| - 1]), attempts[|attempts| - 1]).0
  }

  /** The first attempt that sets the analysis marker. */
  function First(attempts: seq<Attempt>): (n: nat)
    ensures n <= |attempts|
  {
    if attempts == [] then 0
    else
      var n := First(attempts[..|attempts| - 1]);
      if n == |attempts| - 1 && attempts[n].death == BeforeAnalysisMark then |attempts| else n
  }

  /** The process lives from before the analysis marker until the logging marker is set. */
  predicate LivesToLog(p: Plan, a: Attempt) {
    LivesThroughLoop(p, INITIAL, a) && a.death != BeforeRefiningMark && a.death != BeforeLog && a.death != BeforeLoggingMark
  }

  /** What the first attempt past the analysis marker has left, and what of it stays. */
  predicate DecidedBy(p: Plan, one: Disk, d: Disk) {
    && AnalyzingFailures in one.markers && one.markers <= d.markers
    && d.artifacts == one.artifacts && d.bestRules == one.bestRules
    && (LoggingArtifacts in d.markers ==> d.logged == if LoggingArtifacts in one.markers then one.logged else p.evaluation)
  }

  lemma DecidedNext(p: Plan, one: Disk, d: Disk, a: Attempt)
    requires DecidedBy(p, one, d) && Orderly(d)
    ensures DecidedBy(p, one, AfterAttempt(p, d, a).0)
  {
    hide AfterAttempt;
    AnalysisIsNotRepeated(p, d, a);
    AttemptStaysOrderly(p, d, a);
  }

  lemma NotYetAnalyzed(p: Plan, a: Attempt)
    ensures a.death == BeforeAnalysisMark ==> AfterAttempt(p, INITIAL, a).0 == INITIAL
    ensures a.death != BeforeAnalysisMark ==> DecidedBy(p, AfterAttempt(p, INITIAL, a).0, AfterAttempt(p, INITIAL, a).0)
  {
    AttemptStaysOrderly(p, INITIAL, a);
    if a.death != BeforeAnalysisMark {
      assert AnalyzingFailures in AfterAttempt(p, INITIAL, a).0.markers by {
        AnalysisMarkStays(p, a);
      }
    }
  }

  lemma AnalysisMarkStays(p: Plan, a: Attempt)
    requires a.death != BeforeAnalysisMark
    ensures AnalyzingFailures in AfterAttempt(p, INITIAL, a).0.markers
  {
    hide AfterLoop;
    var (d1, m1) := AfterAnalysis(p, INITIAL, a);
    if CallsLoop(p, m1) {
      LoopKeepsMarkers(p, d1, m1, a);
    }
  }

  /** The attempts before the first that gets past the analysis marker leave nothing, those after it no refinement. */
  lemma {:induction false} FirstDecides(p: Plan, attempts: seq<Attempt>)
    ensures Orderly(AfterAttempts(p, attempts))
    ensures First(attempts) == |attempts| ==> AfterAttempts(p, attempts) == INITIAL
    ensures First(attempts) < |attempts|
      ==> DecidedBy(p, AfterAttempt(p, INITIAL, attempts[First(attempts)]).0, AfterAttempts(p, attempts))
  {
    hide AfterAttempt, DecidedBy;
    if attempts != [] {
      var init, last := attempts[..|attempts| - 1], attempts[|attempts| - 1];
      FirstDecides(p, init);
      AttemptStaysOrderly(p, AfterAttempts(p, init), last);
      if First(init) == |init| {
        NotYetAnalyzed(p, last);
      } else {
        DecidedNext(p, AfterAttempt(p, INITIAL, attempts[First(init)]).0, AfterAttempts(p, init), last);
      }
    }
  }

  /** A refinement that was not carried through by the attempt that made the analysis is dropped for good: every later
      attempt works with the unrefined evaluation. */
  lemma RefinementIsDropped(p: Plan, attempts: seq<Attempt>, a: Attempt)
    requires First(attempts) < |attempts|
    ensures var m := AfterAttempt(p, AfterAttempts(p, attempts), a).1; m.selected == p.evaluation && !m.refined
  {
    FirstDecides(p, attempts);
    AnalysisIsNotRepeated(p, AfterAttempts(p, attempts), a);
  }

  lemma LoggedAtOnce(p: Plan, a: Attempt)
    requires a.death != BeforeAnalysisMark
    ensures var (d, m) := AfterAttempt(p, INITIAL, a);
            LoggingArtifacts in d.markers ==> d.logged == m.selected
    ensures p.enabled && p.distilled && p.evaluation.Some?
      ==> (LoggingArtifacts in AfterAttempt(p, INITIAL, a).0.markers <==> LivesToLog(p, a))
  {
    hide Returned, StillRunning, Interrupted, ArtifactsAfter;
  }

  /** Once the metrics of a job are logged for good, they are the refined ones exactly if the first attempt past the
      analysis marker refined and lived until they were logged, and the unrefined ones otherwise. */
  lemma LoggedIff(p: Plan, attempts: seq<Attempt>)
    requires LoggingArtifacts in AfterAttempts(p, attempts).markers
    ensures First(attempts) < |attempts|
    ensures var a := attempts[First(attempts)];
            AfterAttempts(p, attempts).logged ==
              if Refines(p, INITIAL, a) && LivesToLog(p, a) then Some(RefinedBy(p, a.world).value.eval) else p.evaluation
  {
    FirstDecides(p, attempts);
    assert LoggingArtifacts !in INITIAL.markers;
    var a := attempts[First(attempts)];
    FirstIsPastAnalysis(attempts);
    LoggedAtOnce(p, a);
    RefinedIff(p, INITIAL, a);
  }

  /** Unlike extraction, synthesis and evaluation, a resumed refinement differs from one that never crashed: in one and
      the same world, whenever a round is accepted, a crash in the first iteration loses it. */
  lemma CrashLosesRefinement(p: Plan, world: World)
    requires p.enabled && p.distilled && p.evaluation.Some? && RefinedBy(p, world).Some?
    ensures var whole, crashed := [Attempt(world, Never)], [Attempt(world, InLoop(0, false)), Attempt(world, Never)];
            && AfterAttempts(p, whole).logged == Some(RefinedBy(p, world).value.eval)
            && AfterAttempts(p, crashed).logged == p.evaluation
            && LoggingArtifacts in AfterAttempts(p, whole).markers && LoggingArtifacts in AfterAttempts(p, crashed).markers
  {
    var dies, lives := Attempt(world, InLoop(0, false)), Attempt(world, Never);
    DiesAtOnce(p, world);
    NeverDies(p, INITIAL, lives);
    NeverDies(p, AfterAttempts(p, [dies]), lives);
    OneAttempt(p, lives);
    OneAttempt(p, dies);
    TwoAttempts(p, dies, lives);
    LoggedIff(p, [lives]);
    LoggedIff(p, [dies, lives]);
  }

  lemma DiesAtOnce(p: Plan, world: World)
    requires p.enabled && p.distilled && p.evaluation.Some? && RefinedBy(p, world).Some?
    ensures !LivesThroughLoop(p, INITIAL, Attempt(world, InLoop(0, false)))
    ensures Refines(p, INITIAL, Attempt(world, Never)) && LivesToLog(p, Attempt(world, Never))
    ensures !Refines(p, INITIAL, Attempt(world, InLoop(0, false)))
  {
    assert p.task.maxIterations > 0;
  }

  lemma NeverDies(p: Plan, d: Disk, a: Attempt)
    requires a.death == Never
    ensures LoggingArtifacts in AfterAttempt(p, d, a).0.markers
  {
  }

  lemma TwoAttempts(p: Plan, a: Attempt, b: Attempt)
    ensures AfterAttempts(p, [a, b]) == AfterAttempt(p, AfterAttempts(p, [a]), b).0
    ensures a.death != BeforeAnalysisMark ==> First([a, b]) == 0
  {
    assert [a, b][..1] == [a];
    OneAttempt(p, a);
  }

  lemma OneAttempt(p: Plan, a: Attempt)
    ensures AfterAttempts(p, [a]) == AfterAttempt(p, INITIAL, a).0
    ensures a.death != BeforeAnalysisMark ==> First([a]) == 0
  {
    assert |[a][..0]| == 0;
  }

  lemma {:induction false} FirstIsPastAnalysis(attempts: seq<Attempt>)
    ensures First(attempts) < |attempts| ==> attempts[First(attempts)].death != BeforeAnalysisMark
  {
    if attempts != [] {
      FirstIsPastAnalysis(attempts[..|attempts| - 1]);
    }
  }

  predicate NotBelow(p: Plan, logged: Option<Eval>) {
    (p.evaluation.Some? && logged.Some?)
    ==> PrimaryScore(logged.value, p.task.metric) >= PrimaryScore(p.evaluation.value, p.task.metric)
  }

  /** Whatever is logged at any time, after any attempts, is not below the stored evaluation. */
  lemma {:induction false} LoggedNeverBelow(p: Plan, attempts: seq<Attempt>)
    ensures NotBelow(p, AfterAttempts(p, attempts).logged)
  {
    if attempts != [] {
      var init, last := attempts[..|attempts| - 1], attempts[|attempts| - 1];
      LoggedNeverBelow(p, init);
      FirstDecides(p, init);
      LoggedOrKept(p, AfterAttempts(p, init), last);
      if p.evaluation.Some? {
        NeverBelowBaseline(p, AfterAttempts(p, init), last);
      }
    }
  }

  lemma LoggedOrKept(p: Plan, d: Disk, a: Attempt)
    ensures var (e, m) := AfterAttempt(p, d, a); e.logged == d.logged || e.logged == m.selected
  {
    hide AfterLoop;
    var (d1, m1) := AfterAnalysis(p, d, a);
    if CallsLoop(p, m1) {
      LoopKeepsMarkers(p, d1, m1, a);
    }
  }

  /** The queue runs a job again and again until an attempt lives. */
  method RunJob(p: Plan, attempts: seq<Attempt>) returns (job: Job, tried: nat, completed: bool)
    ensures job.plan == p && tried <= |attempts| && job.Contents() == AfterAttempts(p, attempts[..tried])
    ensures if completed then {RefiningRules, LoggingArtifacts} <= job.markers else tried == |attempts|
    ensures NotBelow(p, job.logged)
  {
    job := new Job(p);
    tried, completed := 0, false;
    while tried < |attempts| && !completed
      invariant tried <= |attempts| && job.plan == p && job.Contents() == AfterAttempts(p, attempts[..tried])
      invariant fresh(job) && (completed ==> {RefiningRules, LoggingArtifacts} <= job.markers)
      decreases |attempts| - tried
    {
      assert attempts[..tried + 1][..tried] == attempts[..tried];
      LivingMarks(p, job.Contents(), attempts[tried]);
      var m := job.RunAttempt(attempts[tried]);
      tried, completed := tried + 1, m.alive;
    }
    LoggedNeverBelow(p, attempts[..tried]);
  }

  lemma LivingMarks(p: Plan, d: Disk, a: Attempt)
    ensures var (e, m) := AfterAttempt(p, d, a); m.alive ==> {RefiningRules, LoggingArtifacts} <= e.markers
  {
    hide AfterLoop;
  }
}
