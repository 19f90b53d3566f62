/** Whole runs of the compile phase, `_run` of `src/rulekiln/workers/distillation_worker.py`: attempts that die after
    any number of commits or because foreign code raised, resumed until one gets through. */
module CompileRuns {
  import opened Wrappers
  import opened Sorting
  import opened Markers
  import opened CompileStore
  import opened Extraction
  import opened Synthesis

  const LAST := StrategyMarker(CompilingPrompts, Hdbscan)

  /** What befalls one attempt: the commits it is allowed, and the stages whose own foreign calls (embedding, clustering,
      the judge) raise in it. */
  datatype Fate = Fate(budget: nat, raises: set<Marker>)

  /** A stage whose own rows are not part of the model: only its marker is, and whether its calls raise. */
  method RunStage(db: Database, ghost log: seq<Call>, before: Marker, marker: Marker, raises: set<Marker>, budget: nat)
    returns (left: nat, crashed: bool)
    requires db.Inv(log) && InChain(marker) && marker.stage != ExtractingRules && marker.stage != SynthesizingRules
    requires Position(marker) == 0 || (before in db.markers && InChain(before) && Position(marker) == Position(before) + 1)
    modifies db`markers
    ensures db.Inv(log) && old(db.markers) <= db.markers
    ensures !crashed ==> marker in db.markers && (marker in old(db.markers) || marker !in raises)
    ensures crashed ==> left == 0 || marker in raises
    ensures Progress(db) - old(Progress(db)) >= budget - left
    ensures 0 <= budget - left <= 1
  {
    hide RowsSourced, CasesMarked, SynthesisInv, PrefixClosed, Marked;
    if marker in raises && marker !in db.markers {
      return budget, true;
    }
    OtherStageKeepsCases(db.plan, db.markers, db.extracted, marker);
    OtherStageKeepsSynthesis(db.plan, db.markers, db.microRules, db.synthesized, db.consolidated, log, marker);
    if Position(marker) > 0 {
      NextKeepsPrefix(db.markers, before, marker);
    } else {
      FirstKeepsPrefix(db.markers, marker);
    }
    left, crashed := db.MarkStageComplete(marker, budget);
  }

  /** The stage that has to be complete for both strategies first. */
  function Previous(stage: Stage): Stage {
    if stage == CompilingPrompts then PruningRules
    else if stage == PruningRules then ReviewingRuleConflicts
    else SynthesizingRules
  }

  lemma PreviousPosition(stage: Stage)
    requires stage != SynthesizingRules && PerStrategy(stage)
    ensures Position(StrategyMarker(stage, Dbscan)) == Position(StrategyMarker(Previous(stage), Hdbscan)) + 1
    ensures Position(StrategyMarker(stage, Hdbscan)) == Position(StrategyMarker(stage, Dbscan)) + 1
    ensures stage != ExtractingRules && PerStrategy(Previous(stage))
  {
  }

  method RunForBoth(db: Database, ghost log: seq<Call>, stage: Stage, raises: set<Marker>, budget: nat)
    returns (left: nat, crashed: bool)
    requires db.Inv(log) && stage != SynthesizingRules && PerStrategy(stage)
    requires StrategyMarker(Previous(stage), Hdbscan) in db.markers
    modifies db`markers
    ensures db.Inv(log) && old(db.markers) <= db.markers
    ensures !crashed ==> StrategyMarker(stage, Hdbscan) in db.markers
    ensures crashed ==> left == 0 || raises != {}
    ensures Progress(db) - old(Progress(db)) >= budget - left
    ensures 0 <= budget - left <= 2
  {
    hide Database.Inv, Progress;
    PreviousPosition(stage);
    left, crashed := RunStage(db, log, StrategyMarker(Previous(stage), Hdbscan), StrategyMarker(stage, Dbscan),
                              raises, budget);
    if !crashed {
      left, crashed := RunStage(db, log, StrategyMarker(stage, Dbscan), StrategyMarker(stage, Hdbscan),
                                raises, left);
    }
  }

  /** One attempt, up to the clusters. */
  method ExtractAndCluster(db: Database, teacher: Teacher, raises: set<Marker>, budget: nat)
    returns (left: nat, crashed: bool)
    requires db.Inv(teacher.log) && Fits(db.plan, teacher.script)
    modifies db, teacher
    ensures db.Inv(teacher.log) && old(db.markers) <= db.markers
    ensures |teacher.log| - |old(teacher.log)| <= Settled(db) - old(Settled(db)) + if crashed then 1 else 0
    ensures crashed ==> Died(left, old(Raised(teacher.log)), teacher.log) || raises != {}
    ensures Raised(teacher.log) >= old(Raised(teacher.log))
    ensures !crashed ==> StageMarker(ClusteringRules) in db.markers && CallsSucceed(db.microRules, raises)
    ensures Progress(db) - old(Progress(db)) >= budget - left
    ensures 0 <= budget - left <= 2 * |db.plan.cases| + 4
  {
    hide Database.Inv, Progress;
    left, crashed := RunStage(db, teacher.log, StageMarker(ValidatingProject), StageMarker(ValidatingProject), raises,
                              budget);
    if crashed {
      return;
    }
    left, crashed := ExtractRules(db, teacher, left);
    if crashed {
      return;
    }
    left, crashed := EmbedAndCluster(db, teacher.log, raises, left);
  }

  /** Embedding and clustering are computed anew in every attempt, as long as there is a rule. */
  predicate CallsSucceed(rows: seq<MicroRule>, raises: set<Marker>) {
    rows != [] ==> StageMarker(EmbeddingRules) !in raises && StageMarker(ClusteringRules) !in raises
  }

  method EmbedAndCluster(db: Database, ghost log: seq<Call>, raises: set<Marker>, budget: nat)
    returns (left: nat, crashed: bool)
    requires db.Inv(log) && StageMarker(ExtractingRules) in db.markers
    modifies db`markers
    ensures db.Inv(log) && old(db.markers) <= db.markers
    ensures !crashed ==> StageMarker(ClusteringRules) in db.markers && CallsSucceed(db.microRules, raises)
    ensures crashed ==> left == 0 || raises != {}
    ensures Progress(db) - old(Progress(db)) >= budget - left
    ensures 0 <= budget - left <= 2
  {
    hide Database.Inv, Progress;
    if db.microRules != [] && StageMarker(EmbeddingRules) in raises {
      return budget, true;
    }
    left, crashed := RunStage(db, log, StageMarker(ExtractingRules), StageMarker(EmbeddingRules), {}, budget);
    if crashed {
      return;
    }
    if db.microRules != [] && StageMarker(ClusteringRules) in raises {
      return left, true;
    }
    left, crashed := RunStage(db, log, StageMarker(EmbeddingRules), StageMarker(ClusteringRules), {}, left);
  }

  method SynthesizeBoth(db: Database, teacher: Teacher, budget: nat) returns (left: nat, crashed: bool)
    requires db.Inv(teacher.log) && StageMarker(ClusteringRules) in db.markers
    modifies db, teacher
    ensures db.Inv(teacher.log) && old(db.markers) <= db.markers
    ensures |teacher.log| - |old(teacher.log)| <= Settled(db) - old(Settled(db)) + if crashed then 1 else 0
    ensures crashed ==> Died(left, old(Raised(teacher.log)), teacher.log)
    ensures Raised(teacher.log) >= old(Raised(teacher.log))
    ensures !crashed ==> StrategyMarker(SynthesizingRules, Hdbscan) in db.markers
    ensures db.microRules == old(db.microRules)
    ensures Progress(db) - old(Progress(db)) >= budget - left
    ensures 0 <= budget - left <= |Items(db.plan, db.microRules)| + 2
  {
    hide Database.Inv, Progress;
    left, crashed := SynthesizeRules(db, teacher, Dbscan, budget);
    if crashed {
      return;
    }
    left, crashed := SynthesizeRules(db, teacher, Hdbscan, left);
  }

  method ReviewAndPrune(db: Database, ghost log: seq<Call>, raises: set<Marker>, budget: nat)
    returns (left: nat, crashed: bool)
    requires db.Inv(log) && StrategyMarker(SynthesizingRules, Hdbscan) in db.markers
    modifies db`markers
    ensures db.Inv(log) && old(db.markers) <= db.markers
    ensures !crashed ==> StrategyMarker(PruningRules, Hdbscan) in db.markers
    ensures crashed ==> left == 0 || raises != {}
    ensures Progress(db) - old(Progress(db)) >= budget - left
    ensures 0 <= budget - left <= 4
  {
    hide Database.Inv, Progress;
    left, crashed := RunForBoth(db, log, ReviewingRuleConflicts, raises, budget);
    if !crashed {
      left, crashed := RunForBoth(db, log, PruningRules, raises, left);
    }
  }

  method FinishStages(db: Database, ghost log: seq<Call>, raises: set<Marker>, budget: nat)
    returns (left: nat, crashed: bool)
    requires db.Inv(log) && StrategyMarker(SynthesizingRules, Hdbscan) in db.markers
    modifies db`markers
    ensures db.Inv(log) && old(db.markers) <= db.markers
    ensures !crashed ==> LAST in db.markers
    ensures crashed ==> left == 0 || raises != {}
    ensures Progress(db) - old(Progress(db)) >= budget - left
    ensures 0 <= budget - left <= 6
  {
    hide Database.Inv, Progress;
    left, crashed := ReviewAndPrune(db, log, raises, budget);
    if !crashed {
      left, crashed := RunForBoth(db, log, CompilingPrompts, raises, left);
    }
  }

  /** One attempt at the whole phase.  With a commit for each case and its marker, each cluster and each stage, only a
      teacher call or a foreign call of a stage that raises can end it early. */
  method CompilePrompts(db: Database, teacher: Teacher, raises: set<Marker>, budget: nat)
    returns (left: nat, crashed: bool)
    requires db.Inv(teacher.log) && Fits(db.plan, teacher.script)
    modifies db, teacher
    ensures db.Inv(teacher.log) && old(db.markers) <= db.markers
    ensures |teacher.log| - |old(teacher.log)| <= Settled(db) - old(Settled(db)) + if crashed then 1 else 0
    ensures crashed ==> Died(left, old(Raised(teacher.log)), teacher.log) || raises != {}
    ensures Raised(teacher.log) >= old(Raised(teacher.log))
    ensures !crashed ==> LAST in db.markers && CallsSucceed(db.microRules, raises)
    ensures Progress(db) - old(Progress(db)) >= budget - left
    ensures 0 <= budget - left <= Work(db.plan, db.microRules)
    ensures crashed && budget > Work(db.plan, db.microRules) ==>
      Raised(teacher.log) > old(Raised(teacher.log)) || raises != {}
  {
    hide Database.Inv, Progress;
    left, crashed := ExtractAndCluster(db, teacher, raises, budget);
    if crashed {
      return;
    }
    left, crashed := SynthesizeBoth(db, teacher, left);
    if crashed {
      return;
    }
    left, crashed := FinishStages(db, teacher.log, raises, left);
  }

  /** The commits allowed to the first n attempts. */
  function Sum(fates: seq<Fate>, n: nat): nat
    requires n <= |fates|
  {
    if n == 0 then 0 else Sum(fates, n - 1) + fates[n - 1].budget
  }

  /** How many of the first n attempts meet a stage that raises. */
  function Troubled(fates: seq<Fate>, n: nat): nat
    requires n <= |fates|
  {
    if n == 0 then 0 else Troubled(fates, n - 1) + if fates[n - 1].raises != {} then 1 else 0
  }

  predicate AllPositive(fates: seq<Fate>, n: nat)
    requires n <= |fates|
  {
    forall k | 0 <= k < n :: fates[k].budget >= 1
  }

  /** Dead attempts are paid for: while no foreign call raises, by the commits they had, and each by a commit, a raised
      teacher call or a stage that raised. */
  predicate PaidFor(fates: seq<Fate>, died: nat, raised: int, progress: int)
    requires died <= |fates|
  {
    && (raised == 0 && Troubled(fates, died) == 0 ==> Sum(fates, died) <= progress)
    && (AllPositive(fates, died) ==> died <= raised + Troubled(fates, died) + progress)
  }

  /** What one attempt may do to the calls raised and the progress. */
  predicate Attempted(fate: Fate, left: nat, crashed: bool, raised: int, progress: int) {
    raised >= 0 && progress >= fate.budget - left >= 0 && (crashed ==> left == 0 || raised > 0 || fate.raises != {})
  }

  lemma PaidForNext(fates: seq<Fate>, died: nat, raised: int, progress: int, more: int, gain: int, left: nat, crashed: bool)
    requires died < |fates| && PaidFor(fates, died, raised, progress) && raised >= 0
    requires Attempted(fates[died], left, crashed, more, gain)
    ensures PaidFor(fates, if crashed then died + 1 else died, raised + more, progress + gain)
  {
    if AllPositive(fates, died + 1) {
      assert AllPositive(fates, died);
    }
  }

  /** Attempts that die after any numbers of commits or of any raised call, until one gets through: the invariant holds
      throughout, every teacher call but one per dead attempt settles a case or a cluster, and dead attempts are paid
      for. */
  method ResumeUntilDone(db: Database, teacher: Teacher, fates: seq<Fate>) returns (completed: bool, died: nat)
    requires db.Inv(teacher.log) && Fits(db.plan, teacher.script)
    modifies db, teacher
    ensures db.Inv(teacher.log) && old(db.markers) <= db.markers
    ensures |teacher.log| - |old(teacher.log)| <= Settled(db) - old(Settled(db)) + died
    ensures died <= |fates| && (completed ==> LAST in db.markers) && (!completed ==> died == |fates|)
    ensures PaidFor(fates, died, Raised(teacher.log) - old(Raised(teacher.log)), Progress(db) - old(Progress(db)))
  {
    hide Database.Inv, Progress;
    completed, died := false, 0;
    ghost var raised, progress := 0, 0;
    while died < |fates| && !completed
      invariant died <= |fates| && (completed ==> LAST in db.markers)
      invariant db.Inv(teacher.log) && old(db.markers) <= db.markers
      invariant |teacher.log| - |old(teacher.log)| <= Settled(db) - old(Settled(db)) + died
      invariant raised == Raised(teacher.log) - old(Raised(teacher.log)) && progress == Progress(db) - old(Progress(db))
      invariant raised >= 0 && PaidFor(fates, died, raised, progress)
      decreases |fates| - died, !completed
    {
      var left, crashed, more, gain := Attempt(db, teacher, fates[died]);
      PaidForNext(fates, died, raised, progress, more, gain, left, crashed);
      raised, progress := raised + more, progress + gain;
      completed := !crashed;
      died := if crashed then died + 1 else died;
    }
  }

  method Attempt(db: Database, teacher: Teacher, fate: Fate)
    returns (left: nat, crashed: bool, ghost more: int, ghost gain: int)
    requires db.Inv(teacher.log) && Fits(db.plan, teacher.script)
    modifies db, teacher
    ensures db.Inv(teacher.log) && old(db.markers) <= db.markers && (!crashed ==> LAST in db.markers)
    ensures |teacher.log| - |old(teacher.log)| <= Settled(db) - old(Settled(db)) + if crashed then 1 else 0
    ensures more == Raised(teacher.log) - old(Raised(teacher.log)) && gain == Progress(db) - old(Progress(db))
    ensures Attempted(fate, left, crashed, more, gain)
  {
    hide Database.Inv, Progress;
    ghost var raised, progress := Raised(teacher.log), Progress(db);
    left, crashed := CompilePrompts(db, teacher, fate.raises, fate.budget);
    more, gain := Raised(teacher.log) - raised, Progress(db) - progress;
  }

  lemma LastMeansAll(markers: set<Marker>)
    requires PrefixClosed(markers) && LAST in markers
    ensures StageMarker(ExtractingRules) in markers && StrategyMarker(SynthesizingRules, Hdbscan) in markers
  {
  }
}
