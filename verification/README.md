# RuleKiln: a verified model of its durable core

RuleKiln distils labelled cases into rules: a teacher model extracts and consolidates rules, prompts are compiled from
them, a student model is evaluated, and the best strategy is shipped.  Jobs run for a long time, on leased queue rows,
through models that fail, in processes that die.  This project models the parts that make that safe, and proves what they
promise for every input, every run and every teacher, student, clock or crash.

* **Lease queue** (`JobQueue`, `LeaseProtocol`, `LeaseBoundary`, `LeaseDraining`).  The job table as a class, one method per
  committed repository call, and the protocol as a state machine: any number of workers, a clock, crashes, operator actions.
  The failure policy's read and its write are two steps.  Mutual exclusion is proved for exactly the timings that give it, and
  for exactly the operator actions that leave it intact.
* **Crash and resume of the compile phase** (`Markers`, `Clusters`, `ClusterPlan`, `CompileStore`, `Extraction`, `Synthesis`,
  `CompileRuns`, `Renaming`, `ExactlyOnce`).  Committed tables and stage markers, attempts that die before any commit, an
  arbitrary teacher, identifiers drawn anew by every run.
* **Crash and resume of evaluation** (`CaseScores`, `CaseStore`, `Evaluation`, `EvaluationRuns`), the same for the student.
* **Refinement** (`Rules`, `Pruning`, `RuleRefinement`, `RefinementLoop`, `RefinementLadder`, `RefinementStage`).  Split identifiers as
  strings, pruning, the frame of a refinement, the closed loop against an arbitrary teacher and student, what it accepts and why it
  ends, and what becomes of it when the process dies: the failure analysis it starts from lives in the memory of one attempt only.
* **Rate limiter** (`RateLimiter`).  The sixty-second window against a check of the whole history.
* **Statistics** (`Counting`, `Statistics`, `PairedComparison`, `Bootstrap`).  Separately coded counts that have to agree.
* **Deterministic algorithms** (`ExceptionGraph`, `FewShot`, `Knn`, `StrategySelection`, `ModelCalls`).

`Grouping`, `Sorting`, `Strings` and `Wrappers` hold what these share.  Code that changes state step by step is a method with
loops, proved against a function or predicate whose meaning is then the subject of lemmas.

`dafny verify dfyconfig.toml` checks the whole project.

## Where the code does less than one might expect

* `LeaseMustExceedTenSeconds`: with leases of at most ten seconds any renewal delay lets two workers execute one job.
* `HarmlessIff`, `StaysSafeIff`: a cancel of a job that a worker executes, once it is retried, and a retry decided on a stale status
  let a second worker execute it; actions on jobs that nobody executes never do. `CancelThenRetryRunsTwice` and
  `StaleRetryRunsTwice` give such runs under any timing.
* `RepeatedCheckBreaksBound`: two checks at the same clock value, sixty seconds after the oldest request, both admit;
  `ServedSpacedIff` says when this happens.
* `RefinedIff`, `LoggedIff`, `CrashLosesRefinement`: after a crash past the analysis marker the refinement is dropped for good; the
  baseline is kept after every crash. The worker never calls the loop again once there are artifacts to resume from; by
  `ResumeIsSafeIff` a call that found those of a rejected round could return rules below the baseline.
* `GetsThroughIff`: a `must_match_regex` pattern that does not compile ends every attempt in which its case gets a text answer.
* `FrameHoldsIff`: version 1 entries are not filtered, so where the teacher leaves an implicated rule without an action they can
  change rules that were not implicated.
* `ProvenanceAgreesIff`: an empty split is recorded as leaving no rule although the rule stays, and of several actions on one rule
  each is recorded although only the last counts.
* `PruningIsIdempotent`: a negative cap on the number of rules is accepted and drops rules from the end every time.
* `OrderIsIrrelevantIff`: without ids, nearest-neighbour ties are broken by position in the training set.
* `DottedPathFails`: outputs are flat, so assertions with a dotted path can never pass on a structured output.

## Model

| member | source | states |
|---|---|---|
| `LeaseBoundary.MutualExclusionIff` | src/rulekiln/workers/dbos_worker.py:44-128 | no run in which operators leave executing jobs alone ever executes a job twice, if and only if the renewal interval plus its worst delay fits in the lease |
| `LeaseBoundary.StaysSafeIff` | src/rulekiln/db/repositories/jobs.py:295-540 | with timely renewals, a run never reaches a state from which undisturbed steps execute a job twice, if and only if each of its cancels and stale retries met a job that no worker was executing |
| `LeaseBoundary.HarmlessIff` | src/rulekiln/db/repositories/jobs.py:373-438 | from any state with the timing invariant: a cancel or a stale retry leaves every undisturbed continuation exclusive if and only if no worker executes the job |
| `LeaseBoundary.DisturbedRunsTwice` | src/rulekiln/db/repositories/jobs.py:373-438 | otherwise there is an undisturbed continuation, claiming in queue order without skipping a row, in which two workers execute the job: after a stale retry at once, after a cancel through the retry that its failed status allows |
| `LeaseBoundary.WaitingIsTakenUp` | src/rulekiln/db/repositories/jobs.py:306-330 | a waiting job is taken up in queue order whatever waits before it: newcomers first take the older jobs, one each, and no other worker is affected |
| `LeaseProtocol.SafeWhenRenewedInTime` | src/rulekiln/db/repositories/jobs.py:295-540 | with timely renewals and operators who leave executing jobs alone, in every reachable state at most one worker executes a job, it is the row's owner, its lease has not expired, and no failure policy writes a stale requeue |
| `LeaseProtocol.LeaseInvHolds` | src/rulekiln/workers/dbos_worker.py:61-128 | the timing invariant behind mutual exclusion holds over every interleaving of claims in any order, renewals, recoveries, completions, failures, manual retries, crashes, clock steps, and cancels and stale retries of jobs nobody executes |
| `LeaseProtocol.LeaseInvStep` | src/rulekiln/db/repositories/jobs.py:336-540 | every single such step keeps that invariant, although most writes are not guarded by the row's owner |
| `LeaseProtocol.OthersKeepAway` | src/rulekiln/db/repositories/jobs.py:357-540 | no step of another participant changes the row of a worker that is executing it |
| `LeaseProtocol.OwnStepHolds` | src/rulekiln/db/repositories/jobs.py:336-370 | a worker's own step leaves it in possession of its job for as long as it stays busy |
| `LeaseProtocol.HoldsJobStep` | src/rulekiln/db/repositories/jobs.py:295-540 | whoever takes a step, a busy worker still owns a running row whose lease outlasts its next renewal |
| `LeaseProtocol.FailedStatusStep` | src/rulekiln/ui/routes.py:1026-1031 | a failed status always goes with a failed queue entry, so the guarded retry never reaches a running job |
| `LeaseProtocol.QueueInvHolds` | src/rulekiln/db/repositories/jobs.py:295-540 | in every run, cancels and stale writes included, a row is running exactly when owner, lock time and lease are all set, and attempts stay within budget |
| `LeaseProtocol.QueueInvStep` | src/rulekiln/db/repositories/jobs.py:295-540 | every step, including operator cancel and stale writes, keeps lock coherence and the attempt budget |
| `LeaseProtocol.WrittenRowWithinBudget` | src/rulekiln/db/repositories/jobs.py:441-490 | a write needs more attempt budget only if it is a retry or a requeue decided on a row that has changed since |
| `LeaseProtocol.RowWithinBudgetStep` | src/rulekiln/db/repositories/jobs.py:295-540 | after any step each row is lock-coherent and its attempts are within its maximum plus its retries and stale requeues, strictly so while it is pending |
| `LeaseProtocol.AttemptsBounded` | src/rulekiln/db/repositories/jobs.py:295-333 | attempts never exceed the maximum plus manual retries plus stale requeues; renewed in time and with executing jobs left alone, stale requeues do not occur |
| `LeaseProtocol.FinishedJobRests` | src/rulekiln/db/repositories/jobs.py:336-490 | at any timing, a completed, cancelled or failed job that no worker executes keeps its row through every run until an operator acts on it |
| `LeaseProtocol.RestingRowStep` | src/rulekiln/db/repositories/jobs.py:336-540 | no step of a worker or of the clock writes such a row, and nobody starts executing it |
| `LeaseBoundary.UnsafeWhenRenewedLate` | src/rulekiln/workers/dbos_worker.py:44-58 | when the timing condition fails there is an undisturbed run in which two workers execute one job |
| `LeaseBoundary.LeaseMustExceedTenSeconds` | src/rulekiln/workers/dbos_worker.py:50 | because renewals come at most every ten seconds, some positive delay is tolerated exactly for leases above ten seconds |
| `LeaseBoundary.ToleratedDelay` | src/rulekiln/workers/dbos_worker.py:50 | exclusion holds exactly up to a delay of two thirds of a lease of thirty seconds or more, and of what a shorter lease leaves beyond ten seconds |
| `LeaseBoundary.CancelThenRetryRunsTwice` | src/rulekiln/db/repositories/jobs.py:373-438 | an operator cancel followed by a retry starts a running job a second time, under any timing |
| `LeaseBoundary.StaleRetryRunsTwice` | src/rulekiln/db/repositories/jobs.py:412-438 | a retry whose status check was made before the job was claimed starts it a second time: the repository call checks nothing itself |
| `LeaseBoundary.TakenOver` | src/rulekiln/db/repositories/jobs.py:493-540 | if recovery finds the job pending while a worker still executes it, the second worker takes it over |
| `LeaseDraining.QueueDrains` | src/rulekiln/db/repositories/jobs.py:295-540 | without new jobs or retries, and with cancels only of jobs nobody executes, claims, finishes and row-changing recoveries number at most the measure of the table: the queue drains |
| `LeaseDraining.EventsCost` | src/rulekiln/db/repositories/jobs.py:295-540 | each claim, completion, failure and row-changing recovery strictly lowers the measure, and only new jobs and retries raise it; a cancel does not |
| `LeaseDraining.WrittenRowRank` | src/rulekiln/db/repositories/jobs.py:295-490 | the row a step writes never gains rank, and loses some when the step is such an event |
| `LeaseDraining.RecoveryCost` | src/rulekiln/db/repositories/jobs.py:493-540 | a recovery that changes any row lowers the measure |
| `JobQueue.JobTable.CreateJob` | src/rulekiln/db/repositories/jobs.py:23-25 | a new job is coherent, has no attempt behind it, is due exactly from now on, touches no other row, and is next in line exactly when no due job is older |
| `JobQueue.NewJobIsNext` | src/rulekiln/db/repositories/jobs.py:306-313 | in any table, a new row is the next to be claimed if and only if no due job was created before it |
| `JobQueue.JobTable.ClaimNextJob` | src/rulekiln/db/repositories/jobs.py:295-333 | claims the oldest due pending row that is not locked: it is then running for the worker until exactly the lease is over, with one attempt more; with none claimed no due row was free |
| `JobQueue.JobTable.RenewLease` | src/rulekiln/db/repositories/jobs.py:336-354 | only the owner of a running row changes anything, no other row is touched, and afterwards the row expires exactly when the lease time has passed since the renewal |
| `JobQueue.JobTable.CompleteJob` | src/rulekiln/db/repositories/jobs.py:357-370 | whoever owns it, the row is unlocked for good: never due, never expired, unchanged by any later renewal or recovery, with its attempts kept, not retryable by its status; other rows are untouched |
| `JobQueue.JobTable.CancelJob` | src/rulekiln/db/repositories/jobs.py:373-392 | whoever owns it, the row is unlocked for good: never due, never expired, unchanged by any later renewal or recovery, with its attempts kept, but retryable by its status; other rows are untouched |
| `JobQueue.JobTable.RetryJob` | src/rulekiln/db/repositories/jobs.py:412-438 | a queue-backed job waits from now on, any other one rests; attempts are kept, no other row is touched, and the status returned, no longer a failed one, is the one written |
| `JobQueue.JobTable.ApplyJobFailurePolicy` | src/rulekiln/db/repositories/jobs.py:441-490 | some later time makes the written row due if and only if the failure is retryable and attempts are left; it is then due exactly from now plus backoff on, and otherwise rests, its status saying whether it was retryable; attempts are kept, no other row is touched, and the returned status is the one written |
| `JobQueue.JobTable.RecoverExpiredLeases` | src/rulekiln/db/repositories/jobs.py:493-540 | both updates together: exactly the expired running rows change; one with attempts left waits from when it was due before, one without rests as retryable, attempts kept; the two counts add up to the expired rows and none is left |
| `JobQueue.FailureSettles` | src/rulekiln/db/repositories/jobs.py:441-490 | the same of the row update by itself: what becomes of a failed attempt, told by when the row is due |
| `JobQueue.RecoverySettles` | src/rulekiln/db/repositories/jobs.py:493-540 | the same of a whole table: which rows recovery changes, and when those wait from |
| `LeaseProtocol.FailureOutcome` | src/rulekiln/workers/dbos_worker.py:95-128 | a worker that reads and writes the row of its failed attempt with nothing in between settles the failure in that way and is free again |
| `JobQueue.RecoveryIsComplete` | src/rulekiln/db/repositories/jobs.py:493-540 | after recovery no running row is expired, and requeued and failed rows partition the expired ones |
| `JobQueue.OldestExists` | src/rulekiln/db/repositories/jobs.py:306-313 | a queue with a due job has an oldest one, so the claim query cannot miss it |
| `ExactlyOnce.RunJob` | src/rulekiln/workers/distillation_worker.py:571-770 | for any teacher and any attempts, each dying after any number of the modelled commits, of a teacher call that raises or of a foreign call of a stage that raises (embedding, clustering, judge): completed stages are a prefix; teacher calls number at most cases plus clusters plus dead attempts; the commits of dead attempts are progress, so if nothing raises, attempts that together have more than two commits per case, one per cluster and one per stage complete the job; once through, every case and every cluster has the rules of exactly one logged reply |
| `ExactlyOnce.ExtractedExactlyOnce` | src/rulekiln/workers/distillation_worker.py:571-638 | once the extraction marker is set, the micro rules stored for a case are exactly one logged reply to that case |
| `ExactlyOnce.NoStrayRules` | src/rulekiln/workers/distillation_worker.py:609-628 | every stored micro rule belongs to a training case |
| `ExactlyOnce.SynthesizedExactlyOnce` | src/rulekiln/workers/distillation_worker.py:684-770 | once synthesis is marked complete, the rules stored for a cluster are exactly one logged reply for it |
| `ExactlyOnce.CompletedExactlyOnce` | src/rulekiln/workers/distillation_worker.py:571-770 | the last marker of the chain implies both, for all cases and clusters |
| `ExactlyOnce.ResumedEqualsUninterrupted` | src/rulekiln/workers/distillation_worker.py:571-770 | two runs of a job, crashed however often and each with its own random identifiers, end with equal tables up to a renaming of these if the teacher answers equal requests alike; so a resumed run equals the one that never crashed |
| `ExactlyOnce.SameMicroRules` | src/rulekiln/workers/distillation_worker.py:571-638 | the same for the micro rules alone |
| `ExactlyOnce.CallsBounded` | src/rulekiln/workers/distillation_worker.py:571-770 | teacher calls are bounded by what there is to settle plus one per dead attempt |
| `ClusterPlan.PlansAreSameJob` | src/rulekiln/workers/distillation_worker.py:646-682 | for any embedding and any labels, the clusters of a job with other identifiers are the same clusters renamed |
| `Renaming.ClustersRenamed` | src/rulekiln/pipeline/clustering.py:27-49 | grouping by label commutes with renaming the rule ids |
| `Renaming.BlocksRenamed` | src/rulekiln/workers/distillation_worker.py:751-753 | the rules synthesized from renamed clusters are the renamed rules |
| `CompileStore.ProgressBound` | src/rulekiln/workers/distillation_worker.py:571-945 | progress never exceeds two commits per case, one per cluster and one per stage |
| `CompileRuns.ResumeUntilDone` | src/rulekiln/workers/distillation_worker.py:324-945 | over any sequence of attempts the invariants hold, markers are never lost, every call but one per dead attempt settles a case or a cluster, and dead attempts are paid for: while no foreign call raises, the modelled commits they had all show as progress |
| `CompileRuns.PaidForNext` | src/rulekiln/workers/distillation_worker.py:324-945 | one more attempt is paid for by its own progress, a teacher call it raised or a stage that raised in it, whether it died or not |
| `CompileRuns.CompilePrompts` | src/rulekiln/workers/distillation_worker.py:324-945 | one attempt keeps the invariants and completes the last stage unless it died; every modelled commit it used is progress; given two commits per case, one per cluster and one per stage, it dies only because a teacher call of its own or a foreign call of a stage raised |
| `CompileRuns.ExtractAndCluster` | src/rulekiln/workers/distillation_worker.py:324-682 | the attempt up to the clusters, likewise; embedding and clustering run again in every attempt that has a rule, and it dies if one of them raises |
| `CompileRuns.SynthesizeBoth` | src/rulekiln/workers/distillation_worker.py:684-770 | the attempt over both strategies, in order |
| `CompileRuns.FinishStages` | src/rulekiln/workers/distillation_worker.py:780-945 | review, pruning and prompt compilation complete in order for both strategies, unless a call of theirs raises |
| `CompileRuns.RunStage` | src/rulekiln/db/repositories/jobs.py:87-111 | a stage after a completed one can be marked without breaking the prefix; its calls can raise only while it is not marked |
| `Extraction.ExtractRules` | src/rulekiln/workers/distillation_worker.py:571-638 | the stage costs nothing once marked; otherwise each call but the last of a dead attempt settles a case, and surviving means the marker is set |
| `Extraction.ExtractCases` | src/rulekiln/workers/distillation_worker.py:576-636 | one pass over the cases: settled ones are left alone, each other one costs one call and is settled unless the attempt dies |
| `Extraction.SettledIsRecalled` | src/rulekiln/workers/distillation_worker.py:576-605 | what was read back at the start of the attempt, and added since, skips a case exactly if it was settled before |
| `Extraction.ExtractOne` | src/rulekiln/workers/distillation_worker.py:606-636 | one call for one case; afterwards the case is settled or the attempt has died |
| `Extraction.StoreRules` | src/rulekiln/workers/distillation_worker.py:626-636 | rows and marker go in with separate commits; a crash between them leaves the case settled by its rows |
| `Extraction.StoreNothing` | src/rulekiln/workers/distillation_worker.py:626-636 | a reply without rules settles its case by the marker alone |
| `Extraction.MarkCase` | src/rulekiln/workers/distillation_worker.py:630-635 | marking a settled case keeps the invariants |
| `Extraction.BuildMicroRules` | src/rulekiln/workers/distillation_worker.py:609-625 | one row per rule of the reply, under the database id of the case |
| `Extraction.StoredCases` | src/rulekiln/workers/distillation_worker.py:576-580 | the case ids read back from the rows are exactly those of settled cases whose reply had rules |
| `Extraction.InsertStep` | src/rulekiln/workers/distillation_worker.py:626-628 | inserting a reply's rows keeps the invariant with one more settled case |
| `Extraction.MarkStep` | src/rulekiln/workers/distillation_worker.py:630-635 | a case marker never settles another case |
| `Extraction.CompleteStep` | src/rulekiln/workers/distillation_worker.py:638 | the stage marker may be set when every case is settled, and starts synthesis from nothing |
| `Synthesis.SynthesizeRules` | src/rulekiln/workers/distillation_worker.py:686-770 | one attempt at a strategy: completed ones cost nothing, each call but the last of a dead attempt settles a cluster |
| `Synthesis.SynthesizeClusters` | src/rulekiln/workers/distillation_worker.py:710-766 | one pass over a strategy's clusters, skipping marked ones |
| `Synthesis.SynthesizeNext` | src/rulekiln/workers/distillation_worker.py:710-766 | a marked cluster costs nothing, any other one exactly one call |
| `Synthesis.NextItem` | src/rulekiln/workers/distillation_worker.py:710-730 | a cluster's marker is there exactly if the cluster is settled, and otherwise it is the next to settle |
| `Synthesis.SynthesizeOne` | src/rulekiln/workers/distillation_worker.py:742-766 | rows and marker of a cluster go in together or not at all |
| `Synthesis.BuildSynthesizedRules` | src/rulekiln/workers/distillation_worker.py:751-753 | one row per rule of the reply, carrying the cluster's micro rule ids |
| `Synthesis.ClusterStep` | src/rulekiln/workers/distillation_worker.py:755-765 | that commit keeps the invariant with one more settled cluster |
| `Synthesis.ItemMarkersDiffer` | src/rulekiln/workers/distillation_worker.py:2274-2277 | no two clusters of a job share a marker |
| `CompileStore.Database.constructor` | src/rulekiln/db/repositories/jobs.py:87-137 | a fresh job satisfies the invariants |
| `CompileStore.Database.MarkStageComplete` | src/rulekiln/db/repositories/jobs.py:87-111 | adds the marker in one commit, or nothing if the process dies first |
| `CompileStore.Database.InsertMicroRules` | src/rulekiln/db/repositories/jobs.py:135-137 | adds all rows in one commit, or none |
| `CompileStore.Database.InsertSynthesizedAndMark` | src/rulekiln/workers/distillation_worker.py:755-765 | adds rows and marker in one commit, or neither |
| `Markers.ChainUpTo` | src/rulekiln/db/repositories/jobs.py:87-111 | the compile phase has at most one stage per position, so at most twelve |
| `Markers.PayloadOfDb` | src/rulekiln/workers/distillation_worker.py:2284-2288 | the payload case id comes back from the database id, whatever delimiters the ids contain |
| `Markers.CaseMarkerInjective` | src/rulekiln/workers/distillation_worker.py:2270-2271 | different cases have different markers |
| `Markers.JoinInjective` | src/rulekiln/workers/distillation_worker.py:2275 | joining identifiers without commas loses nothing |
| `Markers.ClusterMarkerInjective` | src/rulekiln/workers/distillation_worker.py:2274-2277 | unless the digests of their keys collide, equal cluster markers belong to one strategy and one set of rules |
| `Markers.NextKeepsPrefix` | src/rulekiln/db/repositories/jobs.py:87-111 | marking the stage after a completed one keeps the completed stages a prefix |
| `Markers.ArtifactKeepsPrefix` | src/rulekiln/db/repositories/jobs.py:87-111 | case and cluster markers do not affect the prefix |
| `Markers.PrefixMeans` | src/rulekiln/workers/distillation_worker.py:324-945 | completed stages are a prefix exactly if each has all those before it, listed from validation over extraction, embedding, clustering, synthesis, review and pruning to the prompts |
| `Markers.ClusterMarkerForgetsOrder` | src/rulekiln/workers/distillation_worker.py:2274-2277 | a cluster's marker does not depend on the order of its rules |
| `Clusters.BuildClusters` | src/rulekiln/pipeline/clustering.py:27-49 | groups the zipped ids by label, noise left out, in label order |
| `Grouping.GroupedNext` | src/rulekiln/pipeline/clustering.py:31-37 | one more item goes to the end of the group of its key, a new key to the end of the keys, and an item without a key changes nothing |
| `Clusters.ClustersDisjoint` | src/rulekiln/pipeline/clustering.py:27-49 | clusters are non-empty, made of input ids, and pairwise disjoint, for any labels |
| `Clusters.ClusterOfRule` | src/rulekiln/pipeline/clustering.py:33-37 | a rule is in a cluster exactly when its label is not noise, and then with all rules of that label |
| `Clusters.TogetherIff` | src/rulekiln/pipeline/clustering.py:33-37 | two rules share a cluster exactly when they have the same label and it is not noise |
| `Clusters.ClustersInOrder` | src/rulekiln/pipeline/clustering.py:39-49 | clusters are in the order of their labels |
| `ClusterPlan.ComputeClusters` | src/rulekiln/pipeline/clustering.py:52-85 | for any labelling: no rows give no cluster, a single row gives one cluster of its id, and of several rows two share a cluster exactly when they have the same label and it is not noise; clusters are then non-empty, disjoint and made of the rows' ids |
| `ClusterPlan.StrategyClustersFit` | src/rulekiln/pipeline/clustering.py:52-85 | the same of the clusters as a function |
| `ExactlyOnce.SingleRuleIsSynthesized` | src/rulekiln/workers/distillation_worker.py:676-770 | once the chain is complete, a job with one micro rule has exactly one settled cluster for each strategy, made of that rule and synthesized from one logged reply |
| `ExactlyOnce.RuleIsSynthesizedIff` | src/rulekiln/workers/distillation_worker.py:676-770 | once the chain is complete, one of several micro rules is in a settled cluster of a strategy if and only if its label is not noise |
| `ClusterPlan.PlanIsValid` | src/rulekiln/workers/distillation_worker.py:676-677 | whatever the labels: if, for the rules that the teacher's possible replies to this job's cases give it, no two clusters of one strategy collide, the job's clusters never share a marker |
| `EvaluationRuns.ResumeEvaluation` | src/rulekiln/workers/distillation_worker.py:3363-3431 | for any student and any attempts: at most one call per case plus one per dead attempt; once through, results are the stored ones in case order and the strategy and split have their run; it gets through if and only if some attempt, from where the one before it stood, reaches its run record without scoring that raises and with commits for all it stores |
| `EvaluationRuns.GetsThroughIff` | src/rulekiln/workers/distillation_worker.py:3363-3431 | given an attempt with more commits than cases, the evaluation gets through whatever the student answers, if and only if every must_match_regex pattern of its cases compiles |
| `EvaluationRuns.SomeAttemptCompletes` | src/rulekiln/workers/distillation_worker.py:3363-3431 | from anything stored, attempts one of which has more commits than cases get through if scoring never raises |
| `EvaluationRuns.HopelessNeverCompletes` | src/rulekiln/pipeline/evaluator.py:264-275 | no attempts get through, however many, if every answer to one case not yet stored makes scoring raise |
| `EvaluationRuns.EvaluatePromptStrategy` | src/rulekiln/workers/distillation_worker.py:3363-3431 | one attempt: no case stored before is asked again, nothing stored changes, calls exceed newly stored cases by at most one; it gets through if and only if scoring did not raise, every result had its commit, and one was left for the run unless there is one |
| `EvaluationRuns.ResumedEqualsUninterrupted` | src/rulekiln/pipeline/evaluator.py:246-289 | two finished evaluations have the same results if the student answers a case alike; so a resumed one equals the one that never crashed |
| `EvaluationRuns.ExactlyOneRun` | src/rulekiln/workers/distillation_worker.py:3322-3335 | a finished evaluation has exactly one run for its strategy and split, summarizing its results |
| `EvaluationRuns.RunsStayCurrent` | src/rulekiln/workers/distillation_worker.py:3330-3335 | a run on record keeps summarizing the stored results when more are stored |
| `EvaluationRuns.EvalRunTable.InsertIfMissing` | src/rulekiln/workers/distillation_worker.py:3322-3335 | inserts only if strategy and split have no run yet, so there is never more than one, and fails only for lack of a commit |
| `EvaluationRuns.StoredScoresBounded` | src/rulekiln/pipeline/evaluator.py:102-161 | with non-negative weights every stored score and the weighted score are in [0, 1] |
| `EvaluationRuns.StoredResultsJudge` | src/rulekiln/pipeline/evaluator.py:246-289 | every stored result of a finished evaluation judges, assertion by assertion, an answer that was given to its case |
| `Evaluation.EvaluatePrompt` | src/rulekiln/pipeline/evaluator.py:246-289 | completed results are taken over; the attempt dies where scoring raises or the commits end; every call but the last of a dead attempt was stored; otherwise the results are complete and in case order |
| `Evaluation.EvaluateMissing` | src/rulekiln/pipeline/evaluator.py:264-275 | the loop over the cases, likewise |
| `Evaluation.EvaluateIfMissing` | src/rulekiln/pipeline/evaluator.py:264-275 | a case on record costs nothing, any other one exactly one call, and the attempt if scoring the answer raises |
| `Evaluation.EvaluateCase` | src/rulekiln/pipeline/evaluator.py:268-275 | the stored result is the score of the answer just given; scoring that raises, or a missing commit, ends the attempt with nothing stored |
| `Evaluation.AttemptCosts` | src/rulekiln/pipeline/evaluator.py:264-275 | every call but the last of a dead attempt was stored, and every stored result used one commit |
| `Evaluation.DiesOfCommits` | src/rulekiln/pipeline/evaluator.py:264-275 | where scoring never raises, an attempt dies only when no commit is left |
| `Evaluation.CollectResults` | src/rulekiln/pipeline/evaluator.py:277 | the results in case order |
| `Evaluation.SourcedNext` | src/rulekiln/pipeline/evaluator.py:268-275 | storing the score of an answer keeps every stored result the score of a logged answer |
| `CaseStore.CaseTable.Upsert` | src/rulekiln/db/repositories/eval_case_results.py:36-83 | after the commit, loading the scope gives the result passed in for its case, field for field; other cases and scopes are unchanged, and a row is added only for a new key |
| `CaseStore.CaseTable.Find` | src/rulekiln/db/repositories/eval_case_results.py:41-50 | finds the row with the key, if there is one |
| `CaseStore.CaseTable.Completed` | src/rulekiln/workers/distillation_worker.py:3380-3389 | the stored results of a scope by case |
| `CaseStore.StoredReplaced` | src/rulekiln/db/repositories/eval_case_results.py:72-82 | updating a row in place is storing its result under its case |
| `CaseStore.ConversionsRoundTrip` | src/rulekiln/workers/distillation_worker.py:2366-2415 | a result turned into a record and loaded comes back unchanged; a record loaded, stored and loaded again loads the same |
| `CaseScores.ScoreCase` | src/rulekiln/pipeline/evaluator.py:102-135 | told by what each assertion says of what its path leads to: the score is the share of the weight whose assertions hold, each assertion is on record, and with non-negative weights a well-formed answer passes exactly if every assertion with weight holds; malformed or absent output scores zero; scoring raises exactly if a pattern that does not compile meets something to match |
| `CaseScores.ScoreMeans` | src/rulekiln/pipeline/evaluator.py:69-99 | must_include holds exactly if the text splits around the value, must_not_include exactly if it does not, must_equal and must_match_regex follow the library; where the path leads nowhere the assertion fails |
| `CaseScores.ResolvedMeans` | src/rulekiln/pipeline/evaluator.py:79-86 | a text or an empty path is looked at as a whole, and a field is found by its whole name only |
| `CaseScores.ScoredJudges` | src/rulekiln/pipeline/evaluator.py:102-135 | the score of an answer as a function meets that description |
| `CaseScores.PassesIff` | src/rulekiln/pipeline/evaluator.py:102-135 | a well-formed answer passes exactly if every assertion with weight holds |
| `CaseScores.WeightedSumMeans` | src/rulekiln/pipeline/evaluator.py:116-127 | the weighted sum is the total weight of the assertions that hold |
| `CaseScores.ScoringRaisesIff` | src/rulekiln/pipeline/evaluator.py:95-96 | scoring raises exactly if some assertion has a pattern that does not compile and a path that leads somewhere |
| `CaseScores.CompilingNeverRaises` | src/rulekiln/pipeline/evaluator.py:95-96 | if every pattern of the cases compiles, scoring raises on no answer to any of them |
| `CaseScores.BadPatternRaises` | src/rulekiln/pipeline/evaluator.py:95-96 | a case with a pattern that does not compile makes scoring raise on a well-formed text answer |
| `CaseScores.CaseScoreBounds` | src/rulekiln/pipeline/evaluator.py:102-135 | with non-negative weights the score is in [0, 1], and an output passes exactly when every assertion with weight does |
| `CaseScores.WeightedSumBounds` | src/rulekiln/pipeline/evaluator.py:116-127 | the weighted sum reaches the total weight exactly when every weighted assertion passes |
| `CaseScores.EveryAssertionRecorded` | src/rulekiln/pipeline/evaluator.py:120-123 | every assertion has a score key of its own |
| `CaseScores.RecordedScore` | src/rulekiln/pipeline/evaluator.py:120-123 | under its key stands the assertion's score |
| `CaseScores.DottedPathFails` | src/rulekiln/pipeline/evaluator.py:79-86 | outputs are flat, so an assertion with a dotted path fails on every structured output |
| `CaseScores.WeightedCaseScore` | src/rulekiln/pipeline/evaluator.py:157-161 | scores weighted by case, with weight one for unknown cases and zero for no weight at all |
| `CaseScores.WeightedScoreBounds` | src/rulekiln/pipeline/evaluator.py:157-161 | with non-negative weights the weighted score of results in [0, 1] is in [0, 1] |
| `CaseScores.WeightOfMeans` | src/rulekiln/pipeline/evaluator.py:157-161 | a result weighs what its case does, and one if its case is unknown |
| `CaseScores.WeightedPerfectIff` | src/rulekiln/pipeline/evaluator.py:157-161 | the weighted score is one exactly if every result with weight scores one |
| `RefinementLoop.FreshRunIsSafe` | src/rulekiln/workers/distillation_worker.py:2664-2943 | for any teacher, student and epsilon: after k accepted rounds the returned evaluation is the student's evaluation of the returned rules, which meet the budgets; its metric is not below the baseline and at least (k - 1) epsilon above it |
| `RefinementLoop.AcceptedRoundsBounded` | src/rulekiln/workers/distillation_worker.py:2823-2830 | if the metric is in [0, 1], (k - 1) epsilon is at most one |
| `RefinementLadder.FreshRunReturnsIff` | src/rulekiln/workers/distillation_worker.py:2664-2943 | a fresh run returns something if and only if there are rules and an iteration to make, and the first round has an outcome whose metric is not below the baseline |
| `RefinementLadder.FreshRunClimbs` | src/rulekiln/workers/distillation_worker.py:2664-2943 | a fresh run returns the last of a ladder of outcomes, each of the next iteration on the rules before it and not worse, with a gain of epsilon between; it ends only because iterations ran out, the next round had no outcome or a lower metric, or the last gain was below epsilon |
| `RefinementLadder.LadderIsUnique` | src/rulekiln/workers/distillation_worker.py:2823-2918 | there is only one such ladder, so the rounds alone decide what is accepted and where the loop ends |
| `RefinementLadder.GoodRoundIsAccepted` | src/rulekiln/workers/distillation_worker.py:2823-2918 | after any such rounds, a next one that is not worse is accepted, unless iterations ran out or the last gain was below epsilon |
| `RefinementLadder.FreshRunLeavesItsLadder` | src/rulekiln/workers/distillation_worker.py:2834-2845 | what is left on disk is one artifact with its metric per accepted outcome and one for the outcome that was worse |
| `RefinementLadder.RoundHasOutcomeIff` | src/rulekiln/workers/distillation_worker.py:2724-2821 | an iteration has an outcome if and only if there are signals, a current rule is implicated, the reply acts on an implicated rule or has a version 1 entry, some rule survives pruning with those signals, the prompt compiles and the student is evaluated |
| `RefinementLoop.RunRefinementLoop` | src/rulekiln/workers/distillation_worker.py:2664-2943 | the loop returns the last accepted outcome of the iteration it specifies, nothing if no round was accepted or there are no rules, and leaves an artifact for each round that was evaluated, the rejected one included; a process that dies in it leaves the artifacts of the iterations it finished, the last one torn or not |
| `RefinementLoop.InterruptedLeaves` | src/rulekiln/workers/distillation_worker.py:2834-2845 | a process that dies in an iteration leaves the artifacts of those before it and one torn artifact at most |
| `RefinementLoop.RunIteration` | src/rulekiln/workers/distillation_worker.py:2708-2919 | one pass of the loop body: its state, its artifact, and whether it stops the loop |
| `RefinementLoop.RunRound` | src/rulekiln/workers/distillation_worker.py:2724-2821 | one iteration with each early exit up to its evaluation: no signals, a teacher call that raises, no action left after the filter and no entry, or no rule left after pruning |
| `RefinementLoop.Refine` | src/rulekiln/pipeline/rule_refinement.py:180-229 | no implicated rule among the current ones means no teacher call and no action; otherwise the teacher's actions on other rules are filtered out and its version 1 entries are not |
| `RefinementLoop.FreshRunInv` | src/rulekiln/workers/distillation_worker.py:2700-2919 | the loop invariant over every number of iterations |
| `RefinementLoop.IterateKeepsInv` | src/rulekiln/workers/distillation_worker.py:2823-2918 | one iteration keeps it |
| `RefinementLoop.OutcomeIsEvaluated` | src/rulekiln/workers/distillation_worker.py:2770-2821 | what an iteration evaluates is what it may return, and is within the budgets |
| `RefinementLoop.LoopRuleIdsDistinct` | src/rulekiln/workers/distillation_worker.py:2700-2943 | fresh or resumed, with any teacher, the loop never returns two rules with one id |
| `RefinementLoop.ResumeIsSafeIff` | src/rulekiln/workers/distillation_worker.py:2708-2722 | a statement on the function called with artifacts on disk, a call that the worker never makes after a crash: for artifacts of a prefix of the iterations and scores in any range that holds the metric taken over, the call guards the baseline for all teachers and students exactly when nothing is left to run (no rules, a cap of zero, or no iteration) or that metric is not below the baseline |
| `RefinementLoop.RejectedArtifactIsUnsafe` | src/rulekiln/workers/distillation_worker.py:2834-2845 | if there are rules, a cap other than zero and two iterations, a first round rejected with any non-negative score below the baseline leaves one artifact, and a call that finds it may return rules below the baseline though all scores are between zero and the baseline |
| `RefinementLoop.FreshRunLeaves` | src/rulekiln/workers/distillation_worker.py:2834-2845 | a run from scratch leaves artifacts of a prefix of the iterations, with metrics not below the baseline except perhaps the last, at which it stopped |
| `RefinementLoop.ReplayOnlyMovesMetric` | src/rulekiln/workers/distillation_worker.py:2710-2722 | replaying artifacts changes the current metric and nothing else |
| `RefinementLoop.ResumedFloor` | src/rulekiln/workers/distillation_worker.py:2708-2722 | after the replay accepted metrics never fall below the metric taken over |
| `RefinementStage.RefinedIff` | src/rulekiln/workers/distillation_worker.py:1808-1860 | whatever an attempt finds on disk and wherever it dies: a refined evaluation reaches eval_map if and only if the attempt finds no analysis marker, runs with the loop enabled on a distilled strategy, lives from before that marker to the end of the loop, and a round is accepted; it is then what a run without any artifact returns, and the stored evaluation otherwise |
| `RefinementStage.AnalysisIsNotRepeated` | src/rulekiln/workers/distillation_worker.py:1808-1860 | an attempt that finds the analysis marker leaves artifacts and best rules as they were and works with, and logs, the unrefined evaluation |
| `RefinementStage.NeverBelowBaseline` | src/rulekiln/workers/distillation_worker.py:1808-1860 | after any crash what an attempt works with is never below the stored evaluation |
| `RefinementStage.AttemptStaysOrderly` | src/rulekiln/workers/distillation_worker.py:1808-1860 | no attempt leaves anything of the refinement before the analysis marker or logs before the refining marker, and none loses a marker |
| `RefinementStage.FirstDecides` | src/rulekiln/workers/distillation_worker.py:1808-2014 | over any attempts at a job, those before the first that gets past the analysis marker leave nothing, and artifacts and best rules stay as that attempt left them |
| `RefinementStage.RefinementIsDropped` | src/rulekiln/workers/distillation_worker.py:1808-1860 | once an attempt got past the analysis marker, every later attempt works with the unrefined evaluation |
| `RefinementStage.LoggedIff` | src/rulekiln/workers/distillation_worker.py:1808-2014 | the metrics logged for good are the refined ones if the first attempt past the analysis marker refined and lived until they were logged, and the unrefined ones otherwise |
| `RefinementStage.LoggedNeverBelow` | src/rulekiln/workers/distillation_worker.py:1808-2014 | whatever is logged at any time, after any attempts, is not below the stored evaluation |
| `RefinementStage.CrashLosesRefinement` | src/rulekiln/workers/distillation_worker.py:1808-2014 | in every world in which a round is accepted, a run that dies in the first iteration and is resumed logs the unrefined evaluation, a run that does not die the refined one |
| `RefinementStage.RunJob` | src/rulekiln/workers/distillation_worker.py:1808-2014 | attempts until one lives: the disk is what the attempts made leave, both markers are set once one lives, and nothing below the stored evaluation is logged |
| `RefinementStage.Job.RunAttempt` | src/rulekiln/workers/distillation_worker.py:1808-2014 | one attempt over the three stages, at any point of death, does what the specification says to disk and memory |
| `RefinementStage.Job.AnalyzeFailures` | src/rulekiln/workers/distillation_worker.py:1809-1825 | the analysis is made only while its marker is missing, and is lost with the process |
| `RefinementStage.Job.RefineRules` | src/rulekiln/workers/distillation_worker.py:1827-1860 | the loop is called only while the refining marker is missing and with an analysis in memory |
| `RefinementStage.Job.CallLoop` | src/rulekiln/workers/distillation_worker.py:1834-1859 | the loop's best evaluation replaces the selected one; a death in the loop leaves its artifacts only |
| `RefinementStage.Job.LogMetrics` | src/rulekiln/workers/distillation_worker.py:1906-2014 | the entry of the selected strategy in eval_map is logged, and again by the next attempt if the marker was not set |
| `RuleRefinement.RuleIdsStayDistinct` | src/rulekiln/pipeline/rule_refinement.py:255-296 | from distinct UUIDs, no sequence of refine and prune rounds with any teacher gives two rules one id |
| `RuleRefinement.RoundsKeepAntichain` | src/rulekiln/workers/distillation_worker.py:2764-2779 | over any rounds no live id is a part of another |
| `RuleRefinement.ActionsKeepAntichain` | src/rulekiln/pipeline/rule_refinement.py:255-296 | applying any actions keeps that, and every new id is an old one or a part of one |
| `RuleRefinement.PruningKeepsAntichain` | src/rulekiln/workers/distillation_worker.py:2770-2779 | pruning keeps it as well |
| `RuleRefinement.PartLikeIdCollides` | src/rulekiln/pipeline/rule_refinement.py:282-291 | an id that already looks like a part of another is given out a second time by the next split |
| `RuleRefinement.FrameHoldsIff` | src/rulekiln/pipeline/rule_refinement.py:184-252 | for all rule lists, what the code makes of a reply leaves every rule that was not implicated verbatim and in place, if and only if the reply acts on each implicated rule or all its version 1 entries name implicated rules |
| `RuleRefinement.RefinementFramedIff` | src/rulekiln/pipeline/rule_refinement.py:184-252 | for one rule list: exactly if the teacher was not asked, an action was accepted, or the version 1 entries reproduce every rule that was not implicated |
| `RuleRefinement.FramedWhenEnough` | src/rulekiln/pipeline/rule_refinement.py:184-252 | under that condition, the frame itself, with new ids only from implicated rules |
| `RuleRefinement.EscapedEntryBreaksFrame` | src/rulekiln/pipeline/rule_refinement.py:241-252 | otherwise a list of two rules is enough, an implicated one the teacher did not act on beside one it was not shown: the teacher is asked, no action is accepted, and the entry overwrites the other rule |
| `RuleRefinement.FilterActions` | src/rulekiln/pipeline/rule_refinement.py:211-225 | accepted actions are those naming an implicated rule, in order; the others are rejected |
| `RuleRefinement.ReplaceRule` | src/rulekiln/pipeline/rule_refinement.py:264-294 | what one action leaves of one rule, told by ids and contents |
| `RuleRefinement.ApplyRefinementActions` | src/rulekiln/pipeline/rule_refinement.py:255-296 | each rule is replaced by what its last action says, in order |
| `RuleRefinement.ApplyRefinements` | src/rulekiln/pipeline/rule_refinement.py:230-252 | rule by rule: the last action on a rule decides; a modified rule keeps its id and has the revised content, the parts of a split have the revised contents in order under numbered ids, a discarded rule is gone, a malformed action changes nothing; without actions the last version 1 entry for a rule gives its content |
| `RuleRefinement.RefinementTakesEffect` | src/rulekiln/pipeline/rule_refinement.py:230-296 | the same of the applied refinement as a function, for all rule lists and refinements |
| `RuleRefinement.ActionsBlockByBlock` | src/rulekiln/pipeline/rule_refinement.py:255-296 | the rules after any actions are blocks in the order of the rules before, each as the last action on its rule says |
| `RuleRefinement.EntriesOneByOne` | src/rulekiln/pipeline/rule_refinement.py:241-252 | version 1 entries replace rules one by one and leave the others |
| `RuleRefinement.AcceptedKeeps` | src/rulekiln/pipeline/rule_refinement.py:211-225 | the filter keeps each action on an implicated rule as often as it was given and drops every other one |
| `RuleRefinement.AcceptedConcat` | src/rulekiln/pipeline/rule_refinement.py:211-225 | it looks at each action by itself, so their order is kept |
| `RuleRefinement.ProvenanceAgreesIff` | src/rulekiln/workers/distillation_worker.py:2860-2876 | for any rule of any list and any action on it in the reply: the record names the ids that really take the rule's place if and only if it matches the last action on that rule; where no rule is acted on twice, if and only if it is not an empty split |
| `RuleRefinement.RepeatedActionIsMisrecorded` | src/rulekiln/workers/distillation_worker.py:2860-2876 | a rule that is first discarded and then kept stays, and is recorded as gone |
| `RuleRefinement.ActionsActOnEach` | src/rulekiln/pipeline/rule_refinement.py:255-296 | what becomes of one rule does not depend on the others |
| `Rules.SplitIdInjective` | src/rulekiln/pipeline/rule_refinement.py:287-290 | the encoding of rule and part number in a split id is injective on strings |
| `Rules.DecimalInjective` | src/rulekiln/pipeline/rule_refinement.py:287-290 | different part numbers have different numerals |
| `Rules.PartsApart` | src/rulekiln/pipeline/rule_refinement.py:287-290 | the parts of one rule are different and none is a part of another |
| `Rules.ApartStaysApart` | src/rulekiln/pipeline/rule_refinement.py:255-296 | whatever becomes of two unrelated rules stays unrelated |
| `Rules.UuidsAreAntichain` | src/rulekiln/workers/distillation_worker.py:2303-2305 | distinct ids without underscores, such as UUIDs, are unrelated |
| `Pruning.PruneRules` | src/rulekiln/pipeline/rule_pruning.py:139-259 | the selection and the records are those of the filter, the ranking, the cap and the greedy token budget |
| `Pruning.FirstPass` | src/rulekiln/pipeline/rule_pruning.py:168-185 | conflicting and undersupported rules are recorded, golden-backed ones kept on request |
| `Pruning.CapTokens` | src/rulekiln/pipeline/rule_pruning.py:246-257 | a rule is passed over exactly when it does not fit beside those taken |
| `Pruning.PruningPartitions` | src/rulekiln/pipeline/rule_pruning.py:139-259 | selected and pruned rules together are the input, as multisets |
| `Pruning.SelectionIsRankedAndWithinBudgets` | src/rulekiln/pipeline/rule_pruning.py:187-257 | in every ranking mode the selection is sorted and within both budgets; a negative cap drops that many rules from the end |
| `Pruning.SelectionIsMaximal` | src/rulekiln/pipeline/rule_pruning.py:246-257 | no rule pruned for the token budget would still fit beside the selection |
| `Pruning.PruningIsIdempotent` | src/rulekiln/pipeline/rule_pruning.py:139-259 | pruning the selection again returns it unchanged and prunes nothing, if and only if the cap is not negative or nothing is left |
| `Pruning.SelectedMembers` | src/rulekiln/pipeline/rule_pruning.py:168-185 | every selected rule is an input rule that passed the first filter |
| `Pruning.ReasonsMean` | src/rulekiln/pipeline/rule_pruning.py:168-257 | why a rule is pruned: a conflict exactly for rules with one, missing support exactly for rules neither supported nor preserved, and the cap only if more rules pass the filter than it lets through and no selected rule is worse |
| `Pruning.CapMeans` | src/rulekiln/pipeline/rule_pruning.py:239-244 | the cap keeps exactly as many rules as it says, or all; a negative one drops that many |
| `Pruning.SelectionGoesDown` | src/rulekiln/pipeline/rule_pruning.py:187-237 | lower priority numbers first, then higher scores, then by support count the higher support ratio |
| `Pruning.ScoreMeans` | src/rulekiln/pipeline/rule_pruning.py:37-98 | the score of each mode: support, fixed less penalized broken cases, that per token, and for a classroom the mean or the least of the students' utilities |
| `Pruning.TokensMean` | src/rulekiln/pipeline/rule_pruning.py:246-251 | a rule costs its stored estimate, or a quarter of the characters of its text rounded down, and at least one |
| `RateLimiter.Serve` | src/rulekiln/providers/rate_limiter.py:16-71 | over any serialized attempts any rpm + 1 consecutive admitted requests span sixty seconds if and only if each admission found room in the window; without repeated clock readings this is always so, and the window admits exactly what a check of the whole history would |
| `RateLimiter.ServedSpacedIff` | src/rulekiln/providers/rate_limiter.py:16-71 | the same for the run as a function: spaced if and only if no admission met a surplus |
| `RateLimiter.FreshReadingsAreExact` | src/rulekiln/providers/rate_limiter.py:16-71 | without repeated clock readings the bounded window equals the check of the whole history, and the history stays spaced |
| `RateLimiter.ServeOne` | src/rulekiln/providers/rate_limiter.py:52-68 | one attempt keeps window and history those of the run so far |
| `RateLimiter.RpmWindow.TryAdmit` | src/rulekiln/providers/rate_limiter.py:52-68 | an admission keeps a spaced history spaced exactly if the window had room, repeated clock readings included; a positive wait is tight |
| `RateLimiter.RpmWindow.SecondsUntilAllowed` | src/rulekiln/providers/rate_limiter.py:23-38 | drops stamps older than sixty seconds and computes the wait from the rest |
| `RateLimiter.RpmWindow.Record` | src/rulekiln/providers/rate_limiter.py:40-41 | the window still holds all that matters of the history, and the request takes up a place in it for exactly sixty seconds |
| `RateLimiter.LastStampExpires` | src/rulekiln/providers/rate_limiter.py:27-29 | a sorted window is empty exactly when its last stamp is more than sixty seconds old |
| `RateLimiter.AdmissionKeepsBound` | src/rulekiln/providers/rate_limiter.py:31-41 | recording an admitted request, at the check or later, keeps the bound if the window held no surplus, although old stamps are gone |
| `RateLimiter.WaitIsTight` | src/rulekiln/providers/rate_limiter.py:31-38 | admitting before the returned wait is over breaks the bound, admitting exactly then keeps it |
| `RateLimiter.RepeatedCheckIff` | src/rulekiln/providers/rate_limiter.py:31-38 | if a check may repeat a clock value, an admission keeps the bound exactly when the window has room: at most rpm stamps, or the one that matters is old enough |
| `RateLimiter.RepeatedCheckBreaksBound` | src/rulekiln/providers/rate_limiter.py:31-38 | two checks at one clock value sixty seconds after the oldest request both admit |
| `RateLimiter.Slots.Acquire` | src/rulekiln/providers/rate_limiter.py:66-68 | takes a permit: free permits plus calls in flight always equal the maximum |
| `RateLimiter.Slots.Release` | src/rulekiln/providers/rate_limiter.py:70-71 | gives it back |
| `Statistics.ComputePerLabelMetrics` | src/rulekiln/pipeline/statistics.py:59-105 | one row per label with its counted metrics; misaligned inputs are an error |
| `Statistics.ComputeConfusionMatrix` | src/rulekiln/pipeline/statistics.py:115-134 | each cell counts its pair of labels; misaligned inputs are an error |
| `Statistics.MatrixAgreesWithRow` | src/rulekiln/pipeline/statistics.py:59-134 | computed separately, they agree: row sums are supports, column sums predictions, the diagonal true positives |
| `Statistics.ErrorTotals` | src/rulekiln/pipeline/statistics.py:59-105 | false positives and false negatives over all labels both number the wrong predictions |
| `Statistics.PerLabelRows` | src/rulekiln/pipeline/statistics.py:59-105 | rows are in the order of the sorted labels and support is hits plus misses |
| `Statistics.F1Bounds` | src/rulekiln/pipeline/statistics.py:85-90 | F1 is in [0, 1], one exactly without errors, zero exactly without hits |
| `Statistics.MacroF1Bounds` | src/rulekiln/pipeline/statistics.py:108-112 | macro F1 is in [0, 1]; with data it is one exactly if every prediction is right and zero exactly if none is |
| `Statistics.PerfectRowsIff` | src/rulekiln/pipeline/statistics.py:59-112 | all rows perfect exactly if every prediction is right |
| `Statistics.HopelessRowsIff` | src/rulekiln/pipeline/statistics.py:59-112 | all rows zero exactly if no prediction is right |
| `Statistics.AccuracyBounds` | src/rulekiln/pipeline/statistics.py:45-56 | accuracy is in [0, 1] |
| `Statistics.RowCounts` | src/rulekiln/pipeline/statistics.py:69-83 | the four counts of a row are the numbers of cases they name |
| `Statistics.RowMeans` | src/rulekiln/pipeline/statistics.py:85-90 | precision times predictions and recall times support are the hits, and F1 times the sum of both is twice the hits |
| `Statistics.AccuracyMeans` | src/rulekiln/pipeline/statistics.py:45-56 | accuracy times the cases is the number of right predictions |
| `Statistics.MacroF1Moves` | src/rulekiln/pipeline/statistics.py:108-112 | every label moves the macro F1 alike: by its own change divided by the number of labels |
| `Statistics.CountLabel` | src/rulekiln/pipeline/statistics.py:69-83 | the loop's counters are the counts of hits, misses and false alarms |
| `Counting.DoubleCount` | src/rulekiln/pipeline/statistics.py:59-134 | counts split over labels add up to the whole |
| `Counting.RowSum` | src/rulekiln/pipeline/statistics.py:115-134 | a matrix row sums to the support of its label |
| `Counting.ColumnSum` | src/rulekiln/pipeline/statistics.py:115-134 | a matrix column sums to the predictions of its label |
| `Counting.ErrorsCountedTwice` | src/rulekiln/pipeline/statistics.py:59-105 | each wrong pair is one label's miss and another's false alarm |
| `PairedComparison.ComputePairedComparison` | src/rulekiln/pipeline/statistics.py:221-322 | misaligned inputs fail; otherwise the four lists hold, in case order, exactly the cases whose predictions were right or wrong before and are now, and the net rates weigh what was fixed against what was broken |
| `PairedComparison.ComputeRegressedLabels` | src/rulekiln/pipeline/statistics.py:325-392 | misaligned inputs fail; otherwise the regressions of all labels, worst recall loss first |
| `PairedComparison.RegressionIff` | src/rulekiln/pipeline/statistics.py:353-389 | a label regresses exactly when its misses rise, with at least one new miss and a recall loss of that share of its support |
| `PairedComparison.RegressedExactly` | src/rulekiln/pipeline/statistics.py:325-392 | the reported labels are exactly those whose misses rose |
| `PairedComparison.ReportIsOrdered` | src/rulekiln/pipeline/statistics.py:391 | worst recall loss first, then the larger support, then the lesser label |
| `PairedComparison.RegressionShows` | src/rulekiln/pipeline/statistics.py:353-389 | a row shows recall and F1 of its label before and now, and their differences |
| `PairedComparison.RegressionsAccountedFor` | src/rulekiln/pipeline/statistics.py:221-392 | new misses over all regressed labels never exceed the broken cases, so with none broken no label regresses |
| `PairedComparison.NewMissesAreBroken` | src/rulekiln/pipeline/statistics.py:221-392 | a label's new misses are covered by broken cases of that label |
| `PairedComparison.CollectRegressions` | src/rulekiln/pipeline/statistics.py:353-389 | the loop over the labels |
| `Bootstrap.QuantileMonotone` | src/rulekiln/pipeline/statistics.py:443-460 | on sorted values a larger quantile is never smaller |
| `Bootstrap.QuantileInRange` | src/rulekiln/pipeline/statistics.py:443-460 | a quantile lies between the minimum and the maximum |
| `Bootstrap.QuantileAtKnot` | src/rulekiln/pipeline/statistics.py:443-460 | at the position of an order statistic the quantile is that order statistic |
| `Bootstrap.QuantileBetweenKnots` | src/rulekiln/pipeline/statistics.py:443-460 | between two of them it is on the straight line |
| `Bootstrap.IntervalTrims` | src/rulekiln/pipeline/statistics.py:424-440 | of 40 m + 1 samples the interval leaves out exactly the m lowest and the m highest |
| `Bootstrap.SampleAccuracyMeans` | src/rulekiln/pipeline/statistics.py:415-422 | a sample's accuracy is the share of draws that hit a case whose prediction is right |
| `Bootstrap.SampleExtremes` | src/rulekiln/pipeline/statistics.py:415-422 | a classifier without errors, or without hits, has macro F1 one, or zero, in every sample |
| `Bootstrap.BootstrapConfidenceIntervals` | src/rulekiln/pipeline/statistics.py:395-440 | for every possible resampling both intervals are ordered and lie in [0, 1]; too little data gives none |
| `Bootstrap.CollectSamples` | src/rulekiln/pipeline/statistics.py:415-422 | one accuracy and one macro F1 per resampling |
| `ExceptionGraph.IsOutputValidationRetryExhausted` | src/rulekiln/agents/rule_conflict_review.py:136-142 | true exactly when the message of some reachable exception contains both the words for exhausted retries and those for a failed output or result validation |
| `ExceptionGraph.CollectExceptionMessages` | src/rulekiln/agents/rule_conflict_review.py:145-170 | terminates on cyclic graphs and visits exactly the reachable exceptions, each once |
| `ExceptionGraph.SkippedContextIsCovered` | src/rulekiln/agents/rule_conflict_review.py:163-168 | skipping a context that is the cause loses no link |
| `ExceptionGraph.FrontierVisit` | src/rulekiln/agents/rule_conflict_review.py:150-168 | visiting the last pending exception keeps everything met reachable and every link followed |
| `ExceptionGraph.FrontierDone` | src/rulekiln/agents/rule_conflict_review.py:149-170 | an empty worklist means that exactly the reachable exceptions were seen |
| `ExceptionGraph.MessagesOfMembers` | src/rulekiln/agents/rule_conflict_review.py:155-158 | the messages are the non-empty ones of the visited exceptions |
| `ModelCalls.PersistAll` | src/rulekiln/db/repositories/model_calls.py:47-95 | any sequence of persist calls stores the first record per key of everything submitted, and no key twice |
| `ModelCalls.EventTable.BulkInsertModelCallEvents` | src/rulekiln/db/repositories/model_calls.py:47-68 | appends the batch's first record per key that is not stored yet |
| `ModelCalls.EventTable.GetExistingIdempotencyKeys` | src/rulekiln/db/repositories/model_calls.py:84-95 | the batch's keys that are stored already |
| `ModelCalls.DedupeEventsByKey` | src/rulekiln/db/repositories/model_calls.py:71-81 | keeps the first record per key and every record without one |
| `ModelCalls.DedupeThenFilter` | src/rulekiln/db/repositories/model_calls.py:47-68 | deduplicating a batch and then filtering it against the table is one pass that starts from the table's keys |
| `ModelCalls.FirstPerKeyKeys` | src/rulekiln/db/repositories/model_calls.py:71-81 | the result's keys are unique and are the batch's keys that were not seen |
| `ModelCalls.FirstPerKeyMeans` | src/rulekiln/db/repositories/model_calls.py:71-81 | an event is kept exactly if it has no key, or its key was not seen and no earlier event has it |
| `ModelCalls.RepersistIsNoOp` | src/rulekiln/db/repositories/model_calls.py:47-68 | persisting a keyed batch again inserts nothing |
| `ModelCalls.SummarizeModelCallEvents` | src/rulekiln/db/repositories/model_calls.py:122-178 | totals and role buckets are those of the job's records, the bucket costs add up to the total cost, and the summary is marked estimated exactly if some record of the job is |
| `ModelCalls.TotalsAreSumOverRoles` | src/rulekiln/db/repositories/model_calls.py:122-178 | the totals are the sum over the four roles |
| `ModelCalls.UsageMeans` | src/rulekiln/db/repositories/model_calls.py:122-178 | the totals are sums over the events, field by field, with input plus output where no total is recorded |
| `ModelCalls.OfJobMeans` | src/rulekiln/db/repositories/model_calls.py:122-130 | a summary looks at each event of its job as often as it is stored, and at no other |
| `ModelCalls.BucketCostsSum` | src/rulekiln/db/repositories/model_calls.py:150-178 | the total cost is the sum of the bucket costs |
| `FewShot.SelectFewShot` | src/rulekiln/pipeline/baseline_strategies.py:47-96 | the loops select the first k cases of the round-robin order, unlabelled cases last |
| `FewShot.SelectionSize` | src/rulekiln/pipeline/baseline_strategies.py:47-96 | with distinct ids: min(k, n) cases, each from the input and none twice; none for k of at most zero |
| `FewShot.SelectionIsBalanced` | src/rulekiln/pipeline/baseline_strategies.py:72-85 | of any two labels the first has at most one case less than the second or is exhausted, and each label gives its first cases by id |
| `FewShot.UnlabelledComeLast` | src/rulekiln/pipeline/baseline_strategies.py:87-96 | an unlabelled case is selected only if every labelled one is |
| `FewShot.LesserIdsFirst` | src/rulekiln/pipeline/baseline_strategies.py:58-83 | of two cases with one label, the one with the greater id is not selected without the other |
| `FewShot.LesserLabelsFirst` | src/rulekiln/pipeline/baseline_strategies.py:65-83 | a lesser label never has fewer cases selected than a greater one, unless it has none left |
| `FewShot.LesserUnlabelledFirst` | src/rulekiln/pipeline/baseline_strategies.py:87-96 | with distinct ids the unlabelled cases, too, are selected in the order of their ids |
| `FewShot.SelectionForgetsOrder` | src/rulekiln/pipeline/baseline_strategies.py:58-64 | with distinct ids, permuting the training cases does not change the selection |
| `FewShot.OrderedIsPermutation` | src/rulekiln/pipeline/baseline_strategies.py:47-96 | with distinct ids the selection order contains every training case once |
| `FewShot.GroupByLabel` | src/rulekiln/pipeline/baseline_strategies.py:56-63 | cases grouped by label in id order, unlabelled ones apart |
| `FewShot.OneRound` | src/rulekiln/pipeline/baseline_strategies.py:73-83 | one round adds the next case of each label that has one, until k is reached |
| `FewShot.RoundRobin` | src/rulekiln/pipeline/baseline_strategies.py:72-85 | the rounds stop at k or when no label has a case left |
| `FewShot.FillUp` | src/rulekiln/pipeline/baseline_strategies.py:87-96 | unlabelled cases fill up what is left, except those whose id was selected already |
| `Knn.PredictWithKnn` | src/rulekiln/pipeline/baseline_strategies.py:216-272 | one prediction per query; empty training data or k of at most zero predicts the empty label, misaligned data fails |
| `Knn.PredictOne` | src/rulekiln/pipeline/baseline_strategies.py:240-270 | the predicted label has the most votes among the k nearest, then the least mean distance, then the least name |
| `Knn.CountVotes` | src/rulekiln/pipeline/baseline_strategies.py:256-260 | votes and distance sums per label |
| `Knn.TiedLabels` | src/rulekiln/pipeline/baseline_strategies.py:262-263 | the labels with the highest count |
| `Knn.WinnerIsUnique` | src/rulekiln/pipeline/baseline_strategies.py:262-270 | these criteria leave exactly one label |
| `Knn.TopIsNearest` | src/rulekiln/pipeline/baseline_strategies.py:242-254 | the neighbours that vote are the k nearest, with ties in distance broken by id |
| `Knn.MajorityWins` | src/rulekiln/pipeline/baseline_strategies.py:256-263 | a label with more than half of the votes is predicted |
| `Knn.NearerOfTwoWins` | src/rulekiln/pipeline/baseline_strategies.py:264-270 | of two neighbours with different labels the nearer one is predicted |
| `Knn.TrainingOrderIsIrrelevant` | src/rulekiln/pipeline/baseline_strategies.py:231-272 | permuting training vectors, ids and labels together changes no prediction |
| `Knn.PredictionForgetsOrder` | src/rulekiln/pipeline/baseline_strategies.py:242-270 | the prediction depends on the multiset of neighbours only |
| `Knn.DefaultIdsDependOnOrder` | src/rulekiln/pipeline/baseline_strategies.py:231-235 | without ids the position is the id: at equal distances, swapping two labels swaps the prediction |
| `Knn.OrderIsIrrelevantIff` | src/rulekiln/pipeline/baseline_strategies.py:231-272 | no shuffling of a training set changes a prediction, if and only if ids are supplied |
| `StrategySelection.SelectStrategyGeneric` | src/rulekiln/pipeline/strategy_selection.py:62-126 | whatever the dictionary order, the selected strategy is the one the criteria determine, or the baseline without candidates; the reason names the filter that decided |
| `StrategySelection.SelectionIsUnique` | src/rulekiln/pipeline/strategy_selection.py:62-126 | the criteria determine at most one strategy, so the choice does not depend on any order |
| `StrategySelection.SelectedIsGood` | src/rulekiln/pipeline/strategy_selection.py:62-126 | it passes its gate if any candidate does, is within 0.005 of every competitor's score, and has the fewest golden failures among those near the top |
| `StrategySelection.SelectionShips` | src/rulekiln/pipeline/strategy_selection.py:70-126 | the selected strategy is evaluated, no baseline, and passed or ungated if any candidate is; where all criteria tie it is hdbscan, or else the least name |
| `StrategySelection.SelectedIsBest` | src/rulekiln/pipeline/strategy_selection.py:92-120 | where all candidates pass: none has a macro F1, or case score by task mode, more than 0.005 higher; of those close to the top none has fewer golden failures, then none is malformed less often by more than 0.001, then none has a shorter prompt |
| `StrategySelection.KeepLowest` | src/rulekiln/pipeline/strategy_selection.py:20-59 | a filter keeps exactly the names within its slack of the lowest key, and at least one |
| `StrategySelection.RankedPool` | src/rulekiln/pipeline/strategy_selection.py:70-90 | the pool is the passing candidates, or all of them if none passes |
| `StrategySelection.SoleNearTop` | src/rulekiln/pipeline/strategy_selection.py:101-106 | a filter that leaves one name has selected it |
| `Sorting.SortSorts` | src/rulekiln/pipeline/rule_pruning.py:187-237 | sorting by any total preorder gives a sorted list |
| `Sorting.SortStable` | src/rulekiln/pipeline/rule_pruning.py:187-237 | elements with equal keys keep their order |
| `Sorting.SortForgetsOrder` | src/rulekiln/pipeline/baseline_strategies.py:58 | sorting forgets the order of its input when no two elements tie |

## Left out

- LeaseProtocol.SafeWhenRenewedInTime: assumes that operators cancel, and retry on a stale status, only jobs no worker executes; by `LeaseBoundary.StaysSafeIff` this is what it takes.
- LeaseProtocol.LeaseInvHolds: assumes one clock for the database's `now()` and the workers, and a renewer that keeps running beside its worker within a bounded delay. Reading the clock for a lease and committing it are one step of the model; the delay covers the time between them, before and after the sleep.
- RateLimiter.Serve: assumes that no check precedes the record before it, as the lock serializes them. Limits of `None` or below one, which build no window, are not modelled.
- Slots: the semaphore's queue of waiters is not modelled; `Acquire` is the moment a permit is granted.
- ExactlyOnce.RunJob: the clustering of given rule texts is a deterministic function, the digests of clusters of one strategy do not collide for the rules that the teacher's possible replies give the job, and the rows are read back in the order in which they were inserted, which the query does not ask for; embedding a text twice to different vectors is not modelled.
- CompileRuns.RunStage: validation, embedding, cluster rows, conflict review, pruning updates and prompt versions are modelled by their markers only; their rows are committed apart from the marker, so no exactly-once claim is made for them. Budgets count the modelled commits only: a death at a commit of `_set_stage`, of cluster rows, of a rule's review or of its pruning is a death before the next modelled commit.
- Batch extraction: its collect loop inserts again after a crash in the middle and completes the stage despite failed items, so it does not have the exactly-once property.
- A database error between adding synthesized rows and committing them, after which the job's error handler commits on the same session, is not modelled; a crash is the end of the process.
- Evaluation.EvaluateCase: scores with a function of case and answer, which for `EvaluatorFor` is the one that `CaseScores.ScoreCase` computes; the regular expression engine is a parameter that says which patterns compile and match.
- CaseStore.CaseTable.Upsert: the columns that are written but never loaded back (expected output, invalid-label flag, timestamps) are left out.
- Evaluation metrics other than the weighted score enter the evaluation runs as an opaque function of the results in case order; the statistics are proved separately.
- RefinementLoop.FreshRunIsSafe: claims fresh runs; what a crash makes of them is the subject of `RefinementStage`.
- RefinementLadder.FreshRunReturnsIff: claims runs that find no artifacts, which by `RefinementStage.AnalysisIsNotRepeated` are the only ones the worker makes.
- RefinementLoop.ResumeIsSafeIff: assumes artifacts of a prefix of the iterations, which by `FreshRunLeaves` is what an interrupted run leaves, and a range of scores that holds the metric taken over.
- RefinementStage.RunJob: assumes that every attempt selects the same strategy and reads the same stored evaluation and rules; rule ablation and the pruning optimizer, between refining and logging, are not modelled, and neither is the MLflow run that each logging creates.
- Pruning.SelectionIsMaximal: assumes non-negative token estimates, as does `Pruning.PruningIsIdempotent`; with negative ones a later rule may make room again.
- FewShot.SelectFewShot: takes the expected label of a case as given; stripping and checking the raw label is not modelled. Size and order independence are claimed for distinct ids, which the case table's primary key enforces.
- EvaluationRuns.ResumeEvaluation: assumes distinct case ids for the same reason, as does `ExactlyOnce.RunJob`.
- Knn.PredictOne: the distance is any function; cosine and Euclidean arithmetic is not modelled. `DefaultIdsDependOnOrder` shows why order independence is claimed for given ids.
- StrategySelection.SelectStrategyGeneric: the explanatory text is modelled as the filter that decided, without the formatted score.
- PairedComparison.ComputePairedComparison: an example is represented by the position of its case.
- PairedComparison.ComputeRegressedLabels: example case ids and the most frequent wrong labels of a row are not modelled.
- Bootstrap.BootstrapConfidenceIntervals: the resampling indices are arbitrary; the random generator is not modelled.
- ExceptionGraph.CollectExceptionMessages: a node carries the text of its exception after `strip` and `lower`, which are not modelled.
- Floats are real numbers: rounding, infinities and NaN are not modelled.
- Sorting is an insertion sort with the guarantees of Python's `sort`, not its algorithm.
- Prompt rendering, provider adapters, HTTP, MLflow, the DBOS runtime, SQLAlchemy, logging, settings, the user interface and the command line are input and output around this core.
- Draft jobs, priorities of the queue, error messages of job rows and usage totals cached on the job row are easy members only.
- Top confusions, embedding centroids, retrieval examples, rule ablation, the two-pass optimizer, quality gates and split policies are not modelled.
