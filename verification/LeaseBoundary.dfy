/** Exactly when the lease protocol excludes double execution, and what breaks it otherwise. */
module LeaseBoundary {
  import opened Wrappers
  import opened JobQueue
  import opened LeaseProtocol

  lemma {:induction false} RunsCompose(cfg: Config, s: State, first: seq<Step>, second: seq<Step>)
    requires Executable(cfg, s, first) && Executable(cfg, Run(cfg, s, first), second)
    ensures Executable(cfg, s, first + second)
    ensures Run(cfg, s, first + second) == Run(cfg, Run(cfg, s, first), second)
    decreases |first|
  {
    if first == [] {
      assert first + second == second;
    } else {
      assert (first + second)[1..] == first[1..] + second;
      RunsCompose(cfg, After(cfg, s, first[0]), first[1..], second);
    }
  }

  lemma StepThen(cfg: Config, s: State, step: Step, rest: seq<Step>)
    requires Enabled(cfg, s, step) && Executable(cfg, After(cfg, s, step), rest)
    ensures Executable(cfg, s, [step] + rest)
    ensures Run(cfg, s, [step] + rest) == Run(cfg, After(cfg, s, step), rest)
  {
    assert ([step] + rest)[1..] == rest;
  }

  /** Worker "a" has claimed the only job and worker "b" is idle. */
  function ClaimByA(): seq<Step> {
    [Submit("job", 2), Start("a"), Start("b"), Recover("a"), Claim("a", "job")]
  }

  function ClaimedByA(cfg: Config): State {
    State(0, map["job" := ClaimedRow(NewRow(2, 0), "a", cfg.leaseSeconds, 0)],
          map["a" := Working("job", 0), "b" := Top], map[], map[])
  }

  /** The states between those steps. */
  function BeforeClaim(k: nat): State
    requires k <= 4
  {
    var rows := map["job" := NewRow(2, 0)];
    if k == 0 then Initial()
    else if k == 1 then State(0, rows, map[], map[], map[])
    else if k == 2 then State(0, rows, map["a" := Top], map[], map[])
    else if k == 3 then State(0, rows, map["a" := Top, "b" := Top], map[], map[])
    else State(0, rows, map["a" := Claiming, "b" := Top], map[], map[])
  }

  lemma ClaimByAStep(cfg: Config, k: nat)
    requires k <= 4
    ensures Enabled(cfg, BeforeClaim(k), ClaimByA()[k])
    ensures After(cfg, BeforeClaim(k), ClaimByA()[k]) == if k < 4 then BeforeClaim(k + 1) else ClaimedByA(cfg)
  {
    var rows := map["job" := NewRow(2, 0)];
    assert Recovered(rows, 0) == rows;
  }

  lemma {:induction false} ClaimByAFrom(cfg: Config, k: nat)
    requires k <= 4
    ensures Executable(cfg, BeforeClaim(k), ClaimByA()[k..])
    ensures Run(cfg, BeforeClaim(k), ClaimByA()[k..]) == ClaimedByA(cfg)
    decreases 4 - k
  {
    var steps := ClaimByA();
    ClaimByAStep(cfg, k);
    if k < 4 {
      ClaimByAFrom(cfg, k + 1);
    } else {
      assert steps[k + 1..] == [];
    }
    StepThen(cfg, BeforeClaim(k), steps[k], steps[k + 1..]);
    assert [steps[k]] + steps[k + 1..] == steps[k..];
  }

  lemma ClaimByARuns(cfg: Config)
    ensures Executable(cfg, Initial(), ClaimByA()) && Run(cfg, Initial(), ClaimByA()) == ClaimedByA(cfg)
  {
    ClaimByAFrom(cfg, 0);
    assert ClaimByA()[0..] == ClaimByA();
  }

  lemma AfterClaimByA(cfg: Config, rest: seq<Step>)
    requires Executable(cfg, ClaimedByA(cfg), rest)
    ensures Executable(cfg, Initial(), ClaimByA() + rest)
    ensures Run(cfg, Initial(), ClaimByA() + rest) == Run(cfg, ClaimedByA(cfg), rest)
  {
    ClaimByARuns(cfg);
    RunsCompose(cfg, Initial(), ClaimByA(), rest);
  }

  function TakeOver(): seq<Step> { [Recover("b")] + ([Claim("b", "job")] + []) }

  /** If the job is pending again while "a" still executes it, "b" takes it over. */
  lemma TakenOver(cfg: Config, s: State)
    requires s.workers == map["a" := Working("job", 0), "b" := Top]
    requires s.rows.Keys == {"job"} && IsDue(RecoveredRow(s.rows["job"], s.now), s.now)
    ensures Executable(cfg, s, TakeOver()) && !Exclusive(Run(cfg, s, TakeOver()))
  {
    var s1 := After(cfg, s, Recover("b"));
    var s2 := After(cfg, s1, Claim("b", "job"));
    StepThen(cfg, s1, Claim("b", "job"), []);
    StepThen(cfg, s, Recover("b"), [Claim("b", "job")] + []);
    assert s2.workers["a"] == Working("job", 0) && s2.workers["b"] == Working("job", s.now);
  }

  function ExpiryTime(cfg: Config): int { Max(0, LeaseLength(cfg) + 1) }

  function LateRenewal(cfg: Config): seq<Step> {
    ClaimByA() + ([Tick(ExpiryTime(cfg))] + TakeOver())
  }

  /** Without the timing condition a renewal may come too late, and the job runs twice. */
  lemma UnsafeWhenRenewedLate(cfg: Config)
    requires !RenewsInTime(cfg)
    ensures Executable(cfg, Initial(), LateRenewal(cfg)) && Undisturbed(LateRenewal(cfg))
    ensures !Exclusive(Run(cfg, Initial(), LateRenewal(cfg)))
  {
    var s, tick := ClaimedByA(cfg), Tick(ExpiryTime(cfg));
    TakenOver(cfg, After(cfg, s, tick));
    StepThen(cfg, s, tick, TakeOver());
    AfterClaimByA(cfg, [tick] + TakeOver());
  }

  /** The queue excludes double execution in every run in which operators leave executing jobs alone. */
  ghost predicate NeverRunsTwice(cfg: Config) {
    forall steps :: Executable(cfg, Initial(), steps) && ConsiderateRun(cfg, Initial(), steps)
      ==> Exclusive(Run(cfg, Initial(), steps))
  }

  /** Mutual exclusion holds exactly when the renewal interval plus its worst delay fits in the lease. */
  lemma MutualExclusionIff(cfg: Config)
    ensures NeverRunsTwice(cfg) <==> RenewInterval(cfg) + cfg.delay <= LeaseLength(cfg)
  {
    if RenewsInTime(cfg) {
      forall steps | Executable(cfg, Initial(), steps) && ConsiderateRun(cfg, Initial(), steps)
        ensures Exclusive(Run(cfg, Initial(), steps))
      {
        SafeWhenRenewedInTime(cfg, steps);
      }
    } else {
      UnsafeWhenRenewedLate(cfg);
      UndisturbedIsConsiderate(cfg, Initial(), LateRenewal(cfg));
    }
  }

  /** Some positive renewal delay is tolerated exactly for leases of more than ten seconds. */
  lemma LeaseMustExceedTenSeconds(leaseSeconds: int, backoffSeconds: int)
    ensures (exists delay: nat :: delay > 0 && NeverRunsTwice(Config(leaseSeconds, backoffSeconds, delay))) <==> leaseSeconds > 10
  {
    forall delay: nat
      ensures NeverRunsTwice(Config(leaseSeconds, backoffSeconds, delay))
         <==> RenewInterval(Config(leaseSeconds, backoffSeconds, delay)) + delay <= leaseSeconds * MICROS_PER_SECOND
    {
      MutualExclusionIff(Config(leaseSeconds, backoffSeconds, delay));
    }
    if leaseSeconds > 10 {
      assert NeverRunsTwice(Config(leaseSeconds, backoffSeconds, 1));
    }
  }

  /** The delay that is tolerated: two thirds of a long lease, and what a short one leaves beyond ten seconds. */
  lemma ToleratedDelay(leaseSeconds: int, backoffSeconds: int, delay: nat)
    ensures leaseSeconds >= 30 && leaseSeconds % 3 == 0 ==>
      (NeverRunsTwice(Config(leaseSeconds, backoffSeconds, delay)) <==> 3 * delay <= 2 * leaseSeconds * 1_000_000)
    ensures leaseSeconds <= 30 ==>
      (NeverRunsTwice(Config(leaseSeconds, backoffSeconds, delay)) <==> delay <= (leaseSeconds - 10) * 1_000_000)
  {
    MutualExclusionIff(Config(leaseSeconds, backoffSeconds, delay));
  }

  /** An operator who cancels a running job and retries it starts it a second time, under any timing. */
  lemma CancelThenRetryRunsTwice(cfg: Config)
    ensures var steps := ClaimByA() + ([Cancel("job")] + ([Retry("job")] + TakeOver()));
            Executable(cfg, Initial(), steps) && !Exclusive(Run(cfg, Initial(), steps))
  {
    var s := ClaimedByA(cfg);
    var s1 := After(cfg, s, Cancel("job"));
    TakenOver(cfg, After(cfg, s1, Retry("job")));
    StepThen(cfg, s1, Retry("job"), TakeOver());
    StepThen(cfg, s, Cancel("job"), [Retry("job")] + TakeOver());
    AfterClaimByA(cfg, [Cancel("job")] + ([Retry("job")] + TakeOver()));
  }

  /** `retry_job` itself checks nothing: a retry decided before the job was claimed starts it a second time. */
  lemma StaleRetryRunsTwice(cfg: Config)
    ensures var steps := ClaimByA() + ([StaleRetry("job")] + TakeOver());
            Executable(cfg, Initial(), steps) && !Exclusive(Run(cfg, Initial(), steps))
  {
    var s := ClaimedByA(cfg);
    TakenOver(cfg, After(cfg, s, StaleRetry("job")));
    StepThen(cfg, s, StaleRetry("job"), TakeOver());
    AfterClaimByA(cfg, [StaleRetry("job")] + TakeOver());
  }

  // ── Exactly which operator actions are harmless ──────────────────────────

  lemma {:induction false} LongerThanAll(names: set<string>) returns (n: nat)
    ensures forall name :: name in names ==> |name| < n
    decreases names
  {
    n := 0;
    if names != {} {
      var name :| name in names;
      var m := LongerThanAll(names - {name});
      n := if m <= |name| then |name| + 1 else m;
      forall other | other in names ensures |other| < n {
        assert other == name || other in names - {name};
      }
    }
  }

  /** There is always room for one more worker. */
  lemma NewcomerExists(s: State) returns (w: WorkerId)
    ensures w !in s.workers
  {
    var n := LongerThanAll(s.workers.Keys);
    w := seq(n, _ => 'w');
    assert w !in s.workers.Keys;
  }

  /** The jobs that are due now or will be after the next recovery. */
  function Waiting(s: State): set<JobId> {
    set id | id in s.rows && IsDue(RecoveredRow(s.rows[id], s.now), s.now)
  }

  function Arrival(w: WorkerId, job: JobId): seq<Step> {
    [Start(w)] + ([Recover(w)] + ([Claim(w, job)] + []))
  }

  function Recovering(s: State, w: WorkerId): State {
    s.(rows := Recovered(s.rows, s.now), workers := s.workers[w := Top][w := Claiming])
  }

  function Arrived(cfg: Config, s: State, w: WorkerId, job: JobId): State
    requires job in s.rows
  {
    var rows := Recovered(s.rows, s.now);
    s.(rows := rows[job := ClaimedRow(rows[job], w, cfg.leaseSeconds, s.now)], workers := s.workers[w := Working(job, s.now)])
  }

  function Started(s: State, w: WorkerId): State { s.(workers := s.workers[w := Top]) }

  lemma ArrivalSteps(cfg: Config, s: State, w: WorkerId, job: JobId)
    requires w !in s.workers && job in Waiting(s)
    ensures Enabled(cfg, s, Start(w)) && After(cfg, s, Start(w)) == Started(s, w)
    ensures Enabled(cfg, Started(s, w), Recover(w)) && After(cfg, Started(s, w), Recover(w)) == Recovering(s, w)
    ensures Enabled(cfg, Recovering(s, w), Claim(w, job))
    ensures After(cfg, Recovering(s, w), Claim(w, job)) == Arrived(cfg, s, w, job)
  {
    assert After(cfg, Recovering(s, w), Claim(w, job)).workers == s.workers[w := Working(job, s.now)];
  }

  /** A new worker starts, recovers, and claims a waiting job. */
  lemma ArrivalRuns(cfg: Config, s: State, w: WorkerId, job: JobId)
    requires w !in s.workers && job in Waiting(s)
    ensures Executable(cfg, s, Arrival(w, job)) && Undisturbed(Arrival(w, job))
    ensures Run(cfg, s, Arrival(w, job)) == Arrived(cfg, s, w, job)
  {
    ArrivalSteps(cfg, s, w, job);
    hide Enabled, After, Started, Recovering, Arrived;
    StepThen(cfg, Recovering(s, w), Claim(w, job), []);
    StepThen(cfg, Started(s, w), Recover(w), [Claim(w, job)] + []);
    StepThen(cfg, s, Start(w), [Recover(w)] + ([Claim(w, job)] + []));
  }

  /** Its job no longer waits, and the others still do. */
  lemma ArrivalServesOne(cfg: Config, s: State, w: WorkerId, job: JobId)
    requires RenewsInTime(cfg) && job in Waiting(s)
    ensures Waiting(Arrived(cfg, s, w, job)) == Waiting(s) - {job}
  {
    var t := Arrived(cfg, s, w, job);
    forall id ensures id in Waiting(t) <==> id in Waiting(s) - {job} {
    }
  }

  /** Every claim takes the oldest due job: no row is skipped. */
  ghost predicate InOrder(cfg: Config, s: State, steps: seq<Step>)
    requires Executable(cfg, s, steps)
    decreases |steps|
  {
    steps == [] || ((steps[0].Claim? ==> IsNext(s.rows, s.now, {}, steps[0].job))
                    && InOrder(cfg, After(cfg, s, steps[0]), steps[1..]))
  }

  lemma {:induction false} InOrderComposes(cfg: Config, s: State, first: seq<Step>, second: seq<Step>)
    requires Executable(cfg, s, first) && Executable(cfg, Run(cfg, s, first), second)
    requires InOrder(cfg, s, first) && InOrder(cfg, Run(cfg, s, first), second)
    ensures Executable(cfg, s, first + second) && InOrder(cfg, s, first + second)
    decreases |first|
  {
    RunsCompose(cfg, s, first, second);
    if first == [] {
      assert first + second == second;
    } else {
      assert (first + second)[1..] == first[1..] + second;
      InOrderComposes(cfg, After(cfg, s, first[0]), first[1..], second);
    }
  }

  lemma InOrderThen(cfg: Config, s: State, step: Step, rest: seq<Step>)
    requires Enabled(cfg, s, step) && Executable(cfg, After(cfg, s, step), rest)
    requires step.Claim? ==> IsNext(s.rows, s.now, {}, step.job)
    requires InOrder(cfg, After(cfg, s, step), rest)
    ensures Executable(cfg, s, [step] + rest) && InOrder(cfg, s, [step] + rest)
  {
    assert ([step] + rest)[1..] == rest;
  }

  predicate IsOldestWaiting(s: State, job: JobId) {
    job in Waiting(s) && forall other :: other in Waiting(s) ==> s.rows[job].createdAt <= s.rows[other].createdAt
  }

  lemma OldestWaiting(s: State, id: JobId) returns (oldest: JobId)
    requires id in Waiting(s)
    ensures IsOldestWaiting(s, oldest)
  {
    var waiting := Waiting(s);
    OldestExists(s.rows, s.now, waiting);
    oldest :| oldest in waiting && forall other :: other in waiting ==> s.rows[oldest].createdAt <= s.rows[other].createdAt;
  }

  lemma ArrivalInOrder(cfg: Config, s: State, w: WorkerId, job: JobId)
    requires w !in s.workers && IsOldestWaiting(s, job)
    ensures Executable(cfg, s, Arrival(w, job)) && InOrder(cfg, s, Arrival(w, job))
  {
    var s1 := After(cfg, s, Start(w));
    var s2 := After(cfg, s1, Recover(w));
    assert s2 == Recovering(s, w);
    forall other | other in s2.rows && IsDue(s2.rows[other], s2.now)
      ensures s2.rows[job].createdAt <= s2.rows[other].createdAt
    {
      assert other in Waiting(s);
    }
    InOrderThen(cfg, s2, Claim(w, job), []);
    InOrderThen(cfg, s1, Recover(w), [Claim(w, job)] + []);
    InOrderThen(cfg, s, Start(w), [Recover(w)] + ([Claim(w, job)] + []));
  }

  predicate KeepsWorkers(s: State, t: State) {
    forall u :: u in s.workers ==> u in t.workers && t.workers[u] == s.workers[u]
  }

  /** A waiting job is taken up without any interference: newcomers first take the older jobs, one each. */
  lemma {:induction false} WaitingIsTakenUp(cfg: Config, s: State, id: JobId) returns (steps: seq<Step>, w: WorkerId)
    requires RenewsInTime(cfg) && id in Waiting(s)
    ensures Executable(cfg, s, steps) && Undisturbed(steps) && InOrder(cfg, s, steps)
    ensures w !in s.workers && Executes(Run(cfg, s, steps), w, id) && KeepsWorkers(s, Run(cfg, s, steps))
    decreases Waiting(s)
  {
    w := NewcomerExists(s);
    var oldest := OldestWaiting(s, id);
    steps := Arrival(w, oldest);
    ArrivalRuns(cfg, s, w, oldest);
    ArrivalInOrder(cfg, s, w, oldest);
    if oldest != id {
      var first, t := steps, Arrived(cfg, s, w, oldest);
      ArrivalServesOne(cfg, s, w, oldest);
      assert KeepsWorkers(s, t);
      steps, w := WaitingIsTakenUp(cfg, t, id);
      RunsCompose(cfg, s, first, steps);
      InOrderComposes(cfg, s, first, steps);
      steps := first + steps;
    }
  }

  /** Whatever undisturbed steps follow, no job is executed twice. */
  ghost predicate SafeFrom(cfg: Config, s: State) {
    forall steps :: Executable(cfg, s, steps) && Undisturbed(steps) ==> Exclusive(Run(cfg, s, steps))
  }

  lemma SafeFromInv(cfg: Config, s: State)
    requires RenewsInTime(cfg) && LeaseInv(cfg, s)
    ensures SafeFrom(cfg, s)
  {
    forall steps | Executable(cfg, s, steps) && Undisturbed(steps) ensures Exclusive(Run(cfg, s, steps)) {
      UndisturbedIsConsiderate(cfg, s, steps);
      LeaseInvHolds(cfg, s, steps);
      InvIsExclusive(cfg, Run(cfg, s, steps));
    }
  }

  /** If a job that a worker executes is pending and due, some undisturbed continuation, in queue order, runs it twice. */
  lemma PendingWhileExecuted(cfg: Config, s: State, id: JobId) returns (steps: seq<Step>)
    requires RenewsInTime(cfg) && BeingExecuted(s, id) && id in Waiting(s)
    ensures Executable(cfg, s, steps) && Undisturbed(steps) && InOrder(cfg, s, steps) && !Exclusive(Run(cfg, s, steps))
  {
    var u :| Executes(s, u, id);
    var w;
    steps, w := WaitingIsTakenUp(cfg, s, id);
    assert Executes(Run(cfg, s, steps), u, id) && Executes(Run(cfg, s, steps), w, id);
  }

  /** A write over an executing job has an undisturbed continuation that runs it twice: a stale retry at once,
      a cancel after the retry that its own failed status allows. */
  lemma DisturbedRunsTwice(cfg: Config, s: State, step: Step) returns (steps: seq<Step>)
    requires RenewsInTime(cfg) && Enabled(cfg, s, step) && Disturbs(step) && BeingExecuted(s, step.id)
    ensures Executable(cfg, After(cfg, s, step), steps) && Undisturbed(steps) && InOrder(cfg, After(cfg, s, step), steps)
    ensures !Exclusive(Run(cfg, After(cfg, s, step), steps))
  {
    var u :| Executes(s, u, step.id);
    var s1 := After(cfg, s, step);
    assert Executes(s1, u, step.id);
    if step.StaleRetry? {
      steps := PendingWhileExecuted(cfg, s1, step.id);
    } else {
      var retry := Retry(step.id);
      var s2 := After(cfg, s1, retry);
      assert Executes(s2, u, step.id);
      var rest := PendingWhileExecuted(cfg, s2, step.id);
      StepThen(cfg, s1, retry, rest);
      steps := [retry] + rest;
      assert steps[1..] == rest;
    }
  }

  /** A cancel or a stale retry is harmless exactly when no worker executes the job. */
  lemma HarmlessIff(cfg: Config, s: State, step: Step)
    requires RenewsInTime(cfg) && LeaseInv(cfg, s) && Enabled(cfg, s, step) && Disturbs(step)
    ensures SafeFrom(cfg, After(cfg, s, step)) <==> !BeingExecuted(s, step.id)
  {
    if BeingExecuted(s, step.id) {
      var steps := DisturbedRunsTwice(cfg, s, step);
    } else {
      LeaseInvStep(cfg, s, step);
      SafeFromInv(cfg, After(cfg, s, step));
    }
  }

  /** Every state of a run is safe from interference-free steps. */
  ghost predicate StaysSafe(cfg: Config, s: State, steps: seq<Step>)
    requires Executable(cfg, s, steps)
    decreases |steps|
  {
    SafeFrom(cfg, s) && (steps == [] || StaysSafe(cfg, After(cfg, s, steps[0]), steps[1..]))
  }

  lemma {:induction false} StaysSafeFromIff(cfg: Config, s: State, steps: seq<Step>)
    requires RenewsInTime(cfg) && LeaseInv(cfg, s) && Executable(cfg, s, steps)
    ensures StaysSafe(cfg, s, steps) <==> ConsiderateRun(cfg, s, steps)
    decreases |steps|
  {
    SafeFromInv(cfg, s);
    if steps != [] {
      if Disturbs(steps[0]) {
        HarmlessIff(cfg, s, steps[0]);
      }
      if Considerate(s, steps[0]) {
        LeaseInvStep(cfg, s, steps[0]);
        StaysSafeFromIff(cfg, After(cfg, s, steps[0]), steps[1..]);
      }
    }
  }

  /** A run never reaches a state from which a job can be executed twice exactly when each of its cancels and stale
      retries met a job that no worker was executing. */
  lemma StaysSafeIff(cfg: Config, steps: seq<Step>)
    requires RenewsInTime(cfg) && Executable(cfg, Initial(), steps)
    ensures StaysSafe(cfg, Initial(), steps) <==> ConsiderateRun(cfg, Initial(), steps)
  {
    StaysSafeFromIff(cfg, Initial(), steps);
  }
}
