/** The lease protocol: any number of worker processes running `worker_loop` against one queue.

    A global state holds the clock, the job table and each worker's program point.  A step is one
    commit of one participant, a crash, a move of the clock, or an operator action.  The clock may
    not run past the moment by which a live worker's renewer must have committed its next renewal:
    the renewal interval plus a bounded delay. */
module LeaseProtocol {
  import opened Wrappers
  import opened JobQueue

  /** `delay` bounds, in microseconds, how late a renewal commits: one interval and at most `delay` after the clock reading
      from which the lease it extends was computed.  It covers the time from that reading to the commit of that lease, and
      from the end of the sleep over the next reading to the commit of the renewal. */
  datatype Config = Config(leaseSeconds: int, backoffSeconds: int, delay: nat)

  function Max(a: int, b: int): int { if a >= b then a else b }

  function RenewInterval(cfg: Config): int {
    Max(10, cfg.leaseSeconds / 3) * MICROS_PER_SECOND
  }

  function LeaseLength(cfg: Config): int {
    cfg.leaseSeconds * MICROS_PER_SECOND
  }

  /** Program points of `worker_loop`.  `renewedAt` is the time of the claim or of the last renewal.
      `Deciding` lies between the failure policy's read of the row and its write. */
  datatype Worker =
    | Top
    | Claiming
    | Working(job: JobId, renewedAt: int)
    | Deciding(job: JobId, renewedAt: int, requeue: bool, retryable: bool)
    | Dead

  predicate IsBusy(w: Worker) { w.Working? || w.Deciding? }

  /** `retries` and `staleRequeues` count, per job, manual retries and failure-policy requeues whose
      decision no longer matched the row when it was written. */
  datatype State = State(
    now: int,
    rows: Table,
    workers: map<WorkerId, Worker>,
    retries: map<JobId, nat>,
    staleRequeues: map<JobId, nat>)

  datatype Step =
    | Submit(id: JobId, maxAttempts: nat)
    | Start(w: WorkerId)
    | Recover(w: WorkerId)
    | Claim(w: WorkerId, job: JobId)
    | FindNothing(w: WorkerId)
    | Renew(w: WorkerId)
    | SetStatus(w: WorkerId, status: JobStatus)
    | Complete(w: WorkerId)
    | FailRead(w: WorkerId, retryable: bool)
    | FailWrite(w: WorkerId)
    | Crash(w: WorkerId)
    | Tick(to: int)
    | Retry(id: JobId)
    | StaleRetry(id: JobId)  // a retry whose status check was made earlier and no longer holds
    | Cancel(id: JobId)  // its status check, too, may have been made earlier

  /** Steps by which an operator writes over a job without looking whether a worker executes it. */
  predicate Disturbs(step: Step) { step.Cancel? || step.StaleRetry? }

  function Initial(): State { State(0, map[], map[], map[], map[]) }

  function Count(m: map<JobId, nat>, id: JobId): nat { if id in m then m[id] else 0 }

  predicate At(s: State, w: WorkerId) { w in s.workers }

  /** By when a busy worker's next renewal has committed. */
  function RenewDeadline(cfg: Config, w: Worker): int
    requires IsBusy(w)
  {
    w.renewedAt + RenewInterval(cfg) + cfg.delay
  }

  /** A claim may take any due row and may find nothing, since it skips the rows that others have locked. */
  predicate Enabled(cfg: Config, s: State, step: Step) {
    match step
    case Submit(id, maxAttempts) => id !in s.rows && maxAttempts >= 1
    case Start(w) => w !in s.workers
    case Recover(w) => At(s, w) && s.workers[w].Top?
    case Claim(w, job) => At(s, w) && s.workers[w].Claiming? && job in s.rows && IsDue(s.rows[job], s.now)
    case FindNothing(w) => At(s, w) && s.workers[w].Claiming?
    case Renew(w) => At(s, w) && IsBusy(s.workers[w]) && s.now >= s.workers[w].renewedAt + RenewInterval(cfg)
    case SetStatus(w, status) =>
      At(s, w) && s.workers[w].Working? && s.workers[w].job in s.rows && status in {Running, Completed}
    case Complete(w) => At(s, w) && s.workers[w].Working? && s.workers[w].job in s.rows
    case FailRead(w, _) => At(s, w) && s.workers[w].Working? && s.workers[w].job in s.rows
    case FailWrite(w) => At(s, w) && s.workers[w].Deciding? && s.workers[w].job in s.rows
    case Crash(w) => At(s, w)
    case Tick(to) =>
      && s.now <= to
      && forall w :: w in s.workers && IsBusy(s.workers[w]) ==> to <= RenewDeadline(cfg, s.workers[w])
    case Retry(id) => id in s.rows && IsFailedStatus(s.rows[id].status)
    case StaleRetry(id) => id in s.rows
    case Cancel(id) => id in s.rows
  }

  /** The one existing row a step writes, if it writes one. */
  function WrittenJob(s: State, step: Step): Option<JobId> {
    match step
    case Claim(_, id) => Some(id)
    case Retry(id) => Some(id)
    case StaleRetry(id) => Some(id)
    case Cancel(id) => Some(id)
    case Renew(w) => JobOf(s, w)
    case SetStatus(w, _) => JobOf(s, w)
    case Complete(w) => JobOf(s, w)
    case FailWrite(w) => JobOf(s, w)
    case _ => None
  }

  function JobOf(s: State, w: WorkerId): Option<JobId> {
    if w in s.workers && IsBusy(s.workers[w]) then Some(s.workers[w].job) else None
  }

  /** What a step makes of the row it writes. */
  function WrittenRow(cfg: Config, s: State, step: Step, r: Row): Row
    requires Enabled(cfg, s, step)
  {
    match step
    case Claim(w, _) => ClaimedRow(r, w, cfg.leaseSeconds, s.now)
    case Renew(w) => RenewedRow(r, w, cfg.leaseSeconds, s.now)
    case SetStatus(_, status) => r.(status := status)
    case Complete(_) => CompletedRow(r)
    case FailWrite(w) =>
      FailureWrittenRow(r, s.workers[w].requeue, s.workers[w].retryable, cfg.backoffSeconds, s.now)
    case Retry(_) => RetriedRow(r, true, s.now)
    case StaleRetry(_) => RetriedRow(r, true, s.now)
    case Cancel(_) => CancelledRow(r)
    case _ => r
  }

  /** What a step commits to the job table. */
  function RowsAfter(cfg: Config, s: State, step: Step): Table
    requires Enabled(cfg, s, step)
  {
    if step.Submit? then s.rows[step.id := NewRow(step.maxAttempts, s.now)]
    else if step.Recover? then Recovered(s.rows, s.now)
    else
      match WrittenJob(s, step)
      case None => s.rows
      case Some(id) => if id in s.rows then s.rows[id := WrittenRow(cfg, s, step, s.rows[id])] else s.rows
  }

  /** Where a step leaves the worker that takes it. */
  function WorkersAfter(cfg: Config, s: State, step: Step): map<WorkerId, Worker>
    requires Enabled(cfg, s, step)
  {
    match step
    case Start(w) => s.workers[w := Top]
    case Recover(w) => s.workers[w := Claiming]
    case Claim(w, id) => s.workers[w := Working(id, s.now)]
    case FindNothing(w) => s.workers[w := Top]
    case Renew(w) => s.workers[w := s.workers[w].(renewedAt := s.now)]
    case Complete(w) => s.workers[w := Top]
    case FailRead(w, retryable) =>
      var at := s.workers[w];
      s.workers[w := Deciding(at.job, at.renewedAt, Requeues(s.rows[at.job], retryable), retryable)]
    case FailWrite(w) => s.workers[w := Top]
    case Crash(w) => s.workers[w := Dead]
    case _ => s.workers
  }

  function RetriesAfter(s: State, step: Step): map<JobId, nat> {
    if step.Retry? || step.StaleRetry? then s.retries[step.id := Count(s.retries, step.id) + 1] else s.retries
  }

  /** A requeue is stale when the row no longer grants what was read. */
  predicate WritesStaleRequeue(s: State, step: Step) {
    && step.FailWrite? && At(s, step.w) && s.workers[step.w].Deciding? && s.workers[step.w].job in s.rows
    && s.workers[step.w].requeue && !Requeues(s.rows[s.workers[step.w].job], s.workers[step.w].retryable)
  }

  function StaleAfter(s: State, step: Step): map<JobId, nat> {
    if WritesStaleRequeue(s, step)
    then var id := s.workers[step.w].job; s.staleRequeues[id := Count(s.staleRequeues, id) + 1]
    else s.staleRequeues
  }

  function After(cfg: Config, s: State, step: Step): State
    requires Enabled(cfg, s, step)
  {
    State(if step.Tick? then step.to else s.now,
          RowsAfter(cfg, s, step), WorkersAfter(cfg, s, step), RetriesAfter(s, step), StaleAfter(s, step))
  }

  predicate Executable(cfg: Config, s: State, steps: seq<Step>)
    decreases |steps|
  {
    steps == [] || (Enabled(cfg, s, steps[0]) && Executable(cfg, After(cfg, s, steps[0]), steps[1..]))
  }

  function Run(cfg: Config, s: State, steps: seq<Step>): State
    requires Executable(cfg, s, steps)
    decreases |steps|
  {
    if steps == [] then s else Run(cfg, After(cfg, s, steps[0]), steps[1..])
  }

  predicate Undisturbed(steps: seq<Step>) {
    forall i :: 0 <= i < |steps| ==> !Disturbs(steps[i])
  }

  predicate Executes(s: State, w: WorkerId, id: JobId) {
    w in s.workers && IsBusy(s.workers[w]) && s.workers[w].job == id
  }

  ghost predicate BeingExecuted(s: State, id: JobId) {
    exists w :: Executes(s, w, id)
  }

  /** An operator writes over a job only while no worker executes it. */
  ghost predicate Considerate(s: State, step: Step) {
    Disturbs(step) ==> !BeingExecuted(s, step.id)
  }

  ghost predicate ConsiderateRun(cfg: Config, s: State, steps: seq<Step>)
    requires Executable(cfg, s, steps)
    decreases |steps|
  {
    steps == [] || (Considerate(s, steps[0]) && ConsiderateRun(cfg, After(cfg, s, steps[0]), steps[1..]))
  }

  lemma {:induction false} UndisturbedIsConsiderate(cfg: Config, s: State, steps: seq<Step>)
    requires Executable(cfg, s, steps) && Undisturbed(steps)
    ensures ConsiderateRun(cfg, s, steps)
    decreases |steps|
  {
    if steps != [] {
      assert !Disturbs(steps[0]);
      UndisturbedIsConsiderate(cfg, After(cfg, s, steps[0]), steps[1..]);
    }
  }

  // ── Invariants of every run, operator actions included ───────────────────

  /** The most attempts the queue may have started for a job. */
  function AttemptBudget(s: State, id: JobId): nat
    requires id in s.rows
  {
    s.rows[id].maxAttempts + Count(s.retries, id) + Count(s.staleRequeues, id)
  }

  predicate WithinBudget(r: Row, budget: nat) {
    Coherent(r) && r.attempts <= budget && (r.queue == QPending ==> r.attempts < budget)
  }

  predicate RowWithinBudget(s: State, id: JobId)
    requires id in s.rows
  {
    WithinBudget(s.rows[id], AttemptBudget(s, id))
  }

  ghost predicate QueueInv(s: State) {
    && (forall id :: id in s.rows ==> RowWithinBudget(s, id))
    && s.retries.Keys <= s.rows.Keys && s.staleRequeues.Keys <= s.rows.Keys
  }

  /** The attempt bound seen from the row being written: only a retry or a stale requeue needs more budget. */
  lemma WrittenRowWithinBudget(cfg: Config, s: State, step: Step, r: Row, before: nat, after: nat)
    requires Enabled(cfg, s, step) && WithinBudget(r, before) && before <= after && r.maxAttempts <= before
    requires step.Claim? ==> r.queue == QPending
    requires step.Retry? || step.StaleRetry? ==> before < after
    requires step.FailWrite? && s.workers[step.w].requeue && !Requeues(r, s.workers[step.w].retryable) ==> before < after
    ensures WithinBudget(WrittenRow(cfg, s, step, r), after)
  {
  }

  /** A worker that reads and writes the row of its failed attempt without anything in between settles the failure. */
  lemma FailureOutcome(cfg: Config, s: State, w: WorkerId, retryable: bool)
    requires Enabled(cfg, s, FailRead(w, retryable))
    ensures var read := After(cfg, s, FailRead(w, retryable));
            && Enabled(cfg, read, FailWrite(w)) && read.rows == s.rows
            && var id, written := s.workers[w].job, After(cfg, read, FailWrite(w));
               && written.workers == s.workers[w := Top] && OthersUntouched(s.rows, written.rows, id)
               && id in written.rows
               && FailureIsSettled(s.rows[id], retryable, cfg.backoffSeconds, s.now, written.rows[id])
  {
    FailureSettles(s.rows[s.workers[w].job], retryable, cfg.backoffSeconds, s.now);
  }

  /** The allowance of retries and stale requeues only grows, and does when the step is one of them. */
  lemma AllowanceGrows(s: State, step: Step, id: JobId)
    ensures Count(RetriesAfter(s, step), id) + Count(StaleAfter(s, step), id)
         >= Count(s.retries, id) + Count(s.staleRequeues, id)
          + (if (step.Retry? || step.StaleRetry?) && step.id == id then 1 else 0)
          + (if WritesStaleRequeue(s, step) && s.workers[step.w].job == id then 1 else 0)
  {
  }

  /** The row of an existing job after a step. */
  lemma RowAfterStep(cfg: Config, s: State, step: Step, id: JobId)
    requires Enabled(cfg, s, step) && id in s.rows
    ensures id in RowsAfter(cfg, s, step)
    ensures RowsAfter(cfg, s, step)[id] ==
            if step.Recover? then RecoveredRow(s.rows[id], s.now)
            else if WrittenJob(s, step) == Some(id) then WrittenRow(cfg, s, step, s.rows[id])
            else s.rows[id]
  {
  }

  lemma RowWithinBudgetStep(cfg: Config, s: State, step: Step, id: JobId)
    requires QueueInv(s) && Enabled(cfg, s, step) && id in RowsAfter(cfg, s, step)
    ensures var r := RowsAfter(cfg, s, step)[id];
            WithinBudget(r, r.maxAttempts + Count(RetriesAfter(s, step), id) + Count(StaleAfter(s, step), id))
  {
    if id in s.rows {
      var r := s.rows[id];
      assert RowWithinBudget(s, id);
      var after := r.maxAttempts + Count(RetriesAfter(s, step), id) + Count(StaleAfter(s, step), id);
      AllowanceGrows(s, step, id);
      RowAfterStep(cfg, s, step, id);
      if WrittenJob(s, step) == Some(id) {
        WrittenRowWithinBudget(cfg, s, step, r, AttemptBudget(s, id), after);
      }
    }
  }

  lemma QueueInvStep(cfg: Config, s: State, step: Step)
    requires QueueInv(s) && Enabled(cfg, s, step)
    ensures QueueInv(After(cfg, s, step))
  {
    forall id | id in After(cfg, s, step).rows ensures RowWithinBudget(After(cfg, s, step), id) {
      RowWithinBudgetStep(cfg, s, step, id);
    }
  }

  /** Lock coherence and the attempt bound hold in every reachable state, cancels and stale writes included. */
  lemma {:induction false} QueueInvHolds(cfg: Config, s: State, steps: seq<Step>)
    requires QueueInv(s) && Executable(cfg, s, steps)
    ensures QueueInv(Run(cfg, s, steps))
    decreases |steps|
  {
    if steps != [] {
      QueueInvStep(cfg, s, steps[0]);
      QueueInvHolds(cfg, After(cfg, s, steps[0]), steps[1..]);
    }
  }

  // ── Mutual exclusion ─────────────────────────────────────────────────────

  /** The configurations in which a renewal always commits before the lease can expire. */
  predicate RenewsInTime(cfg: Config) {
    RenewInterval(cfg) + cfg.delay <= LeaseLength(cfg)
  }

  /** A busy worker holds its row: it is the row's owner, under a lease that has not expired, and a
      decision it has read still matches the row. */
  predicate HoldsJob(cfg: Config, s: State, w: WorkerId)
    requires w in s.workers && IsBusy(s.workers[w])
  {
    var at := s.workers[w];
    && at.job in s.rows
    && s.rows[at.job].queue == QRunning
    && s.rows[at.job].lockedBy == Some(w)
    && s.rows[at.job].lease == Some(at.renewedAt + LeaseLength(cfg))
    && s.now <= RenewDeadline(cfg, at)
    && (at.Deciding? ==> at.requeue == Requeues(s.rows[at.job], at.retryable))
  }

  ghost predicate LeaseInv(cfg: Config, s: State) {
    && QueueInv(s)
    && (forall w :: w in s.workers && IsBusy(s.workers[w]) ==> HoldsJob(cfg, s, w))
    && (forall id :: id in s.rows && IsFailedStatus(s.rows[id].status) ==> s.rows[id].queue == QFailed)
    && s.staleRequeues == map[]
  }

  predicate TakenBy(step: Step, w: WorkerId) {
    && (step.Start? || step.Recover? || step.Claim? || step.FindNothing? || step.Renew? || step.SetStatus?
        || step.Complete? || step.FailRead? || step.FailWrite? || step.Crash?)
    && step.w == w
  }

  /** Nobody else's step touches the row of a busy worker, although most writes are not guarded by its owner. */
  lemma OthersKeepAway(cfg: Config, s: State, step: Step, w: WorkerId)
    requires RenewsInTime(cfg) && LeaseInv(cfg, s) && Enabled(cfg, s, step) && Considerate(s, step)
    requires w in s.workers && IsBusy(s.workers[w]) && !TakenBy(step, w)
    ensures WorkersAfter(cfg, s, step)[w] == s.workers[w]
    ensures s.workers[w].job in s.rows && s.workers[w].job in RowsAfter(cfg, s, step)
    ensures RowsAfter(cfg, s, step)[s.workers[w].job] == s.rows[s.workers[w].job]
  {
    var job := s.workers[w].job;
    assert HoldsJob(cfg, s, w);
    if step.Recover? {
      assert !IsExpired(s.rows[job], s.now);
    } else if step.Renew? || step.SetStatus? || step.Complete? || step.FailWrite? {
      assert HoldsJob(cfg, s, step.w);
      assert s.workers[step.w].job != job;
    } else if Disturbs(step) {
      assert Executes(s, w, job);
    }
  }

  /** A worker's own step keeps it in possession for as long as it stays busy. */
  lemma OwnStepHolds(cfg: Config, s: State, step: Step, w: WorkerId)
    requires RenewsInTime(cfg) && LeaseInv(cfg, s) && Enabled(cfg, s, step) && Considerate(s, step)
    requires TakenBy(step, w) && IsBusy(WorkersAfter(cfg, s, step)[w])
    ensures HoldsJob(cfg, After(cfg, s, step), w)
  {
    if !step.Claim? {
      assert HoldsJob(cfg, s, w);
    }
  }

  /** A step leaves a busy worker in possession of its job, whoever takes the step. */
  lemma HoldsJobStep(cfg: Config, s: State, step: Step, w: WorkerId)
    requires RenewsInTime(cfg) && LeaseInv(cfg, s) && Enabled(cfg, s, step) && Considerate(s, step)
    requires w in WorkersAfter(cfg, s, step) && IsBusy(WorkersAfter(cfg, s, step)[w])
    ensures HoldsJob(cfg, After(cfg, s, step), w)
  {
    if TakenBy(step, w) {
      OwnStepHolds(cfg, s, step, w);
    } else {
      OthersKeepAway(cfg, s, step, w);
      assert HoldsJob(cfg, s, w);
    }
  }

  /** A failed status goes with a failed queue entry, so the retry button never reaches a running job. */
  lemma FailedStatusStep(cfg: Config, s: State, step: Step, id: JobId)
    requires LeaseInv(cfg, s) && Enabled(cfg, s, step) && Considerate(s, step)
    requires id in RowsAfter(cfg, s, step) && IsFailedStatus(RowsAfter(cfg, s, step)[id].status)
    ensures RowsAfter(cfg, s, step)[id].queue == QFailed
  {
  }

  lemma LeaseInvStep(cfg: Config, s: State, step: Step)
    requires RenewsInTime(cfg) && LeaseInv(cfg, s) && Enabled(cfg, s, step) && Considerate(s, step)
    ensures LeaseInv(cfg, After(cfg, s, step))
  {
    QueueInvStep(cfg, s, step);
    forall w | w in WorkersAfter(cfg, s, step) && IsBusy(WorkersAfter(cfg, s, step)[w])
      ensures HoldsJob(cfg, After(cfg, s, step), w)
    {
      HoldsJobStep(cfg, s, step, w);
    }
    forall id | id in RowsAfter(cfg, s, step) && IsFailedStatus(RowsAfter(cfg, s, step)[id].status)
      ensures RowsAfter(cfg, s, step)[id].queue == QFailed
    {
      FailedStatusStep(cfg, s, step, id);
    }
    assert !WritesStaleRequeue(s, step) by {
      if step.FailWrite? {
        assert HoldsJob(cfg, s, step.w);
      }
    }
  }

  lemma {:induction false} LeaseInvHolds(cfg: Config, s: State, steps: seq<Step>)
    requires RenewsInTime(cfg) && LeaseInv(cfg, s) && Executable(cfg, s, steps) && ConsiderateRun(cfg, s, steps)
    ensures LeaseInv(cfg, Run(cfg, s, steps))
    decreases |steps|
  {
    if steps != [] {
      LeaseInvStep(cfg, s, steps[0]);
      LeaseInvHolds(cfg, After(cfg, s, steps[0]), steps[1..]);
    }
  }

  /** No two workers execute the same job. */
  ghost predicate Exclusive(s: State) {
    forall u, w ::
      (u in s.workers && w in s.workers && IsBusy(s.workers[u]) && IsBusy(s.workers[w])
       && s.workers[u].job == s.workers[w].job) ==> u == w
  }

  /** The worker executing a job is the row's owner and its lease has not expired. */
  ghost predicate OwnersHoldLeases(s: State) {
    forall w :: w in s.workers && IsBusy(s.workers[w]) ==>
      var job := s.workers[w].job;
      job in s.rows && s.rows[job].lockedBy == Some(w) && !IsExpired(s.rows[job], s.now)
  }

  lemma InvIsExclusive(cfg: Config, s: State)
    requires LeaseInv(cfg, s)
    ensures Exclusive(s)
  {
    forall u, w | u in s.workers && w in s.workers && IsBusy(s.workers[u]) && IsBusy(s.workers[w])
                  && s.workers[u].job == s.workers[w].job
      ensures u == w
    {
      assert HoldsJob(cfg, s, u) && HoldsJob(cfg, s, w);
    }
  }

  lemma SafeWhenRenewedInTime(cfg: Config, steps: seq<Step>)
    requires RenewsInTime(cfg) && Executable(cfg, Initial(), steps) && ConsiderateRun(cfg, Initial(), steps)
    ensures Exclusive(Run(cfg, Initial(), steps)) && OwnersHoldLeases(Run(cfg, Initial(), steps))
    ensures Run(cfg, Initial(), steps).staleRequeues == map[]
  {
    var s := Run(cfg, Initial(), steps);
    LeaseInvHolds(cfg, Initial(), steps);
    InvIsExclusive(cfg, s);
    forall w | w in s.workers && IsBusy(s.workers[w])
      ensures var job := s.workers[w].job;
              job in s.rows && s.rows[job].lockedBy == Some(w) && !IsExpired(s.rows[job], s.now)
    {
      assert HoldsJob(cfg, s, w);
    }
  }

  /** In every run the queue starts a job at most once per allowed attempt, manual retry and stale requeue;
      in a considerate run that renews in time there are no stale requeues. */
  lemma AttemptsBounded(cfg: Config, steps: seq<Step>)
    requires Executable(cfg, Initial(), steps)
    ensures var s := Run(cfg, Initial(), steps);
            forall id :: id in s.rows ==> Coherent(s.rows[id]) && s.rows[id].attempts <= AttemptBudget(s, id)
    ensures var s := Run(cfg, Initial(), steps);
            RenewsInTime(cfg) && ConsiderateRun(cfg, Initial(), steps) ==>
              forall id :: id in s.rows ==> s.rows[id].attempts <= s.rows[id].maxAttempts + Count(s.retries, id)
  {
    var s := Run(cfg, Initial(), steps);
    QueueInvHolds(cfg, Initial(), steps);
    forall id | id in s.rows ensures Coherent(s.rows[id]) && s.rows[id].attempts <= AttemptBudget(s, id) {
      assert RowWithinBudget(s, id);
    }
    if RenewsInTime(cfg) && ConsiderateRun(cfg, Initial(), steps) {
      SafeWhenRenewedInTime(cfg, steps);
    }
  }

  // ── What finishing means ─────────────────────────────────────────────────

  predicate Revives(step: Step, id: JobId) { (step.Retry? || Disturbs(step)) && step.id == id }

  /** Only an operator brings back a finished row that no worker executes: at any timing, no step of a worker or of
      the clock writes it. */
  lemma RestingRowStep(cfg: Config, s: State, step: Step, id: JobId)
    requires Enabled(cfg, s, step) && !Revives(step, id)
    requires id in s.rows && AtRest(s.rows[id]) && !BeingExecuted(s, id)
    ensures var t := After(cfg, s, step); id in t.rows && t.rows[id] == s.rows[id] && !BeingExecuted(t, id)
  {
    var t := After(cfg, s, step);
    forall w ensures !Executes(s, w, id) && !Executes(t, w, id) {
      assert !Executes(s, w, id);
    }
    if WrittenJob(s, step) == Some(id) && !step.Claim? {
      assert Executes(s, step.w, id);
    }
  }

  /** A completed, cancelled or failed job that no worker executes keeps its row through any run until it is retried. */
  lemma {:induction false} FinishedJobRests(cfg: Config, s: State, steps: seq<Step>, id: JobId)
    requires Executable(cfg, s, steps) && forall i :: 0 <= i < |steps| ==> !Revives(steps[i], id)
    requires id in s.rows && AtRest(s.rows[id]) && !BeingExecuted(s, id)
    ensures id in Run(cfg, s, steps).rows && Run(cfg, s, steps).rows[id] == s.rows[id]
    decreases |steps|
  {
    if steps != [] {
      RestingRowStep(cfg, s, steps[0], id);
      FinishedJobRests(cfg, After(cfg, s, steps[0]), steps[1..], id);
    }
  }
}
