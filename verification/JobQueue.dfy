/** The Postgres-backed job queue of `src/rulekiln/db/repositories/jobs.py`.

    Every write is first a function on one row or on the whole table; class `JobTable` performs
    it in place and is proved against that function.  Instants are integers counting
    microseconds, the resolution of the source's timestamps. */
module JobQueue {
  import opened Wrappers

  type JobId = string
  type WorkerId = string

  const MICROS_PER_SECOND: int := 1_000_000

  datatype QueueStatus = QCreated | QPending | QRunning | QCompleted | QFailed

  datatype JobStatus =
    | Draft | Created | Pending | Running | Completed
    | WaitingForRetry | Failed | FailedRetryable | FailedTerminal

  datatype Row = Row(
    status: JobStatus,
    queue: QueueStatus,
    createdAt: int,
    nextRunAt: int,
    lockedBy: Option<WorkerId>,
    lockedAt: Option<int>,
    lease: Option<int>,
    attempts: nat,
    maxAttempts: nat)

  type Table = map<JobId, Row>

  /** The statuses from which the operator's retry button is honoured. */
  predicate IsFailedStatus(s: JobStatus) {
    s in {Failed, FailedRetryable, FailedTerminal}
  }

  /** `queue_status` is running exactly when all three lock columns are set, and otherwise none is. */
  predicate Coherent(r: Row) {
    && (r.queue == QRunning <==> r.lockedBy.Some? && r.lockedAt.Some? && r.lease.Some?)
    && (r.queue != QRunning <==> r.lockedBy.None? && r.lockedAt.None? && r.lease.None?)
  }

  // ── Row updates ──────────────────────────────────────────────────────────

  function Unlocked(r: Row): Row {
    r.(lockedBy := None, lockedAt := None, lease := None)
  }

  function NewRow(maxAttempts: nat, now: int): Row {
    Row(Created, QPending, now, now, None, None, None, 0, maxAttempts)
  }

  function ClaimedRow(r: Row, worker: WorkerId, leaseSeconds: int, now: int): Row {
    r.(queue := QRunning, status := Running, lockedBy := Some(worker), lockedAt := Some(now),
       lease := Some(now + leaseSeconds * MICROS_PER_SECOND), attempts := r.attempts + 1)
  }

  predicate IsRunningFor(r: Row, worker: WorkerId) {
    r.lockedBy == Some(worker) && r.queue == QRunning
  }

  function RenewedRow(r: Row, worker: WorkerId, leaseSeconds: int, now: int): Row {
    if IsRunningFor(r, worker)
    then r.(lease := Some(now + leaseSeconds * MICROS_PER_SECOND))
    else r
  }

  function CompletedRow(r: Row): Row {
    Unlocked(r).(queue := QCompleted, status := Completed)
  }

  function CancelledRow(r: Row): Row {
    Unlocked(r).(queue := QFailed, status := FailedTerminal)
  }

  function RetriedRow(r: Row, queueBacked: bool, now: int): Row {
    Unlocked(r).(
      queue := if queueBacked then QPending else QCreated,
      status := if queueBacked then WaitingForRetry else Created,
      nextRunAt := now)
  }

  /** What the failure policy decides when it reads the row. */
  predicate Requeues(r: Row, retryable: bool) {
    retryable && r.attempts < r.maxAttempts
  }

  /** What the failure policy writes once it has decided. */
  function FailureWrittenRow(r: Row, requeue: bool, retryable: bool, backoffSeconds: int, now: int): Row {
    if requeue
    then Unlocked(r).(queue := QPending, status := WaitingForRetry,
                      nextRunAt := now + backoffSeconds * MICROS_PER_SECOND)
    else Unlocked(r).(queue := QFailed, status := if retryable then FailedRetryable else FailedTerminal)
  }

  predicate IsExpired(r: Row, now: int) {
    r.queue == QRunning && r.lease.Some? && r.lease.value < now
  }

  predicate RecoversToPending(r: Row, now: int) {
    IsExpired(r, now) && r.attempts < r.maxAttempts
  }

  predicate RecoversToFailed(r: Row, now: int) {
    IsExpired(r, now) && r.attempts >= r.maxAttempts
  }

  function RecoveredRow(r: Row, now: int): Row {
    if RecoversToPending(r, now) then Unlocked(r).(queue := QPending, status := WaitingForRetry)
    else if RecoversToFailed(r, now) then Unlocked(r).(queue := QFailed, status := FailedRetryable)
    else r
  }

  // ── Table updates ────────────────────────────────────────────────────────

  function Updated(t: Table, id: JobId, r: Row): Table
    requires id in t
  {
    t[id := r]
  }

  function Recovered(t: Table, now: int): Table {
    map id | id in t :: RecoveredRow(t[id], now)
  }

  predicate IsDue(r: Row, now: int) {
    r.queue == QPending && r.nextRunAt <= now
  }

  /** `id` is a due pending job that no other transaction has locked, and no such job was created earlier. */
  predicate IsNext(t: Table, now: int, locked: set<JobId>, id: JobId) {
    && id in t && id !in locked && IsDue(t[id], now)
    && forall other :: other in t && other !in locked && IsDue(t[other], now) ==> t[id].createdAt <= t[other].createdAt
  }

  /** Nothing but an operator or a worker that still executes the job writes this row again. */
  ghost predicate AtRest(r: Row) {
    && Coherent(r)
    && (forall now :: !IsDue(r, now) && RecoveredRow(r, now) == r)
    && (forall worker, leaseSeconds, now :: RenewedRow(r, worker, leaseSeconds, now) == r)
  }

  /** A row waiting to be claimed, by anyone, exactly from `from` on. */
  ghost predicate WaitsFrom(r: Row, from: int) {
    Coherent(r) && !IsFailedStatus(r.status) && forall now :: IsDue(r, now) <==> from <= now
  }

  /** The same job with the same attempts behind it. */
  predicate SameJob(before: Row, after: Row) {
    after.createdAt == before.createdAt && after.attempts == before.attempts && after.maxAttempts == before.maxAttempts
  }

  /** What becomes of a failed attempt: a retryable failure with attempts left waits out its backoff, any other one rests,
      and an operator may retry it. */
  ghost predicate FailureIsSettled(before: Row, retryable: bool, backoffSeconds: int, now: int, after: Row) {
    && SameJob(before, after)
    && ((exists later :: IsDue(after, later)) <==> retryable && before.attempts < before.maxAttempts)
    && (retryable && before.attempts < before.maxAttempts
        ==> WaitsFrom(after, now + backoffSeconds * 1_000_000) && after.status == WaitingForRetry)
    && (!(retryable && before.attempts < before.maxAttempts)
        ==> AtRest(after) && after.status == if retryable then FailedRetryable else FailedTerminal)
  }

  lemma FailureSettles(r: Row, retryable: bool, backoffSeconds: int, now: int)
    ensures FailureIsSettled(r, retryable, backoffSeconds, now,
                             FailureWrittenRow(r, Requeues(r, retryable), retryable, backoffSeconds, now))
  {
    var after := FailureWrittenRow(r, Requeues(r, retryable), retryable, backoffSeconds, now);
    if Requeues(r, retryable) {
      assert IsDue(after, after.nextRunAt);
    }
  }

  /** What recovery does with a row: one whose lease has run out waits again if attempts are left, from the instant it was
      due before, and rests otherwise; any other row stays as it is. */
  ghost predicate RecoveryIsSettled(before: Row, now: int, after: Row) {
    if before.queue == QRunning && before.lease.Some? && before.lease.value < now then
      && SameJob(before, after)
      && (before.attempts < before.maxAttempts ==> WaitsFrom(after, before.nextRunAt) && after.status == WaitingForRetry)
      && (before.attempts >= before.maxAttempts ==> AtRest(after) && after.status == FailedRetryable)
    else after == before
  }

  ghost predicate AllRecovered(before: Table, now: int, after: Table) {
    after.Keys == before.Keys && forall id :: id in before ==> RecoveryIsSettled(before[id], now, after[id])
  }

  lemma RecoverySettles(t: Table, now: int)
    ensures AllRecovered(t, now, Recovered(t, now))
  {
  }

  predicate OthersUntouched(before: Table, after: Table, id: JobId) {
    before - {id} == after - {id}
  }

  /** A queue with a due job has an oldest one, so the claim query never comes back empty by accident. */
  lemma {:induction false} OldestExists(t: Table, now: int, due: set<JobId>)
    requires due != {} && forall id :: id in due ==> id in t
    ensures exists id :: id in due && forall other :: other in due ==> t[id].createdAt <= t[other].createdAt
    decreases due
  {
    var first :| first in due;
    var rest := due - {first};
    if rest == {} {
      assert due == {first};
    } else {
      OldestExists(t, now, rest);
      var best :| best in rest && forall other :: other in rest ==> t[best].createdAt <= t[other].createdAt;
      var winner := if t[first].createdAt <= t[best].createdAt then first else best;
      assert winner in due;
      forall other | other in due ensures t[winner].createdAt <= t[other].createdAt {
        if other != first {
          assert other in rest;
        }
      }
    }
  }

  /** A new job is claimed first exactly when no due job is older. */
  lemma NewJobIsNext(t: Table, id: JobId, maxAttempts: nat, now: int)
    requires id !in t
    ensures IsNext(t[id := NewRow(maxAttempts, now)], now, {}, id)
       <==> forall other :: other in t && IsDue(t[other], now) ==> now <= t[other].createdAt
  {
    var after := t[id := NewRow(maxAttempts, now)];
    if IsNext(after, now, {}, id) {
      forall other | other in t && IsDue(t[other], now) ensures now <= t[other].createdAt {
        assert other in after && after[other] == t[other];
      }
    }
  }

  /** Recovery leaves no expired running row, and its two counts partition the expired rows. */
  lemma RecoveryIsComplete(t: Table, now: int)
    ensures forall id :: id in Recovered(t, now) ==> !IsExpired(Recovered(t, now)[id], now)
    ensures |set id | id in t && RecoversToPending(t[id], now)| + |set id | id in t && RecoversToFailed(t[id], now)|
         == |set id | id in t && IsExpired(t[id], now)|
  {
    var a := set id | id in t && RecoversToPending(t[id], now);
    var b := set id | id in t && RecoversToFailed(t[id], now);
    assert a !! b;
    assert a + b == set id | id in t && IsExpired(t[id], now);
  }

  /** The `distillation_jobs` table; each method is one committed repository call. */
  class JobTable {
    var rows: Table

    constructor ()
      ensures rows == map[]
    {
      rows := map[];
    }

    method CreateJob(id: JobId, maxAttempts: nat, now: int)
      requires id !in rows
      modifies this
      ensures rows == old(rows)[id := NewRow(maxAttempts, now)]
      ensures Coherent(rows[id]) && OthersUntouched(old(rows), rows, id)
      ensures WaitsFrom(rows[id], now) && rows[id].status == Created && rows[id].createdAt == now
      ensures rows[id].attempts == 0 && rows[id].maxAttempts == maxAttempts
      ensures IsNext(rows, now, {}, id)
         <==> forall other :: other in old(rows) && IsDue(old(rows)[other], now) ==> now <= old(rows)[other].createdAt
    {
      NewJobIsNext(rows, id, maxAttempts, now);
      rows := rows[id := NewRow(maxAttempts, now)];
    }

    /** `locked` holds the rows that other transactions have locked, which the query skips. */
    method ClaimNextJob(worker: WorkerId, leaseSeconds: int, now: int, locked: set<JobId>) returns (claimed: Option<JobId>)
      modifies this
      ensures claimed.Some? ==> IsNext(old(rows), now, locked, claimed.value)
      ensures claimed.Some? ==>
        rows == Updated(old(rows), claimed.value, ClaimedRow(old(rows)[claimed.value], worker, leaseSeconds, now))
      ensures claimed.Some? ==>
        var before, after := old(rows)[claimed.value], rows[claimed.value];
        && IsRunningFor(after, worker) && Coherent(after) && after.status == Running && after.lockedAt == Some(now)
        && (forall later :: IsExpired(after, later) <==> now + leaseSeconds * 1_000_000 < later)
        && after.attempts == before.attempts + 1 && after.maxAttempts == before.maxAttempts
        && after.createdAt == before.createdAt && after.nextRunAt == before.nextRunAt
      ensures claimed.None? ==> rows == old(rows) && forall id :: id in rows && id !in locked ==> !IsDue(rows[id], now)
    {
      var due := set id | id in rows && id !in locked && IsDue(rows[id], now);
      if due == {} {
        assert forall id :: id in rows && id !in locked ==> (IsDue(rows[id], now) <==> id in due);
        return None;
      }
      OldestExists(rows, now, due);
      var oldest :| oldest in due && forall other :: other in due ==> rows[oldest].createdAt <= rows[other].createdAt;
      assert forall id :: id in rows && id !in locked && IsDue(rows[id], now) ==> id in due;
      rows := rows[oldest := ClaimedRow(rows[oldest], worker, leaseSeconds, now)];
      claimed := Some(oldest);
    }

    method RenewLease(id: JobId, worker: WorkerId, leaseSeconds: int, now: int)
      modifies this
      ensures rows == if id in old(rows)
                      then Updated(old(rows), id, RenewedRow(old(rows)[id], worker, leaseSeconds, now))
                      else old(rows)
      ensures OthersUntouched(old(rows), rows, id)
      ensures rows != old(rows) ==> IsRunningFor(old(rows)[id], worker)
      ensures id in rows && IsRunningFor(rows[id], worker) ==>
        forall later :: IsExpired(rows[id], later) <==> now + leaseSeconds * MICROS_PER_SECOND < later
      ensures id in rows && Coherent(old(rows)[id]) ==> Coherent(rows[id])
    {
      if id in rows {
        rows := rows[id := RenewedRow(rows[id], worker, leaseSeconds, now)];
      }
    }

    method CompleteJob(id: JobId)
      modifies this
      ensures rows == if id in old(rows) then Updated(old(rows), id, CompletedRow(old(rows)[id])) else old(rows)
      ensures OthersUntouched(old(rows), rows, id)
      ensures id in rows ==> AtRest(rows[id]) && rows[id].attempts == old(rows)[id].attempts
      ensures id in rows ==> SameJob(old(rows)[id], rows[id]) && rows[id].status == Completed
    {
      if id in rows {
        rows := rows[id := CompletedRow(rows[id])];
      }
    }

    method CancelJob(id: JobId)
      modifies this
      ensures rows == if id in old(rows) then Updated(old(rows), id, CancelledRow(old(rows)[id])) else old(rows)
      ensures OthersUntouched(old(rows), rows, id)
      ensures id in rows ==> AtRest(rows[id]) && rows[id].attempts == old(rows)[id].attempts
      ensures id in rows ==> SameJob(old(rows)[id], rows[id]) && IsFailedStatus(rows[id].status)
    {
      if id in rows {
        rows := rows[id := CancelledRow(rows[id])];
      }
    }

    method RetryJob(id: JobId, queueBacked: bool, now: int) returns (status: JobStatus)
      modifies this
      ensures rows == if id in old(rows)
                      then Updated(old(rows), id, RetriedRow(old(rows)[id], queueBacked, now))
                      else old(rows)
      ensures OthersUntouched(old(rows), rows, id)
      ensures id in rows ==> SameJob(old(rows)[id], rows[id]) && status == rows[id].status && !IsFailedStatus(status)
      ensures id in rows && queueBacked ==> WaitsFrom(rows[id], now)
      ensures id in rows && !queueBacked ==> AtRest(rows[id])
    {
      status := if queueBacked then WaitingForRetry else Created;
      if id in rows {
        rows := rows[id := RetriedRow(rows[id], queueBacked, now)];
      }
    }

    /** The undisturbed failure policy: its read and its write see the same row. */
    method ApplyJobFailurePolicy(id: JobId, retryable: bool, backoffSeconds: int, now: int) returns (status: JobStatus)
      modifies this
      ensures id !in old(rows) ==> rows == old(rows) && status == FailedTerminal
      ensures id in old(rows) ==>
        && rows == Updated(old(rows), id,
             FailureWrittenRow(old(rows)[id], Requeues(old(rows)[id], retryable), retryable, backoffSeconds, now))
        && status == rows[id].status
      ensures id in old(rows) ==> FailureIsSettled(old(rows)[id], retryable, backoffSeconds, now, rows[id])
      ensures OthersUntouched(old(rows), rows, id)
    {
      if id !in rows {
        return FailedTerminal;
      }
      var row := rows[id];
      FailureSettles(row, retryable, backoffSeconds, now);
      var retryBudgetRemaining := row.attempts < row.maxAttempts;
      if retryable && retryBudgetRemaining {
        rows := rows[id := Unlocked(row).(queue := QPending, status := WaitingForRetry,
                                          nextRunAt := now + backoffSeconds * MICROS_PER_SECOND)];
        return WaitingForRetry;
      }
      status := if retryable then FailedRetryable else FailedTerminal;
      rows := rows[id := Unlocked(row).(queue := QFailed, status := status)];
    }

    /** Two update statements run one after the other; the second no longer sees what the first unlocked. */
    method RecoverExpiredLeases(now: int) returns (retried: nat, failed: nat)
      modifies this
      ensures rows == Recovered(old(rows), now)
      ensures retried == |set id | id in old(rows) && RecoversToPending(old(rows)[id], now)|
      ensures failed == |set id | id in old(rows) && RecoversToFailed(old(rows)[id], now)|
      ensures retried + failed == |set id | id in old(rows) && IsExpired(old(rows)[id], now)|
      ensures forall id :: id in rows ==> !IsExpired(rows[id], now)
      ensures AllRecovered(old(rows), now, rows)
    {
      hide AllRecovered;
      RecoverySettles(rows, now);
      RecoveryIsComplete(rows, now);
      var toRetry := set id | id in rows && RecoversToPending(rows[id], now);
      rows := map id | id in rows ::
        if id in toRetry then Unlocked(rows[id]).(queue := QPending, status := WaitingForRetry) else rows[id];
      var toFail := set id | id in rows && RecoversToFailed(rows[id], now);
      rows := map id | id in rows ::
        if id in toFail then Unlocked(rows[id]).(queue := QFailed, status := FailedRetryable) else rows[id];
      assert toFail == set id | id in old(rows) && RecoversToFailed(old(rows)[id], now);
      retried, failed := |toRetry|, |toFail|;
    }
  }
}
