/** Without new jobs or manual retries the queue drains: every claim, finish and effective recovery
    uses up part of a finite measure. */
module LeaseDraining {
  import opened Wrappers
  import opened JobQueue
  import opened LeaseProtocol

  /** How many more queue events a row can still go through. */
  function Rank(r: Row): nat {
    match r.queue
    case QPending => 2 * Max(0, r.maxAttempts - r.attempts) + 2
    case QRunning => if r.attempts < r.maxAttempts then 2 * (r.maxAttempts - r.attempts) + 3 else 1
    case _ => 0
  }

  ghost function Total(t: Table): nat {
    if t == map[] then 0 else var id :| id in t; Rank(t[id]) + Total(t - {id})
  }

  lemma {:induction false} TotalPeel(t: Table, id: JobId)
    requires id in t
    ensures Total(t) == Rank(t[id]) + Total(t - {id})
    decreases |t|
  {
    var first :| first in t && Total(t) == Rank(t[first]) + Total(t - {first});
    if first != id {
      TotalPeel(t - {first}, id);
      TotalPeel(t - {id}, first);
      assert t - {first} - {id} == t - {id} - {first};
    }
  }

  lemma TotalUpdated(t: Table, id: JobId, r: Row)
    requires id in t
    ensures Total(t[id := r]) == Total(t) - Rank(t[id]) + Rank(r)
  {
    TotalPeel(t, id);
    TotalPeel(t[id := r], id);
    assert t[id := r] - {id} == t - {id};
  }

  lemma {:induction false} TotalMonotone(t: Table, u: Table)
    requires t.Keys == u.Keys && forall id :: id in t ==> Rank(u[id]) <= Rank(t[id])
    ensures Total(u) <= Total(t)
    ensures (exists id :: id in t && Rank(u[id]) < Rank(t[id])) ==> Total(u) < Total(t)
    decreases |t|
  {
    if t != map[] {
      var id :| id in t && ((exists other :: other in t && Rank(u[other]) < Rank(t[other])) ==> Rank(u[id]) < Rank(t[id]));
      TotalPeel(t, id);
      TotalPeel(u, id);
      TotalMonotone(t - {id}, u - {id});
    }
  }

  predicate AddsWork(step: Step) { step.Submit? || step.Retry? || step.StaleRetry? }

  /** A claim, a finish, or a recovery that changes a row. */
  predicate IsEvent(s: State, step: Step) {
    step.Claim? || step.Complete? || step.FailWrite? || (step.Recover? && Recovered(s.rows, s.now) != s.rows)
  }

  /** Writing a busy worker's or a claimed row costs rank exactly when the step is an event. */
  lemma WrittenRowRank(cfg: Config, s: State, step: Step)
    requires LeaseInv(cfg, s) && Enabled(cfg, s, step) && Considerate(s, step) && !AddsWork(step) && WrittenJob(s, step).Some?
    ensures WrittenJob(s, step).value in s.rows
    ensures var r := s.rows[WrittenJob(s, step).value];
            Rank(WrittenRow(cfg, s, step, r)) + (if IsEvent(s, step) then 1 else 0) <= Rank(r)
  {
    if !step.Claim? && !step.Cancel? {
      assert HoldsJob(cfg, s, step.w);
    }
  }

  /** A recovery that changes a row costs rank. */
  lemma RecoveryCost(rows: Table, now: int)
    ensures Total(Recovered(rows, now)) + (if Recovered(rows, now) != rows then 1 else 0) <= Total(rows)
  {
    var after := Recovered(rows, now);
    forall id | id in rows ensures after[id] == rows[id] || Rank(after[id]) < Rank(rows[id]) {
    }
    if after != rows {
      var id :| id in rows && after[id] != rows[id];
    }
    TotalMonotone(rows, after);
  }

  lemma EventsCost(cfg: Config, s: State, step: Step)
    requires LeaseInv(cfg, s) && Enabled(cfg, s, step) && Considerate(s, step) && !AddsWork(step)
    ensures Total(After(cfg, s, step).rows) + (if IsEvent(s, step) then 1 else 0) <= Total(s.rows)
  {
    if step.Recover? {
      RecoveryCost(s.rows, s.now);
    } else if WrittenJob(s, step).Some? {
      WrittenRowRank(cfg, s, step);
      var id := WrittenJob(s, step).value;
      TotalUpdated(s.rows, id, WrittenRow(cfg, s, step, s.rows[id]));
    }
  }

  function Events(cfg: Config, s: State, steps: seq<Step>): nat
    requires Executable(cfg, s, steps)
    decreases |steps|
  {
    if steps == [] then 0
    else (if IsEvent(s, steps[0]) then 1 else 0) + Events(cfg, After(cfg, s, steps[0]), steps[1..])
  }

  predicate OnlyDrains(steps: seq<Step>) {
    forall i :: 0 <= i < |steps| ==> !AddsWork(steps[i])
  }

  /** From any reachable state, at most `Total` queue events can happen before new work arrives. */
  lemma {:induction false} QueueDrains(cfg: Config, s: State, steps: seq<Step>)
    requires RenewsInTime(cfg) && LeaseInv(cfg, s) && Executable(cfg, s, steps)
    requires ConsiderateRun(cfg, s, steps) && OnlyDrains(steps)
    ensures Events(cfg, s, steps) + Total(Run(cfg, s, steps).rows) <= Total(s.rows)
    decreases |steps|
  {
    if steps != [] {
      assert !AddsWork(steps[0]);
      EventsCost(cfg, s, steps[0]);
      LeaseInvStep(cfg, s, steps[0]);
      QueueDrains(cfg, After(cfg, s, steps[0]), steps[1..]);
    }
  }
}
