/** Usage accounting of `src/rulekiln/db/repositories/model_calls.py`: an insert-once event store and its summary. */
module ModelCalls {
  import opened Wrappers

  datatype Role = Teacher | Student | Embedding | Judge

  datatype Event = Event(
    id: string,
    job: string,
    role: Role,
    key: Option<string>,
    inputTokens: Option<int>,
    outputTokens: Option<int>,
    totalTokens: Option<int>,
    cost: real,
    usageEstimated: bool,
    costEstimated: bool)

  // ── Insert once per key ──────────────────────────────────────────────────

  predicate Repeats(e: Event, seen: set<string>) {
    e.key.Some? && e.key.value in seen
  }

  function KeySet(e: Event): set<string> {
    if e.key.Some? then {e.key.value} else {}
  }

  /** The first event for each key not seen before; events without a key are all kept. */
  function FirstPerKey(seen: set<string>, events: seq<Event>): seq<Event>
    decreases |events|
  {
    if events == [] then []
    else if Repeats(events[0], seen) then FirstPerKey(seen, events[1..])
    else [events[0]] + FirstPerKey(seen + KeySet(events[0]), events[1..])
  }

  function Keys(events: seq<Event>): set<string> {
    set e | e in events && e.key.Some? :: e.key.value
  }

  /** No key is stored twice. */
  ghost predicate KeysUnique(events: seq<Event>) {
    forall i, j :: 0 <= i < j < |events| && events[i].key.Some? ==> events[i].key != events[j].key
  }

  lemma KeysConcat(a: seq<Event>, b: seq<Event>)
    ensures Keys(a + b) == Keys(a) + Keys(b)
  {
    forall k ensures k in Keys(a + b) <==> k in Keys(a) + Keys(b) {
      if k in Keys(a) + Keys(b) {
        var e :| (e in a || e in b) && e.key == Some(k);
        assert e in a + b;
      }
    }
  }

  lemma {:induction false} FirstPerKeyKeys(seen: set<string>, events: seq<Event>)
    ensures Keys(FirstPerKey(seen, events)) == Keys(events) - seen
    ensures KeysUnique(FirstPerKey(seen, events))
    decreases |events|
  {
    if events != [] {
      var e := events[0];
      KeysConcat([e], events[1..]);
      assert [e] + events[1..] == events && Keys([e]) == KeySet(e);
      if Repeats(e, seen) {
        FirstPerKeyKeys(seen, events[1..]);
      } else {
        var rest := FirstPerKey(seen + KeySet(e), events[1..]);
        FirstPerKeyKeys(seen + KeySet(e), events[1..]);
        KeysConcat([e], rest);
        forall j | 0 <= j < |rest| && e.key.Some? ensures rest[j].key != e.key {
          assert rest[j].key.Some? ==> rest[j].key.value in Keys(rest);
        }
      }
    }
  }

  /** An event is kept exactly if it has no key, or its key was not seen and no earlier event has it; in particular the
      first event with a key wins. */
  lemma {:induction false} FirstPerKeyMeans(seen: set<string>, events: seq<Event>, e: Event)
    ensures e in FirstPerKey(seen, events) <==> exists i :: 0 <= i < |events| && events[i] == e && IsFirst(seen, events, i)
    ensures e.key.None? ==> multiset(FirstPerKey(seen, events))[e] == multiset(events)[e]
    decreases |events|
  {
    if events != [] {
      var first, rest := events[0], events[1..];
      assert events == [first] + rest;
      var now := if Repeats(first, seen) then seen else seen + KeySet(first);
      FirstPerKeyMeans(now, rest, e);
      forall i | 0 <= i < |rest| ensures IsFirst(now, rest, i) <==> IsFirst(seen, events, i + 1) {
        FirstAfter(seen, events, i);
      }
      if e in FirstPerKey(now, rest) {
        var i :| 0 <= i < |rest| && rest[i] == e && IsFirst(now, rest, i);
        assert events[i + 1] == e && IsFirst(seen, events, i + 1);
      }
      if e == first && !Repeats(first, seen) {
        assert IsFirst(seen, events, 0);
      }
      if i :| 0 <= i < |events| && events[i] == e && IsFirst(seen, events, i) {
        assert i > 0 ==> rest[i - 1] == e && IsFirst(now, rest, i - 1);
      }
    }
  }

  predicate IsFirst(seen: set<string>, events: seq<Event>, i: nat)
    requires i < |events|
  {
    events[i].key.Some? ==> events[i].key.value !in seen && forall j | 0 <= j < i :: events[j].key != events[i].key
  }

  lemma FirstAfter(seen: set<string>, events: seq<Event>, i: nat)
    requires i + 1 < |events|
    ensures var now := if Repeats(events[0], seen) then seen else seen + KeySet(events[0]);
            IsFirst(now, events[1..], i) <==> IsFirst(seen, events, i + 1)
  {
    var x := events[i + 1];
    if x.key.Some? {
      assert (forall j | 0 <= j < i + 1 :: events[j].key != x.key)
        <==> events[0].key != x.key && forall j | 0 <= j < i :: events[1..][j].key != x.key by {
        forall j | 0 <= j < i + 1 && (forall h | 0 <= h < i :: events[1..][h].key != x.key) && events[0].key != x.key
          ensures events[j].key != x.key
        {
          assert j > 0 ==> events[j] == events[1..][j - 1];
        }
        forall j | 0 <= j < i ensures events[1..][j] == events[j + 1] {}
      }
    }
  }

  /** Deduplicating within a batch and then against the table is one pass that starts from the table's keys. */
  lemma {:induction false} DedupeThenFilter(seen: set<string>, stored: set<string>, events: seq<Event>)
    ensures NotStored(FirstPerKey(seen, events), stored) == FirstPerKey(seen + stored, events)
    decreases |events|
  {
    if events != [] {
      var e := events[0];
      if Repeats(e, seen) {
        DedupeThenFilter(seen, stored, events[1..]);
      } else {
        DedupeThenFilter(seen + KeySet(e), stored, events[1..]);
        if Repeats(e, stored) {
          assert seen + KeySet(e) + stored == seen + stored;
        } else {
          assert seen + KeySet(e) + stored == seen + stored + KeySet(e);
        }
      }
    }
  }

  function NotStored(events: seq<Event>, stored: set<string>): seq<Event> {
    if events == [] then []
    else (if Repeats(events[0], stored) then [] else [events[0]]) + NotStored(events[1..], stored)
  }

  lemma {:induction false} FirstPerKeyConcat(seen: set<string>, a: seq<Event>, b: seq<Event>)
    ensures FirstPerKey(seen, a + b) == FirstPerKey(seen, a) + FirstPerKey(seen + Keys(a), b)
    decreases |a|
  {
    if a == [] {
      assert a + b == b && seen + Keys(a) == seen;
    } else {
      var e := a[0];
      assert (a + b)[0] == e && (a + b)[1..] == a[1..] + b;
      KeysConcat([e], a[1..]);
      assert [e] + a[1..] == a && Keys([e]) == KeySet(e);
      if Repeats(e, seen) {
        FirstPerKeyConcat(seen, a[1..], b);
        assert seen + Keys(a[1..]) == seen + Keys(a);
      } else {
        FirstPerKeyConcat(seen + KeySet(e), a[1..], b);
        assert seen + KeySet(e) + Keys(a[1..]) == seen + Keys(a);
      }
    }
  }

  function Flatten(batches: seq<seq<Event>>): seq<Event> {
    if batches == [] then [] else Flatten(batches[..|batches| - 1]) + batches[|batches| - 1]
  }

  lemma FirstPerKeyStep(seen: set<string>, events: seq<Event>)
    requires events != []
    ensures FirstPerKey(seen, events) ==
      if Repeats(events[0], seen) then FirstPerKey(seen, events[1..])
      else [events[0]] + FirstPerKey(seen + KeySet(events[0]), events[1..])
  {
  }

  method DedupeEventsByKey(events: seq<Event>) returns (deduped: seq<Event>)
    ensures deduped == FirstPerKey({}, events)
  {
    hide FirstPerKey;
    var seen: set<string> := {};
    deduped := [];
    for i := 0 to |events|
      invariant deduped + FirstPerKey(seen, events[i..]) == FirstPerKey({}, events)
    {
      var key := events[i].key;
      assert events[i..][1..] == events[i + 1..];
      FirstPerKeyStep(seen, events[i..]);
      if key.Some? {
        if key.value in seen {
          continue;
        }
        seen := seen + {key.value};
      } else {
        assert seen + KeySet(events[i]) == seen;
      }
      deduped := deduped + [events[i]];
    }
    NothingLeft(seen, events[|events|..]);
  }

  lemma NothingLeft(seen: set<string>, events: seq<Event>)
    requires events == []
    ensures FirstPerKey(seen, events) == []
  {
  }

  /** The `model_call_events` table. */
  class EventTable {
    var events: seq<Event>

    constructor ()
      ensures events == []
    {
      events := [];
    }

    method GetExistingIdempotencyKeys(batch: seq<Event>) returns (existing: set<string>)
      ensures existing == Keys(events) * Keys(batch)
    {
      existing := set e | e in events && e.key.Some? && e.key.value in Keys(batch) :: e.key.value;
    }

    method BulkInsertModelCallEvents(records: seq<Event>)
      modifies this
      ensures events == old(events) + FirstPerKey(Keys(old(events)), records)
    {
      if records == [] {
        return;
      }
      var deduped := DedupeEventsByKey(records);
      var existing := GetExistingIdempotencyKeys(deduped);
      var insertable: seq<Event> := [];
      for i := 0 to |deduped|
        invariant insertable == NotStored(deduped[..i], existing)
        invariant events == old(events)
      {
        NotStoredSnoc(deduped[..i], deduped[i], existing);
        assert deduped[..i] + [deduped[i]] == deduped[..i + 1];
        if deduped[i].key.None? || deduped[i].key.value !in existing {
          insertable := insertable + [deduped[i]];
        }
      }
      assert deduped[..|deduped|] == deduped;
      NotStoredRelevant(deduped, existing, Keys(events));
      DedupeThenFilter({}, Keys(events), records);
      assert {} + Keys(events) == Keys(events);
      if insertable == [] {
        return;
      }
      events := events + insertable;
    }
  }

  lemma {:induction false} NotStoredSnoc(events: seq<Event>, e: Event, stored: set<string>)
    ensures NotStored(events + [e], stored) == NotStored(events, stored) + if Repeats(e, stored) then [] else [e]
  {
    if events != [] {
      assert (events + [e])[1..] == events[1..] + [e];
      NotStoredSnoc(events[1..], e, stored);
    } else {
      assert (events + [e])[1..] == [];
    }
  }

  lemma {:induction false} NotStoredRelevant(events: seq<Event>, some: set<string>, all: set<string>)
    requires forall e :: e in events && e.key.Some? ==> (e.key.value in some <==> e.key.value in all)
    ensures NotStored(events, some) == NotStored(events, all)
  {
    if events != [] {
      assert events[0] in events;
      NotStoredRelevant(events[1..], some, all);
    }
  }

  /** Any sequence of persist calls, with repeats and overlaps, stores the first record for each key
      of everything ever submitted, and no key twice. */
  method PersistAll(batches: seq<seq<Event>>) returns (table: EventTable)
    ensures table.events == FirstPerKey({}, Flatten(batches))
    ensures KeysUnique(table.events)
  {
    table := new EventTable();
    for i := 0 to |batches|
      invariant fresh(table) && table.events == FirstPerKey({}, Flatten(batches[..i]))
    {
      var before := Flatten(batches[..i]);
      FirstPerKeyKeys({}, before);
      FirstPerKeyConcat({}, before, batches[i]);
      assert batches[..i + 1][..i] == batches[..i];
      assert {} + Keys(before) == Keys(before) - {};
      table.BulkInsertModelCallEvents(batches[i]);
    }
    assert batches[..|batches|] == batches;
    FirstPerKeyKeys({}, Flatten(batches));
  }

  /** Persisting a keyed batch again, after any other batches, inserts nothing. */
  lemma {:induction false} RepersistIsNoOp(stored: set<string>, batch: seq<Event>)
    requires (forall e :: e in batch ==> e.key.Some?) && Keys(batch) <= stored
    ensures FirstPerKey(stored, batch) == []
  {
    if batch != [] {
      assert batch[0] in batch;
      assert batch[0].key.value in Keys(batch);
      assert Keys(batch[1..]) <= Keys(batch);
      RepersistIsNoOp(stored, batch[1..]);
    }
  }

  // ── Summary ──────────────────────────────────────────────────────────────

  datatype Totals = Totals(input: int, output: int, tokens: int, cost: real, calls: nat)

  const NoUsage: Totals := Totals(0, 0, 0, 0.0, 0)

  function OrZero(n: Option<int>): int { if n.Some? then n.value else 0 }

  /** A missing or zero total falls back to input plus output. */
  function UsageOf(e: Event): Totals {
    var total := if OrZero(e.totalTokens) != 0 then e.totalTokens.value else OrZero(e.inputTokens) + OrZero(e.outputTokens);
    Totals(OrZero(e.inputTokens), OrZero(e.outputTokens), total, e.cost, 1)
  }

  function Plus(a: Totals, b: Totals): Totals {
    Totals(a.input + b.input, a.output + b.output, a.tokens + b.tokens, a.cost + b.cost, a.calls + b.calls)
  }

  function Usage(events: seq<Event>): Totals {
    if events == [] then NoUsage else Plus(Usage(events[..|events| - 1]), UsageOf(events[|events| - 1]))
  }

  /** The usage of one role's events; it counts no call exactly when the role does not occur. */
  function RoleUsage(events: seq<Event>, role: Role): Totals {
    if events == [] then NoUsage
    else
      var rest := RoleUsage(events[..|events| - 1], role);
      if events[|events| - 1].role == role then Plus(rest, UsageOf(events[|events| - 1])) else rest
  }

  function OfJob(events: seq<Event>, job: string): seq<Event> {
    if events == [] then []
    else OfJob(events[..|events| - 1], job)
         + if events[|events| - 1].job == job then [events[|events| - 1]] else []
  }

  lemma UsageSnoc(events: seq<Event>, e: Event)
    ensures Usage(events + [e]) == Plus(Usage(events), UsageOf(e))
  {
    assert (events + [e])[..|events|] == events;
  }

  /** One more event changes the bucket of its own role only. */
  lemma RoleUsageSnoc(events: seq<Event>, e: Event, role: Role)
    ensures RoleUsage(events + [e], role) ==
      if e.role == role then Plus(RoleUsage(events, role), UsageOf(e)) else RoleUsage(events, role)
  {
    assert (events + [e])[..|events|] == events;
  }

  function Sum4(a: Totals, b: Totals, c: Totals, d: Totals): Totals { Plus(Plus(a, b), Plus(c, d)) }

  function UsageOverRoles(events: seq<Event>): Totals {
    Sum4(RoleUsage(events, Teacher), RoleUsage(events, Student), RoleUsage(events, Embedding), RoleUsage(events, Judge))
  }

  lemma Sum4Absorbs(a: Totals, b: Totals, c: Totals, d: Totals, e: Totals)
    ensures Plus(Sum4(a, b, c, d), e) == Sum4(Plus(a, e), b, c, d)
    ensures Plus(Sum4(a, b, c, d), e) == Sum4(a, Plus(b, e), c, d)
    ensures Plus(Sum4(a, b, c, d), e) == Sum4(a, b, Plus(c, e), d)
    ensures Plus(Sum4(a, b, c, d), e) == Sum4(a, b, c, Plus(d, e))
  {
  }

  lemma UsageOverRolesSnoc(events: seq<Event>, e: Event)
    ensures UsageOverRoles(events + [e]) == Plus(UsageOverRoles(events), UsageOf(e))
  {
    var t, s := RoleUsage(events, Teacher), RoleUsage(events, Student);
    var m, j := RoleUsage(events, Embedding), RoleUsage(events, Judge);
    RoleUsageSnoc(events, e, Teacher);
    RoleUsageSnoc(events, e, Student);
    RoleUsageSnoc(events, e, Embedding);
    RoleUsageSnoc(events, e, Judge);
    Sum4Absorbs(t, s, m, j, UsageOf(e));
    match e.role
    case Teacher => assert UsageOverRoles(events + [e]) == Sum4(Plus(t, UsageOf(e)), s, m, j);
    case Student => assert UsageOverRoles(events + [e]) == Sum4(t, Plus(s, UsageOf(e)), m, j);
    case Embedding => assert UsageOverRoles(events + [e]) == Sum4(t, s, Plus(m, UsageOf(e)), j);
    case Judge => assert UsageOverRoles(events + [e]) == Sum4(t, s, m, Plus(j, UsageOf(e)));
  }

  lemma NoEventsNoRoleUsage(events: seq<Event>, role: Role)
    requires events == []
    ensures RoleUsage(events, role) == NoUsage
  {
  }

  lemma NoEventsNoUsage(events: seq<Event>)
    requires events == []
    ensures UsageOverRoles(events) == NoUsage
  {
    NoEventsNoRoleUsage(events, Teacher);
    NoEventsNoRoleUsage(events, Student);
    NoEventsNoRoleUsage(events, Embedding);
    NoEventsNoRoleUsage(events, Judge);
  }

  lemma TotalsSnoc(events: seq<Event>, e: Event)
    requires Usage(events) == UsageOverRoles(events)
    ensures Usage(events + [e]) == UsageOverRoles(events + [e])
  {
    UsageSnoc(events, e);
    UsageOverRolesSnoc(events, e);
  }

  /** The overall totals are the sum of the four role buckets. */
  lemma {:induction false} TotalsAreSumOverRoles(events: seq<Event>)
    ensures Usage(events) == UsageOverRoles(events)
  {
    if events != [] {
      var init, e := events[..|events| - 1], events[|events| - 1];
      TotalsAreSumOverRoles(init);
      TotalsSnoc(init, e);
      assert events == init + [e];
    } else {
      NoEventsNoUsage(events);
    }
  }

  /** The sum of a number over events. */
  function Sum(events: seq<Event>, of: Event -> int): int {
    if events == [] then 0 else of(events[0]) + Sum(events[1..], of)
  }

  function SumCosts(events: seq<Event>): real {
    if events == [] then 0.0 else events[0].cost + SumCosts(events[1..])
  }

  lemma {:induction false} SumSnoc(events: seq<Event>, e: Event, of: Event -> int)
    ensures Sum(events + [e], of) == Sum(events, of) + of(e)
    ensures SumCosts(events + [e]) == SumCosts(events) + e.cost
  {
    if events == [] {
      assert (events + [e])[1..] == [];
    } else {
      assert (events + [e])[1..] == events[1..] + [e];
      SumSnoc(events[1..], e, of);
    }
  }

  /** The tokens an event counts for: its recorded total, or what went in and out where none is recorded. */
  predicate CountsFor(e: Event, tokens: int) {
    match e.totalTokens
    case Some(total) => if total != 0 then tokens == total else tokens == Spent(e.inputTokens) + Spent(e.outputTokens)
    case None => tokens == Spent(e.inputTokens) + Spent(e.outputTokens)
  }

  function Spent(tokens: Option<int>): int {
    match tokens
    case Some(n) => n
    case None => 0
  }

  /** The totals are sums over the events, field by field. */
  lemma {:induction false} UsageMeans(events: seq<Event>, tokens: Event -> int)
    requires forall e :: CountsFor(e, tokens(e))
    ensures var total := Usage(events);
            && total.input == Sum(events, (e: Event) => Spent(e.inputTokens))
            && total.output == Sum(events, (e: Event) => Spent(e.outputTokens))
            && total.tokens == Sum(events, tokens) && total.cost == SumCosts(events) && total.calls == |events|
  {
    if events != [] {
      var init, e := events[..|events| - 1], events[|events| - 1];
      UsageMeans(init, tokens);
      assert events == init + [e];
      SumSnoc(init, e, (e: Event) => Spent(e.inputTokens));
      SumSnoc(init, e, (e: Event) => Spent(e.outputTokens));
      SumSnoc(init, e, tokens);
      assert CountsFor(e, tokens(e));
    }
  }

  /** A summary looks at all events of its job, and at no other. */
  lemma {:induction false} OfJobMeans(events: seq<Event>, job: string, e: Event)
    ensures multiset(OfJob(events, job))[e] == if e.job == job then multiset(events)[e] else 0
  {
    if events != [] {
      var init, last := events[..|events| - 1], events[|events| - 1];
      OfJobMeans(init, job, e);
      assert events == init + [last];
    }
  }

  lemma EstimatedMeans(events: seq<Event>, job: string)
    ensures (exists e :: e in OfJob(events, job) && IsEstimated(e))
       <==> exists e :: e in events && e.job == job && (e.usageEstimated || e.costEstimated)
  {
    hide OfJob;
    forall e ensures e in OfJob(events, job) <==> e in events && e.job == job {
      OfJobMeans(events, job, e);
    }
  }

  function BucketCost(byRole: map<Role, Totals>, role: Role): real {
    if role in byRole then byRole[role].cost else 0.0
  }

  predicate IsEstimated(e: Event) { e.usageEstimated || e.costEstimated }

  lemma {:induction false} AbsentRole(events: seq<Event>, role: Role)
    ensures (forall e :: e in events ==> e.role != role) ==> RoleUsage(events, role) == NoUsage
  {
    if events != [] {
      AbsentRole(events[..|events| - 1], role);
    }
  }

  /** The buckets hold exactly the roles that occur, each with its own usage. */
  ghost predicate BucketsOf(byRole: map<Role, Totals>, events: seq<Event>) {
    && (forall role :: role in byRole <==> exists e :: e in events && e.role == role)
    && (forall role :: role in byRole ==> byRole[role] == RoleUsage(events, role))
  }

  lemma BucketsNext(byRole: map<Role, Totals>, events: seq<Event>, e: Event)
    requires BucketsOf(byRole, events)
    ensures BucketsOf(
      byRole[e.role := Plus(if e.role in byRole then byRole[e.role] else NoUsage, UsageOf(e))], events + [e])
  {
    var updated := byRole[e.role := Plus(if e.role in byRole then byRole[e.role] else NoUsage, UsageOf(e))];
    forall role
      ensures role in updated <==> exists x :: x in events + [e] && x.role == role
      ensures role in updated ==> updated[role] == RoleUsage(events + [e], role)
    {
      RoleUsageSnoc(events, e, role);
      AbsentRole(events, role);
      if role in byRole {
        var x :| x in events && x.role == role;
        assert x in events + [e];
      }
    }
  }

  lemma BucketCostsSum(byRole: map<Role, Totals>, events: seq<Event>)
    requires BucketsOf(byRole, events)
    ensures Usage(events).cost == BucketCost(byRole, Teacher) + BucketCost(byRole, Student)
                                + BucketCost(byRole, Embedding) + BucketCost(byRole, Judge)
  {
    TotalsAreSumOverRoles(events);
    forall role ensures BucketCost(byRole, role) == RoleUsage(events, role).cost {
      AbsentRole(events, role);
    }
  }

  method SummarizeModelCallEvents(table: EventTable, job: string)
    returns (total: Totals, byRole: map<Role, Totals>, hasEstimated: bool)
    ensures total == Usage(OfJob(table.events, job))
    ensures BucketsOf(byRole, OfJob(table.events, job))
    ensures hasEstimated <==> exists e :: e in table.events && e.job == job && (e.usageEstimated || e.costEstimated)
    ensures total.cost == BucketCost(byRole, Teacher) + BucketCost(byRole, Student)
                        + BucketCost(byRole, Embedding) + BucketCost(byRole, Judge)
  {
    hide OfJob;
    var events := OfJob(table.events, job);
    total, byRole, hasEstimated := NoUsage, map[], false;
    for i := 0 to |events|
      invariant total == Usage(events[..i])
      invariant BucketsOf(byRole, events[..i])
      invariant hasEstimated <==> exists e :: e in events[..i] && IsEstimated(e)
    {
      var e := events[i];
      assert events[..i + 1] == events[..i] + [e];
      UsageSnoc(events[..i], e);
      BucketsNext(byRole, events[..i], e);
      total := Plus(total, UsageOf(e));
      hasEstimated := hasEstimated || IsEstimated(e);
      var bucket := if e.role in byRole then byRole[e.role] else NoUsage;
      byRole := byRole[e.role := Plus(bucket, UsageOf(e))];
    }
    assert events[..|events|] == events;
    BucketCostsSum(byRole, events);
    EstimatedMeans(table.events, job);
  }
}
