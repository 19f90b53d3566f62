/** Sequential extraction, `src/rulekiln/workers/distillation_worker.py`: one run over the training cases that may
    die before any commit, and what the next run can rely on. */
module Extraction {
  import opened Wrappers
  import opened Sorting
  import opened Markers
  import opened CompileStore

  function MicroRulesFrom(p: Plan, caseId: string, reply: seq<string>, start: nat): (rows: seq<MicroRule>)
    ensures |rows| == |reply|
  {
    seq(|reply|, i requires 0 <= i < |reply| => MicroRule(p.uuid(start + i), DbCaseId(p.job, caseId), reply[i]))
  }

  method BuildMicroRules(p: Plan, caseId: string, reply: seq<string>, start: nat) returns (rows: seq<MicroRule>)
    ensures rows == MicroRulesFrom(p, caseId, reply, start)
  {
    rows := [];
    for i := 0 to |reply|
      invariant rows == MicroRulesFrom(p, caseId, reply, start)[..i]
    {
      rows := rows + [MicroRule(p.uuid(start + i), DbCaseId(p.job, caseId), reply[i])];
    }
  }

  // ── What one commit does to the invariant ────────────────────────────────

  lemma InsertStep(p: Plan, markers: set<Marker>, rows: seq<MicroRule>, replies: seq<seq<string>>,
                   reply: seq<string>, log: seq<Call>)
    requires ExtractionInv(p, markers, rows, replies, log) && EXTRACTED !in markers
    requires |replies| < |p.cases| && Call(ExtractCase(p.cases[|replies|]), Some(reply)) in log && reply != []
    requires p.gives(p.cases[|replies|], reply)
    ensures ExtractionInv(p, markers, rows + MicroRulesFrom(p, p.cases[|replies|], reply, |rows|), replies + [reply], log)
  {
    var caseId := p.cases[|replies|];
    var added := MicroRulesFrom(p, caseId, reply, |rows|);
    BlocksNext(CaseBlock(p.job), p.cases, replies, reply);
    assert Contents(added) == CaseBlock(p.job)(caseId, reply);
    assert Contents(rows + added) == Contents(rows) + Contents(added);
  }

  lemma MarkStep(p: Plan, markers: set<Marker>, replies: seq<seq<string>>, i: nat)
    requires p.Valid() && CasesMarked(p, markers, replies) && i < |replies| && i < |p.cases|
    ensures CasesMarked(p, markers + {CaseMarker(p.cases[i])}, replies)
  {
    forall j | 0 <= j < |p.cases| && CaseMarker(p.cases[j]) == CaseMarker(p.cases[i]) ensures j == i {
      CaseMarkerInjective(p.cases[j], p.cases[i]);
    }
  }

  lemma MarkEmptyStep(p: Plan, markers: set<Marker>, rows: seq<MicroRule>, replies: seq<seq<string>>, log: seq<Call>)
    requires p.Valid() && ExtractionInv(p, markers, rows, replies, log) && EXTRACTED !in markers
    requires |replies| < |p.cases| && Call(ExtractCase(p.cases[|replies|]), Some([])) in log
    requires p.gives(p.cases[|replies|], [])
    ensures ExtractionInv(p, markers + {CaseMarker(p.cases[|replies|])}, rows, replies + [[]], log)
  {
    var n := |replies|;
    BlocksNext(CaseBlock(p.job), p.cases, replies, []);
    assert CaseBlock(p.job)(p.cases[n], []) == [];
    forall j | 0 <= j < |p.cases| && CaseMarker(p.cases[j]) == CaseMarker(p.cases[n]) ensures j == n {
      CaseMarkerInjective(p.cases[j], p.cases[n]);
    }
  }

  // ── One case ─────────────────────────────────────────────────────────────

  /** The reply has rules: their rows go in with one commit, the marker of the case with the next. */
  method StoreRules(db: Database, ghost log: seq<Call>, i: nat, reply: seq<string>, budget: nat)
    returns (left: nat, crashed: bool)
    requires db.Inv(log) && EXTRACTED !in db.markers && i == |db.extracted| < |db.plan.cases|
    requires Call(ExtractCase(db.plan.cases[i]), Some(reply)) in log && reply != []
    requires db.plan.gives(db.plan.cases[i], reply)
    modifies db
    ensures db.Inv(log) && EXTRACTED !in db.markers
    ensures db.synthesized == old(db.synthesized) && db.consolidated == old(db.consolidated) && old(db.markers) <= db.markers
    ensures i <= |db.extracted| && (!crashed ==> |db.extracted| == i + 1)
    ensures crashed ==> left == 0
    ensures Progress(db) - old(Progress(db)) >= budget - left
    ensures 0 <= budget - left <= 2
  {
    hide RowsSourced, PrefixClosed, Marked;
    var caseId := db.plan.cases[i];
    var rows := BuildMicroRules(db.plan, caseId, reply, |db.microRules|);
    InsertStep(db.plan, db.markers, db.microRules, db.extracted, reply, log);
    left, crashed := db.InsertMicroRules(rows, budget);
    if crashed {
      return;
    }
    db.extracted := db.extracted + [reply];
    left, crashed := MarkCase(db, log, i, left);
  }

  method MarkCase(db: Database, ghost log: seq<Call>, i: nat, budget: nat) returns (left: nat, crashed: bool)
    requires db.Inv(log) && EXTRACTED !in db.markers && i < |db.extracted|
    modifies db`markers
    ensures db.Inv(log) && EXTRACTED !in db.markers && old(db.markers) <= db.markers
    ensures crashed ==> left == 0
    ensures Progress(db) - old(Progress(db)) >= budget - left
    ensures 0 <= budget - left <= 1
  {
    hide PrefixClosed, Marked;
    var caseId := db.plan.cases[i];
    MarkStep(db.plan, db.markers, db.extracted, i);
    ArtifactKeepsPrefix(db.markers, CaseMarker(caseId));
    left, crashed := db.MarkStageComplete(CaseMarker(caseId), budget);
  }

  /** The reply has no rules: only the marker settles the case. */
  method StoreNothing(db: Database, ghost log: seq<Call>, i: nat, budget: nat) returns (left: nat, crashed: bool)
    requires db.Inv(log) && EXTRACTED !in db.markers && i == |db.extracted| < |db.plan.cases|
    requires Call(ExtractCase(db.plan.cases[i]), Some([])) in log && db.plan.gives(db.plan.cases[i], [])
    modifies db
    ensures db.Inv(log) && EXTRACTED !in db.markers
    ensures db.synthesized == old(db.synthesized) && db.consolidated == old(db.consolidated) && old(db.markers) <= db.markers
    ensures i <= |db.extracted| && (!crashed ==> |db.extracted| == i + 1)
    ensures crashed ==> left == 0
    ensures Progress(db) - old(Progress(db)) >= budget - left
    ensures 0 <= budget - left <= 1
  {
    hide RowsSourced, PrefixClosed, Marked;
    var caseId := db.plan.cases[i];
    MarkEmptyStep(db.plan, db.markers, db.microRules, db.extracted, log);
    ArtifactKeepsPrefix(db.markers, CaseMarker(caseId));
    left, crashed := db.MarkStageComplete(CaseMarker(caseId), budget);
    if !crashed {
      db.extracted := db.extracted + [[]];
    }
  }

  method ExtractOne(db: Database, teacher: Teacher, i: nat, budget: nat) returns (left: nat, crashed: bool)
    requires Fits(db.plan, teacher.script)
    requires db.Inv(teacher.log) && EXTRACTED !in db.markers && i == |db.extracted| < |db.plan.cases|
    modifies db, teacher
    ensures db.Inv(teacher.log) && EXTRACTED !in db.markers
    ensures db.synthesized == old(db.synthesized) && db.consolidated == old(db.consolidated) && old(db.markers) <= db.markers
    ensures |teacher.log| == |old(teacher.log)| + 1 && i <= |db.extracted| && (!crashed ==> |db.extracted| == i + 1)
    ensures crashed ==> Died(left, old(Raised(teacher.log)), teacher.log)
    ensures Raised(teacher.log) >= old(Raised(teacher.log))
    ensures Progress(db) - old(Progress(db)) >= budget - left
    ensures 0 <= budget - left <= 2
  {
    hide Database.Inv, Progress;
    ghost var log := teacher.log;
    var reply := teacher.Ask(ExtractCase(db.plan.cases[i]));
    LogGrows(db, log, Call(ExtractCase(db.plan.cases[i]), reply));
    if reply.None? {
      return budget, true;
    }
    if reply.value != [] {
      left, crashed := StoreRules(db, teacher.log, i, reply.value, budget);
    } else {
      left, crashed := StoreNothing(db, teacher.log, i, budget);
    }
  }

  // ── One attempt at the stage ─────────────────────────────────────────────

  function StoredCaseIds(job: string, rows: seq<MicroRule>): set<string> {
    set r | r in rows :: PayloadCaseId(job, r.caseId)
  }

  /** The case ids read back from the stored rows are those of the settled cases that got rules. */
  lemma StoredCases(p: Plan, rows: seq<MicroRule>, replies: seq<seq<string>>, log: seq<Call>)
    requires p.Valid() && RowsSourced(p, rows, replies, log)
    ensures forall i :: 0 <= i < |p.cases| ==> (p.cases[i] in StoredCaseIds(p.job, rows) <==> i < |replies| && replies[i] != [])
  {
    forall i | 0 <= i < |p.cases| ensures p.cases[i] in StoredCaseIds(p.job, rows) <==> i < |replies| && replies[i] != [] {
      StoredCase(p, rows, replies, log, i);
    }
  }

  lemma StoredCase(p: Plan, rows: seq<MicroRule>, replies: seq<seq<string>>, log: seq<Call>, i: nat)
    requires p.Valid() && RowsSourced(p, rows, replies, log) && i < |p.cases|
    ensures p.cases[i] in StoredCaseIds(p.job, rows) <==> i < |replies| && replies[i] != []
  {
    if i < |replies| && replies[i] != [] {
      var c := (DbCaseId(p.job, p.cases[i]), replies[i][0]);
      assert CaseBlock(p.job)(p.cases[i], replies[i])[0] == c;
      BlocksMembers(CaseBlock(p.job), p.cases, replies, c);
      var k :| 0 <= k < |rows| && Contents(rows)[k] == c;
      PayloadOfDb(p.job, p.cases[i]);
      assert rows[k] in rows;
    }
    if p.cases[i] in StoredCaseIds(p.job, rows) {
      var r :| r in rows && PayloadCaseId(p.job, r.caseId) == p.cases[i];
      var k :| 0 <= k < |rows| && rows[k] == r;
      assert Contents(rows)[k] == (r.caseId, r.body);
      BlocksMembers(CaseBlock(p.job), p.cases, replies, (r.caseId, r.body));
      var j :| 0 <= j < |replies| && (r.caseId, r.body) in CaseBlock(p.job)(p.cases[j], replies[j]);
      PayloadOfDb(p.job, p.cases[j]);
      assert j == i;
    }
  }

  /** The stage marker goes in when every case is settled. */
  lemma CompleteStep(p: Plan, markers: set<Marker>, rows: seq<MicroRule>, replies: seq<seq<string>>, log: seq<Call>)
    requires ExtractionInv(p, markers, rows, replies, log) && |replies| == |p.cases| && EXTRACTED !in markers
    requires SynthesisInv(p, markers, rows, [], [], log)
    requires PrefixClosed(markers) && StageMarker(ValidatingProject) in markers
    ensures ExtractionInv(p, markers + {EXTRACTED}, rows, replies, log)
    ensures SynthesisInv(p, markers + {EXTRACTED}, rows, [], [], log) && PrefixClosed(markers + {EXTRACTED})
  {
    assert forall i :: 0 <= i < |p.cases| ==> CaseMarker(p.cases[i]) != EXTRACTED;
    assert Blocks(ItemBlock, Items(p, rows), []) == [];
    NextKeepsPrefix(markers, StageMarker(ValidatingProject), EXTRACTED);
  }

  /** What the attempt has read back at its start, and added to since, tells the first `settled` cases from the others. */
  predicate Recalls(cases: seq<string>, markers: set<Marker>, stored: set<string>, settled: nat, n: nat)
    requires settled <= |cases|
  {
    && (forall j | 0 <= j < settled :: cases[j] in stored || CaseMarker(cases[j]) in markers)
    && (forall j | 0 <= j < |cases| :: cases[j] in stored ==> j < n)
  }

  lemma RecallsAtStart(db: Database, log: seq<Call>)
    requires db.Inv(log)
    ensures |db.extracted| <= |db.plan.cases|
    ensures Recalls(db.plan.cases, db.markers, StoredCaseIds(db.plan.job, db.microRules), |db.extracted|, |db.extracted|)
  {
    StoredCases(db.plan, db.microRules, db.extracted, log);
  }

  lemma SettledIsRecalled(db: Database, log: seq<Call>, stored: set<string>, settled: nat, i: nat)
    requires db.Inv(log) && settled <= |db.plan.cases| && i < |db.plan.cases|
    requires |db.extracted| == (if i < settled then settled else i)
    requires Recalls(db.plan.cases, db.markers, stored, settled, |db.extracted|)
    ensures db.plan.cases[i] in stored || CaseMarker(db.plan.cases[i]) in db.markers <==> i < settled
  {
  }

  lemma RecallsNext(cases: seq<string>, markers: set<Marker>, stored: set<string>, settled: nat, i: nat, more: set<Marker>)
    requires Distinct(cases) && settled <= i < |cases| && Recalls(cases, markers, stored, settled, i) && markers <= more
    ensures Recalls(cases, more, stored + {cases[i]}, settled, i + 1)
  {
  }

  /** One attempt.  Each case that is settled is left alone; each other one costs one call. */
  method ExtractCases(db: Database, teacher: Teacher, budget: nat) returns (left: nat, crashed: bool)
    requires Fits(db.plan, teacher.script)
    requires db.Inv(teacher.log) && EXTRACTED !in db.markers
    modifies db, teacher
    ensures db.Inv(teacher.log) && EXTRACTED !in db.markers && old(db.markers) <= db.markers
    ensures db.synthesized == old(db.synthesized) && db.consolidated == old(db.consolidated)
    ensures |teacher.log| - |old(teacher.log)| <= |db.extracted| - |old(db.extracted)| + if crashed then 1 else 0
    ensures !crashed ==> |db.extracted| == |db.plan.cases|
    ensures crashed ==> Died(left, old(Raised(teacher.log)), teacher.log)
    ensures Raised(teacher.log) >= old(Raised(teacher.log))
    ensures Progress(db) - old(Progress(db)) >= budget - left
    ensures 0 <= budget - left <= 2 * |db.plan.cases|
  {
    hide Database.Inv, Progress, Recalls;
    var cases := db.plan.cases;
    var extractedCaseIds := StoredCaseIds(db.plan.job, db.microRules);
    RecallsAtStart(db, teacher.log);
    CasesDistinct(db, teacher.log);
    ghost var settled := |db.extracted|;
    left, crashed := budget, false;
    for i := 0 to |cases|
      invariant db.Inv(teacher.log) && EXTRACTED !in db.markers && old(db.markers) <= db.markers
      invariant db.synthesized == old(db.synthesized) && db.consolidated == old(db.consolidated)
      invariant |db.extracted| == if i < settled then settled else i
      invariant Recalls(cases, db.markers, extractedCaseIds, settled, |db.extracted|)
      invariant |teacher.log| - |old(teacher.log)| == |db.extracted| - settled
      invariant Raised(teacher.log) >= old(Raised(teacher.log))
      invariant Progress(db) - old(Progress(db)) >= budget - left && 0 <= budget - left <= 2 * i
    {
      SettledIsRecalled(db, teacher.log, extractedCaseIds, settled, i);
      if cases[i] in extractedCaseIds || CaseMarker(cases[i]) in db.markers {
        continue;
      }
      ghost var markers := db.markers;
      left, crashed := ExtractOne(db, teacher, i, left);
      if crashed {
        return;
      }
      RecallsNext(cases, markers, extractedCaseIds, settled, i, db.markers);
      extractedCaseIds := extractedCaseIds + {cases[i]};
    }
  }

  lemma CasesDistinct(db: Database, log: seq<Call>)
    requires db.Inv(log)
    ensures Distinct(db.plan.cases)
  {
  }

  method CompleteExtraction(db: Database, ghost log: seq<Call>, budget: nat) returns (left: nat, crashed: bool)
    requires db.Inv(log) && EXTRACTED !in db.markers && StageMarker(ValidatingProject) in db.markers
    requires |db.extracted| == |db.plan.cases|
    modifies db`markers
    ensures db.Inv(log) && old(db.markers) <= db.markers
    ensures !crashed ==> EXTRACTED in db.markers
    ensures crashed ==> left == 0
    ensures Progress(db) - old(Progress(db)) >= budget - left
    ensures 0 <= budget - left <= 1
  {
    hide RowsSourced, CasesMarked, PrefixClosed, Marked;
    CompleteStep(db.plan, db.markers, db.microRules, db.extracted, log);
    left, crashed := db.MarkStageComplete(EXTRACTED, budget);
  }

  method ExtractRules(db: Database, teacher: Teacher, budget: nat) returns (left: nat, crashed: bool)
    requires Fits(db.plan, teacher.script)
    requires db.Inv(teacher.log) && StageMarker(ValidatingProject) in db.markers
    modifies db, teacher
    ensures db.Inv(teacher.log) && old(db.markers) <= db.markers
    ensures old(EXTRACTED in db.markers) ==>
      db.microRules == old(db.microRules) && db.extracted == old(db.extracted) && teacher.log == old(teacher.log) && !crashed
    ensures db.consolidated == old(db.consolidated)
    ensures |teacher.log| - |old(teacher.log)| <= |db.extracted| - |old(db.extracted)| + if crashed then 1 else 0
    ensures !crashed ==> EXTRACTED in db.markers
    ensures crashed ==> Died(left, old(Raised(teacher.log)), teacher.log)
    ensures Raised(teacher.log) >= old(Raised(teacher.log))
    ensures Progress(db) - old(Progress(db)) >= budget - left
    ensures 0 <= budget - left <= 2 * |db.plan.cases| + 1
  {
    hide Database.Inv, Progress;
    left, crashed := budget, false;
    if EXTRACTED in db.markers {
      return;
    }
    left, crashed := ExtractCases(db, teacher, left);
    if crashed {
      return;
    }
    left, crashed := CompleteExtraction(db, teacher.log, left);
  }
}
