/** What the committed invariants of the compile phase amount to when its stages are complete. */
module ExactlyOnce {
  import opened Wrappers
  import opened Sorting
  import opened Markers
  import opened Clusters
  import opened CompileStore
  import opened Renaming
  import opened Extraction
  import opened Synthesis
  import opened CompileRuns
  import opened ClusterPlan

  /** The bodies of the micro rules stored for a case, in table order. */
  function RulesOfCase(rows: seq<MicroRule>, dbCaseId: string): seq<string> {
    if rows == [] then []
    else
      var last := rows[|rows| - 1];
      RulesOfCase(rows[..|rows| - 1], dbCaseId) + if last.caseId == dbCaseId then [last.body] else []
  }

  /** The bodies of the rules synthesized for a strategy from a set of micro rules. */
  function RulesOfCluster(rows: seq<SynthesizedRule>, item: Item): seq<string> {
    if rows == [] then []
    else
      var last := rows[|rows| - 1];
      RulesOfCluster(rows[..|rows| - 1], item)
      + if last.strategy == item.strategy && last.sourceIds == item.ruleIds then [last.body] else []
  }

  lemma {:induction false} RulesOfCaseConcat(a: seq<MicroRule>, b: seq<MicroRule>, d: string)
    ensures RulesOfCase(a + b, d) == RulesOfCase(a, d) + RulesOfCase(b, d)
  {
    if b == [] {
      assert a + b == a;
      NoRules(b, d);
    } else {
      RulesOfCaseConcat(a, b[..|b| - 1], d);
      assert (a + b)[..|a + b| - 1] == a + b[..|b| - 1];
    }
  }

  lemma NoRules(b: seq<MicroRule>, d: string)
    requires b == []
    ensures RulesOfCase(b, d) == []
  {
  }

  /** A run of rows of one case contributes all its bodies to that case and none to another. */
  lemma {:induction false} RulesOfBlock(rows: seq<MicroRule>, d: string, e: string)
    requires forall r :: r in rows ==> r.caseId == d
    ensures |RulesOfCase(rows, e)| == if d == e then |rows| else 0
    ensures d == e ==> forall i :: 0 <= i < |rows| ==> RulesOfCase(rows, e)[i] == rows[i].body
  {
    if rows != [] {
      RulesOfBlock(rows[..|rows| - 1], d, e);
      assert rows[|rows| - 1] in rows;
    }
  }

  lemma ContentsSplit(rows: seq<MicroRule>, a: seq<(string, string)>, b: seq<(string, string)>)
    returns (front: seq<MicroRule>, back: seq<MicroRule>)
    requires Contents(rows) == a + b
    ensures rows == front + back && Contents(front) == a && Contents(back) == b
  {
    front, back := rows[..|a|], rows[|a|..];
    forall i | 0 <= i < |a| ensures Contents(front)[i] == a[i] {
      assert Contents(rows)[i] == a[i];
    }
    forall i | 0 <= i < |b| ensures Contents(back)[i] == b[i] {
      assert Contents(rows)[|a| + i] == b[i];
    }
  }

  /** The rows of one reply to one case. */
  lemma RulesOfCaseBlock(p: Plan, rows: seq<MicroRule>, caseId: string, reply: seq<string>, other: string)
    requires Contents(rows) == CaseBlock(p.job)(caseId, reply)
    ensures RulesOfCase(rows, DbCaseId(p.job, other)) == if caseId == other then reply else []
  {
    forall i | 0 <= i < |rows| ensures rows[i].caseId == DbCaseId(p.job, caseId) && rows[i].body == reply[i] {
      assert Contents(rows)[i] == (DbCaseId(p.job, caseId), reply[i]);
    }
    RulesOfBlock(rows, DbCaseId(p.job, caseId), DbCaseId(p.job, other));
    PayloadOfDb(p.job, caseId);
    PayloadOfDb(p.job, other);
  }

  lemma {:induction false} RulesOfCaseInBlocks(p: Plan, rows: seq<MicroRule>, replies: seq<seq<string>>, k: nat)
    requires p.Valid() && |replies| <= |p.cases| && k < |p.cases|
    requires Contents(rows) == Blocks(CaseBlock(p.job), p.cases, replies)
    ensures RulesOfCase(rows, DbCaseId(p.job, p.cases[k])) == if k < |replies| then replies[k] else []
    decreases |replies|
  {
    var d := DbCaseId(p.job, p.cases[k]);
    if replies == [] {
      NoRules(rows, d);
    } else {
      var n := |replies| - 1;
      var front, back := ContentsSplit(rows, Blocks(CaseBlock(p.job), p.cases, replies[..n]), CaseBlock(p.job)(p.cases[n], replies[n]));
      RulesOfCaseInBlocks(p, front, replies[..n], k);
      RulesOfCaseConcat(front, back, d);
      RulesOfCaseBlock(p, back, p.cases[n], replies[n], p.cases[k]);
      assert p.cases[n] == p.cases[k] <==> n == k;
    }
  }

  /** Once extraction is complete, the micro rules of each training case are exactly one logged reply to that case. */
  lemma ExtractedExactlyOnce(p: Plan, markers: set<Marker>, rows: seq<MicroRule>, replies: seq<seq<string>>,
                             log: seq<Call>, k: nat)
    requires p.Valid() && ExtractionInv(p, markers, rows, replies, log)
    requires StageMarker(ExtractingRules) in markers && k < |p.cases|
    ensures Call(ExtractCase(p.cases[k]), Some(RulesOfCase(rows, DbCaseId(p.job, p.cases[k])))) in log
  {
    RulesOfCaseInBlocks(p, rows, replies, k);
  }

  /** No other rows are there. */
  lemma NoStrayRules(p: Plan, rows: seq<MicroRule>, replies: seq<seq<string>>, log: seq<Call>, r: MicroRule)
    requires RowsSourced(p, rows, replies, log) && r in rows
    ensures exists i :: 0 <= i < |p.cases| && r.caseId == DbCaseId(p.job, p.cases[i])
  {
    var k :| 0 <= k < |rows| && rows[k] == r;
    assert Contents(rows)[k] == (r.caseId, r.body);
    BlocksMembers(CaseBlock(p.job), p.cases, replies, (r.caseId, r.body));
  }

  lemma NoSynthesized(b: seq<SynthesizedRule>, item: Item)
    requires b == []
    ensures RulesOfCluster(b, item) == []
  {
  }

  lemma {:induction false} RulesOfClusterConcat(a: seq<SynthesizedRule>, b: seq<SynthesizedRule>, item: Item)
    ensures RulesOfCluster(a + b, item) == RulesOfCluster(a, item) + RulesOfCluster(b, item)
  {
    if b == [] {
      assert a + b == a;
      NoSynthesized(b, item);
    } else {
      RulesOfClusterConcat(a, b[..|b| - 1], item);
      assert (a + b)[..|a + b| - 1] == a + b[..|b| - 1];
    }
  }

  lemma {:induction false} RulesOfItemBlock(item: Item, reply: seq<string>, other: Item)
    ensures RulesOfCluster(ItemBlock(item, reply), other) == if item == other then reply else []
  {
    var block := ItemBlock(item, reply);
    if reply == [] {
      NoSynthesized(block, other);
    } else {
      var n := |reply| - 1;
      assert block[..n] == ItemBlock(item, reply[..n]);
      RulesOfItemBlock(item, reply[..n], other);
      assert reply == reply[..n] + [reply[n]];
    }
  }

  lemma {:induction false} RulesOfClusterInBlocks(items: seq<Item>, replies: seq<seq<string>>, k: nat)
    requires |replies| <= |items| && k < |items| && Distinct(items)
    ensures RulesOfCluster(Blocks(ItemBlock, items, replies), items[k]) == if k < |replies| then replies[k] else []
    decreases |replies|
  {
    if replies == [] {
      NoSynthesized(Blocks(ItemBlock, items, replies), items[k]);
    } else {
      var n := |replies| - 1;
      RulesOfClusterInBlocks(items, replies[..n], k);
      RulesOfClusterConcat(Blocks(ItemBlock, items, replies[..n]), ItemBlock(items[n], replies[n]), items[k]);
      RulesOfItemBlock(items[n], replies[n], items[k]);
      assert items[n] == items[k] ==> n == k;
    }
  }

  /** Once synthesis is complete, the rules of each cluster are exactly one logged reply for that cluster. */
  lemma SynthesizedExactlyOnce(p: Plan, markers: set<Marker>, rows: seq<MicroRule>, synthesized: seq<SynthesizedRule>,
                               replies: seq<seq<string>>, log: seq<Call>, k: nat)
    requires p.Valid() && p.Own(rows) && SynthesisInv(p, markers, rows, synthesized, replies, log)
    requires StageMarker(ExtractingRules) in markers && StrategyMarker(SynthesizingRules, Hdbscan) in markers
    requires k < |Items(p, rows)|
    ensures var item := Items(p, rows)[k];
            Call(SynthesizeCluster(item.strategy, item.ruleIds), Some(RulesOfCluster(synthesized, item))) in log
  {
    var items := Items(p, rows);
    forall i, j | 0 <= i < j < |items| ensures items[i] != items[j] {
      if items[i] == items[j] {
        ItemMarkersDiffer(p, rows, i, j);
      }
    }
    RulesOfClusterInBlocks(items, replies, k);
  }

  // ── Resumed runs equal an uninterrupted one ──────────────────────────────

  lemma SameMicroRules(p: Plan, markers: set<Marker>, rows: seq<MicroRule>, replies: seq<seq<string>>, log: seq<Call>,
                       q: Plan, markers': set<Marker>, rows': seq<MicroRule>, replies': seq<seq<string>>, log': seq<Call>,
                       f: Rename)
    requires ExtractionInv(p, markers, rows, replies, log) && ExtractionInv(q, markers', rows', replies', log')
    requires StageMarker(ExtractingRules) in markers && StageMarker(ExtractingRules) in markers'
    requires SameJob(p, q, f) && Agree(f, log, log')
    ensures rows' == RenamedRows(f, rows)
  {
    forall i | 0 <= i < |p.cases| ensures replies[i] == replies'[i] {
      var request := ExtractCase(p.cases[i]);
      assert Call(request, Some(replies[i])) in log && Call(request, Some(replies'[i])) in log';
      assert RenamedRequest(f, request) == request;
    }
    assert replies == replies' && Contents(rows) == Contents(rows');
    forall i | 0 <= i < |rows| ensures rows'[i] == RenamedRows(f, rows)[i] {
      assert Contents(rows)[i] == Contents(rows')[i];
    }
  }

  lemma SameConsolidation(items: seq<Item>, replies: seq<seq<string>>, log: seq<Call>, p: Plan, synthesized: seq<SynthesizedRule>,
                          replies': seq<seq<string>>, log': seq<Call>, q: Plan, synthesized': seq<SynthesizedRule>, f: Rename)
    requires SynthesisSourced(p, items, synthesized, replies, log) && |replies| == |items|
    requires SynthesisSourced(q, RenamedItems(f, items), synthesized', replies', log') && |replies'| == |items|
    requires Agree(f, log, log')
    ensures synthesized' == RenamedRules(f, synthesized)
  {
    var items' := RenamedItems(f, items);
    forall i | 0 <= i < |items| ensures replies[i] == replies'[i] {
      var request := SynthesizeCluster(items[i].strategy, items[i].ruleIds);
      assert Call(request, Some(replies[i])) in log;
      assert items'[i] == Item(items[i].strategy, RenamedIds(f, items[i].ruleIds));
      assert Call(RenamedRequest(f, request), Some(replies'[i])) in log';
    }
    assert replies == replies';
    BlocksRenamed(f, items, replies);
  }

  /** Two runs of the same job, crashed and resumed however often and each with its own random identifiers, end with the
      same tables up to a renaming of these, if the teacher answers the same requests alike: in particular a resumed run
      equals the one that never crashed. */
  lemma ResumedEqualsUninterrupted(p: Plan, markers: set<Marker>, rows: seq<MicroRule>,
                                   synthesized: seq<SynthesizedRule>,
                                   replies: seq<seq<string>>, consolidated: seq<seq<string>>, log: seq<Call>,
                                   q: Plan, markers': set<Marker>, rows': seq<MicroRule>,
                                   synthesized': seq<SynthesizedRule>,
                                   replies': seq<seq<string>>, consolidated': seq<seq<string>>, log': seq<Call>,
                                   f: Rename)
    requires ExtractionInv(p, markers, rows, replies, log) && ExtractionInv(q, markers', rows', replies', log')
    requires SynthesisInv(p, markers, rows, synthesized, consolidated, log)
    requires SynthesisInv(q, markers', rows', synthesized', consolidated', log')
    requires PrefixClosed(markers) && StrategyMarker(SynthesizingRules, Hdbscan) in markers
    requires PrefixClosed(markers') && StrategyMarker(SynthesizingRules, Hdbscan) in markers'
    requires SameJob(p, q, f) && Agree(f, log, log')
    ensures rows' == RenamedRows(f, rows) && synthesized' == RenamedRules(f, synthesized)
  {
    assert StageMarker(ExtractingRules) in markers && StageMarker(ExtractingRules) in markers';
    SameMicroRules(p, markers, rows, replies, log, q, markers', rows', replies', log', f);
    ItemsRenamed(p, q, f, rows);
    SameConsolidation(Items(p, rows), consolidated, log, p, synthesized, consolidated', log', q, synthesized', f);
  }

  /** Calls are bounded by what there is to settle, plus one for each attempt that died. */
  lemma CallsBounded(p: Plan, markers: set<Marker>, rows: seq<MicroRule>, synthesized: seq<SynthesizedRule>,
                     extracted: seq<seq<string>>, consolidated: seq<seq<string>>, log: seq<Call>, died: nat)
    requires ExtractionInv(p, markers, rows, extracted, log) && SynthesisInv(p, markers, rows, synthesized, consolidated, log)
    requires |log| <= |extracted| + |consolidated| + died
    ensures |log| <= |p.cases| + |Items(p, rows)| + died
  {
  }

  /** A job from its first attempt on, with any teacher and any attempts: once it is through, every case and every cluster
      has the rules of exactly one reply, and at most one call per dead attempt was wasted.  It gets through once no
      foreign call raises and the attempts together have more commits than there is work. */
  method RunJob(plan: Plan, script: (nat, Request) -> Option<seq<string>>, fates: seq<Fate>)
    returns (db: Database, teacher: Teacher, completed: bool, died: nat)
    requires plan.Valid() && Fits(plan, script)
    ensures db.plan == plan && PrefixClosed(db.markers) && died <= |fates| && (!completed ==> died == |fates|)
    ensures Progress(db) <= Work(plan, db.microRules)
    ensures Raised(teacher.log) == 0 && Troubled(fates, died) == 0 ==> Sum(fates, died) <= Progress(db)
    ensures (Raised(teacher.log) == 0 && Troubled(fates, |fates|) == 0
             && Sum(fates, |fates|) > Work(plan, db.microRules)) ==> completed
    ensures AllPositive(fates, died) ==> died <= Raised(teacher.log) + Troubled(fates, died) + Work(plan, db.microRules)
    ensures |teacher.log| <= |plan.cases| + |Items(plan, db.microRules)| + died
    ensures completed ==> forall k :: 0 <= k < |plan.cases| ==>
      Call(ExtractCase(plan.cases[k]), Some(RulesOfCase(db.microRules, DbCaseId(plan.job, plan.cases[k])))) in teacher.log
    ensures completed ==> forall item :: item in Items(plan, db.microRules) ==>
      Call(SynthesizeCluster(item.strategy, item.ruleIds), Some(RulesOfCluster(db.synthesized, item))) in teacher.log
  {
    db := new Database(plan);
    teacher := new Teacher(script);
    completed, died := ResumeUntilDone(db, teacher, fates);
    ProgressBound(db, teacher.log);
    CallsBounded(plan, db.markers, db.microRules, db.synthesized, db.extracted, db.consolidated, teacher.log, died);
    if completed {
      CompletedExactlyOnce(plan, db.markers, db.microRules, db.synthesized, db.extracted, db.consolidated, teacher.log);
    }
  }

  lemma EveryCaseOnce(p: Plan, markers: set<Marker>, rows: seq<MicroRule>, extracted: seq<seq<string>>, log: seq<Call>)
    requires p.Valid() && ExtractionInv(p, markers, rows, extracted, log) && StageMarker(ExtractingRules) in markers
    ensures forall k :: 0 <= k < |p.cases| ==>
      Call(ExtractCase(p.cases[k]), Some(RulesOfCase(rows, DbCaseId(p.job, p.cases[k])))) in log
  {
    forall k | 0 <= k < |p.cases|
      ensures Call(ExtractCase(p.cases[k]), Some(RulesOfCase(rows, DbCaseId(p.job, p.cases[k])))) in log
    {
      ExtractedExactlyOnce(p, markers, rows, extracted, log, k);
    }
  }

  lemma EveryClusterOnce(p: Plan, markers: set<Marker>, rows: seq<MicroRule>, synthesized: seq<SynthesizedRule>,
                         consolidated: seq<seq<string>>, log: seq<Call>)
    requires p.Valid() && p.Own(rows) && SynthesisInv(p, markers, rows, synthesized, consolidated, log)
    requires StageMarker(ExtractingRules) in markers && StrategyMarker(SynthesizingRules, Hdbscan) in markers
    ensures forall item :: item in Items(p, rows) ==>
      Call(SynthesizeCluster(item.strategy, item.ruleIds), Some(RulesOfCluster(synthesized, item))) in log
  {
    forall item | item in Items(p, rows)
      ensures Call(SynthesizeCluster(item.strategy, item.ruleIds), Some(RulesOfCluster(synthesized, item))) in log
    {
      var k :| 0 <= k < |Items(p, rows)| && Items(p, rows)[k] == item;
      SynthesizedExactlyOnce(p, markers, rows, synthesized, consolidated, log, k);
    }
  }

  lemma CompletedExactlyOnce(p: Plan, markers: set<Marker>, rows: seq<MicroRule>, synthesized: seq<SynthesizedRule>,
                             extracted: seq<seq<string>>, consolidated: seq<seq<string>>, log: seq<Call>)
    requires p.Valid() && PrefixClosed(markers) && LAST in markers
    requires ExtractionInv(p, markers, rows, extracted, log) && SynthesisInv(p, markers, rows, synthesized, consolidated, log)
    ensures forall k :: 0 <= k < |p.cases| ==>
      Call(ExtractCase(p.cases[k]), Some(RulesOfCase(rows, DbCaseId(p.job, p.cases[k])))) in log
    ensures forall item :: item in Items(p, rows) ==>
      Call(SynthesizeCluster(item.strategy, item.ruleIds), Some(RulesOfCluster(synthesized, item))) in log
  {
    LastMeansAll(markers);
    EveryCaseOnce(p, markers, rows, extracted, log);
    RowsAreOwn(p, markers, rows, extracted, log);
    EveryClusterOnce(p, markers, rows, synthesized, consolidated, log);
  }

  // ── Which rules are synthesized ──────────────────────────────────────────

  /** A cluster of a strategy that was settled by one logged reply. */
  ghost predicate Settles(p: Plan, markers: set<Marker>, synthesized: seq<SynthesizedRule>, log: seq<Call>, item: Item) {
    && ItemMarker(p, item) in markers
    && Call(SynthesizeCluster(item.strategy, item.ruleIds), Some(RulesOfCluster(synthesized, item))) in log
  }

  lemma EveryClusterSettled(p: Plan, markers: set<Marker>, rows: seq<MicroRule>, synthesized: seq<SynthesizedRule>,
                            extracted: seq<seq<string>>, consolidated: seq<seq<string>>, log: seq<Call>,
                            strategy: Strategy, c: seq<string>)
    requires p.Valid() && PrefixClosed(markers) && LAST in markers
    requires ExtractionInv(p, markers, rows, extracted, log) && SynthesisInv(p, markers, rows, synthesized, consolidated, log)
    requires c in p.clusters(strategy, rows)
    ensures Settles(p, markers, synthesized, log, Item(strategy, c))
  {
    CompletedExactlyOnce(p, markers, rows, synthesized, extracted, consolidated, log);
    LastMeansAll(markers);
    var clusters := p.clusters(strategy, rows);
    var j :| 0 <= j < |clusters| && clusters[j] == c;
    var lo := ItemsAt(p, rows, strategy, j);
    assert Items(p, rows)[lo + j] == Item(strategy, c);
  }

  /** Once the chain is complete, a job with one micro rule has exactly one settled cluster for each strategy: that rule. */
  lemma SingleRuleIsSynthesized(job: string, cases: seq<string>, uuid: nat -> string, labels: Labelling,
                                digest: string -> string, gives: (string, seq<string>) -> bool,
                                markers: set<Marker>, rows: seq<MicroRule>, synthesized: seq<SynthesizedRule>,
                                extracted: seq<seq<string>>, consolidated: seq<seq<string>>, log: seq<Call>)
    requires var p := PlanFor(job, cases, uuid, labels, digest, gives);
      && p.Valid() && PrefixClosed(markers) && LAST in markers
      && ExtractionInv(p, markers, rows, extracted, log) && SynthesisInv(p, markers, rows, synthesized, consolidated, log)
    requires |rows| == 1
    ensures var p := PlanFor(job, cases, uuid, labels, digest, gives);
      && |consolidated| == 2
      && Settles(p, markers, synthesized, log, Item(Dbscan, [rows[0].id]))
      && Settles(p, markers, synthesized, log, Item(Hdbscan, [rows[0].id]))
  {
    var p := PlanFor(job, cases, uuid, labels, digest, gives);
    StrategyClustersFit(labels, Dbscan, rows);
    StrategyClustersFit(labels, Hdbscan, rows);
    LastMeansAll(markers);
    hide Settles;
    EveryClusterSettled(p, markers, rows, synthesized, extracted, consolidated, log, Dbscan, [rows[0].id]);
    EveryClusterSettled(p, markers, rows, synthesized, extracted, consolidated, log, Hdbscan, [rows[0].id]);
  }

  /** Of several micro rules, exactly those whose label is not noise are in a cluster that is settled. */
  lemma RuleIsSynthesizedIff(job: string, cases: seq<string>, uuid: nat -> string, labels: Labelling,
                             digest: string -> string, gives: (string, seq<string>) -> bool,
                             markers: set<Marker>, rows: seq<MicroRule>, synthesized: seq<SynthesizedRule>,
                             extracted: seq<seq<string>>, consolidated: seq<seq<string>>, log: seq<Call>,
                             strategy: Strategy, k: nat)
    requires var p := PlanFor(job, cases, uuid, labels, digest, gives);
      && p.Valid() && PrefixClosed(markers) && LAST in markers
      && ExtractionInv(p, markers, rows, extracted, log) && SynthesisInv(p, markers, rows, synthesized, consolidated, log)
    requires |rows| >= 2 && Distinct(RuleIds(rows)) && k < |rows|
    ensures var p, found := PlanFor(job, cases, uuid, labels, digest, gives), labels(strategy, Bodies(rows));
      (exists c :: c in p.clusters(strategy, rows) && rows[k].id in c && Settles(p, markers, synthesized, log, Item(strategy, c)))
      <==> k < |found| && found[k] != -1
  {
    var p, found := PlanFor(job, cases, uuid, labels, digest, gives), labels(strategy, Bodies(rows));
    StrategyClustersFit(labels, strategy, rows);
    assert ShareCluster(rows, found, p.clusters(strategy, rows), k, k);
    hide Settles;
    if c :| c in p.clusters(strategy, rows) && rows[k].id in c {
      EveryClusterSettled(p, markers, rows, synthesized, extracted, consolidated, log, strategy, c);
    }
  }
}
