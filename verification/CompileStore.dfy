/** The durable compile phase of `_run`, `src/rulekiln/workers/distillation_worker.py`: sequential extraction and
    synthesis over a committed store, with a crash possible before any commit and an arbitrary teacher. */
module CompileStore {
  import opened Wrappers
  import opened Sorting
  import opened Markers
  import opened Clusters

  datatype MicroRule = MicroRule(id: string, caseId: string, body: string)

  datatype SynthesizedRule = SynthesizedRule(strategy: Strategy, sourceIds: seq<string>, body: string)

  datatype Request = ExtractCase(caseId: string) | SynthesizeCluster(strategy: Strategy, ruleIds: seq<string>)

  /** A teacher call; `None` is one that raised. */
  datatype Call = Call(request: Request, reply: Option<seq<string>>)

  /** Any teacher at all: its reply may depend on how often it was asked before. */
  class Teacher {
    const script: (nat, Request) -> Option<seq<string>>
    var log: seq<Call>

    constructor (script: (nat, Request) -> Option<seq<string>>)
      ensures this.script == script && log == []
    {
      this.script, log := script, [];
    }

    method Ask(request: Request) returns (reply: Option<seq<string>>)
      modifies this
      ensures log == old(log) + [Call(request, reply)] && reply == script(|old(log)|, request)
      ensures Raised(log) == old(Raised(log)) + if reply.None? then 1 else 0
    {
      RaisedNext(log, Call(request, script(|log|, request)));
      reply := script(|log|, request);
      log := log + [Call(request, reply)];
    }
  }

  /** The i-th rule carries the i-th identifier. */
  ghost predicate Numbered(uuid: nat -> string, rows: seq<MicroRule>) {
    forall i :: 0 <= i < |rows| ==> rows[i].id == uuid(i)
  }

  ghost predicate Plain(clusters: seq<seq<string>>) {
    forall i, x :: 0 <= i < |clusters| && x in clusters[i] ==> PlainId(x)
  }

  ghost predicate NoCollisions(digest: string -> string, clusters: seq<seq<string>>) {
    forall i, j :: 0 <= i < |clusters| && 0 <= j < |clusters| ==> NoCollision(digest, clusters[i], clusters[j])
  }

  /** What tells the clusters of one strategy apart. */
  ghost predicate Separate(digest: string -> string, clusters: seq<seq<string>>) {
    Disjoint(clusters) && Plain(clusters) && NoCollisions(digest, clusters)
  }

  /** What stays fixed over all runs of a job. `clusters` embeds and clusters the micro rules for a strategy, `uuid(i)` is
      the identifier of the i-th micro rule to reach the table, and `gives` holds of the replies the teacher may give to
      a case. */
  datatype Plan = Plan(
    job: string,
    cases: seq<string>,
    uuid: nat -> string,
    clusters: (Strategy, seq<MicroRule>) -> seq<seq<string>>,
    digest: string -> string,
    gives: (string, seq<string>) -> bool)
  {
    ghost predicate Given(replies: seq<seq<string>>) {
      |replies| <= |cases| && forall i :: 0 <= i < |replies| ==> gives(cases[i], replies[i])
    }

    /** The micro rules this job may have when every case has its reply. */
    ghost predicate Own(rows: seq<MicroRule>) {
      && Numbered(uuid, rows)
      && exists replies :: Given(replies) && |replies| == |cases| && Contents(rows) == Blocks(CaseBlock(job), cases, replies)
    }

    ghost predicate Valid() {
      && Distinct(cases)
      && (forall strategy, rows :: Own(rows) ==> Separate(digest, clusters(strategy, rows)))
    }
  }

  /** The plan allows for every reply of the teacher to a case. */
  ghost predicate Fits(p: Plan, script: (nat, Request) -> Option<seq<string>>) {
    forall n: nat, caseId ::
      var reply := script(n, ExtractCase(caseId)); reply.Some? ==> p.gives(caseId, reply.value)
  }

  function RaisedCalls(log: seq<Call>): set<nat> {
    set i: nat | i < |log| && log[i].reply.None?
  }

  /** How many teacher calls raised. */
  function Raised(log: seq<Call>): nat { |RaisedCalls(log)| }

  lemma RaisedNext(log: seq<Call>, call: Call)
    ensures Raised(log + [call]) == Raised(log) + if call.reply.None? then 1 else 0
  {
    if call.reply.None? {
      assert RaisedCalls(log + [call]) == RaisedCalls(log) + {|log|};
    } else {
      assert RaisedCalls(log + [call]) == RaisedCalls(log);
    }
  }

  /** Why an attempt that began after `before` raised calls ended early: no commit was left to it, or a call raised. */
  ghost predicate Died(left: nat, before: nat, log: seq<Call>) {
    left == 0 || Raised(log) > before
  }

  // ── What the tables should hold ──────────────────────────────────────────

  /** The rows of the first |replies| keys, each block made from one reply. */
  function Blocks<K, R>(block: (K, seq<string>) -> seq<R>, keys: seq<K>, replies: seq<seq<string>>): seq<R>
    requires |replies| <= |keys|
    decreases |replies|
  {
    if replies == [] then []
    else
      var n := |replies| - 1;
      Blocks(block, keys, replies[..n]) + block(keys[n], replies[n])
  }

  lemma BlocksNext<K, R>(block: (K, seq<string>) -> seq<R>, keys: seq<K>, replies: seq<seq<string>>, reply: seq<string>)
    requires |replies| < |keys|
    ensures Blocks(block, keys, replies + [reply]) == Blocks(block, keys, replies) + block(keys[|replies|], reply)
  {
    assert (replies + [reply])[..|replies|] == replies;
  }

  lemma {:induction false} BlocksMembers<K, R>(block: (K, seq<string>) -> seq<R>, keys: seq<K>,
                                               replies: seq<seq<string>>, r: R)
    requires |replies| <= |keys|
    ensures r in Blocks(block, keys, replies) <==> exists i :: 0 <= i < |replies| && r in block(keys[i], replies[i])
    decreases |replies|
  {
    if replies != [] {
      var n := |replies| - 1;
      BlocksMembers(block, keys, replies[..n], r);
      assert forall i :: 0 <= i < n ==> replies[..n][i] == replies[i];
    }
  }

  function CaseBlock(job: string): (string, seq<string>) -> seq<(string, string)> {
    (caseId: string, bodies: seq<string>) => seq(|bodies|, i requires 0 <= i < |bodies| => (DbCaseId(job, caseId), bodies[i]))
  }

  /** The stage after which the micro rules do not change any more. */
  const EXTRACTED := StageMarker(ExtractingRules)

  /** A micro rule table without its identifiers. */
  function Contents(rows: seq<MicroRule>): (contents: seq<(string, string)>)
    ensures |contents| == |rows|
  {
    seq(|rows|, i requires 0 <= i < |rows| => (rows[i].caseId, rows[i].body))
  }

  datatype Item = Item(strategy: Strategy, ruleIds: seq<string>)

  function ItemsOf(strategy: Strategy, clusters: seq<seq<string>>): (items: seq<Item>)
    ensures |items| == |clusters|
  {
    seq(|clusters|, i requires 0 <= i < |clusters| => Item(strategy, clusters[i]))
  }

  /** Everything there is to synthesize, in the order of synthesis. */
  function Items(p: Plan, rows: seq<MicroRule>): seq<Item> {
    ItemsOf(Dbscan, p.clusters(Dbscan, rows)) + ItemsOf(Hdbscan, p.clusters(Hdbscan, rows))
  }

  function ItemMarker(p: Plan, item: Item): Marker { ClusterMarker(item.strategy, item.ruleIds, p.digest) }

  function ItemBlock(item: Item, bodies: seq<string>): seq<SynthesizedRule> {
    seq(|bodies|, i requires 0 <= i < |bodies| => SynthesizedRule(item.strategy, item.ruleIds, bodies[i]))
  }

  // ── Invariants of the committed state ────────────────────────────────────

  /** The micro rules are those of the first |replies| cases in order, each block a logged reply to its case. */
  ghost predicate RowsSourced(p: Plan, rows: seq<MicroRule>, replies: seq<seq<string>>, log: seq<Call>) {
    && p.Given(replies)
    && (forall i :: 0 <= i < |replies| ==> Call(ExtractCase(p.cases[i]), Some(replies[i])) in log)
    && Contents(rows) == Blocks(CaseBlock(p.job), p.cases, replies)
    && Numbered(p.uuid, rows)
  }

  /** A case is settled by its rows or by its marker. */
  ghost predicate CasesMarked(p: Plan, markers: set<Marker>, replies: seq<seq<string>>) {
    && (forall i :: 0 <= i < |p.cases| && CaseMarker(p.cases[i]) in markers ==> i < |replies|)
    && (forall i :: 0 <= i < |replies| && i < |p.cases| ==> CaseMarker(p.cases[i]) in markers || replies[i] != [])
    && (StageMarker(ExtractingRules) in markers ==> |replies| == |p.cases|)
  }

  ghost predicate ExtractionInv(p: Plan, markers: set<Marker>, rows: seq<MicroRule>, replies: seq<seq<string>>,
                                log: seq<Call>) {
    RowsSourced(p, rows, replies, log) && CasesMarked(p, markers, replies)
  }

  ghost predicate SynthesisSourced(p: Plan, items: seq<Item>, synthesized: seq<SynthesizedRule>,
                                   replies: seq<seq<string>>, log: seq<Call>) {
    && |replies| <= |items|
    && (forall i :: 0 <= i < |replies| ==> Call(SynthesizeCluster(items[i].strategy, items[i].ruleIds), Some(replies[i])) in log)
    && synthesized == Blocks(ItemBlock, items, replies)
  }

  ghost predicate ItemsMarked(p: Plan, markers: set<Marker>, items: seq<Item>, split: nat, n: nat) {
    && (forall i :: 0 <= i < |items| ==> (ItemMarker(p, items[i]) in markers <==> i < n))
    && (StrategyMarker(SynthesizingRules, Dbscan) in markers ==> n >= split)
    && (n > split ==> StrategyMarker(SynthesizingRules, Dbscan) in markers)
    && (StrategyMarker(SynthesizingRules, Hdbscan) in markers ==> n == |items|)
  }

  ghost predicate SynthesisInv(p: Plan, markers: set<Marker>, rows: seq<MicroRule>, synthesized: seq<SynthesizedRule>,
                               replies: seq<seq<string>>, log: seq<Call>) {
    if StageMarker(ExtractingRules) in markers then
      && SynthesisSourced(p, Items(p, rows), synthesized, replies, log)
      && ItemsMarked(p, markers, Items(p, rows), |p.clusters(Dbscan, rows)|, |replies|)
    else
      synthesized == [] && replies == [] && forall m :: m in markers ==> m.stage != SynthesizingRules
  }

  /** When extraction is complete, the micro rules are the job's own. */
  lemma RowsAreOwn(p: Plan, markers: set<Marker>, rows: seq<MicroRule>, replies: seq<seq<string>>, log: seq<Call>)
    requires ExtractionInv(p, markers, rows, replies, log) && EXTRACTED in markers
    ensures p.Own(rows)
  {
  }

  lemma OtherStageKeepsCases(p: Plan, markers: set<Marker>, replies: seq<seq<string>>, m: Marker)
    requires CasesMarked(p, markers, replies) && m.stage != ExtractingRules
    ensures CasesMarked(p, markers + {m}, replies)
  {
  }

  lemma OtherStageKeepsSynthesis(p: Plan, markers: set<Marker>, rows: seq<MicroRule>, synthesized: seq<SynthesizedRule>,
                                 replies: seq<seq<string>>, log: seq<Call>, m: Marker)
    requires SynthesisInv(p, markers, rows, synthesized, replies, log)
    requires m.stage != ExtractingRules && m.stage != SynthesizingRules
    ensures SynthesisInv(p, markers + {m}, rows, synthesized, replies, log)
  {
    assert forall item :: ItemMarker(p, item) != m;
  }

  // ── How far a job has come ───────────────────────────────────────────────

  function CaseMarkers(p: Plan): set<Marker> {
    set c | c in p.cases :: CaseMarker(c)
  }

  /** How many cases and stages are marked. */
  ghost function Marked(p: Plan, markers: set<Marker>): nat {
    |markers * CaseMarkers(p)| + |markers * Chain()|
  }

  lemma OneMore(markers: set<Marker>, m: Marker, s: set<Marker>)
    ensures |(markers + {m}) * s| == |markers * s| + if m in s && m !in markers then 1 else 0
  {
    if m in s && m !in markers {
      assert (markers + {m}) * s == markers * s + {m};
    } else {
      assert (markers + {m}) * s == markers * s;
    }
  }

  lemma MarkingCounts(p: Plan, markers: set<Marker>, m: Marker)
    ensures Marked(p, markers + {m}) >= Marked(p, markers)
    ensures m !in markers && (m in CaseMarkers(p) || InChain(m)) ==> Marked(p, markers + {m}) >= Marked(p, markers) + 1
  {
    OneMore(markers, m, CaseMarkers(p));
    OneMore(markers, m, Chain());
  }

  lemma SubsetSize<T>(a: set<T>, b: set<T>)
    requires a <= b
    ensures |a| <= |b|
  {
    assert b == a + (b - a);
  }

  lemma {:induction false} CaseMarkersSize(cases: seq<string>)
    ensures |set c | c in cases :: CaseMarker(c)| <= |cases|
  {
    if cases != [] {
      var init, last := cases[..|cases| - 1], cases[|cases| - 1];
      CaseMarkersSize(init);
      assert cases == init + [last];
      assert (set c | c in cases :: CaseMarker(c)) == (set c | c in init :: CaseMarker(c)) + {CaseMarker(last)};
    }
  }

  lemma MarkedBound(p: Plan, markers: set<Marker>)
    ensures Marked(p, markers) <= |p.cases| + 12
  {
    CaseMarkersSize(p.cases);
    SubsetSize(markers * CaseMarkers(p), CaseMarkers(p));
    SubsetSize(markers * Chain(), Chain());
  }

  // ── The committed store ──────────────────────────────────────────────────

  class Database {
    const plan: Plan
    var markers: set<Marker>
    var microRules: seq<MicroRule>
    var synthesized: seq<SynthesizedRule>
    /** Which replies the committed rows came from: one per settled case, one per settled cluster. */
    ghost var extracted: seq<seq<string>>
    ghost var consolidated: seq<seq<string>>

    constructor (plan: Plan)
      requires plan.Valid()
      ensures this.plan == plan && Inv([]) && extracted == [] && consolidated == []
    {
      this.plan, markers, microRules, synthesized := plan, {}, [], [];
      extracted, consolidated := [], [];
    }

    ghost predicate Inv(log: seq<Call>)
      reads this
    {
      && plan.Valid()
      && ExtractionInv(plan, markers, microRules, extracted, log)
      && SynthesisInv(plan, markers, microRules, synthesized, consolidated, log)
      && PrefixClosed(markers)
    }

    /** `session.commit()` after adding a marker that is not there yet; the process dies when `budget` is used up. */
    method MarkStageComplete(marker: Marker, budget: nat) returns (left: nat, crashed: bool)
      modifies this`markers
      ensures markers == if crashed then old(markers) else old(markers) + {marker}
      ensures crashed <==> marker !in old(markers) && budget == 0
      ensures left == if marker in old(markers) || crashed then budget else budget - 1
      ensures marker in CaseMarkers(plan) || InChain(marker) ==> Marked(plan, markers) - Marked(plan, old(markers)) >= budget - left
    {
      MarkingCounts(plan, markers, marker);
      left, crashed := budget, false;
      if marker !in markers {
        if left == 0 {
          return 0, true;
        }
        markers, left := markers + {marker}, left - 1;
      }
    }

    method InsertMicroRules(rows: seq<MicroRule>, budget: nat) returns (left: nat, crashed: bool)
      modifies this`microRules
      ensures microRules == if crashed then old(microRules) else old(microRules) + rows
      ensures (crashed <==> budget == 0) && left == if crashed then 0 else budget - 1
    {
      if budget == 0 {
        return 0, true;
      }
      microRules := microRules + rows;
      return budget - 1, false;
    }

    /** The rows added to the session go in with the marker, in one commit. */
    method InsertSynthesizedAndMark(rows: seq<SynthesizedRule>, marker: Marker, budget: nat)
      returns (left: nat, crashed: bool)
      requires marker !in markers
      modifies this`synthesized, this`markers
      ensures synthesized == if crashed then old(synthesized) else old(synthesized) + rows
      ensures markers == if crashed then old(markers) else old(markers) + {marker}
      ensures (crashed <==> budget == 0) && left == if crashed then 0 else budget - 1
      ensures Marked(plan, markers) >= Marked(plan, old(markers))
    {
      MarkingCounts(plan, markers, marker);
      if budget == 0 {
        return 0, true;
      }
      synthesized, markers := synthesized + rows, markers + {marker};
      return budget - 1, false;
    }
  }

  /** Further calls leave the invariants of the store alone. */
  lemma LogGrows(db: Database, log: seq<Call>, call: Call)
    requires db.Inv(log)
    ensures db.Inv(log + [call])
  {
  }

  /** How many cases and clusters are settled. */
  ghost function Settled(db: Database): nat
    reads db
  {
    |db.extracted| + |db.consolidated|
  }

  /** How far a job has come: every commit of an attempt marks a case or a stage, or settles a case or a cluster. */
  ghost function Progress(db: Database): nat
    reads db
  {
    Settled(db) + Marked(db.plan, db.markers)
  }

  /** All the commits a job can use: two for each case, one for each cluster and each stage. */
  function Work(p: Plan, rows: seq<MicroRule>): nat {
    2 * |p.cases| + |Items(p, rows)| + 12
  }

  lemma ProgressBound(db: Database, log: seq<Call>)
    requires db.Inv(log)
    ensures Progress(db) <= Work(db.plan, db.microRules)
  {
    MarkedBound(db.plan, db.markers);
  }
}
