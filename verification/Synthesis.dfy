/** Synthesis per cluster and strategy, `src/rulekiln/workers/distillation_worker.py`: rows and marker of a cluster
    go in with one commit, so each cluster is synthesized from one reply. */
module Synthesis {
  import opened Wrappers
  import opened Sorting
  import opened Markers
  import opened Clusters
  import opened CompileStore

  function DbscanCount(p: Plan, rows: seq<MicroRule>): nat { |p.clusters(Dbscan, rows)| }

  // ── Markers tell the clusters apart ──────────────────────────────────────

  lemma SameCluster(clusters: seq<seq<string>>, i: nat, j: nat)
    requires Disjoint(clusters) && i < |clusters| && j < |clusters| && multiset(clusters[i]) == multiset(clusters[j])
    ensures i == j
  {
    SameElements(clusters[i], clusters[j]);
    assert clusters[i][0] in clusters[i] && clusters[i][0] in clusters[j];
  }

  /** The strategy and the position within it of an item. */
  lemma ItemAt(first: seq<seq<string>>, second: seq<seq<string>>, i: nat)
    requires i < |first| + |second|
    ensures (ItemsOf(Dbscan, first) + ItemsOf(Hdbscan, second))[i]
         == if i < |first| then Item(Dbscan, first[i]) else Item(Hdbscan, second[i - |first|])
  {
  }

  lemma ClusterMarkersDiffer(digest: string -> string, clusters: seq<seq<string>>, s: Strategy, i: nat, j: nat)
    requires Separate(digest, clusters) && i < |clusters| && j < |clusters|
    requires ClusterMarker(s, clusters[i], digest) == ClusterMarker(s, clusters[j], digest)
    ensures i == j
  {
    ClusterMarkerInjective(s, clusters[i], s, clusters[j], digest);
    SameCluster(clusters, i, j);
  }

  lemma StrategiesDiffer(s: Strategy, a: seq<string>, t: Strategy, b: seq<string>, digest: string -> string)
    requires ClusterMarker(s, a, digest) == ClusterMarker(t, b, digest)
    ensures s == t
  {
  }

  lemma MarkersDiffer(p: Plan, first: seq<seq<string>>, second: seq<seq<string>>, i: nat, j: nat)
    requires Separate(p.digest, first) && Separate(p.digest, second)
    requires i < |first| + |second| && j < |first| + |second|
    requires var items := ItemsOf(Dbscan, first) + ItemsOf(Hdbscan, second); ItemMarker(p, items[i]) == ItemMarker(p, items[j])
    ensures i == j
  {
    hide ItemsOf, ClusterMarker, Separate;
    ItemAt(first, second, i);
    ItemAt(first, second, j);
    if i < |first| && j < |first| {
      ClusterMarkersDiffer(p.digest, first, Dbscan, i, j);
    } else if i >= |first| && j >= |first| {
      ClusterMarkersDiffer(p.digest, second, Hdbscan, i - |first|, j - |first|);
    } else if i < |first| {
      StrategiesDiffer(Dbscan, first[i], Hdbscan, second[j - |first|], p.digest);
    } else {
      StrategiesDiffer(Hdbscan, second[i - |first|], Dbscan, first[j], p.digest);
    }
  }

  lemma ItemMarkersDiffer(p: Plan, rows: seq<MicroRule>, i: nat, j: nat)
    requires p.Valid() && p.Own(rows)
    requires i < |Items(p, rows)| && j < |Items(p, rows)|
    requires ItemMarker(p, Items(p, rows)[i]) == ItemMarker(p, Items(p, rows)[j])
    ensures i == j
  {
    MarkersDiffer(p, p.clusters(Dbscan, rows), p.clusters(Hdbscan, rows), i, j);
  }

  // ── One cluster ──────────────────────────────────────────────────────────

  lemma MarkItem(p: Plan, markers: set<Marker>, rows: seq<MicroRule>, n: nat)
    requires p.Valid() && p.Own(rows) && n < |Items(p, rows)|
    requires ItemsMarked(p, markers, Items(p, rows), DbscanCount(p, rows), n)
    requires n >= DbscanCount(p, rows) ==> StrategyMarker(SynthesizingRules, Dbscan) in markers
    ensures ItemsMarked(p, markers + {ItemMarker(p, Items(p, rows)[n])}, Items(p, rows), DbscanCount(p, rows), n + 1)
  {
    hide Plan.Own, Plan.Valid, Items;
    var items := Items(p, rows);
    forall i | 0 <= i < |items| && ItemMarker(p, items[i]) == ItemMarker(p, items[n]) ensures i == n {
      ItemMarkersDiffer(p, rows, i, n);
    }
  }

  lemma ClusterStep(p: Plan, markers: set<Marker>, rows: seq<MicroRule>, synthesized: seq<SynthesizedRule>,
                    replies: seq<seq<string>>, reply: seq<string>, log: seq<Call>)
    requires p.Valid() && p.Own(rows)
    requires SynthesisInv(p, markers, rows, synthesized, replies, log) && EXTRACTED in markers
    requires |replies| < |Items(p, rows)|
    requires var item := Items(p, rows)[|replies|]; Call(SynthesizeCluster(item.strategy, item.ruleIds), Some(reply)) in log
    requires |replies| >= DbscanCount(p, rows) ==> StrategyMarker(SynthesizingRules, Dbscan) in markers
    ensures var item := Items(p, rows)[|replies|];
            SynthesisInv(p, markers + {ItemMarker(p, item)}, rows, synthesized + ItemBlock(item, reply), replies + [reply], log)
  {
    hide Plan.Own, Plan.Valid, Items, ItemsMarked, ItemMarker;
    BlocksNext(ItemBlock, Items(p, rows), replies, reply);
    MarkItem(p, markers, rows, |replies|);
  }

  method BuildSynthesizedRules(item: Item, reply: seq<string>) returns (rows: seq<SynthesizedRule>)
    ensures rows == ItemBlock(item, reply)
  {
    rows := [];
    for i := 0 to |reply|
      invariant rows == ItemBlock(item, reply)[..i]
    {
      rows := rows + [SynthesizedRule(item.strategy, item.ruleIds, reply[i])];
    }
  }

  method SynthesizeOne(db: Database, teacher: Teacher, item: Item, budget: nat) returns (left: nat, crashed: bool)
    requires db.Inv(teacher.log) && EXTRACTED in db.markers
    requires |db.consolidated| < |Items(db.plan, db.microRules)| && item == Items(db.plan, db.microRules)[|db.consolidated|]
    requires |db.consolidated| >= DbscanCount(db.plan, db.microRules) ==> StrategyMarker(SynthesizingRules, Dbscan) in db.markers
    modifies db, teacher
    ensures db.Inv(teacher.log) && |teacher.log| == |old(teacher.log)| + 1
    ensures db.microRules == old(db.microRules) && db.extracted == old(db.extracted)
    ensures db.markers == if crashed then old(db.markers) else old(db.markers) + {ItemMarker(db.plan, item)}
    ensures |db.consolidated| == |old(db.consolidated)| + if crashed then 0 else 1
    ensures crashed ==> Died(left, old(Raised(teacher.log)), teacher.log)
    ensures Raised(teacher.log) >= old(Raised(teacher.log))
    ensures Progress(db) - old(Progress(db)) >= budget - left
    ensures 0 <= budget - left <= 1
  {
    hide Database.Inv;
    ghost var log := teacher.log;
    var reply := teacher.Ask(SynthesizeCluster(item.strategy, item.ruleIds));
    LogGrows(db, log, Call(SynthesizeCluster(item.strategy, item.ruleIds), reply));
    if reply.None? {
      return budget, true;
    }
    left, crashed := StoreCluster(db, teacher.log, item, reply.value, budget);
  }

  /** What the commit will leave satisfies the invariants, and the marker is new. */
  lemma ClusterCommit(db: Database, log: seq<Call>, item: Item, reply: seq<string>)
    requires db.Inv(log) && EXTRACTED in db.markers
    requires Call(SynthesizeCluster(item.strategy, item.ruleIds), Some(reply)) in log
    requires |db.consolidated| < |Items(db.plan, db.microRules)| && item == Items(db.plan, db.microRules)[|db.consolidated|]
    requires |db.consolidated| >= DbscanCount(db.plan, db.microRules) ==> StrategyMarker(SynthesizingRules, Dbscan) in db.markers
    ensures var markers := db.markers + {ItemMarker(db.plan, item)};
            && ItemMarker(db.plan, item) !in db.markers
            && CasesMarked(db.plan, markers, db.extracted) && PrefixClosed(markers)
            && SynthesisInv(db.plan, markers, db.microRules, db.synthesized + ItemBlock(item, reply),
                            db.consolidated + [reply], log)
  {
    RowsAreOwn(db.plan, db.markers, db.microRules, db.extracted, log);
    ClusterStep(db.plan, db.markers, db.microRules, db.synthesized, db.consolidated, reply, log);
    OtherStageKeepsCases(db.plan, db.markers, db.extracted, ItemMarker(db.plan, item));
    ArtifactKeepsPrefix(db.markers, ItemMarker(db.plan, item));
  }

  method StoreCluster(db: Database, ghost log: seq<Call>, item: Item, reply: seq<string>, budget: nat)
    returns (left: nat, crashed: bool)
    requires db.Inv(log) && EXTRACTED in db.markers
    requires Call(SynthesizeCluster(item.strategy, item.ruleIds), Some(reply)) in log
    requires |db.consolidated| < |Items(db.plan, db.microRules)| && item == Items(db.plan, db.microRules)[|db.consolidated|]
    requires |db.consolidated| >= DbscanCount(db.plan, db.microRules) ==> StrategyMarker(SynthesizingRules, Dbscan) in db.markers
    modifies db
    ensures db.Inv(log)
    ensures db.microRules == old(db.microRules) && db.extracted == old(db.extracted)
    ensures db.markers == if crashed then old(db.markers) else old(db.markers) + {ItemMarker(db.plan, item)}
    ensures |db.consolidated| == |old(db.consolidated)| + if crashed then 0 else 1
    ensures Marked(db.plan, db.markers) >= old(Marked(db.plan, db.markers)) && left == if crashed then 0 else budget - 1
    ensures crashed <==> budget == 0
  {
    hide RowsSourced, CasesMarked, SynthesisInv, PrefixClosed, Marked;
    var rows := BuildSynthesizedRules(item, reply);
    ClusterCommit(db, log, item, reply);
    left, crashed := db.InsertSynthesizedAndMark(rows, ItemMarker(db.plan, item), budget);
    if !crashed {
      db.consolidated := db.consolidated + [reply];
    }
  }

  // ── One attempt at a strategy ────────────────────────────────────────────

  /** How many items are synthesized when a strategy is complete. */
  function EndOf(p: Plan, rows: seq<MicroRule>, strategy: Strategy): nat {
    if strategy == Dbscan then DbscanCount(p, rows) else |Items(p, rows)|
  }

  /** The clusters of a strategy are items `lo` to `lo + |clusters|`. */
  lemma ItemsAt(p: Plan, rows: seq<MicroRule>, strategy: Strategy, j: nat) returns (lo: nat)
    ensures lo == if strategy == Dbscan then 0 else DbscanCount(p, rows)
    ensures lo + |p.clusters(strategy, rows)| <= |Items(p, rows)|
    ensures strategy == Hdbscan ==> lo + |p.clusters(strategy, rows)| == |Items(p, rows)|
    ensures j < |p.clusters(strategy, rows)| ==>
      Items(p, rows)[lo + j] == Item(strategy, p.clusters(strategy, rows)[j])
  {
    lo := if strategy == Dbscan then 0 else DbscanCount(p, rows);
  }

  /** The stage completed just before the synthesis for a strategy. */
  function Before(strategy: Strategy): Marker {
    match strategy
    case Dbscan => StageMarker(ClusteringRules)
    case Hdbscan => StrategyMarker(SynthesizingRules, Dbscan)
  }

  /** Where an attempt at a strategy may stand: the strategy is not complete, and the one before it is. */
  ghost predicate AtStrategy(db: Database, strategy: Strategy, log: seq<Call>)
    reads db
  {
    && db.Inv(log)
    && Before(strategy) in db.markers && EXTRACTED in db.markers
    && StrategyMarker(SynthesizingRules, strategy) !in db.markers
  }

  /** The cluster to come is settled exactly when its marker is there; otherwise it is the next item. */
  lemma NextItem(db: Database, log: seq<Call>, strategy: Strategy, j: nat, lo: nat)
    requires AtStrategy(db, strategy, log) && j < |db.plan.clusters(strategy, db.microRules)|
    requires lo == (if strategy == Dbscan then 0 else DbscanCount(db.plan, db.microRules)) && lo + j <= |db.consolidated|
    ensures var item, items := Item(strategy, db.plan.clusters(strategy, db.microRules)[j]), Items(db.plan, db.microRules);
            && (ItemMarker(db.plan, item) in db.markers <==> lo + j < |db.consolidated|)
            && (lo + j == |db.consolidated| ==> |db.consolidated| < |items| && items[|db.consolidated|] == item)
    ensures |db.consolidated| >= DbscanCount(db.plan, db.microRules) && lo + j == |db.consolidated|
        ==> StrategyMarker(SynthesizingRules, Dbscan) in db.markers
  {
    var at := ItemsAt(db.plan, db.microRules, strategy, j);
  }

  /** A cluster with its marker costs nothing, any other one costs one call. */
  method SynthesizeNext(db: Database, teacher: Teacher, strategy: Strategy, clusters: seq<seq<string>>, j: nat,
                        ghost lo: nat,
                        budget: nat)
    returns (left: nat, crashed: bool)
    requires AtStrategy(db, strategy, teacher.log) && clusters == db.plan.clusters(strategy, db.microRules) && j < |clusters|
    requires lo == (if strategy == Dbscan then 0 else DbscanCount(db.plan, db.microRules)) && lo + j <= |db.consolidated|
    modifies db, teacher
    ensures AtStrategy(db, strategy, teacher.log) && old(db.markers) <= db.markers
    ensures db.microRules == old(db.microRules) && db.extracted == old(db.extracted)
    ensures |db.consolidated| == |old(db.consolidated)| + if crashed || lo + j < |old(db.consolidated)| then 0 else 1
    ensures |teacher.log| == |old(teacher.log)| + |db.consolidated| - |old(db.consolidated)| + if crashed then 1 else 0
    ensures crashed ==> Died(left, old(Raised(teacher.log)), teacher.log)
    ensures Raised(teacher.log) >= old(Raised(teacher.log))
    ensures Progress(db) - old(Progress(db)) >= budget - left
    ensures 0 <= budget - left <= 1
  {
    NextItem(db, teacher.log, strategy, j, lo);
    if ClusterMarker(strategy, clusters[j], db.plan.digest) in db.markers {
      return budget, false;
    }
    left, crashed := SynthesizeOne(db, teacher, Item(strategy, clusters[j]), budget);
  }

  lemma EarlierStrategyDone(db: Database, log: seq<Call>, strategy: Strategy)
    requires AtStrategy(db, strategy, log)
    ensures strategy == Hdbscan ==> |db.consolidated| >= DbscanCount(db.plan, db.microRules)
  {
  }

  method SynthesizeClusters(db: Database, teacher: Teacher, strategy: Strategy, budget: nat)
    returns (left: nat, crashed: bool)
    requires AtStrategy(db, strategy, teacher.log)
    modifies db, teacher
    ensures AtStrategy(db, strategy, teacher.log) && old(db.markers) <= db.markers
    ensures db.microRules == old(db.microRules) && db.extracted == old(db.extracted)
    ensures |teacher.log| - |old(teacher.log)| <= |db.consolidated| - |old(db.consolidated)| + if crashed then 1 else 0
    ensures !crashed ==> |db.consolidated| >= EndOf(db.plan, db.microRules, strategy)
    ensures crashed ==> Died(left, old(Raised(teacher.log)), teacher.log)
    ensures Raised(teacher.log) >= old(Raised(teacher.log))
    ensures Progress(db) - old(Progress(db)) >= budget - left
    ensures 0 <= budget - left <= |db.plan.clusters(strategy, db.microRules)|
  {
    hide AtStrategy, Progress;
    var clusters := db.plan.clusters(strategy, db.microRules);
    ghost var done := |db.consolidated|;
    ghost var lo := ItemsAt(db.plan, db.microRules, strategy, 0);
    EarlierStrategyDone(db, teacher.log, strategy);
    left, crashed := budget, false;
    for j := 0 to |clusters|
      invariant AtStrategy(db, strategy, teacher.log) && old(db.markers) <= db.markers
      invariant db.microRules == old(db.microRules) && db.extracted == old(db.extracted)
      invariant |db.consolidated| == if lo + j < done then done else lo + j
      invariant |teacher.log| - |old(teacher.log)| == |db.consolidated| - done
      invariant Raised(teacher.log) >= old(Raised(teacher.log))
      invariant Progress(db) - old(Progress(db)) >= budget - left && 0 <= budget - left <= j
    {
      left, crashed := SynthesizeNext(db, teacher, strategy, clusters, j, lo, left);
      if crashed {
        return;
      }
    }
  }

  lemma StrategyStep(p: Plan, markers: set<Marker>, rows: seq<MicroRule>, synthesized: seq<SynthesizedRule>,
                     replies: seq<seq<string>>, log: seq<Call>, strategy: Strategy)
    requires SynthesisInv(p, markers, rows, synthesized, replies, log) && EXTRACTED in markers
    requires |replies| >= EndOf(p, rows, strategy)
    ensures SynthesisInv(p, markers + {StrategyMarker(SynthesizingRules, strategy)}, rows, synthesized, replies, log)
  {
    assert forall item :: ItemMarker(p, item) != StrategyMarker(SynthesizingRules, strategy);
  }

  /** What marking a finished strategy leaves satisfies the invariants. */
  lemma StrategyCommit(db: Database, log: seq<Call>, strategy: Strategy)
    requires AtStrategy(db, strategy, log) && |db.consolidated| >= EndOf(db.plan, db.microRules, strategy)
    ensures var markers := db.markers + {StrategyMarker(SynthesizingRules, strategy)};
            && SynthesisInv(db.plan, markers, db.microRules, db.synthesized, db.consolidated, log)
            && CasesMarked(db.plan, markers, db.extracted) && PrefixClosed(markers)
  {
    hide RowsSourced, SynthesisInv, Plan.Valid;
    var marker := StrategyMarker(SynthesizingRules, strategy);
    StrategyStep(db.plan, db.markers, db.microRules, db.synthesized, db.consolidated, log, strategy);
    OtherStageKeepsCases(db.plan, db.markers, db.extracted, marker);
    NextKeepsPrefix(db.markers, Before(strategy), marker);
  }

  method CompleteStrategy(db: Database, ghost log: seq<Call>, strategy: Strategy, budget: nat)
    returns (left: nat, crashed: bool)
    requires AtStrategy(db, strategy, log) && |db.consolidated| >= EndOf(db.plan, db.microRules, strategy)
    modifies db`markers
    ensures db.Inv(log) && old(db.markers) <= db.markers
    ensures !crashed ==> StrategyMarker(SynthesizingRules, strategy) in db.markers
    ensures Progress(db) - old(Progress(db)) >= budget - left && 0 <= budget - left <= 1 && (crashed ==> left == 0)
  {
    hide RowsSourced, CasesMarked, SynthesisInv, PrefixClosed, Marked;
    StrategyCommit(db, log, strategy);
    left, crashed := db.MarkStageComplete(StrategyMarker(SynthesizingRules, strategy), budget);
  }

  lemma BeginStrategy(db: Database, log: seq<Call>, strategy: Strategy)
    requires db.Inv(log) && Before(strategy) in db.markers && StrategyMarker(SynthesizingRules, strategy) !in db.markers
    ensures AtStrategy(db, strategy, log)
  {
  }

  method SynthesizeRules(db: Database, teacher: Teacher, strategy: Strategy, budget: nat)
    returns (left: nat, crashed: bool)
    requires db.Inv(teacher.log)
    requires Before(strategy) in db.markers
    modifies db, teacher
    ensures db.Inv(teacher.log) && old(db.markers) <= db.markers
    ensures db.microRules == old(db.microRules) && db.extracted == old(db.extracted)
    ensures |teacher.log| - |old(teacher.log)| <= |db.consolidated| - |old(db.consolidated)| + if crashed then 1 else 0
    ensures !crashed ==> StrategyMarker(SynthesizingRules, strategy) in db.markers
    ensures crashed ==> Died(left, old(Raised(teacher.log)), teacher.log)
    ensures Raised(teacher.log) >= old(Raised(teacher.log))
    ensures Progress(db) - old(Progress(db)) >= budget - left
    ensures 0 <= budget - left <= |db.plan.clusters(strategy, db.microRules)| + 1
  {
    hide Database.Inv, Progress;
    left, crashed := budget, false;
    if StrategyMarker(SynthesizingRules, strategy) in db.markers {
      return;
    }
    BeginStrategy(db, teacher.log, strategy);
    left, crashed := SynthesizeClusters(db, teacher, strategy, left);
    if crashed {
      return;
    }
    left, crashed := CompleteStrategy(db, teacher.log, strategy, left);
  }
}
