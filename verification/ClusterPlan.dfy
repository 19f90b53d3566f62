/** The clustering of the pipeline, `src/rulekiln/pipeline/clustering.py`, gives every job a valid plan. */
module ClusterPlan {
  import opened Sorting
  import opened Markers
  import opened Clusters
  import opened CompileStore
  import opened Renaming

  function RuleIds(rows: seq<MicroRule>): (ids: seq<string>)
    ensures |ids| == |rows|
  {
    seq(|rows|, i requires 0 <= i < |rows| => rows[i].id)
  }

  function Bodies(rows: seq<MicroRule>): (bodies: seq<string>)
    ensures |bodies| == |rows|
  {
    seq(|rows|, i requires 0 <= i < |rows| => rows[i].body)
  }

  /** `labels` stands for embedding the rule texts and for Dbscan or Hdbscan on their distances. */
  type Labelling = (Strategy, seq<string>) -> seq<int>

  function StrategyClusters(labels: Labelling, strategy: Strategy, rows: seq<MicroRule>): seq<seq<string>> {
    if rows == [] then []
    else if |rows| < 2 then [RuleIds(rows)]
    else ClustersOf(RuleIds(rows), labels(strategy, Bodies(rows)))
  }

  /** What clustering rows comes to, whatever the labels: a single rule is a cluster of its own, and of several rules two
      share a cluster exactly when they have the same label and it is not noise. */
  ghost predicate ClustersFit(rows: seq<MicroRule>, labels: seq<int>, clusters: seq<seq<string>>) {
    && (rows == [] ==> clusters == [])
    && (|rows| == 1 ==> clusters == [[rows[0].id]])
    && (|rows| >= 2 && Distinct(RuleIds(rows)) ==>
          && Disjoint(clusters) && (forall c, x :: c in clusters && x in c ==> x in RuleIds(rows))
          && forall j, k :: 0 <= j < |rows| && 0 <= k < |rows| ==> ShareCluster(rows, labels, clusters, j, k))
  }

  ghost predicate ShareCluster(rows: seq<MicroRule>, labels: seq<int>, clusters: seq<seq<string>>, j: nat, k: nat)
    requires j < |rows| && k < |rows|
  {
    (exists c :: c in clusters && rows[j].id in c && rows[k].id in c)
    <==> j < |labels| && k < |labels| && labels[j] == labels[k] != -1
  }

  lemma StrategyClustersFit(labels: Labelling, strategy: Strategy, rows: seq<MicroRule>)
    ensures ClustersFit(rows, labels(strategy, Bodies(rows)), StrategyClusters(labels, strategy, rows))
  {
    var ids, found := RuleIds(rows), labels(strategy, Bodies(rows));
    if |rows| == 1 {
      assert ids == [rows[0].id];
    } else if |rows| >= 2 && Distinct(ids) {
      ClustersDisjoint(ids, found);
      forall j, k | 0 <= j < |rows| && 0 <= k < |rows| ensures ShareCluster(rows, found, ClustersOf(ids, found), j, k) {
        TogetherIff(ids, found, j, k);
      }
    }
  }

  method ComputeClusters(labels: Labelling, strategy: Strategy, rows: seq<MicroRule>)
    returns (clusters: seq<seq<string>>)
    ensures clusters == StrategyClusters(labels, strategy, rows)
    ensures ClustersFit(rows, labels(strategy, Bodies(rows)), clusters)
  {
    hide ClustersFit, ClustersOf;
    StrategyClustersFit(labels, strategy, rows);
    if rows == [] {
      return [];
    }
    if |rows| < 2 {
      return [RuleIds(rows)];
    }
    clusters := BuildClusters(labels(strategy, Bodies(rows)), RuleIds(rows));
  }

  function PlanFor(job: string, cases: seq<string>, uuid: nat -> string, labels: Labelling,
                   digest: string -> string, gives: (string, seq<string>) -> bool): Plan {
    Plan(job, cases, uuid, (strategy: Strategy, rows: seq<MicroRule>) => StrategyClusters(labels, strategy, rows), digest,
         gives)
  }

  lemma ClustersAreGood(uuid: nat -> string, labels: Labelling, strategy: Strategy, rows: seq<MicroRule>)
    requires (forall i, j :: uuid(i) == uuid(j) ==> i == j) && (forall i :: PlainId(uuid(i))) && Numbered(uuid, rows)
    ensures Disjoint(StrategyClusters(labels, strategy, rows)) && Plain(StrategyClusters(labels, strategy, rows))
  {
    var ids := RuleIds(rows);
    assert Distinct(ids) && forall x :: x in ids ==> PlainId(x);
    if |rows| >= 2 {
      var clusters := ClustersOf(ids, labels(strategy, Bodies(rows)));
      ClustersDisjoint(ids, labels(strategy, Bodies(rows)));
      assert forall i :: 0 <= i < |clusters| ==> clusters[i] in clusters;
    } else if |rows| == 1 {
      assert ids[0] in ids;
    }
  }

  /** Whatever labels the clustering gives: if no two clusters it may come to have collide, none share a marker. */
  lemma PlanIsValid(job: string, cases: seq<string>, uuid: nat -> string, labels: Labelling, digest: string -> string,
                    gives: (string, seq<string>) -> bool)
    requires Distinct(cases)
    requires (forall i, j :: uuid(i) == uuid(j) ==> i == j) && (forall i :: PlainId(uuid(i)))
    requires forall strategy, rows :: PlanFor(job, cases, uuid, labels, digest, gives).Own(rows) ==>
      NoCollisions(digest, StrategyClusters(labels, strategy, rows))
    ensures PlanFor(job, cases, uuid, labels, digest, gives).Valid()
  {
    forall strategy, rows | Numbered(uuid, rows)
      ensures Disjoint(StrategyClusters(labels, strategy, rows)) && Plain(StrategyClusters(labels, strategy, rows))
    {
      ClustersAreGood(uuid, labels, strategy, rows);
    }
  }

  /** Two runs of one job differ in their identifiers only, for any embedding and clustering of the rule texts. */
  lemma PlansAreSameJob(job: string, cases: seq<string>, uuid: nat -> string, other: nat -> string, labels: Labelling,
                        digest: string -> string, gives: (string, seq<string>) -> bool, f: Rename)
    requires forall i :: f(uuid(i)) == other(i)
    ensures SameJob(PlanFor(job, cases, uuid, labels, digest, gives), PlanFor(job, cases, other, labels, digest, gives), f)
  {
    forall strategy, rows | Numbered(uuid, rows)
      ensures StrategyClusters(labels, strategy, RenamedRows(f, rows))
           == RenamedClusters(f, StrategyClusters(labels, strategy, rows))
    {
      var ids := RuleIds(rows);
      assert RuleIds(RenamedRows(f, rows)) == RenamedIds(f, ids);
      assert Bodies(RenamedRows(f, rows)) == Bodies(rows);
      ClustersRenamed(f, ids, labels(strategy, Bodies(rows)));
    }
  }
}
