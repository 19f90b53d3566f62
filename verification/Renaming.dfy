/** Identifiers of micro rules are drawn at random: two runs of one job agree up to a renaming of them. */
module Renaming {
  import opened Wrappers
  import opened Sorting
  import opened Markers
  import opened Clusters
  import opened CompileStore

  type Rename = string -> string

  function RenamedIds(f: Rename, ids: seq<string>): (r: seq<string>)
    ensures |r| == |ids|
  {
    seq(|ids|, i requires 0 <= i < |ids| => f(ids[i]))
  }

  function RenamedClusters(f: Rename, clusters: seq<seq<string>>): (r: seq<seq<string>>)
    ensures |r| == |clusters|
  {
    seq(|clusters|, i requires 0 <= i < |clusters| => RenamedIds(f, clusters[i]))
  }

  function RenamedRows(f: Rename, rows: seq<MicroRule>): (r: seq<MicroRule>)
    ensures |r| == |rows|
  {
    seq(|rows|, i requires 0 <= i < |rows| => rows[i].(id := f(rows[i].id)))
  }

  function RenamedItems(f: Rename, items: seq<Item>): (r: seq<Item>)
    ensures |r| == |items|
  {
    seq(|items|, i requires 0 <= i < |items| => Item(items[i].strategy, RenamedIds(f, items[i].ruleIds)))
  }

  function RenamedRules(f: Rename, rules: seq<SynthesizedRule>): (r: seq<SynthesizedRule>)
    ensures |r| == |rules|
  {
    seq(|rules|, i requires 0 <= i < |rules| => rules[i].(sourceIds := RenamedIds(f, rules[i].sourceIds)))
  }

  function RenamedRequest(f: Rename, request: Request): Request {
    match request
    case ExtractCase(caseId) => request
    case SynthesizeCluster(strategy, ruleIds) => SynthesizeCluster(strategy, RenamedIds(f, ruleIds))
  }

  /** The two logs answer no request in two ways, up to the renaming. */
  ghost predicate Agree(f: Rename, log: seq<Call>, other: seq<Call>) {
    forall a, b :: a in log && b in other && b.request == RenamedRequest(f, a.request) && a.reply.Some? && b.reply.Some?
      ==> a.reply == b.reply
  }

  /** The same job with other identifiers: the clustering looks at the texts of the rules only. */
  ghost predicate SameJob(p: Plan, q: Plan, f: Rename) {
    && p.job == q.job && p.cases == q.cases
    && (forall i :: f(p.uuid(i)) == q.uuid(i))
    && (forall strategy, rows :: Numbered(p.uuid, rows) ==>
          q.clusters(strategy, RenamedRows(f, rows)) == RenamedClusters(f, p.clusters(strategy, rows)))
  }

  lemma RenamingExists(uuid: nat -> string, other: nat -> string) returns (f: Rename)
    requires forall i, j :: uuid(i) == uuid(j) ==> i == j
    ensures forall i :: f(uuid(i)) == other(i)
  {
    f := (x: string) => if exists i: nat :: uuid(i) == x then var i: nat :| uuid(i) == x; other(i) else x;
    forall i: nat ensures f(uuid(i)) == other(i) {
      var j: nat :| uuid(j) == uuid(i) && f(uuid(i)) == other(j);
    }
  }

  // ── Clustering commutes with renaming ────────────────────────────────────

  function RenamedPairs(f: Rename, pairs: seq<(string, int)>): (r: seq<(string, int)>)
    ensures |r| == |pairs|
  {
    seq(|pairs|, i requires 0 <= i < |pairs| => (f(pairs[i].0), pairs[i].1))
  }

  lemma RenamedInit(f: Rename, pairs: seq<(string, int)>)
    requires pairs != []
    ensures var n := |pairs| - 1;
            RenamedPairs(f, pairs)[..n] == RenamedPairs(f, pairs[..n]) && RenamedPairs(f, pairs)[n] == (f(pairs[n].0), pairs[n].1)
  {
  }

  lemma {:induction false} GroupRenamed(f: Rename, pairs: seq<(string, int)>, l: int)
    ensures Group(RenamedPairs(f, pairs), l) == RenamedIds(f, Group(pairs, l))
  {
    if pairs != [] {
      RenamedInit(f, pairs);
      GroupRenamed(f, pairs[..|pairs| - 1], l);
    }
  }

  lemma {:induction false} KeysRenamed(f: Rename, pairs: seq<(string, int)>)
    ensures Keys(RenamedPairs(f, pairs)) == Keys(pairs)
  {
    if pairs != [] {
      RenamedInit(f, pairs);
      KeysRenamed(f, pairs[..|pairs| - 1]);
    }
  }

  lemma ClustersRenamed(f: Rename, ids: seq<string>, labels: seq<int>)
    ensures ClustersOf(RenamedIds(f, ids), labels) == RenamedClusters(f, ClustersOf(ids, labels))
  {
    var pairs := Zipped(ids, labels);
    assert Zipped(RenamedIds(f, ids), labels) == RenamedPairs(f, pairs);
    KeysRenamed(f, pairs);
    var keys := Sort(IntLe, Keys(pairs));
    forall i | 0 <= i < |keys|
      ensures Groups(RenamedPairs(f, pairs), keys)[i] == RenamedClusters(f, Groups(pairs, keys))[i]
    {
      GroupRenamed(f, pairs, keys[i]);
    }
  }

  // ── So does synthesis ────────────────────────────────────────────────────

  lemma ItemsRenamed(p: Plan, q: Plan, f: Rename, rows: seq<MicroRule>)
    requires SameJob(p, q, f) && Numbered(p.uuid, rows)
    ensures Items(q, RenamedRows(f, rows)) == RenamedItems(f, Items(p, rows))
  {
    var first, second := p.clusters(Dbscan, rows), p.clusters(Hdbscan, rows);
    assert ItemsOf(Dbscan, RenamedClusters(f, first)) == RenamedItems(f, ItemsOf(Dbscan, first));
    assert ItemsOf(Hdbscan, RenamedClusters(f, second)) == RenamedItems(f, ItemsOf(Hdbscan, second));
  }

  lemma BlockRenamed(f: Rename, item: Item, reply: seq<string>)
    ensures ItemBlock(Item(item.strategy, RenamedIds(f, item.ruleIds)), reply) == RenamedRules(f, ItemBlock(item, reply))
  {
  }

  lemma RulesRenamedConcat(f: Rename, a: seq<SynthesizedRule>, b: seq<SynthesizedRule>)
    ensures RenamedRules(f, a + b) == RenamedRules(f, a) + RenamedRules(f, b)
  {
  }

  lemma {:induction false} BlocksRenamed(f: Rename, items: seq<Item>, replies: seq<seq<string>>)
    requires |replies| <= |items|
    ensures Blocks(ItemBlock, RenamedItems(f, items), replies) == RenamedRules(f, Blocks(ItemBlock, items, replies))
    decreases |replies|
  {
    if replies != [] {
      var n := |replies| - 1;
      BlocksRenamed(f, items, replies[..n]);
      BlockRenamed(f, items[n], replies[n]);
      RulesRenamedConcat(f, Blocks(ItemBlock, items, replies[..n]), ItemBlock(items[n], replies[n]));
    }
  }
}
