/** Grouping rules by cluster label, `_build_clusters` of `src/rulekiln/pipeline/clustering.py`.
    The labels come from foreign code and are arbitrary. */
module Clusters {
  import opened Wrappers
  import opened Sorting
  import opened Grouping

  const NOISE_LABEL := -1

  function Min(a: nat, b: nat): nat { if a < b then a else b }

  /** `zip(rule_ids, labels, strict=False)`. */
  function Zipped(ids: seq<string>, labels: seq<int>): (pairs: seq<(string, int)>)
    ensures |pairs| == Min(|ids|, |labels|)
  {
    seq(Min(|ids|, |labels|), i requires 0 <= i < Min(|ids|, |labels|) => (ids[i], labels[i]))
  }

  function LabelOf(pair: (string, int)): Option<int> { if pair.1 == NOISE_LABEL then None else Some(pair.1) }

  function IdOf(pair: (string, int)): string { pair.0 }

  /** The ids carrying a label, in order. */
  function Group(pairs: seq<(string, int)>, l: int): seq<string> { GroupOf(LabelOf, IdOf, pairs, Some(l)) }

  /** The labels other than noise, in order of first appearance. */
  function Keys(pairs: seq<(string, int)>): seq<int> { KeysOf(LabelOf, pairs) }

  predicate IntLe(a: int, b: int) { a <= b }

  function Groups(pairs: seq<(string, int)>, keys: seq<int>): (groups: seq<seq<string>>)
    ensures |groups| == |keys|
  {
    seq(|keys|, i requires 0 <= i < |keys| => Group(pairs, keys[i]))
  }

  function ClustersOf(ids: seq<string>, labels: seq<int>): seq<seq<string>> {
    var pairs := Zipped(ids, labels);
    Groups(pairs, Sort(IntLe, Keys(pairs)))
  }

  lemma KeysDistinct(pairs: seq<(string, int)>)
    ensures Distinct(Keys(pairs))
    ensures forall l :: l in Keys(pairs) <==> l != NOISE_LABEL && exists i :: 0 <= i < |pairs| && pairs[i].1 == l
  {
    KeysOfDistinct(LabelOf, pairs);
    forall l ensures l in Keys(pairs) <==> l != NOISE_LABEL && exists i :: 0 <= i < |pairs| && pairs[i].1 == l {
      KeyIsPresent(LabelOf, pairs, l);
    }
  }

  lemma GroupMembers(pairs: seq<(string, int)>, l: int)
    requires l != NOISE_LABEL
    ensures forall x :: x in Group(pairs, l) <==> (x, l) in pairs
  {
    forall x ensures x in Group(pairs, l) <==> (x, l) in pairs {
      GroupOfMembers(LabelOf, IdOf, pairs, Some(l), x);
      if (x, l) in pairs {
        assert LabelOf((x, l)) == Some(l) && IdOf((x, l)) == x;
      }
    }
  }

  method GroupByLabel(pairs: seq<(string, int)>) returns (clusterMap: map<int, seq<string>>, keys: seq<int>)
    ensures Grouped(LabelOf, IdOf, clusterMap, keys, pairs)
  {
    hide Grouped;
    clusterMap, keys := map[], [];
    NothingGrouped<(string, int), int, string>(LabelOf, IdOf);
    for i := 0 to |pairs|
      invariant Grouped(LabelOf, IdOf, clusterMap, keys, pairs[..i])
    {
      assert pairs[..i + 1] == pairs[..i] + [pairs[i]];
      GroupedNext(LabelOf, IdOf, clusterMap, keys, pairs[..i], pairs[i]);
      var ruleId, l := pairs[i].0, pairs[i].1;
      if l == NOISE_LABEL {
        continue;
      }
      if l !in clusterMap {
        assert [] + [ruleId] == [ruleId];
        clusterMap, keys := clusterMap[l := [ruleId]], keys + [l];
      } else {
        clusterMap := clusterMap[l := clusterMap[l] + [ruleId]];
      }
    }
    assert pairs[..|pairs|] == pairs;
  }

  method BuildClusters(labels: seq<int>, ruleIds: seq<string>) returns (clusters: seq<seq<string>>)
    ensures clusters == ClustersOf(ruleIds, labels)
  {
    var pairs := Zipped(ruleIds, labels);
    var clusterMap, keys := GroupByLabel(pairs);
    var order := Sort(IntLe, keys);
    SameElements(keys, order);
    KeysDistinct(pairs);
    clusters := CollectClusters(clusterMap, order, pairs);
  }

  method CollectClusters(clusterMap: map<int, seq<string>>, order: seq<int>, ghost pairs: seq<(string, int)>)
    returns (clusters: seq<seq<string>>)
    requires forall l :: l in order ==> l in clusterMap && clusterMap[l] == Group(pairs, l)
    ensures clusters == Groups(pairs, order)
  {
    clusters := [];
    for i := 0 to |order|
      invariant clusters == Groups(pairs, order)[..i]
    {
      assert order[i] in order;
      clusters := clusters + [clusterMap[order[i]]];
    }
  }

  // ── What the clusters are ────────────────────────────────────────────────

  /** Clusters are non-empty, made of input ids, and no id is in two of them: what keeps their markers apart. */
  ghost predicate Disjoint(clusters: seq<seq<string>>) {
    && (forall i :: 0 <= i < |clusters| ==> clusters[i] != [])
    && (forall i, j, x :: 0 <= i < j < |clusters| && x in clusters[i] ==> x !in clusters[j])
  }

  lemma ZippedMembers(ids: seq<string>, labels: seq<int>)
    ensures forall x, l :: (x, l) in Zipped(ids, labels) ==> x in ids
    ensures Distinct(ids) ==> forall x, l, m :: (x, l) in Zipped(ids, labels) && (x, m) in Zipped(ids, labels) ==> l == m
  {
  }

  /** The clusters are the groups of distinct labels other than noise. */
  ghost predicate Proper(order: seq<int>, pairs: seq<(string, int)>) {
    Distinct(order) && forall l :: l in order <==> l != NOISE_LABEL && exists i :: 0 <= i < |pairs| && pairs[i].1 == l
  }

  lemma OrderIsProper(pairs: seq<(string, int)>)
    ensures Proper(Sort(IntLe, Keys(pairs)), pairs)
  {
    KeysDistinct(pairs);
    PermutedDistinct(Keys(pairs), Sort(IntLe, Keys(pairs)));
    SameElements(Keys(pairs), Sort(IntLe, Keys(pairs)));
  }

  lemma GroupAt(pairs: seq<(string, int)>, order: seq<int>, i: nat)
    requires Proper(order, pairs) && i < |order|
    ensures Groups(pairs, order)[i] != [] && forall x :: x in Groups(pairs, order)[i] <==> (x, order[i]) in pairs
  {
    assert order[i] in order;
    GroupMembers(pairs, order[i]);
    var k :| 0 <= k < |pairs| && pairs[k].1 == order[i];
    assert (pairs[k].0, order[i]) == pairs[k] && pairs[k] in pairs;
  }

  lemma ClustersDisjoint(ids: seq<string>, labels: seq<int>)
    requires Distinct(ids)
    ensures Disjoint(ClustersOf(ids, labels))
    ensures forall c, x :: c in ClustersOf(ids, labels) && x in c ==> x in ids
  {
    var pairs := Zipped(ids, labels);
    var order := Sort(IntLe, Keys(pairs));
    OrderIsProper(pairs);
    ZippedMembers(ids, labels);
    forall i | 0 <= i < |order|
      ensures Groups(pairs, order)[i] != [] && forall x :: x in Groups(pairs, order)[i] <==> (x, order[i]) in pairs
    {
      GroupAt(pairs, order, i);
    }
    hide Groups, Keys;
    var clusters := ClustersOf(ids, labels);
    forall i, j, x | 0 <= i < j < |clusters| && x in clusters[i] ensures x !in clusters[j] {
      assert order[i] != order[j];
    }
  }

  lemma PairAt(ids: seq<string>, labels: seq<int>, k: nat, l: int)
    requires Distinct(ids) && k < |ids|
    ensures (ids[k], l) in Zipped(ids, labels) <==> k < |labels| && labels[k] == l
  {
    var pairs := Zipped(ids, labels);
    if (ids[k], l) in pairs {
      var i :| 0 <= i < |pairs| && pairs[i] == (ids[k], l);
      assert ids[i] == ids[k];
    }
    if k < |labels| && labels[k] == l {
      assert pairs[k] == (ids[k], l);
    }
  }

  /** Two rules share a cluster exactly when they have the same label, and it is not noise. */
  lemma TogetherIff(ids: seq<string>, labels: seq<int>, j: nat, k: nat)
    requires Distinct(ids) && j < |ids| && k < |ids|
    ensures (exists c :: c in ClustersOf(ids, labels) && ids[j] in c && ids[k] in c)
       <==> j < |labels| && k < |labels| && labels[j] == labels[k] != -1
  {
    var pairs := Zipped(ids, labels);
    var order := Sort(IntLe, Keys(pairs));
    OrderIsProper(pairs);
    forall i | 0 <= i < |order| ensures forall x :: x in Groups(pairs, order)[i] <==> (x, order[i]) in pairs {
      GroupAt(pairs, order, i);
    }
    forall i | 0 <= i < |order|
      ensures ids[j] in Groups(pairs, order)[i] <==> j < |labels| && labels[j] == order[i]
      ensures ids[k] in Groups(pairs, order)[i] <==> k < |labels| && labels[k] == order[i]
    {
      PairAt(ids, labels, j, order[i]);
      PairAt(ids, labels, k, order[i]);
    }
    hide Keys, Group;
    if j < |labels| && k < |labels| && labels[j] == labels[k] != -1 {
      assert pairs[j].1 == labels[j] && labels[j] in order;
      var i :| 0 <= i < |order| && order[i] == labels[j];
      assert Groups(pairs, order)[i] in ClustersOf(ids, labels);
    }
    forall c | c in ClustersOf(ids, labels) && ids[j] in c && ids[k] in c
      ensures j < |labels| && k < |labels| && labels[j] == labels[k] != -1
    {
      var i :| 0 <= i < |order| && Groups(pairs, order)[i] == c;
      assert order[i] in order;
    }
  }

  /** The clusters are in the order of their labels. */
  lemma ClustersInOrder(ids: seq<string>, labels: seq<int>, i: nat, j: nat, a: nat, b: nat)
    requires Distinct(ids) && a < |ids| && b < |ids| && i < j < |ClustersOf(ids, labels)|
    requires ids[a] in ClustersOf(ids, labels)[i] && ids[b] in ClustersOf(ids, labels)[j]
    ensures a < |labels| && b < |labels| && labels[a] < labels[b]
  {
    var pairs := Zipped(ids, labels);
    var order := Sort(IntLe, Keys(pairs));
    OrderIsProper(pairs);
    SortSorts(IntLe, Keys(pairs));
    GroupAt(pairs, order, i);
    GroupAt(pairs, order, j);
    PairAt(ids, labels, a, order[i]);
    PairAt(ids, labels, b, order[j]);
    assert IntLe(order[i], order[j]) && order[i] != order[j];
  }

  /** A rule is in a cluster exactly when its label is not noise, and then with exactly the rules of that label. */
  lemma ClusterOfRule(ids: seq<string>, labels: seq<int>, k: nat)
    requires Distinct(ids) && k < |ids| && k < |labels|
    ensures (exists c :: c in ClustersOf(ids, labels) && ids[k] in c) <==> labels[k] != NOISE_LABEL
    ensures labels[k] != NOISE_LABEL ==> Group(Zipped(ids, labels), labels[k]) in ClustersOf(ids, labels)
  {
    var pairs := Zipped(ids, labels);
    var order := Sort(IntLe, Keys(pairs));
    KeysDistinct(pairs);
    SameElements(Keys(pairs), order);
    ZippedMembers(ids, labels);
    assert pairs[k] == (ids[k], labels[k]);
    if labels[k] != NOISE_LABEL {
      GroupMembers(pairs, labels[k]);
      assert labels[k] in order;
      var i :| 0 <= i < |order| && order[i] == labels[k];
      assert ClustersOf(ids, labels)[i] == Group(pairs, labels[k]);
    }
    forall c | c in ClustersOf(ids, labels) && ids[k] in c ensures labels[k] != NOISE_LABEL {
      var i :| 0 <= i < |order| && ClustersOf(ids, labels)[i] == c;
      assert order[i] in Keys(pairs);
      GroupMembers(pairs, order[i]);
    }
  }
}
