/** Stage markers and the strings that name their artifacts, `src/rulekiln/workers/distillation_worker.py`
    and `src/rulekiln/db/repositories/jobs.py`. */
module Markers {
  import opened Wrappers
  import opened Sorting

  datatype Stage =
    | ValidatingProject | ExtractingRules | EmbeddingRules | ClusteringRules | SynthesizingRules
    | ReviewingRuleConflicts | PruningRules | CompilingPrompts

  datatype Strategy = Dbscan | Hdbscan

  function Name(strategy: Strategy): string {
    match strategy
    case Dbscan => "dbscan"
    case Hdbscan => "hdbscan"
  }

  datatype Marker = Marker(stage: Stage, strategy: Option<Strategy>, artifact: Option<string>)

  function StageMarker(stage: Stage): Marker { Marker(stage, None, None) }

  function StrategyMarker(stage: Stage, strategy: Strategy): Marker { Marker(stage, Some(strategy), None) }

  /** The stages of the compile phase that are completed once per strategy. */
  predicate PerStrategy(stage: Stage) {
    stage == SynthesizingRules || stage == ReviewingRuleConflicts || stage == PruningRules || stage == CompilingPrompts
  }

  predicate InChain(m: Marker) {
    m.artifact.None? && (m.strategy.Some? <==> PerStrategy(m.stage))
  }

  /** The position of a stage in the order in which the compile phase completes them. */
  function Position(m: Marker): nat
    requires InChain(m)
  {
    (match m.stage
     case ValidatingProject => 0
     case ExtractingRules => 1
     case EmbeddingRules => 2
     case ClusteringRules => 3
     case SynthesizingRules => 4
     case ReviewingRuleConflicts => 6
     case PruningRules => 8
     case CompilingPrompts => 10)
    + if m.strategy == Some(Hdbscan) then 1 else 0
  }

  /** The completed stages are a prefix of the compile chain. */
  ghost predicate PrefixClosed(markers: set<Marker>) {
    forall m, n :: InChain(m) && InChain(n) && Position(m) < Position(n) && n in markers ==> m in markers
  }

  lemma ArtifactKeepsPrefix(markers: set<Marker>, m: Marker)
    requires PrefixClosed(markers) && m.artifact.Some?
    ensures PrefixClosed(markers + {m})
  {
  }

  lemma FirstKeepsPrefix(markers: set<Marker>, first: Marker)
    requires PrefixClosed(markers) && InChain(first) && Position(first) == 0
    ensures PrefixClosed(markers + {first})
  {
  }

  /** The next stage after a completed one keeps the prefix. */
  lemma NextKeepsPrefix(markers: set<Marker>, before: Marker, next: Marker)
    requires PrefixClosed(markers) && before in markers
    requires InChain(before) && InChain(next) && Position(next) <= Position(before) + 1
    ensures PrefixClosed(markers + {next})
  {
    forall m | InChain(m) && Position(m) < Position(next) ensures m in markers {
      if Position(m) == Position(before) {
        SamePosition(m, before);
      }
    }
  }

  lemma SamePosition(m: Marker, n: Marker)
    requires InChain(m) && InChain(n) && Position(m) == Position(n)
    ensures m == n
  {
    assert m.stage == n.stage;
    if m.strategy.Some? {
      assert m.strategy.value == Dbscan <==> n.strategy.value == Dbscan;
      assert m.strategy == n.strategy;
    }
  }

  /** The stages in the order in which a job goes through them. */
  const COMPILE_ORDER: seq<Marker> := [
    StageMarker(ValidatingProject), StageMarker(ExtractingRules), StageMarker(EmbeddingRules), StageMarker(ClusteringRules),
    StrategyMarker(SynthesizingRules, Dbscan), StrategyMarker(SynthesizingRules, Hdbscan),
    StrategyMarker(ReviewingRuleConflicts, Dbscan), StrategyMarker(ReviewingRuleConflicts, Hdbscan),
    StrategyMarker(PruningRules, Dbscan), StrategyMarker(PruningRules, Hdbscan),
    StrategyMarker(CompilingPrompts, Dbscan), StrategyMarker(CompilingPrompts, Hdbscan)]

  lemma OrderPositions(i: nat)
    requires i < |COMPILE_ORDER|
    ensures InChain(COMPILE_ORDER[i]) && Position(COMPILE_ORDER[i]) == i
  {
  }

  lemma OrderCovers(m: Marker)
    requires InChain(m)
    ensures Position(m) < |COMPILE_ORDER| && COMPILE_ORDER[Position(m)] == m
  {
    OrderPositions(Position(m));
    SamePosition(COMPILE_ORDER[Position(m)], m);
  }

  /** The completed stages are a prefix exactly if each has those before it in that order. */
  lemma PrefixMeans(markers: set<Marker>)
    ensures PrefixClosed(markers) <==>
      forall i, j :: 0 <= i < j < |COMPILE_ORDER| && COMPILE_ORDER[j] in markers ==> COMPILE_ORDER[i] in markers
  {
    forall i | 0 <= i < |COMPILE_ORDER| ensures InChain(COMPILE_ORDER[i]) && Position(COMPILE_ORDER[i]) == i {
      OrderPositions(i);
    }
    if forall i, j :: 0 <= i < j < |COMPILE_ORDER| && COMPILE_ORDER[j] in markers ==> COMPILE_ORDER[i] in markers {
      forall m, n | InChain(m) && InChain(n) && Position(m) < Position(n) && n in markers ensures m in markers {
        OrderCovers(m);
        OrderCovers(n);
      }
    }
  }

  ghost predicate IsChain(chain: set<Marker>) {
    (forall m :: m in chain <==> InChain(m)) && |chain| <= 12
  }

  lemma {:induction false} ChainUpTo(n: nat) returns (chain: set<Marker>)
    ensures (forall m :: m in chain <==> InChain(m) && Position(m) < n) && |chain| <= n
  {
    chain := {};
    if n > 0 {
      chain := ChainUpTo(n - 1);
      if next :| InChain(next) && Position(next) == n - 1 {
        forall m | InChain(m) && Position(m) == n - 1 ensures m == next {
          SamePosition(m, next);
        }
        chain := chain + {next};
      }
    }
  }

  lemma ChainExists()
    ensures exists chain :: IsChain(chain)
  {
    var chain := ChainUpTo(12);
    assert IsChain(chain);
  }

  /** All stages of the compile phase. */
  ghost function Chain(): set<Marker> {
    ChainExists();
    var chain :| IsChain(chain);
    chain
  }

  // ── Case ids ─────────────────────────────────────────────────────────────

  const CASE_ID_DELIMITER := "::"

  function DbCaseId(job: string, caseId: string): string {
    job + CASE_ID_DELIMITER + caseId
  }

  function PayloadCaseId(job: string, dbCaseId: string): string {
    var prefix := job + CASE_ID_DELIMITER;
    if prefix <= dbCaseId then dbCaseId[|prefix|..] else dbCaseId
  }

  /** Whatever delimiters the job and case ids contain, the payload id comes back. */
  lemma PayloadOfDb(job: string, caseId: string)
    ensures PayloadCaseId(job, DbCaseId(job, caseId)) == caseId
  {
    var prefix := job + CASE_ID_DELIMITER;
    assert DbCaseId(job, caseId) == prefix + caseId;
    assert (prefix + caseId)[|prefix|..] == caseId;
  }

  function CaseMarker(caseId: string): Marker {
    Marker(ExtractingRules, None, Some("extracting_case:" + caseId))
  }

  lemma CaseMarkerInjective(a: string, b: string)
    requires CaseMarker(a) == CaseMarker(b)
    ensures a == b
  {
    var prefix := "extracting_case:";
    assert (prefix + a)[|prefix|..] == a && (prefix + b)[|prefix|..] == b;
  }

  // ── Cluster markers ──────────────────────────────────────────────────────

  /** `",".join(parts)`. */
  function Join(parts: seq<string>): string {
    if parts == [] then ""
    else if |parts| == 1 then parts[0]
    else parts[0] + "," + Join(parts[1..])
  }

  /** Like a UUID: not empty, and without a comma. */
  predicate PlainId(s: string) {
    s != "" && forall i | 0 <= i < |s| :: s[i] != ','
  }

  /** The part before the first comma determines the split. */
  lemma FirstCommaSplits(a: string, x: string, b: string, y: string)
    requires PlainId(a) && PlainId(b) && a + "," + x == b + "," + y
    ensures a == b && x == y
  {
    var s, t := a + "," + x, b + "," + y;
    assert s[|a|] == ',' && t[|b|] == ',';
    assert forall i :: 0 <= i < |a| ==> s[i] == a[i];
    assert forall i :: 0 <= i < |b| ==> t[i] == b[i];
    assert a == s[..|a|] && b == t[..|b|];
    assert x == s[|a| + 1..] && y == t[|b| + 1..];
  }

  lemma JoinHead(parts: seq<string>)
    requires |parts| > 0 && PlainId(parts[0])
    ensures |parts| == 1 ==> PlainId(Join(parts))
    ensures |parts| > 1 ==> !PlainId(Join(parts)) && Join(parts) != ""
  {
    if |parts| > 1 {
      assert Join(parts)[|parts[0]|] == ',';
    }
  }

  lemma {:induction false} JoinInjective(a: seq<string>, b: seq<string>)
    requires forall s :: s in a || s in b ==> PlainId(s)
    requires Join(a) == Join(b)
    ensures a == b
  {
    if a != [] {
      JoinHead(a);
    }
    if b != [] {
      JoinHead(b);
    }
    if |a| > 1 && |b| > 1 {
      FirstCommaSplits(a[0], Join(a[1..]), b[0], Join(b[1..]));
      JoinInjective(a[1..], b[1..]);
      assert a == [a[0]] + a[1..] && b == [b[0]] + b[1..];
    }
  }

  /** What names a cluster: its sorted rule ids, joined. */
  function ClusterKey(ruleIds: seq<string>): string { Join(Sort(StringLe, ruleIds)) }

  function ClusterMarker(strategy: Strategy, ruleIds: seq<string>, digest: string -> string): Marker {
    Marker(SynthesizingRules, Some(strategy), Some("synth_cluster:" + Name(strategy) + ":" + digest(ClusterKey(ruleIds))))
  }

  /** The marker names the set: the order of the rules does not matter. */
  lemma ClusterMarkerForgetsOrder(strategy: Strategy, a: seq<string>, b: seq<string>, digest: string -> string)
    requires multiset(a) == multiset(b)
    ensures ClusterMarker(strategy, a, digest) == ClusterMarker(strategy, b, digest)
  {
    StringLeIsTotalOrder();
    SameElements(a, b);
    SortForgetsOrder(StringLe, a, b);
  }

  /** The digest tells the keys of two clusters apart. */
  predicate NoCollision(digest: string -> string, a: seq<string>, b: seq<string>) {
    digest(ClusterKey(a)) == digest(ClusterKey(b)) ==> ClusterKey(a) == ClusterKey(b)
  }

  /** Unless their keys collide, equal markers belong to one strategy and one set of rules. */
  lemma ClusterMarkerInjective(s: Strategy, a: seq<string>, t: Strategy, b: seq<string>, digest: string -> string)
    requires ClusterMarker(s, a, digest) == ClusterMarker(t, b, digest)
    requires (s == t ==> NoCollision(digest, a, b)) && forall x :: x in a || x in b ==> PlainId(x)
    ensures s == t && multiset(a) == multiset(b)
  {
    var prefix := "synth_cluster:" + Name(s) + ":";
    var p, q := digest(ClusterKey(a)), digest(ClusterKey(b));
    assert (prefix + p)[|prefix|..] == p && (prefix + q)[|prefix|..] == q;
    SameElements(a, Sort(StringLe, a));
    SameElements(b, Sort(StringLe, b));
    JoinInjective(Sort(StringLe, a), Sort(StringLe, b));
  }
}
