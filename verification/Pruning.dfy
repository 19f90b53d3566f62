/** Rule pruning of `src/rulekiln/pipeline/rule_pruning.py`, in every ranking mode. */
module Pruning {
  import opened Sorting
  import opened Rules

  datatype Mode = SupportCount | Utility | UtilityPerToken | AnchorUtility | MeanClassroomUtility | WorstStudentUtility

  /** Rule id to (fixed, broken); the empty map stands for absent signals. */
  type Signals = map<string, (int, int)>

  datatype Config = Config(
    maxRules: int,
    maxTokens: int,
    minSupport: int,
    preserveGolden: bool,
    goldenCaseIds: set<string>,
    mode: Mode,
    penalty: real,
    utility: Signals,
    classroom: seq<Signals>)

  datatype Reason = UnresolvedConflict | BelowMinSupport | MaxRulesExceeded | TokenBudgetExceeded

  datatype Record = Record(rule: Rule, reason: Reason)

  // ── Scores ───────────────────────────────────────────────────────────────

  function UtilityScore(r: Rule, penalty: real, signals: Signals): real {
    if r.id in signals then signals[r.id].0 as real - penalty * signals[r.id].1 as real else r.supportCount as real
  }

  function PerTokenScore(r: Rule, penalty: real, signals: Signals): real {
    var tokens := if r.tokenEstimate != 0 then r.tokenEstimate else 1;
    UtilityScore(r, penalty, signals) / tokens as real
  }

  function SumScores(r: Rule, penalty: real, classroom: seq<Signals>): real {
    if classroom == [] then 0.0
    else SumScores(r, penalty, classroom[..|classroom| - 1]) + UtilityScore(r, penalty, classroom[|classroom| - 1])
  }

  function MeanScore(r: Rule, penalty: real, classroom: seq<Signals>): real {
    if classroom == [] then r.supportCount as real else SumScores(r, penalty, classroom) / |classroom| as real
  }

  function WorstScore(r: Rule, penalty: real, classroom: seq<Signals>): real {
    if classroom == [] then r.supportCount as real
    else
      var last := UtilityScore(r, penalty, classroom[|classroom| - 1]);
      if |classroom| == 1 then last
      else
        var rest := WorstScore(r, penalty, classroom[..|classroom| - 1]);
        if last < rest then last else rest
  }

  function Score(cfg: Config, r: Rule): real {
    match cfg.mode
    case SupportCount => r.supportCount as real
    case Utility => UtilityScore(r, cfg.penalty, cfg.utility)
    case AnchorUtility => UtilityScore(r, cfg.penalty, cfg.utility)
    case UtilityPerToken => PerTokenScore(r, cfg.penalty, cfg.utility)
    case MeanClassroomUtility => MeanScore(r, cfg.penalty, cfg.classroom)
    case WorstStudentUtility => WorstScore(r, cfg.penalty, cfg.classroom)
  }

  /** Priority first, then higher score; by support count, ties fall to the higher support ratio. */
  predicate RanksBefore(cfg: Config, a: Rule, b: Rule) {
    a.priority < b.priority
    || (a.priority == b.priority
        && (Score(cfg, a) > Score(cfg, b)
            || (Score(cfg, a) == Score(cfg, b) && (cfg.mode == SupportCount ==> a.supportRatio >= b.supportRatio))))
  }

  function RuleLe(cfg: Config): (Rule, Rule) -> bool {
    (a: Rule, b: Rule) => RanksBefore(cfg, a, b)
  }

  lemma RuleLeIsPreorder(cfg: Config)
    ensures TotalPreorder(RuleLe(cfg))
  {
  }

  // ── Selection ────────────────────────────────────────────────────────────

  predicate IsGolden(cfg: Config, r: Rule) {
    r.goldenBacked || exists c | c in r.sourceCaseIds :: c in cfg.goldenCaseIds
  }

  /** Why the first pass removes a rule, if it does. */
  predicate Keeps(cfg: Config, r: Rule) {
    !r.hasConflicts && (r.supportCount >= cfg.minSupport || (cfg.preserveGolden && IsGolden(cfg, r)))
  }

  function Kept(cfg: Config, rules: seq<Rule>): seq<Rule> {
    if rules == [] then []
    else Kept(cfg, rules[..|rules| - 1]) + if Keeps(cfg, rules[|rules| - 1]) then [rules[|rules| - 1]] else []
  }

  function FirstPassRecords(cfg: Config, rules: seq<Rule>): seq<Record> {
    if rules == [] then []
    else
      var last := rules[|rules| - 1];
      FirstPassRecords(cfg, rules[..|rules| - 1])
      + if Keeps(cfg, last) then []
        else [Record(last, if last.hasConflicts then UnresolvedConflict else BelowMinSupport)]
  }

  function JoinLength(parts: seq<string>): nat {
    if parts == [] then 0
    else if |parts| == 1 then |parts[0]|
    else |parts[0]| + 1 + JoinLength(parts[1..])
  }

  /** The stored estimate, or one token per four characters of topic and conditions. */
  function Tokens(r: Rule): int {
    if r.tokenEstimate != 0 then r.tokenEstimate
    else
      var length := |r.topic| + 1 + JoinLength(r.appliesWhen);
      if length / 4 > 1 then length / 4 else 1
  }

  function TokenSum(rules: seq<Rule>): int {
    if rules == [] then 0 else TokenSum(rules[..|rules| - 1]) + Tokens(rules[|rules| - 1])
  }

  /** Greedy in ranking order: a rule that does not fit is passed over, later ones may still fit. */
  function Fitting(budget: int, rules: seq<Rule>): seq<Rule> {
    if rules == [] then []
    else
      var taken := Fitting(budget, rules[..|rules| - 1]);
      var last := rules[|rules| - 1];
      if TokenSum(taken) + Tokens(last) > budget then taken else taken + [last]
  }

  function NotFitting(budget: int, rules: seq<Rule>): seq<Rule> {
    if rules == [] then []
    else
      var taken := Fitting(budget, rules[..|rules| - 1]);
      var last := rules[|rules| - 1];
      NotFitting(budget, rules[..|rules| - 1]) + if TokenSum(taken) + Tokens(last) > budget then [last] else []
  }

  function Ranked(cfg: Config, rules: seq<Rule>): seq<Rule> {
    Sort(RuleLe(cfg), Kept(cfg, rules))
  }

  /** Where a list of n rules is cut.  A negative cap drops that many rules from the end, as slices do. */
  function CutAt(n: nat, maxRules: int): (k: nat)
    ensures k <= n && (k < n ==> k <= maxRules || maxRules < 0)
  {
    if n <= maxRules then n
    else if maxRules >= 0 then maxRules
    else if n + maxRules >= 0 then n + maxRules
    else 0
  }

  function Capped(cfg: Config, rules: seq<Rule>): seq<Rule> {
    var ranked := Ranked(cfg, rules);
    ranked[..CutAt(|ranked|, cfg.maxRules)]
  }

  function Over(cfg: Config, rules: seq<Rule>): seq<Rule> {
    var ranked := Ranked(cfg, rules);
    ranked[CutAt(|ranked|, cfg.maxRules)..]
  }

  function Records(rules: seq<Rule>, reason: Reason): seq<Record> {
    seq(|rules|, i requires 0 <= i < |rules| => Record(rules[i], reason))
  }

  function Selected(cfg: Config, rules: seq<Rule>): seq<Rule> {
    Fitting(cfg.maxTokens, Capped(cfg, rules))
  }

  function PrunedRecords(cfg: Config, rules: seq<Rule>): seq<Record> {
    FirstPassRecords(cfg, rules) + Records(Over(cfg, rules), MaxRulesExceeded)
      + Records(NotFitting(cfg.maxTokens, Capped(cfg, rules)), TokenBudgetExceeded)
  }

  lemma TokenSumSnoc(rules: seq<Rule>, r: Rule)
    ensures TokenSum(rules + [r]) == TokenSum(rules) + Tokens(r)
  {
    assert (rules + [r])[..|rules|] == rules;
  }

  lemma RecordsSnoc(rules: seq<Rule>, r: Rule, reason: Reason)
    ensures Records(rules + [r], reason) == Records(rules, reason) + [Record(r, reason)]
  {
  }

  method FirstPass(cfg: Config, rules: seq<Rule>) returns (selected: seq<Rule>, pruned: seq<Record>)
    ensures selected == Kept(cfg, rules) && pruned == FirstPassRecords(cfg, rules)
  {
    selected, pruned := [], [];
    for i := 0 to |rules|
      invariant selected == Kept(cfg, rules[..i]) && pruned == FirstPassRecords(cfg, rules[..i])
    {
      assert rules[..i + 1][..i] == rules[..i];
      var rule := rules[i];
      if rule.hasConflicts {
        pruned := pruned + [Record(rule, UnresolvedConflict)];
        continue;
      }
      var isGolden := IsGolden(cfg, rule);
      if rule.supportCount < cfg.minSupport && !(cfg.preserveGolden && isGolden) {
        pruned := pruned + [Record(rule, BelowMinSupport)];
        continue;
      }
      selected := selected + [rule];
    }
    assert rules[..|rules|] == rules;
  }

  lemma FittingNext(budget: int, rules: seq<Rule>, r: Rule)
    ensures var taken, passed := Fitting(budget, rules), NotFitting(budget, rules);
            && Fitting(budget, rules + [r]) == (if TokenSum(taken) + Tokens(r) > budget then taken else taken + [r])
            && NotFitting(budget, rules + [r]) == (if TokenSum(taken) + Tokens(r) > budget then passed + [r] else passed)
  {
    assert (rules + [r])[..|rules|] == rules;
  }

  /** The state of the token loop after the first n rules. */
  predicate CappedSoFar(budget: int, rules: seq<Rule>, n: nat, selected: seq<Rule>, over: seq<Record>, running: int)
    requires n <= |rules|
  {
    && selected == Fitting(budget, rules[..n]) && running == TokenSum(selected)
    && over == Records(NotFitting(budget, rules[..n]), TokenBudgetExceeded)
  }

  lemma CappedNext(budget: int, rules: seq<Rule>, n: nat, selected: seq<Rule>, over: seq<Record>, running: int)
    requires n < |rules| && CappedSoFar(budget, rules, n, selected, over, running)
    ensures running + Tokens(rules[n]) > budget
        ==> CappedSoFar(budget, rules, n + 1, selected, over + [Record(rules[n], TokenBudgetExceeded)], running)
    ensures running + Tokens(rules[n]) <= budget
        ==> CappedSoFar(budget, rules, n + 1, selected + [rules[n]], over, running + Tokens(rules[n]))
  {
    assert rules[..n + 1] == rules[..n] + [rules[n]];
    FittingNext(budget, rules[..n], rules[n]);
    TokenSumSnoc(selected, rules[n]);
    RecordsSnoc(NotFitting(budget, rules[..n]), rules[n], TokenBudgetExceeded);
  }

  lemma CappedAtStart(budget: int, rules: seq<Rule>)
    ensures CappedSoFar(budget, rules, 0, [], [], 0)
  {
    assert |rules[..0]| == 0;
  }

  method CapTokens(budget: int, rules: seq<Rule>) returns (selected: seq<Rule>, over: seq<Record>)
    ensures selected == Fitting(budget, rules) && over == Records(NotFitting(budget, rules), TokenBudgetExceeded)
  {
    selected, over := [], [];
    var runningTokens := 0;
    CappedAtStart(budget, rules);
    for i := 0 to |rules|
      invariant CappedSoFar(budget, rules, i, selected, over, runningTokens)
    {
      CappedNext(budget, rules, i, selected, over, runningTokens);
      var tokenCount := Tokens(rules[i]);
      if runningTokens + tokenCount > budget {
        over := over + [Record(rules[i], TokenBudgetExceeded)];
      } else {
        runningTokens := runningTokens + tokenCount;
        selected := selected + [rules[i]];
      }
    }
    assert rules[..|rules|] == rules;
  }

  method CapRules(maxRules: int, ranked: seq<Rule>) returns (selected: seq<Rule>, over: seq<Record>)
    ensures var k := CutAt(|ranked|, maxRules);
            selected == ranked[..k] && over == Records(ranked[k..], MaxRulesExceeded)
  {
    selected, over := ranked, [];
    if |ranked| > maxRules {
      var k := CutAt(|ranked|, maxRules);
      for i := k to |ranked|
        invariant over == Records(ranked[k..i], MaxRulesExceeded)
      {
        assert ranked[k..i + 1] == ranked[k..i] + [ranked[i]];
        RecordsSnoc(ranked[k..i], ranked[i], MaxRulesExceeded);
        over := over + [Record(ranked[i], MaxRulesExceeded)];
      }
      assert ranked[k..|ranked|] == ranked[k..];
      selected := ranked[..k];
    }
  }

  method PruneRules(cfg: Config, rules: seq<Rule>) returns (selected: seq<Rule>, pruned: seq<Record>)
    ensures selected == Selected(cfg, rules) && pruned == PrunedRecords(cfg, rules)
  {
    var kept, rejected := FirstPass(cfg, rules);
    var ranked := Sort(RuleLe(cfg), kept);
    var capped, over := CapRules(cfg.maxRules, ranked);
    var tooLong: seq<Record>;
    selected, tooLong := CapTokens(cfg.maxTokens, capped);
    pruned := rejected + over + tooLong;
  }

  // ── Nothing is lost ──────────────────────────────────────────────────────

  function RulesOf(records: seq<Record>): seq<Rule> {
    seq(|records|, i requires 0 <= i < |records| => records[i].rule)
  }

  lemma RulesOfConcat(a: seq<Record>, b: seq<Record>)
    ensures RulesOf(a + b) == RulesOf(a) + RulesOf(b)
  {
  }

  lemma RulesOfRecords(rules: seq<Rule>, reason: Reason)
    ensures RulesOf(Records(rules, reason)) == rules
  {
  }

  function RejectedRules(cfg: Config, rules: seq<Rule>): seq<Rule> { RulesOf(FirstPassRecords(cfg, rules)) }

  /** The next rule is either kept or rejected. */
  lemma FirstPassNext(cfg: Config, rules: seq<Rule>, r: Rule)
    ensures Kept(cfg, rules + [r]) == Kept(cfg, rules) + if Keeps(cfg, r) then [r] else []
    ensures RejectedRules(cfg, rules + [r]) == RejectedRules(cfg, rules) + if Keeps(cfg, r) then [] else [r]
  {
    assert (rules + [r])[..|rules|] == rules;
    var x := Record(r, if r.hasConflicts then UnresolvedConflict else BelowMinSupport);
    RulesOfConcat(FirstPassRecords(cfg, rules), [x]);
    assert RulesOf([x]) == [r];
  }

  lemma {:induction false} FirstPassPartitions(cfg: Config, rules: seq<Rule>)
    ensures multiset(Kept(cfg, rules)) + multiset(RejectedRules(cfg, rules)) == multiset(rules)
  {
    if rules == [] {
      assert Kept(cfg, rules) == [] && RejectedRules(cfg, rules) == [];
    } else {
      var init, last := rules[..|rules| - 1], rules[|rules| - 1];
      FirstPassPartitions(cfg, init);
      FirstPassNext(cfg, init, last);
      assert rules == init + [last];
    }
  }

  ghost predicate FittingSplits(budget: int, rules: seq<Rule>) {
    multiset(Fitting(budget, rules)) + multiset(NotFitting(budget, rules)) == multiset(rules)
  }

  lemma FittingSplitsNext(budget: int, rules: seq<Rule>, r: Rule)
    requires FittingSplits(budget, rules)
    ensures FittingSplits(budget, rules + [r])
  {
    FittingNext(budget, rules, r);
  }

  ghost predicate SplitsUpTo(budget: int, rules: seq<Rule>, n: nat)
    requires n <= |rules|
  {
    FittingSplits(budget, rules[..n])
  }

  lemma SplitsAtStart(budget: int, rules: seq<Rule>)
    ensures SplitsUpTo(budget, rules, 0)
  {
    var none := rules[..0];
    assert |none| == 0;
    assert |Fitting(budget, none)| == 0 && |NotFitting(budget, none)| == 0;
  }

  lemma SplitsNext(budget: int, rules: seq<Rule>, n: nat)
    requires n < |rules| && SplitsUpTo(budget, rules, n)
    ensures SplitsUpTo(budget, rules, n + 1)
  {
    assert rules[..n + 1] == rules[..n] + [rules[n]];
    FittingSplitsNext(budget, rules[..n], rules[n]);
  }

  lemma {:induction false} FittingPartitions(budget: int, rules: seq<Rule>)
    ensures FittingSplits(budget, rules)
  {
    SplitsAtStart(budget, rules);
    for n := 0 to |rules|
      invariant SplitsUpTo(budget, rules, n)
    {
      SplitsNext(budget, rules, n);
    }
    assert rules[..|rules|] == rules;
  }

  lemma RulesOfPruned(cfg: Config, rules: seq<Rule>)
    ensures RulesOf(PrunedRecords(cfg, rules))
         == RejectedRules(cfg, rules) + Over(cfg, rules) + NotFitting(cfg.maxTokens, Capped(cfg, rules))
  {
    var first, over := FirstPassRecords(cfg, rules), Records(Over(cfg, rules), MaxRulesExceeded);
    var tooLong := Records(NotFitting(cfg.maxTokens, Capped(cfg, rules)), TokenBudgetExceeded);
    RulesOfRecords(Over(cfg, rules), MaxRulesExceeded);
    RulesOfRecords(NotFitting(cfg.maxTokens, Capped(cfg, rules)), TokenBudgetExceeded);
    RulesOfConcat(first, over);
    RulesOfConcat(first + over, tooLong);
  }

  lemma CappedPartitions(cfg: Config, rules: seq<Rule>)
    ensures multiset(Capped(cfg, rules)) + multiset(Over(cfg, rules)) == multiset(Kept(cfg, rules))
  {
    var ranked := Ranked(cfg, rules);
    var k := CutAt(|ranked|, cfg.maxRules);
    assert ranked == ranked[..k] + ranked[k..];
  }

  /** Selected and pruned rules together are the input. */
  lemma PruningPartitions(cfg: Config, rules: seq<Rule>)
    ensures multiset(Selected(cfg, rules)) + multiset(RulesOf(PrunedRecords(cfg, rules))) == multiset(rules)
  {
    FirstPassPartitions(cfg, rules);
    FittingPartitions(cfg.maxTokens, Capped(cfg, rules));
    CappedPartitions(cfg, rules);
    RulesOfPruned(cfg, rules);
  }

  // ── Ranked and within budget ─────────────────────────────────────────────

  ghost predicate SubsequenceOf(cfg: Config, taken: seq<Rule>, rules: seq<Rule>) {
    && Sorted(RuleLe(cfg), taken) && |taken| <= |rules|
    && forall r :: r in taken ==> r in rules
  }

  lemma SubsequenceNext(cfg: Config, taken: seq<Rule>, rules: seq<Rule>, r: Rule)
    requires SubsequenceOf(cfg, taken, rules) && Sorted(RuleLe(cfg), rules + [r])
    ensures SubsequenceOf(cfg, taken, rules + [r]) && SubsequenceOf(cfg, taken + [r], rules + [r])
  {
    forall i | 0 <= i < |taken| ensures RuleLe(cfg)(taken[i], r) {
      assert taken[i] in rules;
      var k :| 0 <= k < |rules| && rules[k] == taken[i];
      assert (rules + [r])[k] == taken[i] && (rules + [r])[|rules|] == r;
    }
  }

  lemma {:induction false} FittingSubsequence(cfg: Config, budget: int, rules: seq<Rule>)
    requires Sorted(RuleLe(cfg), rules)
    ensures SubsequenceOf(cfg, Fitting(budget, rules), rules)
  {
    if rules != [] {
      var init, last := rules[..|rules| - 1], rules[|rules| - 1];
      assert rules == init + [last];
      FittingSubsequence(cfg, budget, init);
      SubsequenceNext(cfg, Fitting(budget, init), init, last);
    }
  }

  lemma {:induction false} FittingWithinBudget(budget: int, rules: seq<Rule>)
    ensures Fitting(budget, rules) != [] ==> TokenSum(Fitting(budget, rules)) <= budget
  {
    if rules != [] {
      FittingWithinBudget(budget, rules[..|rules| - 1]);
      var taken := Fitting(budget, rules[..|rules| - 1]);
      assert (taken + [rules[|rules| - 1]])[..|taken|] == taken;
    }
  }

  lemma CappedLength(cfg: Config, rules: seq<Rule>)
    ensures |Capped(cfg, rules)| == CutAt(|Kept(cfg, rules)|, cfg.maxRules)
  {
    SameElements(Kept(cfg, rules), Ranked(cfg, rules));
  }

  lemma CappedSorted(cfg: Config, rules: seq<Rule>)
    ensures Sorted(RuleLe(cfg), Capped(cfg, rules))
  {
    RuleLeIsPreorder(cfg);
    SortSorts(RuleLe(cfg), Kept(cfg, rules));
  }

  /** The selection is in ranking order and within both budgets. */
  lemma SelectionIsRankedAndWithinBudgets(cfg: Config, rules: seq<Rule>)
    ensures var selected := Selected(cfg, rules);
            && Sorted(RuleLe(cfg), selected)
            && |selected| <= CutAt(|Kept(cfg, rules)|, cfg.maxRules)
            && (cfg.maxRules >= 0 ==> |selected| <= cfg.maxRules)
            && (selected != [] ==> TokenSum(selected) <= cfg.maxTokens)
  {
    CappedLength(cfg, rules);
    CappedSorted(cfg, rules);
    FittingSubsequence(cfg, cfg.maxTokens, Capped(cfg, rules));
    FittingWithinBudget(cfg.maxTokens, Capped(cfg, rules));
  }

  // ── Maximality ───────────────────────────────────────────────────────────

  ghost predicate EstimatesNonNegative(rules: seq<Rule>) {
    forall r :: r in rules ==> r.tokenEstimate >= 0
  }

  lemma {:induction false} PassedOverNeverFits(budget: int, rules: seq<Rule>)
    requires EstimatesNonNegative(rules)
    ensures forall r :: r in NotFitting(budget, rules) ==> TokenSum(Fitting(budget, rules)) + Tokens(r) > budget
  {
    if rules != [] {
      var init, last := rules[..|rules| - 1], rules[|rules| - 1];
      assert rules == init + [last];
      PassedOverNeverFits(budget, init);
      var taken := Fitting(budget, init);
      assert (taken + [last])[..|taken|] == taken;
      assert Tokens(last) >= 1;
    }
  }

  lemma {:induction false} KeptMembers(cfg: Config, rules: seq<Rule>)
    ensures forall r :: r in Kept(cfg, rules) <==> r in rules && Keeps(cfg, r)
  {
    if rules != [] {
      KeptMembers(cfg, rules[..|rules| - 1]);
      assert rules == rules[..|rules| - 1] + [rules[|rules| - 1]];
    }
  }

  lemma CappedMembers(cfg: Config, rules: seq<Rule>)
    ensures forall r :: r in Capped(cfg, rules) ==> r in rules && Keeps(cfg, r)
  {
    KeptMembers(cfg, rules);
    SameElements(Kept(cfg, rules), Ranked(cfg, rules));
    forall r | r in Capped(cfg, rules) ensures r in Ranked(cfg, rules) {}
  }

  lemma SelectedMembers(cfg: Config, rules: seq<Rule>)
    ensures forall r :: r in Selected(cfg, rules) ==> r in rules && Keeps(cfg, r)
  {
    RuleLeIsPreorder(cfg);
    SortSorts(RuleLe(cfg), Kept(cfg, rules));
    FittingSubsequence(cfg, cfg.maxTokens, Capped(cfg, rules));
    CappedMembers(cfg, rules);
  }

  /** No rule pruned for the token budget would still fit beside the selection. */
  lemma SelectionIsMaximal(cfg: Config, rules: seq<Rule>, record: Record)
    requires EstimatesNonNegative(rules)
    requires record in PrunedRecords(cfg, rules) && record.reason == TokenBudgetExceeded
    ensures TokenSum(Selected(cfg, rules)) + Tokens(record.rule) > cfg.maxTokens
  {
    CappedMembers(cfg, rules);
    PassedOverNeverFits(cfg.maxTokens, Capped(cfg, rules));
    FirstPassReasons(cfg, rules);
    var tooLong := NotFitting(cfg.maxTokens, Capped(cfg, rules));
    assert record in Records(tooLong, TokenBudgetExceeded);
    assert record.rule in tooLong;
  }

  lemma {:induction false} FirstPassReasons(cfg: Config, rules: seq<Rule>)
    ensures forall x :: x in FirstPassRecords(cfg, rules) ==> !Keeps(cfg, x.rule) && x.reason in {UnresolvedConflict, BelowMinSupport}
  {
    if rules != [] {
      FirstPassReasons(cfg, rules[..|rules| - 1]);
    }
  }

  // ── What ranking and the reasons mean ────────────────────────────────────

  /** What the signals of one student say of a rule: what it fixed less the penalty for what it broke, or its support where
      they do not mention it. */
  predicate NetUtility(r: Rule, penalty: real, signals: Signals, x: real) {
    if r.id in signals then x + penalty * signals[r.id].1 as real == signals[r.id].0 as real else x == r.supportCount as real
  }

  function Total(xs: seq<real>): real {
    if xs == [] then 0.0 else xs[0] + Total(xs[1..])
  }

  lemma {:induction false} TotalSnoc(xs: seq<real>, x: real)
    ensures Total(xs + [x]) == Total(xs) + x
  {
    if xs == [] {
      assert (xs + [x])[1..] == [];
    } else {
      assert (xs + [x])[1..] == xs[1..] + [x];
      TotalSnoc(xs[1..], x);
    }
  }

  /** The net utility of a rule for each student. */
  ghost predicate PerStudent(r: Rule, penalty: real, classroom: seq<Signals>, xs: seq<real>) {
    |xs| == |classroom| && forall i :: 0 <= i < |xs| ==> NetUtility(r, penalty, classroom[i], xs[i])
  }

  lemma {:induction false} ClassroomScores(r: Rule, penalty: real, classroom: seq<Signals>, xs: seq<real>)
    requires PerStudent(r, penalty, classroom, xs) && xs != []
    ensures SumScores(r, penalty, classroom) == Total(xs)
    ensures WorstScore(r, penalty, classroom) in xs && forall x :: x in xs ==> WorstScore(r, penalty, classroom) <= x
  {
    var n := |xs| - 1;
    assert xs == xs[..n] + [xs[n]];
    TotalSnoc(xs[..n], xs[n]);
    if n > 0 {
      ClassroomScores(r, penalty, classroom[..n], xs[..n]);
    } else {
      assert SumScores(r, penalty, classroom[..0]) == 0.0 && xs[..0] == [];
    }
  }

  lemma UtilityMeans(r: Rule, penalty: real, signals: Signals, x: real)
    requires NetUtility(r, penalty, signals, x)
    ensures UtilityScore(r, penalty, signals) == x
  {
  }

  lemma PerTokenMeans(r: Rule, penalty: real, signals: Signals)
    ensures PerTokenScore(r, penalty, signals) * (if r.tokenEstimate == 0 then 1 else r.tokenEstimate) as real
         == UtilityScore(r, penalty, signals)
  {
    hide UtilityScore;
  }

  lemma MeanMeans(r: Rule, penalty: real, classroom: seq<Signals>)
    requires classroom != []
    ensures MeanScore(r, penalty, classroom) * |classroom| as real == SumScores(r, penalty, classroom)
  {
    hide SumScores;
  }

  lemma NoStudents(r: Rule, penalty: real, classroom: seq<Signals>)
    requires classroom == []
    ensures MeanScore(r, penalty, classroom) == WorstScore(r, penalty, classroom) == r.supportCount as real
  {
  }

  /** The score by which a mode ranks: support, net utility, net utility per token, and for a classroom the mean or the
      worst of the students' utilities; without signals always the support. */
  lemma ScoreMeans(cfg: Config, r: Rule, x: real, xs: seq<real>)
    requires NetUtility(r, cfg.penalty, cfg.utility, x) && PerStudent(r, cfg.penalty, cfg.classroom, xs)
    ensures cfg.mode == SupportCount ==> Score(cfg, r) == r.supportCount as real
    ensures cfg.mode in {Utility, AnchorUtility} ==> Score(cfg, r) == x
    ensures cfg.mode == UtilityPerToken ==>
      Score(cfg, r) * (if r.tokenEstimate == 0 then 1 else r.tokenEstimate) as real == x
    ensures cfg.mode in {MeanClassroomUtility, WorstStudentUtility} && xs == [] ==> Score(cfg, r) == r.supportCount as real
    ensures cfg.mode == MeanClassroomUtility && xs != [] ==> Score(cfg, r) * |xs| as real == Total(xs)
    ensures cfg.mode == WorstStudentUtility && xs != [] ==> Score(cfg, r) in xs && forall y :: y in xs ==> Score(cfg, r) <= y
  {
    hide NetUtility, UtilityScore, PerTokenScore, MeanScore, WorstScore, SumScores, Total;
    UtilityMeans(r, cfg.penalty, cfg.utility, x);
    PerTokenMeans(r, cfg.penalty, cfg.utility);
    if xs == [] {
      NoStudents(r, cfg.penalty, cfg.classroom);
    } else {
      ClassroomScores(r, cfg.penalty, cfg.classroom, xs);
      MeanMeans(r, cfg.penalty, cfg.classroom);
    }
  }

  /** The first of two rules is not the worse one: its priority number is lower, or the same and its score higher, or the
      same as well; by support count equal scores are told apart by the support ratio. */
  predicate NotWorse(cfg: Config, a: Rule, b: Rule) {
    && a.priority <= b.priority
    && (a.priority == b.priority ==> Score(cfg, a) >= Score(cfg, b))
    && (a.priority == b.priority && Score(cfg, a) == Score(cfg, b) && cfg.mode == SupportCount
        ==> a.supportRatio >= b.supportRatio)
  }

  lemma RankingMeans(cfg: Config, rules: seq<Rule>)
    ensures var ranked := Ranked(cfg, rules);
            forall i, j :: 0 <= i < j < |ranked| ==> NotWorse(cfg, ranked[i], ranked[j])
  {
    RuleLeIsPreorder(cfg);
    SortSorts(RuleLe(cfg), Kept(cfg, rules));
    var ranked := Ranked(cfg, rules);
    forall i, j | 0 <= i < j < |ranked| ensures NotWorse(cfg, ranked[i], ranked[j]) {
      assert RuleLe(cfg)(ranked[i], ranked[j]);
    }
  }

  /** The selection goes from the best rule to the worst. */
  lemma SelectionGoesDown(cfg: Config, rules: seq<Rule>, i: nat, j: nat)
    requires i < j < |Selected(cfg, rules)|
    ensures NotWorse(cfg, Selected(cfg, rules)[i], Selected(cfg, rules)[j])
  {
    SelectionIsRankedAndWithinBudgets(cfg, rules);
    assert RuleLe(cfg)(Selected(cfg, rules)[i], Selected(cfg, rules)[j]);
  }

  /** The stored estimate of a rule, or a quarter of the characters of its topic and conditions with a blank after each but
      the last, and at least one. */
  lemma TokensMean(r: Rule)
    ensures r.tokenEstimate != 0 ==> Tokens(r) == r.tokenEstimate
    ensures r.tokenEstimate == 0 ==>
      var characters := |r.topic| + 1 + |Spaced(r.appliesWhen)|;
      Tokens(r) >= 1 && (Tokens(r) > 1 ==> 4 * Tokens(r) <= characters) && characters < 4 * Tokens(r) + 4
  {
    SpacedLength(r.appliesWhen);
  }

  /** `" ".join(parts)`. */
  function Spaced(parts: seq<string>): string {
    if parts == [] then "" else if |parts| == 1 then parts[0] else parts[0] + " " + Spaced(parts[1..])
  }

  lemma {:induction false} SpacedLength(parts: seq<string>)
    ensures |Spaced(parts)| == JoinLength(parts)
  {
    if |parts| > 1 {
      SpacedLength(parts[1..]);
    }
  }

  /** A rule passes the first filter if it is free of conflicts and supported, or backed by a golden case where these are
      to be preserved. */
  predicate Deserves(cfg: Config, r: Rule) {
    && !r.hasConflicts
    && (r.supportCount < cfg.minSupport
        ==> cfg.preserveGolden && (r.goldenBacked || exists c | c in r.sourceCaseIds :: c in cfg.goldenCaseIds))
  }

  lemma CapSplits(cfg: Config, rules: seq<Rule>, x: Rule, y: Rule)
    requires x in Capped(cfg, rules) && y in Over(cfg, rules)
    ensures NotWorse(cfg, x, y)
  {
    RankingMeans(cfg, rules);
    var ranked := Ranked(cfg, rules);
    var k := CutAt(|ranked|, cfg.maxRules);
    var i :| 0 <= i < k && ranked[i] == x;
    var j :| 0 <= j < |ranked[k..]| && ranked[k..][j] == y;
    assert ranked[k + j] == y;
  }

  /** The cap keeps exactly as many rules as it says, or all; a negative one drops that many. */
  lemma CapMeans(cfg: Config, rules: seq<Rule>)
    ensures var n := |Kept(cfg, rules)|;
            |Capped(cfg, rules)| == if n <= cfg.maxRules then n
                                    else if cfg.maxRules >= 0 then cfg.maxRules
                                    else if n >= -cfg.maxRules then n + cfg.maxRules else 0
    ensures |Over(cfg, rules)| == |Kept(cfg, rules)| - |Capped(cfg, rules)|
  {
    SameElements(Kept(cfg, rules), Ranked(cfg, rules));
  }

  lemma OverMembers(cfg: Config, rules: seq<Rule>)
    ensures forall r :: r in Over(cfg, rules) ==> r in Kept(cfg, rules)
  {
    SameElements(Kept(cfg, rules), Ranked(cfg, rules));
    forall r | r in Over(cfg, rules) ensures r in Ranked(cfg, rules) {}
  }

  lemma {:induction false} FirstPassRecordsMean(cfg: Config, rules: seq<Rule>, x: Record)
    ensures x in FirstPassRecords(cfg, rules) <==>
      x.rule in rules && !Deserves(cfg, x.rule)
      && x.reason == if x.rule.hasConflicts then UnresolvedConflict else BelowMinSupport
  {
    if rules != [] {
      var init, last := rules[..|rules| - 1], rules[|rules| - 1];
      assert rules == init + [last];
      FirstPassRecordsMean(cfg, init, x);
      assert Keeps(cfg, last) <==> Deserves(cfg, last);
    }
  }

  /** Why a rule is not selected: it has a conflict; it lacks support; more rules deserve selection than the cap lets through
      and no selected rule is worse; or, as `SelectionIsMaximal` says, it does not fit. */
  lemma ReasonsMean(cfg: Config, rules: seq<Rule>, x: Record)
    requires x in PrunedRecords(cfg, rules)
    ensures x.rule in rules
    ensures x.reason == UnresolvedConflict <==> x.rule.hasConflicts
    ensures x.reason == BelowMinSupport <==> !x.rule.hasConflicts && !Deserves(cfg, x.rule)
    ensures x.reason == MaxRulesExceeded ==>
      |Kept(cfg, rules)| > cfg.maxRules && forall r :: r in Selected(cfg, rules) ==> NotWorse(cfg, r, x.rule)
  {
    FirstPassRecordsMean(cfg, rules, x);
    KeptMembers(cfg, rules);
    OverMembers(cfg, rules);
    CappedMembers(cfg, rules);
    CapMeans(cfg, rules);
    var over, tooLong := Over(cfg, rules), NotFitting(cfg.maxTokens, Capped(cfg, rules));
    NotFittingMembers(cfg.maxTokens, Capped(cfg, rules));
    assert x in Records(over, MaxRulesExceeded) ==> x.rule in over && x.reason == MaxRulesExceeded;
    assert x in Records(tooLong, TokenBudgetExceeded) ==> x.rule in tooLong && x.reason == TokenBudgetExceeded;
    assert forall r :: Keeps(cfg, r) <==> Deserves(cfg, r);
    if x.reason == MaxRulesExceeded {
      forall r | r in Selected(cfg, rules) ensures NotWorse(cfg, r, x.rule) {
        CappedSorted(cfg, rules);
        FittingSubsequence(cfg, cfg.maxTokens, Capped(cfg, rules));
        CapSplits(cfg, rules, r, x.rule);
      }
    }
  }

  lemma {:induction false} NotFittingMembers(budget: int, rules: seq<Rule>)
    ensures forall r :: r in NotFitting(budget, rules) ==> r in rules
  {
    if rules != [] {
      var init, last := rules[..|rules| - 1], rules[|rules| - 1];
      assert rules == init + [last];
      NotFittingMembers(budget, init);
    }
  }

  // ── Idempotence ──────────────────────────────────────────────────────────

  lemma {:induction false} KeptAll(cfg: Config, rules: seq<Rule>)
    requires forall r :: r in rules ==> Keeps(cfg, r)
    ensures Kept(cfg, rules) == rules && FirstPassRecords(cfg, rules) == []
  {
    if rules != [] {
      KeptAll(cfg, rules[..|rules| - 1]);
      assert rules == rules[..|rules| - 1] + [rules[|rules| - 1]];
    }
  }

  lemma {:induction false} FittingAll(budget: int, rules: seq<Rule>)
    requires EstimatesNonNegative(rules) && (rules != [] ==> TokenSum(rules) <= budget)
    ensures Fitting(budget, rules) == rules && NotFitting(budget, rules) == []
  {
    if rules != [] {
      var init, last := rules[..|rules| - 1], rules[|rules| - 1];
      assert rules == init + [last];
      assert Tokens(last) >= 1;
      FittingAll(budget, init);
    }
  }

  lemma SelectedSettled(cfg: Config, rules: seq<Rule>)
    requires EstimatesNonNegative(rules)
    ensures Settled(cfg, Selected(cfg, rules))
  {
    var selected := Selected(cfg, rules);
    SelectedMembers(cfg, rules);
    SelectionIsRankedAndWithinBudgets(cfg, rules);
    KeptAll(cfg, selected);
    SortLeavesSorted(RuleLe(cfg), selected);
    FittingAll(cfg.maxTokens, selected);
  }

  lemma AgainUnchanged(cfg: Config, selected: seq<Rule>)
    requires Ranked(cfg, selected) == selected && FirstPassRecords(cfg, selected) == []
    requires Fitting(cfg.maxTokens, selected) == selected && NotFitting(cfg.maxTokens, selected) == []
    requires CutAt(|selected|, cfg.maxRules) == |selected|
    ensures Selected(cfg, selected) == selected && PrunedRecords(cfg, selected) == []
  {
    assert Capped(cfg, selected) == selected && Over(cfg, selected) == [];
  }

  lemma AgainShorter(cfg: Config, selected: seq<Rule>)
    requires Ranked(cfg, selected) == selected && CutAt(|selected|, cfg.maxRules) < |selected|
    ensures PrunedRecords(cfg, selected) != []
  {
    assert |Records(Over(cfg, selected), MaxRulesExceeded)| > 0;
  }

  /** Nothing but the cap on the number of rules would change this list. */
  predicate Settled(cfg: Config, selected: seq<Rule>) {
    && Ranked(cfg, selected) == selected && FirstPassRecords(cfg, selected) == []
    && Fitting(cfg.maxTokens, selected) == selected && NotFitting(cfg.maxTokens, selected) == []
  }

  predicate PrunesToItself(cfg: Config, selected: seq<Rule>) {
    Selected(cfg, selected) == selected && PrunedRecords(cfg, selected) == []
  }

  lemma SettledIff(cfg: Config, selected: seq<Rule>)
    requires Settled(cfg, selected)
    ensures PrunesToItself(cfg, selected) <==> CutAt(|selected|, cfg.maxRules) == |selected|
  {
    if CutAt(|selected|, cfg.maxRules) == |selected| {
      AgainUnchanged(cfg, selected);
    } else {
      AgainShorter(cfg, selected);
    }
  }

  /** Pruning the selection again returns it unchanged and prunes nothing, exactly when the cap is not negative or
      nothing is left; a negative cap drops rules every time. */
  lemma PruningIsIdempotent(cfg: Config, rules: seq<Rule>)
    requires EstimatesNonNegative(rules)
    ensures PrunesToItself(cfg, Selected(cfg, rules)) <==> cfg.maxRules >= 0 || Selected(cfg, rules) == []
  {
    var selected := Selected(cfg, rules);
    SelectedSettled(cfg, rules);
    SelectionIsRankedAndWithinBudgets(cfg, rules);
    SettledIff(cfg, selected);
    assert CutAt(|selected|, cfg.maxRules) == |selected| <==> cfg.maxRules >= 0 || selected == [];
  }
}
