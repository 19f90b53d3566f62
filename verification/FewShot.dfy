/** Label-balanced few-shot selection, `select_deterministic_few_shot_examples` of
    `src/rulekiln/pipeline/baseline_strategies.py`. */
module FewShot {
  import opened Wrappers
  import opened Sorting
  import opened Grouping

  /** A training case with its expected label, if it has one. */
  datatype Example = Example(id: string, expected: Option<string>)

  predicate IdLe(a: Example, b: Example) { StringLe(a.id, b.id) }

  ghost predicate DistinctIds(cases: seq<Example>) {
    forall i, j :: 0 <= i < j < |cases| ==> cases[i].id != cases[j].id
  }

  function LabelOf(x: Example): Option<string> { x.expected }

  function Same(x: Example): Example { x }

  /** The cases with a given label, or without one, in order. */
  function Group(cases: seq<Example>, l: Option<string>): seq<Example> { GroupOf(LabelOf, Same, cases, l) }

  /** The labels in order of first appearance. */
  function Keys(cases: seq<Example>): seq<string> { KeysOf(LabelOf, cases) }

  function Labels(cases: seq<Example>): seq<string> { Sort(StringLe, Keys(cases)) }

  /** One round: the r-th case of each label that has one. */
  function Round(cases: seq<Example>, labels: seq<string>, r: nat): seq<Example> {
    if labels == [] then []
    else
      var group := Group(cases, Some(labels[|labels| - 1]));
      Round(cases, labels[..|labels| - 1], r) + if r < |group| then [group[r]] else []
  }

  function Rounds(cases: seq<Example>, labels: seq<string>, r: nat): seq<Example> {
    if r == 0 then [] else Rounds(cases, labels, r - 1) + Round(cases, labels, r - 1)
  }

  function IdsOf(cases: seq<Example>): set<string> {
    if cases == [] then {} else IdsOf(cases[..|cases| - 1]) + {cases[|cases| - 1].id}
  }

  /** The cases whose id is not among `ids`. */
  function Unselected(ids: set<string>, cases: seq<Example>): seq<Example> {
    if cases == [] then []
    else
      var last := cases[|cases| - 1];
      Unselected(ids, cases[..|cases| - 1]) + if last.id in ids then [] else [last]
  }

  /** The order of selection: labelled cases round by round, then the unlabelled ones with other ids. */
  function Ordered(cases: seq<Example>): seq<Example> {
    var sorted := Sort(IdLe, cases);
    var rounds := Rounds(sorted, Labels(sorted), |sorted|);
    rounds + Unselected(IdsOf(rounds), Group(sorted, None))
  }

  function Take(xs: seq<Example>, n: nat): seq<Example> {
    if n < |xs| then xs[..n] else xs
  }

  function Selection(cases: seq<Example>, k: int): seq<Example> {
    if k <= 0 then [] else Take(Ordered(cases), k)
  }

  // ── Groups ───────────────────────────────────────────────────────────────

  lemma GroupOfNone(cases: seq<Example>, l: Option<string>)
    requires cases == []
    ensures Group(cases, l) == []
  {
  }

  lemma {:induction false} GroupConcat(a: seq<Example>, b: seq<Example>, l: Option<string>)
    ensures Group(a + b, l) == Group(a, l) + Group(b, l)
  {
    if b == [] {
      assert a + b == a;
      GroupOfNone(b, l);
    } else {
      GroupConcat(a, b[..|b| - 1], l);
      assert (a + b)[..|a + b| - 1] == a + b[..|b| - 1];
    }
  }

  lemma GroupMembers(cases: seq<Example>, l: Option<string>)
    ensures forall x :: x in Group(cases, l) <==> x in cases && x.expected == l
    ensures |Group(cases, l)| <= |cases|
  {
    forall x ensures (x in Group(cases, l) <==> x in cases && x.expected == l) && |Group(cases, l)| <= |cases| {
      GroupOfMembers(LabelOf, Same, cases, l, x);
      if x in cases && x.expected == l {
        assert LabelOf(x) == l && Same(x) == x;
      }
    }
    GroupOfMembers(LabelOf, Same, cases, l, Example("", None));
  }

  lemma GroupOfOne(x: Example, l: Option<string>)
    ensures Group([x], l) == if x.expected == l then [x] else []
  {
    assert [x][..0] == [];
    GroupOfNone([x][..0], l);
  }

  lemma {:induction false} GroupCounts(cases: seq<Example>, x: Example)
    ensures multiset(Group(cases, x.expected))[x] == multiset(cases)[x]
  {
    if cases != [] {
      var init, last := cases[..|cases| - 1], cases[|cases| - 1];
      GroupCounts(init, x);
      assert cases == init + [last];
    }
  }

  /** Lists with the same groups have the same cases. */
  lemma SameGroups(a: seq<Example>, b: seq<Example>)
    requires forall l :: Group(a, l) == Group(b, l)
    ensures multiset(a) == multiset(b)
  {
    forall x ensures multiset(a)[x] == multiset(b)[x] {
      GroupCounts(a, x);
      GroupCounts(b, x);
    }
  }

  lemma LabelsDistinct(cases: seq<Example>)
    ensures Distinct(Labels(cases))
    ensures forall l :: l in Labels(cases) <==> Group(cases, Some(l)) != []
  {
    KeysOfDistinct(LabelOf, cases);
    PermutedDistinct(Keys(cases), Labels(cases));
    SameElements(Keys(cases), Labels(cases));
    forall l ensures l in Labels(cases) <==> Group(cases, Some(l)) != [] {
      KeyIsPresent(LabelOf, cases, l);
      GroupMembers(cases, Some(l));
      if Group(cases, Some(l)) != [] {
        assert Group(cases, Some(l))[0] in cases;
      }
      if l in Keys(cases) {
        var i :| 0 <= i < |cases| && cases[i].expected == Some(l);
        assert cases[i] in Group(cases, Some(l));
      }
    }
  }

  // ── Rounds ───────────────────────────────────────────────────────────────

  /** What a round takes of a label. */
  lemma {:induction false} GroupOfRound(cases: seq<Example>, labels: seq<string>, r: nat, l: Option<string>)
    requires Distinct(labels)
    ensures Group(Round(cases, labels, r), l) ==
      if l.Some? && l.value in labels && r < |Group(cases, l)| then [Group(cases, l)[r]] else []
  {
    if labels == [] {
      GroupOfNone(Round(cases, labels, r), l);
    } else {
      var init, last := labels[..|labels| - 1], labels[|labels| - 1];
      assert labels == init + [last];
      GroupOfRound(cases, init, r, l);
      RoundSnoc(cases, init, last, r);
      GroupOfStep(cases, Round(cases, init, r), last, r, l);
    }
  }

  lemma RoundSnoc(cases: seq<Example>, init: seq<string>, last: string, r: nat)
    ensures var group := Group(cases, Some(last));
            Round(cases, init + [last], r) == Round(cases, init, r) + if r < |group| then [group[r]] else []
  {
    assert (init + [last])[..|init|] == init;
  }

  /** What one label adds to a round shows up in its own group only. */
  lemma GroupOfStep(cases: seq<Example>, before: seq<Example>, last: string, r: nat, l: Option<string>)
    ensures var group := Group(cases, Some(last));
            Group(before + (if r < |group| then [group[r]] else []), l)
            == Group(before, l) + if l == Some(last) && r < |group| then [group[r]] else []
  {
    var group := Group(cases, Some(last));
    if r < |group| {
      GroupConcat(before, [group[r]], l);
      GroupOfOne(group[r], l);
      GroupMembers(cases, Some(last));
      assert group[r] in group;
    } else {
      var none: seq<Example> := [];
      assert before + none == before;
    }
  }

  lemma TakeNext(xs: seq<Example>, n: nat)
    ensures Take(xs, n + 1) == Take(xs, n) + if n < |xs| then [xs[n]] else []
  {
  }

  lemma NoRounds(cases: seq<Example>, labels: seq<string>, r: nat, l: Option<string>)
    requires r == 0
    ensures Group(Rounds(cases, labels, r), l) == [] && Take(Group(cases, l), r) == []
  {
    GroupOfNone(Rounds(cases, labels, r), l);
  }

  /** One more round gives one more case, if there is one. */
  lemma OneMore(before: seq<Example>, round: seq<Example>, group: seq<Example>, n: nat, l: Option<string>)
    requires Group(before, l) == Take(group, n)
    requires Group(round, l) == if n < |group| then [group[n]] else []
    ensures Group(before + round, l) == Take(group, n + 1)
  {
    GroupConcat(before, round, l);
    TakeNext(group, n);
  }

  lemma NothingMore(before: seq<Example>, round: seq<Example>, l: Option<string>)
    requires Group(before, l) == [] && Group(round, l) == []
    ensures Group(before + round, l) == []
  {
    GroupConcat(before, round, l);
  }

  lemma GivenNext(cases: seq<Example>, labels: seq<string>, r: nat, l: string)
    requires Distinct(labels) && l in labels && Group(Rounds(cases, labels, r), Some(l)) == Take(Group(cases, Some(l)), r)
    ensures Group(Rounds(cases, labels, r + 1), Some(l)) == Take(Group(cases, Some(l)), r + 1)
  {
    GroupOfRound(cases, labels, r, Some(l));
    OneMore(Rounds(cases, labels, r), Round(cases, labels, r), Group(cases, Some(l)), r, Some(l));
  }

  /** After r rounds a label has given its first r cases, or all of them. */
  lemma GivenAfterRounds(cases: seq<Example>, labels: seq<string>, r: nat, l: string)
    requires Distinct(labels) && l in labels
    ensures Group(Rounds(cases, labels, r), Some(l)) == Take(Group(cases, Some(l)), r)
  {
    NoRounds(cases, labels, 0, Some(l));
    for n := 0 to r
      invariant Group(Rounds(cases, labels, n), Some(l)) == Take(Group(cases, Some(l)), n)
    {
      GivenNext(cases, labels, n, l);
    }
  }

  lemma NoneNext(cases: seq<Example>, labels: seq<string>, r: nat, l: Option<string>)
    requires Distinct(labels) && (l.None? || l.value !in labels) && Group(Rounds(cases, labels, r), l) == []
    ensures Group(Rounds(cases, labels, r + 1), l) == []
  {
    GroupOfRound(cases, labels, r, l);
    NothingMore(Rounds(cases, labels, r), Round(cases, labels, r), l);
  }

  lemma {:induction false} NotInRounds(cases: seq<Example>, labels: seq<string>, r: nat, l: Option<string>)
    requires Distinct(labels) && (l.None? || l.value !in labels)
    ensures Group(Rounds(cases, labels, r), l) == []
  {
    if r == 0 {
      NoRounds(cases, labels, r, l);
    } else {
      NotInRounds(cases, labels, r - 1, l);
      NoneNext(cases, labels, r - 1, l);
    }
  }

  lemma GroupOfRounds(cases: seq<Example>, labels: seq<string>, r: nat, l: Option<string>)
    requires Distinct(labels)
    ensures Group(Rounds(cases, labels, r), l) == if l.Some? && l.value in labels then Take(Group(cases, l), r) else []
  {
    if l.Some? && l.value in labels {
      GivenAfterRounds(cases, labels, r, l.value);
    } else {
      NotInRounds(cases, labels, r, l);
    }
  }

  /** `labels` are the labels that occur in `sorted`. */
  ghost predicate LabelsOf(sorted: seq<Example>, labels: seq<string>) {
    Distinct(labels) && forall l :: l in labels <==> Group(sorted, Some(l)) != []
  }

  /** The rounds of all labels, which hold every labelled case. */
  lemma GroupOfAllRounds(sorted: seq<Example>, labels: seq<string>, l: Option<string>)
    requires LabelsOf(sorted, labels)
    ensures Group(Rounds(sorted, labels, |sorted|), l) == if l.Some? then Group(sorted, l) else []
  {
    GroupOfRounds(sorted, labels, |sorted|, l);
    GroupMembers(sorted, l);
  }

  lemma RoundsArePermutation(sorted: seq<Example>, labels: seq<string>)
    requires LabelsOf(sorted, labels)
    ensures multiset(Rounds(sorted, labels, |sorted|) + Group(sorted, None)) == multiset(sorted)
  {
    var rounds := Rounds(sorted, labels, |sorted|);
    forall l ensures Group(rounds + Group(sorted, None), l) == Group(sorted, l) {
      GroupConcat(rounds, Group(sorted, None), l);
      GroupOfAllRounds(sorted, labels, l);
      GroupAgain(sorted, None, l);
    }
    SameGroups(rounds + Group(sorted, None), sorted);
  }

  lemma {:induction false} UnselectedMembers(ids: set<string>, cases: seq<Example>)
    ensures forall x :: x in Unselected(ids, cases) ==> x in cases && x.id !in ids
  {
    if cases != [] {
      var init, last := cases[..|cases| - 1], cases[|cases| - 1];
      UnselectedMembers(ids, init);
      assert cases == init + [last];
    }
  }

  /** The labelled cases by rounds, and the unlabelled ones that may follow. */
  lemma OrderedIs(cases: seq<Example>) returns (sorted: seq<Example>, labels: seq<string>, rest: seq<Example>)
    ensures sorted == Sort(IdLe, cases) && labels == Labels(sorted)
    ensures multiset(sorted) == multiset(cases) && LabelsOf(sorted, labels)
    ensures rest == Unselected(IdsOf(Rounds(sorted, labels, |sorted|)), Group(sorted, None))
    ensures Ordered(cases) == Rounds(sorted, labels, |sorted|) + rest && forall x :: x in rest ==> x.expected == None
  {
    sorted := Sort(IdLe, cases);
    labels := Labels(sorted);
    rest := Unselected(IdsOf(Rounds(sorted, labels, |sorted|)), Group(sorted, None));
    LabelsDistinct(sorted);
    UnselectedMembers(IdsOf(Rounds(sorted, labels, |sorted|)), Group(sorted, None));
    GroupMembers(sorted, None);
  }

  lemma {:induction false} IdIn(cases: seq<Example>, id: string)
    ensures id in IdsOf(cases) <==> exists i :: 0 <= i < |cases| && cases[i].id == id
  {
    if cases != [] {
      var init := cases[..|cases| - 1];
      IdIn(init, id);
      assert forall i :: 0 <= i < |init| ==> init[i] == cases[i];
    }
  }

  lemma {:induction false} NothingSkipped(ids: set<string>, cases: seq<Example>)
    requires forall i :: 0 <= i < |cases| ==> cases[i].id !in ids
    ensures Unselected(ids, cases) == cases
  {
    if cases != [] {
      NothingSkipped(ids, cases[..|cases| - 1]);
      assert cases == cases[..|cases| - 1] + [cases[|cases| - 1]];
    }
  }

  lemma PermutedIds(cases: seq<Example>, ordered: seq<Example>)
    requires DistinctIds(cases) && multiset(ordered) == multiset(cases)
    ensures DistinctIds(ordered) && forall x :: x in ordered ==> x in cases
  {
    SameElements(ordered, cases);
    assert Distinct(cases);
    PermutedDistinct(cases, ordered);
    forall i, j | 0 <= i < j < |ordered| ensures ordered[i].id != ordered[j].id {
      assert ordered[i] in cases && ordered[j] in cases && ordered[i] != ordered[j];
    }
  }

  lemma DistinctSkipsNothing(front: seq<Example>, back: seq<Example>)
    requires DistinctIds(front + back)
    ensures Unselected(IdsOf(front), back) == back
  {
    forall j | 0 <= j < |back| ensures back[j].id !in IdsOf(front) {
      IdIn(front, back[j].id);
      assert (front + back)[|front| + j] == back[j];
      assert forall i :: 0 <= i < |front| ==> (front + back)[i] == front[i];
    }
    NothingSkipped(IdsOf(front), back);
  }

  /** With distinct ids the selection order is a permutation of the training cases. */
  lemma OrderedIsPermutation(cases: seq<Example>)
    requires DistinctIds(cases)
    ensures multiset(Ordered(cases)) == multiset(cases) && |Ordered(cases)| == |cases|
  {
    var sorted, labels, rest := OrderedIs(cases);
    RoundsArePermutation(sorted, labels);
    PermutedIds(cases, Rounds(sorted, labels, |sorted|) + Group(sorted, None));
    DistinctSkipsNothing(Rounds(sorted, labels, |sorted|), Group(sorted, None));
    SameElements(Ordered(cases), cases);
  }

  lemma {:induction false} GroupAgain(cases: seq<Example>, k: Option<string>, l: Option<string>)
    ensures Group(Group(cases, k), l) == if k == l then Group(cases, l) else []
  {
    if cases == [] {
      GroupOfNone(Group(cases, k), l);
    } else {
      var init, last := cases[..|cases| - 1], cases[|cases| - 1];
      GroupAgain(init, k, l);
      if last.expected == k {
        GroupConcat(Group(init, k), [last], l);
        GroupOfOne(last, l);
      } else {
        assert Group(cases, k) == Group(init, k);
        assert k == l ==> Group(cases, l) == Group(init, l);
      }
    }
  }

  // ── The selection is balanced ────────────────────────────────────────────

  lemma {:induction false} CutRound(cases: seq<Example>, labels: seq<string>, r: nat, m: nat) returns (j: nat)
    requires m <= |Round(cases, labels, r)|
    ensures j <= |labels| && Round(cases, labels, r)[..m] == Round(cases, labels[..j], r)
  {
    j := |labels|;
    assert labels[..j] == labels;
    if m < |Round(cases, labels, r)| {
      var init := labels[..|labels| - 1];
      j := CutRound(cases, init, r, m);
      assert init[..j] == labels[..j];
      assert Round(cases, labels, r)[..m] == Round(cases, init, r)[..m];
    }
  }

  /** Wherever the rounds are cut off, they stop after some labels of some round. */
  lemma {:induction false} CutRounds(cases: seq<Example>, labels: seq<string>, total: nat, m: nat)
    returns (r: nat, j: nat)
    requires m <= |Rounds(cases, labels, total)|
    ensures j <= |labels| && Rounds(cases, labels, total)[..m] == Rounds(cases, labels, r) + Round(cases, labels[..j], r)
    decreases total
  {
    if total == 0 {
      r, j := 0, 0;
      assert Rounds(cases, labels, total) == [];
    } else {
      var before := Rounds(cases, labels, total - 1);
      if m <= |before| {
        r, j := CutRounds(cases, labels, total - 1, m);
        assert Rounds(cases, labels, total)[..m] == before[..m];
      } else {
        r := total - 1;
        j := CutRound(cases, labels, r, m - |before|);
        assert Rounds(cases, labels, total)[..m] == before + Round(cases, labels, r)[..m - |before|];
      }
    }
  }

  lemma {:induction false} GroupSizes(a: seq<Example>, x: Example, l: Option<string>)
    ensures multiset(Group(a, l))[x] == if x.expected == l then multiset(a)[x] else 0
  {
    if x.expected == l {
      GroupCounts(a, x);
    } else {
      GroupMembers(a, l);
      assert x !in Group(a, l);
    }
  }

  lemma PermutedGroup(a: seq<Example>, b: seq<Example>, l: Option<string>)
    requires multiset(a) == multiset(b)
    ensures multiset(Group(a, l)) == multiset(Group(b, l)) && |Group(a, l)| == |Group(b, l)|
  {
    forall x ensures multiset(Group(a, l))[x] == multiset(Group(b, l))[x] {
      GroupSizes(a, x, l);
      GroupSizes(b, x, l);
    }
    SameElements(Group(a, l), Group(b, l));
  }

  /** How many cases of a label there are when the rounds are cut in round r after j labels. */
  lemma GroupOfCut(sorted: seq<Example>, labels: seq<string>, r: nat, j: nat, l: Option<string>) returns (n: nat)
    requires LabelsOf(sorted, labels) && j <= |labels|
    ensures Group(Rounds(sorted, labels, r) + Round(sorted, labels[..j], r), l) == Take(Group(sorted, l), n)
    ensures l.Some? ==> n == if l.value in labels[..j] then r + 1 else r
    ensures l.None? ==> n == 0
  {
    GroupConcat(Rounds(sorted, labels, r), Round(sorted, labels[..j], r), l);
    GroupOfRounds(sorted, labels, r, l);
    GroupOfRound(sorted, labels[..j], r, l);
    TakeNext(Group(sorted, l), r);
    n := if l.None? then 0 else if l.value in labels[..j] then r + 1 else r;
    assert l.Some? && l.value !in labels ==> Group(sorted, l) == [];
  }

  lemma {:induction false} RestIsUnlabelled(rest: seq<Example>, l: string)
    requires forall x :: x in rest ==> x.expected == None
    ensures Group(rest, Some(l)) == []
  {
    if rest != [] {
      RestIsUnlabelled(rest[..|rest| - 1], l);
      assert rest[|rest| - 1] in rest;
    }
  }

  lemma PrefixBeyond(s: seq<Example>, front: seq<Example>, back: seq<Example>)
    requires s <= front + back && |s| > |front|
    ensures s == front + s[|front|..] && forall x :: x in s[|front|..] ==> x in back
  {
    forall i | |front| <= i < |s| ensures s[i] == back[i - |front|] {
      assert s[i] == (front + back)[i];
    }
    forall i | 0 <= i < |front| ensures s[i] == front[i] {
      assert s[i] == (front + back)[i];
    }
  }

  /** `s` is a prefix of all rounds followed by unlabelled cases. */
  ghost predicate Cut(sorted: seq<Example>, labels: seq<string>, rest: seq<Example>, s: seq<Example>) {
    && LabelsOf(sorted, labels) && s <= Rounds(sorted, labels, |sorted|) + rest
    && forall x :: x in rest ==> x.expected == None
  }

  lemma AllLabelled(sorted: seq<Example>, labels: seq<string>, rest: seq<Example>, s: seq<Example>, l: string)
    requires Cut(sorted, labels, rest, s) && |s| > |Rounds(sorted, labels, |sorted|)|
    ensures Group(s, Some(l)) == Group(sorted, Some(l))
  {
    var rounds := Rounds(sorted, labels, |sorted|);
    PrefixBeyond(s, rounds, rest);
    RestIsUnlabelled(s[|rounds|..], l);
    GroupConcat(rounds, s[|rounds|..], Some(l));
    GroupOfAllRounds(sorted, labels, Some(l));
  }

  lemma CutIsBalanced(sorted: seq<Example>, labels: seq<string>, rest: seq<Example>, s: seq<Example>, a: string,
                      b: string)
    requires Cut(sorted, labels, rest, s)
    ensures |Group(s, Some(a))| >= |Group(s, Some(b))| - 1 || |Group(s, Some(a))| == |Group(sorted, Some(a))|
    ensures Group(s, Some(a)) == Take(Group(sorted, Some(a)), |Group(s, Some(a))|)
  {
    var rounds := Rounds(sorted, labels, |sorted|);
    if |s| <= |rounds| {
      assert s == rounds[..|s|];
      var r, j := CutRounds(sorted, labels, |sorted|, |s|);
      var m := GroupOfCut(sorted, labels, r, j, Some(a));
      var n := GroupOfCut(sorted, labels, r, j, Some(b));
    } else {
      AllLabelled(sorted, labels, rest, s, a);
    }
  }

  lemma SelectionIsPrefix(cases: seq<Example>, k: int, ordered: seq<Example>)
    requires ordered == Ordered(cases)
    ensures Selection(cases, k) <= ordered
  {
  }

  lemma SelectionIsCut(cases: seq<Example>, k: int)
    returns (sorted: seq<Example>, labels: seq<string>, rest: seq<Example>)
    ensures sorted == Sort(IdLe, cases) && multiset(sorted) == multiset(cases) && labels == Labels(sorted)
    ensures Cut(sorted, labels, rest, Selection(cases, k))
  {
    sorted, labels, rest := OrderedIs(cases);
    SelectionIsPrefix(cases, k, Rounds(sorted, labels, |sorted|) + rest);
  }

  /** Of any two labels, the first has at most one case less in the selection than the second, or no case left;
      what the selection holds of a label are its first cases by id. */
  lemma SelectionIsBalanced(cases: seq<Example>, k: int, a: string, b: string)
    ensures var s := Selection(cases, k);
            && (|Group(s, Some(a))| >= |Group(s, Some(b))| - 1 || |Group(s, Some(a))| == |Group(cases, Some(a))|)
            && Group(s, Some(a)) == Take(Group(Sort(IdLe, cases), Some(a)), |Group(s, Some(a))|)
  {
    var sorted, labels, rest := SelectionIsCut(cases, k);
    PermutedGroup(cases, sorted, Some(a));
    CutIsBalanced(sorted, labels, rest, Selection(cases, k), a, b);
  }

  lemma {:induction false} GroupSorted(sorted: seq<Example>, l: Option<string>)
    requires Sorted(IdLe, sorted)
    ensures Sorted(IdLe, Group(sorted, l))
  {
    if sorted != [] {
      var init, last := sorted[..|sorted| - 1], sorted[|sorted| - 1];
      GroupSorted(init, l);
      GroupMembers(init, l);
      forall i | 0 <= i < |Group(init, l)| ensures IdLe(Group(init, l)[i], last) {
        assert Group(init, l)[i] in init;
      }
    }
  }

  lemma IdLeIsPreorder()
    ensures TotalPreorder(IdLe)
    ensures forall a, b :: IdLe(a, b) && IdLe(b, a) ==> a.id == b.id
  {
    StringLeIsTotalOrder();
  }

  /** In a sorted list with distinct ids the lesser id comes first. */
  lemma LesserIdIsEarlier(xs: seq<Example>, n: nat, x: Example, y: Example)
    requires Sorted(IdLe, xs) && x in xs && y in Take(xs, n) && x.id != y.id && StringLe(x.id, y.id)
    ensures x in Take(xs, n)
  {
    IdLeIsPreorder();
    var i :| 0 <= i < |Take(xs, n)| && Take(xs, n)[i] == y;
    var j :| 0 <= j < |xs| && xs[j] == x;
    assert xs[i] == y;
    assert forall m :: i < m < |xs| ==> IdLe(y, xs[m]);
    assert Take(xs, n)[j] == x;
  }

  /** Of two cases with one label, the one with the greater id is not selected without the other. */
  lemma LesserIdsFirst(cases: seq<Example>, k: int, x: Example, y: Example)
    requires x in cases && y in Selection(cases, k) && x.expected == y.expected && x.expected.Some?
    requires x.id != y.id && StringLe(x.id, y.id)
    ensures x in Selection(cases, k)
  {
    var s, sorted, l := Selection(cases, k), Sort(IdLe, cases), x.expected;
    SelectionIsBalanced(cases, k, l.value, l.value);
    IdLeIsPreorder();
    SortSorts(IdLe, cases);
    SameElements(cases, sorted);
    GroupMembers(sorted, l);
    GroupMembers(s, l);
    GroupSorted(sorted, l);
    LesserIdIsEarlier(Group(sorted, l), |Group(s, l)|, x, y);
    assert x in Group(s, l);
  }

  /** How many cases of a label the cut holds: one more for the labels that had their turn, as far as there are any. */
  lemma SizeOfCut(sorted: seq<Example>, labels: seq<string>, r: nat, j: nat, l: string)
    requires LabelsOf(sorted, labels) && j <= |labels|
    ensures |Group(Rounds(sorted, labels, r) + Round(sorted, labels[..j], r), Some(l))|
         == AtMost(if l in labels[..j] then r + 1 else r, |Group(sorted, Some(l))|)
  {
    hide Group, Rounds, Round, LabelsOf;
    var n := GroupOfCut(sorted, labels, r, j, Some(l));
  }

  function AtMost(n: nat, bound: nat): nat { if n < bound then n else bound }

  lemma UnknownLabel(sorted: seq<Example>, labels: seq<string>, l: string)
    requires LabelsOf(sorted, labels) && l !in labels
    ensures Group(sorted, Some(l)) == []
  {
  }

  lemma CutFavoursLesser(sorted: seq<Example>, labels: seq<string>, s: seq<Example>, a: string, b: string)
    requires labels == Labels(sorted) && LabelsOf(sorted, labels) && a != b && StringLe(a, b)
    requires s <= Rounds(sorted, labels, |sorted|)
    ensures |Group(s, Some(a))| >= |Group(s, Some(b))| || |Group(s, Some(a))| == |Group(sorted, Some(a))|
  {
    hide Group, Rounds, Round, Labels, LabelsOf, StringLe;
    var r, j := CutRounds(sorted, labels, |sorted|, |s|);
    assert s == Rounds(sorted, labels, |sorted|)[..|s|];
    SizeOfCut(sorted, labels, r, j, a);
    SizeOfCut(sorted, labels, r, j, b);
    if a !in labels {
      UnknownLabel(sorted, labels, a);
    } else if b in labels[..j] {
      LesserLabelIsEarlier(sorted, labels, a, b, j);
    }
  }

  /** The labels take turns in their order: a lesser label never has fewer cases selected than a greater one, unless it has
      none left. */
  lemma LesserLabelsFirst(cases: seq<Example>, k: int, a: string, b: string)
    requires a != b && StringLe(a, b)
    ensures var s := Selection(cases, k);
            |Group(s, Some(a))| >= |Group(s, Some(b))| || |Group(s, Some(a))| == |Group(cases, Some(a))|
  {
    hide Group, Rounds, Labels, Selection;
    var sorted, labels, rest := SelectionIsCut(cases, k);
    var s := Selection(cases, k);
    PermutedGroup(cases, sorted, Some(a));
    if |s| <= |Rounds(sorted, labels, |sorted|)| {
      CutFavoursLesser(sorted, labels, s, a, b);
    } else {
      AllLabelled(sorted, labels, rest, s, a);
    }
  }

  lemma LesserLabelIsEarlier(sorted: seq<Example>, labels: seq<string>, a: string, b: string, j: nat)
    requires labels == Labels(sorted) && j <= |labels| && a in labels && b in labels[..j] && a != b && StringLe(a, b)
    ensures a in labels[..j]
  {
    StringLeIsTotalOrder();
    SortSorts(StringLe, Keys(sorted));
    var i :| 0 <= i < j && labels[..j][i] == b;
    var h :| 0 <= h < |labels| && labels[h] == a;
    assert forall m :: i < m < |labels| ==> StringLe(b, labels[m]);
    assert labels[..j][h] == a;
  }

  lemma UnlabelledAfterRounds(sorted: seq<Example>, labels: seq<string>, rest: seq<Example>, s: seq<Example>,
                              x: Example)
    requires Cut(sorted, labels, rest, s) && x in s && x.expected.None?
    ensures |s| > |Rounds(sorted, labels, |sorted|)|
  {
    var rounds := Rounds(sorted, labels, |sorted|);
    GroupOfAllRounds(sorted, labels, None);
    GroupMembers(rounds, None);
    assert forall i :: 0 <= i < |s| && i < |rounds| ==> s[i] == rounds[i] && rounds[i] in rounds;
    var i :| 0 <= i < |s| && s[i] == x;
  }

  lemma TakeBeyond(front: seq<Example>, back: seq<Example>, s: seq<Example>)
    requires s <= front + back && |s| > |front|
    ensures s[|front|..] == Take(back, |s| - |front|)
  {
    forall i | 0 <= i < |s| - |front| ensures s[|front|..][i] == back[i] {
      assert s[|front| + i] == (front + back)[|front| + i];
    }
  }

  /** The unlabelled cases, too, are selected in the order of their ids. */
  lemma LesserUnlabelledFirst(cases: seq<Example>, k: int, x: Example, y: Example)
    requires DistinctIds(cases) && x in cases && y in Selection(cases, k) && x.expected.None? && y.expected.None?
    requires x.id != y.id && StringLe(x.id, y.id)
    ensures x in Selection(cases, k)
  {
    var s := Selection(cases, k);
    var sorted, labels, rest := OrderedIs(cases);
    var rounds := Rounds(sorted, labels, |sorted|);
    SelectionIsPrefix(cases, k, rounds + rest);
    UnlabelledAfterRounds(sorted, labels, rest, s, y);
    TakeBeyond(rounds, rest, s);
    RestIsInOrder(cases, sorted, labels, rest);
    SameElements(cases, sorted);
    GroupMembers(sorted, None);
    GroupOfAllRounds(sorted, labels, None);
    GroupMembers(rounds, None);
    PrefixBeyond(s, rounds, rest);
    assert y in s[|rounds|..];
    LesserIdIsEarlier(rest, |s| - |rounds|, x, y);
    assert x in s[|rounds|..];
  }

  lemma RestIsInOrder(cases: seq<Example>, sorted: seq<Example>, labels: seq<string>, rest: seq<Example>)
    requires DistinctIds(cases) && sorted == Sort(IdLe, cases) && labels == Labels(sorted) && LabelsOf(sorted, labels)
    requires rest == Unselected(IdsOf(Rounds(sorted, labels, |sorted|)), Group(sorted, None))
    ensures rest == Group(sorted, None) && Sorted(IdLe, rest)
  {
    RoundsArePermutation(sorted, labels);
    PermutedIds(cases, Rounds(sorted, labels, |sorted|) + Group(sorted, None));
    DistinctSkipsNothing(Rounds(sorted, labels, |sorted|), Group(sorted, None));
    IdLeIsPreorder();
    SortSorts(IdLe, cases);
    GroupSorted(sorted, None);
  }

  /** An unlabelled case is only selected when every labelled one is. */
  lemma UnlabelledComeLast(cases: seq<Example>, k: int, x: Example, y: Example)
    requires x in Selection(cases, k) && x.expected.None? && y in cases && y.expected.Some?
    ensures y in Selection(cases, k)
  {
    var sorted, labels, rest := SelectionIsCut(cases, k);
    var s := Selection(cases, k);
    UnlabelledAfterRounds(sorted, labels, rest, s, x);
    AllLabelled(sorted, labels, rest, s, y.expected.value);
    SameElements(cases, sorted);
    GroupMembers(sorted, y.expected);
    GroupMembers(s, y.expected);
    assert y in Group(s, y.expected);
  }

  lemma TakeKeepsIds(ordered: seq<Example>, k: nat)
    requires DistinctIds(ordered)
    ensures DistinctIds(Take(ordered, k)) && forall x :: x in Take(ordered, k) ==> x in ordered
  {
    var taken := Take(ordered, k);
    assert forall i :: 0 <= i < |taken| ==> taken[i] == ordered[i] && ordered[i] in ordered;
  }

  /** The selection has min(k, n) cases, each from the input and none twice. */
  lemma SelectionSize(cases: seq<Example>, k: int)
    requires DistinctIds(cases)
    ensures |Selection(cases, k)| == if k <= 0 then 0 else if k < |cases| then k else |cases|
    ensures DistinctIds(Selection(cases, k)) && forall x :: x in Selection(cases, k) ==> x in cases
  {
    OrderedIsPermutation(cases);
    PermutedIds(cases, Ordered(cases));
    if k > 0 {
      TakeKeepsIds(Ordered(cases), k);
    }
  }

  /** The order of the training cases does not matter. */
  lemma SelectionForgetsOrder(cases: seq<Example>, permuted: seq<Example>, k: int)
    requires DistinctIds(cases) && multiset(cases) == multiset(permuted)
    ensures Selection(cases, k) == Selection(permuted, k)
  {
    StringLeIsTotalOrder();
    assert TotalPreorder(IdLe);
    SortForgetsOrder(IdLe, cases, permuted);
  }

  // ── The loops ────────────────────────────────────────────────────────────

  method GroupByLabel(sorted: seq<Example>)
    returns (grouped: map<string, seq<Example>>, keys: seq<string>, unlabelled: seq<Example>)
    ensures Grouped(LabelOf, Same, grouped, keys, sorted) && unlabelled == Group(sorted, None)
  {
    hide Grouped;
    grouped, keys, unlabelled := map[], [], [];
    NothingGrouped<Example, string, Example>(LabelOf, Same);
    for i := 0 to |sorted|
      invariant Grouped(LabelOf, Same, grouped, keys, sorted[..i]) && unlabelled == Group(sorted[..i], None)
    {
      assert sorted[..i + 1] == sorted[..i] + [sorted[i]];
      GroupedNext(LabelOf, Same, grouped, keys, sorted[..i], sorted[i]);
      GroupOfNext(LabelOf, Same, sorted[..i], sorted[i], None);
      var expected := sorted[i].expected;
      if expected.None? {
        unlabelled := unlabelled + [sorted[i]];
        continue;
      }
      if expected.value in grouped {
        grouped := grouped[expected.value := grouped[expected.value] + [sorted[i]]];
      } else {
        assert [] + [sorted[i]] == [sorted[i]];
        grouped, keys := grouped[expected.value := [sorted[i]]], keys + [expected.value];
      }
    }
    assert sorted[..|sorted|] == sorted;
  }

  /** Each label has been asked for its first cases in the rounds before r, and those in `done` in round r as well. */
  ghost predicate Advanced(indices: map<string, nat>, sorted: seq<Example>, labels: seq<string>, r: nat, done: nat) {
    forall i :: 0 <= i < |labels| ==>
      labels[i] in indices && indices[labels[i]] == |Take(Group(sorted, Some(labels[i])), if i < done then r + 1 else r)|
  }

  lemma AdvancedNext(indices: map<string, nat>, sorted: seq<Example>, labels: seq<string>, r: nat, j: nat)
    requires Advanced(indices, sorted, labels, r, j) && Distinct(labels) && j < |labels|
    ensures var group := Group(sorted, Some(labels[j]));
            && (indices[labels[j]] >= |group| <==> r >= |group|) && (r < |group| ==> indices[labels[j]] == r)
            && Advanced(if r < |group| then indices[labels[j] := r + 1] else indices, sorted, labels, r, j + 1)
  {
    forall i | 0 <= i < |labels| && i != j ensures labels[i] != labels[j] {
      assert i < j || j < i;
    }
  }

  /** Round r, up to its j-th label, has been added to `before`. */
  ghost predicate InRound(before: seq<Example>, selected: seq<Example>, indices: map<string, nat>,
                          sorted: seq<Example>, labels: seq<string>, r: nat, j: nat)
  {
    && j <= |labels|
    && selected == before + Round(sorted, labels[..j], r)
    && Advanced(indices, sorted, labels, r, j)
  }

  lemma InRoundNext(before: seq<Example>, selected: seq<Example>, indices: map<string, nat>,
                    sorted: seq<Example>, labels: seq<string>, r: nat, j: nat)
    requires InRound(before, selected, indices, sorted, labels, r, j) && Distinct(labels) && j < |labels|
    ensures labels[j] in indices
    ensures var group, idx := Group(sorted, Some(labels[j])), indices[labels[j]];
            if idx >= |group| then InRound(before, selected, indices, sorted, labels, r, j + 1)
            else InRound(before, selected + [group[idx]], indices[labels[j] := idx + 1], sorted, labels, r, j + 1)
  {
    AdvancedNext(indices, sorted, labels, r, j);
    RoundNext(sorted, labels, r, j);
    hide Advanced, Round, Group;
    var group := Group(sorted, Some(labels[j]));
    Associative(before, Round(sorted, labels[..j], r), if r < |group| then [group[r]] else []);
  }

  lemma RoundNext(sorted: seq<Example>, labels: seq<string>, r: nat, j: nat)
    requires j < |labels|
    ensures var group := Group(sorted, Some(labels[j]));
            Round(sorted, labels[..j + 1], r) == Round(sorted, labels[..j], r) + if r < |group| then [group[r]] else []
  {
    assert labels[..j + 1][..j] == labels[..j];
  }

  method OneRound(grouped: map<string, seq<Example>>, labels: seq<string>, before: seq<Example>,
                  start: map<string, nat>, k: nat,
                  ghost sorted: seq<Example>, ghost r: nat)
    returns (selected: seq<Example>, indices: map<string, nat>, progressed: bool, ghost done: nat)
    requires Distinct(labels) && |before| < k && InRound(before, before, start, sorted, labels, r, 0)
    requires forall i :: 0 <= i < |labels| ==> labels[i] in grouped && grouped[labels[i]] == Group(sorted, Some(labels[i]))
    ensures InRound(before, selected, indices, sorted, labels, r, done) && |selected| <= k
    ensures done < |labels| ==> |selected| == k
    ensures progressed <==> |selected| > |before|
  {
    selected, indices, progressed, done := before, start, false, 0;
    for j := 0 to |labels|
      invariant done == j && InRound(before, selected, indices, sorted, labels, r, j) && |selected| < k
      invariant progressed <==> |selected| > |before|
    {
      InRoundNext(before, selected, indices, sorted, labels, r, j);
      done := j + 1;
      var idx, casesForLabel := indices[labels[j]], grouped[labels[j]];
      if idx >= |casesForLabel| {
        continue;
      }
      selected := selected + [casesForLabel[idx]];
      indices := indices[labels[j] := idx + 1];
      progressed := true;
      if |selected| >= k {
        break;
      }
    }
  }

  // ── The rounds as prefixes of all rounds ─────────────────────────────────

  lemma {:induction false} RoundsPrefix(sorted: seq<Example>, labels: seq<string>, r: nat, total: nat)
    requires r <= total
    ensures Rounds(sorted, labels, r) <= Rounds(sorted, labels, total)
    decreases total
  {
    if r < total {
      RoundsPrefix(sorted, labels, r, total - 1);
    }
  }

  lemma {:induction false} RoundPrefix(sorted: seq<Example>, labels: seq<string>, r: nat, j: nat)
    requires j <= |labels|
    ensures Round(sorted, labels[..j], r) <= Round(sorted, labels, r)
    decreases |labels|
  {
    if j < |labels| {
      var init := labels[..|labels| - 1];
      RoundPrefix(sorted, init, r, j);
      assert init[..j] == labels[..j];
    } else {
      assert labels[..j] == labels;
    }
  }

  lemma CutIsPrefix(sorted: seq<Example>, labels: seq<string>, r: nat, j: nat)
    requires j <= |labels| && r < |sorted|
    ensures Rounds(sorted, labels, r) + Round(sorted, labels[..j], r) <= Rounds(sorted, labels, |sorted|)
  {
    RoundPrefix(sorted, labels, r, j);
    RoundsPrefix(sorted, labels, r + 1, |sorted|);
  }

  lemma {:induction false} LaterRoundEmpty(sorted: seq<Example>, labels: seq<string>, r: nat, later: nat)
    requires r <= later && |Round(sorted, labels, r)| == 0
    ensures |Round(sorted, labels, later)| == 0
    decreases |labels|
  {
    if labels != [] {
      LaterRoundEmpty(sorted, labels[..|labels| - 1], r, later);
    }
  }

  lemma EmptyNext(sorted: seq<Example>, labels: seq<string>, r: nat, total: nat)
    requires r <= total && |Round(sorted, labels, r)| == 0
    ensures Rounds(sorted, labels, total + 1) == Rounds(sorted, labels, total)
  {
    LaterRoundEmpty(sorted, labels, r, total);
  }

  /** After a round without progress no label has a case left. */
  lemma EmptyRoundsFollow(sorted: seq<Example>, labels: seq<string>, r: nat, total: nat)
    requires r <= total && |Round(sorted, labels, r)| == 0
    ensures Rounds(sorted, labels, total) == Rounds(sorted, labels, r)
  {
    for n := r to total
      invariant Rounds(sorted, labels, n) == Rounds(sorted, labels, r)
    {
      EmptyNext(sorted, labels, r, n);
    }
  }

  /** Progress in a round means that some label has more than r cases. */
  lemma ProgressInRound(sorted: seq<Example>, labels: seq<string>, r: nat)
    requires Distinct(labels) && Round(sorted, labels, r) != []
    ensures r < |sorted|
  {
    var x := Round(sorted, labels, r)[0];
    GroupOfRound(sorted, labels, r, x.expected);
    GroupMembers(Round(sorted, labels, r), x.expected);
    assert x in Round(sorted, labels, r);
    GroupMembers(sorted, x.expected);
  }

  /** Between two rounds. */
  ghost predicate AfterRounds(selected: seq<Example>, indices: map<string, nat>, sorted: seq<Example>,
                              labels: seq<string>, r: nat) {
    r <= |sorted| && selected == Rounds(sorted, labels, r) && Advanced(indices, sorted, labels, r, 0)
  }

  lemma RoundsBegin(indices: map<string, nat>, sorted: seq<Example>, labels: seq<string>)
    requires forall i :: 0 <= i < |labels| ==> labels[i] in indices && indices[labels[i]] == 0
    ensures AfterRounds([], indices, sorted, labels, 0)
  {
  }

  lemma RoundBegins(selected: seq<Example>, indices: map<string, nat>, sorted: seq<Example>, labels: seq<string>,
                    r: nat)
    requires AfterRounds(selected, indices, sorted, labels, r)
    ensures InRound(selected, selected, indices, sorted, labels, r, 0)
  {
    assert Round(sorted, labels[..0], r) == [];
    assert selected + [] == selected;
  }

  /** The first k of all labelled cases in selection order. */
  ghost predicate FirstOfRounds(selected: seq<Example>, sorted: seq<Example>, labels: seq<string>, k: nat) {
    selected == Take(Rounds(sorted, labels, |sorted|), k)
  }

  lemma PrefixIsFirst(selected: seq<Example>, sorted: seq<Example>, labels: seq<string>, k: nat)
    requires selected <= Rounds(sorted, labels, |sorted|) && |selected| == k
    ensures FirstOfRounds(selected, sorted, labels, k)
  {
  }

  /** A round that was not cut off and added nothing was the last one. */
  lemma RoundFutile(before: seq<Example>, selected: seq<Example>, start: map<string, nat>, indices: map<string, nat>,
                    sorted: seq<Example>, labels: seq<string>, r: nat, k: nat)
    requires AfterRounds(before, start, sorted, labels, r) && InRound(before, selected, indices, sorted, labels, r, |labels|)
    requires |selected| == |before| < k
    ensures FirstOfRounds(selected, sorted, labels, k)
  {
    assert labels[..|labels|] == labels;
    EmptyRoundsFollow(sorted, labels, r, |sorted|);
  }

  lemma RoundCut(before: seq<Example>, selected: seq<Example>, start: map<string, nat>, indices: map<string, nat>,
                 sorted: seq<Example>, labels: seq<string>, r: nat, done: nat, k: nat)
    requires AfterRounds(before, start, sorted, labels, r) && InRound(before, selected, indices, sorted, labels, r, done)
    requires Distinct(labels) && |selected| > |before| && |selected| == k
    ensures FirstOfRounds(selected, sorted, labels, k)
  {
    PartOfRound(sorted, labels, r, done);
    CutIsPrefix(sorted, labels, r, done);
    PrefixIsFirst(selected, sorted, labels, k);
  }

  lemma RoundDone(before: seq<Example>, selected: seq<Example>, start: map<string, nat>, indices: map<string, nat>,
                  sorted: seq<Example>, labels: seq<string>, r: nat)
    requires AfterRounds(before, start, sorted, labels, r) && InRound(before, selected, indices, sorted, labels, r, |labels|)
    requires Distinct(labels) && |selected| > |before|
    ensures AfterRounds(selected, indices, sorted, labels, r + 1)
  {
    PartOfRound(sorted, labels, r, |labels|);
    assert labels[..|labels|] == labels;
  }

  lemma PartOfRound(sorted: seq<Example>, labels: seq<string>, r: nat, done: nat)
    requires Distinct(labels) && done <= |labels| && Round(sorted, labels[..done], r) != []
    ensures r < |sorted|
  {
    RoundPrefix(sorted, labels, r, done);
    ProgressInRound(sorted, labels, r);
  }

  method RoundRobin(grouped: map<string, seq<Example>>, labels: seq<string>, k: nat, ghost sorted: seq<Example>)
    returns (selected: seq<Example>)
    requires Distinct(labels) && k > 0
    requires forall i :: 0 <= i < |labels| ==> labels[i] in grouped && grouped[labels[i]] == Group(sorted, Some(labels[i]))
    ensures FirstOfRounds(selected, sorted, labels, k)
  {
    var indices := map l | l in labels :: 0;
    RoundsBegin(indices, sorted, labels);
    selected := MoreRounds(grouped, labels, [], indices, k, sorted, 0);
  }

  method MoreRounds(grouped: map<string, seq<Example>>, labels: seq<string>, first: seq<Example>,
                    start: map<string, nat>, k: nat,
                    ghost sorted: seq<Example>, ghost from: nat)
    returns (selected: seq<Example>)
    requires Distinct(labels) && AfterRounds(first, start, sorted, labels, from) && |first| < k
    requires forall i :: 0 <= i < |labels| ==> labels[i] in grouped && grouped[labels[i]] == Group(sorted, Some(labels[i]))
    ensures FirstOfRounds(selected, sorted, labels, k)
  {
    selected := first;
    var indices := start;
    ghost var r := from;
    while |selected| < k
      invariant AfterRounds(selected, indices, sorted, labels, r) && |selected| < k
      decreases k - |selected|
    {
      var before, progressed := selected, false;
      ghost var earlier, done := indices, 0;
      RoundBegins(selected, indices, sorted, labels, r);
      selected, indices, progressed, done := OneRound(grouped, labels, selected, indices, k, sorted, r);
      if !progressed {
        RoundFutile(before, selected, earlier, indices, sorted, labels, r, k);
        return;
      }
      if |selected| >= k {
        RoundCut(before, selected, earlier, indices, sorted, labels, r, done, k);
        return;
      }
      RoundDone(before, selected, earlier, indices, sorted, labels, r);
      r := r + 1;
    }
  }

  lemma UnselectedNext(ids: set<string>, cases: seq<Example>, i: nat)
    requires i < |cases|
    ensures Unselected(ids, cases[..i + 1]) == Unselected(ids, cases[..i]) + if cases[i].id in ids then [] else [cases[i]]
  {
    assert cases[..i + 1][..i] == cases[..i];
  }

  lemma {:induction false} UnselectedPrefix(ids: set<string>, cases: seq<Example>, i: nat)
    requires i <= |cases|
    ensures Unselected(ids, cases[..i]) <= Unselected(ids, cases)
    decreases |cases|
  {
    if i < |cases| {
      var init := cases[..|cases| - 1];
      UnselectedPrefix(ids, init, i);
      assert init[..i] == cases[..i];
    } else {
      assert cases[..i] == cases;
    }
  }

  /** The first i unlabelled cases have been gone through. */
  ghost predicate Filling(before: seq<Example>, selected: seq<Example>, ids: set<string>, unlabelled: seq<Example>,
                          i: nat) {
    i <= |unlabelled| && selected == before + Unselected(ids, unlabelled[..i])
  }

  lemma FillingNext(before: seq<Example>, selected: seq<Example>, ids: set<string>, unlabelled: seq<Example>, i: nat)
    requires Filling(before, selected, ids, unlabelled, i) && i < |unlabelled|
    ensures if unlabelled[i].id in ids then Filling(before, selected, ids, unlabelled, i + 1)
            else Filling(before, selected + [unlabelled[i]], ids, unlabelled, i + 1)
  {
    UnselectedNext(ids, unlabelled, i);
  }

  lemma FillingCut(before: seq<Example>, selected: seq<Example>, ids: set<string>, unlabelled: seq<Example>,
                   i: nat, k: nat)
    requires Filling(before, selected, ids, unlabelled, i) && (|selected| == k || (i == |unlabelled| && |selected| < k))
    ensures selected == Take(before + Unselected(ids, unlabelled), k)
  {
    UnselectedPrefix(ids, unlabelled, i);
    assert unlabelled[..|unlabelled|] == unlabelled;
  }

  /** Unlabelled cases fill up what the labelled ones left, unless their id was selected already. */
  method FillUp(before: seq<Example>, unlabelled: seq<Example>, k: nat) returns (selected: seq<Example>)
    requires |before| < k
    ensures selected == Take(before + Unselected(IdsOf(before), unlabelled), k)
  {
    selected := before;
    var selectedIds := IdsOf(before);
    for i := 0 to |unlabelled|
      invariant Filling(before, selected, selectedIds, unlabelled, i) && |selected| < k
    {
      FillingNext(before, selected, selectedIds, unlabelled, i);
      if unlabelled[i].id in selectedIds {
        continue;
      }
      selected := selected + [unlabelled[i]];
      if |selected| >= k {
        FillingCut(before, selected, selectedIds, unlabelled, i + 1, k);
        return;
      }
    }
    FillingCut(before, selected, selectedIds, unlabelled, |unlabelled|, k);
  }

  lemma {:induction false} NoLabelsNoRounds(sorted: seq<Example>, labels: seq<string>, total: nat)
    requires labels == []
    ensures Rounds(sorted, labels, total) == []
  {
    if total > 0 {
      NoLabelsNoRounds(sorted, labels, total - 1);
    }
  }

  /** What follows the labelled cases, and what is selected of all. */
  ghost predicate SelectedFrom(selected: seq<Example>, sorted: seq<Example>, labels: seq<string>, k: nat) {
    var rounds := Rounds(sorted, labels, |sorted|);
    selected == Take(rounds + Unselected(IdsOf(rounds), Group(sorted, None)), k)
  }

  lemma RoundsSuffice(selected: seq<Example>, sorted: seq<Example>, labels: seq<string>, k: nat)
    requires FirstOfRounds(selected, sorted, labels, k) && |selected| >= k
    ensures SelectedFrom(selected, sorted, labels, k)
  {
  }

  lemma RoundsExhausted(selected: seq<Example>, sorted: seq<Example>, labels: seq<string>, k: nat)
    requires FirstOfRounds(selected, sorted, labels, k) && |selected| < k
    ensures selected == Rounds(sorted, labels, |sorted|)
  {
  }

  lemma OnlyUnlabelled(sorted: seq<Example>, labels: seq<string>, k: nat)
    requires labels == []
    ensures SelectedFrom(Take(Group(sorted, None), k), sorted, labels, k)
  {
    var rounds, unlabelled := Rounds(sorted, labels, |sorted|), Group(sorted, None);
    NoLabelsNoRounds(sorted, labels, |sorted|);
    NothingSkipped(IdsOf(rounds), unlabelled);
    assert rounds + unlabelled == unlabelled;
  }

  lemma GroupsOfLabels(grouped: map<string, seq<Example>>, keys: seq<string>, labels: seq<string>,
                       sorted: seq<Example>)
    requires Grouped(LabelOf, Same, grouped, keys, sorted) && multiset(keys) == multiset(labels)
    ensures forall i :: 0 <= i < |labels| ==> labels[i] in grouped && grouped[labels[i]] == Group(sorted, Some(labels[i]))
    ensures keys == [] <==> labels == []
  {
    SameElements(keys, labels);
  }

  /** Labels first, then what is left. */
  method SelectFrom(grouped: map<string, seq<Example>>, labels: seq<string>, unlabelled: seq<Example>, k: nat,
                    ghost sorted: seq<Example>)
    returns (selected: seq<Example>)
    requires k > 0 && Distinct(labels) && unlabelled == Group(sorted, None)
    requires forall i :: 0 <= i < |labels| ==> labels[i] in grouped && grouped[labels[i]] == Group(sorted, Some(labels[i]))
    ensures SelectedFrom(selected, sorted, labels, k)
  {
    selected := RoundRobin(grouped, labels, k, sorted);
    if |selected| < k {
      RoundsExhausted(selected, sorted, labels, k);
      selected := FillUp(selected, unlabelled, k);
    } else {
      RoundsSuffice(selected, sorted, labels, k);
    }
  }

  method SelectSorted(sorted: seq<Example>, ghost expected: seq<string>, k: nat) returns (selected: seq<Example>)
    requires k > 0 && expected == Labels(sorted) && LabelsOf(sorted, expected)
    ensures SelectedFrom(selected, sorted, expected, k)
  {
    var grouped, keys, unlabelled := GroupByLabel(sorted);
    var labels := Sort(StringLe, keys);
    GroupsOfLabels(grouped, keys, labels, sorted);
    if keys == [] {
      OnlyUnlabelled(sorted, labels, k);
      return Take(unlabelled, k);
    }
    selected := SelectFrom(grouped, labels, unlabelled, k, sorted);
  }

  method SelectFewShot(cases: seq<Example>, k: int) returns (selected: seq<Example>)
    ensures selected == Selection(cases, k)
  {
    if k <= 0 {
      return [];
    }
    ghost var sorted, labels, rest := OrderedIs(cases);
    selected := SelectSorted(Sort(IdLe, cases), labels, k);
  }
}
