/** Synthesized rules, and the identifiers that refinement gives to the parts of a split rule. */
module Rules {
  import opened Sorting

  /** `body` stands for the texts that no decision in the model looks at. */
  datatype Rule = Rule(
    id: string,
    topic: string,
    appliesWhen: seq<string>,
    body: string,
    priority: int,
    sourceCaseIds: seq<string>,
    hasConflicts: bool,
    supportCount: int,
    supportRatio: real,
    goldenBacked: bool,
    tokenEstimate: int)

  function Ids(rules: seq<Rule>): (ids: seq<string>)
    ensures |ids| == |rules|
  {
    seq(|rules|, i requires 0 <= i < |rules| => rules[i].id)
  }

  // ── Decimal numerals ─────────────────────────────────────────────────────

  function Digit(d: nat): char
    requires d < 10
  {
    (('0' as int) + d) as char
  }

  predicate IsDigit(c: char) { '0' <= c <= '9' }

  function Decimal(n: nat): (s: string)
    ensures s != "" && forall i :: 0 <= i < |s| ==> IsDigit(s[i])
  {
    if n < 10 then [Digit(n)] else Decimal(n / 10) + [Digit(n % 10)]
  }

  lemma {:induction false} DecimalInjective(m: nat, n: nat)
    requires Decimal(m) == Decimal(n)
    ensures m == n
  {
    var s, t := Decimal(m), Decimal(n);
    assert s[|s| - 1] == Digit(m % 10) && t[|t| - 1] == Digit(n % 10);
    assert m % 10 == n % 10;
    if m >= 10 && n >= 10 {
      assert s[..|s| - 1] == Decimal(m / 10) && t[..|t| - 1] == Decimal(n / 10);
      DecimalInjective(m / 10, n / 10);
    }
  }

  // ── Split identifiers ────────────────────────────────────────────────────

  const SPLIT_MARK := "__refined_"

  function SplitId(id: string, index: nat): (s: string)
    ensures |s| > |id|
  {
    id + SPLIT_MARK + Decimal(index)
  }

  /** After its last underscore a split identifier has nothing but the digits of its index. */
  lemma SplitIdEnd(id: string, index: nat)
    ensures var s, k := SplitId(id, index), |SplitId(id, index)| - |Decimal(index)| - 1;
            && 0 <= k < |s| && s[k] == '_' && s[k + 1..] == Decimal(index) && s[..k + 1] == id + SPLIT_MARK
            && forall i :: k < i < |s| ==> IsDigit(s[i])
  {
    var s, prefix, k := SplitId(id, index), id + SPLIT_MARK, |SplitId(id, index)| - |Decimal(index)| - 1;
    assert s == prefix + Decimal(index) && k == |prefix| - 1;
    assert SPLIT_MARK[|SPLIT_MARK| - 1] == '_';
    assert s[k] == prefix[|prefix| - 1];
    forall i | k < i < |s| ensures IsDigit(s[i]) {
      assert s[i] == Decimal(index)[i - k - 1];
    }
  }

  /** The encoding of (rule, index) in a split identifier is injective. */
  lemma SplitIdInjective(a: string, i: nat, b: string, j: nat)
    requires SplitId(a, i) == SplitId(b, j)
    ensures a == b && i == j
  {
    SplitIdEnd(a, i);
    SplitIdEnd(b, j);
    var s := SplitId(a, i);
    var k, l := |s| - |Decimal(i)| - 1, |s| - |Decimal(j)| - 1;
    assert s[k] == '_' && s[l] == '_';
    DecimalInjective(i, j);
    assert a + SPLIT_MARK == b + SPLIT_MARK;
    assert a == (a + SPLIT_MARK)[..|a|] && b == (b + SPLIT_MARK)[..|b|];
  }

  /** `a` is a part, at any depth, of the rule `b`. */
  ghost predicate Descends(a: string, b: string)
    decreases |a|
  {
    exists c: string, i: nat :: i >= 1 && a == SplitId(c, i) && (c == b || Descends(c, b))
  }

  lemma DescendsFromPart(c: string, i: nat, b: string)
    requires i >= 1
    ensures Descends(SplitId(c, i), b) <==> c == b || Descends(c, b)
  {
    if Descends(SplitId(c, i), b) {
      var d: string, j: nat :| j >= 1 && SplitId(c, i) == SplitId(d, j) && (d == b || Descends(d, b));
      SplitIdInjective(c, i, d, j);
    }
  }

  lemma {:induction false} DescendsLonger(a: string, b: string)
    requires Descends(a, b)
    ensures |a| > |b|
    decreases |a|
  {
    var c: string, i: nat :| i >= 1 && a == SplitId(c, i) && (c == b || Descends(c, b));
    if c != b {
      DescendsLonger(c, b);
    }
  }

  /** What descends from a part descends from the whole. */
  lemma {:induction false} DescendsThroughPart(a: string, b: string, i: nat)
    requires i >= 1 && Descends(a, SplitId(b, i))
    ensures Descends(a, b)
    decreases |a|
  {
    var c: string, j: nat :| j >= 1 && a == SplitId(c, j) && (c == SplitId(b, i) || Descends(c, SplitId(b, i)));
    if c == SplitId(b, i) {
      DescendsFromPart(b, i, b);
    } else {
      DescendsThroughPart(c, b, i);
    }
  }

  /** Neither is the other or a part of it. */
  ghost predicate Apart(a: string, b: string) {
    a != b && !Descends(a, b) && !Descends(b, a)
  }

  /** A rule a round may leave in place of rule `id`: itself, or one of its parts. */
  ghost predicate From(x: string, id: string) {
    x == id || exists i: nat :: i >= 1 && x == SplitId(id, i)
  }

  /** Whatever becomes of two rules that are apart is apart. */
  lemma ApartStaysApart(p: string, q: string, x: string, y: string)
    requires Apart(p, q) && From(x, p) && From(y, q)
    ensures Apart(x, y)
  {
    if x != p {
      var i: nat :| i >= 1 && x == SplitId(p, i);
      PartStaysApart(p, i, q);
      assert Apart(x, q);
    }
    if y != q {
      var j: nat :| j >= 1 && y == SplitId(q, j);
      PartStaysApart(q, j, x);
    }
  }

  lemma PartStaysApart(p: string, i: nat, q: string)
    requires i >= 1 && Apart(p, q)
    ensures Apart(SplitId(p, i), q)
  {
    DescendsFromPart(p, i, q);
    if q == SplitId(p, i) {
      DescendsFromPart(p, i, p);
    }
    if Descends(q, SplitId(p, i)) {
      DescendsThroughPart(q, p, i);
    }
  }

  /** The parts of one rule are apart from each other. */
  lemma PartsApart(p: string, i: nat, j: nat)
    requires 1 <= i && 1 <= j && i != j
    ensures Apart(SplitId(p, i), SplitId(p, j))
  {
    if SplitId(p, i) == SplitId(p, j) {
      SplitIdInjective(p, i, p, j);
    }
    PartDoesNotDescendFromSibling(p, i, j);
    PartDoesNotDescendFromSibling(p, j, i);
  }

  lemma PartDoesNotDescendFromSibling(p: string, i: nat, j: nat)
    requires 1 <= i && 1 <= j
    ensures !Descends(SplitId(p, i), SplitId(p, j))
  {
    DescendsFromPart(p, i, SplitId(p, j));
    if Descends(p, SplitId(p, j)) {
      DescendsLonger(p, SplitId(p, j));
    }
  }

  /** The live identifiers: all different, and none a part of another. */
  ghost predicate Antichain(ids: seq<string>) {
    forall i, j :: 0 <= i < j < |ids| ==> Apart(ids[i], ids[j])
  }

  ghost predicate UnderscoreFree(s: string) {
    forall i :: 0 <= i < |s| ==> s[i] != '_'
  }

  /** Distinct underscore-free identifiers, such as UUIDs, form an antichain. */
  lemma UuidsAreAntichain(ids: seq<string>)
    requires Distinct(ids) && forall i :: 0 <= i < |ids| ==> UnderscoreFree(ids[i])
    ensures Antichain(ids)
  {
    forall a, b | Descends(a, b) ensures !UnderscoreFree(a) {
      var c: string, i: nat :| i >= 1 && a == SplitId(c, i) && (c == b || Descends(c, b));
      SplitIdEnd(c, i);
    }
  }

  lemma AntichainDistinct(ids: seq<string>)
    requires Antichain(ids)
    ensures Distinct(ids)
  {
  }
}
