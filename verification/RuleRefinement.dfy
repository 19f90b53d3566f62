/** Teacher-directed refinement of `src/rulekiln/pipeline/rule_refinement.py`. The teacher is arbitrary. */
module RuleRefinement {
  import opened Wrappers
  import opened Sorting
  import opened Rules
  import opened Pruning

  datatype Kind = Keep | Modify | Split | Discard

  datatype Action = Action(kind: Kind, ruleId: string, revised: seq<Rule>)

  /** A version 1 entry: a plain replacement by rule id. */
  datatype Entry = Entry(ruleId: string, revised: Rule)

  datatype Refinement = Refinement(actions: seq<Action>, entries: seq<Entry>)

  // ── Filtering the teacher's reply ────────────────────────────────────────

  function Accepted(actions: seq<Action>, allowed: set<string>): seq<Action> {
    if actions == [] then []
    else
      Accepted(actions[..|actions| - 1], allowed)
      + if actions[|actions| - 1].ruleId in allowed then [actions[|actions| - 1]] else []
  }

  function AllowedIds(rules: seq<Rule>, implicated: set<string>): set<string> {
    set r | r in rules && r.id in implicated :: r.id
  }

  /** What `refine_rules_with_teacher` returns for a given reply: nothing when no rule is implicated,
      otherwise the reply with its actions filtered and its version 1 entries as they came. */
  function Filtered(rules: seq<Rule>, implicated: set<string>, reply: Refinement): Refinement {
    var allowed := AllowedIds(rules, implicated);
    if allowed == {} then Refinement([], []) else Refinement(Accepted(reply.actions, allowed), reply.entries)
  }

  method FilterActions(actions: seq<Action>, allowed: set<string>)
    returns (accepted: seq<Action>, rejected: seq<string>)
    ensures accepted == Accepted(actions, allowed)
    ensures |accepted| + |rejected| == |actions| && forall id :: id in rejected ==> id !in allowed
  {
    accepted, rejected := [], [];
    for i := 0 to |actions|
      invariant accepted == Accepted(actions[..i], allowed)
      invariant |accepted| + |rejected| == i && forall id :: id in rejected ==> id !in allowed
    {
      assert actions[..i + 1][..i] == actions[..i];
      if actions[i].ruleId in allowed {
        accepted := accepted + [actions[i]];
      } else {
        rejected := rejected + [actions[i].ruleId];
      }
    }
    assert actions[..|actions|] == actions;
  }

  lemma {:induction false} AcceptedAreAllowed(actions: seq<Action>, allowed: set<string>)
    ensures forall a :: a in Accepted(actions, allowed) ==> a in actions && a.ruleId in allowed
  {
    if actions != [] {
      AcceptedAreAllowed(actions[..|actions| - 1], allowed);
      assert actions == actions[..|actions| - 1] + [actions[|actions| - 1]];
    }
  }

  /** No action on an allowed rule is lost, and none is taken twice. */
  lemma {:induction false} AcceptedKeeps(actions: seq<Action>, allowed: set<string>, a: Action)
    ensures multiset(Accepted(actions, allowed))[a] == if a.ruleId in allowed then multiset(actions)[a] else 0
    ensures a in Accepted(actions, allowed) <==> a in actions && a.ruleId in allowed
  {
    if actions != [] {
      var init, last := actions[..|actions| - 1], actions[|actions| - 1];
      AcceptedKeeps(init, allowed, a);
      assert actions == init + [last];
    }
  }

  /** The filter looks at each action by itself, so it keeps their order. */
  lemma {:induction false} AcceptedConcat(a: seq<Action>, b: seq<Action>, allowed: set<string>)
    ensures Accepted(a + b, allowed) == Accepted(a, allowed) + Accepted(b, allowed)
  {
    if b == [] {
      assert a + b == a;
    } else {
      AcceptedConcat(a, b[..|b| - 1], allowed);
      assert (a + b)[..|a + b| - 1] == a + b[..|b| - 1];
    }
  }

  // ── Applying it ──────────────────────────────────────────────────────────

  /** A dictionary built from a list: for a repeated key the last entry counts. */
  function LastAction(actions: seq<Action>, id: string): Option<Action> {
    if actions == [] then None
    else if actions[|actions| - 1].ruleId == id then Some(actions[|actions| - 1])
    else LastAction(actions[..|actions| - 1], id)
  }

  function LastEntry(entries: seq<Entry>, id: string): Option<Entry> {
    if entries == [] then None
    else if entries[|entries| - 1].ruleId == id then Some(entries[|entries| - 1])
    else LastEntry(entries[..|entries| - 1], id)
  }

  /** The parts of a split rule, numbered from one. */
  function Parts(id: string, revised: seq<Rule>): (parts: seq<Rule>)
    ensures |parts| == |revised|
  {
    seq(|revised|, i requires 0 <= i < |revised| => revised[i].(id := SplitId(id, i + 1)))
  }

  /** What takes the place of one rule.  A malformed action leaves the rule as it is. */
  function Replacement(r: Rule, action: Option<Action>): seq<Rule> {
    if action.None? then [r]
    else
      var revised := action.value.revised;
      match action.value.kind
      case Keep => [r]
      case Modify => if |revised| == 1 then [revised[0].(id := r.id)] else [r]
      case Split => if revised == [] then [r] else Parts(r.id, revised)
      case Discard => []
  }

  function AppliedActions(rules: seq<Rule>, actions: seq<Action>): seq<Rule> {
    if rules == [] then []
    else
      AppliedActions(rules[..|rules| - 1], actions)
      + Replacement(rules[|rules| - 1], LastAction(actions, rules[|rules| - 1].id))
  }

  function Replaced(r: Rule, entries: seq<Entry>): Rule {
    var entry := LastEntry(entries, r.id);
    if entry.Some? then entry.value.revised.(id := r.id) else r
  }

  function AppliedEntries(rules: seq<Rule>, entries: seq<Entry>): (applied: seq<Rule>)
    ensures |applied| == |rules|
  {
    seq(|rules|, i requires 0 <= i < |rules| => Replaced(rules[i], entries))
  }

  function Applied(rules: seq<Rule>, refinement: Refinement): seq<Rule> {
    if refinement.actions != [] then AppliedActions(rules, refinement.actions)
    else if refinement.entries != [] then AppliedEntries(rules, refinement.entries)
    else rules
  }

  /** What a round's filter and application together make of a rule list, for a given reply. */
  function Refined(rules: seq<Rule>, implicated: set<string>, reply: Refinement): seq<Rule> {
    Applied(rules, Filtered(rules, implicated, reply))
  }

  method ReplaceRule(rule: Rule, action: Option<Action>) returns (block: seq<Rule>)
    ensures block == Replacement(rule, action)
    ensures if action.None? then block == [rule] else TakesPlace(rule, action.value, block)
  {
    if action.None? || action.value.kind == Keep {
      return [rule];
    }
    if action.value.kind == Modify {
      if |action.value.revised| != 1 {
        return [rule];
      }
      return [action.value.revised[0].(id := rule.id)];
    }
    if action.value.kind == Split {
      if action.value.revised == [] {
        return [rule];
      }
      block := [];
      for index := 0 to |action.value.revised|
        invariant block == Parts(rule.id, action.value.revised)[..index]
      {
        block := block + [action.value.revised[index].(id := SplitId(rule.id, index + 1))];
      }
      return;
    }
    return [];
  }

  method ApplyRefinementActions(rules: seq<Rule>, actions: seq<Action>) returns (result: seq<Rule>)
    ensures result == AppliedActions(rules, actions)
  {
    result := [];
    for i := 0 to |rules|
      invariant result == AppliedActions(rules[..i], actions)
    {
      assert rules[..i + 1][..i] == rules[..i];
      var block := ReplaceRule(rules[i], LastAction(actions, rules[i].id));
      result := result + block;
    }
    assert rules[..|rules|] == rules;
  }

  method ReplaceByEntries(rules: seq<Rule>, entries: seq<Entry>) returns (result: seq<Rule>)
    ensures result == AppliedEntries(rules, entries)
  {
    result := [];
    for i := 0 to |rules|
      invariant result == AppliedEntries(rules, entries)[..i]
    {
      var revised := LastEntry(entries, rules[i].id);
      if revised.Some? {
        result := result + [revised.value.revised.(id := rules[i].id)];
      } else {
        result := result + [rules[i]];
      }
    }
  }

  method ApplyRefinements(rules: seq<Rule>, refinement: Refinement) returns (result: seq<Rule>)
    ensures result == Applied(rules, refinement) && TakesEffect(rules, refinement, result)
  {
    hide TakesEffect;
    RefinementTakesEffect(rules, refinement);
    if refinement.actions != [] {
      result := ApplyRefinementActions(rules, refinement.actions);
    } else if refinement.entries != [] {
      result := ReplaceByEntries(rules, refinement.entries);
    } else {
      result := rules;
    }
  }

  // ── What takes the place of each rule ────────────────────────────────────

  /** The i-th action is the last one on a rule. */
  predicate CountsFor(actions: seq<Action>, id: string, i: nat) {
    i < |actions| && actions[i].ruleId == id && forall j | i < j < |actions| :: actions[j].ruleId != id
  }

  predicate Unnamed(actions: seq<Action>, id: string) {
    forall i | 0 <= i < |actions| :: actions[i].ruleId != id
  }

  /** All fields but the id are those of the revised rule. */
  predicate CarriesContent(r: Rule, revised: Rule) {
    && r.topic == revised.topic && r.appliesWhen == revised.appliesWhen && r.body == revised.body
    && r.priority == revised.priority && r.sourceCaseIds == revised.sourceCaseIds && r.hasConflicts == revised.hasConflicts
    && r.supportCount == revised.supportCount && r.supportRatio == revised.supportRatio
    && r.goldenBacked == revised.goldenBacked && r.tokenEstimate == revised.tokenEstimate
  }

  /** What an action leaves of its rule: a modified rule keeps its id and takes the revised content, the parts of a split
      carry the revised contents in order under numbered ids, a discarded rule is gone, and a malformed action changes
      nothing. */
  predicate TakesPlace(r: Rule, action: Action, block: seq<Rule>) {
    if action.kind == Modify && |action.revised| == 1 then
      |block| == 1 && block[0].id == r.id && CarriesContent(block[0], action.revised[0])
    else if action.kind == Split && action.revised != [] then
      && |block| == |action.revised|
      && forall i | 0 <= i < |block| ::
           block[i].id == r.id + "__refined_" + Decimal(i + 1) && CarriesContent(block[i], action.revised[i])
    else if action.kind == Discard then block == []
    else block == [r]
  }

  /** Only the last action on a rule counts, and a rule without one stays. */
  ghost predicate StandsFor(actions: seq<Action>, r: Rule, block: seq<Rule>) {
    && (Unnamed(actions, r.id) ==> block == [r])
    && forall i: nat :: CountsFor(actions, r.id, i) ==> TakesPlace(r, actions[i], block)
  }

  function Flattened(blocks: seq<seq<Rule>>): seq<Rule> {
    if blocks == [] then [] else Flattened(blocks[..|blocks| - 1]) + blocks[|blocks| - 1]
  }

  /** The rules after a refinement, block by block in the order of the rules before it. */
  ghost predicate BlockByBlock(rules: seq<Rule>, actions: seq<Action>, after: seq<Rule>, blocks: seq<seq<Rule>>) {
    |blocks| == |rules| && after == Flattened(blocks) && forall i :: 0 <= i < |rules| ==> StandsFor(actions, rules[i], blocks[i])
  }

  lemma {:induction false} LastActionCounts(actions: seq<Action>, id: string)
    ensures LastAction(actions, id).None? <==> Unnamed(actions, id)
    ensures forall i: nat :: CountsFor(actions, id, i) ==> LastAction(actions, id) == Some(actions[i])
  {
    if actions != [] {
      var init, last := actions[..|actions| - 1], actions[|actions| - 1];
      LastActionCounts(init, id);
      if last.ruleId != id {
        assert Unnamed(actions, id) <==> Unnamed(init, id);
        forall i: nat | CountsFor(actions, id, i) ensures LastAction(actions, id) == Some(actions[i]) {
          assert CountsFor(init, id, i) && init[i] == actions[i];
        }
      }
    }
  }

  lemma ReplacementTakesPlace(r: Rule, action: Action)
    ensures TakesPlace(r, action, Replacement(r, Some(action)))
  {
    hide Decimal;
  }

  lemma ReplacementStands(actions: seq<Action>, r: Rule)
    ensures StandsFor(actions, r, Replacement(r, LastAction(actions, r.id)))
  {
    hide TakesPlace, Replacement, CountsFor, Unnamed, LastAction;
    LastActionCounts(actions, r.id);
    var last := LastAction(actions, r.id);
    if last.Some? {
      ReplacementTakesPlace(r, last.value);
    } else {
      NothingReplaced(r);
    }
  }

  lemma NothingReplaced(r: Rule)
    ensures Replacement(r, None) == [r]
  {
  }

  lemma {:induction false} ActionsBlockByBlock(rules: seq<Rule>, actions: seq<Action>) returns (blocks: seq<seq<Rule>>)
    ensures BlockByBlock(rules, actions, AppliedActions(rules, actions), blocks)
  {
    hide StandsFor;
    blocks := [];
    if rules != [] {
      var init, last := rules[..|rules| - 1], rules[|rules| - 1];
      var front := ActionsBlockByBlock(init, actions);
      ReplacementStands(actions, last);
      blocks := front + [Replacement(last, LastAction(actions, last.id))];
      assert blocks[..|blocks| - 1] == front;
    }
  }

  /** The i-th version 1 entry is the last one for a rule. */
  predicate EntryCountsFor(entries: seq<Entry>, id: string, i: nat) {
    i < |entries| && entries[i].ruleId == id && forall j | i < j < |entries| :: entries[j].ruleId != id
  }

  /** Version 1 entries replace rules one by one: the last entry for a rule gives its content, and a rule without one stays. */
  ghost predicate OneByOne(rules: seq<Rule>, entries: seq<Entry>, after: seq<Rule>) {
    && |after| == |rules|
    && forall k :: 0 <= k < |rules| ==>
         && after[k].id == rules[k].id
         && ((forall i :: 0 <= i < |entries| ==> entries[i].ruleId != rules[k].id) ==> after[k] == rules[k])
         && forall i: nat :: EntryCountsFor(entries, rules[k].id, i) ==> CarriesContent(after[k], entries[i].revised)
  }

  lemma {:induction false} LastEntryCounts(entries: seq<Entry>, id: string)
    ensures LastEntry(entries, id).None? <==> forall i :: 0 <= i < |entries| ==> entries[i].ruleId != id
    ensures forall i: nat :: EntryCountsFor(entries, id, i) ==> LastEntry(entries, id) == Some(entries[i])
  {
    if entries != [] {
      var init, last := entries[..|entries| - 1], entries[|entries| - 1];
      LastEntryCounts(init, id);
      if last.ruleId != id {
        forall i: nat | EntryCountsFor(entries, id, i) ensures LastEntry(entries, id) == Some(entries[i]) {
          assert EntryCountsFor(init, id, i) && init[i] == entries[i];
        }
        assert forall i :: 0 <= i < |init| ==> init[i] == entries[i];
      }
    }
  }

  lemma EntriesOneByOne(rules: seq<Rule>, entries: seq<Entry>)
    ensures OneByOne(rules, entries, AppliedEntries(rules, entries))
  {
    hide CarriesContent, LastEntry;
    forall k | 0 <= k < |rules|
      ensures AppliedEntries(rules, entries)[k].id == rules[k].id
      ensures (forall i :: 0 <= i < |entries| ==> entries[i].ruleId != rules[k].id) ==> AppliedEntries(rules, entries)[k] == rules[k]
      ensures forall i: nat :: EntryCountsFor(entries, rules[k].id, i) ==> CarriesContent(AppliedEntries(rules, entries)[k], entries[i].revised)
    {
      LastEntryCounts(entries, rules[k].id);
      EntryGivesContent(rules[k], entries);
    }
  }

  lemma EntryGivesContent(r: Rule, entries: seq<Entry>)
    ensures LastEntry(entries, r.id).Some? ==> CarriesContent(Replaced(r, entries), LastEntry(entries, r.id).value.revised)
  {
  }

  /** A refinement takes effect rule by rule: actions come first, version 1 entries count only without any action, and
      without either nothing changes. */
  ghost predicate TakesEffect(rules: seq<Rule>, refinement: Refinement, after: seq<Rule>) {
    if refinement.actions != [] then exists blocks :: BlockByBlock(rules, refinement.actions, after, blocks)
    else OneByOne(rules, refinement.entries, after)
  }

  lemma RefinementTakesEffect(rules: seq<Rule>, refinement: Refinement)
    ensures TakesEffect(rules, refinement, Applied(rules, refinement))
  {
    hide BlockByBlock;
    if refinement.actions != [] {
      var blocks := ActionsBlockByBlock(rules, refinement.actions);
    } else {
      EntriesOneByOne(rules, refinement.entries);
      if refinement.entries == [] {
        assert AppliedEntries(rules, refinement.entries) == rules;
      }
    }
  }

  /** The ids the provenance artifact records for an action. */
  function ProvenanceIds(action: Action): seq<string> {
    match action.kind
    case Keep => [action.ruleId]
    case Modify => [action.ruleId]
    case Split => seq(|action.revised|, i requires 0 <= i < |action.revised| => SplitId(action.ruleId, i + 1))
    case Discard => []
  }

  predicate IsEmptySplit(action: Action) { action.kind == Split && action.revised == [] }

  /** The recorded action leaves of its rule what the action that counts, the last one for the rule, really leaves. */
  predicate RecordsOutcome(recorded: Action, last: Action) {
    if last.kind == Discard then recorded.kind == Discard || IsEmptySplit(recorded)
    else if last.kind == Split && last.revised != [] then recorded.kind == Split && |recorded.revised| == |last.revised|
    else recorded.kind == Keep || recorded.kind == Modify
  }

  lemma AppliedSnoc(rules: seq<Rule>, r: Rule, actions: seq<Action>)
    ensures AppliedActions(rules + [r], actions) == AppliedActions(rules, actions) + Replacement(r, LastAction(actions, r.id))
  {
    assert (rules + [r])[..|rules|] == rules;
  }

  lemma AppliedNothing(rules: seq<Rule>, actions: seq<Action>)
    requires |rules| == 0
    ensures |AppliedActions(rules, actions)| == 0
  {
  }

  ghost predicate AppliesApart(a: seq<Rule>, b: seq<Rule>, actions: seq<Action>) {
    AppliedActions(a + b, actions) == AppliedActions(a, actions) + AppliedActions(b, actions)
  }

  lemma AppliesApartNext(a: seq<Rule>, b: seq<Rule>, r: Rule, actions: seq<Action>)
    requires AppliesApart(a, b, actions)
    ensures AppliesApart(a, b + [r], actions)
  {
    Associative(a, b, [r]);
    AppliedSnoc(a + b, r, actions);
    AppliedSnoc(b, r, actions);
    Associative(AppliedActions(a, actions), AppliedActions(b, actions), Replacement(r, LastAction(actions, r.id)));
  }

  lemma AppliesApartAtStart(a: seq<Rule>, b: seq<Rule>, actions: seq<Action>)
    requires |b| == 0
    ensures AppliesApart(a, b, actions)
  {
    AppliedNothing(b, actions);
    assert a + b == a;
  }

  lemma {:induction false} AppliedConcat(a: seq<Rule>, b: seq<Rule>, actions: seq<Action>)
    ensures AppliesApart(a, b, actions)
    decreases |b|
  {
    if |b| == 0 {
      AppliesApartAtStart(a, b, actions);
    } else {
      var init, last := b[..|b| - 1], b[|b| - 1];
      AppliedConcat(a, init, actions);
      AppliesApartNext(a, init, last, actions);
      assert b == init + [last];
    }
  }

  /** What becomes of one rule does not depend on the others. */
  lemma ActionsActOnEach(front: seq<Rule>, r: Rule, back: seq<Rule>, actions: seq<Action>)
    ensures AppliedActions(front + [r] + back, actions)
         == AppliedActions(front, actions) + Replacement(r, LastAction(actions, r.id)) + AppliedActions(back, actions)
  {
    AppliedConcat(front + [r], back, actions);
    AppliedSnoc(front, r, actions);
  }

  lemma LastActionExists(actions: seq<Action>, i: nat)
    requires i < |actions|
    ensures LastAction(actions, actions[i].ruleId).Some?
    ensures (forall k, l :: 0 <= k < l < |actions| ==> actions[k].ruleId != actions[l].ruleId)
      ==> LastAction(actions, actions[i].ruleId).value == actions[i]
  {
    var id := actions[i].ruleId;
    if actions[|actions| - 1].ruleId != id {
      LastActionExists(actions[..|actions| - 1], i);
    }
  }

  lemma ReplacementIdsIff(r: Rule, recorded: Action, last: Action)
    requires recorded.ruleId == r.id
    ensures Ids(Replacement(r, Some(last))) == ProvenanceIds(recorded) <==> RecordsOutcome(recorded, last)
  {
    var ids, noted := Ids(Replacement(r, Some(last))), ProvenanceIds(recorded);
    assert Ids([r]) == [r.id];
    if last.kind == Split && last.revised != [] {
      assert |ids| == |last.revised| && ids[0] == SplitId(r.id, 1);
      if recorded.kind == Split && |recorded.revised| == |last.revised| {
        assert ids == noted;
      }
    } else if last.kind != Discard {
      assert |ids| == 1 && ids[0] == r.id;
      if recorded.kind == Split && recorded.revised != [] {
        assert noted[0] == SplitId(r.id, 1);
      }
    }
  }

  /** For any rule of the list and any recorded action on it: the record names the ids that really take the rule's
      place exactly when it matches the last action on that rule; where no rule is acted on twice, exactly when it
      is not an empty split. */
  lemma ProvenanceAgreesIff(front: seq<Rule>, r: Rule, back: seq<Rule>, actions: seq<Action>, i: nat)
    requires i < |actions| && actions[i].ruleId == r.id
    ensures LastAction(actions, r.id).Some?
    ensures var left := Ids(Replacement(r, LastAction(actions, r.id)));
      && Ids(AppliedActions(front + [r] + back, actions))
         == Ids(AppliedActions(front, actions)) + left + Ids(AppliedActions(back, actions))
      && (left == ProvenanceIds(actions[i]) <==> RecordsOutcome(actions[i], LastAction(actions, r.id).value))
      && ((forall k, l :: 0 <= k < l < |actions| ==> actions[k].ruleId != actions[l].ruleId)
          ==> (left == ProvenanceIds(actions[i]) <==> !IsEmptySplit(actions[i])))
  {
    ActionsActOnEach(front, r, back, actions);
    LastActionExists(actions, i);
    ReplacementIdsIff(r, actions[i], LastAction(actions, r.id).value);
    var before, block := AppliedActions(front, actions), Replacement(r, LastAction(actions, r.id));
    IdsSnoc(before, block);
    IdsSnoc(before + block, AppliedActions(back, actions));
  }

  /** A rule that is first discarded and then kept stays, and is recorded as gone. */
  lemma RepeatedActionIsMisrecorded(r: Rule)
    ensures var actions := [Action(Discard, r.id, []), Action(Keep, r.id, [])];
            Applied([r], Refinement(actions, [])) == [r] && ProvenanceIds(actions[0]) == []
  {
    var actions := [Action(Discard, r.id, []), Action(Keep, r.id, [])];
    ActionsActOnEach([], r, [], actions);
    assert [] + [r] + [] == [r];
  }

  // ── Identifiers stay distinct ────────────────────────────────────────────

  ghost predicate AllFrom(rules: seq<Rule>, sources: seq<string>) {
    forall r :: r in rules ==> exists id :: id in sources && From(r.id, id)
  }

  lemma IdsSnoc(rules: seq<Rule>, more: seq<Rule>)
    ensures Ids(rules + more) == Ids(rules) + Ids(more)
  {
  }

  lemma ReplacementFrom(r: Rule, action: Option<Action>)
    ensures forall x :: x in Replacement(r, action) ==> From(x.id, r.id)
    ensures Antichain(Ids(Replacement(r, action)))
  {
    var block := Replacement(r, action);
    if action.Some? && action.value.kind == Split && action.value.revised != [] {
      forall i, j | 0 <= i < j < |block| ensures Apart(block[i].id, block[j].id) {
        PartsApart(r.id, i + 1, j + 1);
      }
    }
  }

  lemma AntichainConcat(a: seq<Rule>, b: seq<Rule>, sources: seq<string>, id: string)
    requires Antichain(Ids(a)) && Antichain(Ids(b)) && AllFrom(a, sources)
    requires forall x :: x in b ==> From(x.id, id)
    requires forall s :: s in sources ==> Apart(s, id)
    ensures Antichain(Ids(a + b))
  {
    var ids := Ids(a + b);
    forall i, j | 0 <= i < j < |ids| ensures Apart(ids[i], ids[j]) {
      if j < |a| {
        assert Apart(Ids(a)[i], Ids(a)[j]);
      } else if i >= |a| {
        assert Apart(Ids(b)[i - |a|], Ids(b)[j - |a|]);
      } else {
        assert a[i] in a && b[j - |a|] in b;
        var s :| s in sources && From(a[i].id, s);
        ApartStaysApart(s, id, a[i].id, b[j - |a|].id);
      }
    }
  }

  lemma {:induction false} ActionsKeepAntichain(rules: seq<Rule>, actions: seq<Action>)
    requires Antichain(Ids(rules))
    ensures Antichain(Ids(AppliedActions(rules, actions)))
    ensures AllFrom(AppliedActions(rules, actions), Ids(rules))
  {
    if rules != [] {
      var init, last := rules[..|rules| - 1], rules[|rules| - 1];
      assert rules == init + [last];
      IdsSnoc(init, [last]);
      forall i, j | 0 <= i < j < |Ids(init)| ensures Apart(Ids(init)[i], Ids(init)[j]) {
        assert Apart(Ids(rules)[i], Ids(rules)[j]);
      }
      ActionsKeepAntichain(init, actions);
      var before, block := AppliedActions(init, actions), Replacement(last, LastAction(actions, last.id));
      ReplacementFrom(last, LastAction(actions, last.id));
      forall s | s in Ids(init) ensures Apart(s, last.id) {
        var i :| 0 <= i < |Ids(init)| && Ids(init)[i] == s;
        assert Apart(Ids(rules)[i], Ids(rules)[|rules| - 1]);
      }
      AntichainConcat(before, block, Ids(init), last.id);
      AllFromConcat(before, block, init, last);
    }
  }

  lemma AllFromConcat(a: seq<Rule>, b: seq<Rule>, init: seq<Rule>, last: Rule)
    requires AllFrom(a, Ids(init)) && forall x :: x in b ==> From(x.id, last.id)
    ensures AllFrom(a + b, Ids(init + [last]))
  {
    IdsSnoc(init, [last]);
    assert last.id == Ids([last])[0];
    forall r | r in a + b ensures exists id :: id in Ids(init + [last]) && From(r.id, id) {
      if r in a {
        var id :| id in Ids(init) && From(r.id, id);
        assert id in Ids(init + [last]);
      } else {
        assert last.id in Ids(init + [last]) && From(r.id, last.id);
      }
    }
  }

  lemma AppliedKeepsAntichain(rules: seq<Rule>, refinement: Refinement)
    requires Antichain(Ids(rules))
    ensures Antichain(Ids(Applied(rules, refinement)))
  {
    if refinement.actions != [] {
      ActionsKeepAntichain(rules, refinement.actions);
    } else if refinement.entries != [] {
      assert Ids(AppliedEntries(rules, refinement.entries)) == Ids(rules);
    }
  }

  lemma AntichainAsSet(ids: seq<string>)
    ensures Antichain(ids) <==> Distinct(ids) && forall a, b :: a in ids && b in ids ==> !Descends(a, b)
  {
    if Antichain(ids) {
      forall a, b | a in ids && b in ids ensures !Descends(a, b) {
        var i, j :| 0 <= i < |ids| && 0 <= j < |ids| && ids[i] == a && ids[j] == b;
        if i == j && Descends(a, b) {
          DescendsLonger(a, b);
        }
      }
    }
    if Distinct(ids) && forall a, b :: a in ids && b in ids ==> !Descends(a, b) {
      forall i, j | 0 <= i < j < |ids| ensures Apart(ids[i], ids[j]) {
        assert ids[i] in ids && ids[j] in ids;
      }
    }
  }

  lemma WithoutOne(rules: seq<Rule>, r: Rule) returns (rest: seq<Rule>)
    requires r in rules
    ensures multiset(rules) == multiset(rest) + multiset{r}
    ensures multiset(Ids(rules)) == multiset(Ids(rest)) + multiset{r.id}
  {
    var k :| 0 <= k < |rules| && rules[k] == r;
    var front, back := rules[..k], rules[k + 1..];
    rest := front + back;
    assert rules == front + [r] + back;
    IdsAround(front, r, back);
  }

  lemma {:induction false} IdsMultiset(a: seq<Rule>, b: seq<Rule>, x: string)
    requires multiset(a) <= multiset(b)
    ensures multiset(Ids(a))[x] <= multiset(Ids(b))[x]
    decreases |a|
  {
    if a != [] {
      var init, last := a[..|a| - 1], a[|a| - 1];
      assert a == init + [last];
      assert last in multiset(b);
      var rest := WithoutOne(b, last);
      CancelOne(multiset(init), multiset(rest), last);
      IdsMultiset(init, rest, x);
      IdsSnoc(init, [last]);
      assert Ids([last]) == [last.id];
    }
  }

  lemma CancelOne(m: multiset<Rule>, n: multiset<Rule>, r: Rule)
    requires m + multiset{r} <= n + multiset{r}
    ensures m <= n
  {
    forall x ensures m[x] <= n[x] {
      assert (m + multiset{r})[x] <= (n + multiset{r})[x];
    }
  }

  lemma IdsAround(front: seq<Rule>, r: Rule, back: seq<Rule>)
    ensures multiset(Ids(front + [r] + back)) == multiset(Ids(front + back)) + multiset{r.id}
  {
    IdsSnoc(front, [r]);
    IdsSnoc(front + [r], back);
    IdsSnoc(front, back);
    assert Ids([r]) == [r.id];
  }

  /** Pruning only removes and reorders, so it keeps the antichain. */
  lemma PruningKeepsAntichain(cfg: Config, rules: seq<Rule>)
    requires Antichain(Ids(rules))
    ensures Antichain(Ids(Selected(cfg, rules)))
  {
    var selected := Selected(cfg, rules);
    PruningPartitions(cfg, rules);
    AntichainAsSet(Ids(rules));
    AntichainAsSet(Ids(selected));
    DistinctCounts(Ids(rules));
    DistinctCounts(Ids(selected));
    forall x ensures multiset(Ids(selected))[x] <= 1 {
      IdsMultiset(selected, rules, x);
    }
    forall x | x in Ids(selected) ensures x in Ids(rules) {
      IdsMultiset(selected, rules, x);
      assert x in multiset(Ids(selected));
      assert x in multiset(Ids(rules));
    }
  }

  /** One round: a teacher reply on some implicated rules, then pruning under some configuration. */
  datatype Round = Round(implicated: set<string>, reply: Refinement, cfg: Config)

  function AfterRound(rules: seq<Rule>, round: Round): seq<Rule> {
    Selected(round.cfg, Refined(rules, round.implicated, round.reply))
  }

  function AfterRounds(rules: seq<Rule>, rounds: seq<Round>): seq<Rule> {
    if rounds == [] then rules else AfterRound(AfterRounds(rules, rounds[..|rounds| - 1]), rounds[|rounds| - 1])
  }

  lemma {:induction false} RoundsKeepAntichain(rules: seq<Rule>, rounds: seq<Round>)
    requires Antichain(Ids(rules))
    ensures Antichain(Ids(AfterRounds(rules, rounds)))
  {
    if rounds != [] {
      var before, round := AfterRounds(rules, rounds[..|rounds| - 1]), rounds[|rounds| - 1];
      RoundsKeepAntichain(rules, rounds[..|rounds| - 1]);
      AppliedKeepsAntichain(before, Filtered(before, round.implicated, round.reply));
      PruningKeepsAntichain(round.cfg, Applied(before, Filtered(before, round.implicated, round.reply)));
    }
  }

  /** Starting from distinct UUIDs, no sequence of rounds with any teacher ever gives two rules one id. */
  lemma RuleIdsStayDistinct(rules: seq<Rule>, rounds: seq<Round>)
    requires Distinct(Ids(rules)) && forall i :: 0 <= i < |rules| ==> UnderscoreFree(rules[i].id)
    ensures Distinct(Ids(AfterRounds(rules, rounds)))
  {
    UuidsAreAntichain(Ids(rules));
    RoundsKeepAntichain(rules, rounds);
    AntichainDistinct(Ids(AfterRounds(rules, rounds)));
  }

  lemma OnlyAction(action: Action, id: string)
    ensures LastAction([action], id) == if action.ruleId == id then Some(action) else None
  {
    var none := [action][..0];
    assert |none| == 0 && LastAction(none, id) == None;
  }

  lemma AppliedPair(r: Rule, s: Rule, actions: seq<Action>)
    ensures AppliedActions([r] + [s], actions)
         == Replacement(r, LastAction(actions, r.id)) + Replacement(s, LastAction(actions, s.id))
  {
    var none := [r][..0];
    assert none + [r] == [r];
    AppliedNothing(none, actions);
    AppliedSnoc(none, r, actions);
    AppliedSnoc([r], s, actions);
  }

  /** A rule id that looks like a part of another may be given out again by the next split: the antichain is needed. */
  lemma PartLikeIdCollides(r: Rule, s: Rule, part: Rule)
    requires s.id == SplitId(r.id, 1)
    ensures !Distinct(Ids(Applied([r] + [s], Refinement([Action(Split, r.id, [part])], []))))
  {
    var action := Action(Split, r.id, [part]);
    OnlyAction(action, r.id);
    OnlyAction(action, s.id);
    AppliedPair(r, s, [action]);
    var applied := AppliedActions([r] + [s], [action]);
    assert Parts(r.id, action.revised)[0].id == SplitId(r.id, 1);
    assert |applied| == 2;
    assert Ids(applied)[0] == Ids(applied)[1];
  }

  // ── The frame of a refinement ────────────────────────────────────────────

  /** `after` is `rules` with each rule outside `allowed` verbatim and in place, and each rule inside it
      replaced by rules that are itself or parts of it by id. */
  ghost predicate Framed(rules: seq<Rule>, after: seq<Rule>, allowed: set<string>) {
    if rules == [] then after == []
    else
      var last := rules[|rules| - 1];
      exists k :: 0 <= k <= |after| && Framed(rules[..|rules| - 1], after[..k], allowed)
        && (if last.id in allowed then forall x :: x in after[k..] ==> From(x.id, last.id) else after[k..] == [last])
  }

  lemma {:induction false} ActionsFramed(rules: seq<Rule>, actions: seq<Action>, allowed: set<string>)
    requires forall a :: a in actions ==> a.ruleId in allowed
    ensures Framed(rules, AppliedActions(rules, actions), allowed)
  {
    if rules != [] {
      var init, last := rules[..|rules| - 1], rules[|rules| - 1];
      ActionsFramed(init, actions, allowed);
      var before, block := AppliedActions(init, actions), Replacement(last, LastAction(actions, last.id));
      ReplacementFrom(last, LastAction(actions, last.id));
      LastActionIn(actions, last.id);
      var after, k := AppliedActions(rules, actions), |before|;
      assert after[..k] == before && after[k..] == block;
    }
  }

  lemma {:induction false} LastActionIn(actions: seq<Action>, id: string)
    ensures LastAction(actions, id).Some? ==> LastAction(actions, id).value in actions && LastAction(actions, id).value.ruleId == id
  {
    if actions != [] && actions[|actions| - 1].ruleId != id {
      LastActionIn(actions[..|actions| - 1], id);
    }
  }

  lemma {:induction false} EntriesFramed(rules: seq<Rule>, entries: seq<Entry>, allowed: set<string>)
    requires forall i :: 0 <= i < |rules| && rules[i].id !in allowed ==> Replaced(rules[i], entries) == rules[i]
    ensures Framed(rules, AppliedEntries(rules, entries), allowed)
  {
    if rules != [] {
      var init, last := rules[..|rules| - 1], rules[|rules| - 1];
      EntriesFramed(init, entries, allowed);
      var after, k := AppliedEntries(rules, entries), |init|;
      assert after[..k] == AppliedEntries(init, entries);
      assert after[k..] == [Replaced(last, entries)];
    }
  }

  lemma {:induction false} LastEntryIn(entries: seq<Entry>, id: string)
    ensures LastEntry(entries, id).Some? <==> exists e :: e in entries && e.ruleId == id
    ensures LastEntry(entries, id).Some? ==> LastEntry(entries, id).value in entries && LastEntry(entries, id).value.ruleId == id
  {
    if entries != [] {
      var init, last := entries[..|entries| - 1], entries[|entries| - 1];
      assert entries == init + [last];
      LastEntryIn(init, id);
    }
  }

  predicate NamedBy(actions: seq<Action>, id: string) { exists a | a in actions :: a.ruleId == id }

  lemma {:induction false} AcceptedNames(actions: seq<Action>, allowed: set<string>)
    ensures Accepted(actions, allowed) != [] <==> exists id :: id in allowed && NamedBy(actions, id)
  {
    if actions != [] {
      var init, last := actions[..|actions| - 1], actions[|actions| - 1];
      assert actions == init + [last];
      AcceptedNames(init, allowed);
      if last.ruleId in allowed {
        assert NamedBy(actions, last.ruleId);
      }
      forall id | id in allowed && NamedBy(init, id) ensures NamedBy(actions, id) {
        var a :| a in init && a.ruleId == id;
        assert a in actions;
      }
    }
  }

  ghost predicate RefinementIsFramed(rules: seq<Rule>, implicated: set<string>, reply: Refinement) {
    Framed(rules, Refined(rules, implicated, reply), AllowedIds(rules, implicated))
  }

  /** What to look up for one rule list: the teacher was not asked, or an action was accepted, or the version 1 entries
      reproduce every rule that was not implicated. */
  ghost predicate KeepsOutsiders(rules: seq<Rule>, implicated: set<string>, reply: Refinement) {
    || AllowedIds(rules, implicated) == {}
    || Accepted(reply.actions, AllowedIds(rules, implicated)) != []
    || forall r :: r in rules && r.id !in implicated ==> Replaced(r, reply.entries) == r
  }

  lemma FramedSplit(init: seq<Rule>, last: Rule, after: seq<Rule>, allowed: set<string>) returns (k: nat)
    requires Framed(init + [last], after, allowed)
    ensures k <= |after| && Framed(init, after[..k], allowed)
    ensures last.id !in allowed ==> after[k..] == [last]
  {
    var rules := init + [last];
    assert rules[..|rules| - 1] == init && rules[|rules| - 1] == last;
    k :| 0 <= k <= |after| && Framed(init, after[..k], allowed)
      && (if last.id in allowed then forall x :: x in after[k..] ==> From(x.id, last.id) else after[k..] == [last]);
  }

  lemma {:induction false} FramedKeepsOutsiders(rules: seq<Rule>, after: seq<Rule>, allowed: set<string>, r: Rule)
    requires Framed(rules, after, allowed) && r in rules && r.id !in allowed
    ensures r in after
    decreases |rules|
  {
    var init, last := rules[..|rules| - 1], rules[|rules| - 1];
    assert rules == init + [last];
    var k := FramedSplit(init, last, after, allowed);
    if r == last {
      assert after[k..][0] == r;
    } else {
      FramedKeepsOutsiders(init, after[..k], allowed, r);
    }
  }

  lemma EntriesGone(rules: seq<Rule>, entries: seq<Entry>, r: Rule)
    requires r in rules && Replaced(r, entries) != r
    ensures r !in AppliedEntries(rules, entries)
  {
    var after := AppliedEntries(rules, entries);
    forall i | 0 <= i < |rules| ensures after[i] != r {
      assert after[i] == Replaced(rules[i], entries) && after[i].id == rules[i].id;
    }
  }

  lemma Unrefined(rules: seq<Rule>, allowed: set<string>)
    ensures Framed(rules, rules, allowed)
  {
    var none: seq<Entry> := [];
    EntriesFramed(rules, none, allowed);
    assert AppliedEntries(rules, none) == rules;
  }

  /** For one rule list: the rules that were not implicated stay verbatim and in place exactly under that condition. */
  lemma RefinementFramedIff(rules: seq<Rule>, implicated: set<string>, reply: Refinement)
    ensures RefinementIsFramed(rules, implicated, reply) <==> KeepsOutsiders(rules, implicated, reply)
  {
    var allowed := AllowedIds(rules, implicated);
    var actions := Accepted(reply.actions, allowed);
    AcceptedAreAllowed(reply.actions, allowed);
    if allowed == {} || (actions == [] && reply.entries == []) {
      Unrefined(rules, allowed);
      forall r | r in rules && reply.entries == [] ensures Replaced(r, reply.entries) == r {
      }
    } else if actions != [] {
      ActionsFramed(rules, actions, allowed);
    } else if KeepsOutsiders(rules, implicated, reply) {
      EntriesFramed(rules, reply.entries, allowed);
    } else {
      var r :| r in rules && r.id !in implicated && Replaced(r, reply.entries) != r;
      EntriesGone(rules, reply.entries, r);
      if RefinementIsFramed(rules, implicated, reply) {
        FramedKeepsOutsiders(rules, AppliedEntries(rules, reply.entries), allowed, r);
      }
    }
  }

  /** The filter never lets an action touch a rule that was not implicated, but version 1 entries bypass it. */
  predicate FilterIsEnough(implicated: set<string>, reply: Refinement) {
    || (forall id | id in implicated :: NamedBy(reply.actions, id))
    || (forall e | e in reply.entries :: e.ruleId in implicated)
  }

  /** For every rule list: a reply on the implicated rules keeps all others exactly when it acts on each implicated
      rule or all its version 1 entries name implicated rules. */
  lemma FrameHoldsIff(implicated: set<string>, reply: Refinement)
    ensures (forall rules :: RefinementIsFramed(rules, implicated, reply)) <==> FilterIsEnough(implicated, reply)
  {
    if FilterIsEnough(implicated, reply) {
      forall rules ensures RefinementIsFramed(rules, implicated, reply) {
        FramedWhenEnough(rules, implicated, reply);
      }
    } else {
      var id :| id in implicated && !NamedBy(reply.actions, id);
      var e :| e in reply.entries && e.ruleId !in implicated;
      var rules := EscapedEntryBreaksFrame(implicated, reply, id, e);
    }
  }

  lemma FramedWhenEnough(rules: seq<Rule>, implicated: set<string>, reply: Refinement)
    requires FilterIsEnough(implicated, reply)
    ensures RefinementIsFramed(rules, implicated, reply)
  {
    var allowed := AllowedIds(rules, implicated);
    RefinementFramedIff(rules, implicated, reply);
    if allowed != {} && forall id | id in implicated :: NamedBy(reply.actions, id) {
      var id :| id in allowed;
      AcceptedNames(reply.actions, allowed);
    } else {
      forall r | r in rules && r.id !in implicated && allowed != {} ensures Replaced(r, reply.entries) == r {
        LastEntryIn(reply.entries, r.id);
      }
    }
  }

  /** Otherwise an implicated rule the teacher did not act on, beside a rule it was not shown, is enough: the teacher is
      asked, no action is accepted, and the entry overwrites the other rule. */
  lemma EscapedEntryBreaksFrame(implicated: set<string>, reply: Refinement, id: string, e: Entry) returns (rules: seq<Rule>)
    requires id in implicated && !NamedBy(reply.actions, id)
    requires e in reply.entries && e.ruleId !in implicated
    ensures |rules| == 2 && rules[0].id == id && rules[1].id == e.ruleId
    ensures AllowedIds(rules, implicated) == {id} && !RefinementIsFramed(rules, implicated, reply)
  {
    LastEntryIn(reply.entries, e.ruleId);
    var revised := LastEntry(reply.entries, e.ruleId).value.revised;
    var victim := revised.(id := e.ruleId, priority := revised.priority + 1);
    rules := [revised.(id := id), victim];
    assert rules[0] in rules && victim in rules;
    assert AllowedIds(rules, implicated) == {id};
    AcceptedNames(reply.actions, {id});
    assert Replaced(victim, reply.entries) != victim;
    RefinementFramedIff(rules, implicated, reply);
  }
}
