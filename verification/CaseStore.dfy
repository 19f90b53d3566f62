/** Durable case results, `src/rulekiln/db/repositories/eval_case_results.py`, and their conversions in
    `src/rulekiln/workers/distillation_worker.py`. */
module CaseStore {
  import opened Wrappers
  import opened CaseScores

  datatype Scope = Scope(job: string, student: string, strategy: string, split: string)

  datatype Record = Record(
    scope: Scope,
    caseId: string,
    actualJson: Option<Output>,
    rawOutput: Option<string>,
    assertionScores: map<string, real>,
    passed: bool,
    caseScore: real,
    malformed: bool,
    errorType: Option<string>,
    errorMessage: Option<string>)

  type Dumps = map<string, Value> -> string

  function RawText(dumps: Dumps, actual: Option<Output>): Option<string> {
    match actual
    case None => None
    case Some(Text(text)) => Some(text)
    case Some(Fields(fields)) => Some(dumps(fields))
  }

  function Payload(dumps: Dumps, scope: Scope, r: CaseResult): Record {
    Record(scope, r.caseId, r.actual, RawText(dumps, r.actual), r.assertionScores, r.passed, r.score, r.malformed,
           if r.malformed then Some("MalformedOutput") else None, r.error)
  }

  function Loaded(row: Record): CaseResult {
    var actual := if row.actualJson.None? && row.rawOutput.Some? then Some(Text(row.rawOutput.value)) else row.actualJson;
    CaseResult(row.caseId, row.caseScore, row.passed, row.malformed, row.assertionScores, actual, row.errorMessage)
  }

  /** The results a scope holds, by case: `{row.case_id: ... for row in existing_rows}`. */
  function Stored(rows: seq<Record>, scope: Scope): map<string, CaseResult> {
    if rows == [] then map[]
    else
      var before, last := Stored(rows[..|rows| - 1], scope), rows[|rows| - 1];
      if last.scope == scope then before[last.caseId := Loaded(last)] else before
  }

  predicate SameKey(a: Record, b: Record) { a.scope == b.scope && a.caseId == b.caseId }

  ghost predicate UniqueKeys(rows: seq<Record>) {
    forall i, j :: 0 <= i < j < |rows| ==> !SameKey(rows[i], rows[j])
  }

  lemma StoredNext(rows: seq<Record>, row: Record, scope: Scope)
    ensures Stored(rows + [row], scope) ==
      if row.scope == scope then Stored(rows, scope)[row.caseId := Loaded(row)] else Stored(rows, scope)
  {
    assert (rows + [row])[..|rows|] == rows;
  }

  lemma {:induction false} StoredKeys(rows: seq<Record>, scope: Scope, caseId: string)
    ensures caseId in Stored(rows, scope) <==> exists i :: 0 <= i < |rows| && rows[i].scope == scope && rows[i].caseId == caseId
  {
    if rows != [] {
      var init := rows[..|rows| - 1];
      StoredKeys(init, scope, caseId);
      assert forall i :: 0 <= i < |init| ==> init[i] == rows[i];
    }
  }

  /** Replacing a row in place is, for every scope, the same as storing its result under its case. */
  lemma {:induction false} StoredReplaced(rows: seq<Record>, i: nat, row: Record, scope: Scope)
    requires UniqueKeys(rows) && i < |rows| && SameKey(rows[i], row)
    ensures Stored(rows[i := row], scope) ==
      if row.scope == scope then Stored(rows, scope)[row.caseId := Loaded(row)] else Stored(rows, scope)
  {
    var n := |rows| - 1;
    var init, after := rows[..n], rows[i := row];
    if i == n {
      assert after[..n] == init;
    } else {
      assert after[..n] == init[i := row];
      StoredReplaced(init, i, row, scope);
      assert !SameKey(rows[i], rows[n]);
    }
  }

  class CaseTable {
    var rows: seq<Record>

    ghost predicate Valid()
      reads this
    {
      UniqueKeys(rows)
    }

    constructor ()
      ensures Valid() && rows == []
    {
      rows := [];
    }

    /** The row with the key of `row`, if there is one. */
    method Find(row: Record) returns (index: Option<nat>)
      ensures index.Some? ==> index.value < |rows| && SameKey(rows[index.value], row)
      ensures index.None? ==> forall i :: 0 <= i < |rows| ==> !SameKey(rows[i], row)
    {
      for i := 0 to |rows|
        invariant forall j :: 0 <= j < i ==> !SameKey(rows[j], row)
      {
        if SameKey(rows[i], row) {
          return Some(i);
        }
      }
      return None;
    }

    /** Inserts or updates, and commits: dead processes leave the table as it was. What is then loaded is the result
        that was passed in, field for field. */
    method Upsert(dumps: Dumps, scope: Scope, result: CaseResult, budget: nat) returns (left: nat, crashed: bool)
      requires Valid()
      modifies this
      ensures Valid() && (crashed <==> budget == 0) && left == (if crashed then 0 else budget - 1)
      ensures crashed ==> rows == old(rows)
      ensures !crashed ==> Stored(rows, scope) == old(Stored(rows, scope))[result.caseId := result]
      ensures !crashed ==> forall other :: other != scope ==> Stored(rows, other) == old(Stored(rows, other))
      ensures !crashed ==> |rows| == |old(rows)| + if result.caseId in old(Stored(rows, scope)) then 0 else 1
    {
      if budget == 0 {
        return 0, true;
      }
      var row := Payload(dumps, scope, result);
      assert Loaded(row) == result;
      StoredKeys(rows, scope, result.caseId);
      var index := Find(row);
      if index.Some? {
        forall s ensures Stored(rows[index.value := row], s) ==
          if scope == s then Stored(rows, s)[result.caseId := result] else Stored(rows, s)
        {
          StoredReplaced(rows, index.value, row, s);
        }
        rows := rows[index.value := row];
      } else {
        forall s ensures Stored(rows + [row], s) ==
          if scope == s then Stored(rows, s)[result.caseId := result] else Stored(rows, s)
        {
          StoredNext(rows, row, s);
        }
        rows := rows + [row];
      }
      return budget - 1, false;
    }

    /** The completed results of a scope. */
    method Completed(scope: Scope) returns (results: map<string, CaseResult>)
      ensures results == Stored(rows, scope)
    {
      results := map[];
      for i := 0 to |rows|
        invariant results == Stored(rows[..i], scope)
      {
        assert rows[..i + 1][..i] == rows[..i];
        if rows[i].scope == scope {
          results := results[rows[i].caseId := Loaded(rows[i])];
        }
      }
      assert rows[..|rows|] == rows;
    }
  }

  /** A record loaded and upserted again loads the same, and so does what a result was turned into. */
  lemma ConversionsRoundTrip(dumps: Dumps, scope: Scope, r: CaseResult, row: Record)
    ensures Loaded(Payload(dumps, scope, r)) == r
    ensures Loaded(Payload(dumps, scope, Loaded(row))) == Loaded(row)
  {
  }
}
