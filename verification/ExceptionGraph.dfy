/** The exception traversal of `src/rulekiln/agents/rule_conflict_review.py`.

    Exceptions are nodes of a finite graph keyed by object identity; cause, context and group links
    may form cycles. */
module ExceptionGraph {
  import opened Wrappers
  import opened Sorting
  import opened Strings

  type Id = nat

  /** `message` is `str(exc).strip().lower()`, and `members` is empty for an exception that is not a group. */
  datatype Exc = Exc(message: string, cause: Option<Id>, context: Option<Id>, members: seq<Id>)

  type Graph = map<Id, Exc>

  function One(link: Option<Id>): seq<Id> { if link.Some? then [link.value] else [] }

  /** Everything an exception links to. */
  function Links(e: Exc): seq<Id> { e.members + One(e.cause) + One(e.context) }

  /** What the traversal pushes: a context identical to the cause is skipped. */
  function Pushed(e: Exc): seq<Id> {
    e.members + One(e.cause) + if e.context.Some? && e.context != e.cause then One(e.context) else []
  }

  /** Skipping a context that is the cause loses no link. */
  lemma SkippedContextIsCovered(e: Exc)
    ensures forall x :: x in Pushed(e) <==> x in Links(e)
  {
    if e.context.Some? && e.context == e.cause {
      assert e.cause.value in One(e.cause);
    }
  }

  ghost predicate Closed(g: Graph) {
    forall n, x :: n in g && x in Links(g[n]) ==> x in g
  }

  ghost predicate IsPath(g: Graph, path: seq<Id>, source: Id, target: Id) {
    && path != [] && path[0] == source && path[|path| - 1] == target
    && (forall i :: 0 <= i < |path| ==> path[i] in g)
    && (forall i, j :: 0 <= i < |path| && 0 <= j < |path| && j == i + 1 ==> path[j] in Links(g[path[i]]))
  }

  ghost predicate Reachable(g: Graph, source: Id, target: Id) {
    exists path :: IsPath(g, path, source, target)
  }

  lemma ReachableSelf(g: Graph, n: Id)
    requires n in g
    ensures Reachable(g, n, n)
  {
    assert IsPath(g, [n], n, n);
  }

  lemma ReachableNext(g: Graph, source: Id, n: Id, x: Id)
    requires Closed(g) && n in g && Reachable(g, source, n) && x in Links(g[n])
    ensures Reachable(g, source, x)
  {
    var path :| IsPath(g, path, source, n);
    assert IsPath(g, path + [x], source, x);
  }

  /** A set that contains the source and everything its elements link to contains everything reachable. */
  lemma {:induction false} ClosedSetCoversPath(g: Graph, seen: set<Id>, path: seq<Id>, source: Id, target: Id)
    requires source in seen && IsPath(g, path, source, target)
    requires forall n, x :: n in seen && n in g && x in Links(g[n]) ==> x in seen
    ensures target in seen
    decreases |path|
  {
    if |path| > 1 {
      assert path[1] in Links(g[path[0]]);
      ClosedSetCoversPath(g, seen, path[1..], path[1], target);
    }
  }

  // ── Messages ─────────────────────────────────────────────────────────────

  predicate IsRetryExhaustion(message: string) {
    && Contains(message, "exceeded maximum retries")
    && (Contains(message, "output validation") || Contains(message, "result validation"))
  }

  /** The message reports both that the retries ran out and that it was the output or the result that did not validate. */
  ghost predicate ReportsExhaustion(message: string) {
    && Includes(message, "exceeded maximum retries")
    && (Includes(message, "output validation") || Includes(message, "result validation"))
  }

  lemma ExhaustionMeans(message: string)
    ensures IsRetryExhaustion(message) <==> ReportsExhaustion(message)
  {
    hide Contains, Includes;
    ContainsIff(message, "exceeded maximum retries");
    ContainsIff(message, "output validation");
    ContainsIff(message, "result validation");
  }

  lemma SilenceReportsNothing()
    ensures !IsRetryExhaustion("")
  {
  }

  function MessagesOf(g: Graph, ids: seq<Id>): seq<string>
    requires forall n :: n in ids ==> n in g
  {
    if ids == [] then []
    else
      var n := ids[|ids| - 1];
      var rest := MessagesOf(g, ids[..|ids| - 1]);
      if g[n].message != "" then rest + [g[n].message] else rest
  }

  lemma {:induction false} MessagesOfMembers(g: Graph, ids: seq<Id>)
    requires forall n :: n in ids ==> n in g
    ensures forall m :: m in MessagesOf(g, ids) <==> m != "" && exists n :: n in ids && g[n].message == m
  {
    if ids != [] {
      var init, last := ids[..|ids| - 1], ids[|ids| - 1];
      MessagesOfMembers(g, init);
      assert ids == init + [last];
      forall m ensures m in MessagesOf(g, ids) <==> m != "" && exists n :: n in ids && g[n].message == m {
        if m != "" && exists n :: n in ids && g[n].message == m {
          var n :| n in ids && g[n].message == m;
          assert n in init || n == last;
        }
        if m in MessagesOf(g, ids) {
          assert m in MessagesOf(g, init) || m == g[last].message;
          assert last in ids;
        }
      }
    }
  }

  /** The traversal's invariant: everything met is reachable, and every link out of a seen exception has been met. */
  ghost predicate Frontier(g: Graph, exc: Id, seen: set<Id>, pending: seq<Id>) {
    && (forall n :: n in pending || n in seen ==> n in g && Reachable(g, exc, n))
    && (exc in seen || exc in pending)
    && (forall n, x :: n in seen && n in g && x in Links(g[n]) ==> x in seen || x in pending)
  }

  lemma LinksReachable(g: Graph, exc: Id, current: Id, x: Id)
    requires Closed(g) && current in g && Reachable(g, exc, current) && x in Pushed(g[current])
    ensures x in g && Reachable(g, exc, x)
  {
    SkippedContextIsCovered(g[current]);
    ReachableNext(g, exc, current, x);
  }

  lemma VisitReaches(g: Graph, exc: Id, seen: set<Id>, rest: seq<Id>, current: Id)
    requires Closed(g) && Frontier(g, exc, seen, rest + [current])
    ensures current in g && Reachable(g, exc, current)
    ensures forall n :: n in rest + Pushed(g[current]) || n in seen + {current} ==> n in g && Reachable(g, exc, n)
  {
    assert current in rest + [current];
    forall n | n in rest ensures n in g && Reachable(g, exc, n) {
      assert n in rest + [current];
    }
    forall n | n in Pushed(g[current]) ensures n in g && Reachable(g, exc, n) {
      LinksReachable(g, exc, current, n);
    }
  }

  lemma VisitCovers(g: Graph, exc: Id, seen: set<Id>, rest: seq<Id>, current: Id)
    requires Frontier(g, exc, seen, rest + [current]) && current in g
    ensures forall n, x :: n in seen + {current} && n in g && x in Links(g[n]) ==>
      x in seen + {current} || x in rest + Pushed(g[current])
  {
    SkippedContextIsCovered(g[current]);
    forall n, x | n in seen + {current} && n in g && x in Links(g[n])
      ensures x in seen + {current} || x in rest + Pushed(g[current])
    {
      if n in seen {
        assert x in seen || x in rest + [current];
      }
    }
  }

  /** Visiting the last pending exception keeps the invariant; a seen one only has to be dropped. */
  lemma FrontierVisit(g: Graph, exc: Id, seen: set<Id>, rest: seq<Id>, current: Id)
    requires Closed(g) && Frontier(g, exc, seen, rest + [current])
    ensures current in g && Frontier(g, exc, seen + {current}, rest + Pushed(g[current]))
  {
    VisitReaches(g, exc, seen, rest, current);
    VisitCovers(g, exc, seen, rest, current);
    assert exc in seen + {current} || exc in rest by {
      assert exc in seen || exc in rest + [current];
    }
  }

  lemma FrontierSkip(g: Graph, exc: Id, seen: set<Id>, rest: seq<Id>, current: Id)
    requires Frontier(g, exc, seen, rest + [current]) && current in seen
    ensures Frontier(g, exc, seen, rest)
  {
    assert forall n :: n in rest ==> n in rest + [current];
    assert forall n :: n in rest + [current] ==> n in rest || n in seen;
  }

  lemma FrontierDone(g: Graph, exc: Id, seen: set<Id>)
    requires Frontier(g, exc, seen, [])
    ensures forall n :: n in seen <==> Reachable(g, exc, n)
  {
    forall n | Reachable(g, exc, n) ensures n in seen {
      var path :| IsPath(g, path, exc, n);
      ClosedSetCoversPath(g, seen, path, exc, n);
    }
  }

  lemma MessagesNext(g: Graph, ids: seq<Id>, n: Id)
    requires n in g && forall m :: m in ids ==> m in g
    ensures (forall m :: m in ids + [n] ==> m in g) && MessagesOf(g, ids + [n]) ==
      if g[n].message != "" then MessagesOf(g, ids) + [g[n].message] else MessagesOf(g, ids)
  {
    assert (ids + [n])[..|ids|] == ids;
  }

  method PushLinks(pending: seq<Id>, e: Exc) returns (extended: seq<Id>)
    ensures extended == pending + Pushed(e)
  {
    extended := pending + e.members;
    if e.cause.Some? {
      extended := extended + [e.cause.value];
    }
    if e.context.Some? && e.context != e.cause {
      extended := extended + [e.context.value];
    }
  }

  /** Where the traversal stands: what it has seen, still has to look at, and has collected. */
  ghost predicate Visiting(g: Graph, exc: Id, seen: set<Id>, pending: seq<Id>, visited: seq<Id>,
                           messages: seq<string>) {
    && Frontier(g, exc, seen, pending)
    && Distinct(visited) && (forall n :: n in visited <==> n in seen)
    && (forall n :: n in visited ==> n in g) && messages == MessagesOf(g, visited)
  }

  lemma VisitingSkip(g: Graph, exc: Id, seen: set<Id>, rest: seq<Id>, current: Id, visited: seq<Id>,
                     messages: seq<string>)
    requires Closed(g) && Visiting(g, exc, seen, rest + [current], visited, messages) && current in seen
    ensures Visiting(g, exc, seen, rest, visited, messages)
  {
    FrontierSkip(g, exc, seen, rest, current);
  }

  lemma VisitingNext(g: Graph, exc: Id, seen: set<Id>, rest: seq<Id>, current: Id, visited: seq<Id>,
                     messages: seq<string>)
    requires Closed(g) && Visiting(g, exc, seen, rest + [current], visited, messages) && current !in seen
    ensures current in g
    ensures Visiting(g, exc, seen + {current}, rest + Pushed(g[current]), visited + [current],
                     if g[current].message != "" then messages + [g[current].message] else messages)
  {
    FrontierVisit(g, exc, seen, rest, current);
    MessagesNext(g, visited, current);
  }

  lemma VisitingStart(g: Graph, exc: Id)
    requires Closed(g) && exc in g
    ensures Visiting(g, exc, {}, [exc], [], [])
  {
    ReachableSelf(g, exc);
  }

  /** Terminates on every finite graph, cycles included, and visits exactly the reachable exceptions, each once. */
  method CollectExceptionMessages(g: Graph, exc: Id) returns (messages: seq<string>, ghost visited: seq<Id>)
    requires Closed(g) && exc in g
    ensures Distinct(visited) && forall n :: n in visited <==> Reachable(g, exc, n)
    ensures (forall n :: n in visited ==> n in g) && messages == MessagesOf(g, visited)
  {
    messages, visited := [], [];
    var seen: set<Id> := {};
    var pending := [exc];
    VisitingStart(g, exc);
    while pending != []
      invariant Visiting(g, exc, seen, pending, visited, messages)
      decreases g.Keys - seen, |pending|
    {
      var current, rest := pending[|pending| - 1], pending[..|pending| - 1];
      assert pending == rest + [current];
      pending := rest;
      if current in seen {
        VisitingSkip(g, exc, seen, rest, current, visited, messages);
        continue;
      }
      VisitingNext(g, exc, seen, rest, current, visited, messages);
      seen := seen + {current};
      visited := visited + [current];
      var message := g[current].message;
      if message != "" {
        messages := messages + [message];
      }
      pending := PushLinks(pending, g[current]);
    }
    FrontierDone(g, exc, seen);
  }

  /** The fallback applies exactly when some reachable exception reports exhausted output validation. */
  method IsOutputValidationRetryExhausted(g: Graph, exc: Id) returns (exhausted: bool)
    requires Closed(g) && exc in g
    ensures exhausted <==> exists n :: n in g && Reachable(g, exc, n) && ReportsExhaustion(g[n].message)
  {
    hide ReportsExhaustion, Contains;
    forall message ensures IsRetryExhaustion(message) <==> ReportsExhaustion(message) {
      ExhaustionMeans(message);
    }
    ghost var visited: seq<Id>;
    var messages: seq<string>;
    messages, visited := CollectExceptionMessages(g, exc);
    MessagesOfMembers(g, visited);
    SilenceReportsNothing();
    exhausted := false;
    for i := 0 to |messages|
      invariant forall j :: 0 <= j < i ==> !IsRetryExhaustion(messages[j])
    {
      var hasRetryExhaustion := Contains(messages[i], "exceeded maximum retries");
      var hasValidationFailure := Contains(messages[i], "output validation") || Contains(messages[i], "result validation");
      if hasRetryExhaustion && hasValidationFailure {
        assert messages[i] in messages;
        return true;
      }
    }
    forall n | n in g && Reachable(g, exc, n) ensures !IsRetryExhaustion(g[n].message) {
      assert n in visited;
      if g[n].message != "" {
        assert g[n].message in messages;
      }
    }
  }
}
