/** k-nearest-neighbour prediction, `predict_with_knn` of `src/rulekiln/pipeline/baseline_strategies.py`, for any distance. */
module Knn {
  import opened Wrappers
  import opened Sorting
  import opened Rules

  datatype Neighbour = Neighbour(distance: real, id: string, expected: string)

  /** Nearer first, then by id, then by label. */
  predicate NeighbourLe(a: Neighbour, b: Neighbour) {
    a.distance < b.distance
    || (a.distance == b.distance && ((a.id != b.id && StringLe(a.id, b.id)) || (a.id == b.id && StringLe(a.expected, b.expected))))
  }

  lemma NeighbourLeIsTotalOrder()
    ensures TotalPreorder(NeighbourLe)
    ensures forall a, b :: NeighbourLe(a, b) && NeighbourLe(b, a) ==> a == b
  {
    StringLeIsTotalOrder();
  }

  function Top(neighbours: seq<Neighbour>, k: nat): seq<Neighbour> {
    var ranked := Sort(NeighbourLe, neighbours);
    if k < |ranked| then ranked[..k] else ranked
  }

  function Votes(top: seq<Neighbour>, l: string): nat {
    if top == [] then 0 else Votes(top[..|top| - 1], l) + if top[|top| - 1].expected == l then 1 else 0
  }

  function DistanceSum(top: seq<Neighbour>, l: string): real {
    if top == [] then 0.0
    else DistanceSum(top[..|top| - 1], l) + if top[|top| - 1].expected == l then top[|top| - 1].distance else 0.0
  }

  function MeanDistance(top: seq<Neighbour>, l: string): real {
    if Votes(top, l) == 0 then 0.0 else DistanceSum(top, l) / Votes(top, l) as real
  }

  /** The labels that got votes, in order of first appearance. */
  function Candidates(top: seq<Neighbour>): seq<string> {
    if top == [] then []
    else
      var before, last := Candidates(top[..|top| - 1]), top[|top| - 1].expected;
      if last in before then before else before + [last]
  }

  lemma {:induction false} CandidatesVoted(top: seq<Neighbour>)
    ensures forall l :: l in Candidates(top) <==> Votes(top, l) > 0
    ensures top != [] ==> Candidates(top) != []
  {
    if top != [] {
      CandidatesVoted(top[..|top| - 1]);
    }
  }

  /** `w` is a label with votes that no label beats: on votes, then on mean distance, then by name. */
  ghost predicate Wins(top: seq<Neighbour>, w: string) {
    && Votes(top, w) > 0
    && forall l :: Votes(top, l) > 0 ==>
         Votes(top, w) > Votes(top, l)
         || (Votes(top, w) == Votes(top, l)
             && (MeanDistance(top, w) < MeanDistance(top, l)
                 || (MeanDistance(top, w) == MeanDistance(top, l) && StringLe(w, l))))
  }

  /** There is never more than one winner. */
  lemma WinnerIsUnique(top: seq<Neighbour>, a: string, b: string)
    requires Wins(top, a) && Wins(top, b)
    ensures a == b
  {
    StringLeIsTotalOrder();
  }

  function Voters(top: seq<Neighbour>, l: string): set<nat> {
    set i: nat | i < |top| && top[i].expected == l
  }

  /** A vote is a neighbour among the nearest with that label. */
  lemma {:induction false} VotesMean(top: seq<Neighbour>, l: string)
    ensures Votes(top, l) == |Voters(top, l)|
  {
    if top == [] {
      assert Voters(top, l) == {};
    } else {
      var n := |top| - 1;
      VotesMean(top[..n], l);
      assert Voters(top, l) == Voters(top[..n], l) + if top[n].expected == l then {n} else {};
    }
  }

  lemma {:induction false} VotesOfTwo(top: seq<Neighbour>, a: string, b: string)
    requires a != b
    ensures Votes(top, a) + Votes(top, b) <= |top|
  {
    if top != [] {
      VotesOfTwo(top[..|top| - 1], a, b);
    }
  }

  /** A label with more than half of the votes wins, whatever the distances. */
  lemma MajorityWins(top: seq<Neighbour>, w: string, p: string)
    requires 2 * Votes(top, w) > |top| && Wins(top, p)
    ensures p == w
  {
    if p != w {
      VotesOfTwo(top, p, w);
    }
  }

  /** Not nearer, and at equal distance not with an earlier id. */
  predicate NoNearer(y: Neighbour, x: Neighbour) {
    x.distance < y.distance || (x.distance == y.distance && StringLe(x.id, y.id))
  }

  lemma SortedSplits(ranked: seq<Neighbour>, k: nat, x: Neighbour, y: Neighbour)
    requires Sorted(NeighbourLe, ranked) && k <= |ranked| && x in ranked[..k] && y in ranked[k..]
    ensures NoNearer(y, x)
  {
    var i :| 0 <= i < k && ranked[..k][i] == x;
    var j :| 0 <= j < |ranked[k..]| && ranked[k..][j] == y;
    assert NeighbourLe(ranked[i], ranked[k + j]);
    StringLeTotal(x.id, x.id);
  }

  /** The neighbours that vote are the k nearest: none that is left out is nearer than one of them, and at equal distance
      none has an earlier id. */
  lemma TopIsNearest(neighbours: seq<Neighbour>, k: nat) returns (rest: seq<Neighbour>)
    ensures |Top(neighbours, k)| == if k < |neighbours| then k else |neighbours|
    ensures multiset(Top(neighbours, k)) + multiset(rest) == multiset(neighbours)
    ensures forall x, y :: x in Top(neighbours, k) && y in rest ==> NoNearer(y, x)
  {
    hide NeighbourLe, NoNearer, Sort;
    var ranked := Sort(NeighbourLe, neighbours);
    var top := Top(neighbours, k);
    rest := ranked[|top|..];
    NeighbourLeIsTotalOrder();
    SortSorts(NeighbourLe, neighbours);
    SameElements(neighbours, ranked);
    assert ranked == top + rest && top == ranked[..|top|];
    forall x, y | x in top && y in rest ensures NoNearer(y, x) {
      SortedSplits(ranked, |top|, x, y);
    }
  }

  /** Of two neighbours with different labels the nearer one is predicted. */
  lemma NearerOfTwoWins(a: Neighbour, b: Neighbour, p: string)
    requires a.distance < b.distance && a.expected != b.expected
    requires Wins([a, b], p)
    ensures p == a.expected
  {
    forall l ensures Votes([a, b], l) == (if l == a.expected || l == b.expected then 1 else 0)
                  && DistanceSum([a, b], l) == if l == a.expected then a.distance else if l == b.expected then b.distance else 0.0
    {
      TallyOfTwo(a, b, l);
    }
    assert MeanDistance([a, b], a.expected) == a.distance / 1.0 && MeanDistance([a, b], b.expected) == b.distance / 1.0;
  }

  lemma TallyOfTwo(a: Neighbour, b: Neighbour, l: string)
    requires a.expected != b.expected
    ensures Votes([a, b], l) == if l == a.expected || l == b.expected then 1 else 0
    ensures DistanceSum([a, b], l) == if l == a.expected then a.distance else if l == b.expected then b.distance else 0.0
  {
    assert [a, b][..1] == [a] && [a][..0] == [];
    assert Votes([a], l) == if l == a.expected then 1 else 0;
    assert DistanceSum([a], l) == if l == a.expected then a.distance else 0.0;
  }

  /** What is predicted for one query. */
  ghost predicate Predicts(neighbours: seq<Neighbour>, k: int, p: string) {
    if k <= 0 || neighbours == [] then p == "" else Wins(Top(neighbours, k), p)
  }

  // ── Counting the votes ───────────────────────────────────────────────────

  ghost predicate Counted(counts: map<string, nat>, sums: map<string, real>, keys: seq<string>, top: seq<Neighbour>) {
    && keys == Candidates(top)
    && (forall l :: (l in counts <==> l in keys) && (l in sums <==> l in keys))
    && (forall l :: Votes(top, l) == if l in counts then counts[l] else 0)
    && (forall l :: DistanceSum(top, l) == if l in sums then sums[l] else 0.0)
  }

  lemma CountedNext(counts: map<string, nat>, sums: map<string, real>, keys: seq<string>, top: seq<Neighbour>,
                    x: Neighbour)
    requires Counted(counts, sums, keys, top)
    ensures var l := x.expected;
            Counted(counts[l := (if l in counts then counts[l] else 0) + 1],
                    sums[l := (if l in sums then sums[l] else 0.0) + x.distance],
                    if l in counts then keys else keys + [l], top + [x])
  {
    assert (top + [x])[..|top|] == top;
    forall l ensures Votes(top + [x], l) == Votes(top, l) + if x.expected == l then 1 else 0 {}
    forall l ensures DistanceSum(top + [x], l) == DistanceSum(top, l) + if x.expected == l then x.distance else 0.0 {}
  }

  method CountVotes(top: seq<Neighbour>) returns (counts: map<string, nat>, sums: map<string, real>, keys: seq<string>)
    ensures Counted(counts, sums, keys, top)
  {
    counts, sums, keys := map[], map[], [];
    for i := 0 to |top|
      invariant Counted(counts, sums, keys, top[..i])
    {
      assert top[..i + 1] == top[..i] + [top[i]];
      CountedNext(counts, sums, keys, top[..i], top[i]);
      var l := top[i].expected;
      if l !in counts {
        keys := keys + [l];
      }
      counts := counts[l := (if l in counts then counts[l] else 0) + 1];
      sums := sums[l := (if l in sums then sums[l] else 0.0) + top[i].distance];
    }
    assert top[..|top|] == top;
  }

  // ── Choosing among them ──────────────────────────────────────────────────

  function MeanOf(counts: map<string, nat>, sums: map<string, real>, l: string): real {
    if l in counts && l in sums && counts[l] > 0 then sums[l] / counts[l] as real else 0.0
  }

  lemma MeanOfCounted(counts: map<string, nat>, sums: map<string, real>, keys: seq<string>, top: seq<Neighbour>, l: string)
    requires Counted(counts, sums, keys, top)
    ensures MeanOf(counts, sums, l) == MeanDistance(top, l)
  {
    assert Votes(top, l) == if l in counts then counts[l] else 0;
    assert DistanceSum(top, l) == if l in sums then sums[l] else 0.0;
  }

  /** Smaller mean distance first, then the name. */
  function TieLe(counts: map<string, nat>, sums: map<string, real>): (string, string) -> bool {
    (a: string, b: string) =>
      MeanOf(counts, sums, a) < MeanOf(counts, sums, b)
      || (MeanOf(counts, sums, a) == MeanOf(counts, sums, b) && StringLe(a, b))
  }

  lemma TieLeIsTotalOrder(counts: map<string, nat>, sums: map<string, real>)
    ensures TotalPreorder(TieLe(counts, sums))
  {
    StringLeIsTotalOrder();
  }

  /** The keys with the highest count, in order. */
  method TiedLabels(counts: map<string, nat>, keys: seq<string>) returns (best: nat, tied: seq<string>)
    requires keys != [] && forall l :: l in keys ==> l in counts
    ensures forall l :: l in keys ==> counts[l] <= best
    ensures forall l :: l in tied <==> l in keys && counts[l] == best
    ensures tied != []
  {
    best := counts[keys[0]];
    for i := 0 to |keys|
      invariant forall j :: 0 <= j < i ==> counts[keys[j]] <= best
      invariant exists j :: 0 <= j < |keys| && counts[keys[j]] == best
    {
      if counts[keys[i]] > best {
        best := counts[keys[i]];
      }
    }
    tied := [];
    for i := 0 to |keys|
      invariant forall l :: l in tied <==> exists j :: 0 <= j < i && keys[j] == l && counts[l] == best
    {
      if counts[keys[i]] == best {
        tied := tied + [keys[i]];
      }
    }
    ghost var j :| 0 <= j < |keys| && counts[keys[j]] == best;
    assert keys[j] in tied;
  }

  /** The prediction for one query. */
  method PredictOne(neighbours: seq<Neighbour>, k: nat) returns (p: string)
    requires k > 0
    ensures Predicts(neighbours, k, p)
  {
    var top := Top(neighbours, k);
    SameElements(Sort(NeighbourLe, neighbours), neighbours);
    if top == [] {
      return "";
    }
    var counts, sums, keys := CountVotes(top);
    CandidatesVoted(top);
    var best, tied := TiedLabels(counts, keys);
    p := LeastTied(counts, sums, tied);
    forall l ensures MeanOf(counts, sums, l) == MeanDistance(top, l) {
      MeanOfCounted(counts, sums, keys, top, l);
    }
    assert Wins(top, p);
  }

  /** Sorts the tied labels and takes the first. */
  method LeastTied(counts: map<string, nat>, sums: map<string, real>, tied: seq<string>) returns (p: string)
    requires tied != []
    ensures p in tied && forall l :: l in tied ==> TieLe(counts, sums)(p, l)
  {
    var sorted := Sort(TieLe(counts, sums), tied);
    TieLeIsTotalOrder(counts, sums);
    SortSorts(TieLe(counts, sums), tied);
    SameElements(tied, sorted);
    StringLeIsTotalOrder();
    p := sorted[0];
    forall l | l in tied ensures TieLe(counts, sums)(p, l) {
      var i :| 0 <= i < |sorted| && sorted[i] == l;
    }
  }

  // ── All queries ──────────────────────────────────────────────────────────

  type Vector = seq<real>

  datatype Error = LengthMismatch

  function TrainIds(ids: Option<seq<string>>, n: nat): (resolved: seq<string>)
    ensures |resolved| == n
  {
    if ids.Some? && |ids.value| == n then ids.value else seq(n, i requires 0 <= i < n => Decimal(i))
  }

  function NeighboursOf(query: Vector, vectors: seq<Vector>, ids: seq<string>, labels: seq<string>,
                        distance: (Vector, Vector) -> real)
    : (neighbours: seq<Neighbour>)
    requires |vectors| == |ids| == |labels|
    ensures |neighbours| == |vectors|
  {
    seq(|vectors|, i requires 0 <= i < |vectors| => Neighbour(distance(query, vectors[i]), ids[i], labels[i]))
  }

  /** The first predictions of aligned training data. */
  ghost predicate Predicted(vectors: seq<Vector>, labels: seq<string>, queries: seq<Vector>,
                            distance: (Vector, Vector) -> real, k: int, ids: seq<string>, result: seq<string>)
    requires |vectors| == |ids| == |labels|
  {
    |result| <= |queries| && forall j :: 0 <= j < |result| ==>
      Predicts(NeighboursOf(queries[j], vectors, ids, labels, distance), k, result[j])
  }

  lemma PredictedNext(vectors: seq<Vector>, labels: seq<string>, queries: seq<Vector>,
                      distance: (Vector, Vector) -> real, k: int, ids: seq<string>, result: seq<string>, p: string)
    requires |vectors| == |ids| == |labels| && Predicted(vectors, labels, queries, distance, k, ids, result)
    requires |result| < |queries| && Predicts(NeighboursOf(queries[|result|], vectors, ids, labels, distance), k, p)
    ensures Predicted(vectors, labels, queries, distance, k, ids, result + [p])
  {
    hide Predicts, NeighboursOf;
  }

  method PredictWithKnn(vectors: seq<Vector>, labels: seq<string>, queries: seq<Vector>,
                        distance: (Vector, Vector) -> real,
                        k: int, ids: Option<seq<string>>)
    returns (predictions: Result<seq<string>, Error>)
    ensures predictions.Failure? <==> vectors != [] && labels != [] && k > 0 && |vectors| != |labels| && queries != []
    ensures predictions.Success? ==> |predictions.value| == |queries|
    ensures predictions.Success? ==> forall q :: 0 <= q < |queries| ==>
      if vectors == [] || labels == [] || |vectors| != |labels| then predictions.value[q] == ""
      else Predicts(NeighboursOf(queries[q], vectors, TrainIds(ids, |vectors|), labels, distance), k, predictions.value[q])
  {
    if vectors == [] || labels == [] || k <= 0 {
      return Success(seq(|queries|, i => ""));
    }
    hide Predicts, NeighboursOf, TrainIds;
    var resolved := TrainIds(ids, |vectors|);
    var result := [];
    for q := 0 to |queries|
      invariant |result| == q && (q > 0 ==> |vectors| == |labels|)
      invariant |vectors| == |labels| ==> Predicted(vectors, labels, queries, distance, k, resolved, result)
    {
      if |vectors| != |labels| {
        return Failure(LengthMismatch);
      }
      var p := PredictOne(NeighboursOf(queries[q], vectors, resolved, labels, distance), k);
      PredictedNext(vectors, labels, queries, distance, k, resolved, result, p);
      result := result + [p];
    }
    return Success(result);
  }

  /** The order of the training set does not matter: a permutation of it predicts the same. */
  lemma PredictionForgetsOrder(neighbours: seq<Neighbour>, permuted: seq<Neighbour>, k: int, p: string, q: string)
    requires multiset(neighbours) == multiset(permuted) && Predicts(neighbours, k, p) && Predicts(permuted, k, q)
    ensures p == q
  {
    SameElements(neighbours, permuted);
    if k > 0 && neighbours != [] {
      NeighbourLeIsTotalOrder();
      SortForgetsOrder(NeighbourLe, neighbours, permuted);
      WinnerIsUnique(Top(neighbours, k), p, q);
    }
  }

  /** The training set as one list of points. */
  datatype Point = Point(vector: Vector, id: string, expected: string)

  function Points(vectors: seq<Vector>, ids: seq<string>, labels: seq<string>): (points: seq<Point>)
    requires |vectors| == |ids| == |labels|
    ensures |points| == |vectors|
  {
    seq(|vectors|, i requires 0 <= i < |vectors| => Point(vectors[i], ids[i], labels[i]))
  }

  function Seen(query: Vector, points: seq<Point>, distance: (Vector, Vector) -> real): (neighbours: seq<Neighbour>)
    ensures |neighbours| == |points|
  {
    seq(|points|, i requires 0 <= i < |points| => Neighbour(distance(query, points[i].vector), points[i].id, points[i].expected))
  }

  lemma SeenConcat(query: Vector, a: seq<Point>, b: seq<Point>, distance: (Vector, Vector) -> real)
    ensures Seen(query, a + b, distance) == Seen(query, a, distance) + Seen(query, b, distance)
  {
  }

  lemma SeenAround(query: Vector, front: seq<Point>, x: Point, back: seq<Point>, distance: (Vector, Vector) -> real)
    ensures multiset(Seen(query, front + [x] + back, distance))
         == multiset(Seen(query, front + back, distance)) + multiset(Seen(query, [x], distance))
  {
    SeenConcat(query, front + [x], back, distance);
    SeenConcat(query, front, [x], distance);
    SeenConcat(query, front, back, distance);
  }

  /** Seen from a query, a permuted training set is a permutation of the same neighbours. */
  lemma {:induction false} SeenPermuted(query: Vector, a: seq<Point>, b: seq<Point>, distance: (Vector, Vector) -> real)
    requires multiset(a) == multiset(b)
    ensures multiset(Seen(query, a, distance)) == multiset(Seen(query, b, distance))
    decreases |a|
  {
    SameElements(a, b);
    if a != [] {
      var x := a[0];
      var front, back := TakeOut(a, x);
      var front', back' := TakeOut(b, x);
      SeenPermuted(query, front + back, front' + back', distance);
      SeenAround(query, front, x, back, distance);
      SeenAround(query, front', x, back', distance);
    }
  }

  /** Permuting vectors, ids and labels together changes no prediction. */
  lemma TrainingOrderIsIrrelevant(vectors: seq<Vector>, ids: seq<string>, labels: seq<string>,
                                  vectors': seq<Vector>, ids': seq<string>, labels': seq<string>,
                                  query: Vector, distance: (Vector, Vector) -> real, k: int, p: string, q: string)
    requires |vectors| == |ids| == |labels| && |vectors'| == |ids'| == |labels'|
    requires multiset(Points(vectors, ids, labels)) == multiset(Points(vectors', ids', labels'))
    requires Predicts(NeighboursOf(query, vectors, ids, labels, distance), k, p)
    requires Predicts(NeighboursOf(query, vectors', ids', labels', distance), k, q)
    ensures p == q
  {
    var points, points' := Points(vectors, ids, labels), Points(vectors', ids', labels');
    SeenPermuted(query, points, points', distance);
    assert Seen(query, points, distance) == NeighboursOf(query, vectors, ids, labels, distance);
    assert Seen(query, points', distance) == NeighboursOf(query, vectors', ids', labels', distance);
    PredictionForgetsOrder(Seen(query, points, distance), Seen(query, points', distance), k, p, q);
  }

  lemma NearestOfTwoWins(a: Neighbour, b: Neighbour)
    requires NeighbourLe(a, b)
    ensures Predicts([a, b], 1, a.expected)
  {
    SortLeavesSorted(NeighbourLe, [a, b]);
    assert Top([a, b], 1) == [a];
    forall l ensures Votes([a], l) == if l == a.expected then 1 else 0 {
      assert [a][..0] == [];
    }
    StringLeTotal(a.expected, a.expected);
  }

  lemma DefaultIdsOfTwo()
    ensures TrainIds(None, 2) == ["0", "1"]
  {
    var ids := TrainIds(None, 2);
    assert ids[0] == Decimal(0) && ids[1] == Decimal(1);
  }

  lemma FirstOfTwoIsPredicted(query: Vector, v: Vector, distance: (Vector, Vector) -> real, labels: seq<string>,
                              ids: seq<string>)
    requires |labels| == 2 && ids == ["0", "1"]
    ensures Predicts(NeighboursOf(query, [v, v], ids, labels, distance), 1, labels[0])
  {
    var neighbours := NeighboursOf(query, [v, v], ids, labels, distance);
    assert neighbours == [neighbours[0], neighbours[1]];
    assert ids[0][0] < ids[1][0];
    NearestOfTwoWins(neighbours[0], neighbours[1]);
  }

  /** Without ids the position is the id: at equal distances, swapping two labels swaps the prediction. */
  lemma DefaultIdsDependOnOrder(query: Vector, v: Vector, distance: (Vector, Vector) -> real)
    ensures Predicts(NeighboursOf(query, [v, v], TrainIds(None, 2), ["a", "b"], distance), 1, "a")
    ensures Predicts(NeighboursOf(query, [v, v], TrainIds(None, 2), ["b", "a"], distance), 1, "b")
  {
    DefaultIdsOfTwo();
    FirstOfTwoIsPredicted(query, v, distance, ["a", "b"], TrainIds(None, 2));
    FirstOfTwoIsPredicted(query, v, distance, ["b", "a"], TrainIds(None, 2));
  }

  /** A training set as it is passed in: ids of the wrong length count as none. */
  datatype Training = Training(vectors: seq<Vector>, labels: seq<string>, ids: Option<seq<string>>)
  {
    predicate Aligned() { |vectors| == |labels| }

    predicate HasIds() { ids.Some? && |ids.value| == |vectors| }
  }

  ghost predicate PredictsFrom(t: Training, query: Vector, distance: (Vector, Vector) -> real, k: int, p: string) {
    t.Aligned() && Predicts(NeighboursOf(query, t.vectors, TrainIds(t.ids, |t.vectors|), t.labels, distance), k, p)
  }

  /** The same training points in another order, each with its id if ids are supplied. */
  ghost predicate Shuffled(t: Training, u: Training) {
    && t.Aligned() && u.Aligned() && (t.HasIds() <==> u.HasIds())
    && (if t.HasIds() then multiset(Points(t.vectors, t.ids.value, t.labels)) == multiset(Points(u.vectors, u.ids.value, u.labels))
        else multiset(Points(t.vectors, t.labels, t.labels)) == multiset(Points(u.vectors, u.labels, u.labels)))
  }

  /** No shuffling of a training set changes a prediction. */
  ghost predicate OrderIsIrrelevant(supplied: bool) {
    forall t, u, query, distance, k, p, q ::
      (Shuffled(t, u) && t.HasIds() == supplied && PredictsFrom(t, query, distance, k, p) && PredictsFrom(u, query, distance, k, q))
      ==> p == q
  }

  lemma SuppliedIdsForgetOrder(t: Training, u: Training, query: Vector, distance: (Vector, Vector) -> real, k: int,
                               p: string, q: string)
    requires Shuffled(t, u) && t.HasIds() && PredictsFrom(t, query, distance, k, p) && PredictsFrom(u, query, distance, k, q)
    ensures p == q
  {
    TrainingOrderIsIrrelevant(t.vectors, t.ids.value, t.labels, u.vectors, u.ids.value, u.labels, query, distance, k, p, q);
  }

  lemma DefaultIdsRememberOrder(query: Vector, v: Vector, distance: (Vector, Vector) -> real) returns (t: Training, u: Training)
    ensures Shuffled(t, u) && !t.HasIds()
    ensures PredictsFrom(t, query, distance, 1, "a") && PredictsFrom(u, query, distance, 1, "b")
  {
    t, u := Training([v, v], ["a", "b"], None), Training([v, v], ["b", "a"], None);
    SwappedPoints(t, u);
    DefaultIdsDependOnOrder(query, v, distance);
  }

  /** Predictions do not depend on the order of the training set exactly when ids are supplied. */
  lemma OrderIsIrrelevantIff(supplied: bool)
    ensures OrderIsIrrelevant(supplied) <==> supplied
  {
    hide Shuffled, PredictsFrom;
    if supplied {
      forall t, u, query, distance, k, p, q | Shuffled(t, u) && t.HasIds() && PredictsFrom(t, query, distance, k, p)
                                              && PredictsFrom(u, query, distance, k, q)
        ensures p == q
      {
        SuppliedIdsForgetOrder(t, u, query, distance, k, p, q);
      }
    } else {
      var v: Vector, distance := [], (x: Vector, y: Vector) => 0.0;
      var t, u := DefaultIdsRememberOrder(v, v, distance);
      assert "a" != "b";
    }
  }

  lemma SwappedPoints(t: Training, u: Training)
    requires |t.vectors| == 2 && u.vectors == t.vectors && t.vectors[0] == t.vectors[1] && t.ids.None? && u.ids.None?
    requires |t.labels| == 2 && u.labels == [t.labels[1], t.labels[0]]
    ensures Shuffled(t, u)
  {
    var a, b := Point(t.vectors[0], t.labels[0], t.labels[0]), Point(t.vectors[0], t.labels[1], t.labels[1]);
    assert Points(t.vectors, t.labels, t.labels) == [a, b];
    assert Points(u.vectors, u.labels, u.labels) == [b, a];
    assert multiset([a, b]) == multiset([b, a]);
  }
}
