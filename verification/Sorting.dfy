/** Python's stable `sort` as an insertion sort over any total preorder, and the order of strings.

    The library's own algorithm is not modelled; what matters is that the result is sorted, is a
    permutation, keeps the order of equal elements, and that a sorted list is left as it is. */
module Sorting {

  ghost predicate TotalPreorder<T(!new)>(le: (T, T) -> bool) {
    && (forall a, b :: le(a, b) || le(b, a))
    && (forall a, b, c :: le(a, b) && le(b, c) ==> le(a, c))
  }

  ghost predicate Sorted<T>(le: (T, T) -> bool, xs: seq<T>) {
    forall i, j :: 0 <= i < j < |xs| ==> le(xs[i], xs[j])
  }

  /** `x` goes in front of the first element it does not exceed. */
  function Insert<T>(le: (T, T) -> bool, x: T, xs: seq<T>): (r: seq<T>)
    ensures multiset(r) == multiset(xs) + multiset{x}
  {
    if xs == [] then [x]
    else if le(x, xs[0]) then [x] + xs
    else
      assert xs == [xs[0]] + xs[1..];
      [xs[0]] + Insert(le, x, xs[1..])
  }

  function Sort<T>(le: (T, T) -> bool, xs: seq<T>): (r: seq<T>)
    ensures multiset(r) == multiset(xs)
  {
    if xs == [] then []
    else
      assert xs == [xs[0]] + xs[1..];
      Insert(le, xs[0], Sort(le, xs[1..]))
  }

  lemma Associative<T>(a: seq<T>, b: seq<T>, c: seq<T>)
    ensures a + (b + c) == (a + b) + c
  {
  }

  lemma SameElements<T>(xs: seq<T>, ys: seq<T>)
    requires multiset(xs) == multiset(ys)
    ensures |xs| == |ys|
    ensures forall x :: x in xs <==> x in ys
  {
    assert |multiset(xs)| == |multiset(ys)|;
    forall x ensures x in xs <==> x in ys {
      assert x in xs <==> x in multiset(xs);
      assert x in ys <==> x in multiset(ys);
    }
  }

  /** An element taken out of the list it occurs in. */
  lemma TakeOut<T>(xs: seq<T>, x: T) returns (front: seq<T>, back: seq<T>)
    requires x in xs
    ensures xs == front + [x] + back
    ensures multiset(front + back) == multiset(xs) - multiset{x}
  {
    var k :| 0 <= k < |xs| && xs[k] == x;
    front, back := xs[..k], xs[k + 1..];
    assert xs == front + [x] + back;
    assert multiset(xs) == multiset(front) + multiset{x} + multiset(back);
  }

  lemma {:induction false} InsertSorted<T(!new)>(le: (T, T) -> bool, x: T, xs: seq<T>)
    requires TotalPreorder(le) && Sorted(le, xs)
    ensures Sorted(le, Insert(le, x, xs))
  {
    if xs == [] {
    } else if le(x, xs[0]) {
      forall i, j | 0 <= i < j < |xs| + 1 ensures le(([x] + xs)[i], ([x] + xs)[j]) {
        if i == 0 && j > 1 {
          assert le(x, xs[0]) && le(xs[0], xs[j - 1]);
        }
      }
    } else {
      var rest := Insert(le, x, xs[1..]);
      InsertSorted(le, x, xs[1..]);
      assert forall k :: 0 <= k < |rest| ==> le(xs[0], rest[k]) by {
        forall k | 0 <= k < |rest| ensures le(xs[0], rest[k]) {
          assert rest[k] in multiset(rest);
          assert rest[k] == x || rest[k] in xs[1..];
        }
      }
    }
  }

  lemma {:induction false} SortSorts<T(!new)>(le: (T, T) -> bool, xs: seq<T>)
    requires TotalPreorder(le)
    ensures Sorted(le, Sort(le, xs))
  {
    if xs != [] {
      SortSorts(le, xs[1..]);
      InsertSorted(le, xs[0], Sort(le, xs[1..]));
    }
  }

  lemma {:induction false} SortLeavesSorted<T(!new)>(le: (T, T) -> bool, xs: seq<T>)
    requires Sorted(le, xs)
    ensures Sort(le, xs) == xs
  {
    if xs != [] {
      SortLeavesSorted(le, xs[1..]);
      assert xs == [xs[0]] + xs[1..];
    }
  }

  predicate Alike<T>(le: (T, T) -> bool, a: T, b: T) { le(a, b) && le(b, a) }

  /** Equal keys stay in their original order. */
  function KeyedAlike<T>(le: (T, T) -> bool, k: T, xs: seq<T>): seq<T> {
    if xs == [] then []
    else (if Alike(le, k, xs[0]) then [xs[0]] else []) + KeyedAlike(le, k, xs[1..])
  }

  lemma KeyedAlikeCons<T>(le: (T, T) -> bool, k: T, x: T, xs: seq<T>)
    ensures KeyedAlike(le, k, [x] + xs) == (if Alike(le, k, x) then [x] else []) + KeyedAlike(le, k, xs)
  {
    assert ([x] + xs)[1..] == xs;
  }

  /** Elements that are not alike with each other change places freely. */
  lemma KeyedAlikeSwap<T(!new)>(le: (T, T) -> bool, k: T, x: T, y: T, xs: seq<T>)
    requires TotalPreorder(le) && !Alike(le, x, y)
    ensures KeyedAlike(le, k, [x] + ([y] + xs)) == KeyedAlike(le, k, [y] + ([x] + xs))
  {
    KeyedAlikeCons(le, k, x, [y] + xs);
    KeyedAlikeCons(le, k, y, xs);
    KeyedAlikeCons(le, k, y, [x] + xs);
    KeyedAlikeCons(le, k, x, xs);
    assert !(Alike(le, k, x) && Alike(le, k, y));
  }

  lemma InsertLater<T>(le: (T, T) -> bool, x: T, y: T, xs: seq<T>)
    requires !le(x, y)
    ensures Insert(le, x, [y] + xs) == [y] + Insert(le, x, xs)
  {
    assert ([y] + xs)[1..] == xs;
  }

  lemma InsertFirst<T>(le: (T, T) -> bool, x: T, xs: seq<T>)
    requires |xs| == 0 || le(x, xs[0])
    ensures Insert(le, x, xs) == [x] + xs
  {
  }

  lemma {:induction false} InsertStable<T(!new)>(le: (T, T) -> bool, k: T, x: T, xs: seq<T>)
    requires TotalPreorder(le)
    ensures KeyedAlike(le, k, Insert(le, x, xs)) == KeyedAlike(le, k, [x] + xs)
  {
    if |xs| == 0 || le(x, xs[0]) {
      InsertFirst(le, x, xs);
    } else {
      var y, rest := xs[0], xs[1..];
      assert xs == [y] + rest;
      InsertStable(le, k, x, rest);
      InsertLater(le, x, y, rest);
      KeyedAlikeCons(le, k, y, Insert(le, x, rest));
      KeyedAlikeCons(le, k, y, [x] + rest);
      KeyedAlikeSwap(le, k, x, y, rest);
    }
  }

  lemma {:induction false} SortStable<T(!new)>(le: (T, T) -> bool, k: T, xs: seq<T>)
    requires TotalPreorder(le)
    ensures KeyedAlike(le, k, Sort(le, xs)) == KeyedAlike(le, k, xs)
  {
    if xs != [] {
      var rest := Sort(le, xs[1..]);
      SortStable(le, k, xs[1..]);
      InsertStable(le, k, xs[0], rest);
      assert ([xs[0]] + rest)[1..] == rest;
    }
  }

  /** No two different elements of `xs` compare equal. */
  ghost predicate StrictOn<T>(le: (T, T) -> bool, xs: seq<T>) {
    forall a, b :: a in xs && b in xs && le(a, b) && le(b, a) ==> a == b
  }

  /** The first elements of two sorted permutations compare equal, so they are equal. */
  lemma SameHead<T(!new)>(le: (T, T) -> bool, xs: seq<T>, ys: seq<T>)
    requires TotalPreorder(le) && Sorted(le, xs) && Sorted(le, ys) && xs != [] && ys != []
    requires multiset(xs) == multiset(ys) && StrictOn(le, xs)
    ensures xs[0] == ys[0]
  {
    SameElements(xs, ys);
    assert xs[0] in ys && ys[0] in xs;
    var i :| 0 <= i < |ys| && ys[i] == xs[0];
    var j :| 0 <= j < |xs| && xs[j] == ys[0];
    assert le(ys[0], xs[0]) by {
      assert i == 0 ==> le(ys[0], ys[0]);
    }
    assert le(xs[0], ys[0]) by {
      assert j == 0 ==> le(xs[0], xs[0]);
    }
  }

  lemma SameTails<T>(xs: seq<T>, ys: seq<T>)
    requires xs != [] && ys != [] && xs[0] == ys[0] && multiset(xs) == multiset(ys)
    ensures multiset(xs[1..]) == multiset(ys[1..])
  {
    assert xs == [xs[0]] + xs[1..] && ys == [ys[0]] + ys[1..];
    assert multiset(xs[1..]) == multiset(xs) - multiset{xs[0]};
    assert multiset(ys[1..]) == multiset(ys) - multiset{ys[0]};
  }

  lemma {:induction false} SortedUnique<T(!new)>(le: (T, T) -> bool, xs: seq<T>, ys: seq<T>)
    requires TotalPreorder(le) && Sorted(le, xs) && Sorted(le, ys)
    requires multiset(xs) == multiset(ys) && StrictOn(le, xs)
    ensures xs == ys
  {
    SameElements(xs, ys);
    if xs != [] {
      SameHead(le, xs, ys);
      SameTails(xs, ys);
      assert forall a :: a in xs[1..] ==> a in xs;
      SortedUnique(le, xs[1..], ys[1..]);
      assert xs == [xs[0]] + xs[1..] && ys == [ys[0]] + ys[1..];
    }
  }

  /** When no two elements tie, sorting forgets the order of the input. */
  lemma SortForgetsOrder<T(!new)>(le: (T, T) -> bool, xs: seq<T>, ys: seq<T>)
    requires TotalPreorder(le) && multiset(xs) == multiset(ys) && StrictOn(le, xs)
    ensures Sort(le, xs) == Sort(le, ys)
  {
    SortSorts(le, xs);
    SortSorts(le, ys);
    SameElements(xs, Sort(le, xs));
    SortedUnique(le, Sort(le, xs), Sort(le, ys));
  }

  // ── Strings ──────────────────────────────────────────────────────────────

  /** Lexicographic order by code point, as Python compares strings. */
  predicate StringLe(a: string, b: string) {
    a == "" || (b != "" && (a[0] < b[0] || (a[0] == b[0] && StringLe(a[1..], b[1..]))))
  }

  lemma {:induction false} StringLeTotal(a: string, b: string)
    ensures StringLe(a, b) || StringLe(b, a)
  {
    if a != "" && b != "" && a[0] == b[0] {
      StringLeTotal(a[1..], b[1..]);
    }
  }

  lemma {:induction false} StringLeTransitive(a: string, b: string, c: string)
    requires StringLe(a, b) && StringLe(b, c)
    ensures StringLe(a, c)
  {
    if a != "" && a[0] == b[0] && b[0] == c[0] {
      StringLeTransitive(a[1..], b[1..], c[1..]);
    }
  }

  lemma {:induction false} StringLeAntisymmetric(a: string, b: string)
    requires StringLe(a, b) && StringLe(b, a)
    ensures a == b
  {
    if a != "" && b != "" {
      StringLeAntisymmetric(a[1..], b[1..]);
      assert a == [a[0]] + a[1..] && b == [b[0]] + b[1..];
    }
  }

  lemma StringLeIsTotalOrder()
    ensures TotalPreorder(StringLe)
    ensures forall a, b :: StringLe(a, b) && StringLe(b, a) ==> a == b
  {
    forall a, b ensures StringLe(a, b) || StringLe(b, a) { StringLeTotal(a, b); }
    forall a, b, c | StringLe(a, b) && StringLe(b, c) ensures StringLe(a, c) { StringLeTransitive(a, b, c); }
    forall a, b | StringLe(a, b) && StringLe(b, a) ensures a == b { StringLeAntisymmetric(a, b); }
  }

  // ── Distinctness ─────────────────────────────────────────────────────────

  ghost predicate Distinct<T>(xs: seq<T>) {
    forall i, j :: 0 <= i < j < |xs| ==> xs[i] != xs[j]
  }

  lemma DistinctCounts<T>(xs: seq<T>)
    ensures Distinct(xs) <==> forall x :: multiset(xs)[x] <= 1
    decreases |xs|
  {
    if xs != [] {
      var rest := xs[1..];
      DistinctCounts(rest);
      assert xs == [xs[0]] + rest;
      if Distinct(xs) {
        forall x ensures multiset(xs)[x] <= 1 {
          if x == xs[0] {
            assert x !in rest;
            assert multiset(rest)[x] == 0;
          }
        }
      }
      if forall x :: multiset(xs)[x] <= 1 {
        forall x ensures multiset(rest)[x] <= 1 {
          assert multiset(xs)[x] == multiset(rest)[x] + if x == xs[0] then 1 else 0;
        }
        assert multiset(rest)[xs[0]] == 0;
        assert xs[0] !in rest;
      }
    }
  }

  lemma PermutedDistinct<T>(xs: seq<T>, ys: seq<T>)
    requires Distinct(xs) && multiset(xs) == multiset(ys)
    ensures Distinct(ys)
  {
    DistinctCounts(xs);
    DistinctCounts(ys);
  }
}
