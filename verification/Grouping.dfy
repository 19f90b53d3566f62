/** Grouping the items of a list by a key in a dictionary: items without a key are left out of the dictionary,
    whose keys keep the order of their first appearance. */
module Grouping {
  import opened Wrappers
  import opened Sorting

  /** The values of the items with a given key, or without one, in order. */
  function GroupOf<T, K(==), V>(key: T -> Option<K>, value: T -> V, items: seq<T>, k: Option<K>): seq<V> {
    if items == [] then []
    else
      var last := items[|items| - 1];
      GroupOf(key, value, items[..|items| - 1], k) + if key(last) == k then [value(last)] else []
  }

  /** The keys in order of first appearance. */
  function KeysOf<T, K(==)>(key: T -> Option<K>, items: seq<T>): seq<K> {
    if items == [] then []
    else
      var before, k := KeysOf(key, items[..|items| - 1]), key(items[|items| - 1]);
      if k.None? || k.value in before then before else before + [k.value]
  }

  lemma GroupOfNext<T, K, V>(key: T -> Option<K>, value: T -> V, items: seq<T>, x: T, k: Option<K>)
    ensures GroupOf(key, value, items + [x], k) == GroupOf(key, value, items, k) + if key(x) == k then [value(x)] else []
  {
    assert (items + [x])[..|items|] == items;
  }

  lemma KeysOfNext<T, K>(key: T -> Option<K>, items: seq<T>, x: T)
    ensures KeysOf(key, items + [x])
         == KeysOf(key, items) + if key(x).None? || key(x).value in KeysOf(key, items) then [] else [key(x).value]
  {
    assert (items + [x])[..|items|] == items;
  }

  lemma {:induction false} KeysOfDistinct<T, K>(key: T -> Option<K>, items: seq<T>)
    ensures Distinct(KeysOf(key, items))
  {
    if items != [] {
      KeysOfDistinct(key, items[..|items| - 1]);
    }
  }

  /** The keys are those of the items. */
  lemma {:induction false} KeyIsPresent<T, K>(key: T -> Option<K>, items: seq<T>, k: K)
    ensures k in KeysOf(key, items) <==> exists i :: 0 <= i < |items| && key(items[i]) == Some(k)
  {
    if items != [] {
      var init, last := items[..|items| - 1], items[|items| - 1];
      KeyIsPresent(key, init, k);
      assert items == init + [last];
      assert forall i :: 0 <= i < |init| ==> init[i] == items[i];
    }
  }

  /** A group holds the values of the items with its key. */
  lemma {:induction false} GroupOfMembers<T, K, V>(key: T -> Option<K>, value: T -> V, items: seq<T>, k: Option<K>, v: V)
    ensures v in GroupOf(key, value, items, k) <==> exists x :: x in items && key(x) == k && value(x) == v
    ensures |GroupOf(key, value, items, k)| <= |items|
  {
    if items != [] {
      var init, last := items[..|items| - 1], items[|items| - 1];
      GroupOfMembers(key, value, init, k, v);
      assert items == init + [last];
      if key(last) == k && value(last) == v {
        assert last in items;
      }
      forall x | x in items && key(x) == k && value(x) == v ensures v in GroupOf(key, value, items, k) {
        assert x in init || x == last;
      }
    }
  }

  /** `groups` is the dictionary, in the insertion order `keys`, that grouping `items` has built. */
  ghost predicate Grouped<T, K(!new), V>(key: T -> Option<K>, value: T -> V, groups: map<K, seq<V>>, keys: seq<K>,
                                         items: seq<T>)
  {
    && keys == KeysOf(key, items)
    && (forall k :: k in groups <==> k in keys)
    && (forall k :: GroupOf(key, value, items, Some(k)) == if k in groups then groups[k] else [])
  }

  lemma NothingGrouped<T, K(!new), V>(key: T -> Option<K>, value: T -> V)
    ensures Grouped(key, value, map[], [], [])
  {
  }

  /** An item without a key changes nothing, and any other one goes to the end of its group. */
  lemma GroupedNext<T, K(!new), V>(key: T -> Option<K>, value: T -> V, groups: map<K, seq<V>>, keys: seq<K>,
                                   items: seq<T>, x: T)
    requires Grouped(key, value, groups, keys, items)
    ensures key(x).None? ==> Grouped(key, value, groups, keys, items + [x])
    ensures key(x).Some? ==>
      Grouped(key, value,
              groups[key(x).value := (if key(x).value in groups then groups[key(x).value] else []) + [value(x)]],
              if key(x).value in groups then keys else keys + [key(x).value], items + [x])
  {
    hide GroupOf, KeysOf;
    KeysOfNext(key, items, x);
    forall k
      ensures GroupOf(key, value, items + [x], Some(k))
           == GroupOf(key, value, items, Some(k)) + if key(x) == Some(k) then [value(x)] else []
    {
      GroupOfNext(key, value, items, x, Some(k));
    }
  }
}
