/** Sorting by an integer key, keeping the order of equal keys. */
module StableSort {

  function Insert<T>(items: seq<T>, item: T, key: T -> int): seq<T> {
    if items == [] || key(items[|items| - 1]) <= key(item) then items + [item]
    else Insert(items[..|items| - 1], item, key) + [items[|items| - 1]]
  }

  function Sorted<T>(items: seq<T>, key: T -> int): seq<T> {
    if items == [] then [] else Insert(Sorted(items[..|items| - 1], key), items[|items| - 1], key)
  }

  predicate Ordered<T>(items: seq<T>, key: T -> int) {
    forall j, k :: 0 <= j < k < |items| ==> key(items[j]) <= key(items[k])
  }

  lemma {:induction false} InsertKeepsAll<T>(items: seq<T>, item: T, key: T -> int)
    ensures multiset(Insert(items, item, key)) == multiset(items) + multiset{item}
    decreases |items|
  {
    if items != [] && key(items[|items| - 1]) > key(item) {
      var n := |items| - 1;
      InsertKeepsAll(items[..n], item, key);
      assert items == items[..n] + [items[n]];
    }
  }

  lemma {:induction false} InsertBounded<T>(items: seq<T>, item: T, key: T -> int, bound: int)
    requires key(item) <= bound && forall k :: 0 <= k < |items| ==> key(items[k]) <= bound
    ensures forall k :: 0 <= k < |Insert(items, item, key)| ==> key(Insert(items, item, key)[k]) <= bound
    decreases |items|
  {
    if items != [] && key(items[|items| - 1]) > key(item) { InsertBounded(items[..|items| - 1], item, key, bound); }
  }

  lemma {:induction false} InsertOrdered<T>(items: seq<T>, item: T, key: T -> int)
    requires Ordered(items, key)
    ensures Ordered(Insert(items, item, key), key)
    decreases |items|
  {
    if items != [] && key(items[|items| - 1]) > key(item) {
      var n := |items| - 1;
      InsertOrdered(items[..n], item, key);
      InsertBounded(items[..n], item, key, key(items[n]));
    }
  }

  /** Sorting puts the same items in order. */
  lemma {:induction false} SortedKeepsAll<T>(items: seq<T>, key: T -> int)
    ensures multiset(Sorted(items, key)) == multiset(items) && |Sorted(items, key)| == |items|
    ensures Ordered(Sorted(items, key), key)
    decreases |items|
  {
    if items != [] {
      hide Insert, Ordered;
      var n := |items| - 1;
      SortedKeepsAll(items[..n], key);
      InsertKeepsAll(Sorted(items[..n], key), items[n], key);
      InsertOrdered(Sorted(items[..n], key), items[n], key);
      assert items == items[..n] + [items[n]];
      assert |multiset(Sorted(items, key))| == |multiset(items)|;
    }
  }

  lemma InsertLast<T>(items: seq<T>, item: T, key: T -> int)
    requires items != [] ==> key(items[|items| - 1]) <= key(item)
    ensures Insert(items, item, key) == items + [item]
  {
  }

  /** Items that are in order stay as they are. */
  lemma {:induction false} SortedAlready<T>(items: seq<T>, key: T -> int)
    requires Ordered(items, key)
    ensures Sorted(items, key) == items
    decreases |items|
  {
    hide Insert;
    if items != [] {
      SortedAlready(items[..|items| - 1], key);
      InsertLast(items[..|items| - 1], items[|items| - 1], key);
      assert items == items[..|items| - 1] + [items[|items| - 1]];
    }
  }
}
