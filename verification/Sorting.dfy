/** lodash's sortBy and the stable sort of arrays, as insertion sorts. */
module Sorting {
  /** A sort key: up to three numbers, compared one after the other. */
  datatype Key = Key(first: real, second: real, third: real)

  predicate NoLater(a: Key, b: Key) {
    a.first < b.first || (a.first == b.first && (a.second < b.second || (a.second == b.second && a.third <= b.third)))
  }

  predicate Sorted<T>(items: seq<T>, key: T -> Key) {
    forall i, j | 0 <= i < j < |items| :: NoLater(key(items[i]), key(items[j]))
  }

  lemma SortedAppend<T>(items: seq<T>, last: T, key: T -> Key)
    requires Sorted(items, key) && forall y | y in items :: NoLater(key(y), key(last))
    ensures Sorted(items + [last], key)
  {
  }

  lemma InsertedMembers<T>(r: seq<T>, items: seq<T>, x: T)
    requires multiset(r) == multiset(items) + multiset{x}
    ensures forall y | y in r :: y in items || y == x
  {
    forall y | y in r ensures y in items || y == x {
      assert y in multiset(r);
    }
  }

  /** Stable: equal keys keep their order. */
  function Insert<T>(items: seq<T>, x: T, key: T -> Key): (r: seq<T>)
    requires Sorted(items, key)
    ensures Sorted(r, key) && multiset(r) == multiset(items) + multiset{x}
  {
    if items == [] || NoLater(key(items[|items| - 1]), key(x)) then
      SortedLast(items, x, key);
      items + [x]
    else
      var last, front := items[|items| - 1], items[..|items| - 1];
      assert items == front + [last];
      var r := Insert(front, x, key);
      InsertedMembers(r, front, x);
      SortedAppend(r, last, key);
      r + [last]
  }

  lemma SortedLast<T>(items: seq<T>, x: T, key: T -> Key)
    requires Sorted(items, key) && (items == [] || NoLater(key(items[|items| - 1]), key(x)))
    ensures Sorted(items + [x], key)
  {
    forall y | y in items ensures NoLater(key(y), key(x)) {
      var i :| 0 <= i < |items| && items[i] == y;
      assert i == |items| - 1 || NoLater(key(items[i]), key(items[|items| - 1]));
    }
    SortedAppend(items, x, key);
  }

  function SortBy<T>(items: seq<T>, key: T -> Key): (r: seq<T>)
    ensures Sorted(r, key) && multiset(r) == multiset(items)
  {
    if items == [] then []
    else
      assert items == items[..|items| - 1] + [items[|items| - 1]];
      Insert(SortBy(items[..|items| - 1], key), items[|items| - 1], key)
  }

  predicate Ascending(items: seq<nat>) {
    forall i, j | 0 <= i < j < |items| :: items[i] < items[j]
  }

  /** Items with the same key are in ascending order. */
  predicate TiesAscend(items: seq<nat>, key: nat -> Key) {
    forall i, j | 0 <= i < j < |items| && key(items[i]) == key(items[j]) :: items[i] < items[j]
  }

  lemma InsertTies(items: seq<nat>, x: nat, key: nat -> Key)
    requires Sorted(items, key) && TiesAscend(items, key) && forall i | 0 <= i < |items| :: items[i] < x
    ensures TiesAscend(Insert(items, x, key), key)
  {
    if items != [] && !NoLater(key(items[|items| - 1]), key(x)) {
      var last, front := items[|items| - 1], items[..|items| - 1];
      InsertTies(front, x, key);
      var r := Insert(front, x, key);
      InsertedMembers(r, front, x);
      forall i | 0 <= i < |r| && key(r[i]) == key(last) ensures r[i] < last {
        var y := r[i];
        if y in front {
          var j :| 0 <= j < |front| && front[j] == y;
          assert items[j] == front[j];
        }
      }
    }
  }

  /** The sort is stable. */
  lemma {:induction false} SortTies(items: seq<nat>, key: nat -> Key)
    requires Ascending(items)
    ensures TiesAscend(SortBy(items, key), key)
  {
    if items != [] {
      var last, front := items[|items| - 1], items[..|items| - 1];
      SortTies(front, key);
      SortedMembers(front, key);
      var r := SortBy(front, key);
      forall i | 0 <= i < |r| ensures r[i] < last {
        assert r[i] in front;
      }
      InsertTies(r, last, key);
    }
  }

  lemma SortedMembers<T>(items: seq<T>, key: T -> Key)
    ensures forall x :: x in SortBy(items, key) <==> x in items
  {
    forall x ensures x in SortBy(items, key) <==> x in items {
      assert x in items <==> x in multiset(items);
    }
  }

  lemma InsertLast<T>(items: seq<T>, x: T, key: T -> Key)
    requires Sorted(items, key) && (items == [] || NoLater(key(items[|items| - 1]), key(x)))
    ensures Insert(items, x, key) == items + [x]
  {
  }

  /** What is sorted stays as it is. */
  lemma {:induction false} SortedStays<T>(items: seq<T>, key: T -> Key)
    requires Sorted(items, key)
    ensures SortBy(items, key) == items
  {
    if items != [] {
      var front, last := items[..|items| - 1], items[|items| - 1];
      SortedStays(front, key);
      assert front == [] || NoLater(key(front[|front| - 1]), key(last));
      InsertLast(front, last, key);
      assert items == front + [last];
    }
  }

  /** What comes before everything else goes first. */
  lemma {:induction false} InsertFirst<T>(items: seq<T>, x: T, key: T -> Key)
    requires Sorted(items, key) && forall y | y in items :: !NoLater(key(y), key(x))
    ensures Insert(items, x, key) == [x] + items
  {
    if items != [] {
      InsertFirst(items[..|items| - 1], x, key);
    }
  }
}
