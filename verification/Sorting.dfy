/** The stable ascending sort that fixes the wire order of Codec Configs and Audio Elements. */
module Sorting {
  import opened Core

  function Insert<T>(x: T, xs: seq<T>, key: T -> u32): (r: seq<T>)
    ensures |r| == |xs| + 1
  {
    if xs == [] || key(x) <= key(xs[0]) then [x] + xs else [xs[0]] + Insert(x, xs[1..], key)
  }

  /** Ascending by key; an item goes before the later items that share its key. */
  function Sorted<T>(xs: seq<T>, key: T -> u32): (r: seq<T>)
    ensures |r| == |xs|
  {
    if xs == [] then [] else Insert(xs[0], Sorted(xs[1..], key), key)
  }

  predicate Ascending<T>(xs: seq<T>, key: T -> u32) {
    forall i, j | 0 <= i < j < |xs| :: key(xs[i]) <= key(xs[j])
  }

  /** The items carrying one key, in order. */
  function WithKey<T>(xs: seq<T>, key: T -> u32, k: u32): seq<T> {
    if xs == [] then [] else (if key(xs[0]) == k then [xs[0]] else []) + WithKey(xs[1..], key, k)
  }

  lemma {:induction false} InsertMembers<T>(x: T, xs: seq<T>, key: T -> u32)
    ensures forall y :: y in Insert(x, xs, key) <==> y == x || y in xs
    decreases |xs|
  {
    if xs != [] && key(x) > key(xs[0]) {
      InsertMembers(x, xs[1..], key);
      assert xs == [xs[0]] + xs[1..];
    }
  }

  lemma {:induction false} InsertAscends<T>(x: T, xs: seq<T>, key: T -> u32)
    requires Ascending(xs, key)
    ensures Ascending(Insert(x, xs, key), key)
    decreases |xs|
  {
    if xs != [] && key(x) > key(xs[0]) {
      InsertAscends(x, xs[1..], key);
      InsertMembers(x, xs[1..], key);
      StaysFirst(x, xs, Insert(x, xs[1..], key), key);
    }
  }

  lemma StaysFirst<T>(x: T, xs: seq<T>, rest: seq<T>, key: T -> u32)
    requires xs != [] && Ascending(xs, key) && key(xs[0]) < key(x)
    requires forall y :: y in rest <==> y == x || y in xs[1..]
    ensures forall i | 0 <= i < |rest| :: key(xs[0]) <= key(rest[i])
  {
    forall i | 0 <= i < |rest|
      ensures key(xs[0]) <= key(rest[i])
    {
      assert rest[i] in rest;
      if rest[i] != x {
        var j :| 0 <= j < |xs[1..]| && xs[1..][j] == rest[i];
        assert xs[j + 1] == rest[i];
      }
    }
  }

  lemma {:induction false} WithKeyCons<T>(x: T, xs: seq<T>, key: T -> u32, k: u32)
    ensures WithKey([x] + xs, key, k) == (if key(x) == k then [x] else []) + WithKey(xs, key, k)
  {
    assert ([x] + xs)[1..] == xs;
  }

  lemma {:induction false} InsertFilters<T>(x: T, xs: seq<T>, key: T -> u32, k: u32)
    ensures WithKey(Insert(x, xs, key), key, k) == (if key(x) == k then [x] else []) + WithKey(xs, key, k)
    decreases |xs|
  {
    hide WithKey;
    WithKeyCons(x, xs, key, k);
    if xs != [] && key(x) > key(xs[0]) {
      InsertFilters(x, xs[1..], key, k);
      WithKeyCons(xs[0], Insert(x, xs[1..], key), key, k);
      WithKeyCons(xs[0], xs[1..], key, k);
      assert [xs[0]] + xs[1..] == xs;
    }
  }

  /**
    The sort is ascending and stable, and keeps every item: for each key, the items that carry it appear
    exactly as they did, in the same order.
  */
  lemma {:induction false} SortedIsStable<T>(xs: seq<T>, key: T -> u32, k: u32)
    ensures Ascending(Sorted(xs, key), key)
    ensures WithKey(Sorted(xs, key), key, k) == WithKey(xs, key, k)
    ensures forall y :: y in Sorted(xs, key) <==> y in xs
    decreases |xs|
  {
    if xs != [] {
      SortedIsStable(xs[1..], key, k);
      var rest := Sorted(xs[1..], key);
      InsertAscends(xs[0], rest, key);
      InsertMembers(xs[0], rest, key);
      InsertFilters(xs[0], rest, key, k);
      assert xs == [xs[0]] + xs[1..];
    }
  }

  /** Nothing moves when the keys already ascend. */
  lemma {:induction false} SortedWhenAscending<T>(xs: seq<T>, key: T -> u32)
    requires Ascending(xs, key)
    ensures Sorted(xs, key) == xs
    decreases |xs|
  {
    if xs != [] {
      SortedWhenAscending(xs[1..], key);
      assert xs == [xs[0]] + xs[1..];
    }
  }
}
