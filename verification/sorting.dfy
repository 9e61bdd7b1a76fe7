/** Python's `sorted(items, key=key, reverse=True)` on an integer key:
    a new list in non-increasing key order in which items with equal keys
    keep their original order (Python's sort is stable, and `reverse=True`
    keeps it so). */
module Sorting {

  /** `xs` is in non-increasing key order. */
  ghost predicate Descending<T>(xs: seq<T>, key: T -> int) {
    forall i, j :: 0 <= i < j < |xs| ==> key(xs[i]) >= key(xs[j])
  }

  /** The items whose key is `k`, in their order. */
  function WithKey<T>(xs: seq<T>, key: T -> int, k: int): (r: seq<T>)
    ensures |r| <= |xs|
  {
    if xs == [] then []
    else (if key(xs[0]) == k then [xs[0]] else []) + WithKey(xs[1..], key, k)
  }

  /** Places `x` in front of the first item whose key is not greater. */
  function Insert<T>(x: T, ys: seq<T>, key: T -> int): (r: seq<T>)
    ensures |r| == |ys| + 1
  {
    if ys == [] || key(ys[0]) <= key(x) then [x] + ys
    else [ys[0]] + Insert(x, ys[1..], key)
  }

  /** The sorted list, built by inserting the items from the last one to
      the first. */
  function SortDesc<T>(xs: seq<T>, key: T -> int): (r: seq<T>)
    ensures |r| == |xs|
  {
    if xs == [] then [] else Insert(xs[0], SortDesc(xs[1..], key), key)
  }

  lemma DescendingTail<T>(xs: seq<T>, key: T -> int)
    requires xs != [] && Descending(xs, key)
    ensures Descending(xs[1..], key)
    ensures forall e :: e in xs[1..] ==> key(e) <= key(xs[0])
  {
    forall i, j | 0 <= i < j < |xs[1..]| ensures key(xs[1..][i]) >= key(xs[1..][j]) {
      assert xs[1..][i] == xs[i + 1] && xs[1..][j] == xs[j + 1];
    }
    forall e | e in xs[1..] ensures key(e) <= key(xs[0]) {
      var i :| 0 <= i < |xs[1..]| && xs[1..][i] == e;
      assert xs[i + 1] == e;
    }
  }

  lemma {:induction false} InsertPerm<T>(x: T, ys: seq<T>, key: T -> int)
    ensures multiset(Insert(x, ys, key)) == multiset(ys) + multiset{x}
  {
    if ys != [] && key(ys[0]) > key(x) {
      InsertPerm(x, ys[1..], key);
      assert ys == [ys[0]] + ys[1..];
    }
  }

  lemma {:induction false} InsertDescending<T>(x: T, ys: seq<T>, key: T -> int)
    requires Descending(ys, key)
    ensures Descending(Insert(x, ys, key), key)
  {
    var r := Insert(x, ys, key);
    if ys != [] && key(ys[0]) > key(x) {
      var rest := Insert(x, ys[1..], key);
      DescendingTail(ys, key);
      InsertDescending(x, ys[1..], key);
      InsertPerm(x, ys[1..], key);
      assert r == [ys[0]] + rest;
      forall i, j | 0 <= i < j < |r| ensures key(r[i]) >= key(r[j]) {
        if i == 0 {
          assert r[j] == rest[j - 1];
          assert r[j] in multiset(rest);
          assert r[j] == x || r[j] in ys[1..];
        } else {
          assert r[i] == rest[i - 1] && r[j] == rest[j - 1];
        }
      }
    } else {
      assert r == [x] + ys;
      forall i, j | 0 <= i < j < |r| ensures key(r[i]) >= key(r[j]) {
        if i == 0 {
          assert r[j] == ys[j - 1];
          assert key(ys[0]) >= key(ys[j - 1]);
        } else {
          assert r[i] == ys[i - 1] && r[j] == ys[j - 1];
        }
      }
    }
  }

  lemma WithKeyCons<T>(e: T, rest: seq<T>, key: T -> int, k: int)
    ensures WithKey([e] + rest, key, k) == (if key(e) == k then [e] else []) + WithKey(rest, key, k)
  {
    assert ([e] + rest)[0] == e && ([e] + rest)[1..] == rest;
  }

  /** Inserting an item with another key leaves the items with key `k`
      as they were. */
  lemma {:induction false} InsertOtherKey<T>(x: T, ys: seq<T>, key: T -> int, k: int)
    requires key(x) != k
    ensures WithKey(Insert(x, ys, key), key, k) == WithKey(ys, key, k)
  {
    if ys != [] && key(ys[0]) > key(x) {
      var rest := Insert(x, ys[1..], key);
      assert Insert(x, ys, key) == [ys[0]] + rest;
      InsertOtherKey(x, ys[1..], key, k);
      WithKeyCons(ys[0], rest, key, k);
      WithKeyCons(ys[0], ys[1..], key, k);
      assert ys == [ys[0]] + ys[1..];
    } else {
      assert Insert(x, ys, key) == [x] + ys;
      WithKeyCons(x, ys, key, k);
    }
  }

  /** In a sorted list, an inserted item comes before every item with
      its key. */
  lemma {:induction false} InsertSameKey<T>(x: T, ys: seq<T>, key: T -> int)
    requires Descending(ys, key)
    ensures WithKey(Insert(x, ys, key), key, key(x)) == [x] + WithKey(ys, key, key(x))
  {
    var k := key(x);
    if ys != [] && key(ys[0]) > k {
      var rest := Insert(x, ys[1..], key);
      assert Insert(x, ys, key) == [ys[0]] + rest;
      DescendingTail(ys, key);
      InsertSameKey(x, ys[1..], key);
      WithKeyCons(ys[0], rest, key, k);
      WithKeyCons(ys[0], ys[1..], key, k);
      assert ys == [ys[0]] + ys[1..];
    } else {
      assert Insert(x, ys, key) == [x] + ys;
      WithKeyCons(x, ys, key, k);
    }
  }

  /** The sorted list is in non-increasing key order, holds the same
      items, and for every key value lists the items with that key in
      their original order. */
  lemma {:induction false} SortDescSpec<T>(xs: seq<T>, key: T -> int)
    ensures Descending(SortDesc(xs, key), key)
    ensures multiset(SortDesc(xs, key)) == multiset(xs)
    ensures forall k :: WithKey(SortDesc(xs, key), key, k) == WithKey(xs, key, k)
  {
    if xs != [] {
      var rest := SortDesc(xs[1..], key);
      SortDescSpec(xs[1..], key);
      InsertPerm(xs[0], rest, key);
      InsertDescending(xs[0], rest, key);
      assert xs == [xs[0]] + xs[1..];
      forall k ensures WithKey(SortDesc(xs, key), key, k) == WithKey(xs, key, k) {
        if key(xs[0]) == k {
          InsertSameKey(xs[0], rest, key);
        } else {
          InsertOtherKey(xs[0], rest, key, k);
        }
      }
    }
  }

  /** Sorting a list that is already in non-increasing order changes
      nothing. */
  lemma {:induction false} SortDescSorted<T>(xs: seq<T>, key: T -> int)
    requires Descending(xs, key)
    ensures SortDesc(xs, key) == xs
  {
    if xs != [] {
      DescendingTail(xs, key);
      SortDescSorted(xs[1..], key);
    }
  }
}
