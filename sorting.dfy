/**
 * Stable sorting by an integer key, as `Array.prototype.sort` does with a comparator
 * `(a, b) => key(a) - key(b)` (the sort is stable since ECMAScript 2019). A descending
 * comparator `(a, b) => key(b) - key(a)` is the same sort on the negated key.
 */
module Sorting {

  /** `s` is in ascending order of `key`. */
  ghost predicate SortedBy<T>(s: seq<T>, key: T -> int) {
    forall i, j :: 0 <= i < j < |s| ==> key(s[i]) <= key(s[j])
  }

  /** The elements of `s` whose key is `k`, in their order in `s`. */
  function WithKey<T>(s: seq<T>, key: T -> int, k: int): seq<T> {
    if s == [] then []
    else (if key(s[0]) == k then [s[0]] else []) + WithKey(s[1..], key, k)
  }

  /** Insert `x` before the first element whose key is not smaller. */
  function Insert<T>(x: T, s: seq<T>, key: T -> int): (r: seq<T>)
    ensures multiset(r) == multiset(s) + multiset{x}
    ensures |r| == |s| + 1
  {
    if s == [] then [x]
    else if key(x) <= key(s[0]) then [x] + s
    else
      assert s == [s[0]] + s[1..];
      [s[0]] + Insert(x, s[1..], key)
  }

  /** `y` in front of a sorted sequence of keys no smaller keeps it sorted. */
  lemma ConsSorted<T>(y: T, rest: seq<T>, key: T -> int)
    requires SortedBy(rest, key)
    requires forall z :: z in rest ==> key(y) <= key(z)
    ensures SortedBy([y] + rest, key)
  {
    var r := [y] + rest;
    forall i, j | 0 <= i < j < |r| ensures key(r[i]) <= key(r[j]) {
      assert r[j] == rest[j - 1];
      if i > 0 {
        assert r[i] == rest[i - 1];
      }
    }
  }

  lemma {:induction false} InsertSorted<T>(x: T, s: seq<T>, key: T -> int)
    requires SortedBy(s, key)
    ensures SortedBy(Insert(x, s, key), key)
    decreases |s|, 1
  {
    if s == [] {
      assert Insert(x, s, key) == [x];
    } else if key(x) <= key(s[0]) {
      assert Insert(x, s, key) == [x] + s;
      ConsSorted(x, s, key);
    } else {
      InsertSortedStep(x, s, key);
    }
  }

  lemma {:induction false} InsertSortedStep<T>(x: T, s: seq<T>, key: T -> int)
    requires SortedBy(s, key) && s != [] && key(s[0]) < key(x)
    ensures SortedBy(Insert(x, s, key), key)
    decreases |s|, 0
  {
    var rest := Insert(x, s[1..], key);
    InsertSorted(x, s[1..], key);
    forall y | y in rest ensures key(s[0]) <= key(y) {
      assert y in multiset(rest);
      assert y == x || y in multiset(s[1..]);
    }
    assert Insert(x, s, key) == [s[0]] + rest;
    ConsSorted(s[0], rest, key);
  }

  /** Insertion sort: a stable sort by ascending key. */
  function SortBy<T>(s: seq<T>, key: T -> int): (r: seq<T>)
    ensures multiset(r) == multiset(s)
    ensures |r| == |s|
    ensures SortedBy(r, key)
  {
    if s == [] then []
    else
      assert s == [s[0]] + s[1..];
      InsertSorted(s[0], SortBy(s[1..], key), key);
      Insert(s[0], SortBy(s[1..], key), key)
  }

  lemma {:induction false} WithKeyAppend<T>(a: seq<T>, b: seq<T>, key: T -> int, k: int)
    ensures WithKey(a + b, key, k) == WithKey(a, key, k) + WithKey(b, key, k)
  {
    if a == [] {
      assert a + b == b;
    } else {
      var head := if key(a[0]) == k then [a[0]] else [];
      assert (a + b)[0] == a[0] && (a + b)[1..] == a[1..] + b;
      assert WithKey(a + b, key, k) == head + WithKey(a[1..] + b, key, k);
      assert WithKey(a, key, k) == head + WithKey(a[1..], key, k);
      WithKeyAppend(a[1..], b, key, k);
    }
  }

  lemma WithKeyCons<T>(y: T, t: seq<T>, key: T -> int, k: int)
    ensures WithKey([y] + t, key, k) == (if key(y) == k then [y] else []) + WithKey(t, key, k)
  {
    assert ([y] + t)[1..] == t;
  }

  /** Inserting `x` keeps the relative order of the elements that tie with it. */
  lemma {:induction false} InsertKeepsTies<T>(x: T, s: seq<T>, key: T -> int, k: int)
    ensures WithKey(Insert(x, s, key), key, k)
         == (if key(x) == k then [x] else []) + WithKey(s, key, k)
  {
    if s == [] {
      assert Insert(x, s, key) == [x] + [];
      WithKeyCons(x, [], key, k);
    } else if key(x) <= key(s[0]) {
      assert Insert(x, s, key) == [x] + s;
      WithKeyCons(x, s, key, k);
    } else {
      var rest := Insert(x, s[1..], key);
      assert Insert(x, s, key) == [s[0]] + rest;
      InsertKeepsTies(x, s[1..], key, k);
      WithKeyCons(s[0], rest, key, k);
      WithKeyCons(s[0], s[1..], key, k);
      assert s == [s[0]] + s[1..];
    }
  }

  /**
   * The sort is stable: the elements sharing any one key value appear in the result
   * in the same order as in the input.
   */
  lemma {:induction false} SortByIsStable<T>(s: seq<T>, key: T -> int, k: int)
    ensures WithKey(SortBy(s, key), key, k) == WithKey(s, key, k)
  {
    if s != [] {
      SortByIsStable(s[1..], key, k);
      InsertKeepsTies(s[0], SortBy(s[1..], key), key, k);
    }
  }

  /** A sequence already in order is left as it is. */
  lemma {:induction false} SortBySorted<T>(s: seq<T>, key: T -> int)
    requires SortedBy(s, key)
    ensures SortBy(s, key) == s
  {
    if s != [] {
      SortBySorted(s[1..], key);
      assert SortBy(s[1..], key) == s[1..];
      if |s| > 1 {
        assert key(s[0]) <= key(s[1]);
      }
      assert s == [s[0]] + s[1..];
    }
  }
}
