/**
 * `Array.prototype.sort` with a comparator of the form `(a, b) => key(b) - key(a)`:
 * a stable sort, largest key first. Stated as insertion sort; the lemmas say it
 * orders, permutes and keeps equal keys in their original order.
 */
module Sorting {
  import opened Unique

  predicate SortedDesc<T>(xs: seq<T>, key: T -> int) {
    forall i, j :: 0 <= i < j < |xs| ==> key(xs[i]) >= key(xs[j])
  }

  /** Puts `x` before the first element whose key is not larger than its own. */
  function Insert<T>(x: T, ys: seq<T>, key: T -> int): (r: seq<T>)
    ensures |r| == |ys| + 1
    ensures multiset(r) == multiset(ys) + multiset{x}
  {
    if ys == [] || key(ys[0]) <= key(x) then [x] + ys
    else
      assert ys == [ys[0]] + ys[1..];
      [ys[0]] + Insert(x, ys[1..], key)
  }

  function SortDesc<T>(xs: seq<T>, key: T -> int): (r: seq<T>)
    ensures |r| == |xs|
    ensures multiset(r) == multiset(xs)
  {
    if xs == [] then []
    else
      assert xs == [xs[0]] + xs[1..];
      Insert(xs[0], SortDesc(xs[1..], key), key)
  }

  lemma {:induction false} InsertSorted<T>(x: T, ys: seq<T>, key: T -> int)
    requires SortedDesc(ys, key)
    ensures SortedDesc(Insert(x, ys, key), key)
    decreases |ys|
  {
    if ys != [] && key(ys[0]) > key(x) {
      InsertSorted(x, ys[1..], key);
      var r := Insert(x, ys, key);
      var t := Insert(x, ys[1..], key);
      assert r == [ys[0]] + t;
      forall j | 0 < j < |r|
        ensures key(r[0]) >= key(r[j])
      {
        assert r[j] in multiset(t);
        assert r[j] in multiset(ys[1..]) + multiset{x};
        if r[j] != x {
          assert r[j] in ys[1..];
        }
      }
    }
  }

  /** The sorted list is ordered and is a permutation of the input. */
  lemma {:induction false} SortDescSorted<T>(xs: seq<T>, key: T -> int)
    ensures SortedDesc(SortDesc(xs, key), key)
    ensures multiset(SortDesc(xs, key)) == multiset(xs)
    decreases |xs|
  {
    if xs != [] {
      SortDescSorted(xs[1..], key);
      InsertSorted(xs[0], SortDesc(xs[1..], key), key);
    }
  }

  /** The elements whose key is `k`, in order. */
  function WithKey<T>(xs: seq<T>, key: T -> int, k: int): seq<T> {
    if xs == [] then []
    else (if key(xs[0]) == k then [xs[0]] else []) + WithKey(xs[1..], key, k)
  }

  lemma {:induction false} InsertWithKey<T>(x: T, ys: seq<T>, key: T -> int, k: int)
    ensures WithKey(Insert(x, ys, key), key, k) ==
      (if key(x) == k then [x] else []) + WithKey(ys, key, k)
    decreases |ys|
  {
    var r := Insert(x, ys, key);
    if ys == [] || key(ys[0]) <= key(x) {
      assert r[1..] == ys;
    } else {
      InsertWithKey(x, ys[1..], key, k);
      assert r[1..] == Insert(x, ys[1..], key);
      assert key(ys[0]) != k || key(x) != k;
    }
  }

  /** Stability: elements with equal keys keep their relative order. */
  lemma {:induction false} SortDescStable<T>(xs: seq<T>, key: T -> int, k: int)
    ensures WithKey(SortDesc(xs, key), key, k) == WithKey(xs, key, k)
    decreases |xs|
  {
    if xs != [] {
      SortDescStable(xs[1..], key, k);
      InsertWithKey(xs[0], SortDesc(xs[1..], key), key, k);
    }
  }

  lemma InSortDesc<T>(xs: seq<T>, key: T -> int, i: nat)
    requires i < |SortDesc(xs, key)|
    ensures SortDesc(xs, key)[i] in xs
  {
    assert SortDesc(xs, key)[i] in multiset(SortDesc(xs, key));
  }

  /** Inserting an element whose key is new keeps the keys distinct. */
  lemma {:induction false} InsertDistinct<T, K>(x: T, ys: seq<T>, sortKey: T -> int, key: T -> K)
    requires DistinctKeys(ys, key) && !KeyIn(ys, key, key(x))
    ensures DistinctKeys(Insert(x, ys, sortKey), key)
    decreases |ys|
  {
    var r := Insert(x, ys, sortKey);
    if ys == [] || sortKey(ys[0]) <= sortKey(x) {
      assert r == [x] + ys;
      forall i, j | 0 <= i < j < |r| ensures key(r[i]) != key(r[j]) {
        assert r[j] == ys[j - 1];
        if i > 0 { assert r[i] == ys[i - 1]; }
      }
    } else {
      var t := Insert(x, ys[1..], sortKey);
      assert r == [ys[0]] + t;
      assert DistinctKeys(ys[1..], key) by {
        forall i, j | 0 <= i < j < |ys[1..]| ensures key(ys[1..][i]) != key(ys[1..][j]) {
          assert ys[1..][i] == ys[i + 1] && ys[1..][j] == ys[j + 1];
        }
      }
      assert !KeyIn(ys[1..], key, key(x)) by {
        forall i | 0 <= i < |ys[1..]| ensures key(ys[1..][i]) != key(x) {
          assert ys[1..][i] == ys[i + 1];
        }
      }
      InsertDistinct(x, ys[1..], sortKey, key);
      forall j | 0 < j < |r| ensures key(r[0]) != key(r[j]) {
        assert r[j] == t[j - 1];
        assert t[j - 1] in multiset(ys[1..]) + multiset{x};
        if t[j - 1] != x {
          var m :| 0 <= m < |ys[1..]| && ys[1..][m] == t[j - 1];
          assert ys[m + 1] == t[j - 1];
        }
      }
      forall i, j | 0 <= i < j < |r| ensures key(r[i]) != key(r[j]) {
        if i > 0 { assert r[i] == t[i - 1] && r[j] == t[j - 1]; }
      }
    }
  }

  /** Sorting keeps distinct keys distinct. */
  lemma {:induction false} SortDescDistinct<T, K>(xs: seq<T>, sortKey: T -> int, key: T -> K)
    requires DistinctKeys(xs, key)
    ensures DistinctKeys(SortDesc(xs, sortKey), key)
    decreases |xs|
  {
    if xs != [] {
      var rest := xs[1..];
      assert DistinctKeys(rest, key) by {
        forall i, j | 0 <= i < j < |rest| ensures key(rest[i]) != key(rest[j]) {
          assert rest[i] == xs[i + 1] && rest[j] == xs[j + 1];
        }
      }
      SortDescDistinct(rest, sortKey, key);
      var s := SortDesc(rest, sortKey);
      assert !KeyIn(s, key, key(xs[0])) by {
        forall i | 0 <= i < |s| ensures key(s[i]) != key(xs[0]) {
          InSortDesc(rest, sortKey, i);
          var m :| 0 <= m < |rest| && rest[m] == s[i];
          assert xs[m + 1] == s[i];
        }
      }
      InsertDistinct(xs[0], s, sortKey, key);
    }
  }
}
