/**
 * Keeping the first element per key, as a `Map` filled with
 * `if (!m.has(key(x))) m.set(key(x), x)` does, and its special case
 * `Array.from(new Set(xs))`, where the key is the element itself.
 */
module Unique {

  predicate KeyIn<T, K(==)>(xs: seq<T>, key: T -> K, k: K) {
    exists i :: 0 <= i < |xs| && key(xs[i]) == k
  }

  predicate DistinctKeys<T, K(==)>(xs: seq<T>, key: T -> K) {
    forall i, j :: 0 <= i < j < |xs| ==> key(xs[i]) != key(xs[j])
  }

  /** Every key of `ys` is a key of `xs` when `ys` holds no element `xs` lacks. */
  lemma KeysIncluded<T, K>(xs: seq<T>, ys: seq<T>, key: T -> K, k: K)
    requires multiset(ys) <= multiset(xs)
    requires KeyIn(ys, key, k)
    ensures KeyIn(xs, key, k)
  {
    var i :| 0 <= i < |ys| && key(ys[i]) == k;
    assert ys[i] in multiset(xs);
    var j :| 0 <= j < |xs| && xs[j] == ys[i];
  }

  /** The position of the first element whose key is `k`. */
  function FirstWith<T, K(==)>(xs: seq<T>, key: T -> K, k: K): (n: nat)
    requires KeyIn(xs, key, k)
    ensures n < |xs| && key(xs[n]) == k
    ensures forall i :: 0 <= i < n ==> key(xs[i]) != k
  {
    if key(xs[0]) == k then 0
    else
      assert KeyIn(xs[1..], key, k) by {
        var i :| 0 <= i < |xs| && key(xs[i]) == k;
        assert xs[1..][i - 1] == xs[i];
      }
      var n := FirstWith(xs[1..], key, k);
      assert forall i :: 1 <= i <= n ==> xs[i] == xs[1..][i - 1];
      n + 1
  }

  /** The first element for each key, in the order the keys first appear. */
  function KeepFirst<T, K(==)>(xs: seq<T>, key: T -> K): seq<T> {
    if xs == [] then []
    else
      var p := KeepFirst(xs[..|xs| - 1], key);
      if KeyIn(p, key, key(xs[|xs| - 1])) then p else p + [xs[|xs| - 1]]
  }

  lemma FirstWithPrefix<T, K>(xs: seq<T>, key: T -> K, n: nat, k: K)
    requires n <= |xs| && KeyIn(xs[..n], key, k)
    ensures KeyIn(xs, key, k) && FirstWith(xs, key, k) == FirstWith(xs[..n], key, k)
  {
    var m := FirstWith(xs[..n], key, k);
    assert xs[m] == xs[..n][m];
    assert forall i :: 0 <= i < m ==> xs[i] == xs[..n][i];
  }

  lemma {:induction false} KeepFirstKeys<T, K>(xs: seq<T>, key: T -> K, k: K)
    ensures KeyIn(KeepFirst(xs, key), key, k) <==> KeyIn(xs, key, k)
    decreases |xs|
  {
    if xs != [] {
      var n := |xs| - 1;
      var p := KeepFirst(xs[..n], key);
      KeepFirstKeys(xs[..n], key, k);
      assert xs == xs[..n] + [xs[n]];
      if KeyIn(xs, key, k) && !KeyIn(xs[..n], key, k) {
        assert key(xs[n]) == k;
      }
      if !KeyIn(p, key, key(xs[n])) {
        assert (p + [xs[n]])[|p|] == xs[n];
        assert forall i :: 0 <= i < |p| ==> (p + [xs[n]])[i] == p[i];
      }
    }
  }

  /**
   * The kept list has one element per key, every key of the input, the element that
   * came first for its key, and the keys in the order they first appear.
   */
  lemma KeepFirstSpec<T, K>(xs: seq<T>, key: T -> K)
    ensures DistinctKeys(KeepFirst(xs, key), key)
    ensures forall k :: KeyIn(KeepFirst(xs, key), key, k) <==> KeyIn(xs, key, k)
    ensures forall i :: 0 <= i < |KeepFirst(xs, key)| ==>
      KeyIn(xs, key, key(KeepFirst(xs, key)[i])) &&
      KeepFirst(xs, key)[i] == xs[FirstWith(xs, key, key(KeepFirst(xs, key)[i]))]
    ensures forall i, j :: 0 <= i < j < |KeepFirst(xs, key)| ==>
      KeyIn(xs, key, key(KeepFirst(xs, key)[i])) && KeyIn(xs, key, key(KeepFirst(xs, key)[j])) &&
      FirstWith(xs, key, key(KeepFirst(xs, key)[i])) < FirstWith(xs, key, key(KeepFirst(xs, key)[j]))
  {
    forall k ensures KeyIn(KeepFirst(xs, key), key, k) <==> KeyIn(xs, key, k) {
      KeepFirstKeys(xs, key, k);
    }
    KeptFirstsHold(xs, key);
  }

  /** `r` has distinct keys, each the first element of `xs` with its key, in first-appearance order. */
  ghost predicate KeptFirsts<T, K>(xs: seq<T>, key: T -> K, r: seq<T>) {
    DistinctKeys(r, key) &&
    (forall i :: 0 <= i < |r| ==> KeyIn(xs, key, key(r[i])) && r[i] == xs[FirstWith(xs, key, key(r[i]))]) &&
    (forall i, j :: 0 <= i < j < |r| ==>
      KeyIn(xs, key, key(r[i])) && KeyIn(xs, key, key(r[j])) &&
      FirstWith(xs, key, key(r[i])) < FirstWith(xs, key, key(r[j])))
  }

  lemma {:induction false} KeptFirstsHold<T, K>(xs: seq<T>, key: T -> K)
    ensures KeptFirsts(xs, key, KeepFirst(xs, key))
    decreases |xs|
  {
    if xs != [] {
      var n := |xs| - 1;
      var p := KeepFirst(xs[..n], key);
      KeptFirstsHold(xs[..n], key);
      KeptFirstsPrefix(xs, key, n, p);
      if !KeyIn(p, key, key(xs[n])) {
        KeepFirstKeys(xs[..n], key, key(xs[n]));
        KeptFirstsAppend(xs, key, p);
      }
    }
  }

  /** What holds of the kept elements of a prefix holds of them in the whole sequence. */
  lemma KeptFirstsPrefix<T, K>(xs: seq<T>, key: T -> K, n: nat, p: seq<T>)
    requires n <= |xs| && KeptFirsts(xs[..n], key, p)
    ensures KeptFirsts(xs, key, p)
  {
    forall i | 0 <= i < |p|
      ensures KeyIn(xs, key, key(p[i])) && FirstWith(xs, key, key(p[i])) == FirstWith(xs[..n], key, key(p[i]))
    {
      FirstWithPrefix(xs, key, n, key(p[i]));
    }
  }

  /** The last element, when its key is new, is kept after all the others. */
  lemma KeptFirstsAppend<T, K>(xs: seq<T>, key: T -> K, p: seq<T>)
    requires xs != [] && KeptFirsts(xs, key, p)
    requires !KeyIn(p, key, key(xs[|xs| - 1])) && !KeyIn(xs[..|xs| - 1], key, key(xs[|xs| - 1]))
    ensures KeptFirsts(xs, key, p + [xs[|xs| - 1]])
  {
    var n := |xs| - 1;
    var r := p + [xs[n]];
    assert KeyIn(xs, key, key(xs[n])) by { assert key(xs[n]) == key(xs[n]); }
    assert forall i :: 0 <= i < n ==> xs[..n][i] == xs[i];
    assert FirstWith(xs, key, key(xs[n])) == n;
    forall i | 0 <= i < |p|
      ensures FirstWith(xs, key, key(p[i])) < n
    {
      assert key(p[i]) != key(xs[n]);
    }
    forall i | 0 <= i < |r|
      ensures KeyIn(xs, key, key(r[i])) && r[i] == xs[FirstWith(xs, key, key(r[i]))]
    {
      if i < |p| {
        assert r[i] == p[i];
      }
    }
    forall i, j | 0 <= i < j < |r|
      ensures key(r[i]) != key(r[j])
      ensures FirstWith(xs, key, key(r[i])) < FirstWith(xs, key, key(r[j]))
    {
      if j == |r| - 1 {
        assert r[i] == p[i];
      } else {
        assert r[i] == p[i] && r[j] == p[j];
      }
    }
  }

  predicate NoDuplicates<T(==)>(xs: seq<T>) {
    forall i, j :: 0 <= i < j < |xs| ==> xs[i] != xs[j]
  }

  function Itself<T>(x: T): T { x }

  /** `Array.from(new Set(xs))` */
  function Dedupe<T(==)>(xs: seq<T>): seq<T> {
    KeepFirst(xs, Itself)
  }

  /** The deduplicated list has no repeats, the same elements, and the first-occurrence order. */
  lemma DedupeSpec<T>(xs: seq<T>)
    ensures NoDuplicates(Dedupe(xs))
    ensures forall x :: x in Dedupe(xs) <==> x in xs
    ensures forall i, j :: 0 <= i < j < |Dedupe(xs)| ==>
      KeyIn(xs, Itself, Dedupe(xs)[i]) && KeyIn(xs, Itself, Dedupe(xs)[j]) &&
      FirstWith(xs, Itself, Dedupe(xs)[i]) < FirstWith(xs, Itself, Dedupe(xs)[j])
  {
    KeepFirstSpec(xs, Itself);
    var d := Dedupe(xs);
    forall x ensures x in d <==> x in xs {
      assert KeyIn(d, Itself, x) <==> KeyIn(xs, Itself, x);
      if x in d {
        var i :| 0 <= i < |d| && d[i] == x;
        assert Itself(d[i]) == x;
      }
      if x in xs {
        var i :| 0 <= i < |xs| && xs[i] == x;
        assert Itself(xs[i]) == x;
      }
    }
  }

  /** Keeping the first per key changes nothing when the keys are already distinct. */
  lemma {:induction false} KeepFirstOfDistinct<T, K>(xs: seq<T>, key: T -> K)
    requires DistinctKeys(xs, key)
    ensures KeepFirst(xs, key) == xs
    decreases |xs|
  {
    if xs != [] {
      var n := |xs| - 1;
      assert DistinctKeys(xs[..n], key);
      KeepFirstOfDistinct(xs[..n], key);
      assert !KeyIn(xs[..n], key, key(xs[n])) by {
        forall i | 0 <= i < n ensures key(xs[..n][i]) != key(xs[n]) {
          assert xs[..n][i] == xs[i];
        }
      }
      assert xs == xs[..n] + [xs[n]];
    }
  }

  /** A list without repeats is its own `Array.from(new Set(...))`. */
  lemma DedupeOfDistinct<T>(xs: seq<T>)
    requires NoDuplicates(xs)
    ensures Dedupe(xs) == xs
  {
    KeepFirstOfDistinct(xs, Itself);
  }
}
