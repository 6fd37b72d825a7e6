/**
 * The id-keyed list operations the client stores share:
 * `xs.filter(x => x.id !== k)`, `xs.map(x => x.id === k ? f(x) : x)` and
 * `xs.find(x => x.id === k)`, for any record type with an `id` projection.
 */
module Keyed {
  import opened Common
  import opened Unique

  /** `xs.filter(x => id(x) !== k)` */
  function RemoveKey<T>(xs: seq<T>, id: T -> string, k: string): (r: seq<T>)
    ensures |r| <= |xs|
    ensures forall i :: 0 <= i < |r| ==> id(r[i]) != k
    ensures forall i :: 0 <= i < |r| ==> r[i] in xs
    ensures forall i :: 0 <= i < |xs| && id(xs[i]) != k ==> xs[i] in r
  {
    if xs == [] then []
    else
      var rest := RemoveKey(xs[1..], id, k);
      assert forall i :: 1 <= i < |xs| ==> xs[i] == xs[1..][i - 1];
      if id(xs[0]) == k then rest else [xs[0]] + rest
  }

  /** Removal works element by element, so the survivors keep their order. */
  lemma {:induction false} RemoveKeyAppend<T>(a: seq<T>, b: seq<T>, id: T -> string, k: string)
    ensures RemoveKey(a + b, id, k) == RemoveKey(a, id, k) + RemoveKey(b, id, k)
    decreases |a|
  {
    if a != [] {
      assert (a + b)[0] == a[0] && (a + b)[1..] == a[1..] + b;
      RemoveKeyAppend(a[1..], b, id, k);
      var ra, rb := RemoveKey(a[1..], id, k), RemoveKey(b, id, k);
      if id(a[0]) != k {
        assert [a[0]] + (ra + rb) == ([a[0]] + ra) + rb;
      }
    } else {
      assert a + b == b;
    }
  }

  /** A list without the key is left as it is. */
  lemma {:induction false} RemoveKeyAbsent<T>(xs: seq<T>, id: T -> string, k: string)
    requires !KeyIn(xs, id, k)
    ensures RemoveKey(xs, id, k) == xs
    decreases |xs|
  {
    if xs != [] {
      assert id(xs[0]) != k;
      assert !KeyIn(xs[1..], id, k) by {
        forall i | 0 <= i < |xs[1..]| ensures id(xs[1..][i]) != k {
          assert xs[1..][i] == xs[i + 1];
        }
      }
      RemoveKeyAbsent(xs[1..], id, k);
    }
  }

  lemma RemoveKeyIdempotent<T>(xs: seq<T>, id: T -> string, k: string)
    ensures RemoveKey(RemoveKey(xs, id, k), id, k) == RemoveKey(xs, id, k)
  {
    RemoveKeyAbsent(RemoveKey(xs, id, k), id, k);
  }

  /** `xs.map(x => id(x) === k ? f(x) : x)` */
  function MapKey<T>(xs: seq<T>, id: T -> string, k: string, f: T -> T): (r: seq<T>)
    ensures |r| == |xs|
    ensures forall i :: 0 <= i < |xs| && id(xs[i]) != k ==> r[i] == xs[i]
    ensures forall i :: 0 <= i < |xs| && id(xs[i]) == k ==> r[i] == f(xs[i])
  {
    if xs == [] then []
    else
      var rest := MapKey(xs[1..], id, k, f);
      (if id(xs[0]) == k then [f(xs[0])] else [xs[0]]) + rest
  }

  /** `xs.find(x => id(x) === k)`: the first element with the key, if any. */
  function FindKey<T>(xs: seq<T>, id: T -> string, k: string): (r: Option<T>)
    ensures r.None? <==> !KeyIn(xs, id, k)
    ensures r.Some? ==>
      exists i :: (0 <= i < |xs| && xs[i] == r.value && id(xs[i]) == k &&
        forall j :: 0 <= j < i ==> id(xs[j]) != k)
  {
    if xs == [] then None
    else if id(xs[0]) == k then Some(xs[0])
    else
      var r := FindKey(xs[1..], id, k);
      assert KeyIn(xs, id, k) ==> KeyIn(xs[1..], id, k) by {
        if KeyIn(xs, id, k) {
          var i :| 0 <= i < |xs| && id(xs[i]) == k;
          assert xs[1..][i - 1] == xs[i];
        }
      }
      if r.Some? then
        assert exists i :: (0 <= i < |xs| && xs[i] == r.value && id(xs[i]) == k &&
          forall j :: 0 <= j < i ==> id(xs[j]) != k) by {
          var i :| 0 <= i < |xs[1..]| && xs[1..][i] == r.value && id(xs[1..][i]) == k &&
            (forall j :: 0 <= j < i ==> id(xs[1..][j]) != k);
          forall j | 0 <= j < i + 1 ensures id(xs[j]) != k {
            if j > 0 { assert xs[j] == xs[1..][j - 1]; }
          }
          assert xs[i + 1] == r.value;
        }
        r
      else r
  }

  /** Lookup after removing a key finds nothing under it. */
  lemma FindAfterRemove<T>(xs: seq<T>, id: T -> string, k: string)
    ensures FindKey(RemoveKey(xs, id, k), id, k) == None
  {
  }
}
