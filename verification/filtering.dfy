/** `xs.filter(x => x !== a && x !== b ...)`: dropping every occurrence of a
    set of values from a list while keeping the rest in order. */
module Filtering {

  function RemoveAll<T(!new)>(xs: seq<T>, drop: set<T>): (r: seq<T>)
    ensures forall x :: x in r <==> x in xs && x !in drop
    ensures |r| <= |xs|
    ensures forall x :: x !in drop ==> multiset(r)[x] == multiset(xs)[x]
  {
    if xs == [] then []
    else
      var rest := RemoveAll(xs[1..], drop);
      assert xs == [xs[0]] + xs[1..];
      if xs[0] in drop then rest else [xs[0]] + rest
  }

  /** Filtering distributes over concatenation: what survives of `a + b` is
      what survives of `a` followed by what survives of `b`, so survivors keep
      their original relative order. */
  lemma {:induction false} RemoveAllAppend<T(!new)>(a: seq<T>, b: seq<T>, drop: set<T>)
    ensures RemoveAll(a + b, drop) == RemoveAll(a, drop) + RemoveAll(b, drop)
  {
    if a == [] {
      assert a + b == b;
    } else {
      assert (a + b)[0] == a[0];
      assert (a + b)[1..] == a[1..] + b;
      RemoveAllAppend(a[1..], b, drop);
    }
  }

  /** A list none of whose elements is dropped comes back unchanged. */
  lemma {:induction false} RemoveAllNothingToDrop<T(!new)>(xs: seq<T>, drop: set<T>)
    requires forall i :: 0 <= i < |xs| ==> xs[i] !in drop
    ensures RemoveAll(xs, drop) == xs
  {
    if xs != [] {
      RemoveAllNothingToDrop(xs[1..], drop);
    }
  }

  /** Filtering twice with the same predicate is filtering once. */
  lemma {:induction false} RemoveAllIdempotent<T(!new)>(xs: seq<T>, drop: set<T>)
    ensures RemoveAll(RemoveAll(xs, drop), drop) == RemoveAll(xs, drop)
  {
    var r := RemoveAll(xs, drop);
    forall i | 0 <= i < |r|
      ensures r[i] !in drop
    {
      assert r[i] in r;
    }
    RemoveAllNothingToDrop(r, drop);
  }
}
