/** What every module shares: optional values, row identifiers, lists without repetition. */
module Basics {

  datatype Option<+T> = None | Some(value: T)

  /** A primary key, or anything else that only identifies. */
  type Id = nat

  /** A key no row has, as uuid4 gives. */
  ghost predicate Generates<V(!new)>(newId: map<Id, V> -> Id) {
    forall rows :: newId(rows) !in rows
  }

  function Min(a: int, b: int): int {
    if a <= b then a else b
  }

  ghost predicate NoRepeats<T>(xs: seq<T>) {
    forall i, j :: 0 <= i < j < |xs| ==> xs[i] != xs[j]
  }

  lemma SomethingListed<T>(xs: seq<T>)
    ensures xs == [] || exists x :: x in xs
  {
    if xs != [] { assert xs[0] in xs; }
  }

  ghost function Elements<T>(xs: seq<T>): set<T> {
    set x | x in xs
  }

  lemma SubsetSize<T>(a: set<T>, b: set<T>)
    requires a <= b
    ensures |a| <= |b|
    ensures |a| == |b| ==> a == b
  {
    assert b == a + (b - a);
    assert |b| == |a| + |b - a|;
    if |a| == |b| {
      assert b - a == {};
    }
  }

  lemma {:induction false} ElementsSize<T>(xs: seq<T>)
    requires NoRepeats(xs)
    ensures |Elements(xs)| == |xs|
    decreases |xs|
  {
    if xs == [] {
      assert Elements(xs) == {};
    } else {
      var n := |xs| - 1;
      ElementsSize(xs[..n]);
      assert xs == xs[..n] + [xs[n]];
      assert Elements(xs) == Elements(xs[..n]) + {xs[n]};
      assert xs[n] !in Elements(xs[..n]);
    }
  }

  /** An injective image has as many elements. */
  lemma {:induction false} ImageSize<T(!new), U(!new)>(s: set<T>, f: T -> U, image: set<U>)
    requires forall x, y :: x in s && y in s && f(x) == f(y) ==> x == y
    requires forall u :: u in image <==> exists x :: x in s && f(x) == u
    ensures |image| == |s|
    decreases |s|
  {
    if s == {} {
      assert image == {};
    } else {
      var x :| x in s;
      var rest, others := s - {x}, image - {f(x)};
      forall u ensures u in others <==> exists y :: y in rest && f(y) == u {
        if u in others {
          var y :| y in s && f(y) == u;
          assert y in rest;
        }
      }
      ImageSize(rest, f, others);
      assert f(x) in image;
    }
  }

  /** Leaving out one place. */
  lemma LastPlace(places: set<nat>, n: nat)
    ensures |places| == |places - {n}| + if n in places then 1 else 0
  {
    if n in places {
      assert places == places - {n} + {n};
    } else {
      assert places == places - {n};
    }
  }
}
