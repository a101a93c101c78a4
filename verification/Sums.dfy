/** Finite sums over sets of row identifiers, the meaning of SQL's COALESCE(SUM(..), 0). */
module Sums {

  predicate IsLeast(s: set<nat>, x: nat) {
    x in s && forall y :: y in s ==> x <= y
  }

  lemma {:induction false} LeastExists(s: set<nat>)
    requires s != {}
    ensures exists x :: IsLeast(s, x)
  {
    var x :| x in s;
    if s == {x} {
      assert IsLeast(s, x);
    } else {
      LeastExists(s - {x});
      var m :| IsLeast(s - {x}, m);
      assert s == (s - {x}) + {x};
      assert IsLeast(s, if x <= m then x else m);
    }
  }

  function Least(s: set<nat>): (x: nat)
    requires s != {}
    ensures IsLeast(s, x)
  {
    LeastExists(s);
    var x :| IsLeast(s, x);
    x
  }

  function Sum(s: set<nat>, f: nat -> int): int
    decreases |s|
  {
    if s == {} then 0 else var x := Least(s); f(x) + Sum(s - {x}, f)
  }

  lemma {:induction false} SumRemove(s: set<nat>, f: nat -> int, x: nat)
    requires x in s
    ensures Sum(s, f) == f(x) + Sum(s - {x}, f)
    decreases |s|
  {
    var m := Least(s);
    if x != m {
      var t := s - {x};
      assert m in t;
      assert Least(t) == m;
      assert s - {m} - {x} == t - {m};
      SumRemove(s - {m}, f, x);
    }
  }

  lemma {:induction false} SumAgree(s: set<nat>, f: nat -> int, g: nat -> int)
    requires forall x :: x in s ==> f(x) == g(x)
    ensures Sum(s, f) == Sum(s, g)
    decreases |s|
  {
    if s != {} {
      SumAgree(s - {Least(s)}, f, g);
    }
  }

  lemma {:induction false} SumUnion(s: set<nat>, t: set<nat>, f: nat -> int)
    requires s !! t
    ensures Sum(s + t, f) == Sum(s, f) + Sum(t, f)
    decreases |s|
  {
    if s == {} {
      assert s + t == t;
    } else {
      var x := Least(s);
      assert (s + t) - {x} == (s - {x}) + t;
      SumRemove(s + t, f, x);
      SumUnion(s - {x}, t, f);
    }
  }
}
