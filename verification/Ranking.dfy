/**
 ROW_NUMBER() OVER (PARTITION BY group ORDER BY day, created_at, id) and the
 rank-to-rank join that both pairing queries perform.  A record's rank is the
 number of records of its own group that precede it, so ROW_NUMBER is Rank + 1.
 */
module Ranking {
  import opened Basics

  /** A row as the window function sees it: its partition and its sort key. */
  datatype Row<G> = Row(id: nat, group: G, day: int, created: int)

  predicate Before<G>(a: Row<G>, b: Row<G>) {
    a.day < b.day
    || (a.day == b.day && (a.created < b.created || (a.created == b.created && a.id < b.id)))
  }

  function Group<G(==)>(side: set<Row<G>>, g: G): set<Row<G>> {
    set r | r in side && r.group == g
  }

  function Earlier<G(==)>(side: set<Row<G>>, r: Row<G>): set<Row<G>> {
    set q | q in side && q.group == r.group && Before(q, r)
  }

  function Rank<G(==)>(side: set<Row<G>>, r: Row<G>): nat {
    |Earlier(side, r)|
  }

  /** The join on equal partition and equal row number. */
  function RankPairs<G(==)>(xs: set<Row<G>>, ys: set<Row<G>>): set<(Row<G>, Row<G>)> {
    set x, y | x in xs && y in ys && x.group == y.group && Rank(xs, x) == Rank(ys, y) :: (x, y)
  }

  // ---- Ranks within one side ----

  lemma RankMonotone<G>(side: set<Row<G>>, a: Row<G>, b: Row<G>)
    requires a in side && b in side && a.group == b.group && Before(a, b)
    ensures Rank(side, a) < Rank(side, b)
  {
    SubsetSize(Earlier(side, a) + {a}, Earlier(side, b));
  }

  lemma RankOrders<G>(side: set<Row<G>>, a: Row<G>, b: Row<G>)
    requires a in side && b in side && a.group == b.group
    ensures Rank(side, a) == Rank(side, b) <==> a == b
    ensures Rank(side, a) < Rank(side, b) <==> Before(a, b)
  {
    if Before(a, b) {
      RankMonotone(side, a, b);
    } else if Before(b, a) {
      RankMonotone(side, b, a);
    } else {
      assert a == b;
    }
  }

  lemma RankBelowGroupSize<G>(side: set<Row<G>>, r: Row<G>)
    requires r in side
    ensures Rank(side, r) < |Group(side, r.group)|
  {
    SubsetSize(Earlier(side, r) + {r}, Group(side, r.group));
  }

  /** Row numbers have no gaps: they are exactly 0 .. size - 1. */
  lemma {:induction false} RankExists<G>(side: set<Row<G>>, g: G, k: nat)
    requires k < |Group(side, g)|
    ensures exists r :: r in side && r.group == g && Rank(side, r) == k
  {
    var last := LastOf(Group(side, g));
    assert Earlier(side, last) == Group(side, g) - {last};
    if Rank(side, last) != k {
      var rest := side - {last};
      assert Group(rest, g) == Group(side, g) - {last};
      RankExists(rest, g, k);
      var r :| r in rest && r.group == g && Rank(rest, r) == k;
      assert r in Group(side, g) && !Before(last, r);
      assert Earlier(rest, r) == Earlier(side, r);
    }
  }

  lemma {:induction false} LastOf<G>(members: set<Row<G>>) returns (last: Row<G>)
    requires members != {}
    requires forall a, b :: a in members && b in members ==> a.group == b.group
    ensures last in members
    ensures forall r :: r in members && r != last ==> Before(r, last)
  {
    last :| last in members;
    if members != {last} {
      var other := LastOf(members - {last});
      ghost var first := last;
      if Before(last, other) {
        last := other;
      }
      forall r | r in members && r != last ensures Before(r, last) {
        assert r == first || r == other || Before(r, other);
      }
    }
  }

  /** Taking one row out lowers by one exactly the ranks that follow it. */
  lemma RankAfterRemoval<G>(side: set<Row<G>>, gone: Row<G>, r: Row<G>)
    requires gone in side
    ensures Rank(side - {gone}, r)
         == if gone.group == r.group && Before(gone, r) then Rank(side, r) - 1 else Rank(side, r)
  {
    if gone.group == r.group && Before(gone, r) {
      assert Earlier(side - {gone}, r) == Earlier(side, r) - {gone};
    } else {
      assert Earlier(side - {gone}, r) == Earlier(side, r);
    }
  }

  // ---- The join ----

  /** The join pairs each row with at most one row of the other side. */
  lemma PairsInjective<G>(xs: set<Row<G>>, ys: set<Row<G>>, p: (Row<G>, Row<G>), q: (Row<G>, Row<G>))
    requires p in RankPairs(xs, ys) && q in RankPairs(xs, ys)
    ensures p.0 == q.0 <==> p.1 == q.1
  {
    if p.0 == q.0 {
      RankOrders(ys, p.1, q.1);
    }
    if p.1 == q.1 {
      RankOrders(xs, p.0, q.0);
    }
  }

  /**
   Removing both halves of one pair leaves every other pair in place: later
   ranks drop by one on both sides together.
   */
  lemma PairsAfterRemoval<G>(xs: set<Row<G>>, ys: set<Row<G>>, x0: Row<G>, y0: Row<G>)
    requires (x0, y0) in RankPairs(xs, ys)
    ensures RankPairs(xs - {x0}, ys - {y0}) == RankPairs(xs, ys) - {(x0, y0)}
  {
    forall x, y | x in xs && y in ys && x.group == y.group && x != x0 && y != y0
      ensures Rank(xs, x) == Rank(ys, y) <==> Rank(xs - {x0}, x) == Rank(ys - {y0}, y)
    {
      RankAfterRemoval(xs, x0, x);
      RankAfterRemoval(ys, y0, y);
      if x.group == x0.group {
        RankOrders(xs, x0, x);
        RankOrders(ys, y0, y);
      }
    }
    forall p | p in RankPairs(xs, ys) && p != (x0, y0)
      ensures p.0 != x0 && p.1 != y0
    {
      PairsInjective(xs, ys, p, (x0, y0));
    }
    assert RankPairs(xs - {x0}, ys - {y0}) <= RankPairs(xs, ys) - {(x0, y0)};
  }

  /** A row is paired iff the other side of its group is longer than its rank. */
  lemma PairedIff<G>(xs: set<Row<G>>, ys: set<Row<G>>, y: Row<G>)
    requires y in ys
    ensures (exists x :: (x, y) in RankPairs(xs, ys)) <==> Rank(ys, y) < |Group(xs, y.group)|
  {
    if exists x :: (x, y) in RankPairs(xs, ys) {
      var x :| (x, y) in RankPairs(xs, ys);
      RankBelowGroupSize(xs, x);
    }
    if Rank(ys, y) < |Group(xs, y.group)| {
      RankExists(xs, y.group, Rank(ys, y));
      var x :| x in xs && x.group == y.group && Rank(xs, x) == Rank(ys, y);
      assert (x, y) in RankPairs(xs, ys);
    }
  }

  lemma PairsSwap<G>(xs: set<Row<G>>, ys: set<Row<G>>, x: Row<G>, y: Row<G>)
    ensures (x, y) in RankPairs(xs, ys) <==> (y, x) in RankPairs(ys, xs)
  {
  }

  function PairsOf<G(==)>(xs: set<Row<G>>, ys: set<Row<G>>, g: G): set<(Row<G>, Row<G>)> {
    set p | p in RankPairs(xs, ys) && p.0.group == g
  }

  /** Whenever two rows of one group are both left, something is paired. */
  lemma SharedGroupIsPaired<G>(xs: set<Row<G>>, ys: set<Row<G>>, x: Row<G>, y: Row<G>)
    requires x in xs && y in ys && x.group == y.group
    ensures PairsOf(xs, ys, x.group) != {}
  {
    assert x in Group(xs, x.group) && y in Group(ys, x.group);
    RankExists(xs, x.group, 0);
    RankExists(ys, x.group, 0);
    var a :| a in xs && a.group == x.group && Rank(xs, a) == 0;
    var b :| b in ys && b.group == x.group && Rank(ys, b) == 0;
    assert (a, b) in PairsOf(xs, ys, x.group);
  }

  /** Each partition yields as many pairs as its shorter side has rows. */
  lemma {:induction false} PairCount<G>(xs: set<Row<G>>, ys: set<Row<G>>, g: G)
    ensures |PairsOf(xs, ys, g)|
         == if |Group(xs, g)| <= |Group(ys, g)| then |Group(xs, g)| else |Group(ys, g)|
    decreases |xs|
  {
    assert forall p :: p in PairsOf(xs, ys, g) ==> p.0 in Group(xs, g) && p.1 in Group(ys, g);
    if Group(xs, g) == {} || Group(ys, g) == {} {
      assert PairsOf(xs, ys, g) == {};
    } else {
      var x :| x in Group(xs, g);
      var y :| y in Group(ys, g);
      SharedGroupIsPaired(xs, ys, x, y);
      var p :| p in PairsOf(xs, ys, g);
      PairsAfterRemoval(xs, ys, p.0, p.1);
      PairCount(xs - {p.0}, ys - {p.1}, g);
      forall q | q in PairsOf(xs, ys, g) && q != p ensures q.0 != p.0 && q.1 != p.1 {
        PairsInjective(xs, ys, p, q);
      }
      assert PairsOf(xs - {p.0}, ys - {p.1}, g) == PairsOf(xs, ys, g) - {p};
      assert Group(xs - {p.0}, g) == Group(xs, g) - {p.0};
      assert Group(ys - {p.1}, g) == Group(ys, g) - {p.1};
    }
  }

  // ---- Bottleneck optimality ----

  ghost predicate Close<G>(a: Row<G>, b: Row<G>, window: int) {
    -window <= a.day - b.day <= window
  }

  /** m matches group g of one side with group g of the other, one to one, every pair within the window. */
  ghost predicate Matching<G(!new)>(xs: set<Row<G>>, ys: set<Row<G>>, g: G, window: int, m: map<Row<G>, Row<G>>) {
    && m.Keys == Group(xs, g) && m.Values == Group(ys, g)
    && (forall x :: x in m ==> Close(x, m[x], window))
    && (forall x, x' :: x in m && x' in m && m[x] == m[x'] ==> x == x')
  }

  lemma {:induction false} InjectiveImageSize<T, U>(s: set<T>, t: set<U>, m: map<T, U>)
    requires s <= m.Keys
    requires forall x :: x in s ==> m[x] in t
    requires forall x, y :: x in s && y in s && m[x] == m[y] ==> x == y
    ensures |s| <= |t|
  {
    if s != {} {
      var x :| x in s;
      InjectiveImageSize(s - {x}, t - {m[x]}, m);
      assert |t - {m[x]}| == |t| - 1;
    }
  }

  lemma MatchingNotSmaller<G(!new)>(xs: set<Row<G>>, ys: set<Row<G>>, g: G, window: int, m: map<Row<G>, Row<G>>)
    requires Matching(xs, ys, g, window, m)
    ensures |Group(xs, g)| <= |Group(ys, g)|
  {
    InjectiveImageSize(Group(xs, g), Group(ys, g), m);
  }

  lemma MatchingSizes<G(!new)>(xs: set<Row<G>>, ys: set<Row<G>>, g: G, window: int, m: map<Row<G>, Row<G>>)
    requires Matching(xs, ys, g, window, m)
    ensures |Group(xs, g)| == |Group(ys, g)|
  {
    MatchingNotSmaller(xs, ys, g, window, m);
    var inv := InverseMatching(xs, ys, g, window, m);
    MatchingNotSmaller(ys, xs, g, window, inv);
  }

  /** The rank partner of x is not more than a window later than x. */
  lemma RankPartnerNotLate<G(!new)>(xs: set<Row<G>>, ys: set<Row<G>>, window: int, m: map<Row<G>, Row<G>>, x: Row<G>, y: Row<G>)
    requires (x, y) in RankPairs(xs, ys)
    requires Matching(xs, ys, x.group, window, m)
    ensures y.day <= x.day + window
  {
    if y.day > x.day + window {
      // x and the rows before it all go to rows strictly before y: one too many.
      var upTo := Earlier(xs, x) + {x};
      assert forall q :: q in upTo ==> q.day <= x.day;
      forall q | q in upTo ensures m[q] in Earlier(ys, y) {
        assert m[q] in m.Values && Close(q, m[q], window);
      }
      InjectiveImageSize(upTo, Earlier(ys, y), m);
    }
  }

  lemma InverseMatching<G(!new)>(xs: set<Row<G>>, ys: set<Row<G>>, g: G, window: int, m: map<Row<G>, Row<G>>)
    returns (inv: map<Row<G>, Row<G>>)
    requires Matching(xs, ys, g, window, m)
    ensures Matching(ys, xs, g, window, inv)
  {
    inv := map y | y in Group(ys, g) :: var x :| x in m && m[x] == y; x;
    forall y | y in inv ensures inv[y] in m && m[inv[y]] == y {}
    forall x | x in Group(xs, g) ensures exists y :: y in inv && inv[y] == x {
      assert m[x] in inv && inv[m[x]] == x;
    }
    forall y | y in inv ensures Close(y, inv[y], window) {
      assert Close(inv[y], m[inv[y]], window);
    }
  }

  /**
   Pairing rank with rank is bottleneck-optimal: if any one-to-one matching of
   the two sides of a group keeps every pair within the window, so does the
   rank pairing.
   */
  lemma RankPairingOptimal<G(!new)>(xs: set<Row<G>>, ys: set<Row<G>>, window: int, m: map<Row<G>, Row<G>>, x: Row<G>, y: Row<G>)
    requires (x, y) in RankPairs(xs, ys)
    requires Matching(xs, ys, x.group, window, m)
    ensures Close(x, y, window)
  {
    RankPartnerNotLate(xs, ys, window, m, x, y);
    var inv := InverseMatching(xs, ys, x.group, window, m);
    PairsSwap(xs, ys, x, y);
    RankPartnerNotLate(ys, xs, window, inv, y, x);
  }

  // ---- Which groups are paired completely ----

  /** The n lowest-ranked rows of each group. */
  function Lowest<G(==)>(side: set<Row<G>>, n: nat): set<Row<G>> {
    set r | r in side && Rank(side, r) < n
  }

  lemma LowestRank<G>(side: set<Row<G>>, n: nat, r: Row<G>)
    requires r in Lowest(side, n)
    ensures Rank(Lowest(side, n), r) == Rank(side, r)
  {
    forall q | q in Earlier(side, r) ensures q in Lowest(side, n) {
      RankMonotone(side, q, r);
    }
    assert Earlier(Lowest(side, n), r) == Earlier(side, r);
  }

  /** Leaving out the rows no rank of the other side reaches does not change the join. */
  lemma LowestPairs<G>(xs: set<Row<G>>, ys: set<Row<G>>, x: Row<G>, y: Row<G>)
    requires y in ys
    ensures (x, y) in RankPairs(xs, ys) <==> (x, y) in RankPairs(Lowest(xs, |Group(ys, y.group)|), ys)
  {
    var n := |Group(ys, y.group)|;
    RankBelowGroupSize(ys, y);
    if x in Lowest(xs, n) {
      LowestRank(xs, n, x);
    }
  }

  ghost predicate PairedClose<G(!new)>(xs: set<Row<G>>, ys: set<Row<G>>, window: int, y: Row<G>) {
    exists x :: (x, y) in RankPairs(xs, ys) && Close(x, y, window)
  }

  /** Every row of the group on the second side is joined to one within the window. */
  ghost predicate AllPairedClose<G(!new)>(xs: set<Row<G>>, ys: set<Row<G>>, g: G, window: int) {
    forall y :: y in Group(ys, g) ==> PairedClose(xs, ys, window, y)
  }

  ghost predicate HasMatching<G(!new)>(xs: set<Row<G>>, ys: set<Row<G>>, g: G, window: int) {
    exists m :: Matching(xs, ys, g, window, m)
  }

  lemma MatchedIsPaired<G(!new)>(xs: set<Row<G>>, ys: set<Row<G>>, window: int, m: map<Row<G>, Row<G>>, y: Row<G>)
    returns (x: Row<G>)
    requires Matching(xs, ys, y.group, window, m) && y in ys
    ensures (x, y) in RankPairs(xs, ys) && Close(x, y, window)
  {
    MatchingSizes(xs, ys, y.group, window, m);
    RankBelowGroupSize(ys, y);
    PairedIff(xs, ys, y);
    x :| (x, y) in RankPairs(xs, ys);
    RankPairingOptimal(xs, ys, window, m, x, y);
  }

  lemma MatchedIsPairedInWhole<G(!new)>(xs: set<Row<G>>, ys: set<Row<G>>, g: G, window: int, y: Row<G>)
    requires HasMatching(Lowest(xs, |Group(ys, g)|), ys, g, window) && y in Group(ys, g)
    ensures PairedClose(xs, ys, window, y)
  {
    var low := Lowest(xs, |Group(ys, g)|);
    var m :| Matching(low, ys, g, window, m);
    var x := MatchedIsPaired(low, ys, window, m, y);
    LowestPairs(xs, ys, x, y);
  }

  lemma MatchingPairsAll<G(!new)>(xs: set<Row<G>>, ys: set<Row<G>>, g: G, window: int)
    requires HasMatching(Lowest(xs, |Group(ys, g)|), ys, g, window)
    ensures AllPairedClose(xs, ys, g, window)
  {
    forall y | y in Group(ys, g) ensures PairedClose(xs, ys, window, y) {
      MatchedIsPairedInWhole(xs, ys, g, window, y);
    }
  }

  /** The partners of a completely paired group, as a map. */
  lemma PartnerMap<G(!new)>(xs: set<Row<G>>, ys: set<Row<G>>, g: G, window: int) returns (m: map<Row<G>, Row<G>>)
    requires AllPairedClose(xs, ys, g, window)
    ensures m.Keys == Group(ys, g)
    ensures forall y :: y in m ==> (m[y], y) in RankPairs(xs, ys) && Close(y, m[y], window)
  {
    assert forall y :: y in Group(ys, g) ==> PairedClose(xs, ys, window, y);
    m := map y | y in Group(ys, g) :: var x :| (x, y) in RankPairs(xs, ys) && Close(x, y, window); x;
    forall y | y in m ensures (m[y], y) in RankPairs(xs, ys) && Close(y, m[y], window) {
      assert Close(m[y], y, window);
    }
  }

  lemma PairsAreMatching<G(!new)>(xs: set<Row<G>>, ys: set<Row<G>>, g: G, window: int)
    requires AllPairedClose(xs, ys, g, window)
    ensures HasMatching(Lowest(xs, |Group(ys, g)|), ys, g, window)
  {
    var n := |Group(ys, g)|;
    var low := Lowest(xs, n);
    var m := PartnerMap(xs, ys, g, window);
    forall y | y in m ensures m[y] in Group(low, g) {
      RankBelowGroupSize(ys, y);
    }
    forall y, y' | y in m && y' in m && m[y] == m[y'] ensures y == y' {
      PairsInjective(xs, ys, (m[y], y), (m[y'], y'));
    }
    forall x | x in Group(low, g) ensures exists y :: y in m && m[y] == x {
      RankExists(ys, g, Rank(xs, x));
      var y :| y in ys && y.group == g && Rank(ys, y) == Rank(xs, x);
      assert y in m;
      PairsInjective(xs, ys, (m[y], y), (x, y));
    }
    assert Matching(ys, low, g, window, m);
    var inv := InverseMatching(ys, low, g, window, m);
  }

  /**
   Exactly when the rank pairing pairs a whole group within the window: some
   one-to-one matching does, of its rows with as many of the lowest-ranked rows
   of the other side.
   */
  lemma AllPairedIff<G(!new)>(xs: set<Row<G>>, ys: set<Row<G>>, g: G, window: int)
    ensures AllPairedClose(xs, ys, g, window) <==> HasMatching(Lowest(xs, |Group(ys, g)|), ys, g, window)
  {
    if AllPairedClose(xs, ys, g, window) {
      PairsAreMatching(xs, ys, g, window);
    }
    if HasMatching(Lowest(xs, |Group(ys, g)|), ys, g, window) {
      MatchingPairsAll(xs, ys, g, window);
    }
  }

  /** Matchings of a group look at that group only. */
  lemma SameGroupMatching<G(!new)>(xs: set<Row<G>>, xs': set<Row<G>>, ys: set<Row<G>>, g: G, window: int)
    requires Group(xs, g) == Group(xs', g)
    ensures HasMatching(xs, ys, g, window) <==> HasMatching(xs', ys, g, window)
  {
    if m :| Matching(xs, ys, g, window, m) {
      assert Matching(xs', ys, g, window, m);
    }
    if m :| Matching(xs', ys, g, window, m) {
      assert Matching(xs, ys, g, window, m);
    }
  }
}
