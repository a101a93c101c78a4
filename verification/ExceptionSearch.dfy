/** _is_no_response_runtime_error of app/main.py: a search of the exception graph with one shared seen-set. */
module ExceptionSearch {
  import opened Basics

  /** An entry of an exceptions attribute; entries that are not exceptions are ignored. */
  datatype Child = NotAnException | AnException(id: Id)

  datatype Exc = Exc(
    noResponse: bool,          // a RuntimeError whose text is "No response returned."
    endOfStream: bool,         // an instance of anyio's EndOfStream
    namedEndOfStream: bool,    // its class is called EndOfStream
    exceptions: seq<Child>, cause: Option<Id>, context: Option<Id>)

  /** The objects alive during the search; anyio says whether anyio could be imported. */
  datatype Graph = Graph(nodes: map<Id, Exc>, anyio: bool)

  predicate IsTarget(g: Graph, n: Id) {
    n in g.nodes
    && (g.nodes[n].noResponse || (if g.anyio then g.nodes[n].endOfStream else g.nodes[n].namedEndOfStream))
  }

  predicate Edge(g: Graph, n: Id, m: Id) {
    n in g.nodes && (AnException(m) in g.nodes[n].exceptions || g.nodes[n].cause == Some(m) || g.nodes[n].context == Some(m))
  }

  /** Every reference is to a live object. */
  ghost predicate Closed(g: Graph) {
    forall n, m :: Edge(g, n, m) ==> m in g.nodes
  }

  ghost predicate Path(g: Graph, p: seq<Id>) {
    p != [] && forall i :: 0 <= i < |p| - 1 ==> Edge(g, p[i], p[i + 1])
  }

  ghost predicate PathTo(g: Graph, p: seq<Id>, from: Id, to: Id) {
    Path(g, p) && p[0] == from && p[|p| - 1] == to
  }

  ghost predicate Reachable(g: Graph, from: Id, to: Id) {
    exists p :: PathTo(g, p, from, to)
  }

  lemma ReachableSelf(g: Graph, n: Id)
    ensures Reachable(g, n, n)
  {
    assert PathTo(g, [n], n, n);
  }

  lemma ReachableStep(g: Graph, n: Id, m: Id, to: Id)
    requires Edge(g, n, m) && Reachable(g, m, to)
    ensures Reachable(g, n, to)
  {
    var p :| PathTo(g, p, m, to);
    var q := [n] + p;
    forall i | 0 <= i < |q| - 1 ensures Edge(g, q[i], q[i + 1]) {
      if i > 0 { assert Edge(g, p[i - 1], p[i]); }
    }
    assert PathTo(g, q, n, to);
  }

  /** A set closed under edges that holds the start of a path holds its end. */
  lemma {:induction false} ClosedHoldsPath(g: Graph, s: set<Id>, p: seq<Id>)
    requires Path(g, p) && p[0] in s
    requires forall n, m :: n in s && Edge(g, n, m) ==> m in s
    ensures p[|p| - 1] in s
    decreases |p|
  {
    if |p| > 1 {
      assert Edge(g, p[0], p[1]);
      forall i | 0 <= i < |p[1..]| - 1 ensures Edge(g, p[1..][i], p[1..][i + 1]) {
        assert Edge(g, p[i + 1], p[i + 2]);
      }
      ClosedHoldsPath(g, s, p[1..]);
    }
  }

  class SeenSet {
    var ids: set<Id>

    constructor ()
      ensures ids == {}
    {
      ids := {};
    }
  }

  /** Nodes the call added are fully explored: no targets, and all their successors seen. */
  ghost predicate Explored(g: Graph, before: set<Id>, after: set<Id>) {
    forall n :: n in after && n !in before ==> !IsTarget(g, n) && forall m :: Edge(g, n, m) ==> m in after
  }

  /** As Explored, with node top still in progress. */
  ghost predicate ExploredBelow(g: Graph, before: set<Id>, after: set<Id>, top: Id) {
    forall n :: n in after && n !in before && n != top ==> !IsTarget(g, n) && forall m :: Edge(g, n, m) ==> m in after
  }

  /**
   One recursive call.  A False answer means the call added only explored
   non-targets, even though ancestors are still in progress; a True answer
   means a target is reachable.
   */
  method Search(g: Graph, exc: Id, seen: SeenSet) returns (found: bool)
    requires Closed(g) && exc in g.nodes && seen.ids <= g.nodes.Keys
    modifies seen
    ensures old(seen.ids) <= seen.ids <= g.nodes.Keys && exc in seen.ids
    ensures forall n :: n in seen.ids && n !in old(seen.ids) ==> Reachable(g, exc, n)
    ensures !found ==> Explored(g, old(seen.ids), seen.ids)
    ensures found ==> exists n :: IsTarget(g, n) && Reachable(g, exc, n)
    decreases g.nodes.Keys - seen.ids, 0
  {
    ghost var before := seen.ids;
    if exc in seen.ids {
      return false;
    }
    seen.ids := seen.ids + {exc};
    ReachableSelf(g, exc);
    if IsTarget(g, exc) {
      return true;
    }
    var node := g.nodes[exc];
    for i := 0 to |node.exceptions|
      invariant before + {exc} <= seen.ids <= g.nodes.Keys
      invariant forall n :: n in seen.ids && n !in before ==> Reachable(g, exc, n)
      invariant ExploredBelow(g, before, seen.ids, exc)
      invariant forall j :: 0 <= j < i && node.exceptions[j].AnException? ==> node.exceptions[j].id in seen.ids
    {
      if node.exceptions[i].AnException? {
        found := SearchNext(g, exc, node.exceptions[i].id, seen, before);
        if found {
          return;
        }
      }
    }
    if node.cause.Some? {
      found := SearchNext(g, exc, node.cause.value, seen, before);
      if found {
        return;
      }
    }
    if node.context.Some? {
      found := SearchNext(g, exc, node.context.value, seen, before);
      if found {
        return;
      }
    }
    return false;
  }

  /** The recursive call on one successor of top. */
  method SearchNext(g: Graph, top: Id, next: Id, seen: SeenSet, ghost before: set<Id>) returns (found: bool)
    requires Closed(g) && Edge(g, top, next) && before + {top} <= seen.ids <= g.nodes.Keys && top !in before
    requires forall n :: n in seen.ids && n !in before ==> Reachable(g, top, n)
    requires ExploredBelow(g, before, seen.ids, top)
    modifies seen
    ensures old(seen.ids) <= seen.ids <= g.nodes.Keys && next in seen.ids
    ensures forall n :: n in seen.ids && n !in before ==> Reachable(g, top, n)
    ensures !found ==> ExploredBelow(g, before, seen.ids, top)
    ensures found ==> exists n :: IsTarget(g, n) && Reachable(g, top, n)
    decreases g.nodes.Keys - seen.ids, 1
  {
    ghost var s := seen.ids;
    found := Search(g, next, seen);
    forall n | Reachable(g, next, n) ensures Reachable(g, top, n) {
      ReachableStep(g, top, next, n);
    }
  }

  /**
   The whole search, over cyclic graphs too: True iff some exception reachable
   through exceptions, __cause__ or __context__ is a no-response or end-of-stream
   error.
   */
  method IsNoResponseRuntimeError(g: Graph, exc: Id) returns (found: bool)
    requires Closed(g) && exc in g.nodes
    ensures found <==> exists n :: IsTarget(g, n) && Reachable(g, exc, n)
  {
    var seen := new SeenSet();
    found := Search(g, exc, seen);
    if !found {
      forall n | Reachable(g, exc, n) ensures !IsTarget(g, n) {
        var p :| PathTo(g, p, exc, n);
        ClosedHoldsPath(g, seen.ids, p);
      }
    }
  }

  /** What a False answer has visited is exactly what can be reached. */
  lemma FalseVisitsAllReachable(g: Graph, exc: Id, seen: set<Id>)
    requires exc in seen && Explored(g, {}, seen)
    requires forall n :: n in seen ==> Reachable(g, exc, n)
    ensures forall n :: n in seen <==> Reachable(g, exc, n)
    ensures forall n :: Reachable(g, exc, n) ==> !IsTarget(g, n)
  {
    forall n | Reachable(g, exc, n) ensures n in seen {
      var p :| PathTo(g, p, exc, n);
      ClosedHoldsPath(g, seen, p);
    }
  }

  /** An exception that is neither kind of target, whose children, cause and context are all in the set. */
  predicate HarmlessWithin(g: Graph, s: set<Id>, n: Id) {
    && n in g.nodes && !g.nodes[n].noResponse
    && (g.anyio ==> !g.nodes[n].endOfStream) && (!g.anyio ==> !g.nodes[n].namedEndOfStream)
    && (forall i :: 0 <= i < |g.nodes[n].exceptions| && g.nodes[n].exceptions[i].AnException? ==> g.nodes[n].exceptions[i].id in s)
    && (g.nodes[n].cause.Some? ==> g.nodes[n].cause.value in s)
    && (g.nodes[n].context.Some? ==> g.nodes[n].context.value in s)
  }

  ghost predicate HarmlessSet(g: Graph, exc: Id, s: set<Id>) {
    exc in s && forall n :: n in s ==> HarmlessWithin(g, s, n)
  }

  /** Nothing to find iff the exception lies in a set that holds all three kinds of references and no target. */
  lemma NothingToFindIff(g: Graph, exc: Id)
    requires Closed(g) && exc in g.nodes
    ensures (forall n :: Reachable(g, exc, n) ==> !IsTarget(g, n)) <==> exists s :: HarmlessSet(g, exc, s)
  {
    if forall n :: Reachable(g, exc, n) ==> !IsTarget(g, n) {
      ReachableIsHarmless(g, exc);
    }
    if s :| HarmlessSet(g, exc, s) {
      HarmlessHoldsReachable(g, exc, s);
    }
  }

  lemma ReachableIsHarmless(g: Graph, exc: Id)
    requires Closed(g) && exc in g.nodes && forall n :: Reachable(g, exc, n) ==> !IsTarget(g, n)
    ensures exists s :: HarmlessSet(g, exc, s)
  {
    var s := set n | n in g.nodes && Reachable(g, exc, n);
    ReachableSelf(g, exc);
    forall n, m | n in s && Edge(g, n, m) ensures m in s {
      ReachableOnward(g, exc, n, m);
    }
    forall n | n in s ensures HarmlessWithin(g, s, n) {
      assert !IsTarget(g, n);
      forall i | 0 <= i < |g.nodes[n].exceptions| && g.nodes[n].exceptions[i].AnException? ensures g.nodes[n].exceptions[i].id in s {
        assert Edge(g, n, g.nodes[n].exceptions[i].id);
      }
      assert g.nodes[n].cause.Some? ==> Edge(g, n, g.nodes[n].cause.value);
      assert g.nodes[n].context.Some? ==> Edge(g, n, g.nodes[n].context.value);
    }
    assert HarmlessSet(g, exc, s);
  }

  lemma ReachableOnward(g: Graph, from: Id, n: Id, m: Id)
    requires Reachable(g, from, n) && Edge(g, n, m)
    ensures Reachable(g, from, m)
  {
    var p :| PathTo(g, p, from, n);
    var q := p + [m];
    forall i | 0 <= i < |q| - 1 ensures Edge(g, q[i], q[i + 1]) {
      if i < |p| - 1 { assert Edge(g, p[i], p[i + 1]); }
    }
    assert PathTo(g, q, from, m);
  }

  lemma HarmlessHoldsReachable(g: Graph, exc: Id, s: set<Id>)
    requires HarmlessSet(g, exc, s)
    ensures forall n :: Reachable(g, exc, n) ==> !IsTarget(g, n)
  {
    forall n, m | n in s && Edge(g, n, m) ensures m in s {
      assert HarmlessWithin(g, s, n);
    }
    forall n | Reachable(g, exc, n) ensures !IsTarget(g, n) {
      var p :| PathTo(g, p, exc, n);
      ClosedHoldsPath(g, s, p);
      assert HarmlessWithin(g, s, n);
    }
  }
}
