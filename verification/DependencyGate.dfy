/** The publish-time dependency gate: a publish that declares dependencies is
    accepted only if they are all known and the resulting graph has no cycle. */
module DependencyGate {
  import opened DependencyGraph
  import Tarjan

  datatype GateError =
    | MissingDependency(id: Id)
    | CircularDependency(cycles: seq<seq<Id>>)

  datatype Outcome = Pass | Fail(error: GateError)

  /** Every dependency of a key is itself a key. */
  ghost predicate Closed(g: Graph) {
    forall x, y :: x in g && Edge(g, x, y) ==> y in g
  }

  ghost predicate Known(g: Graph, id: Id, deps: seq<Id>) {
    forall d :: d in deps ==> d in g || d == id
  }

  ghost predicate Admits(g: Graph, id: Id, deps: seq<Id>) {
    Known(g, id, deps) && Acyclic(g[id := deps])
  }

  /** Lists exactly the nodes that lie on cycles. */
  ghost predicate CoversCycles(g: Graph, cycles: seq<seq<Id>>) {
    forall x :: OnCycle(g, x) <==> exists k :: 0 <= k < |cycles| && x in cycles[k]
  }

  /** Why the gate refuses: the first unknown dependency, else the cycles of the updated graph. */
  ghost predicate Explains(g: Graph, id: Id, deps: seq<Id>, error: GateError) {
    match error
    case MissingDependency(d) =>
      exists k :: 0 <= k < |deps| && deps[k] == d && !Known(g, id, [deps[k]]) && Known(g, id, deps[..k])
    case CircularDependency(cycles) =>
      Known(g, id, deps) && CoversCycles(g[id := deps], cycles) && !Acyclic(g[id := deps])
  }

  method ValidateNoCycles(graph: Graph, keys: seq<Id>) returns (r: Outcome)
    requires forall x :: x in keys <==> x in graph
    ensures r.Pass? <==> forall x :: !OnCycle(graph, x)
    ensures r.Fail? ==> r.error.CircularDependency? && CoversCycles(graph, r.error.cycles)
  {
    var cycles := Tarjan.FindCycles(graph, keys);
    if cycles == [] {
      r := Pass;
    } else {
      assert IsCyclicComponent(graph, cycles[0]);
      assert cycles[0][0] in cycles[0];
      assert OnCycle(graph, cycles[0][0]);
      r := Fail(CircularDependency(cycles));
    }
  }

  /** The gate inside a publish of `id`: the error is the first unknown
      dependency, else the cycles of the updated graph. */
  method CheckDependencies(existing: Graph, keys: seq<Id>, id: Id, deps: seq<Id>)
    returns (r: Outcome, graph: Graph)
    requires forall x :: x in keys <==> x in existing
    ensures graph == existing[id := deps]
    ensures r.Pass? <==> Admits(existing, id, deps)
    ensures r.Fail? ==> Explains(existing, id, deps, r.error)
  {
    graph := existing[id := deps];
    var graphKeys := if id in existing then keys else keys + [id];
    for k := 0 to |deps|
      invariant Known(existing, id, deps[..k])
    {
      if deps[k] !in graph {
        assert deps[k] in [deps[k]];
        return Fail(MissingDependency(deps[k])), graph;
      }
      assert deps[..k + 1] == deps[..k] + [deps[k]];
    }
    assert deps[..|deps|] == deps;
    r := ValidateNoCycles(graph, graphKeys);
  }

  /** The graph after a run of publish attempts; a rejected attempt changes nothing. */
  ghost function AfterPublishes(g: Graph, attempts: seq<(Id, seq<Id>)>): Graph
    decreases |attempts|
  {
    if attempts == [] then g
    else
      var (id, deps) := attempts[0];
      AfterPublishes(if Admits(g, id, deps) then g[id := deps] else g, attempts[1..])
  }

  /** Lists every key once, dependencies first. */
  ghost predicate InstallOrder(g: Graph, order: seq<Id>) {
    && NoDuplicates(order)
    && (forall x :: x in order <==> x in g)
    && forall i, d :: 0 <= i < |order| && Edge(g, order[i], d) ==> d in order[..i]
  }

  /** Whatever is published, in any order and however often an id is
      re-published, the accepted skills can always be installed dependencies first. */
  lemma {:induction false} EveryRunHasInstallOrder(attempts: seq<(Id, seq<Id>)>, g: Graph)
    requires Acyclic(g) && Closed(g)
    ensures Acyclic(AfterPublishes(g, attempts)) && Closed(AfterPublishes(g, attempts))
    ensures exists order :: InstallOrder(AfterPublishes(g, attempts), order)
    decreases |attempts|
  {
    if attempts == [] {
      var order := PlaceAll(g, []);
    } else {
      var (id, deps) := attempts[0];
      EveryRunHasInstallOrder(attempts[1..], if Admits(g, id, deps) then g[id := deps] else g);
    }
  }

  lemma EmptyGraphIsSafe()
    ensures Acyclic(map[]) && Closed(map[])
  {
    forall x
      ensures !OnCycle(map[], x)
    {
      if OnCycle(map[], x) {
        var y := CycleHasFirstEdge(map[], x);
      }
    }
  }

  ghost predicate Placed(g: Graph, order: seq<Id>) {
    && NoDuplicates(order)
    && (forall x :: x in order ==> x in g)
    && forall i, d :: 0 <= i < |order| && Edge(g, order[i], d) ==> d in order[..i]
  }

  lemma PlaceAll(g: Graph, order: seq<Id>) returns (all: seq<Id>)
    requires Acyclic(g) && Closed(g) && Placed(g, order)
    ensures InstallOrder(g, all)
    decreases g.Keys - set x | x in order
  {
    var rest := g.Keys - set x | x in order;
    if rest == {} {
      all := order;
      forall x | x in g
        ensures x in order
      {
        assert x !in rest;
      }
    } else {
      var x :| x in rest;
      var z := Leaf(g, rest, x);
      var longer := order + [z];
      forall i, d | 0 <= i < |longer| && Edge(g, longer[i], d)
        ensures d in longer[..i]
      {
        if i < |order| {
          assert longer[..i] == order[..i];
        } else {
          assert longer[..i] == order;
          assert d !in rest;
        }
      }
      assert z in longer by { assert longer[|order|] == z; }
      assert forall x :: x in order ==> x in longer;
      assert z !in (g.Keys - set x | x in longer);
      all := PlaceAll(g, longer);
    }
  }

  /** A non-empty part of an acyclic graph has an id with no successor in it. */
  lemma Leaf(g: Graph, rest: set<Id>, x: Id) returns (z: Id)
    requires Acyclic(g) && x in rest
    ensures z in rest && forall d :: Edge(g, z, d) ==> d !in rest
    decreases set y | y in rest && Reach(g, x, y)
  {
    if exists d :: d in rest && Edge(g, x, d) {
      var d :| d in rest && Edge(g, x, d);
      ReachSelf(g, x);
      ReachEdge(g, x, d);
      forall y | Reach(g, d, y)
        ensures Reach(g, x, y)
      {
        ReachTrans(g, x, d, y);
      }
      assert !Reach(g, d, x) by {
        if Reach(g, d, x) {
          CycleFromEdge(g, x, d);
        }
      }
      var below, here := set y | y in rest && Reach(g, d, y), set y | y in rest && Reach(g, x, y);
      assert x in here && x !in below && below <= here;
      z := Leaf(g, rest, d);
    } else {
      z := x;
    }
  }

  /** The converse: a graph with an install order is acyclic and closed. */
  lemma InstallOrderIsSafe(g: Graph, order: seq<Id>)
    requires InstallOrder(g, order)
    ensures Acyclic(g) && Closed(g)
  {
    hide Reach;
    forall x, y | x in g && Edge(g, x, y)
      ensures y in g
    {
      var i :| 0 <= i < |order| && order[i] == x;
      assert y in order[..i];
    }
    forall x
      ensures !OnCycle(g, x)
    {
      if OnCycle(g, x) {
        var y := CycleHasFirstEdge(g, x);
        var i :| 0 <= i < |order| && order[i] == x;
        var j :| 0 <= j < i && order[..i][j] == y;
        var before := set z | z in order[..i];
        forall v, w | v in before && Edge(g, v, w)
          ensures w in before
        {
          var k :| 0 <= k < i && order[..i][k] == v;
          assert w in order[..k];
          assert forall h :: 0 <= h < k ==> order[..k][h] == order[..i][h];
        }
        ReachStaysInside(g, before, y, x);
      }
    }
  }

  /** Two graphs that differ only in the edges out of `id` have the same ways into `id`. */
  lemma {:induction false} SameWaysIn(g: Graph, h: Graph, id: Id, x: Id, p: seq<Id>)
    requires forall y :: y != id ==> Successors(g, y) == Successors(h, y)
    requires WalkFrom(g, p, x, id)
    ensures Reach(h, x, id)
    decreases |p|
  {
    if x == id {
      ReachSelf(h, x);
    } else {
      assert Edge(g, p[0], p[1]);
      forall i, j | 0 <= i < j < |p[1..]| && j == i + 1
        ensures Edge(g, p[1..][i], p[1..][j])
      {
        assert p[1..][i] == p[i + 1] && p[1..][j] == p[j + 1];
      }
      SameWaysIn(g, h, id, p[1], p[1..]);
      ReachEdge(h, x, p[1]);
      ReachTrans(h, x, p[1], id);
    }
  }

  /** A cycle that replacing the edges of `id` creates goes through `id`. */
  lemma NewCycleMeets(g: Graph, h: Graph, id: Id, x: Id)
    requires forall y :: y != id ==> Successors(g, y) == Successors(h, y)
    requires !OnCycle(g, x) && OnCycle(h, x)
    ensures OnCycle(h, id)
  {
    hide Edge;
    var p :| WalkFrom(h, p, x, x) && |p| > 1;
    assert id in p by {
      if id !in p {
        AvoidingWalk(g, h, id, x, p);
      }
    }
    var i :| 0 <= i < |p| && p[i] == id;
    if 0 < i < |p| - 1 {
      var onward, back := p[i..], p[..i + 1];
      assert WalkFrom(h, onward, id, x);
      assert WalkFrom(h, back, x, id);
      JoinWalks(h, onward, back, id, x, id);
      assert |onward + back[1..]| > 1;
    }
  }

  lemma AvoidingWalk(g: Graph, h: Graph, id: Id, x: Id, p: seq<Id>)
    requires forall y :: y != id ==> Successors(g, y) == Successors(h, y)
    requires WalkFrom(h, p, x, x) && id !in p
    ensures WalkFrom(g, p, x, x)
  {
    forall i, j | 0 <= i < j < |p| && j == i + 1
      ensures Edge(g, p[i], p[j])
    {
      assert Edge(h, p[i], p[j]);
    }
  }

  /** Exactly when re-checking the whole graph rejects a publish: it does so
      iff a dependency already leads back to the published id. */
  lemma AcyclicUpdateIff(g: Graph, id: Id, deps: seq<Id>)
    requires Acyclic(g)
    ensures Acyclic(g[id := deps]) <==> forall d :: d in deps ==> !Reach(g, d, id)
  {
    var h := g[id := deps];
    if Acyclic(h) {
      forall d | d in deps
        ensures !Reach(g, d, id)
      {
        if Reach(g, d, id) {
          var p :| WalkFrom(g, p, d, id);
          SameWaysIn(g, h, id, d, p);
          CycleFromEdge(h, id, d);
        }
      }
    }
    if forall d :: d in deps ==> !Reach(g, d, id) {
      forall x
        ensures !OnCycle(h, x)
      {
        if OnCycle(h, x) {
          NewCycleMeets(g, h, id, x);
          var d := CycleHasFirstEdge(h, id);
          var p :| WalkFrom(h, p, d, id);
          SameWaysIn(h, g, id, d, p);
        }
      }
    }
  }

  /** A first publish of an id can only be circular by depending on itself. */
  lemma FirstPublishAdmittedIff(g: Graph, id: Id, deps: seq<Id>)
    requires Acyclic(g) && Closed(g) && id !in g
    ensures Admits(g, id, deps) <==> forall d :: d in deps ==> d in g
  {
    AcyclicUpdateIff(g, id, deps);
    ReachSelf(g, id);
    forall d | d in g
      ensures !Reach(g, d, id)
    {
      if Reach(g, d, id) {
        ReachStaysInside(g, g.Keys, d, id);
      }
    }
  }

  // Two publishes that gate on the same snapshot of the graph.

  /** Where only the edges out of `id` differ, a walk either was there before, or
      reaches `id` and goes on from one of its new successors. */
  lemma {:induction false} WalkAfterChange(g: Graph, h: Graph, id: Id, x: Id, y: Id, p: seq<Id>)
    requires forall z :: z != id ==> Successors(g, z) == Successors(h, z)
    requires WalkFrom(h, p, x, y)
    ensures Reach(g, x, y) || (Reach(g, x, id) && exists d :: d in Successors(h, id) && Reach(g, d, y))
    decreases |p|
  {
    hide Reach;
    if |p| == 1 {
      ReachSelf(g, x);
    } else {
      var z := p[1];
      assert Edge(h, p[0], p[1]);
      TailIsWalk(h, p, x, y);
      WalkAfterChange(g, h, id, z, y, p[1..]);
      if x == id {
        ReachSelf(g, id);
        assert z in Successors(h, id);
      } else {
        assert Edge(g, x, z);
        ReachEdge(g, x, z);
        if Reach(g, z, y) {
          ReachTrans(g, x, z, y);
        } else {
          ReachTrans(g, x, z, id);
        }
      }
    }
  }

  lemma TailIsWalk(g: Graph, p: seq<Id>, x: Id, y: Id)
    requires WalkFrom(g, p, x, y) && |p| > 1
    ensures WalkFrom(g, p[1..], p[1], y)
  {
    forall i, j | 0 <= i < j < |p[1..]| && j == i + 1
      ensures Edge(g, p[1..][i], p[1..][j])
    {
      assert p[1..][i] == p[i + 1] && p[1..][j] == p[j + 1];
    }
  }

  /** After one update that closes no cycle, an id that did not reach `y` reaches it
      exactly by way of the updated id and one of its new dependencies. */
  lemma NewWayIff(g: Graph, id: Id, deps: seq<Id>, x: Id, y: Id)
    requires Acyclic(g[id := deps]) && !Reach(g, x, y)
    ensures Reach(g[id := deps], x, y) <==> Reach(g, x, id) && exists d :: d in deps && Reach(g, d, y)
  {
    hide OnCycle;
    var h := g[id := deps];
    if Reach(h, x, y) {
      var p :| WalkFrom(h, p, x, y);
      WalkAfterChange(g, h, id, x, y, p);
    }
    if d :| Reach(g, x, id) && d in deps && Reach(g, d, y) {
      var p :| WalkFrom(g, p, x, id);
      SameWaysIn(g, h, id, x, p);
      assert Edge(h, id, d);
      ReachEdge(h, id, d);
      OldWayStays(g, id, deps, d, y);
      hide Reach;
      ReachTrans(h, id, d, y);
      ReachTrans(h, x, id, y);
    }
  }

  lemma OldWayStays(g: Graph, id: Id, deps: seq<Id>, d: Id, y: Id)
    requires Acyclic(g[id := deps]) && d in deps && Reach(g, d, y)
    ensures Reach(g[id := deps], d, y)
  {
    var h := g[id := deps];
    var p :| WalkFrom(g, p, d, y);
    WalkAfterChange(h, g, id, d, y, p);
    hide Reach, OnCycle;
    if Reach(h, d, id) {
      CycleFromEdge(h, id, d);
    }
  }

  /** The gate checks a snapshot that its caller took. Two publishes that both pass on
      the same one close a cycle together exactly when each depends, directly or not,
      on the other. */
  lemma SideBySideIff(g: Graph, a: Id, aDeps: seq<Id>, b: Id, bDeps: seq<Id>)
    requires Acyclic(g) && a != b && Admits(g, a, aDeps) && Admits(g, b, bDeps)
    ensures Acyclic(g[a := aDeps][b := bDeps])
            <==> !((exists d :: d in aDeps && Reach(g, d, b)) && (exists d :: d in bDeps && Reach(g, d, a)))
  {
    hide Reach, OnCycle;
    AcyclicUpdateIff(g, b, bDeps);
    AcyclicUpdateIff(g[a := aDeps], b, bDeps);
    forall d | d in bDeps
      ensures Reach(g[a := aDeps], d, b) <==> Reach(g, d, a) && exists e :: e in aDeps && Reach(g, e, b)
    {
      NewWayIff(g, a, aDeps, d, b);
    }
  }

  /** First publishes never do: nothing published leads to an id that is not yet there. */
  lemma FirstPublishesSideBySide(g: Graph, a: Id, aDeps: seq<Id>, b: Id, bDeps: seq<Id>)
    requires Acyclic(g) && Closed(g) && a != b && a !in g && b !in g
    requires Admits(g, a, aDeps) && Admits(g, b, bDeps)
    ensures Acyclic(g[a := aDeps][b := bDeps])
  {
    hide Reach, OnCycle;
    FirstPublishAdmittedIff(g, a, aDeps);
    SideBySideIff(g, a, aDeps, b, bDeps);
    forall d | d in aDeps
      ensures !Reach(g, d, b)
    {
      if Reach(g, d, b) {
        ReachStaysInside(g, g.Keys, d, b);
      }
    }
  }

  /** Re-publishes can: two independent skills, each made to depend on the other. */
  lemma CrossedRepublishesClose(g: Graph, a: Id, b: Id)
    requires Acyclic(g) && a in g && b in g && a != b && !Reach(g, a, b) && !Reach(g, b, a)
    ensures Admits(g, a, [b]) && Admits(g, b, [a]) && !Acyclic(g[a := [b]][b := [a]])
  {
    hide Reach, OnCycle;
    AcyclicUpdateIff(g, a, [b]);
    AcyclicUpdateIff(g, b, [a]);
    SideBySideIff(g, a, [b], b, [a]);
    ReachSelf(g, a);
    ReachSelf(g, b);
    assert b in [b] && a in [a];
  }
}
