/** Dependency graphs, walks and strongly connected components.
    A graph maps a skill id to the ids it directly depends on; an id that is
    only ever a dependency is an external leaf with no successors. */
module DependencyGraph {

  type Id = string
  type Graph = map<Id, seq<Id>>

  function Successors(g: Graph, x: Id): seq<Id> {
    if x in g then g[x] else []
  }

  ghost predicate Edge(g: Graph, x: Id, y: Id) {
    y in Successors(g, x)
  }

  /** Every id the graph mentions. */
  ghost function Nodes(g: Graph): set<Id> {
    g.Keys + set x, y | x in g && y in g[x] :: y
  }

  ghost predicate IsWalk(g: Graph, p: seq<Id>) {
    && |p| > 0
    && forall i, j :: 0 <= i < j < |p| && j == i + 1 ==> Edge(g, p[i], p[j])
  }

  ghost predicate WalkFrom(g: Graph, p: seq<Id>, x: Id, y: Id) {
    IsWalk(g, p) && p[0] == x && p[|p| - 1] == y
  }

  ghost predicate Reach(g: Graph, x: Id, y: Id) {
    exists p :: WalkFrom(g, p, x, y)
  }

  /** `x` has a non-empty walk back to itself. */
  ghost predicate OnCycle(g: Graph, x: Id) {
    exists p :: WalkFrom(g, p, x, x) && |p| > 1
  }

  ghost predicate Mutual(g: Graph, x: Id, y: Id) {
    Reach(g, x, y) && Reach(g, y, x)
  }

  ghost predicate NoDuplicates(c: seq<Id>) {
    forall i, j :: 0 <= i < j < |c| ==> c[i] != c[j]
  }

  /** `c` lists one whole strongly connected component, each member once. */
  ghost predicate IsComponent(g: Graph, c: seq<Id>) {
    && |c| > 0
    && NoDuplicates(c)
    && forall y :: y in c <==> Mutual(g, c[0], y)
  }

  ghost predicate IsCyclicComponent(g: Graph, c: seq<Id>) {
    IsComponent(g, c) && (|c| > 1 || Edge(g, c[0], c[0]))
  }

  ghost predicate Acyclic(g: Graph) {
    forall x :: !OnCycle(g, x)
  }

  lemma ReachSelf(g: Graph, x: Id)
    ensures Reach(g, x, x)
  {
    assert WalkFrom(g, [x], x, x);
  }

  lemma ReachEdge(g: Graph, x: Id, y: Id)
    requires Edge(g, x, y)
    ensures Reach(g, x, y)
  {
    assert WalkFrom(g, [x, y], x, y);
  }

  lemma ReachTrans(g: Graph, x: Id, y: Id, z: Id)
    requires Reach(g, x, y) && Reach(g, y, z)
    ensures Reach(g, x, z)
  {
    var p :| WalkFrom(g, p, x, y);
    var q :| WalkFrom(g, q, y, z);
    JoinWalks(g, p, q, x, y, z);
  }

  lemma JoinWalks(g: Graph, p: seq<Id>, q: seq<Id>, x: Id, y: Id, z: Id)
    requires WalkFrom(g, p, x, y) && WalkFrom(g, q, y, z)
    ensures WalkFrom(g, p + q[1..], x, z)
  {
    var r := p + q[1..];
    forall i | 0 <= i < |r| - 1
      ensures Edge(g, r[i], r[i + 1])
    {
      if i >= |p| - 1 {
        assert r[i] == q[i - |p| + 1] && r[i + 1] == q[i - |p| + 2];
      }
    }
  }

  /** A walk cannot leave a set that is closed under edges. */
  lemma {:induction false} WalkStaysInside(g: Graph, inside: set<Id>, p: seq<Id>)
    requires forall x, y :: x in inside && Edge(g, x, y) ==> y in inside
    requires IsWalk(g, p) && p[0] in inside
    ensures p[|p| - 1] in inside
    decreases |p|
  {
    if |p| > 1 {
      assert Edge(g, p[0], p[1]);
      forall i | 0 <= i < |p[1..]| - 1
        ensures Edge(g, p[1..][i], p[1..][i + 1])
      {
        assert Edge(g, p[i + 1], p[i + 2]);
      }
      WalkStaysInside(g, inside, p[1..]);
    }
  }

  lemma ReachStaysInside(g: Graph, inside: set<Id>, x: Id, y: Id)
    requires forall x, y :: x in inside && Edge(g, x, y) ==> y in inside
    requires x in inside && Reach(g, x, y)
    ensures y in inside
  {
    var p :| WalkFrom(g, p, x, y);
    WalkStaysInside(g, inside, p);
  }

  /** A closed walk is an edge followed by a way back. */
  lemma CycleHasFirstEdge(g: Graph, x: Id) returns (y: Id)
    requires OnCycle(g, x)
    ensures Edge(g, x, y) && Reach(g, y, x)
  {
    var p :| WalkFrom(g, p, x, x) && |p| > 1;
    y := p[1];
    assert Edge(g, p[0], p[1]);
    forall i | 0 <= i < |p[1..]| - 1
      ensures Edge(g, p[1..][i], p[1..][i + 1])
    {
      assert Edge(g, p[i + 1], p[i + 2]);
    }
    assert WalkFrom(g, p[1..], y, x);
  }

  lemma CycleFromEdge(g: Graph, x: Id, y: Id)
    requires Edge(g, x, y) && Reach(g, y, x)
    ensures OnCycle(g, x)
  {
    var q :| WalkFrom(g, q, y, x);
    assert WalkFrom(g, [x, y], x, y);
    JoinWalks(g, [x, y], q, x, y, x);
    assert |[x, y] + q[1..]| > 1;
  }

  /** The length and self-loop test that Tarjan's algorithm applies to a
      component decides exactly whether its members lie on a cycle. */
  lemma CyclicIffOnCycle(g: Graph, c: seq<Id>, x: Id)
    requires IsComponent(g, c) && x in c
    ensures IsCyclicComponent(g, c) <==> OnCycle(g, x)
  {
    assert Mutual(g, c[0], x);
    if IsCyclicComponent(g, c) {
      if |c| > 1 {
        var z := if x == c[0] then c[1] else c[0];
        assert c[0] in c && c[1] in c && z != x;
        ReachTrans(g, x, c[0], z);
        ReachTrans(g, z, c[0], x);
        var p :| WalkFrom(g, p, x, z);
        var q :| WalkFrom(g, q, z, x);
        JoinWalks(g, p, q, x, z, x);
        assert |p + q[1..]| > 1;
      } else {
        CycleFromEdge(g, x, x) by { ReachSelf(g, x); }
      }
    }
    if OnCycle(g, x) && |c| == 1 {
      var y := CycleHasFirstEdge(g, x);
      ReachEdge(g, x, y);
      assert Mutual(g, c[0], y);
      assert y in c;
    }
  }
}
