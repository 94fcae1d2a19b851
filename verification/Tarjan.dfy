/** The cycle search of `find_cycles`: Tarjan's strongly connected component
    algorithm with its shared counter, stack, on-stack map and low links. */
module Tarjan {
  import opened DependencyGraph

  /** What the shared variables of one search hold at one moment. */
  datatype Progress = Progress(
    counter: nat,
    stack: seq<Id>,
    index: map<Id, nat>,
    lowlink: map<Id, nat>,
    cycles: seq<seq<Id>>)

  ghost function Stacked(s: Progress): set<Id> {
    set x | x in s.stack
  }

  /** Ids whose component has already been taken off the stack. */
  ghost function Done(s: Progress): set<Id> {
    s.index.Keys - Stacked(s)
  }

  ghost predicate Numbered(g: Graph, s: Progress) {
    && s.index.Keys <= Nodes(g)
    && s.lowlink.Keys == s.index.Keys
    && (forall x :: x in s.index ==> s.index[x] < s.counter)
    && (forall i :: 0 <= i < |s.stack| ==> s.stack[i] in s.index)
    && (forall i, j :: 0 <= i < j < |s.stack| ==> s.index[s.stack[i]] < s.index[s.stack[j]])
  }

  /** A stacked id reaches every id that was stacked after it. */
  ghost predicate OlderReachesNewer(g: Graph, stack: seq<Id>) {
    forall i, j :: 0 <= i <= j < |stack| ==> Reach(g, stack[i], stack[j])
  }

  ghost predicate AnchoredAt(g: Graph, stack: seq<Id>, open: set<Id>, j: int, i: int) {
    0 <= i <= j < |stack| && stack[i] in open && Reach(g, stack[j], stack[i])
  }

  ghost predicate HasAnchor(g: Graph, stack: seq<Id>, open: set<Id>, j: int) {
    exists i :: AnchoredAt(g, stack, open, j, i)
  }

  /** Every stacked id reaches an older id that is still being explored. */
  ghost predicate Anchored(g: Graph, stack: seq<Id>, open: set<Id>) {
    forall j :: 0 <= j < |stack| ==> HasAnchor(g, stack, open, j)
  }

  /** Only ids still being explored may have unvisited successors. */
  ghost predicate Explored(g: Graph, s: Progress, open: set<Id>) {
    forall x, y :: x in s.index && x !in open && Edge(g, x, y) ==> y in s.index
  }

  ghost predicate Listed(cycles: seq<seq<Id>>, x: Id) {
    exists k :: 0 <= k < |cycles| && x in cycles[k]
  }

  ghost predicate Disjoint(cycles: seq<seq<Id>>) {
    forall j, k, x :: 0 <= j < k < |cycles| && x in cycles[j] ==> x !in cycles[k]
  }

  /** Exactly the cyclic components among the ids that are done, once each. */
  ghost predicate Reported(g: Graph, done: set<Id>, cycles: seq<seq<Id>>) {
    && (forall k :: 0 <= k < |cycles| ==> IsCyclicComponent(g, cycles[k]))
    && (forall k, x :: 0 <= k < |cycles| && x in cycles[k] ==> x in done)
    && Disjoint(cycles)
    && (forall x :: x in done && OnCycle(g, x) ==> Listed(cycles, x))
  }

  ghost predicate Inv(g: Graph, s: Progress, open: set<Id>) {
    && Numbered(g, s)
    && open <= Stacked(s)
    && OlderReachesNewer(g, s.stack)
    && Anchored(g, s.stack, open)
    && Explored(g, s, open)
    && ClosedUnderEdges(g, Done(s))
    && Reported(g, Done(s), s.cycles)
  }

  /** `s` continues `s0` without touching what `s0` had numbered or stacked. */
  ghost predicate Extends(s0: Progress, s: Progress) {
    && s0.counter <= s.counter
    && s0.stack <= s.stack
    && s0.index.Keys <= s.index.Keys
    && s0.index.Keys <= s0.lowlink.Keys <= s.lowlink.Keys
    && (forall x :: x in s0.index ==> s.index[x] == s0.index[x] && s.lowlink[x] == s0.lowlink[x])
    && (forall x :: x in s.index && x !in s0.index ==> s0.counter <= s.index[x])
  }

  /** A low link is the number of the id itself or of a stacked id it reaches. */
  ghost predicate LowSound(g: Graph, s0: Progress, node: Id, low: nat) {
    low == s0.counter ||
    exists y :: y in s0.stack && y in s0.index && s0.index[y] == low && Reach(g, node, y)
  }

  ghost predicate LowBelow(s0: Progress, y: Id, low: nat) {
    y in s0.stack && y in s0.index ==> low <= s0.index[y]
  }

  /** No edge from `from` drops below `low` into the older stack. */
  ghost predicate LowComplete(g: Graph, s0: Progress, from: seq<Id>, low: nat) {
    forall v, y :: v in from && Edge(g, v, y) ==> LowBelow(s0, y, low)
  }

  ghost predicate Connected(g: Graph, s0: Progress, s: Progress, node: Id) {
    && Extends(s0, s)
    && node in s.index && node in s.lowlink
    && s.index[node] == s0.counter
    && s.lowlink[node] <= s0.counter
    && LowSound(g, s0, node, s.lowlink[node])
    && LowComplete(g, s0, s.stack[|s0.stack|..], s.lowlink[node])
  }

  /** While `node`, visited from `s0`, has had its first `i` successors scanned. */
  ghost predicate Scanning(g: Graph, s0: Progress, s: Progress, node: Id, i: nat) {
    && Extends(s0, s)
    && node !in s0.index && node in s.index && node in s.lowlink
    && |s0.stack| < |s.stack| && s.stack[|s0.stack|] == node
    && s.index[node] == s0.counter
    && s.lowlink[node] <= s0.counter
    && LowSound(g, s0, node, s.lowlink[node])
    && LowComplete(g, s0, s.stack[|s0.stack| + 1..], s.lowlink[node])
    && i <= |Successors(g, node)|
    && forall j :: 0 <= j < i ==>
         Successors(g, node)[j] in s.index && LowBelow(s0, Successors(g, node)[j], s.lowlink[node])
  }

  function Min(a: nat, b: nat): nat {
    if a <= b then a else b
  }

  function Pushed(s: Progress, node: Id): Progress {
    Progress(s.counter + 1, s.stack + [node], s.index[node := s.counter],
             s.lowlink[node := s.counter], s.cycles)
  }

  function Lowered(s: Progress, node: Id, n: nat): Progress
    requires node in s.lowlink
  {
    s.(lowlink := s.lowlink[node := Min(s.lowlink[node], n)])
  }

  lemma Enter(g: Graph, s: Progress, open: set<Id>, node: Id)
    requires Inv(g, s, open)
    requires node in Nodes(g) && node !in s.index
    requires forall x :: x in open ==> Reach(g, x, node)
    ensures Inv(g, Pushed(s, node), open + {node})
    ensures Scanning(g, s, Pushed(s, node), node, 0)
  {
    var t := Pushed(s, node);
    assert Stacked(t) == Stacked(s) + {node} by {
      assert node in t.stack by { assert t.stack[|s.stack|] == node; }
    }
    assert Done(t) == Done(s);
    assert t.stack[|s.stack| + 1..] == [];
    EnterReach(g, s.stack, open, node);
  }

  lemma EnterReach(g: Graph, stack: seq<Id>, open: set<Id>, node: Id)
    requires OlderReachesNewer(g, stack) && Anchored(g, stack, open)
    requires forall x :: x in open ==> Reach(g, x, node)
    ensures OlderReachesNewer(g, stack + [node]) && Anchored(g, stack + [node], open + {node})
  {
    var n := |stack|;
    var longer := stack + [node];
    ReachSelf(g, node);
    forall i | 0 <= i < n
      ensures Reach(g, stack[i], node)
    {
      assert HasAnchor(g, stack, open, i);
      var k :| AnchoredAt(g, stack, open, i, k);
      ReachTrans(g, stack[i], stack[k], node);
    }
    forall j | 0 <= j < |longer|
      ensures HasAnchor(g, longer, open + {node}, j)
    {
      if j == n {
        assert AnchoredAt(g, longer, open + {node}, n, n);
      } else {
        assert HasAnchor(g, stack, open, j);
        var k :| AnchoredAt(g, stack, open, j, k);
        assert AnchoredAt(g, longer, open + {node}, j, k);
      }
    }
  }

  lemma LoweringKeepsInv(g: Graph, s: Progress, open: set<Id>, node: Id, n: nat)
    requires Inv(g, s, open) && node in s.lowlink
    ensures Inv(g, Lowered(s, node, n), open)
  {
    assert Done(Lowered(s, node, n)) == Done(s);
  }

  /** An id below `node`'s number is older than `node` on the stack. */
  lemma OlderOnStack(g: Graph, s0: Progress, s: Progress, node: Id, i: nat, y: Id)
    requires Numbered(g, s0) && Numbered(g, s) && Scanning(g, s0, s, node, i)
    requires y in s.stack && s.index[y] < s0.counter
    ensures y in s0.stack
  {
    var k :| 0 <= k < |s.stack| && s.stack[k] == y;
    if k > |s0.stack| {
      assert s.index[s.stack[|s0.stack|]] < s.index[s.stack[k]];
    }
  }

  /** The scan step for a successor that was visited before. */
  lemma ScanVisited(g: Graph, s0: Progress, s: Progress, node: Id, i: nat)
    requires Numbered(g, s0) && Numbered(g, s) && Scanning(g, s0, s, node, i)
    requires i < |Successors(g, node)| && Successors(g, node)[i] in s.index
    ensures var w := Successors(g, node)[i];
            Scanning(g, s0, if w in s.stack then Lowered(s, node, s.index[w]) else s, node, i + 1)
  {
    hide Scanning;
    if Successors(g, node)[i] in s.stack {
      ScanStacked(g, s0, s, node, i);
    } else {
      ScanPassed(g, s0, s, node, i);
    }
  }

  lemma ScanStacked(g: Graph, s0: Progress, s: Progress, node: Id, i: nat)
    requires Numbered(g, s0) && Numbered(g, s) && Scanning(g, s0, s, node, i)
    requires i < |Successors(g, node)| && Successors(g, node)[i] in s.index && Successors(g, node)[i] in s.stack
    ensures Scanning(g, s0, Lowered(s, node, s.index[Successors(g, node)[i]]), node, i + 1)
  {
    hide Reach, Numbered;
    var w := Successors(g, node)[i];
    assert Edge(g, node, w);
    ReachEdge(g, node, w);
    if s.index[w] < s.lowlink[node] {
      OlderOnStack(g, s0, s, node, i, w);
    }
  }

  lemma ScanPassed(g: Graph, s0: Progress, s: Progress, node: Id, i: nat)
    requires Scanning(g, s0, s, node, i)
    requires i < |Successors(g, node)| && Successors(g, node)[i] in s.index && Successors(g, node)[i] !in s.stack
    ensures Scanning(g, s0, s, node, i + 1)
  {
    hide LowSound, LowComplete;
    assert Successors(g, node)[i] !in s0.stack by {
      assert s0.stack == s.stack[..|s0.stack|];
    }
  }

  /** The scan step for a successor that the recursive call has just visited. */
  lemma ScanRecursive(g: Graph, s0: Progress, s: Progress, t: Progress, node: Id, i: nat)
    requires Numbered(g, s0) && Numbered(g, s)
    requires Scanning(g, s0, s, node, i)
    requires i < |Successors(g, node)| && Successors(g, node)[i] !in s.index
    requires Connected(g, s, t, Successors(g, node)[i])
    ensures var w := Successors(g, node)[i];
            node in t.lowlink && Scanning(g, s0, Lowered(t, node, t.lowlink[w]), node, i + 1)
  {
    hide LowSound, LowComplete;
    var w := Successors(g, node)[i];
    RecursiveLowSound(g, s0, s, t, node, i);
    RecursiveLowComplete(g, s0, s, t, node, i);
    assert s0.stack <= s.stack <= t.stack;
    assert w !in s0.stack by {
      assert w in s0.stack ==> w in s.stack;
    }
    forall j | 0 <= j < i + 1
      ensures LowBelow(s0, Successors(g, node)[j], Min(s.lowlink[node], t.lowlink[w]))
    {
      assert j < i ==> LowBelow(s0, Successors(g, node)[j], s.lowlink[node]);
    }
  }

  lemma RecursiveLowSound(g: Graph, s0: Progress, s: Progress, t: Progress, node: Id, i: nat)
    requires Numbered(g, s0) && Numbered(g, s)
    requires Scanning(g, s0, s, node, i)
    requires i < |Successors(g, node)|
    requires Connected(g, s, t, Successors(g, node)[i])
    ensures LowSound(g, s0, node, Min(s.lowlink[node], t.lowlink[Successors(g, node)[i]]))
  {
    var w := Successors(g, node)[i];
    var lowW := t.lowlink[w];
    if lowW < s.lowlink[node] {
      var y :| y in s.stack && y in s.index && s.index[y] == lowW && Reach(g, w, y);
      OlderOnStack(g, s0, s, node, i, y);
      ReachEdge(g, node, w);
      ReachTrans(g, node, w, y);
      assert s0.index[y] == lowW;
    }
  }

  lemma RecursiveLowComplete(g: Graph, s0: Progress, s: Progress, t: Progress, node: Id, i: nat)
    requires Scanning(g, s0, s, node, i)
    requires i < |Successors(g, node)|
    requires Connected(g, s, t, Successors(g, node)[i])
    ensures LowComplete(g, s0, t.stack[|s0.stack| + 1..], Min(s.lowlink[node], t.lowlink[Successors(g, node)[i]]))
  {
    var low, lowW := s.lowlink[node], t.lowlink[Successors(g, node)[i]];
    var n, m := |s0.stack|, |s.stack|;
    assert t.stack[n + 1..] == s.stack[n + 1..] + t.stack[m..];
    forall v, y | v in t.stack[n + 1..] && Edge(g, v, y)
      ensures LowBelow(s0, y, Min(low, lowW))
    {
      if v in s.stack[n + 1..] {
        assert LowBelow(s0, y, low);
      } else {
        assert LowBelow(s, y, lowW);
        assert s0.stack <= s.stack;
      }
    }
  }

  /** A fully scanned `node` has only visited successors. */
  lemma AllScanned(g: Graph, s0: Progress, s: Progress, node: Id, y: Id)
    requires Scanning(g, s0, s, node, |Successors(g, node)|)
    requires Edge(g, node, y)
    ensures y in s.index && LowBelow(s0, y, s.lowlink[node])
  {
    var j :| 0 <= j < |Successors(g, node)| && Successors(g, node)[j] == y;
  }

  /** `node` is fully scanned but its low link points to an older id: it stays stacked. */
  lemma LeaveStacked(g: Graph, s0: Progress, s: Progress, open: set<Id>, node: Id)
    requires Inv(g, s0, open) && Inv(g, s, open + {node})
    requires Scanning(g, s0, s, node, |Successors(g, node)|)
    requires s.lowlink[node] != s.index[node]
    ensures Inv(g, s, open) && Connected(g, s0, s, node)
  {
    var k := LowLinkPosition(g, s0, s, node);
    StackHasNoDuplicates(g, s);
    AnchorElsewhere(g, s0.stack, s.stack, open, node, k);
    StackedConnected(g, s0, s, node);
  }

  lemma LowLinkPosition(g: Graph, s0: Progress, s: Progress, node: Id) returns (k: nat)
    requires Scanning(g, s0, s, node, |Successors(g, node)|)
    requires s.lowlink[node] != s.index[node]
    ensures k < |s0.stack| && Reach(g, node, s0.stack[k])
  {
    var z :| z in s0.stack && z in s0.index && s0.index[z] == s.lowlink[node] && Reach(g, node, z);
    k :| 0 <= k < |s0.stack| && s0.stack[k] == z;
  }

  lemma StackedConnected(g: Graph, s0: Progress, s: Progress, node: Id)
    requires Scanning(g, s0, s, node, |Successors(g, node)|)
    ensures Connected(g, s0, s, node)
    ensures forall y :: Edge(g, node, y) ==> y in s.index
  {
    forall y | Edge(g, node, y)
      ensures y in s.index && LowBelow(s0, y, s.lowlink[node])
    {
      AllScanned(g, s0, s, node, y);
    }
    assert s.stack[|s0.stack|..] == [node] + s.stack[|s0.stack| + 1..];
  }

  /** What was anchored at `node` is anchored where `node`'s low link leads. */
  lemma AnchorElsewhere(g: Graph, older: seq<Id>, stack: seq<Id>, open: set<Id>, node: Id, k: nat)
    requires Anchored(g, older, open) && Anchored(g, stack, open + {node})
    requires older <= stack && k < |older| < |stack| && stack[|older|] == node
    requires NoDuplicates(stack)
    requires Reach(g, node, older[k])
    ensures Anchored(g, stack, open)
  {
    forall j | 0 <= j < |stack|
      ensures HasAnchor(g, stack, open, j)
    {
      assert HasAnchor(g, stack, open + {node}, j);
      var i :| AnchoredAt(g, stack, open + {node}, j, i);
      if stack[i] == node {
        assert HasAnchor(g, older, open, k);
        var h :| AnchoredAt(g, older, open, k, h);
        ReachTrans(g, stack[j], node, older[k]);
        ReachTrans(g, stack[j], older[k], older[h]);
        assert i == |older|;
        assert AnchoredAt(g, stack, open, j, h);
      } else {
        assert AnchoredAt(g, stack, open, j, i);
      }
    }
  }

  lemma StackHasNoDuplicates(g: Graph, s: Progress)
    requires Numbered(g, s)
    ensures NoDuplicates(s.stack)
  {
  }

  /** `c` is the stack from position `n` on, in the order it is popped. */
  ghost predicate Segment(stack: seq<Id>, n: nat, c: seq<Id>) {
    && n < |stack|
    && |c| == |stack| - n
    && forall i :: 0 <= i < |c| ==> c[i] == stack[|stack| - 1 - i]
  }

  lemma SegmentMembers(stack: seq<Id>, n: nat, c: seq<Id>, x: Id)
    requires Segment(stack, n, c)
    ensures x in c <==> x in stack[n..]
  {
    if x in c {
      var i :| 0 <= i < |c| && c[i] == x;
      assert stack[n..][|c| - 1 - i] == x;
    }
    if x in stack[n..] {
      var k :| 0 <= k < |c| && stack[n..][k] == x;
      assert c[|c| - 1 - k] == x;
    }
  }

  /** Members of the segment are mutually reachable with its first id. */
  lemma SegmentIsMutual(g: Graph, stack: seq<Id>, open: set<Id>, n: nat, v: Id)
    requires n < |stack| && (forall i :: n <= i < |stack| ==> stack[i] !in open)
    requires OlderReachesNewer(g, stack) && Anchored(g, stack, open + {stack[n]})
    requires v in stack[n..]
    ensures Mutual(g, stack[n], v)
  {
    var k :| n <= k < |stack| && stack[k] == v;
    assert HasAnchor(g, stack, open + {stack[n]}, k);
    var i :| AnchoredAt(g, stack, open + {stack[n]}, k, i);
    if stack[i] != stack[n] {
      assert Reach(g, stack[i], stack[n]);
      ReachTrans(g, v, stack[i], stack[n]);
    }
  }

  /** Edges out of `members` lead to `members` or to what is already done. */
  ghost predicate SealedOff(g: Graph, members: seq<Id>, done: set<Id>) {
    forall v, y :: v in members && Edge(g, v, y) ==> y in members || y in done
  }

  ghost predicate ClosedUnderEdges(g: Graph, done: set<Id>) {
    forall x, y :: x in done && Edge(g, x, y) ==> y in done
  }

  /** Once the low link equals the number, no edge leaves the segment except
      into components that are already done. */
  lemma SegmentIsSealedOff(g: Graph, s0: Progress, s: Progress, open: set<Id>, node: Id)
    requires Numbered(g, s0) && Numbered(g, s) && Explored(g, s, open + {node})
    requires open <= Stacked(s0)
    requires Scanning(g, s0, s, node, |Successors(g, node)|)
    requires s.lowlink[node] == s.index[node]
    ensures SealedOff(g, s.stack[|s0.stack|..], Done(s))
  {
    StackHasNoDuplicates(g, s);
    var seg := s.stack[|s0.stack|..];
    forall v, y | v in seg && Edge(g, v, y)
      ensures y in seg || y in Done(s)
    {
      var k :| 0 <= k < |seg| && seg[k] == v;
      SegmentEdge(g, s0, s, open, node, |s0.stack| + k, y);
    }
  }

  lemma SegmentEdge(g: Graph, s0: Progress, s: Progress, open: set<Id>, node: Id, k: nat, y: Id)
    requires Numbered(g, s0) && Numbered(g, s) && Explored(g, s, open + {node})
    requires open <= Stacked(s0) && NoDuplicates(s.stack)
    requires Scanning(g, s0, s, node, |Successors(g, node)|)
    requires s.lowlink[node] == s.index[node]
    requires |s0.stack| <= k < |s.stack| && Edge(g, s.stack[k], y)
    ensures y in s.stack[|s0.stack|..] || y in Done(s)
  {
    hide Edge, Reach, LowSound, Nodes;
    var n := |s0.stack|;
    if k == n {
      AllScanned(g, s0, s, node, y);
    } else {
      assert s.stack[k] == s.stack[n + 1..][k - n - 1];
      OpenIsOlder(s0, s, open, n, k);
      assert s.stack[k] != s.stack[n];
    }
    NotOlder(g, s0, s, y);
    assert s.stack == s.stack[..n] + s.stack[n..];
  }

  /** An id whose number is not below the segment's is not older than the segment. */
  lemma NotOlder(g: Graph, s0: Progress, s: Progress, y: Id)
    requires Numbered(g, s) && Extends(s0, s) && |s0.stack| < |s.stack|
    requires (forall x :: x in s0.stack ==> x in s0.index)
    requires LowBelow(s0, y, s.index[s.stack[|s0.stack|]])
    ensures y !in s.stack[..|s0.stack|]
  {
    var n := |s0.stack|;
    assert s.stack[..n] == s0.stack;
    forall h | 0 <= h < n
      ensures s0.stack[h] != y
    {
      assert s0.stack[h] in s0.stack;
      assert s.index[s.stack[h]] < s.index[s.stack[n]];
    }
  }

  lemma OpenIsOlder(s0: Progress, s: Progress, open: set<Id>, n: nat, k: nat)
    requires s0.stack <= s.stack && open <= Stacked(s0) && n == |s0.stack| <= k < |s.stack|
    requires NoDuplicates(s.stack)
    ensures s.stack[k] !in open
  {
    forall h | 0 <= h < n
      ensures s0.stack[h] != s.stack[k]
    {
      assert s.stack[h] == s0.stack[h];
    }
  }

  lemma SegmentIsComponent(g: Graph, stack: seq<Id>, open: set<Id>, done: set<Id>, n: nat, c: seq<Id>)
    requires Segment(stack, n, c) && NoDuplicates(stack)
    requires OlderReachesNewer(g, stack) && Anchored(g, stack, open + {stack[n]})
    requires forall i :: n <= i < |stack| ==> stack[i] !in open
    requires SealedOff(g, stack[n..], done) && ClosedUnderEdges(g, done) && stack[n] !in done
    ensures IsComponent(g, c) && stack[n] in c
  {
    var seg, node := stack[n..], stack[n];
    forall x
      ensures x in c <==> x in seg
    {
      SegmentMembers(stack, n, c, x);
    }
    assert seg[0] == node;
    SegmentIsMutual(g, stack, open, n, c[0]);
    forall y
      ensures y in c <==> Mutual(g, c[0], y)
    {
      if y in c {
        SegmentIsMutual(g, stack, open, n, y);
        ReachTrans(g, c[0], node, y);
        ReachTrans(g, y, node, c[0]);
      }
      if Mutual(g, c[0], y) {
        ReachTrans(g, node, c[0], y);
        ReachTrans(g, y, c[0], node);
        SealedOffIsMaximal(g, seg, done, node, y);
      }
    }
  }

  lemma SealedOffIsMaximal(g: Graph, seg: seq<Id>, done: set<Id>, node: Id, y: Id)
    requires SealedOff(g, seg, done) && ClosedUnderEdges(g, done)
    requires node in seg && node !in done && Mutual(g, node, y)
    ensures y in seg
  {
    var inside := (set x | x in seg) + done;
    ReachStaysInside(g, inside, node, y);
    if y in done {
      ReachStaysInside(g, done, y, node);
    }
  }

  function Popped(s0: Progress, s: Progress, g: Graph, node: Id, c: seq<Id>): Progress {
    s.(stack := s0.stack,
       cycles := if |c| > 1 || node in Successors(g, node) then s.cycles + [c] else s.cycles)
  }

  lemma LeavePopped(g: Graph, s0: Progress, s: Progress, open: set<Id>, node: Id, c: seq<Id>)
    requires Inv(g, s0, open) && Inv(g, s, open + {node})
    requires Scanning(g, s0, s, node, |Successors(g, node)|)
    requires s.lowlink[node] == s.index[node]
    requires Segment(s.stack, |s0.stack|, c)
    ensures Inv(g, Popped(s0, s, g, node, c), open)
    ensures Connected(g, s0, Popped(s0, s, g, node, c), node)
  {
    hide OlderReachesNewer, Reported;
    var t := Popped(s0, s, g, node, c);
    var n := |s0.stack|;
    assert s0.stack == s.stack[..n];
    StackHasNoDuplicates(g, s);
    assert node in s.stack;
    SegmentIsSealedOff(g, s0, s, open, node);
    forall i | n <= i < |s.stack|
      ensures s.stack[i] !in open
    {
      OpenIsOlder(s0, s, open, n, i);
    }
    SegmentIsComponent(g, s.stack, open, Done(s), n, c);
    PoppedDone(s.stack, n, c, s.index.Keys, Done(s), Done(t));
    ReportComponent(g, Done(s), s.cycles, c, node);
    PoppedStaysClosed(g, s.stack, n, c, Done(s));
    forall y | Edge(g, node, y)
      ensures y in s.index
    {
      AllScanned(g, s0, s, node, y);
    }
    assert t.stack[n..] == [];
    assert Stacked(t) == Stacked(s0);
  }

  lemma PoppedStaysClosed(g: Graph, stack: seq<Id>, n: nat, c: seq<Id>, done: set<Id>)
    requires Segment(stack, n, c)
    requires SealedOff(g, stack[n..], done) && ClosedUnderEdges(g, done)
    ensures ClosedUnderEdges(g, done + set x | x in c)
  {
    forall x
      ensures x in c <==> x in stack[n..]
    {
      SegmentMembers(stack, n, c, x);
    }
  }

  lemma PoppedDone(stack: seq<Id>, n: nat, c: seq<Id>, visited: set<Id>, before: set<Id>, after: set<Id>)
    requires Segment(stack, n, c) && NoDuplicates(stack)
    requires forall i :: 0 <= i < |stack| ==> stack[i] in visited
    requires before == visited - set x | x in stack
    requires after == visited - set x | x in stack[..n]
    ensures after == before + set x | x in c
    ensures forall x :: x in c ==> x !in before
  {
    forall x
      ensures x in c <==> x in stack && x !in stack[..n]
    {
      SegmentMembers(stack, n, c, x);
      assert stack == stack[..n] + stack[n..];
      if x in stack[n..] {
        var k :| n <= k < |stack| && stack[k] == x;
        forall h | 0 <= h < n
          ensures stack[..n][h] != x
        {
        }
      }
    }
  }

  /** Reporting a finished component keeps the report exact. */
  lemma ReportComponent(g: Graph, done: set<Id>, cycles: seq<seq<Id>>, c: seq<Id>, node: Id)
    requires Reported(g, done, cycles)
    requires IsComponent(g, c) && node in c
    requires forall x :: x in c ==> x !in done
    ensures var report := if |c| > 1 || node in Successors(g, node) then cycles + [c] else cycles;
            Reported(g, done + (set x | x in c), report)
  {
    var report := if |c| > 1 || node in Successors(g, node) then cycles + [c] else cycles;
    assert |c| == 1 ==> c[0] == node;
    assert report != cycles <==> IsCyclicComponent(g, c);
    forall x | x in done + (set x | x in c) && OnCycle(g, x)
      ensures Listed(report, x)
    {
      if x in c {
        CyclicIffOnCycle(g, c, x);
        assert x in report[|cycles|];
      } else {
        var k :| 0 <= k < |cycles| && x in cycles[k];
        assert x in report[k];
      }
    }
  }

  /** One run of the search. */
  class Search {
    const graph: Graph
    var counter: nat
    var stack: seq<Id>
    var onStack: map<Id, bool>
    var index: map<Id, nat>
    var lowlink: map<Id, nat>
    var cycles: seq<seq<Id>>

    constructor (graph: Graph)
      ensures this.graph == graph
      ensures Valid({}) && State() == Progress(0, [], map[], map[], [])
    {
      this.graph := graph;
      counter, stack, onStack := 0, [], map[];
      index, lowlink, cycles := map[], map[], [];
    }

    ghost function State(): Progress
      reads this
    {
      Progress(counter, stack, index, lowlink, cycles)
    }

    /** The on-stack map agrees with the stack. */
    ghost predicate Marked()
      reads this
    {
      forall x :: x in stack <==> x in onStack && onStack[x]
    }

    ghost predicate Valid(open: set<Id>)
      reads this
    {
      Marked() && Inv(graph, State(), open)
    }

    /** The start of a visit: numbers `node` and stacks it. */
    method OpenNode(node: Id, ghost open: set<Id>)
      requires Valid(open)
      requires node in Nodes(graph) && node !in index
      requires forall x :: x in open ==> Reach(graph, x, node)
      modifies this
      ensures Valid(open + {node})
      ensures State() == Pushed(old(State()), node)
      ensures Scanning(graph, old(State()), State(), node, 0)
    {
      hide Inv, Scanning, Connected;
      Enter(graph, State(), open, node);
      index := index[node := counter];
      lowlink := lowlink[node := counter];
      counter := counter + 1;
      stack := stack + [node];
      onStack := onStack[node := true];
    }

    method LowerLink(node: Id, n: nat, ghost open: set<Id>)
      requires Valid(open) && node in lowlink
      modifies this`lowlink
      ensures Valid(open)
      ensures State() == Lowered(old(State()), node, n)
    {
      LoweringKeepsInv(graph, State(), open, node, n);
      lowlink := lowlink[node := Min(lowlink[node], n)];
    }

    method StrongConnect(node: Id, ghost open: set<Id>)
      requires Valid(open)
      requires node in Nodes(graph) && node !in index
      requires forall x :: x in open ==> Reach(graph, x, node)
      modifies this
      ensures Valid(open)
      ensures Connected(graph, old(State()), State(), node)
      decreases Nodes(graph) - index.Keys
    {
      ghost var s0 := State();
      OpenNode(node, open);

      var successors := Successors(graph, node);
      for i := 0 to |successors|
        invariant Valid(open + {node})
        invariant Scanning(graph, s0, State(), node, i)
      {
        var successor := successors[i];
        ghost var s := State();
        assert Edge(graph, node, successor);
        if successor !in index {
          ReachThroughOpen(graph, open, node, successor);
          StrongConnect(successor, open + {node});
          ScanRecursive(graph, s0, s, State(), node, i);
          LowerLink(node, lowlink[successor], open + {node});
        } else {
          ScanVisited(graph, s0, s, node, i);
          if successor in onStack && onStack[successor] {
            LowerLink(node, index[successor], open + {node});
          }
        }
      }

      CloseNode(node, s0, open);
    }

    /** The end of a visit: takes the component off the stack when `node` is its root. */
    method CloseNode(node: Id, ghost s0: Progress, ghost open: set<Id>)
      requires Valid(open + {node}) && Inv(graph, s0, open)
      requires Scanning(graph, s0, State(), node, |Successors(graph, node)|)
      modifies this
      ensures Valid(open)
      ensures Connected(graph, s0, State(), node)
    {
      ghost var s := State();
      if lowlink[node] == index[node] {
        var component := PopComponent(node, |s0.stack|);
        assert stack == s0.stack;
        LeavePopped(graph, s0, s, open, node, component);
        if |component| > 1 || node in Successors(graph, node) {
          cycles := cycles + [component];
        }
        assert State() == Popped(s0, s, graph, node, component);
      } else {
        LeaveStacked(graph, s0, s, open, node);
      }
    }

    /** Pops down to and including `node`, which sits at `depth`. */
    method PopComponent(node: Id, ghost depth: nat) returns (component: seq<Id>)
      requires Marked() && Numbered(graph, State())
      requires depth < |stack| && stack[depth] == node
      modifies this`stack, this`onStack
      ensures Marked()
      ensures stack == old(stack)[..depth]
      ensures |component| == |old(stack)| - depth
      ensures forall i :: 0 <= i < |component| ==> component[i] == old(stack)[|old(stack)| - 1 - i]
    {
      component := [];
      var finished := false;
      while !finished
        invariant Marked()
        invariant |stack| + |component| == |old(stack)|
        invariant stack == old(stack)[..|stack|]
        invariant if finished then |stack| == depth else depth < |stack|
        invariant forall i :: 0 <= i < |component| ==> component[i] == old(stack)[|old(stack)| - 1 - i]
        decreases |stack|, !finished
      {
        var member := stack[|stack| - 1];
        PopMarks(stack, index, onStack);
        stack := stack[..|stack| - 1];
        onStack := onStack[member := false];
        component := component + [member];
        finished := member == node;
        assert old(stack)[|stack|] == member;
        assert |stack| > depth ==> index[old(stack)[depth]] < index[old(stack)[|stack|]];
      }
    }

    static lemma PopMarks(stack: seq<Id>, index: map<Id, nat>, onStack: map<Id, bool>)
      requires |stack| > 0
      requires forall x :: x in stack ==> x in index
      requires forall i, j :: 0 <= i < j < |stack| ==> index[stack[i]] < index[stack[j]]
      requires forall x :: x in stack <==> x in onStack && onStack[x]
      ensures var top := stack[|stack| - 1];
              var marks := onStack[top := false];
              forall x :: x in stack[..|stack| - 1] <==> x in marks && marks[x]
    {
      var n := |stack| - 1;
      assert stack == stack[..n] + [stack[n]];
      forall k | 0 <= k < n
        ensures stack[..n][k] != stack[n]
      {
        assert index[stack[k]] < index[stack[n]];
      }
    }
  }

  lemma ReachThroughOpen(g: Graph, open: set<Id>, node: Id, successor: Id)
    requires forall x :: x in open ==> Reach(g, x, node)
    requires Edge(g, node, successor)
    ensures forall x :: x in open + {node} ==> Reach(g, x, successor)
    ensures successor in Nodes(g)
  {
    ReachEdge(g, node, successor);
    forall x | x in open + {node}
      ensures Reach(g, x, successor)
    {
      ReachSelf(g, node);
      ReachTrans(g, x, node, successor);
    }
  }

  /** The cyclic strongly connected components of `graph`, each exactly once.
      `keys` is the iteration order of the dictionary. */
  method FindCycles(graph: Graph, keys: seq<Id>) returns (cycles: seq<seq<Id>>)
    requires forall x :: x in keys <==> x in graph
    ensures forall k :: 0 <= k < |cycles| ==> IsCyclicComponent(graph, cycles[k])
    ensures forall j, k, x :: 0 <= j < k < |cycles| && x in cycles[j] ==> x !in cycles[k]
    ensures forall x :: OnCycle(graph, x) <==> exists k :: 0 <= k < |cycles| && x in cycles[k]
  {
    hide Inv, IsCyclicComponent, OnCycle;
    var search := new Search(graph);
    for i := 0 to |keys|
      invariant search.graph == graph && search.Valid({}) && fresh(search)
      invariant forall j :: 0 <= j < i ==> keys[j] in search.index
    {
      if keys[i] !in search.index {
        assert keys[i] in graph;
        search.StrongConnect(keys[i], {});
      }
    }
    cycles := search.cycles;
    FinishedReport(graph, search.State());
  }

  /** With nothing left open and every key visited, the report is complete. */
  lemma FinishedReport(g: Graph, s: Progress)
    requires Inv(g, s, {})
    requires forall x :: x in g ==> x in s.index
    ensures forall k :: 0 <= k < |s.cycles| ==> IsCyclicComponent(g, s.cycles[k])
    ensures Disjoint(s.cycles)
    ensures forall x :: OnCycle(g, x) <==> Listed(s.cycles, x)
  {
    assert |s.stack| == 0 by {
      assert 0 < |s.stack| ==> HasAnchor(g, s.stack, {}, 0);
    }
    forall x
      ensures OnCycle(g, x) <==> Listed(s.cycles, x)
    {
      if OnCycle(g, x) {
        var y := CycleHasFirstEdge(g, x);
        assert x in Done(s);
      }
      if Listed(s.cycles, x) {
        var k :| 0 <= k < |s.cycles| && x in s.cycles[k];
        CyclicIffOnCycle(g, s.cycles[k], x);
      }
    }
  }
}
