/** The cycle check that precedes binding (`cycleViolation` in `scheduler.ts`). */
module CycleCheck {
  import opened Js
  import opened Digraph
  import Inspection
  import Tarjan

  /** Raised stands for the TypeError that reading a property of a null edge throws. */
  datatype Verdict = NoViolation | Violation | Raised

  // ---------------------------------------------------------------- the graph in the document

  /** Names of the readable nodes, in order of first appearance. */
  function NodeNames(nodes: seq<Value>): seq<string> {
    if nodes == [] then []
    else
      var n := |nodes| - 1;
      var before := NodeNames(nodes[..n]);
      match Inspection.AsNodeEntry(nodes[n])
      case Some(entry) => if entry.name in before then before else before + [entry.name]
      case None => before
  }

  function EdgeEnds(e: Value): Option<(string, string)> {
    match (StringProperty(e, "srcNode"), StringProperty(e, "dstNode"))
    case (Some(src), Some(dst)) => Some((src, dst))
    case _ => None
  }

  /** An edge entry counts exactly when both of its ends are strings. */
  lemma EdgeEndsExactly(e: Value, u: string, v: string)
    ensures EdgeEnds(e) == Some((u, v)) <==>
      && e.Object? && "srcNode" in e.fields && e.fields["srcNode"] == String(u)
      && "dstNode" in e.fields && e.fields["dstNode"] == String(v)
  {
  }

  function AddEdge(adj: Adjacency, e: Value): Adjacency {
    match EdgeEnds(e)
    case Some((src, dst)) => if src in adj && dst in adj && dst !in adj[src] then adj[src := adj[src] + [dst]] else adj
    case None => adj
  }

  function Isolated(names: seq<string>): Adjacency {
    map n | n in names :: []
  }

  function Adjacent(names: seq<string>, edges: seq<Value>): Adjacency {
    if edges == [] then Isolated(names)
    else AddEdge(Adjacent(names, edges[..|edges| - 1]), edges[|edges| - 1])
  }

  function GraphOf(nodes: seq<Value>, edges: seq<Value>): Adjacency {
    Adjacent(NodeNames(nodes), edges)
  }

  function EdgesOf(graph: Value): Option<seq<Value>> {
    ArrayProperty(graph, "edges")
  }

  ghost predicate Declares(edges: seq<Value>, u: string, v: string) {
    exists e :: e in edges && EdgeEnds(e) == Some((u, v))
  }

  ghost predicate DeclaresNode(nodes: seq<Value>, name: string) {
    exists n :: n in nodes && Inspection.AsNodeEntry(n).Some? && Inspection.AsNodeEntry(n).value.name == name
  }

  lemma {:induction false} NodeNamesAreDeclared(nodes: seq<Value>)
    ensures Distinct(NodeNames(nodes))
    ensures forall name :: name in NodeNames(nodes) <==> DeclaresNode(nodes, name)
  {
    if nodes != [] {
      var n := |nodes| - 1;
      NodeNamesAreDeclared(nodes[..n]);
      assert nodes == nodes[..n] + [nodes[n]];
      forall name ensures name in NodeNames(nodes) <==> DeclaresNode(nodes, name) {
        assert DeclaresNode(nodes, name) <==> DeclaresNode(nodes[..n], name) || DeclaresNode([nodes[n]], name);
        assert nodes[n] in [nodes[n]];
      }
    }
  }

  lemma {:induction false} AdjacentShape(names: seq<string>, edges: seq<Value>)
    ensures WellFormed(Adjacent(names, edges))
    ensures forall v :: v in Adjacent(names, edges) <==> v in names
  {
    if edges != [] {
      AdjacentShape(names, edges[..|edges| - 1]);
    }
  }

  /** The graph searched has exactly the declared nodes, and exactly the declared edges between them. */
  lemma {:induction false} AdjacentEdges(names: seq<string>, edges: seq<Value>, u: string, v: string)
    ensures Edge(Adjacent(names, edges), u, v) <==> u in names && v in names && Declares(edges, u, v)
  {
    AdjacentShape(names, edges);
    if edges != [] {
      var n := |edges| - 1;
      AdjacentShape(names, edges[..n]);
      AdjacentEdges(names, edges[..n], u, v);
      assert edges == edges[..n] + [edges[n]];
      assert Declares(edges, u, v) <==> Declares(edges[..n], u, v) || EdgeEnds(edges[n]) == Some((u, v));
    }
  }

  lemma GraphOfDocument(nodes: seq<Value>, edges: seq<Value>, u: string, v: string)
    ensures u in GraphOf(nodes, edges) <==> DeclaresNode(nodes, u)
    ensures Edge(GraphOf(nodes, edges), u, v) <==> DeclaresNode(nodes, u) && DeclaresNode(nodes, v) && Declares(edges, u, v)
  {
    NodeNamesAreDeclared(nodes);
    AdjacentShape(NodeNames(nodes), edges);
    AdjacentEdges(NodeNames(nodes), edges, u, v);
  }

  // ---------------------------------------------------------------- groups

  predicate Grouped(groups: seq<seq<string>>, n: string) {
    exists i :: 0 <= i < |groups| && n in groups[i]
  }

  /** Position of the first group that lists n; the number of groups when none does. */
  function FirstGroup(groups: seq<seq<string>>, n: string): (k: nat)
    ensures k <= |groups|
    ensures k < |groups| ==> n in groups[k]
    ensures forall i :: 0 <= i < k ==> n !in groups[i]
  {
    if groups == [] then 0 else if n in groups[0] then 0 else 1 + FirstGroup(groups[1..], n)
  }

  /** Two grouped nodes on a common cycle whose first groups differ. */
  ghost predicate Conflict(g: Adjacency, groups: seq<seq<string>>, u: string, v: string) {
    && u in g && v in g && u != v && Grouped(groups, u) && Grouped(groups, v)
    && Mutual(g, u, v) && FirstGroup(groups, u) != FirstGroup(groups, v)
  }

  ghost predicate HasConflict(g: Adjacency, groups: seq<seq<string>>) {
    exists u, v :: Conflict(g, groups, u, v)
  }

  ghost function CycleVerdict(graph: Value, groups: seq<seq<string>>): Verdict {
    match (Inspection.NodesOf(graph), EdgesOf(graph))
    case (Some(nodes), Some(edges)) =>
      if Null in edges then Raised
      else if HasConflict(GraphOf(nodes, edges), groups) then Violation
      else NoViolation
    case _ => NoViolation
  }

  // ---------------------------------------------------------------- the check

  method CollectNames(nodes: seq<Value>) returns (all: seq<string>)
    ensures all == NodeNames(nodes)
  {
    all := [];
    for i := 0 to |nodes|
      invariant all == NodeNames(nodes[..i])
    {
      assert nodes[..i + 1][..i] == nodes[..i];
      var entry := Inspection.AsNodeEntry(nodes[i]);
      if entry.Some? && entry.value.name !in all {
        all := all + [entry.value.name];
      }
    }
    assert nodes[..|nodes|] == nodes;
  }

  method CollectEdges(all: seq<string>, edges: seq<Value>) returns (adj: Adjacency, raised: bool)
    ensures raised <==> Null in edges
    ensures !raised ==> adj == Adjacent(all, edges)
  {
    adj, raised := Isolated(all), false;
    for i := 0 to |edges|
      invariant !raised && Null !in edges[..i]
      invariant adj == Adjacent(all, edges[..i])
    {
      assert edges[..i + 1][..i] == edges[..i];
      if edges[i].Null? {
        return adj, true;
      }
      adj := AddEdge(adj, edges[i]);
    }
    assert edges[..|edges|] == edges;
  }

  /** Two grouped members of the component have different first groups. */
  ghost predicate SplitBy(component: seq<string>, groups: seq<seq<string>>) {
    exists u, v :: SplitPair(component, groups, u, v)
  }

  ghost predicate SplitPair(component: seq<string>, groups: seq<seq<string>>, u: string, v: string) {
    && u in component && v in component && Grouped(groups, u) && Grouped(groups, v)
    && FirstGroup(groups, u) != FirstGroup(groups, v)
  }

  method Splits(component: seq<string>, groups: seq<seq<string>>) returns (split: bool)
    ensures split <==> SplitBy(component, groups)
  {
    var distinct: set<nat> := {};
    for i := 0 to |component|
      invariant forall k :: k in distinct <==> exists n :: n in component[..i] && Grouped(groups, n) && FirstGroup(groups, n) == k
    {
      assert component[..i + 1] == component[..i] + [component[i]];
      if Grouped(groups, component[i]) {
        distinct := distinct + {FirstGroup(groups, component[i])};
      }
    }
    assert component[..|component|] == component;
    split := |distinct| > 1;
    SeveralElements(distinct);
    if split {
      ghost var a, b :| a in distinct && b in distinct && a != b;
      ghost var u :| u in component && Grouped(groups, u) && FirstGroup(groups, u) == a;
      ghost var v :| v in component && Grouped(groups, v) && FirstGroup(groups, v) == b;
      assert SplitPair(component, groups, u, v);
    }
    if SplitBy(component, groups) {
      ghost var u, v :| SplitPair(component, groups, u, v);
      assert FirstGroup(groups, u) in distinct && FirstGroup(groups, v) in distinct;
    }
  }

  lemma SeveralElements(s: set<nat>)
    ensures |s| > 1 <==> exists a, b :: a in s && b in s && a != b
  {
    if |s| > 1 {
      var a :| a in s;
      assert |s - {a}| > 0;
      var b :| b in s - {a};
    }
    if a, b :| a in s && b in s && a != b {
      assert {a, b} <= s && |s - {a, b}| == |s| - 2;
    }
  }

  /** The components decide the conflict, because they are the classes of mutual reachability. */
  lemma SplitIsConflict(g: Adjacency, groups: seq<seq<string>>, sccs: seq<seq<string>>, i: nat)
    requires Tarjan.IsPartition(g, sccs) && i < |sccs| && SplitBy(sccs[i], groups)
    ensures HasConflict(g, groups) && |sccs[i]| > 1
  {
    var u, v :| SplitPair(sccs[i], groups, u, v);
    assert Tarjan.InSome(sccs, u) && Tarjan.InSome(sccs, v);
    assert Conflict(g, groups, u, v);
  }

  lemma ConflictIsSplit(g: Adjacency, groups: seq<seq<string>>, sccs: seq<seq<string>>)
    requires Tarjan.IsPartition(g, sccs) && HasConflict(g, groups)
    ensures exists i :: 0 <= i < |sccs| && SplitBy(sccs[i], groups)
  {
    var u, v :| Conflict(g, groups, u, v);
    assert Tarjan.InSome(sccs, u);
    var i :| 0 <= i < |sccs| && u in sccs[i];
    assert SplitPair(sccs[i], groups, u, v);
  }

  /** The pass over the components; a component of one node without a self-loop is no cycle. */
  method AnySplit(adj: Adjacency, groups: seq<seq<string>>, sccs: seq<seq<string>>) returns (split: bool)
    requires Tarjan.IsPartition(adj, sccs)
    ensures split <==> HasConflict(adj, groups)
  {
    hide SplitBy, HasConflict, Mutual;
    for i := 0 to |sccs|
      invariant forall j :: 0 <= j < i ==> !SplitBy(sccs[j], groups)
    {
      assert Tarjan.InSome(sccs, sccs[i][0]);
      var isCycle := |sccs[i]| > 1 || sccs[i][0] in adj[sccs[i][0]];
      if SplitBy(sccs[i], groups) { SplitIsConflict(adj, groups, sccs, i); }
      if isCycle {
        split := Splits(sccs[i], groups);
        if split {
          return true;
        }
      }
    }
    if HasConflict(adj, groups) { ConflictIsSplit(adj, groups, sccs); }
    return false;
  }

  /**
   * Rejects exactly when two nodes named in the groups lie on a common cycle and their first groups differ.
   * Cycles through ungrouped nodes never reject.
   */
  method CycleViolation(graph: Value, groups: seq<seq<string>>) returns (verdict: Verdict)
    ensures verdict == CycleVerdict(graph, groups)
  {
    hide HasConflict, NodeNames, Adjacent, Tarjan.IsPartition;
    var nodes, edges := Inspection.NodesOf(graph), EdgesOf(graph);
    if nodes.None? || edges.None? {
      return NoViolation;
    }
    var all := CollectNames(nodes.value);
    var adj, raised := CollectEdges(all, edges.value);
    if raised {
      return Raised;
    }
    NodeNamesAreDeclared(nodes.value);
    AdjacentShape(all, edges.value);
    var sccs, _ := Tarjan.StronglyConnected(all, adj);
    var split := AnySplit(adj, groups, sccs);
    return if split then Violation else NoViolation;
  }
}
