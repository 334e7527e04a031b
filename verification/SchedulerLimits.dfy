/** Requests for which the binder's guarantees stop: shadowed intents and overlapping groups. */
module SchedulerLimits {
  import opened Js
  import opened Digraph
  import opened Inspection
  import opened Scheduler
  import opened SchedulerGuarantees
  import CycleCheck

  function PlainNode(name: string): Value {
    Object(map["name" := String(name)])
  }

  function PlainEdge(src: string, dst: string): Value {
    Object(map["srcNode" := String(src), "dstNode" := String(dst)])
  }

  function PlainModel(key: string, queue: int): Model {
    Model(key, queue, None)
  }

  lemma PlainEntry(name: string)
    requires name != ""
    ensures AsNodeEntry(PlainNode(name)) == Some(NodeEntry(name, [], []))
  {
    assert "inputs" != "name" && "outputs" != "name";
  }

  lemma PlainEnds(src: string, dst: string)
    ensures CycleCheck.EdgeEnds(PlainEdge(src, dst)) == Some((src, dst))
  {
    assert "srcNode"[0] != "dstNode"[0];
  }

  /** Two plain nodes in the document. */
  lemma PlainIndex(u: string, v: string)
    requires u != "" && v != "" && u != v
    ensures EntryIndex([PlainNode(u)]) == map[u := NodeEntry(u, [], [])]
    ensures EntryIndex([PlainNode(u), PlainNode(v)]) == map[u := NodeEntry(u, [], []), v := NodeEntry(v, [], [])]
  {
    PlainEntry(u);
    PlainEntry(v);
    assert [PlainNode(u)][..0] == [];
    assert EntryIndex([PlainNode(u)]) == map[][u := NodeEntry(u, [], [])];
    assert [PlainNode(u), PlainNode(v)][..1] == [PlainNode(u)];
  }

  /** A plain endpoint serves a plain node exactly when it holds the model with queue room. */
  lemma PlainServes(e: Endpoint, m: Intent, index: NodeIndex)
    requires m.nodeId in index && index[m.nodeId].inputs == [] && index[m.nodeId].outputs == []
    ensures ServesOne(e, m, index) <==>
      FirstModel(e.models, m.modelKey).Some? && FirstModel(e.models, m.modelKey).value.queueRemaining >= 1
  {
  }

  // ---------------------------------------------------------------- shadowed intents

  const MISSING := Intent("n", "missing")
  const HELD := Intent("n", "held")

  lemma ShadowedPartitions()
    ensures Partitions([MISSING, HELD], [["n"]]) == [[HELD]]
  {
    var intents := [MISSING, HELD];
    assert intents[..1] == [MISSING] && [MISSING][..0] == [];
    var byId := IntentById(intents);
    assert byId["n"] == HELD;
    assert CycleCheck.Grouped([["n"]], "n") by { assert "n" in [["n"]][0]; }
    assert ["n"][1..] == [];
    assert Members(byId, ["n"]) == [HELD];
    assert [["n"]][..0] == [];
    assert GroupPartitions(byId, [["n"]]) == [[HELD]];
    assert FreePartitions([["n"]], [MISSING]) == [];
    assert FreePartitions([["n"]], intents) == [];
  }

  /** A grouped node with two intents: the shadowed one is never checked by the binder, yet its binding is planned. */
  lemma ShadowedIntentFailsInspection() returns (input: BindingInput)
    ensures Bind(input).Bound? && Disjoint(input.groups) && !Consistent(input.intents, input.groups)
    ensures Inspect(input.graph, Targets(Bind(input).bindings), AllModels(input.endpoints)) != []
  {
    hide Bind, Inspect, Targets, AllModels;
    var graph := Object(map["nodes" := Array([PlainNode("n")])]);
    input := BindingInput("w", graph, [MISSING, HELD], [["n"]], [Endpoint("e", [PlainModel("held", 1)])]);
    assert "edges" != "nodes";
    ShadowedBinds(input);
    assert MISSING in input.intents && HELD in input.intents;
    assert CycleCheck.Grouped([["n"]], "n") by { assert "n" in [["n"]][0]; }
    ShadowedTarget(input);
  }

  lemma ShadowedBinds(input: BindingInput)
    requires input.intents == [MISSING, HELD] && input.groups == [["n"]]
    requires input.endpoints == [Endpoint("e", [PlainModel("held", 1)])]
    requires NodesOf(input.graph) == Some([PlainNode("n")]) && CycleCheck.EdgesOf(input.graph).None?
    ensures Bind(input).Bound?
  {
    hide Assign, Capacity, PlanBindings, AllModels, IntentById, SortByCapacity, Partitions, FirstServing, Bind, PlainNode;
    var e, index := input.endpoints[0], EntryIndex(NodesOrEmpty(input.graph));
    ShadowedPartitions();
    PlainIndex("n", "x");
    PlainServes(e, HELD, index);
    assert Serves(e, [HELD], index);
    assert !NobodyServes(input.endpoints, [HELD], index);
    BindDecides(input);
  }

  lemma ShadowedTarget(input: BindingInput)
    requires Bind(input).Bound? && input.intents == [MISSING, HELD]
    requires input.endpoints == [Endpoint("e", [PlainModel("held", 1)])]
    ensures Inspect(input.graph, Targets(Bind(input).bindings), AllModels(input.endpoints)) != []
  {
    var targets := Targets(Bind(input).bindings);
    assert targets[0] == Target("n", "missing");
    assert input.endpoints[1..] == [];
    assert AllModels(input.endpoints) == [PlainModel("held", 1)];
    assert targets[0] in targets;
    InspectionPasses(input.graph, targets, AllModels(input.endpoints));
  }

  // ---------------------------------------------------------------- overlapping groups

  const A := Intent("a", "x")
  const B := Intent("b", "y")
  const NARROW := Endpoint("narrow", [PlainModel("x", 1), PlainModel("y", 1)])
  const WIDE := Endpoint("wide", [PlainModel("y", 9)])

  lemma OverlapPartitions()
    ensures Partitions([A, B], [["a", "b"], ["b"]]) == [[A, B], [B]]
    ensures Members(IntentById([A, B]), ["a", "b"]) == [A, B] && Members(IntentById([A, B]), ["b"]) == [B]
  {
    var intents, groups := [A, B], [["a", "b"], ["b"]];
    assert intents[..1] == [A] && [A][..0] == [];
    var byId := IntentById(intents);
    assert IntentById([A]) == map["a" := A];
    assert byId == map["a" := A, "b" := B];
    assert ["a", "b"][1..] == ["b"] && ["b"][1..] == [];
    assert Members(byId, ["b"]) == [B];
    assert Members(byId, ["a", "b"]) == [A, B];
    assert groups[..1] == [["a", "b"]] && [["a", "b"]][..0] == [];
    assert GroupPartitions(byId, [["a", "b"]]) == [[A, B]];
    assert CycleCheck.Grouped(groups, "a") && CycleCheck.Grouped(groups, "b") by { assert "a" in groups[0] && "b" in groups[0]; }
    assert FreePartitions(groups, [A]) == [];
  }

  lemma OverlapPicks(index: NodeIndex)
    requires index == map["a" := NodeEntry("a", [], []), "b" := NodeEntry("b", [], [])]
    ensures FirstServing(SortByCapacity([NARROW, WIDE]), [A, B], index) == Some(NARROW)
    ensures FirstServing(SortByCapacity([NARROW, WIDE]), [B], index) == Some(WIDE)
  {
    assert NARROW.models[1..] == [PlainModel("y", 1)] && WIDE.models[1..] == [];
    assert Capacity(WIDE.models) == 9;
    assert Capacity([PlainModel("y", 1)]) == 1 by { assert [PlainModel("y", 1)][1..] == []; }
    assert Capacity(NARROW.models) == 2;
    assert [NARROW, WIDE][1..] == [WIDE] && [WIDE][1..] == [];
    assert SortByCapacity([WIDE]) == [WIDE];
    assert InsertByCapacity(NARROW, []) == [NARROW];
    assert InsertByCapacity(NARROW, [WIDE]) == [WIDE, NARROW];
    assert SortByCapacity([NARROW, WIDE]) == [WIDE, NARROW];
    PlainServes(NARROW, A, index);
    PlainServes(NARROW, B, index);
    PlainServes(WIDE, A, index);
    PlainServes(WIDE, B, index);
    assert !Serves(WIDE, [A, B], index) by { assert [A, B][0] == A; }
    assert Serves(NARROW, [A, B], index) && Serves(WIDE, [B], index);
    assert [WIDE, NARROW][1..] == [NARROW];
  }

  /** Overlapping groups: the later group rebinds a shared node away from the group and the cycle it belongs to. */
  lemma OverlappingGroupsSplitACycle() returns (input: BindingInput)
    ensures Bind(input).Bound? && !Disjoint(input.groups)
    ensures NodesOf(input.graph).Some? && CycleCheck.EdgesOf(input.graph).Some?
    ensures Mutual(CycleCheck.GraphOf(NodesOf(input.graph).value, CycleCheck.EdgesOf(input.graph).value), "a", "b")
    ensures ["a", "b"] in input.groups && IsIntentNode(input.intents, "a") && IsIntentNode(input.intents, "b")
    ensures "a" in Bind(input).nodeEndpoint && "b" in Bind(input).nodeEndpoint
    ensures Bind(input).nodeEndpoint["a"] != Bind(input).nodeEndpoint["b"]
  {
    var nodes, edges := [PlainNode("a"), PlainNode("b")], [PlainEdge("a", "b"), PlainEdge("b", "a")];
    var graph, groups := Object(map["nodes" := Array(nodes), "edges" := Array(edges)]), [["a", "b"], ["b"]];
    input := BindingInput("w", graph, [A, B], groups, [NARROW, WIDE]);
    assert "edges" != "nodes";
    assert NodesOf(graph) == Some(nodes) && CycleCheck.EdgesOf(graph) == Some(edges);
    OverlapGraph(nodes, edges);
    OverlapBinds(input);
    assert groups[0] in groups && A in input.intents && B in input.intents;
    assert "b" in groups[0] && "b" in groups[1];
    assert !Disjoint(groups);
  }

  lemma OverlapGraph(nodes: seq<Value>, edges: seq<Value>)
    requires nodes == [PlainNode("a"), PlainNode("b")] && edges == [PlainEdge("a", "b"), PlainEdge("b", "a")]
    ensures Mutual(CycleCheck.GraphOf(nodes, edges), "a", "b")
    ensures !CycleCheck.HasConflict(CycleCheck.GraphOf(nodes, edges), [["a", "b"], ["b"]]) && Null !in edges
  {
    var g := CycleCheck.GraphOf(nodes, edges);
    PlainEntry("a");
    PlainEntry("b");
    PlainEnds("a", "b");
    PlainEnds("b", "a");
    CycleCheck.GraphOfDocument(nodes, edges, "a", "b");
    CycleCheck.GraphOfDocument(nodes, edges, "b", "a");
    assert nodes[0] in nodes && nodes[1] in nodes && edges[0] in edges && edges[1] in edges;
    EdgeReaches(g, "a", "b");
    EdgeReaches(g, "b", "a");
    forall u | u in g ensures CycleCheck.FirstGroup([["a", "b"], ["b"]], u) == 0 {
      CycleCheck.GraphOfDocument(nodes, edges, u, u);
      assert u == "a" || u == "b";
    }
  }

  lemma OverlapBinds(input: BindingInput)
    requires input.intents == [A, B] && input.groups == [["a", "b"], ["b"]] && input.endpoints == [NARROW, WIDE]
    requires NodesOf(input.graph) == Some([PlainNode("a"), PlainNode("b")])
    requires CycleCheck.CycleVerdict(input.graph, input.groups) == CycleCheck.NoViolation
    ensures Bind(input).Bound? && "a" in Bind(input).nodeEndpoint && "b" in Bind(input).nodeEndpoint
    ensures Bind(input).nodeEndpoint["a"] == "narrow" && Bind(input).nodeEndpoint["b"] == "wide"
  {
    hide Assign, Partitions, SortByCapacity, EntryIndex, PlanBindings, CycleCheck.CycleVerdict, PlainNode, NobodyServes,
         FirstServing, IsGreedyPick;
    var index, parts := EntryIndex(NodesOrEmpty(input.graph)), Partitions(input.intents, input.groups);
    PlainIndex("a", "b");
    OverlapPartitions();
    OverlapPicks(index);
    PickIsGreedy(input.endpoints, [A, B], index);
    PickIsGreedy(input.endpoints, [B], index);
    BindDecides(input);
    assert A in parts[0] && B in parts[0] && B in parts[1];
    AssignedByLast(parts, SortByCapacity(input.endpoints), index, 0, "a");
    AssignedByLast(parts, SortByCapacity(input.endpoints), index, 1, "b");
  }

  // ---------------------------------------------------------------- a cycle outside every group

  lemma FreePicks(index: NodeIndex)
    requires index == map["a" := NodeEntry("a", [], []), "b" := NodeEntry("b", [], [])]
    ensures IsGreedyPick([NARROW, WIDE], [A], index, NARROW) && IsGreedyPick([NARROW, WIDE], [B], index, WIDE)
  {
    var endpoints := [NARROW, WIDE];
    PlainServes(NARROW, A, index);
    PlainServes(WIDE, A, index);
    PlainServes(WIDE, B, index);
    assert WIDE.models[1..] == [] && NARROW.models[1..] == [PlainModel("y", 1)] && [PlainModel("y", 1)][1..] == [];
    assert Capacity(WIDE.models) == 9 && Capacity(NARROW.models) == 2;
    assert Serves(NARROW, [A], index) && Serves(WIDE, [B], index);
    assert !Serves(WIDE, [A], index) by { assert [A][0] == A; }
    assert IsGreedyChoice(endpoints, [A], index, 0);
    assert IsGreedyChoice(endpoints, [B], index, 1);
  }

  /** Without groups, two remote nodes on a common cycle bind to different endpoints. */
  lemma UngroupedCycleIsSplit() returns (input: BindingInput)
    ensures Bind(input).Bound? && input.groups == []
    ensures NodesOf(input.graph).Some? && CycleCheck.EdgesOf(input.graph).Some?
    ensures Mutual(CycleCheck.GraphOf(NodesOf(input.graph).value, CycleCheck.EdgesOf(input.graph).value), "a", "b")
    ensures IsIntentNode(input.intents, "a") && IsIntentNode(input.intents, "b")
    ensures "a" in Bind(input).nodeEndpoint && "b" in Bind(input).nodeEndpoint
    ensures Bind(input).nodeEndpoint["a"] != Bind(input).nodeEndpoint["b"]
  {
    var nodes, edges := [PlainNode("a"), PlainNode("b")], [PlainEdge("a", "b"), PlainEdge("b", "a")];
    var graph := Object(map["nodes" := Array(nodes), "edges" := Array(edges)]);
    input := BindingInput("w", graph, [A, B], [], [NARROW, WIDE]);
    assert "edges" != "nodes";
    assert NodesOf(graph) == Some(nodes) && CycleCheck.EdgesOf(graph) == Some(edges);
    OverlapGraph(nodes, edges);
    FreeBinds(input);
    assert A in input.intents && B in input.intents;
  }

  lemma FreePartitionsAre()
    ensures Partitions([A, B], []) == [[A], [B]] && IntentById([A, B]) == map["a" := A, "b" := B]
  {
    var intents := [A, B];
    assert intents[..1] == [A] && [A][..0] == [];
    assert IntentById([A]) == map["a" := A];
    assert FreePartitions([], [A]) == [[A]];
    assert FreePartitions([], intents) == [[A], [B]];
  }

  lemma FreeBinds(input: BindingInput)
    requires input.intents == [A, B] && input.groups == [] && input.endpoints == [NARROW, WIDE]
    requires NodesOf(input.graph) == Some([PlainNode("a"), PlainNode("b")])
    requires CycleCheck.EdgesOf(input.graph).Some? && Null !in CycleCheck.EdgesOf(input.graph).value
    ensures Bind(input).Bound? && "a" in Bind(input).nodeEndpoint && "b" in Bind(input).nodeEndpoint
    ensures Bind(input).nodeEndpoint["a"] != Bind(input).nodeEndpoint["b"]
  {
    hide Bind, Partitions, EntryIndex, PlanBindings, PlainNode, Serves, IsGreedyPick, Mutual, CycleCheck.GraphOf;
    var index := EntryIndex(NodesOrEmpty(input.graph));
    PlainIndex("a", "b");
    FreePartitionsAre();
    FreePicks(index);
    PickServes(input.endpoints, [A], index, NARROW);
    PickServes(input.endpoints, [B], index, WIDE);
    BindDecides(input);
    assert A in input.intents && B in input.intents;
    CoLocatedExactly(input, "a", "b", [A], [B], NARROW, WIDE);
  }

  lemma PickServes(endpoints: seq<Endpoint>, members: seq<Intent>, index: NodeIndex, e: Endpoint)
    requires IsGreedyPick(endpoints, members, index, e)
    ensures !NobodyServes(endpoints, members, index)
  {
  }

  // ---------------------------------------------------------------- a null edge

  /** A null edge entry makes the whole binding throw, although everything else in the request is in order. */
  lemma NullEdgeThrows() returns (input: BindingInput)
    ensures NodesOf(input.graph) == Some([PlainNode("a")]) && CycleCheck.EdgesOf(input.graph) == Some([Null])
    ensures input.intents == [A] && input.endpoints == [NARROW] && Serves(NARROW, [A], EntryIndex(NodesOf(input.graph).value))
    ensures Bind(input) == BindingResult.Raised
  {
    var graph := Object(map["nodes" := Array([PlainNode("a")]), "edges" := Array([Null])]);
    input := BindingInput("w", graph, [A], [], [NARROW]);
    assert "edges" != "nodes";
    assert Null in [Null];
    PlainIndex("a", "b");
    PlainServes(NARROW, A, EntryIndex([PlainNode("a")]));
  }
}
