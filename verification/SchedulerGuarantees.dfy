/** What a successful binding guarantees: placement, co-location, and agreement with inspection. */
module SchedulerGuarantees {
  import opened Js
  import opened Digraph
  import opened Inspection
  import opened Scheduler
  import CycleCheck

  ghost predicate IsIntentNode(intents: seq<Intent>, id: string) {
    exists m :: m in intents && m.nodeId == id
  }

  /** No node name is listed in two groups. */
  ghost predicate Disjoint(groups: seq<seq<string>>) {
    forall i, j, n :: 0 <= i < j < |groups| && n in groups[i] ==> n !in groups[j]
  }

  /** Group k lists the node and no later group does. */
  ghost predicate LastGroup(groups: seq<seq<string>>, k: nat, id: string) {
    k < |groups| && id in groups[k] && forall j :: k < j < |groups| ==> id !in groups[j]
  }

  // ---------------------------------------------------------------- where a node sits among the partitions

  lemma {:induction false} GroupPartitionOf(intents: seq<Intent>, groups: seq<seq<string>>, k: nat, id: string) returns (i: nat)
    requires LastGroup(groups, k, id) && IsIntentNode(intents, id)
    ensures var parts := GroupPartitions(IntentById(intents), groups);
      && i < |parts| && parts[i] == Members(IntentById(intents), groups[k]) && id in NodeIds(parts[i])
      && forall j :: i < j < |parts| ==> id !in NodeIds(parts[j])
    decreases |groups|
  {
    var byId, n := IntentById(intents), |groups| - 1;
    IntentByIdKeys(intents);
    MembersOfGroup(intents, groups[k]);
    assert Members(byId, groups[k]) != [] by { assert id in NodeIds(Members(byId, groups[k])); }
    if k < n {
      i := GroupPartitionOf(intents, groups[..n], k, id);
      MembersOfGroup(intents, groups[n]);
    } else {
      i := |GroupPartitions(byId, groups[..n])|;
    }
  }

  lemma {:induction false} FreeAreUngrouped(groups: seq<seq<string>>, intents: seq<Intent>, id: string)
    requires CycleCheck.Grouped(groups, id)
    ensures forall j :: 0 <= j < |FreePartitions(groups, intents)| ==> id !in NodeIds(FreePartitions(groups, intents)[j])
  {
    if intents != [] {
      FreeAreUngrouped(groups, intents[..|intents| - 1], id);
    }
  }

  /** The partition that decides a grouped node's endpoint. */
  lemma PartitionOf(intents: seq<Intent>, groups: seq<seq<string>>, k: nat, id: string) returns (i: nat)
    requires LastGroup(groups, k, id) && IsIntentNode(intents, id)
    ensures var parts := Partitions(intents, groups);
      && i < |parts| && parts[i] == Members(IntentById(intents), groups[k]) && id in NodeIds(parts[i])
      && forall j :: i < j < |parts| ==> id !in NodeIds(parts[j])
  {
    i := GroupPartitionOf(intents, groups, k, id);
    FreeAreUngrouped(groups, intents, id);
  }

  lemma {:induction false} FreePartitionOf(groups: seq<seq<string>>, intents: seq<Intent>, m: Intent) returns (i: nat)
    requires m in intents && !CycleCheck.Grouped(groups, m.nodeId)
    ensures i < |FreePartitions(groups, intents)| && FreePartitions(groups, intents)[i] == [m]
    decreases |intents|
  {
    var n := |intents| - 1;
    if m in intents[..n] {
      i := FreePartitionOf(groups, intents[..n], m);
    } else {
      i := |FreePartitions(groups, intents[..n])|;
    }
  }

  lemma {:induction false} GroupPartitionNodes(intents: seq<Intent>, groups: seq<seq<string>>, i: nat, id: string)
    requires i < |GroupPartitions(IntentById(intents), groups)|
    requires id in NodeIds(GroupPartitions(IntentById(intents), groups)[i])
    ensures IsIntentNode(intents, id)
    decreases |groups|
  {
    var n := |groups| - 1;
    if i < |GroupPartitions(IntentById(intents), groups[..n])| {
      GroupPartitionNodes(intents, groups[..n], i, id);
    } else {
      IntentByIdKeys(intents);
      MembersOfGroup(intents, groups[n]);
      assert id in IntentById(intents);
    }
  }

  ghost predicate IsSingle(intents: seq<Intent>, members: seq<Intent>) {
    exists m :: m in intents && members == [m]
  }

  lemma {:induction false} FreePartitionNodes(groups: seq<seq<string>>, intents: seq<Intent>)
    ensures forall i :: 0 <= i < |FreePartitions(groups, intents)| ==> IsSingle(intents, FreePartitions(groups, intents)[i])
  {
    if intents != [] {
      var n := |intents| - 1;
      FreePartitionNodes(groups, intents[..n]);
      var parts, before := FreePartitions(groups, intents), FreePartitions(groups, intents[..n]);
      forall i | 0 <= i < |parts| ensures IsSingle(intents, parts[i]) {
        if i < |before| {
          assert parts[i] == before[i];
          var m :| m in intents[..n] && before[i] == [m];
          assert m in intents;
        } else {
          assert intents[n] in intents && parts[i] == [intents[n]];
        }
      }
    }
  }

  // ---------------------------------------------------------------- placement

  /** A grouped node goes where the last group that lists it goes, together with that whole group. */
  lemma BoundByLastGroup(input: BindingInput, k: nat, id: string)
    requires input.intents != [] && Bind(input).Bound?
    requires LastGroup(input.groups, k, id) && IsIntentNode(input.intents, id)
    ensures var pick := PickFor(input, Members(IntentById(input.intents), input.groups[k]));
      id in Bind(input).nodeEndpoint && pick.Some? && Bind(input).nodeEndpoint[id] == pick.value.endpointId
  {
    var i := PartitionOf(input.intents, input.groups, k, id);
    AssignedByLast(Partitions(input.intents, input.groups), SortByCapacity(input.endpoints),
                   EntryIndex(NodesOrEmpty(input.graph)), i, id);
  }

  ghost predicate InSomePartition(partitions: seq<seq<Intent>>, id: string) {
    exists i :: 0 <= i < |partitions| && id in NodeIds(partitions[i])
  }

  lemma PartitionNodes(intents: seq<Intent>, groups: seq<seq<string>>, id: string)
    ensures InSomePartition(Partitions(intents, groups), id) <==> IsIntentNode(intents, id)
  {
    var parts := Partitions(intents, groups);
    var declared, free := GroupPartitions(IntentById(intents), groups), FreePartitions(groups, intents);
    if InSomePartition(parts, id) {
      var i :| 0 <= i < |parts| && id in NodeIds(parts[i]);
      if i < |declared| {
        GroupPartitionNodes(intents, groups, i, id);
      } else {
        FreePartitionNodes(groups, intents);
        assert IsSingle(intents, free[i - |declared|]);
        var m :| m in intents && parts[i] == [m];
        assert m.nodeId == id;
      }
    }
    if IsIntentNode(intents, id) {
      var m :| m in intents && m.nodeId == id;
      IntentPartition(intents, groups, m);
    }
  }

  /** Exactly the intent nodes are bound. */
  lemma BoundNodes(input: BindingInput, id: string)
    requires input.intents != [] && Bind(input).Bound?
    ensures id in Bind(input).nodeEndpoint <==> IsIntentNode(input.intents, id)
  {
    hide Partitions, Assign, PlanBindings, EntryIndex, CycleCheck.CycleVerdict;
    AssignKeys(Partitions(input.intents, input.groups), SortByCapacity(input.endpoints), EntryIndex(NodesOrEmpty(input.graph)));
    PartitionNodes(input.intents, input.groups, id);
  }

  lemma {:induction false} LastGroupExists(groups: seq<seq<string>>, id: string) returns (k: nat)
    requires CycleCheck.Grouped(groups, id)
    ensures LastGroup(groups, k, id)
    decreases |groups|
  {
    var n := |groups| - 1;
    if id in groups[n] {
      k := n;
    } else {
      var i :| 0 <= i < |groups| && id in groups[i];
      assert id in groups[..n][i];
      k := LastGroupExists(groups[..n], id);
    }
  }

  /** Another intent for the same grouped node takes this one's place among the partitions. */
  predicate Shadowed(intents: seq<Intent>, groups: seq<seq<string>>, m: Intent) {
    CycleCheck.Grouped(groups, m.nodeId) && m.nodeId in IntentById(intents) && IntentById(intents)[m.nodeId] != m
  }

  /** Every intent has its node in some partition, and every intent that is not shadowed is there itself. */
  lemma IntentPartition(intents: seq<Intent>, groups: seq<seq<string>>, m: Intent)
    requires m in intents
    ensures exists i :: 0 <= i < |Partitions(intents, groups)| && m.nodeId in NodeIds(Partitions(intents, groups)[i])
    ensures !Shadowed(intents, groups, m) ==>
      exists i :: 0 <= i < |Partitions(intents, groups)| && m in Partitions(intents, groups)[i]
  {
    var byId, parts := IntentById(intents), Partitions(intents, groups);
    IntentByIdKeys(intents);
    if CycleCheck.Grouped(groups, m.nodeId) {
      var k := LastGroupExists(groups, m.nodeId);
      var i := PartitionOf(intents, groups, k, m.nodeId);
      var x: Intent :| x in parts[i] && x.nodeId == m.nodeId;
      MembersAre(byId, groups[k]);
      assert !Shadowed(intents, groups, m) ==> x == m;
    } else {
      var i := FreePartitionOf(groups, intents, m);
      assert parts[|GroupPartitions(byId, groups)| + i] == [m];
      assert m in [m];
    }
  }

  /** Intents that name the same grouped node ask for the same model. */
  ghost predicate Consistent(intents: seq<Intent>, groups: seq<seq<string>>) {
    forall a, b :: a in intents && b in intents && a.nodeId == b.nodeId && CycleCheck.Grouped(groups, a.nodeId)
      ==> a.modelKey == b.modelKey
  }

  // ---------------------------------------------------------------- co-location

  lemma {:induction false} IndexedNodesExist(nodes: seq<Value>)
    ensures forall id :: id in EntryIndex(nodes) ==> CycleCheck.DeclaresNode(nodes, id)
    ensures forall id :: id in EntryIndex(nodes) ==> EntryIndex(nodes)[id].name == id && id != ""
  {
    if nodes != [] {
      var n := |nodes| - 1;
      IndexedNodesExist(nodes[..n]);
      forall id | id in EntryIndex(nodes) ensures CycleCheck.DeclaresNode(nodes, id) {
        if CycleCheck.DeclaresNode(nodes[..n], id) {
          var v :| v in nodes[..n] && AsNodeEntry(v).Some? && AsNodeEntry(v).value.name == id;
          assert v in nodes;
        } else {
          assert nodes[n] in nodes;
        }
      }
    }
  }

  /** A node of a bound partition is a readable node of the document. */
  lemma PickedNodeExists(input: BindingInput, members: seq<Intent>, id: string)
    requires PickFor(input, members).Some? && id in NodeIds(members)
    ensures id in EntryIndex(NodesOrEmpty(input.graph)) && CycleCheck.DeclaresNode(NodesOrEmpty(input.graph), id)
  {
    var index := EntryIndex(NodesOrEmpty(input.graph));
    FirstServingAmong(SortByCapacity(input.endpoints), members, index);
    var i :| 0 <= i < |members| && members[i].nodeId == id;
    assert ServesOne(PickFor(input, members).value, members[i], index);
    IndexedNodesExist(NodesOrEmpty(input.graph));
  }

  /** Exactly one group lists the node. */
  ghost predicate ListedOnce(groups: seq<seq<string>>, id: string) {
    CycleCheck.FirstGroup(groups, id) < |groups| && LastGroup(groups, CycleCheck.FirstGroup(groups, id), id)
  }

  lemma DisjointListsOnce(groups: seq<seq<string>>, k: nat, id: string)
    requires Disjoint(groups) && k < |groups| && id in groups[k]
    ensures ListedOnce(groups, id) && CycleCheck.FirstGroup(groups, id) == k
  {
    assert id in groups[CycleCheck.FirstGroup(groups, id)];
  }

  /** Two intent nodes with the same last group bind to one endpoint. */
  lemma GroupIsCoLocated(input: BindingInput, k: nat, u: string, v: string)
    requires input.intents != [] && Bind(input).Bound?
    requires LastGroup(input.groups, k, u) && LastGroup(input.groups, k, v)
    requires IsIntentNode(input.intents, u) && IsIntentNode(input.intents, v)
    ensures u in Bind(input).nodeEndpoint && v in Bind(input).nodeEndpoint
    ensures Bind(input).nodeEndpoint[u] == Bind(input).nodeEndpoint[v]
  {
    hide Bind, Members, PickFor;
    BoundByLastGroup(input, k, u);
    BoundByLastGroup(input, k, v);
  }

  /** With disjoint groups, every declared group binds to one endpoint. */
  lemma DisjointGroupIsCoLocated(input: BindingInput, k: nat, u: string, v: string)
    requires input.intents != [] && Bind(input).Bound? && Disjoint(input.groups)
    requires k < |input.groups| && u in input.groups[k] && v in input.groups[k]
    requires IsIntentNode(input.intents, u) && IsIntentNode(input.intents, v)
    ensures u in Bind(input).nodeEndpoint && v in Bind(input).nodeEndpoint
    ensures Bind(input).nodeEndpoint[u] == Bind(input).nodeEndpoint[v]
  {
    hide Bind;
    DisjointListsOnce(input.groups, k, u);
    DisjointListsOnce(input.groups, k, v);
    GroupIsCoLocated(input, k, u, v);
  }

  /** Two remote nodes on a common cycle, each listed in one group, bind to one endpoint. */
  lemma CycleIsCoLocated(input: BindingInput, u: string, v: string)
    requires input.intents != [] && Bind(input).Bound?
    requires CycleCheck.EdgesOf(input.graph).Some?
    requires Mutual(CycleCheck.GraphOf(NodesOrEmpty(input.graph), CycleCheck.EdgesOf(input.graph).value), u, v)
    requires ListedOnce(input.groups, u) && ListedOnce(input.groups, v)
    requires IsIntentNode(input.intents, u) && IsIntentNode(input.intents, v)
    ensures u in Bind(input).nodeEndpoint && v in Bind(input).nodeEndpoint
    ensures Bind(input).nodeEndpoint[u] == Bind(input).nodeEndpoint[v]
  {
    hide Bind, Members, PickFor, Mutual, Partitions;
    GroupedNodeInGraph(input, u);
    GroupedNodeInGraph(input, v);
    NoConflictWhenBound(input, u, v);
    GroupIsCoLocated(input, CycleCheck.FirstGroup(input.groups, u), u, v);
  }

  lemma NoConflictWhenBound(input: BindingInput, u: string, v: string)
    requires input.intents != [] && Bind(input).Bound? && NodesOf(input.graph).Some? && CycleCheck.EdgesOf(input.graph).Some?
    ensures !CycleCheck.Conflict(CycleCheck.GraphOf(NodesOrEmpty(input.graph), CycleCheck.EdgesOf(input.graph).value), input.groups, u, v)
  {
  }

  /** A grouped intent node of a bound request is a node of the searched graph. */
  lemma GroupedNodeInGraph(input: BindingInput, u: string)
    requires input.intents != [] && Bind(input).Bound? && CycleCheck.EdgesOf(input.graph).Some?
    requires ListedOnce(input.groups, u) && IsIntentNode(input.intents, u)
    ensures NodesOf(input.graph).Some? && CycleCheck.Grouped(input.groups, u)
    ensures u in CycleCheck.GraphOf(NodesOrEmpty(input.graph), CycleCheck.EdgesOf(input.graph).value)
  {
    var k := CycleCheck.FirstGroup(input.groups, u);
    BoundByLastGroup(input, k, u);
    var i := PartitionOf(input.intents, input.groups, k, u);
    PickedNodeExists(input, Members(IntentById(input.intents), input.groups[k]), u);
    CycleCheck.GraphOfDocument(NodesOrEmpty(input.graph), CycleCheck.EdgesOf(input.graph).value, u, u);
  }

  // ---------------------------------------------------------------- greedy choice

  lemma {:induction false} LastFreePartition(groups: seq<seq<string>>, intents: seq<Intent>, id: string) returns (i: nat)
    requires IsIntentNode(intents, id) && !CycleCheck.Grouped(groups, id)
    ensures var parts := FreePartitions(groups, intents);
      && i < |parts| && id in IntentById(intents) && parts[i] == [IntentById(intents)[id]] && id in NodeIds(parts[i])
      && forall j :: i < j < |parts| ==> id !in NodeIds(parts[j])
    decreases |intents|
  {
    var n := |intents| - 1;
    IntentByIdKeys(intents);
    if intents[n].nodeId == id {
      i := |FreePartitions(groups, intents[..n])|;
      assert intents[n] in [intents[n]];
    } else {
      var m :| m in intents && m.nodeId == id;
      assert m in intents[..n];
      i := LastFreePartition(groups, intents[..n], id);
    }
  }

  /** The intents that decide where a node goes: its last group's, or its own last one. */
  ghost predicate Decides(input: BindingInput, id: string, members: seq<Intent>) {
    if CycleCheck.Grouped(input.groups, id) then
      exists k: nat :: LastGroup(input.groups, k, id) && members == Members(IntentById(input.intents), input.groups[k])
    else id in IntentById(input.intents) && members == [IntentById(input.intents)[id]]
  }

  /**
   * Every intent node is bound to the greedy choice for the intents that decide its place:
   * among the endpoints that serve all of them, the most queue room, ties to the earliest.
   */
  lemma BoundGreedily(input: BindingInput, id: string, members: seq<Intent>)
    requires input.intents != [] && Bind(input).Bound? && IsIntentNode(input.intents, id) && Decides(input, id, members)
    ensures id in Bind(input).nodeEndpoint && PickFor(input, members).Some?
    ensures Bind(input).nodeEndpoint[id] == PickFor(input, members).value.endpointId
    ensures IsGreedyPick(input.endpoints, members, EntryIndex(NodesOrEmpty(input.graph)), PickFor(input, members).value)
  {
    var index := EntryIndex(NodesOrEmpty(input.graph));
    if CycleCheck.Grouped(input.groups, id) {
      var k: nat :| LastGroup(input.groups, k, id) && members == Members(IntentById(input.intents), input.groups[k]);
      BoundByLastGroup(input, k, id);
    } else {
      var i := LastFreePartition(input.groups, input.intents, id);
      var declared := GroupPartitions(IntentById(input.intents), input.groups);
      AssignedByLast(Partitions(input.intents, input.groups), SortByCapacity(input.endpoints), index, |declared| + i, id);
    }
    PickIsGreedy(input.endpoints, members, index);
  }

  /** The greedy choice is unique. */
  lemma OnePick(endpoints: seq<Endpoint>, members: seq<Intent>, index: NodeIndex, e: Endpoint, f: Endpoint)
    requires IsGreedyPick(endpoints, members, index, e) && IsGreedyPick(endpoints, members, index, f)
    ensures e == f
  {
    hide Serves, Capacity;
    var j: nat :| IsGreedyChoice(endpoints, members, index, j) && endpoints[j] == e;
    var k: nat :| IsGreedyChoice(endpoints, members, index, k) && endpoints[k] == f;
    assert j == k;
  }

  /**
   * Exactly when two intent nodes of a bound request share an endpoint, on a cycle or not, grouped or not: the greedy
   * choices for the intents that decide their places have the same endpoint id.
   */
  lemma CoLocatedExactly(input: BindingInput, u: string, v: string, mu: seq<Intent>, mv: seq<Intent>, e: Endpoint, f: Endpoint)
    requires input.intents != [] && Bind(input).Bound?
    requires IsIntentNode(input.intents, u) && Decides(input, u, mu) && IsIntentNode(input.intents, v) && Decides(input, v, mv)
    requires IsGreedyPick(input.endpoints, mu, EntryIndex(NodesOrEmpty(input.graph)), e)
    requires IsGreedyPick(input.endpoints, mv, EntryIndex(NodesOrEmpty(input.graph)), f)
    ensures u in Bind(input).nodeEndpoint && v in Bind(input).nodeEndpoint
    ensures Bind(input).nodeEndpoint[u] == Bind(input).nodeEndpoint[v] <==> e.endpointId == f.endpointId
  {
    hide Bind, Decides, IsGreedyPick, PickFor, EntryIndex;
    BoundGreedily(input, u, mu);
    BoundGreedily(input, v, mv);
    OnePick(input.endpoints, mu, EntryIndex(NodesOrEmpty(input.graph)), e, PickFor(input, mu).value);
    OnePick(input.endpoints, mv, EntryIndex(NodesOrEmpty(input.graph)), f, PickFor(input, mv).value);
  }

  // ---------------------------------------------------------------- binding implies inspection

  function AllModels(endpoints: seq<Endpoint>): seq<Model> {
    if endpoints == [] then [] else endpoints[0].models + AllModels(endpoints[1..])
  }

  function Targets(bindings: seq<Binding>): seq<Target> {
    seq(|bindings|, i requires 0 <= i < |bindings| => Target(bindings[i].nodeId, bindings[i].modelKey))
  }

  lemma {:induction false} AllModelsHas(endpoints: seq<Endpoint>, e: Endpoint, m: Model)
    requires e in endpoints && m in e.models
    ensures m in AllModels(endpoints)
  {
    if e != endpoints[0] {
      AllModelsHas(endpoints[1..], e, m);
    }
  }

  lemma {:induction false} FirstModelIn(models: seq<Model>, key: string)
    requires FirstModel(models, key).Some?
    ensures FirstModel(models, key).value in models && FirstModel(models, key).value.modelKey == key
  {
    if models[0].modelKey != key {
      FirstModelIn(models[1..], key);
    }
  }

  /** The two node indexes agree wherever the binder's index is defined. */
  lemma {:induction false} IndexesAgree(nodes: seq<Value>, id: string)
    requires id in EntryIndex(nodes)
    ensures id in RawIndex(nodes) && AsNodeEntry(RawIndex(nodes)[id]) == Some(EntryIndex(nodes)[id])
  {
    var n := |nodes| - 1;
    match AsNodeEntry(nodes[n])
    case Some(entry) => if entry.name != id { IndexesAgree(nodes[..n], id); }
    case None => IndexesAgree(nodes[..n], id); IndexedNodesExist(nodes[..n]);
  }

  lemma {:induction false} EveryPartitionPicked(partitions: seq<seq<Intent>>, candidates: seq<Endpoint>, index: NodeIndex, i: nat)
    requires Assign(partitions, candidates, index).Some? && i < |partitions|
    ensures FirstServing(candidates, partitions[i], index).Some?
  {
    if FirstServing(candidates, partitions[i], index).None? {
      AssignStops(partitions, candidates, index, i);
    }
  }

  lemma IntentAdmissible(input: BindingInput, m: Intent)
    requires input.intents != [] && Bind(input).Bound? && m in input.intents && !Shadowed(input.intents, input.groups, m)
    ensures Admissible(NodesOrEmpty(input.graph), AllModels(input.endpoints), Target(m.nodeId, m.modelKey))
  {
    var nodes, parts := NodesOrEmpty(input.graph), Partitions(input.intents, input.groups);
    var index, candidates := EntryIndex(nodes), SortByCapacity(input.endpoints);
    IntentPartition(input.intents, input.groups, m);
    var i :| 0 <= i < |parts| && m in parts[i];
    EveryPartitionPicked(parts, candidates, index, i);
    FirstServingAmong(candidates, parts[i], index);
    var e := FirstServing(candidates, parts[i], index).value;
    ServedIsAdmissible(input.endpoints, nodes, e, parts[i], m);
  }

  lemma ServedIsAdmissible(endpoints: seq<Endpoint>, nodes: seq<Value>, e: Endpoint, members: seq<Intent>, m: Intent)
    requires e in SortByCapacity(endpoints) && Serves(e, members, EntryIndex(nodes)) && m in members
    ensures Admissible(nodes, AllModels(endpoints), Target(m.nodeId, m.modelKey))
  {
    assert ServesOne(e, m, EntryIndex(nodes));
    SortMembers(endpoints, e);
    var model := FirstModel(e.models, m.modelKey).value;
    FirstModelIn(e.models, m.modelKey);
    AllModelsHas(endpoints, e, model);
    IndexesAgree(nodes, m.nodeId);
    assert CandidateMatches(RawIndex(nodes)[m.nodeId], model);
  }

  /**
   * A bound request passes inspection against the same endpoint view if and only if every shadowed intent, whose
   * binding is planned but was never checked, happens to be admissible too.
   */
  lemma BoundPassesInspectionExactly(input: BindingInput)
    requires input.intents != [] && Bind(input).Bound?
    ensures Inspect(input.graph, Targets(Bind(input).bindings), AllModels(input.endpoints)) == [] <==>
      forall m :: m in input.intents && Shadowed(input.intents, input.groups, m) ==>
        Admissible(NodesOrEmpty(input.graph), AllModels(input.endpoints), Target(m.nodeId, m.modelKey))
  {
    hide Inspect, Admissible, Shadowed, AllModels;
    var targets, models := Targets(Bind(input).bindings), AllModels(input.endpoints);
    forall m | m in input.intents && !Shadowed(input.intents, input.groups, m)
      ensures Admissible(NodesOrEmpty(input.graph), models, Target(m.nodeId, m.modelKey))
    {
      IntentAdmissible(input, m);
    }
    forall t ensures t in targets <==> exists m :: m in input.intents && t == Target(m.nodeId, m.modelKey) {
      TargetsOfIntents(input, t);
    }
    InspectionPasses(input.graph, targets, models);
    var last := LastIntent(input);
    AdmissibleNeedsNodes(input, Target(last.nodeId, last.modelKey));
  }

  lemma TargetsOfIntents(input: BindingInput, t: Target)
    requires input.intents != [] && Bind(input).Bound?
    ensures t in Targets(Bind(input).bindings) <==> exists m :: m in input.intents && t == Target(m.nodeId, m.modelKey)
  {
    var targets := Targets(Bind(input).bindings);
    assert |targets| == |input.intents|;
    assert forall i :: 0 <= i < |targets| ==> targets[i] == Target(input.intents[i].nodeId, input.intents[i].modelKey);
  }

  /** The last intent of all is never shadowed. */
  lemma LastIntent(input: BindingInput) returns (m: Intent)
    requires input.intents != []
    ensures m in input.intents && !Shadowed(input.intents, input.groups, m)
  {
    m := input.intents[|input.intents| - 1];
  }

  lemma AdmissibleNeedsNodes(input: BindingInput, t: Target)
    ensures Admissible(NodesOrEmpty(input.graph), AllModels(input.endpoints), t) ==> NodesOf(input.graph).Some?
  {
  }

  /** A bound request passes inspection when intents for one grouped node agree on the model, as with distinct node ids. */
  lemma BindImpliesInspection(input: BindingInput)
    requires Bind(input).Bound? && Consistent(input.intents, input.groups)
    ensures Inspect(input.graph, Targets(Bind(input).bindings), AllModels(input.endpoints)) == []
  {
    if input.intents == [] {
      InspectionPasses(input.graph, [], AllModels(input.endpoints));
    } else {
      IntentByIdKeys(input.intents);
      forall m | m in input.intents ensures !Shadowed(input.intents, input.groups, m) {
      }
      BoundPassesInspectionExactly(input);
    }
  }
}
