/** The binder (`bindWorkflow` in `scheduler.ts`): partitions, greedy endpoint choice and the binding plan. */
module Scheduler {
  import opened Js
  import opened Inspection
  import CycleCheck

  datatype Intent = Intent(nodeId: string, modelKey: string)

  datatype Endpoint = Endpoint(endpointId: string, models: seq<Model>)

  datatype InputBinding = InputBinding(port: string, uri: string)

  datatype Binding = Binding(nodeId: string, modelKey: string, outputUri: string, inputs: seq<InputBinding>)

  datatype BindingInput = BindingInput(
    workflowId: string, graph: Value, intents: seq<Intent>, groups: seq<seq<string>>, endpoints: seq<Endpoint>)

  datatype BindingResult =
    | Bound(endpointId: string, bindings: seq<Binding>, nodeEndpoint: map<string, string>)
    | Rejected
    | Raised

  // ---------------------------------------------------------------- object keys

  function RemoteInputKey(workflowId: string, nodeId: string, port: string): string {
    "workflows/" + workflowId + "/inputs/" + nodeId + "/" + port
  }

  function RemoteOutputKey(workflowId: string, nodeId: string): string {
    "workflows/" + workflowId + "/nodes/" + nodeId + "/output"
  }

  function PortBindings(workflowId: string, nodeId: string, ports: seq<Value>): seq<InputBinding> {
    if ports == [] then []
    else
      (match StringProperty(ports[0], "name")
       case Some(port) => if port == "" then [] else [InputBinding(port, RemoteInputKey(workflowId, nodeId, port))]
       case None => []) + PortBindings(workflowId, nodeId, ports[1..])
  }

  /** The inputs of the first readable node of that name. */
  function RemoteInputBindings(workflowId: string, nodes: seq<Value>, nodeId: string): seq<InputBinding> {
    if nodes == [] then []
    else match AsNodeEntry(nodes[0])
      case Some(entry) =>
        if entry.name == nodeId then PortBindings(workflowId, nodeId, entry.inputs)
        else RemoteInputBindings(workflowId, nodes[1..], nodeId)
      case None => RemoteInputBindings(workflowId, nodes[1..], nodeId)
  }

  function PlanBinding(workflowId: string, nodes: seq<Value>, intent: Intent): Binding {
    Binding(intent.nodeId, intent.modelKey, RemoteOutputKey(workflowId, intent.nodeId),
            RemoteInputBindings(workflowId, nodes, intent.nodeId))
  }

  function PlanBindings(workflowId: string, nodes: seq<Value>, intents: seq<Intent>): seq<Binding> {
    seq(|intents|, i requires 0 <= i < |intents| => PlanBinding(workflowId, nodes, intents[i]))
  }

  // ---------------------------------------------------------------- serving

  type NodeIndex = map<string, NodeEntry>

  /** The binder's index: readable nodes only, the last node of a name wins. */
  function EntryIndex(nodes: seq<Value>): NodeIndex {
    if nodes == [] then map[]
    else
      var n := |nodes| - 1;
      match AsNodeEntry(nodes[n])
      case Some(entry) => EntryIndex(nodes[..n])[entry.name := entry]
      case None => EntryIndex(nodes[..n])
  }

  function FirstModel(models: seq<Model>, modelKey: string): Option<Model> {
    if models == [] then None
    else if models[0].modelKey == modelKey then Some(models[0])
    else FirstModel(models[1..], modelKey)
  }

  predicate ServesOne(e: Endpoint, intent: Intent, index: NodeIndex) {
    match FirstModel(e.models, intent.modelKey)
    case None => false
    case Some(model) =>
      && model.queueRemaining >= 1
      && intent.nodeId in index
      && PortsMatch(index[intent.nodeId].inputs, DeclaredInputs(model))
      && PortsMatch(index[intent.nodeId].outputs, DeclaredOutputs(model))
  }

  predicate Serves(e: Endpoint, members: seq<Intent>, index: NodeIndex) {
    forall i :: 0 <= i < |members| ==> ServesOne(e, members[i], index)
  }

  // ---------------------------------------------------------------- capacity order

  function Capacity(models: seq<Model>): int {
    if models == [] then 0 else models[0].queueRemaining + Capacity(models[1..])
  }

  function InsertByCapacity(e: Endpoint, sorted: seq<Endpoint>): seq<Endpoint> {
    if sorted == [] then [e]
    else if Capacity(sorted[0].models) <= Capacity(e.models) then [e] + sorted
    else [sorted[0]] + InsertByCapacity(e, sorted[1..])
  }

  /** The stable descending sort by total queue remaining. */
  function SortByCapacity(endpoints: seq<Endpoint>): seq<Endpoint> {
    if endpoints == [] then [] else InsertByCapacity(endpoints[0], SortByCapacity(endpoints[1..]))
  }

  function FirstServing(candidates: seq<Endpoint>, members: seq<Intent>, index: NodeIndex): Option<Endpoint> {
    if candidates == [] then None
    else if Serves(candidates[0], members, index) then Some(candidates[0])
    else FirstServing(candidates[1..], members, index)
  }

  ghost predicate Descending(s: seq<Endpoint>) {
    forall i, j :: 0 <= i < j < |s| ==> Capacity(s[i].models) >= Capacity(s[j].models)
  }

  lemma {:induction false} InsertMembers(e: Endpoint, s: seq<Endpoint>, x: Endpoint)
    ensures x in InsertByCapacity(e, s) <==> x == e || x in s
  {
    if s != [] && Capacity(s[0].models) > Capacity(e.models) {
      InsertMembers(e, s[1..], x);
      assert x in s <==> x == s[0] || x in s[1..];
    }
  }

  lemma {:induction false} InsertKeepsOrder(e: Endpoint, s: seq<Endpoint>)
    requires Descending(s)
    ensures Descending(InsertByCapacity(e, s))
  {
    if s != [] && Capacity(s[0].models) > Capacity(e.models) {
      InsertKeepsOrder(e, s[1..]);
      var t := InsertByCapacity(e, s[1..]);
      forall j | 0 <= j < |t| ensures Capacity(s[0].models) >= Capacity(t[j].models) {
        InsertMembers(e, s[1..], t[j]);
      }
    }
  }

  /** The sort lists its input in descending order of capacity. */
  lemma {:induction false} SortIsDescending(s: seq<Endpoint>)
    ensures Descending(SortByCapacity(s))
  {
    if s != [] {
      SortIsDescending(s[1..]);
      InsertKeepsOrder(s[0], SortByCapacity(s[1..]));
    }
  }

  /** The sort neither loses nor invents an endpoint. */
  lemma {:induction false} SortMembers(s: seq<Endpoint>, x: Endpoint)
    ensures x in SortByCapacity(s) <==> x in s
  {
    if s != [] {
      SortMembers(s[1..], x);
      InsertMembers(s[0], SortByCapacity(s[1..]), x);
    }
  }

  lemma {:induction false} FirstServingAfterInsert(e: Endpoint, s: seq<Endpoint>, members: seq<Intent>, index: NodeIndex)
    requires Descending(s)
    ensures FirstServing(InsertByCapacity(e, s), members, index) ==
      match FirstServing(s, members, index)
      case None => if Serves(e, members, index) then Some(e) else None
      case Some(f) =>
        if Serves(e, members, index) && Capacity(f.models) <= Capacity(e.models) then Some(e) else Some(f)
  {
    FirstServingAmong(s, members, index);
    if s != [] && Capacity(s[0].models) > Capacity(e.models) {
      FirstServingAfterInsert(e, s[1..], members, index);
      var t := InsertByCapacity(e, s[1..]);
      assert ([s[0]] + t)[1..] == t;
    } else {
      assert ([e] + s)[1..] == s;
    }
  }

  lemma {:induction false} FirstServingAmong(s: seq<Endpoint>, members: seq<Intent>, index: NodeIndex)
    ensures FirstServing(s, members, index).Some? ==>
      FirstServing(s, members, index).value in s && Serves(FirstServing(s, members, index).value, members, index)
  {
    if s != [] { FirstServingAmong(s[1..], members, index); }
  }

  /** Position k holds the best serving endpoint: most capacity, then earliest in the input. */
  ghost predicate IsGreedyChoice(endpoints: seq<Endpoint>, members: seq<Intent>, index: NodeIndex, k: nat) {
    && k < |endpoints|
    && Serves(endpoints[k], members, index)
    && forall j :: 0 <= j < |endpoints| && Serves(endpoints[j], members, index) ==>
         var a, b := Capacity(endpoints[j].models), Capacity(endpoints[k].models);
         a < b || (a == b && k <= j)
  }

  /** e is the greedy choice for the members. */
  ghost predicate IsGreedyPick(endpoints: seq<Endpoint>, members: seq<Intent>, index: NodeIndex, e: Endpoint) {
    exists k: nat :: IsGreedyChoice(endpoints, members, index, k) && endpoints[k] == e
  }

  ghost predicate NobodyServes(endpoints: seq<Endpoint>, members: seq<Intent>, index: NodeIndex) {
    forall j :: 0 <= j < |endpoints| ==> !Serves(endpoints[j], members, index)
  }

  /** Scanning the sorted candidates finds the greedy choice, and fails only when nobody serves. */
  lemma {:induction false} PickIsGreedy(endpoints: seq<Endpoint>, members: seq<Intent>, index: NodeIndex)
    ensures match FirstServing(SortByCapacity(endpoints), members, index)
      case None => NobodyServes(endpoints, members, index)
      case Some(e) => IsGreedyPick(endpoints, members, index, e) && !NobodyServes(endpoints, members, index)
  {
    hide Serves, Capacity, InsertByCapacity, FirstServing;
    if endpoints != [] {
      var rest := endpoints[1..];
      PickIsGreedy(rest, members, index);
      SortIsDescending(rest);
      FirstServingAfterInsert(endpoints[0], SortByCapacity(rest), members, index);
      var before := FirstServing(SortByCapacity(rest), members, index);
      if before.Some? {
        var k: nat :| IsGreedyChoice(rest, members, index, k) && rest[k] == before.value;
        GreedyStep(endpoints, members, index, k);
      } else if Serves(endpoints[0], members, index) {
        forall j | 0 < j < |endpoints| ensures !Serves(endpoints[j], members, index) {
          assert endpoints[j] == rest[j - 1];
        }
        assert IsGreedyChoice(endpoints, members, index, 0);
      } else {
        forall j | 0 < j < |endpoints| ensures !Serves(endpoints[j], members, index) {
          assert endpoints[j] == rest[j - 1];
        }
      }
    } else {
      assert FirstServing([], members, index) == None by { NoCandidates(members, index); }
    }
  }

  lemma NoCandidates(members: seq<Intent>, index: NodeIndex)
    ensures FirstServing([], members, index) == None
  {
  }

  lemma GreedyStep(endpoints: seq<Endpoint>, members: seq<Intent>, index: NodeIndex, k: nat)
    requires endpoints != [] && IsGreedyChoice(endpoints[1..], members, index, k)
    ensures
      if Serves(endpoints[0], members, index) && Capacity(endpoints[k + 1].models) <= Capacity(endpoints[0].models)
      then IsGreedyChoice(endpoints, members, index, 0)
      else IsGreedyChoice(endpoints, members, index, k + 1)
  {
    var rest := endpoints[1..];
    hide Serves, Capacity;
    forall j | 0 < j < |endpoints| && Serves(endpoints[j], members, index)
      ensures var a, b := Capacity(endpoints[j].models), Capacity(endpoints[k + 1].models); a < b || (a == b && k + 1 <= j)
    {
      assert endpoints[j] == rest[j - 1];
    }
  }

  // ---------------------------------------------------------------- partitions

  type IntentIndex = map<string, Intent>

  /** One intent per node id; the last one declared wins. */
  function IntentById(intents: seq<Intent>): IntentIndex {
    if intents == [] then map[]
    else
      var n := |intents| - 1;
      IntentById(intents[..n])[intents[n].nodeId := intents[n]]
  }

  function Members(byId: IntentIndex, group: seq<string>): seq<Intent> {
    if group == [] then [] else (if group[0] in byId then [byId[group[0]]] else []) + Members(byId, group[1..])
  }

  /** The declared groups that name an intent, as partitions. */
  function GroupPartitions(byId: IntentIndex, groups: seq<seq<string>>): seq<seq<Intent>> {
    if groups == [] then []
    else
      var n := |groups| - 1;
      var members := Members(byId, groups[n]);
      GroupPartitions(byId, groups[..n]) + if members == [] then [] else [members]
  }

  /** Intents outside every group bind on their own. */
  function FreePartitions(groups: seq<seq<string>>, intents: seq<Intent>): seq<seq<Intent>> {
    if intents == [] then []
    else
      var n := |intents| - 1;
      FreePartitions(groups, intents[..n]) + if CycleCheck.Grouped(groups, intents[n].nodeId) then [] else [[intents[n]]]
  }

  function Partitions(intents: seq<Intent>, groups: seq<seq<string>>): seq<seq<Intent>> {
    GroupPartitions(IntentById(intents), groups) + FreePartitions(groups, intents)
  }

  function NodeIds(members: seq<Intent>): set<string> {
    set m | m in members :: m.nodeId
  }

  // ---------------------------------------------------------------- assignment

  /** Bind the partitions in order; a later partition overwrites the nodes it shares with an earlier one. */
  function Assign(partitions: seq<seq<Intent>>, candidates: seq<Endpoint>, index: NodeIndex): Option<map<string, string>> {
    if partitions == [] then Some(map[])
    else
      var n := |partitions| - 1;
      match (Assign(partitions[..n], candidates, index), FirstServing(candidates, partitions[n], index))
      case (Some(bound), Some(e)) => Some(bound + map id | id in NodeIds(partitions[n]) :: e.endpointId)
      case _ => None
  }

  function NodesOrEmpty(graph: Value): seq<Value> {
    if NodesOf(graph).Some? then NodesOf(graph).value else []
  }

  function AssignNodes(input: BindingInput): Option<map<string, string>> {
    Assign(Partitions(input.intents, input.groups), SortByCapacity(input.endpoints), EntryIndex(NodesOrEmpty(input.graph)))
  }

  ghost function Bind(input: BindingInput): BindingResult {
    if input.intents == [] then Bound("", [], map[])
    else match CycleCheck.CycleVerdict(input.graph, input.groups)
      case Raised => BindingResult.Raised
      case Violation => Rejected
      case NoViolation =>
        match AssignNodes(input)
        case None => Rejected
        case Some(nodeEndpoint) =>
          var first := input.intents[0].nodeId;
          Bound(if first in nodeEndpoint then nodeEndpoint[first] else "",
                PlanBindings(input.workflowId, NodesOrEmpty(input.graph), input.intents), nodeEndpoint)
  }

  // ---------------------------------------------------------------- the binder

  method IndexEntries(nodes: seq<Value>) returns (index: NodeIndex)
    ensures index == EntryIndex(nodes)
  {
    index := map[];
    for i := 0 to |nodes|
      invariant index == EntryIndex(nodes[..i])
    {
      assert nodes[..i + 1][..i] == nodes[..i];
      var parsed := AsNodeEntry(nodes[i]);
      if parsed.Some? {
        index := index[parsed.value.name := parsed.value];
      }
    }
    assert nodes[..|nodes|] == nodes;
  }

  method MakePartitions(intents: seq<Intent>, groups: seq<seq<string>>) returns (partitions: seq<seq<Intent>>)
    ensures partitions == Partitions(intents, groups)
  {
    var byId := IntentById(intents);
    var grouped: set<string> := {};
    partitions := [];
    for i := 0 to |groups|
      invariant partitions == GroupPartitions(byId, groups[..i])
      invariant forall id :: id in grouped <==> id in byId && CycleCheck.Grouped(groups[..i], id)
    {
      assert groups[..i + 1][..i] == groups[..i];
      GroupedSnoc(groups, i);
      var members := Members(byId, groups[i]);
      MembersOfGroup(intents, groups[i]);
      ghost var before := grouped;
      assert members == [] ==> NodeIds(members) == {};
      if members != [] {
        grouped := grouped + NodeIds(members);
        partitions := partitions + [members];
      }
      assert grouped == before + NodeIds(members);
      forall id ensures id in grouped <==> id in byId && CycleCheck.Grouped(groups[..i + 1], id) {
        assert id in NodeIds(members) <==> id in groups[i] && id in byId;
      }
    }
    assert groups[..|groups|] == groups;
    ghost var declared := partitions;
    IntentByIdKeys(intents);
    for i := 0 to |intents|
      invariant partitions == declared + FreePartitions(groups, intents[..i])
    {
      assert intents[..i + 1][..i] == intents[..i];
      assert intents[i] in intents;
      if intents[i].nodeId !in grouped {
        partitions := partitions + [[intents[i]]];
      }
    }
    assert intents[..|intents|] == intents;
  }

  lemma GroupedSnoc(groups: seq<seq<string>>, i: nat)
    requires i < |groups|
    ensures forall id :: CycleCheck.Grouped(groups[..i + 1], id) <==> CycleCheck.Grouped(groups[..i], id) || id in groups[i]
  {
    forall id | CycleCheck.Grouped(groups[..i], id) || id in groups[i] ensures CycleCheck.Grouped(groups[..i + 1], id) {
      if id in groups[i] {
        assert groups[..i + 1][i] == groups[i];
      } else {
        var k :| 0 <= k < i && id in groups[..i][k];
        assert groups[..i + 1][k] == groups[..i][k];
      }
    }
  }

  lemma {:induction false} IntentByIdKeys(intents: seq<Intent>)
    ensures forall id :: id in IntentById(intents) <==> exists m :: m in intents && m.nodeId == id
    ensures forall id :: id in IntentById(intents) ==> IntentById(intents)[id] in intents && IntentById(intents)[id].nodeId == id
  {
    if intents != [] {
      var n := |intents| - 1;
      IntentByIdKeys(intents[..n]);
      assert intents == intents[..n] + [intents[n]];
      assert intents[n] in intents;
    }
  }

  lemma {:induction false} MembersAre(byId: IntentIndex, group: seq<string>)
    ensures forall m :: m in Members(byId, group) <==> exists id :: id in group && id in byId && byId[id] == m
  {
    if group != [] {
      MembersAre(byId, group[1..]);
      assert group == [group[0]] + group[1..];
    }
  }

  lemma MembersOfGroup(intents: seq<Intent>, group: seq<string>)
    ensures var byId := IntentById(intents);
      forall id :: id in NodeIds(Members(byId, group)) <==> id in group && id in byId
  {
    var byId := IntentById(intents);
    IntentByIdKeys(intents);
    MembersAre(byId, group);
    forall id | id in group && id in byId ensures id in NodeIds(Members(byId, group)) {
      assert byId[id] in Members(byId, group);
    }
  }

  method AssignPartitions(partitions: seq<seq<Intent>>, candidates: seq<Endpoint>, index: NodeIndex)
    returns (bound: Option<map<string, string>>)
    ensures bound == Assign(partitions, candidates, index)
  {
    var nodeEndpoint: map<string, string> := map[];
    for i := 0 to |partitions|
      invariant Assign(partitions[..i], candidates, index) == Some(nodeEndpoint)
    {
      assert partitions[..i + 1][..i] == partitions[..i];
      var picked := None;
      for j := 0 to |candidates|
        invariant picked == None && FirstServing(candidates, partitions[i], index) == FirstServing(candidates[j..], partitions[i], index)
      {
        if Serves(candidates[j], partitions[i], index) {
          picked := Some(candidates[j]);
          break;
        }
      }
      assert picked == FirstServing(candidates, partitions[i], index);
      if picked.None? {
        AssignStops(partitions, candidates, index, i);
        return None;
      }
      nodeEndpoint := nodeEndpoint + map m | m in NodeIds(partitions[i]) :: picked.value.endpointId;
    }
    assert partitions[..|partitions|] == partitions;
    return Some(nodeEndpoint);
  }

  lemma {:induction false} AssignStops(partitions: seq<seq<Intent>>, candidates: seq<Endpoint>, index: NodeIndex, i: nat)
    requires i < |partitions| && FirstServing(candidates, partitions[i], index).None?
    ensures Assign(partitions, candidates, index).None?
    decreases |partitions|
  {
    var n := |partitions| - 1;
    if i < n { AssignStops(partitions[..n], candidates, index, i); }
  }

  method BindWorkflow(input: BindingInput) returns (r: BindingResult)
    ensures r == Bind(input)
  {
    if input.intents == [] {
      return Bound("", [], map[]);
    }
    var cycle := CycleCheck.CycleViolation(input.graph, input.groups);
    if cycle.Raised? {
      return BindingResult.Raised;
    }
    if cycle.Violation? {
      return Rejected;
    }
    var nodes := NodesOrEmpty(input.graph);
    var index := IndexEntries(nodes);
    var partitions := MakePartitions(input.intents, input.groups);
    var bound := AssignPartitions(partitions, SortByCapacity(input.endpoints), index);
    if bound.None? {
      return Rejected;
    }
    var first := input.intents[0].nodeId;
    r := Bound(if first in bound.value then bound.value[first] else "",
               PlanBindings(input.workflowId, nodes, input.intents), bound.value);
  }

  // ---------------------------------------------------------------- what a binding decides

  /** Every partition has a greedy pick or the whole binding fails. */
  lemma {:induction false} AssignSucceeds(partitions: seq<seq<Intent>>, endpoints: seq<Endpoint>, index: NodeIndex)
    ensures Assign(partitions, SortByCapacity(endpoints), index).Some? <==>
      forall i :: 0 <= i < |partitions| ==> !NobodyServes(endpoints, partitions[i], index)
  {
    hide NobodyServes, FirstServing;
    if partitions != [] {
      var n := |partitions| - 1;
      AssignSucceeds(partitions[..n], endpoints, index);
      PickIsGreedy(endpoints, partitions[n], index);
      assert forall i :: 0 <= i < n ==> partitions[..n][i] == partitions[i];
    }
  }

  /**
   * Binding is all or nothing: a non-empty request binds exactly when the cycle check passes and
   * every partition has an endpoint that serves all of its members.
   */
  lemma BindDecides(input: BindingInput)
    requires input.intents != []
    ensures Bind(input).Bound? <==>
      && CycleCheck.CycleVerdict(input.graph, input.groups) == CycleCheck.NoViolation
      && forall i :: 0 <= i < |Partitions(input.intents, input.groups)| ==>
           !NobodyServes(input.endpoints, Partitions(input.intents, input.groups)[i], EntryIndex(NodesOrEmpty(input.graph)))
    ensures Bind(input).Raised? <==> CycleCheck.CycleVerdict(input.graph, input.groups) == CycleCheck.Raised
  {
    AssignSucceeds(Partitions(input.intents, input.groups), input.endpoints, EntryIndex(NodesOrEmpty(input.graph)));
  }

  /** The endpoint that the binder picks for one partition. */
  function PickFor(input: BindingInput, members: seq<Intent>): Option<Endpoint> {
    FirstServing(SortByCapacity(input.endpoints), members, EntryIndex(NodesOrEmpty(input.graph)))
  }

  lemma {:induction false} AssignedByLast(partitions: seq<seq<Intent>>, candidates: seq<Endpoint>, index: NodeIndex, i: nat, id: string)
    requires Assign(partitions, candidates, index).Some? && i < |partitions| && id in NodeIds(partitions[i])
    requires forall j :: i < j < |partitions| ==> id !in NodeIds(partitions[j])
    ensures var bound, pick := Assign(partitions, candidates, index).value, FirstServing(candidates, partitions[i], index);
      id in bound && pick.Some? && bound[id] == pick.value.endpointId
    decreases |partitions|
  {
    var n := |partitions| - 1;
    if i < n {
      assert partitions[..n][i] == partitions[i];
      assert id !in NodeIds(partitions[n]);
      AssignedByLast(partitions[..n], candidates, index, i, id);
    }
  }

  lemma {:induction false} AssignKeys(partitions: seq<seq<Intent>>, candidates: seq<Endpoint>, index: NodeIndex)
    requires Assign(partitions, candidates, index).Some?
    ensures forall id :: id in Assign(partitions, candidates, index).value <==>
      exists i :: 0 <= i < |partitions| && id in NodeIds(partitions[i])
  {
    if partitions != [] {
      var n := |partitions| - 1;
      AssignKeys(partitions[..n], candidates, index);
      forall id ensures id in Assign(partitions, candidates, index).value <==>
        exists i :: 0 <= i < |partitions| && id in NodeIds(partitions[i])
      {
        if i :| 0 <= i < n && id in NodeIds(partitions[..n][i]) { assert id in NodeIds(partitions[i]); }
        if i :| 0 <= i < |partitions| && id in NodeIds(partitions[i]) && i < n { assert id in NodeIds(partitions[..n][i]); }
      }
    }
  }
}
