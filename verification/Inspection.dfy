/** Static inspection of a graph document against declared model interfaces (`inspection.ts`). */
module Inspection {
  import opened Js

  datatype IoPort = IoPort(name: string, tensorType: string, typeSize: real, shape: seq<real>)

  datatype Io = Io(inputs: Option<seq<IoPort>>, outputs: Option<seq<IoPort>>)

  datatype Model = Model(modelKey: string, queueRemaining: int, io: Option<Io>)

  function DeclaredInputs(m: Model): Option<seq<IoPort>> {
    if m.io.Some? then m.io.value.inputs else None
  }

  function DeclaredOutputs(m: Model): Option<seq<IoPort>> {
    if m.io.Some? then m.io.value.outputs else None
  }

  // ---------------------------------------------------------------- ports

  predicate ShapeCompatible(graphShape: seq<real>, declaredShape: seq<real>) {
    && |graphShape| == |declaredShape|
    && forall i :: 0 <= i < |graphShape| ==>
         graphShape[i] == -1.0 || declaredShape[i] == -1.0 || graphShape[i] == declaredShape[i]
  }

  function Numbers(items: seq<Value>): Option<seq<real>> {
    if items == [] then Some([])
    else if !items[0].Number? then None
    else match Numbers(items[1..])
      case Some(rest) => Some([items[0].n] + rest)
      case None => None
  }

  function FindPort(declared: seq<IoPort>, name: string): Option<IoPort> {
    if declared == [] then None
    else if declared[0].name == name then Some(declared[0])
    else FindPort(declared[1..], name)
  }

  predicate PortMatches(port: Value, declared: seq<IoPort>) {
    match StringProperty(port, "name")
    case None => false
    case Some(name) =>
      && name != ""
      && match FindPort(declared, name)
         case None => false
         case Some(target) =>
           && StringProperty(port, "tensorType") == Some(target.tensorType)
           && Property(port, "typeSize") == Some(Number(target.typeSize))
           && match ArrayProperty(port, "shape")
              case None => false
              case Some(items) =>
                match Numbers(items)
                case None => false
                case Some(shape) => ShapeCompatible(shape, target.shape)
  }

  /** Every port the graph asks for is declared compatibly; no ports ask for nothing. */
  predicate PortsMatch(ports: seq<Value>, declared: Option<seq<IoPort>>) {
    ports == [] || (declared.Some? && forall p :: p in ports ==> PortMatches(p, declared.value))
  }

  // ---------------------------------------------------------------- nodes

  datatype NodeEntry = NodeEntry(name: string, inputs: seq<Value>, outputs: seq<Value>)

  function Objects(items: seq<Value>): seq<Value> {
    if items == [] then []
    else (if ObjectLike(items[0]) then [items[0]] else []) + Objects(items[1..])
  }

  function PortArray(node: Value, name: string): seq<Value> {
    match ArrayProperty(node, name)
    case Some(items) => Objects(items)
    case None => []
  }

  function AsNodeEntry(v: Value): Option<NodeEntry> {
    match StringProperty(v, "name")
    case Some(name) => if name == "" then None else Some(NodeEntry(name, PortArray(v, "inputs"), PortArray(v, "outputs")))
    case None => None
  }

  /** `graph.nodes`, where it is an array. */
  function NodesOf(graph: Value): Option<seq<Value>> {
    ArrayProperty(graph, "nodes")
  }

  /** The inspection's own index: any string name, the last node of a name wins. */
  function RawIndex(nodes: seq<Value>): map<string, Value> {
    if nodes == [] then map[]
    else
      var n := |nodes| - 1;
      match StringProperty(nodes[n], "name")
      case Some(name) => RawIndex(nodes[..n])[name := nodes[n]]
      case None => RawIndex(nodes[..n])
  }

  // ---------------------------------------------------------------- inspection

  /** The part of a remote binding that inspection reads. */
  datatype Target = Target(nodeId: string, modelKey: string)

  datatype FailureKind = ModelUnknown | IoMismatch | GraphShape

  datatype Failure = Failure(kind: FailureKind, nodeId: string, modelKey: string)

  predicate CandidateMatches(node: Value, m: Model) {
    PortsMatch(PortArray(node, "inputs"), DeclaredInputs(m)) && PortsMatch(PortArray(node, "outputs"), DeclaredOutputs(m))
  }

  /** Some declared model of the target's key accepts the target's graph node. */
  ghost predicate Admissible(nodes: seq<Value>, models: seq<Model>, t: Target) {
    && t.nodeId in RawIndex(nodes)
    && exists m :: m in models && m.modelKey == t.modelKey && CandidateMatches(RawIndex(nodes)[t.nodeId], m)
  }

  ghost predicate Known(models: seq<Model>, t: Target) {
    exists m :: m in models && m.modelKey == t.modelKey
  }

  /** The failure that a target earns, if any. */
  ghost function Verdict(nodes: seq<Value>, models: seq<Model>, t: Target): seq<Failure> {
    if !Known(models, t) then [Failure(ModelUnknown, t.nodeId, t.modelKey)]
    else if t.nodeId !in RawIndex(nodes) then [Failure(GraphShape, t.nodeId, t.modelKey)]
    else if !Admissible(nodes, models, t) then [Failure(IoMismatch, t.nodeId, t.modelKey)]
    else []
  }

  ghost function Verdicts(nodes: seq<Value>, models: seq<Model>, targets: seq<Target>): seq<Failure> {
    if targets == [] then []
    else Verdicts(nodes, models, targets[..|targets| - 1]) + Verdict(nodes, models, targets[|targets| - 1])
  }

  ghost function Inspect(graph: Value, targets: seq<Target>, models: seq<Model>): seq<Failure> {
    match NodesOf(graph)
    case Some(nodes) => Verdicts(nodes, models, targets)
    case None => (if targets == [] then [] else [Failure(GraphShape, "", "")]) + Verdicts([], models, targets)
  }

  lemma {:induction false} NoVerdicts(nodes: seq<Value>, models: seq<Model>, targets: seq<Target>)
    ensures Verdicts(nodes, models, targets) == [] <==> forall t :: t in targets ==> Admissible(nodes, models, t)
  {
    if targets != [] {
      var n := |targets| - 1;
      NoVerdicts(nodes, models, targets[..n]);
      assert targets == targets[..n] + [targets[n]];
      var t := targets[n];
      if Admissible(nodes, models, t) { assert Known(models, t); }
    }
  }

  /** Inspection passes exactly when every target names a readable node that some registered model accepts. */
  lemma InspectionPasses(graph: Value, targets: seq<Target>, models: seq<Model>)
    ensures Inspect(graph, targets, models) == [] <==>
      targets == [] || (NodesOf(graph).Some? && forall t :: t in targets ==> Admissible(NodesOf(graph).value, models, t))
  {
    NoVerdicts(if NodesOf(graph).Some? then NodesOf(graph).value else [], models, targets);
  }

  method IndexNodes(nodes: seq<Value>) returns (nodeIndex: map<string, Value>)
    ensures nodeIndex == RawIndex(nodes)
  {
    nodeIndex := map[];
    for i := 0 to |nodes|
      invariant nodeIndex == RawIndex(nodes[..i])
    {
      assert nodes[..i + 1][..i] == nodes[..i];
      var name := StringProperty(nodes[i], "name");
      if name.Some? {
        nodeIndex := nodeIndex[name.value := nodes[i]];
      }
    }
    assert nodes[..|nodes|] == nodes;
  }

  /** The first candidate that fits ends the search. */
  method InspectTarget(nodes: seq<Value>, nodeIndex: map<string, Value>, models: seq<Model>, t: Target) returns (verdict: seq<Failure>)
    requires nodeIndex == RawIndex(nodes)
    ensures verdict == Verdict(nodes, models, t)
  {
    hide RawIndex, CandidateMatches;
    var candidates := [];
    for j := 0 to |models|
      invariant forall m :: m in candidates <==> m in models[..j] && m.modelKey == t.modelKey
    {
      if models[j].modelKey == t.modelKey {
        candidates := candidates + [models[j]];
      }
    }
    assert models[..|models|] == models;
    if candidates == [] {
      assert forall m :: m in models && m.modelKey == t.modelKey ==> m in candidates;
      return [Failure(ModelUnknown, t.nodeId, t.modelKey)];
    }
    assert candidates[0] in candidates;
    if t.nodeId !in nodeIndex {
      return [Failure(GraphShape, t.nodeId, t.modelKey)];
    }
    for j := 0 to |candidates|
      invariant forall k :: 0 <= k < j ==> !CandidateMatches(nodeIndex[t.nodeId], candidates[k])
    {
      assert candidates[j] in candidates;
      if CandidateMatches(nodeIndex[t.nodeId], candidates[j]) {
        return [];
      }
    }
    assert forall m :: m in models && m.modelKey == t.modelKey ==> m in candidates;
    return [Failure(IoMismatch, t.nodeId, t.modelKey)];
  }

  method InspectWorkflowGraph(graph: Value, targets: seq<Target>, models: seq<Model>) returns (failures: seq<Failure>)
    ensures failures == Inspect(graph, targets, models)
  {
    hide RawIndex, Verdict;
    failures := [];
    var nodes := if NodesOf(graph).Some? then NodesOf(graph).value else [];
    var nodeIndex := IndexNodes(nodes);
    if NodesOf(graph).None? && targets != [] {
      failures := [Failure(GraphShape, "", "")];
    }
    ghost var before := failures;
    for i := 0 to |targets|
      invariant failures == before + Verdicts(nodes, models, targets[..i])
    {
      assert targets[..i + 1][..i] == targets[..i];
      var verdict := InspectTarget(nodes, nodeIndex, models, targets[i]);
      failures := failures + verdict;
    }
    assert targets[..|targets|] == targets;
  }
}
