/** What the interface comparison decides, in terms of the graph document (`inspection.ts`). */
module InspectionPorts {
  import opened Js
  import opened Inspection

  // ---------------------------------------------------------------- one port

  predicate DimensionFits(g: real, d: real) {
    g == -1.0 || d == -1.0 || g == d
  }

  predicate ShapeFits(items: seq<Value>, shape: seq<real>) {
    |items| == |shape| && forall d :: 0 <= d < |items| ==> items[d].Number? && DimensionFits(items[d].n, shape[d])
  }

  /** The port agrees with declaration k, the first of its name. */
  predicate FitsAt(port: Value, declared: seq<IoPort>, k: nat) {
    && port.Object? && k < |declared| && declared[k].name != ""
    && (forall j :: 0 <= j < k ==> declared[j].name != declared[k].name)
    && "name" in port.fields && port.fields["name"] == String(declared[k].name)
    && "tensorType" in port.fields && port.fields["tensorType"] == String(declared[k].tensorType)
    && "typeSize" in port.fields && port.fields["typeSize"] == Number(declared[k].typeSize)
    && "shape" in port.fields && port.fields["shape"].Array? && ShapeFits(port.fields["shape"].items, declared[k].shape)
  }

  lemma {:induction false} FindPortIsFirst(declared: seq<IoPort>, name: string)
    ensures FindPort(declared, name).None? <==> forall k :: 0 <= k < |declared| ==> declared[k].name != name
    ensures forall k :: 0 <= k < |declared| && declared[k].name == name && (forall j :: 0 <= j < k ==> declared[j].name != name) ==>
      FindPort(declared, name) == Some(declared[k])
  {
    if declared != [] {
      FindPortIsFirst(declared[1..], name);
      assert forall k :: 0 < k < |declared| ==> declared[k] == declared[1..][k - 1];
      forall k | 0 <= k < |declared| && declared[k].name == name && (forall j :: 0 <= j < k ==> declared[j].name != name)
        ensures FindPort(declared, name) == Some(declared[k])
      {
        if k > 0 {
          assert declared[0].name != name;
          assert forall j :: 0 <= j < k - 1 ==> declared[1..][j] == declared[j + 1];
        }
      }
    }
  }

  lemma {:induction false} FirstDeclaration(declared: seq<IoPort>, name: string) returns (k: nat)
    requires FindPort(declared, name).Some?
    ensures k < |declared| && declared[k].name == name && forall j :: 0 <= j < k ==> declared[j].name != name
    ensures FindPort(declared, name) == Some(declared[k])
  {
    if declared[0].name == name {
      k := 0;
    } else {
      k := FirstDeclaration(declared[1..], name);
      assert forall j :: 0 < j < |declared| ==> declared[j] == declared[1..][j - 1];
      k := k + 1;
    }
  }

  lemma {:induction false} NumbersAre(items: seq<Value>)
    ensures Numbers(items).Some? <==> forall d :: 0 <= d < |items| ==> items[d].Number?
    ensures Numbers(items).Some? ==> |Numbers(items).value| == |items| && forall d :: 0 <= d < |items| && items[d].Number? ==>
      Numbers(items).value[d] == items[d].n
  {
    if items != [] {
      NumbersAre(items[1..]);
      assert forall d :: 0 < d < |items| ==> items[d] == items[1..][d - 1];
    }
  }

  lemma ShapesAgree(items: seq<Value>, shape: seq<real>)
    ensures (Numbers(items).Some? && ShapeCompatible(Numbers(items).value, shape)) <==> ShapeFits(items, shape)
  {
    NumbersAre(items);
    if Numbers(items).Some? {
      var numbers := Numbers(items).value;
      assert forall d :: 0 <= d < |items| ==> numbers[d] == items[d].n;
    }
  }

  /** A port matches if and only if its name is not empty and the first declaration of that name agrees with it in every respect. */
  lemma PortMatchesExactly(port: Value, declared: seq<IoPort>)
    ensures PortMatches(port, declared) <==> exists k: nat :: FitsAt(port, declared, k)
  {
    hide ShapeCompatible, ShapeFits, Numbers, FindPort;
    if PortMatches(port, declared) {
      var name := port.fields["name"].s;
      var k := FirstDeclaration(declared, name);
      ShapesAgree(port.fields["shape"].items, declared[k].shape);
      assert FitsAt(port, declared, k);
    }
    if k: nat :| FitsAt(port, declared, k) {
      FindPortIsFirst(declared, declared[k].name);
      ShapesAgree(port.fields["shape"].items, declared[k].shape);
    }
  }

  // ---------------------------------------------------------------- one node

  /** The document's port is an object or array in the node's list for that side. */
  predicate HasPort(node: Value, side: string, port: Value) {
    && node.Object? && side in node.fields && node.fields[side].Array?
    && port in node.fields[side].items && (port.Object? || port.Array?)
  }

  lemma {:induction false} ObjectsAre(items: seq<Value>, p: Value)
    ensures p in Objects(items) <==> p in items && (p.Object? || p.Array?)
  {
    if items != [] { ObjectsAre(items[1..], p); }
  }

  lemma PortArrayIs(node: Value, side: string, port: Value)
    ensures port in PortArray(node, side) <==> HasPort(node, side, port)
  {
    if node.Object? && side in node.fields && node.fields[side].Array? { ObjectsAre(node.fields[side].items, port); }
  }

  /** Every port of that side agrees with a declaration; without ports nothing needs to be declared. */
  ghost predicate SideFits(node: Value, side: string, declared: Option<seq<IoPort>>) {
    forall port :: HasPort(node, side, port) ==> declared.Some? && exists k: nat :: FitsAt(port, declared.value, k)
  }

  lemma PortsMatchExactly(node: Value, side: string, declared: Option<seq<IoPort>>)
    ensures PortsMatch(PortArray(node, side), declared) <==> SideFits(node, side, declared)
  {
    hide PortArray, HasPort, FitsAt, PortMatches;
    var ports := PortArray(node, side);
    forall port ensures port in ports <==> HasPort(node, side, port) {
      PortArrayIs(node, side, port);
    }
    if declared.Some? {
      forall port ensures PortMatches(port, declared.value) <==> exists k: nat :: FitsAt(port, declared.value, k) {
        PortMatchesExactly(port, declared.value);
      }
    }
    if ports != [] { assert ports[0] in ports; }
  }

  /** A model accepts a node if and only if its inputs fit the declared inputs and its outputs the declared outputs. */
  lemma CandidateMatchesExactly(node: Value, m: Model)
    ensures CandidateMatches(node, m) <==>
      && SideFits(node, "inputs", if m.io.Some? then m.io.value.inputs else None)
      && SideFits(node, "outputs", if m.io.Some? then m.io.value.outputs else None)
  {
    hide SideFits, PortArray, PortsMatch;
    PortsMatchExactly(node, "inputs", DeclaredInputs(m));
    PortsMatchExactly(node, "outputs", DeclaredOutputs(m));
  }

  predicate IsNamed(node: Value, id: string) {
    node.Object? && "name" in node.fields && node.fields["name"] == String(id)
  }

  /** Position k holds the last node of that name. */
  predicate IsLastNode(nodes: seq<Value>, id: string, k: nat) {
    k < |nodes| && IsNamed(nodes[k], id) && forall j :: k < j < |nodes| ==> !IsNamed(nodes[j], id)
  }

  lemma {:induction false} RawIndexIsLast(nodes: seq<Value>, id: string)
    ensures id in RawIndex(nodes) <==> exists k: nat :: IsLastNode(nodes, id, k)
    ensures forall k: nat :: IsLastNode(nodes, id, k) ==> id in RawIndex(nodes) && RawIndex(nodes)[id] == nodes[k]
  {
    hide IsNamed, StringProperty;
    if nodes != [] {
      var n := |nodes| - 1;
      RawIndexIsLast(nodes[..n], id);
      NamedIsStringProperty(nodes[n], id);
      assert forall j :: 0 <= j < n ==> nodes[..n][j] == nodes[j];
      if IsNamed(nodes[n], id) {
        assert IsLastNode(nodes, id, n);
      } else {
        forall k: nat ensures IsLastNode(nodes, id, k) <==> IsLastNode(nodes[..n], id, k) {
        }
      }
    }
  }

  lemma NamedIsStringProperty(node: Value, id: string)
    ensures StringProperty(node, "name") == Some(id) <==> IsNamed(node, id)
  {
  }

  // ---------------------------------------------------------------- the verdict

  /** The verdict when one model bears the key: passed exactly when the last node of the name fits it on both sides. */
  lemma VerdictOfOnlyCandidate(nodes: seq<Value>, models: seq<Model>, t: Target, k: nat, m: Model)
    requires IsLastNode(nodes, t.nodeId, k) && m in models && m.modelKey == t.modelKey
    requires forall x :: x in models && x.modelKey == t.modelKey ==> x == m
    ensures var fits := SideFits(nodes[k], "inputs", if m.io.Some? then m.io.value.inputs else None)
                     && SideFits(nodes[k], "outputs", if m.io.Some? then m.io.value.outputs else None);
      Verdict(nodes, models, t) == if fits then [] else [Failure(IoMismatch, t.nodeId, t.modelKey)]
  {
    hide SideFits, CandidateMatches, RawIndex, IsNamed;
    RawIndexIsLast(nodes, t.nodeId);
    CandidateMatchesExactly(nodes[k], m);
  }

  // ---------------------------------------------------------------- nodes that repeat a declaration

  function PortValue(p: IoPort): Value {
    Object(map["name" := String(p.name), "tensorType" := String(p.tensorType), "typeSize" := Number(p.typeSize),
               "shape" := Array(seq(|p.shape|, d requires 0 <= d < |p.shape| => Number(p.shape[d])))])
  }

  function PortValues(ports: seq<IoPort>): Value {
    Array(seq(|ports|, i requires 0 <= i < |ports| => PortValue(ports[i])))
  }

  function NodeValue(name: string, inputs: seq<IoPort>, outputs: seq<IoPort>): Value {
    Object(map["name" := String(name), "inputs" := PortValues(inputs), "outputs" := PortValues(outputs)])
  }

  /** The same ports, up to dynamic dimensions on either side. */
  predicate Repeats(ports: seq<IoPort>, declared: seq<IoPort>) {
    |ports| == |declared| && forall i :: 0 <= i < |ports| ==>
      && ports[i].name == declared[i].name && ports[i].tensorType == declared[i].tensorType && ports[i].typeSize == declared[i].typeSize
      && |ports[i].shape| == |declared[i].shape|
      && forall d :: 0 <= d < |ports[i].shape| ==> DimensionFits(ports[i].shape[d], declared[i].shape[d])
  }

  predicate WellNamed(declared: seq<IoPort>) {
    && (forall i :: 0 <= i < |declared| ==> declared[i].name != "")
    && forall i, j :: 0 <= i < j < |declared| ==> declared[i].name != declared[j].name
  }

  lemma PortValueIs(p: IoPort)
    ensures var v := PortValue(p);
      && v.Object? && "name" in v.fields && v.fields["name"] == String(p.name)
      && "tensorType" in v.fields && v.fields["tensorType"] == String(p.tensorType)
      && "typeSize" in v.fields && v.fields["typeSize"] == Number(p.typeSize)
      && "shape" in v.fields && v.fields["shape"].Array? && |v.fields["shape"].items| == |p.shape|
      && forall d :: 0 <= d < |p.shape| ==> v.fields["shape"].items[d] == Number(p.shape[d])
  {
    assert |"name"| == 4 && |"tensorType"| == 10 && |"typeSize"| == 8 && |"shape"| == 5;
  }

  lemma NodeValueIs(name: string, inputs: seq<IoPort>, outputs: seq<IoPort>)
    ensures var v := NodeValue(name, inputs, outputs);
      && IsNamed(v, name) && "inputs" in v.fields && v.fields["inputs"] == PortValues(inputs)
      && "outputs" in v.fields && v.fields["outputs"] == PortValues(outputs)
  {
    assert |"name"| == 4 && |"inputs"| == 6 && |"outputs"| == 7;
  }

  lemma RepeatedPortFits(ports: seq<IoPort>, declared: seq<IoPort>, i: nat)
    requires Repeats(ports, declared) && WellNamed(declared) && i < |ports|
    ensures FitsAt(PortValue(ports[i]), declared, i)
  {
    PortValueIs(ports[i]);
    hide PortValue;
  }

  /** A node whose ports repeat the model's declarations, up to dynamic dimensions, passes. */
  lemma RepeatingNodePasses(name: string, inputs: seq<IoPort>, outputs: seq<IoPort>, m: Model)
    requires m.io.Some? && m.io.value.inputs.Some? && m.io.value.outputs.Some?
    requires Repeats(inputs, m.io.value.inputs.value) && WellNamed(m.io.value.inputs.value)
    requires Repeats(outputs, m.io.value.outputs.value) && WellNamed(m.io.value.outputs.value)
    ensures Verdict([NodeValue(name, inputs, outputs)], [m], Target(name, m.modelKey)) == []
  {
    var node := NodeValue(name, inputs, outputs);
    NodeValueIs(name, inputs, outputs);
    SideRepeats(node, "inputs", inputs, m.io.value.inputs.value);
    SideRepeats(node, "outputs", outputs, m.io.value.outputs.value);
    hide NodeValue, SideFits, Repeats, WellNamed, Verdict;
    VerdictOfOnlyCandidate([node], [m], Target(name, m.modelKey), 0, m);
  }

  lemma SideRepeats(node: Value, side: string, ports: seq<IoPort>, declared: seq<IoPort>)
    requires node.Object? && side in node.fields && node.fields[side] == PortValues(ports)
    requires Repeats(ports, declared) && WellNamed(declared)
    ensures SideFits(node, side, Some(declared))
  {
    hide FitsAt, Repeats, WellNamed, PortValue;
    forall port | HasPort(node, side, port) ensures exists k: nat :: FitsAt(port, declared, k) {
      var i :| 0 <= i < |node.fields[side].items| && node.fields[side].items[i] == port;
      SameLength(ports, declared);
      RepeatedPortFits(ports, declared, i);
    }
  }

  lemma SameLength(ports: seq<IoPort>, declared: seq<IoPort>)
    requires Repeats(ports, declared)
    ensures |ports| == |declared|
  {
  }

  /** One port that fits no declaration makes the node fail. */
  lemma OnePortFails(name: string, inputs: seq<IoPort>, outputs: seq<IoPort>, m: Model, i: nat, onInputs: bool)
    requires m.io.Some? && m.io.value.inputs.Some? && m.io.value.outputs.Some?
    requires var ports, declared := if onInputs then inputs else outputs,
                                    if onInputs then m.io.value.inputs.value else m.io.value.outputs.value;
      i < |ports| && forall k: nat :: !FitsAt(PortValue(ports[i]), declared, k)
    ensures Verdict([NodeValue(name, inputs, outputs)], [m], Target(name, m.modelKey)) == [Failure(IoMismatch, name, m.modelKey)]
  {
    var node := NodeValue(name, inputs, outputs);
    NodeValueIs(name, inputs, outputs);
    var ports, side := if onInputs then inputs else outputs, if onInputs then "inputs" else "outputs";
    var port := node.fields[side].items[i];
    assert port == PortValue(ports[i]) && port in node.fields[side].items;
    assert HasPort(node, side, port);
    hide NodeValue, FitsAt, PortValue, Verdict, HasPort;
    VerdictOfOnlyCandidate([node], [m], Target(name, m.modelKey), 0, m);
  }

  /** Against a single declaration, any difference in name, tensor type, size, rank or one dimension fails. */
  lemma AnyDifferenceFails(name: string, p: IoPort, declared: IoPort, outputs: seq<IoPort>, m: Model)
    requires m.io.Some? && m.io.value.inputs == Some([declared]) && m.io.value.outputs.Some?
    requires p.name != declared.name || p.name == "" || p.tensorType != declared.tensorType || p.typeSize != declared.typeSize
      || |p.shape| != |declared.shape|
      || exists d :: 0 <= d < |p.shape| && p.shape[d] != -1.0 && declared.shape[d] != -1.0 && p.shape[d] != declared.shape[d]
    ensures Verdict([NodeValue(name, [p], outputs)], [m], Target(name, m.modelKey)) == [Failure(IoMismatch, name, m.modelKey)]
  {
    PortValueIs(p);
    hide PortValue, Verdict, NodeValue;
    forall k: nat ensures !FitsAt(PortValue(p), [declared], k) {
    }
    OnePortFails(name, [p], outputs, m, 0, true);
  }

  /** Inputs are held against the declared inputs and outputs against the declared outputs, not the other way round. */
  lemma SidesAreNotExchanged(name: string, x: IoPort, y: IoPort, key: string, queue: int)
    requires x.name != "" && y.name != "" && x.name != y.name
    ensures var straight, crossed := Model(key, queue, Some(Io(Some([x]), Some([y])))), Model(key, queue, Some(Io(Some([y]), Some([x]))));
      && Verdict([NodeValue(name, [x], [y])], [straight], Target(name, key)) == []
      && Verdict([NodeValue(name, [x], [y])], [crossed], Target(name, key)) == [Failure(IoMismatch, name, key)]
  {
    hide NodeValue, Verdict;
    var straight, crossed := Model(key, queue, Some(Io(Some([x]), Some([y])))), Model(key, queue, Some(Io(Some([y]), Some([x]))));
    RepeatingNodePasses(name, [x], [y], straight);
    AnyDifferenceFails(name, x, y, [y], crossed);
  }
}
