/** What the object keys and port bindings of a plan mean (`planObjectKeys` and `remoteInputBindings` in `scheduler.ts`). */
module PlanKeys {
  import opened Js
  import opened Inspection
  import opened Scheduler
  import opened SchedulerGuarantees
  import CycleCheck

  predicate SlashFree(s: string) {
    '/' !in s
  }

  /** Path segments joined with slashes. */
  function Path(segments: seq<string>): string {
    if segments == [] then ""
    else if |segments| == 1 then segments[0]
    else segments[0] + "/" + Path(segments[1..])
  }

  lemma PathOfFive(a: string, b: string, c: string, d: string, e: string)
    ensures Path([a, b, c, d, e]) == a + "/" + (b + "/" + (c + "/" + (d + "/" + e)))
  {
    assert [a, b, c, d, e][1..] == [b, c, d, e] && [b, c, d, e][1..] == [c, d, e] && [c, d, e][1..] == [d, e] && [d, e][1..] == [e];
    assert Path([d, e]) == d + "/" + e;
    assert Path([c, d, e]) == c + "/" + Path([d, e]);
    assert Path([b, c, d, e]) == b + "/" + Path([c, d, e]);
  }

  /** The keys as paths. */
  lemma KeysArePaths(w: string, n: string, p: string)
    ensures RemoteInputKey(w, n, p) == Path(["workflows", w, "inputs", n, p])
    ensures RemoteOutputKey(w, n) == Path(["workflows", w, "nodes", n, "output"])
  {
    hide Path;
    PathOfFive("workflows", w, "inputs", n, p);
    PathOfFive("workflows", w, "nodes", n, "output");
  }

  // ---------------------------------------------------------------- telling keys apart

  /** A slash-free head can be read off again. */
  lemma HeadOf(a: string, b: string, x: string, y: string)
    requires SlashFree(a) && SlashFree(b) && a + "/" + x == b + "/" + y
    ensures a == b && x == y
  {
    var s := a + "/" + x;
    assert s[|a|] == '/' && s[|b|] == '/';
    assert forall i :: 0 <= i < |a| ==> s[i] == a[i] && s[i] != '/';
    assert forall i :: 0 <= i < |b| ==> s[i] == b[i] && s[i] != '/';
    assert a == s[..|a|] && b == s[..|b|];
    assert x == s[|a| + 1..] && y == s[|b| + 1..];
  }

  lemma Cancel(prefix: string, x: string, y: string)
    ensures prefix + x == prefix + y <==> x == y
  {
    assert x == (prefix + x)[|prefix|..] && y == (prefix + y)[|prefix|..];
  }

  lemma CancelEnd(x: string, y: string, suffix: string)
    ensures x + suffix == y + suffix <==> x == y
  {
    if x + suffix == y + suffix {
      assert |x| == |y|;
      assert x == (x + suffix)[..|x|] && y == (y + suffix)[..|y|];
    }
  }

  /** Outputs of different nodes never share an object, whatever the node ids. */
  lemma OutputKeysDiffer(w: string, n: string, n': string)
    ensures RemoteOutputKey(w, n) == RemoteOutputKey(w, n') <==> n == n'
  {
    var prefix := "workflows/" + w + "/nodes/";
    assert RemoteOutputKey(w, n) == prefix + (n + "/output") && RemoteOutputKey(w, n') == prefix + (n' + "/output");
    Cancel(prefix, n + "/output", n' + "/output");
    CancelEnd(n, n', "/output");
  }

  /** Two inputs share an object exactly when node and port read the same once joined. */
  lemma InputKeysDiffer(w: string, n: string, p: string, n': string, p': string)
    ensures RemoteInputKey(w, n, p) == RemoteInputKey(w, n', p') <==> n + "/" + p == n' + "/" + p'
    ensures SlashFree(n) && SlashFree(n') ==> (RemoteInputKey(w, n, p) == RemoteInputKey(w, n', p') <==> n == n' && p == p')
  {
    var prefix := "workflows/" + w + "/inputs/";
    assert RemoteInputKey(w, n, p) == prefix + (n + "/" + p) && RemoteInputKey(w, n', p') == prefix + (n' + "/" + p');
    Cancel(prefix, n + "/" + p, n' + "/" + p');
    if SlashFree(n) && SlashFree(n') && n + "/" + p == n' + "/" + p' { HeadOf(n, n', p, p'); }
  }

  /** Node ids with slashes: two ports of different nodes read the same object. */
  lemma SlashedNodesShareAnInput(w: string)
    ensures RemoteInputKey(w, "a/b", "c") == RemoteInputKey(w, "a", "b/c")
  {
    InputKeysDiffer(w, "a/b", "c", "a", "b/c");
  }

  /** No output is written over an input of the same workflow. */
  lemma OutputIsNoInput(w: string, n: string, n': string, p: string)
    ensures RemoteOutputKey(w, n) != RemoteInputKey(w, n', p)
  {
    var prefix := "workflows/" + w + "/";
    assert RemoteOutputKey(w, n) == prefix + ("nodes/" + n + "/output");
    assert RemoteInputKey(w, n', p) == prefix + ("inputs/" + n' + "/" + p);
    assert RemoteOutputKey(w, n)[|prefix|] == 'n' && RemoteInputKey(w, n', p)[|prefix|] == 'i';
  }

  /** The key belongs to the workflow. */
  ghost predicate KeyOf(w: string, key: string) {
    exists rest :: key == "workflows/" + w + "/" + rest
  }

  function FinalKey(workflowId: string): string {
    "workflows/" + workflowId + "/final.out"
  }

  /** The final result of a workflow is kept apart from all its inputs and outputs. */
  lemma FinalIsApart(w: string, n: string, p: string)
    ensures FinalKey(w) != RemoteOutputKey(w, n) && FinalKey(w) != RemoteInputKey(w, n, p)
    ensures KeyOf(w, FinalKey(w))
  {
    var prefix := "workflows/" + w + "/";
    assert FinalKey(w) == prefix + "final.out";
    assert RemoteOutputKey(w, n) == prefix + ("nodes/" + n + "/output");
    assert RemoteInputKey(w, n, p) == prefix + ("inputs/" + n + "/" + p);
    assert FinalKey(w)[|prefix|] == 'f' && RemoteOutputKey(w, n)[|prefix|] == 'n' && RemoteInputKey(w, n, p)[|prefix|] == 'i';
  }

  lemma KeysAreOfTheWorkflow(w: string, n: string, p: string)
    ensures KeyOf(w, RemoteOutputKey(w, n)) && KeyOf(w, RemoteInputKey(w, n, p))
  {
    assert RemoteOutputKey(w, n) == "workflows/" + w + "/" + ("nodes/" + n + "/output");
    assert RemoteInputKey(w, n, p) == "workflows/" + w + "/" + ("inputs/" + n + "/" + p);
  }

  /** Slash-free workflow ids, as the submission route requires, keep the keys of different workflows apart. */
  lemma WorkflowsShareNoKey(w: string, w': string, key: string)
    requires SlashFree(w) && SlashFree(w') && KeyOf(w, key) && KeyOf(w', key)
    ensures w == w'
  {
    var x :| key == "workflows/" + w + "/" + x;
    var y :| key == "workflows/" + w' + "/" + y;
    assert key == "workflows/" + (w + "/" + x) == "workflows/" + (w' + "/" + y);
    Cancel("workflows/", w + "/" + x, w' + "/" + y);
    HeadOf(w, w', x, y);
  }

  // ---------------------------------------------------------------- the ports of a binding

  predicate NamesPort(port: Value) {
    Property(port, "name").Some? && Property(port, "name").value.String? && Property(port, "name").value.s != ""
  }

  function NamedCount(ports: seq<Value>): nat {
    if ports == [] then 0
    else NamedCount(ports[..|ports| - 1]) + if NamesPort(ports[|ports| - 1]) then 1 else 0
  }

  /** One binding per named port: a port's binding stands after those of the named ports before it, under its own input key. */
  ghost predicate BindsNamedPorts(w: string, nodeId: string, ports: seq<Value>, inputs: seq<InputBinding>) {
    && |inputs| == NamedCount(ports)
    && forall k :: 0 <= k < |ports| && NamesPort(ports[k]) ==>
         var at, port := NamedCount(ports[..k]), Property(ports[k], "name").value.s;
         at < |inputs| && inputs[at] == InputBinding(port, RemoteInputKey(w, nodeId, port))
  }

  lemma OnePortBinding(w: string, nodeId: string, port: Value)
    ensures PortBindings(w, nodeId, [port]) ==
      if NamesPort(port) then [InputBinding(Property(port, "name").value.s, RemoteInputKey(w, nodeId, Property(port, "name").value.s))]
      else []
  {
    hide RemoteInputKey;
    assert [port][1..] == [];
  }

  lemma PortBindingsUnroll(w: string, nodeId: string, ports: seq<Value>)
    requires ports != []
    ensures PortBindings(w, nodeId, ports) == PortBindings(w, nodeId, [ports[0]]) + PortBindings(w, nodeId, ports[1..])
  {
    hide RemoteInputKey;
    OnePortBinding(w, nodeId, ports[0]);
  }

  lemma {:induction false} PortBindingsConcat(w: string, nodeId: string, a: seq<Value>, b: seq<Value>)
    ensures PortBindings(w, nodeId, a + b) == PortBindings(w, nodeId, a) + PortBindings(w, nodeId, b)
  {
    hide PortBindings;
    if a == [] {
      NoPortBinding(w, nodeId);
      assert a + b == b;
    } else {
      PortBindingsUnroll(w, nodeId, a);
      PortBindingsUnroll(w, nodeId, a + b);
      PortBindingsConcat(w, nodeId, a[1..], b);
      assert (a + b)[0] == a[0] && (a + b)[1..] == a[1..] + b;
    }
  }

  lemma {:induction false} PortBindingsAre(w: string, nodeId: string, ports: seq<Value>)
    ensures BindsNamedPorts(w, nodeId, ports, PortBindings(w, nodeId, ports))
    ensures forall x :: 0 <= x < |PortBindings(w, nodeId, ports)| ==>
      PortBindings(w, nodeId, ports)[x].uri == RemoteInputKey(w, nodeId, PortBindings(w, nodeId, ports)[x].port)
  {
    hide RemoteInputKey, NamesPort, Property, PortBindings;
    if ports == [] {
      assert PortBindings(w, nodeId, []) == [] by { NoPortBinding(w, nodeId); }
    } else {
      var n := |ports| - 1;
      var before, last := ports[..n], ports[n];
      PortBindingsAre(w, nodeId, before);
      PortBindingsConcat(w, nodeId, before, [last]);
      OnePortBinding(w, nodeId, last);
      assert before + [last] == ports;
      forall k | 0 <= k < n ensures ports[..k] == before[..k] && ports[k] == before[k] {
      }
    }
  }

  lemma NoPortBinding(w: string, nodeId: string)
    ensures PortBindings(w, nodeId, []) == []
  {
  }

  /** Position k holds the first readable node of that name. */
  ghost predicate IsFirstNode(nodes: seq<Value>, nodeId: string, k: nat) {
    && k < |nodes| && AsNodeEntry(nodes[k]).Some? && AsNodeEntry(nodes[k]).value.name == nodeId
    && forall j :: 0 <= j < k ==> AsNodeEntry(nodes[j]).None? || AsNodeEntry(nodes[j]).value.name != nodeId
  }

  lemma {:induction false} InputsOfFirstNode(w: string, nodes: seq<Value>, nodeId: string, k: nat)
    requires IsFirstNode(nodes, nodeId, k)
    ensures RemoteInputBindings(w, nodes, nodeId) == PortBindings(w, nodeId, AsNodeEntry(nodes[k]).value.inputs)
    decreases k
  {
    hide AsNodeEntry;
    if k > 0 {
      assert nodes[1..][k - 1] == nodes[k];
      assert forall j :: 0 <= j < k - 1 ==> nodes[1..][j] == nodes[j + 1];
      InputsOfFirstNode(w, nodes[1..], nodeId, k - 1);
    }
  }

  lemma {:induction false} FirstNodeExists(nodes: seq<Value>, nodeId: string) returns (k: nat)
    requires CycleCheck.DeclaresNode(nodes, nodeId)
    ensures IsFirstNode(nodes, nodeId, k)
  {
    hide AsNodeEntry;
    if AsNodeEntry(nodes[0]).Some? && AsNodeEntry(nodes[0]).value.name == nodeId {
      k := 0;
    } else {
      var n :| n in nodes && AsNodeEntry(n).Some? && AsNodeEntry(n).value.name == nodeId;
      assert n in nodes[1..];
      k := FirstNodeExists(nodes[1..], nodeId);
      assert forall j :: 0 < j < |nodes| ==> nodes[j] == nodes[1..][j - 1];
      k := k + 1;
    }
  }

  /** Every intent of a bound request names a readable node. */
  lemma IntentNodeExists(input: BindingInput, m: Intent)
    requires input.intents != [] && Bind(input).Bound? && m in input.intents
    ensures CycleCheck.DeclaresNode(NodesOrEmpty(input.graph), m.nodeId)
  {
    hide Bind, AsNodeEntry, CycleCheck.DeclaresNode;
    var parts := Partitions(input.intents, input.groups);
    IntentPartition(input.intents, input.groups, m);
    var i :| 0 <= i < |parts| && m.nodeId in NodeIds(parts[i]);
    BoundPicks(input, i);
    PickedNodeExists(input, parts[i], m.nodeId);
  }

  lemma BoundPicks(input: BindingInput, i: nat)
    requires input.intents != [] && Bind(input).Bound? && i < |Partitions(input.intents, input.groups)|
    ensures PickFor(input, Partitions(input.intents, input.groups)[i]).Some?
  {
    EveryPartitionPicked(Partitions(input.intents, input.groups), SortByCapacity(input.endpoints),
                         EntryIndex(NodesOrEmpty(input.graph)), i);
  }

  // ---------------------------------------------------------------- the plan

  /**
   * The plan of a bound request has one binding per intent, in order, with its node and model; its output key tells the
   * nodes apart and is no input key of the plan; and its inputs are the named input ports, in order, of the first
   * readable node of that name.
   */
  lemma PlanIsSound(input: BindingInput, i: nat) returns (k: nat)
    requires input.intents != [] && Bind(input).Bound? && i < |input.intents|
    ensures var bindings := Bind(input).bindings;
      && |bindings| == |input.intents|
      && bindings[i].nodeId == input.intents[i].nodeId && bindings[i].modelKey == input.intents[i].modelKey
      && KeyOf(input.workflowId, bindings[i].outputUri)
    ensures IsFirstNode(NodesOrEmpty(input.graph), input.intents[i].nodeId, k)
    ensures BindsNamedPorts(input.workflowId, input.intents[i].nodeId, AsNodeEntry(NodesOrEmpty(input.graph)[k]).value.inputs,
                            Bind(input).bindings[i].inputs)
  {
    hide AsNodeEntry, RemoteOutputKey, PortBindings, BindsNamedPorts;
    var nodes, m := NodesOrEmpty(input.graph), input.intents[i];
    PlannedBinding(input, i);
    IntentNodeExists(input, m);
    k := FirstNodeExists(nodes, m.nodeId);
    InputsOfFirstNode(input.workflowId, nodes, m.nodeId, k);
    PortBindingsAre(input.workflowId, m.nodeId, AsNodeEntry(nodes[k]).value.inputs);
    KeysAreOfTheWorkflow(input.workflowId, m.nodeId, "");
  }

  /** The workflow's own endpoint is the one that its first intent is bound to. */
  lemma SummaryEndpoint(input: BindingInput)
    requires input.intents != [] && Bind(input).Bound?
    ensures var r, first := Bind(input), input.intents[0].nodeId;
      first in r.nodeEndpoint && r.endpointId == r.nodeEndpoint[first]
  {
    hide AssignNodes, PlanBindings;
    assert input.intents[0] in input.intents;
    BoundNodes(input, input.intents[0].nodeId);
  }

  lemma PlannedBinding(input: BindingInput, i: nat)
    requires input.intents != [] && Bind(input).Bound? && i < |input.intents|
    ensures |Bind(input).bindings| == |input.intents|
    ensures var b, m := Bind(input).bindings[i], input.intents[i];
      && b.nodeId == m.nodeId && b.modelKey == m.modelKey && b.outputUri == RemoteOutputKey(input.workflowId, m.nodeId)
      && b.inputs == RemoteInputBindings(input.workflowId, NodesOrEmpty(input.graph), m.nodeId)
  {
    hide AsNodeEntry, RemoteOutputKey, RemoteInputBindings;
  }

  /** Two bindings of a plan write to one object only if they are for one node. */
  lemma OutputsAreApart(input: BindingInput, i: nat, j: nat)
    requires input.intents != [] && Bind(input).Bound? && i < |input.intents| && j < |input.intents|
    ensures |Bind(input).bindings| == |input.intents|
    ensures Bind(input).bindings[i].outputUri == Bind(input).bindings[j].outputUri <==>
      input.intents[i].nodeId == input.intents[j].nodeId
  {
    hide Bind, RemoteOutputKey;
    PlannedBinding(input, i);
    PlannedBinding(input, j);
    OutputKeysDiffer(input.workflowId, input.intents[i].nodeId, input.intents[j].nodeId);
  }

  /**
   * No binding writes over an input of another; with slash-free node ids, two inputs of a plan are one object only if
   * they are the same port of the same node.
   */
  lemma InputsAreApart(input: BindingInput, i: nat, x: nat, j: nat, y: nat)
    requires input.intents != [] && Bind(input).Bound? && i < |input.intents| && j < |input.intents|
    requires |Bind(input).bindings| == |input.intents|
    requires x < |Bind(input).bindings[i].inputs| && y < |Bind(input).bindings[j].inputs|
    ensures Bind(input).bindings[j].outputUri != Bind(input).bindings[i].inputs[x].uri
    ensures var b, c := Bind(input).bindings[i], Bind(input).bindings[j];
      SlashFree(b.nodeId) && SlashFree(c.nodeId) ==>
        (b.inputs[x].uri == c.inputs[y].uri <==> b.nodeId == c.nodeId && b.inputs[x].port == c.inputs[y].port)
  {
    hide Bind, RemoteInputKey, RemoteOutputKey, RemoteInputBindings;
    PlannedBinding(input, i);
    PlannedBinding(input, j);
    var b, c := Bind(input).bindings[i], Bind(input).bindings[j];
    InputKeyOf(input, i, x);
    InputKeyOf(input, j, y);
    OutputIsNoInput(input.workflowId, c.nodeId, b.nodeId, b.inputs[x].port);
    InputKeysDiffer(input.workflowId, b.nodeId, b.inputs[x].port, c.nodeId, c.inputs[y].port);
  }

  lemma InputKeyOf(input: BindingInput, i: nat, x: nat)
    requires input.intents != [] && Bind(input).Bound? && i < |input.intents|
    requires |Bind(input).bindings| == |input.intents| && x < |Bind(input).bindings[i].inputs|
    ensures var b := Bind(input).bindings[i]; b.inputs[x].uri == RemoteInputKey(input.workflowId, b.nodeId, b.inputs[x].port)
  {
    hide Bind, RemoteInputKey, RemoteOutputKey, AsNodeEntry, RemoteInputBindings, PortBindings;
    var nodes, m := NodesOrEmpty(input.graph), input.intents[i];
    PlannedBinding(input, i);
    IntentNodeExists(input, m);
    var k := FirstNodeExists(nodes, m.nodeId);
    InputsOfFirstNode(input.workflowId, nodes, m.nodeId, k);
    PortBindingsAre(input.workflowId, m.nodeId, AsNodeEntry(nodes[k]).value.inputs);
  }
}
