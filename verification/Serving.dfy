/** What it takes for an endpoint to serve an intent, and what its capacity is, in terms of the request (`scheduler.ts`). */
module Serving {
  import opened Js
  import opened Inspection
  import opened InspectionPorts
  import opened Scheduler

  // ---------------------------------------------------------------- capacity

  /** Capacity adds up over the models: it is the sum of their queue room. */
  lemma {:induction false} CapacityAddsUp(a: seq<Model>, b: seq<Model>)
    ensures Capacity([]) == 0 && Capacity(a + b) == Capacity(a) + Capacity(b)
    ensures |a| == 1 ==> Capacity(a) == a[0].queueRemaining
  {
    if a == [] {
      assert a + b == b;
    } else {
      CapacityAddsUp(a[1..], b);
      assert (a + b)[0] == a[0] && (a + b)[1..] == a[1..] + b;
    }
  }

  // ---------------------------------------------------------------- the serving model

  /** Position i holds the first model of that key. */
  predicate IsFirstModel(models: seq<Model>, key: string, i: nat) {
    i < |models| && models[i].modelKey == key && forall j :: 0 <= j < i ==> models[j].modelKey != key
  }

  lemma {:induction false} FirstModelExactly(models: seq<Model>, key: string)
    ensures FirstModel(models, key).None? <==> forall i :: 0 <= i < |models| ==> models[i].modelKey != key
    ensures forall i: nat :: IsFirstModel(models, key, i) ==> FirstModel(models, key) == Some(models[i])
    ensures FirstModel(models, key).Some? ==> exists i: nat :: IsFirstModel(models, key, i)
  {
    if models != [] {
      FirstModelExactly(models[1..], key);
      assert forall i :: 0 < i < |models| ==> models[i] == models[1..][i - 1];
      if models[0].modelKey == key {
        assert IsFirstModel(models, key, 0);
      } else {
        forall i: nat | IsFirstModel(models, key, i) ensures FirstModel(models, key) == Some(models[i]) {
          assert IsFirstModel(models[1..], key, i - 1);
        }
        if FirstModel(models, key).Some? {
          var i: nat :| IsFirstModel(models[1..], key, i);
          assert IsFirstModel(models, key, i + 1);
        }
      }
    }
  }

  // ---------------------------------------------------------------- the node

  lemma NamedIsReadable(node: Value, id: string)
    ensures AsNodeEntry(node).Some? && AsNodeEntry(node).value.name == id <==> IsNamed(node, id) && id != ""
    ensures AsNodeEntry(node).Some? ==>
      AsNodeEntry(node).value.inputs == PortArray(node, "inputs") && AsNodeEntry(node).value.outputs == PortArray(node, "outputs")
  {
  }

  lemma {:induction false} EntryIndexIsLast(nodes: seq<Value>, id: string)
    ensures id in EntryIndex(nodes) <==> id != "" && exists k: nat :: IsLastNode(nodes, id, k)
    ensures forall k: nat :: IsLastNode(nodes, id, k) && id != "" ==> (
      id in EntryIndex(nodes)
      && EntryIndex(nodes)[id].inputs == PortArray(nodes[k], "inputs") && EntryIndex(nodes)[id].outputs == PortArray(nodes[k], "outputs"))
  {
    hide IsNamed, AsNodeEntry, PortArray;
    if nodes != [] {
      var n := |nodes| - 1;
      EntryIndexIsLast(nodes[..n], id);
      NamedIsReadable(nodes[n], id);
      assert forall j :: 0 <= j < n ==> nodes[..n][j] == nodes[j];
      if IsNamed(nodes[n], id) {
        assert IsLastNode(nodes, id, n);
      } else {
        forall k: nat ensures IsLastNode(nodes, id, k) <==> IsLastNode(nodes[..n], id, k) {
        }
      }
    }
  }

  // ---------------------------------------------------------------- serving

  /** The model has room, and the node's ports fit what it declares on either side. */
  ghost predicate ModelServes(m: Model, node: Value) {
    && m.queueRemaining >= 1
    && SideFits(node, "inputs", if m.io.Some? then m.io.value.inputs else None)
    && SideFits(node, "outputs", if m.io.Some? then m.io.value.outputs else None)
  }

  /**
   * An endpoint serves an intent if and only if its first model of the intent's key has room and fits the last node of
   * the intent's name.
   */
  lemma ServesExactly(e: Endpoint, m: Intent, nodes: seq<Value>)
    ensures ServesOne(e, m, EntryIndex(nodes)) <==>
      m.nodeId != "" && exists i: nat, k: nat ::
        IsFirstModel(e.models, m.modelKey, i) && IsLastNode(nodes, m.nodeId, k) && ModelServes(e.models[i], nodes[k])
  {
    hide SideFits, PortArray, PortsMatch, IsNamed;
    FirstModelExactly(e.models, m.modelKey);
    EntryIndexIsLast(nodes, m.nodeId);
    forall i: nat, k: nat | IsFirstModel(e.models, m.modelKey, i) && IsLastNode(nodes, m.nodeId, k) && m.nodeId != ""
      ensures ServesOne(e, m, EntryIndex(nodes)) <==> ModelServes(e.models[i], nodes[k])
    {
      PortsMatchExactly(nodes[k], "inputs", DeclaredInputs(e.models[i]));
      PortsMatchExactly(nodes[k], "outputs", DeclaredOutputs(e.models[i]));
    }
  }

  // ---------------------------------------------------------------- intents

  /** Position k holds the last intent for that node. */
  predicate IsLastIntent(intents: seq<Intent>, id: string, k: nat) {
    k < |intents| && intents[k].nodeId == id && forall j :: k < j < |intents| ==> intents[j].nodeId != id
  }

  /** Of several intents for one node the binder keeps the last. */
  lemma {:induction false} IntentByIdIsLast(intents: seq<Intent>, id: string, k: nat)
    requires IsLastIntent(intents, id, k)
    ensures id in IntentById(intents) && IntentById(intents)[id] == intents[k]
  {
    var n := |intents| - 1;
    if k < n { IntentByIdIsLast(intents[..n], id, k); }
  }
}
