/** What the ledger records of a pending task, what is sent for it, and what a deferred poll leaves behind. */
module PumpRecords {
  import opened Js
  import opened TaskAccount
  import opened Pump
  import opened PumpLimits

  // ---------------------------------------------------------------- every entry comes from a read

  /** The entry is that of the pending task: its node, model and object keys; and, until it is moved, its priority and time. */
  predicate Describes(p: Pending, t: string, e: Entry, moved: bool) {
    && p.taskId == t && e.taskId == t && e.workflowId == p.workflowId && e.nodeId == p.nodeId
    && e.modelKey == p.modelKey && e.inputKey == p.inputUri && e.outputKey == p.outputUri
    && (moved || (e.priority == p.priority && e.dispatchedAtMs == p.dispatchedAtMs))
  }

  function ReadOf(step: Step): set<Pending> {
    if step.Read? then {step.p} else {}
  }

  ghost predicate InHandFrom(cursor: Cursor, seen: set<Pending>) {
    cursor.Idle? || cursor.p in seen
  }

  ghost predicate Sourced(entries: Entries, moved: set<string>, seen: set<Pending>) {
    forall t :: t in entries ==> exists p :: p in seen && Describes(p, t, entries[t], t in moved)
  }

  lemma GateHand(s: State, allowed: bool)
    requires s.cursor.Gating?
    ensures AfterGate(s, allowed).cursor.Idle? || AfterGate(s, allowed).cursor.p == s.cursor.p
  {
    hide WriteAll, NewEntry, Recorded;
  }

  lemma ReadHand(s: State, p: Pending)
    requires s.cursor.Idle?
    ensures AfterRead(s, p).cursor.Idle? || AfterRead(s, p).cursor.p == p
  {
    hide Resolve;
    if !Skips(s.entries, p.taskId) {
      var s' := s.(cursor := Gating(p, Resolve(s, p), p.taskId in s.entries));
      assert AfterRead(s, p) == s';
    }
  }

  lemma WriteHand(s: State, step: Step)
    requires Enabled(s, step) && (step.Report? || step.Expire?)
    ensures Next(s, step).cursor == s.cursor
  {
    hide WriteAll, ReassignInFlight, AddAll, Dying;
  }

  lemma IdleHand(s: State, step: Step)
    requires Enabled(s, step) && (step.Mark? || step.Restart?)
    ensures Next(s, step).cursor.Idle?
  {
    hide WriteAll, PushMarked, ResetInFlight, Hydrated, AddAll, Add;
  }

  lemma SendHand(s: State, ok: bool)
    requires s.cursor.Sending?
    ensures AfterSend(s, ok).cursor == if ok then Delivered(s.cursor.p, s.cursor.endpointId) else Idle
  {
    hide Add;
  }

  lemma StepHand(s: State, step: Step, seen: set<Pending>)
    requires Enabled(s, step) && InHandFrom(s.cursor, seen)
    ensures InHandFrom(Next(s, step).cursor, seen + ReadOf(step))
  {
    hide AfterRead, AfterGate, AfterSend, AfterMark, AfterReport, AfterExpire, AfterRestart;
    match step
    case Publish(_, _) =>
    case Read(p) => ReadHand(s, p);
    case Gate(allowed) => GateHand(s, allowed);
    case Send(ok) => SendHand(s, ok);
    case Mark => IdleHand(s, step);
    case Report(_) => WriteHand(s, step);
    case Expire(_, _, _) => WriteHand(s, step);
    case Restart(_) => IdleHand(s, step);
  }

  lemma DescribedStays(p: Pending, t: string, e: Entry, e': Entry, moved: bool, moved': bool)
    requires Describes(p, t, e, moved) && SameIdentity(e, e') && (moved ==> moved') && (moved' || SamePlace(e, e'))
    ensures Describes(p, t, e', moved')
  {
  }

  lemma NewEntryDescribed(p: Pending, endpointId: string, moved: bool)
    ensures Describes(p, p.taskId, NewEntry(p, endpointId), moved)
  {
  }

  lemma StepSources(s: State, step: Step, seen: set<Pending>)
    requires Inv(s) && Enabled(s, step) && InHandFrom(s.cursor, seen) && Sourced(s.entries, s.moved, seen)
    ensures Sourced(Next(s, step).entries, Next(s, step).moved, seen + ReadOf(step))
  {
    hide Inv, Next, Enabled, Describes, NewEntry, SameIdentity, SamePlace;
    StepEvolves(s, step);
    var s' := Next(s, step);
    forall t | t in s'.entries ensures exists p :: p in seen + ReadOf(step) && Describes(p, t, s'.entries[t], t in s'.moved) {
      if t in s.entries {
        var p :| p in seen && Describes(p, t, s.entries[t], t in s.moved);
        DescribedStays(p, t, s.entries[t], s'.entries[t], t in s.moved, t in s'.moved);
      } else {
        NewEntryDescribed(s.cursor.p, s.cursor.endpointId, t in s'.moved);
      }
    }
  }

  function ReadsOf(steps: seq<Step>): set<Pending> {
    if steps == [] then {} else ReadOf(steps[0]) + ReadsOf(steps[1..])
  }

  lemma {:induction false} ReadsAre(steps: seq<Step>, p: Pending)
    ensures p in ReadsOf(steps) <==> Read(p) in steps
  {
    if steps != [] { ReadsAre(steps[1..], p); }
  }

  lemma {:induction false} SourcesOverRuns(s: State, steps: seq<Step>, seen: set<Pending>)
    requires Inv(s) && IsRun(s, steps) && InHandFrom(s.cursor, seen) && Sourced(s.entries, s.moved, seen)
    ensures Sourced(After(s, steps).entries, After(s, steps).moved, seen + ReadsOf(steps))
    decreases |steps|
  {
    hide Inv, Next, Enabled, Sourced, InHandFrom, ReadOf;
    if steps == [] {
      assert seen + ReadsOf(steps) == seen;
    } else {
      StepKeeps(s, steps[0]);
      StepHand(s, steps[0], seen);
      StepSources(s, steps[0], seen);
      SourcesOverRuns(Next(s, steps[0]), steps[1..], seen + ReadOf(steps[0]));
      assert seen + ReadOf(steps[0]) + ReadsOf(steps[1..]) == seen + ReadsOf(steps);
    }
  }

  /**
   * Over every run, every entry of the ledger is that of one pending task that the poll read: its node, model and object
   * keys for ever, its priority and time until it is first moved.
   */
  lemma RecordedAsRead(steps: seq<Step>, t: string)
    requires IsRun(INITIAL, steps) && t in After(INITIAL, steps).entries
    ensures exists p :: Read(p) in steps && Describes(p, t, After(INITIAL, steps).entries[t], t in After(INITIAL, steps).moved)
  {
    hide Describes;
    InitialInv();
    SourcesOverRuns(INITIAL, steps, {});
    var s := After(INITIAL, steps);
    var p :| p in {} + ReadsOf(steps) && Describes(p, t, s.entries[t], t in s.moved);
    ReadsAre(steps, p);
  }

  // ---------------------------------------------------------------- the message

  /** What is pushed to the endpoint: the download and upload keys are signed for reading and for writing. */
  datatype Message = Message(
    taskId: string, requestId: RequestId, modelKey: string, downloadKey: string, uploadKey: string, priority: Priority)

  function MessageFor(p: Pending, endpointId: string): Message {
    Message(p.taskId, RequestId(endpointId, p.taskId), p.modelKey, p.inputUri, p.outputUri, p.priority)
  }

  /** A message goes to the endpoint that the ledger names, under the ledger's request id, with the keys of a pending task that was read. */
  lemma MessageFitsLedger(steps: seq<Step>)
    requires IsRun(INITIAL, steps) && After(INITIAL, steps).cursor.Sending?
    ensures var s := After(INITIAL, steps); var p, m := s.cursor.p, MessageFor(s.cursor.p, s.cursor.endpointId);
      && Read(p) in steps && p.taskId in s.entries && s.entries[p.taskId].endpointId == s.cursor.endpointId
      && m.requestId == s.entries[p.taskId].requestId && m.downloadKey == p.inputUri && m.uploadKey == p.outputUri
      && m.priority == p.priority && !s.entries[p.taskId].pushed
  {
    hide Synced, Accounted, PushedWhereLedgerSays;
    ReachableInv(steps);
    HandOverRuns(INITIAL, steps, {});
    ReadsAre(steps, After(INITIAL, steps).cursor.p);
  }

  lemma {:induction false} HandOverRuns(s: State, steps: seq<Step>, seen: set<Pending>)
    requires IsRun(s, steps) && InHandFrom(s.cursor, seen)
    ensures InHandFrom(After(s, steps).cursor, seen + ReadsOf(steps))
    decreases |steps|
  {
    hide Next, Enabled, InHandFrom, ReadOf;
    if steps == [] {
      assert seen + ReadsOf(steps) == seen;
    } else {
      StepHand(s, steps[0], seen);
      HandOverRuns(Next(s, steps[0]), steps[1..], seen + ReadOf(steps[0]));
      assert seen + ReadOf(steps[0]) + ReadsOf(steps[1..]) == seen + ReadsOf(steps);
    }
  }

  // ---------------------------------------------------------------- deferred tasks

  /** A closed gate leaves no trace: a new task is not even recorded, and the next poll starts from the same state. */
  lemma ClosedGateLeavesNoTrace(s: State, p: Pending)
    requires s.cursor.Idle? && Enabled(s, Read(p)) && !Skips(s.entries, p.taskId)
    ensures IsRun(s, [Read(p), Gate(false)]) && After(s, [Read(p), Gate(false)]) == s
  {
    hide Resolve;
    var s1 := s.(cursor := Gating(p, Resolve(s, p), p.taskId in s.entries));
    assert Next(s, Read(p)) == s1;
    assert Next(s1, Gate(false)) == s;
    assert IsRun(s, []) && After(s, []) == s;
    Extend(s, [], Read(p));
    Extend(s, [Read(p)], Gate(false));
    assert [] + [Read(p)] == [Read(p)] && [Read(p)] + [Gate(false)] == [Read(p), Gate(false)];
  }

  /** A failed send leaves the task recorded and unpushed at its endpoint, ready for the next poll. */
  lemma FailedSendLeavesTheTask(s: State, p: Pending)
    requires Inv(s) && s.cursor.Idle? && Enabled(s, Read(p)) && !Skips(s.entries, p.taskId)
    ensures IsRun(s, [Read(p), Gate(true), Send(false)])
    ensures var s' := After(s, [Read(p), Gate(true), Send(false)]);
      && s'.cursor.Idle? && s'.pushes == s.pushes && s'.resets == s.resets && s'.bindings == s.bindings
      && s'.entries == Recorded(s.entries, NewEntry(p, Resolve(s, p)))
      && Enabled(s', Read(p)) && Next(s', Read(p)) == s'.(cursor := Gating(p, Resolve(s, p), true))
  {
    hide Inv, Resolve, NewEntry, AfterGate, Recorded, AfterMark, AfterReport, AfterExpire, AfterRestart;
    var e := Resolve(s, p);
    var s1 := s.(cursor := Gating(p, e, p.taskId in s.entries));
    assert Next(s, Read(p)) == s1;
    var s2 := Next(s1, Gate(true));
    GateOpens(s1);
    var s3 := Next(s2, Send(false));
    assert s3 == s2.(cursor := Idle);
    assert IsRun(s, []) && After(s, []) == s;
    Extend(s, [], Read(p));
    Extend(s, [Read(p)], Gate(true));
    Extend(s, [Read(p), Gate(true)], Send(false));
    assert [] + [Read(p)] == [Read(p)] && [Read(p)] + [Gate(true)] == [Read(p), Gate(true)];
    assert [Read(p), Gate(true)] + [Send(false)] == [Read(p), Gate(true), Send(false)];
    ReadAgain(s, s3, p);
  }

  lemma KnownIsSent(s: State)
    requires s.cursor.Gating? && s.cursor.known
    ensures AfterGate(s, true).cursor == Sending(s.cursor.p, s.cursor.endpointId)
  {
  }

  lemma RecordedIsSent(s: State)
    requires s.cursor.Gating? && !s.cursor.known && s.cursor.p.taskId !in s.entries
    ensures AfterGate(s, true).cursor == Sending(s.cursor.p, s.cursor.endpointId)
  {
    hide WriteAll, NewEntry, Recorded;
  }

  lemma GateOpens(s: State)
    requires s.cursor.Gating? && s.cursor.known == (s.cursor.p.taskId in s.entries)
    ensures var s', c := AfterGate(s, true), s.cursor;
      && s'.cursor == Sending(c.p, c.endpointId) && s'.pushes == s.pushes && s'.resets == s.resets && s'.bindings == s.bindings
      && s'.entries == Recorded(s.entries, NewEntry(c.p, c.endpointId))
  {
    hide AfterGate, NewEntry;
    NewEntryIs(s.cursor.p, s.cursor.endpointId);
    if s.cursor.known {
      GateKeepsLedger(s, true);
      KnownIsSent(s);
    } else {
      GateRecords(s);
      RecordedIsSent(s);
    }
  }

  /** A task goes on to be sent exactly behind an open gate, unless the poll took it for new and it was recorded meanwhile. */
  lemma GateDecides(s: State, allowed: bool)
    requires s.cursor.Gating?
    ensures AfterGate(s, allowed).cursor ==
      if allowed && (s.cursor.known || s.cursor.p.taskId !in s.entries) then Sending(s.cursor.p, s.cursor.endpointId) else Idle
    ensures AfterGate(s, allowed).entries ==
      if allowed && !s.cursor.known then Recorded(s.entries, NewEntry(s.cursor.p, s.cursor.endpointId)) else s.entries
  {
    hide AfterGate, NewEntry;
    NewEntryIs(s.cursor.p, s.cursor.endpointId);
    if !allowed || (!s.cursor.known && s.cursor.p.taskId in s.entries) {
      GateKeepsLedger(s, allowed);
      GateStops(s, allowed);
    } else if s.cursor.known {
      GateKeepsLedger(s, true);
      KnownIsSent(s);
    } else {
      GateRecords(s);
      RecordedIsSent(s);
    }
  }

  lemma GateStops(s: State, allowed: bool)
    requires s.cursor.Gating? && (!allowed || (!s.cursor.known && s.cursor.p.taskId in s.entries))
    ensures AfterGate(s, allowed).cursor == Idle
  {
  }

  lemma ReadAgain(s: State, s': State, p: Pending)
    requires s'.cursor.Idle? && s'.entries == Recorded(s.entries, NewEntry(p, Resolve(s, p))) && !Skips(s.entries, p.taskId)
    ensures AfterRead(s', p) == s'.(cursor := Gating(p, Resolve(s, p), true))
  {
  }
}
