/** How far the dispatch protocol's promises reach: exact conditions, and runs that show where they end. */
module PumpLimits {
  import opened Js
  import Inspection
  import Scheduler
  import opened TaskAccount
  import opened Pump

  // ---------------------------------------------------------------- building runs

  lemma {:induction false} Extend(s: State, steps: seq<Step>, step: Step)
    requires IsRun(s, steps) && Enabled(After(s, steps), step)
    ensures IsRun(s, steps + [step]) && After(s, steps + [step]) == Next(After(s, steps), step)
    decreases |steps|
  {
    hide Enabled, Next;
    if steps == [] {
      assert [] + [step] == [step] && [step][1..] == [];
    } else {
      Extend(Next(s, steps[0]), steps[1..], step);
      assert (steps + [step])[1..] == steps[1..] + [step];
    }
  }

  // ---------------------------------------------------------------- a task that has been pushed and reported

  ghost predicate Settled(s: State, t: string) {
    IsReported(s, t) && s.entries[t].pushed
  }

  lemma HandIsUnpushed(s: State)
    requires Inv(s) && s.cursor.Sending?
    ensures s.cursor.p.taskId in s.entries && !s.entries[s.cursor.p.taskId].pushed
  {
    hide Keyed, Synced, Accounted, PushedWhereLedgerSays;
  }

  lemma OtherCount(c: Counter, t: string, u: string)
    requires t != u
    ensures At(Add(c, t), u) == At(c, u)
  {
  }

  lemma SendLeavesSettled(s: State, ok: bool, t: string)
    requires Inv(s) && s.cursor.Sending? && Settled(s, t)
    ensures Settled(AfterSend(s, ok), t) && At(AfterSend(s, ok).pushes, t) == At(s.pushes, t)
  {
    hide Inv, Add, Settled;
    HandIsUnpushed(s);
    SendKeepsLedger(s, ok);
    SameSettled(s, AfterSend(s, ok), t);
    SettledIs(s, t);
    OtherCount(s.pushes, s.cursor.p.taskId, t);
  }

  lemma SendKeepsLedger(s: State, ok: bool)
    requires s.cursor.Sending?
    ensures AfterSend(s, ok).entries == s.entries
    ensures AfterSend(s, ok).pushes == if ok then Add(s.pushes, s.cursor.p.taskId) else s.pushes
  {
    hide Add;
  }

  lemma SettledIs(s: State, t: string)
    ensures Settled(s, t) <==> t in s.entries && s.entries[t].reported && s.entries[t].pushed
  {
  }

  lemma MarksLeaveSettled(s: State, step: Step, t: string)
    requires Enabled(s, step) && (step.Mark? || step.Report?) && Settled(s, t)
    ensures Settled(Next(s, step), t) && Next(s, step).pushes == s.pushes
  {
    hide WriteAll;
  }

  lemma GateLeavesSettled(s: State, allowed: bool, t: string)
    requires s.cursor.Gating? && Settled(s, t)
    ensures Settled(AfterGate(s, allowed), t) && AfterGate(s, allowed).pushes == s.pushes
  {
    hide AfterGate, NewEntry;
    if !allowed || s.cursor.known || s.cursor.p.taskId in s.entries {
      GateKeepsLedger(s, allowed);
    } else {
      GateRecords(s);
      assert NewEntry(s.cursor.p, s.cursor.endpointId).taskId == s.cursor.p.taskId by { NewEntryIs(s.cursor.p, s.cursor.endpointId); }
    }
  }

  lemma ExpiryLeavesSettled(s: State, dead: string, candidates: seq<Scheduler.Endpoint>, clock: string -> int, t: string)
    requires Settled(s, t)
    ensures Settled(AfterExpire(s, dead, candidates, clock), t) && AfterExpire(s, dead, candidates, clock).pushes == s.pushes
  {
    hide WriteAll, Alternative, AddAll;
  }

  lemma RestartLeavesSettled(s: State, fromPostgres: bool, t: string)
    requires Inv(s) && Settled(s, t)
    ensures Settled(AfterRestart(s, fromPostgres), t) && AfterRestart(s, fromPostgres).pushes == s.pushes
  {
    hide Inv, Hydrated, AddAll, Add;
    RecoveryIsReset(s, fromPostgres);
  }

  lemma ReadLeavesSettled(s: State, p: Pending, t: string)
    requires Settled(s, t)
    ensures Settled(AfterRead(s, p), t) && AfterRead(s, p).pushes == s.pushes
  {
    hide Resolve;
    if !Skips(s.entries, p.taskId) {
      var s' := s.(cursor := Gating(p, Resolve(s, p), p.taskId in s.entries));
      assert AfterRead(s, p) == s';
    }
  }

  lemma StepLeavesSettled(s: State, step: Step, t: string)
    requires Inv(s) && Enabled(s, step) && Settled(s, t)
    ensures Settled(Next(s, step), t) && At(Next(s, step).pushes, t) == At(s.pushes, t)
  {
    hide Inv, Settled, AfterRead, AfterGate, AfterSend, AfterMark, AfterReport, AfterExpire, AfterRestart;
    match step
    case Publish(w, nodeEndpoint) => SameSettled(s, Next(s, step), t);
    case Read(p) => ReadLeavesSettled(s, p, t);
    case Gate(allowed) => GateLeavesSettled(s, allowed, t);
    case Send(ok) => SendLeavesSettled(s, ok, t);
    case Mark => MarksLeaveSettled(s, step, t);
    case Report(_) => MarksLeaveSettled(s, step, t);
    case Expire(dead, candidates, clock) => ExpiryLeavesSettled(s, dead, candidates, clock, t);
    case Restart(fromPostgres) => RestartLeavesSettled(s, fromPostgres, t);
  }

  lemma SameSettled(s: State, s': State, t: string)
    requires s'.entries == s.entries
    ensures Settled(s', t) == Settled(s, t)
  {
  }

  lemma {:induction false} SettledOverRuns(s: State, steps: seq<Step>, t: string)
    requires Inv(s) && IsRun(s, steps) && Settled(s, t)
    ensures Settled(After(s, steps), t) && At(After(s, steps).pushes, t) == At(s.pushes, t)
    decreases |steps|
  {
    hide Inv, Next, Enabled, Settled;
    if steps != [] {
      StepKeeps(s, steps[0]);
      StepLeavesSettled(s, steps[0], t);
      SettledOverRuns(Next(s, steps[0]), steps[1..], t);
    }
  }

  /** No continuation sends the task once more. */
  ghost predicate NeverPushedAgain(s: State, t: string) {
    forall steps: seq<Step> :: IsRun(s, steps) ==> At(After(s, steps).pushes, t) == At(s.pushes, t)
  }

  lemma PushAgain(s: State, p: Pending)
    requires s.cursor.Idle? && Enabled(s, Read(p)) && p.taskId in s.entries && !s.entries[p.taskId].pushed
    ensures var steps := [Read(p), Gate(true), Send(true)];
      IsRun(s, steps) && At(After(s, steps).pushes, p.taskId) == At(s.pushes, p.taskId) + 1
  {
    var s1 := Next(s, Read(p));
    assert s1 == s.(cursor := Gating(p, s.entries[p.taskId].endpointId, true));
    var s2 := Next(s1, Gate(true));
    assert s2 == s1.(cursor := Sending(p, s.entries[p.taskId].endpointId));
    assert IsRun(s, []) && After(s, []) == s;
    Extend(s, [], Read(p));
    Extend(s, [Read(p)], Gate(true));
    Extend(s, [Read(p), Gate(true)], Send(true));
    assert [] + [Read(p)] == [Read(p)] && [Read(p)] + [Gate(true)] == [Read(p), Gate(true)];
    assert [Read(p), Gate(true)] + [Send(true)] == [Read(p), Gate(true), Send(true)];
  }

  /**
   * A reported task that a poll may read is never sent again if and only if it is still marked pushed: a report that
   * arrives after the task was put back to unpushed does not stop the next push.
   */
  lemma ReportedTaskIsSettledIffPushed(s: State, p: Pending)
    requires Inv(s) && Enabled(s, Read(p)) && IsReported(s, p.taskId)
    ensures NeverPushedAgain(s, p.taskId) <==> s.entries[p.taskId].pushed
  {
    hide Inv, Next, Enabled;
    if s.entries[p.taskId].pushed {
      forall steps: seq<Step> | IsRun(s, steps) ensures At(After(s, steps).pushes, p.taskId) == At(s.pushes, p.taskId) {
        SettledOverRuns(s, steps, p.taskId);
      }
    } else {
      CursorIsIdle(s, p);
      PushAgain(s, p);
    }
  }

  lemma CursorIsIdle(s: State, p: Pending)
    requires Enabled(s, Read(p))
    ensures s.cursor.Idle?
  {
  }

  // ---------------------------------------------------------------- runs that lead there

  type Bindings = map<string, map<string, string>>

  function Stage(entries: Entries, cursor: Cursor, bindings: Bindings, pushes: Counter, lastPush: map<string, string>): State {
    State(entries, entries, entries, cursor, bindings, pushes, map[], map[], map[], lastPush, {})
  }

  lemma Recording(p: Pending, e: string, bindings: Bindings)
    requires bindings == map[p.workflowId := map[p.nodeId := e]] && FromSidecar(p)
    ensures Enabled(INITIAL, Publish(p.workflowId, map[p.nodeId := e]))
    ensures Next(INITIAL, Publish(p.workflowId, map[p.nodeId := e])) == Stage(map[], Idle, bindings, map[], map[])
    ensures Enabled(Stage(map[], Idle, bindings, map[], map[]), Read(p))
    ensures Next(Stage(map[], Idle, bindings, map[], map[]), Read(p)) == Stage(map[], Gating(p, e, false), bindings, map[], map[])
  {
  }

  lemma Gated(p: Pending, e: string, bindings: Bindings)
    ensures Next(Stage(map[], Gating(p, e, false), bindings, map[], map[]), Gate(true)) ==
      Stage(map[p.taskId := NewEntry(p, e)], Sending(p, e), bindings, map[], map[])
  {
    var entry := NewEntry(p, e);
    var entries := Recorded(map[], entry);
    assert entries == map[p.taskId := entry];
    assert WriteAll(false, map[], entries, {p.taskId}) == entries == WriteAll(true, map[], entries, {p.taskId});
  }

  lemma Sent(p: Pending, e: string, entries: Entries, bindings: Bindings)
    ensures Next(Stage(entries, Sending(p, e), bindings, map[], map[]), Send(true)) ==
      Stage(entries, Delivered(p, e), bindings, map[p.taskId := 1], map[p.taskId := e])
  {
  }

  lemma Marked(p: Pending, e: string, bindings: Bindings, pushes: Counter, lastPush: map<string, string>)
    ensures var entry := NewEntry(p, e);
      Next(Stage(map[p.taskId := entry], Delivered(p, e), bindings, pushes, lastPush), Mark) ==
        Stage(map[p.taskId := entry.(pushed := true)], Idle, bindings, pushes, lastPush)
  {
    var entry := NewEntry(p, e);
    var entries, entries' := map[p.taskId := entry], map[p.taskId := entry.(pushed := true)];
    assert PushMarked(entries, p.taskId) == entries';
    assert WriteAll(false, entries, entries', {p.taskId}) == entries' == WriteAll(true, entries, entries', {p.taskId});
  }

  /** Every sidecar task can be published, recorded, pushed and marked. */
  lemma PushedOnce(p: Pending, e: string) returns (steps: seq<Step>)
    requires FromSidecar(p)
    ensures IsRun(INITIAL, steps) && forall i :: 0 <= i < |steps| ==> !steps[i].Report?
    ensures After(INITIAL, steps) == Stage(map[p.taskId := NewEntry(p, e).(pushed := true)], Idle,
      map[p.workflowId := map[p.nodeId := e]], map[p.taskId := 1], map[p.taskId := e])
  {
    hide Next, Stage, FromSidecar, NewEntry;
    var bindings := map[p.workflowId := map[p.nodeId := e]];
    Recording(p, e, bindings);
    Gated(p, e, bindings);
    Sent(p, e, map[p.taskId := NewEntry(p, e)], bindings);
    Marked(p, e, bindings, map[p.taskId := 1], map[p.taskId := e]);
    Staged(p, e, bindings);
    steps := [];
    Extend(INITIAL, steps, Publish(p.workflowId, map[p.nodeId := e]));
    steps := steps + [Publish(p.workflowId, map[p.nodeId := e])];
    Extend(INITIAL, steps, Read(p));
    steps := steps + [Read(p)];
    Extend(INITIAL, steps, Gate(true));
    steps := steps + [Gate(true)];
    Extend(INITIAL, steps, Send(true));
    steps := steps + [Send(true)];
    Extend(INITIAL, steps, Mark);
    steps := steps + [Mark];
  }

  lemma Staged(p: Pending, e: string, bindings: Bindings)
    ensures Enabled(Stage(map[], Gating(p, e, false), bindings, map[], map[]), Gate(true))
    ensures Enabled(Stage(map[p.taskId := NewEntry(p, e)], Sending(p, e), bindings, map[], map[]), Send(true))
    ensures Enabled(Stage(map[p.taskId := NewEntry(p, e)], Delivered(p, e), bindings, map[p.taskId := 1], map[p.taskId := e]), Mark)
  {
  }

  lemma OnlyAlternative(dead: string, alive: string, modelKey: string)
    requires alive != dead
    ensures var e := Scheduler.Endpoint(alive, [Inspection.Model(modelKey, 1, None)]);
      Alternative([e], dead, modelKey) == Some(e)
  {
    var model := Inspection.Model(modelKey, 1, None);
    var e := Scheduler.Endpoint(alive, [model]);
    assert e.models[0] == model;
    assert Others([e][1..], dead) == [];
    assert Others([e], dead) == [e];
    assert Scheduler.SortByCapacity([e][1..]) == [];
    assert Scheduler.SortByCapacity([e]) == [e];
    assert HasRoom(e, modelKey);
  }

  /** A pushed task's endpoint dies, and then its report arrives. */
  lemma ExpiredThenReported(s: State, t: string, alive: string, clock: string -> int)
    requires t in s.entries && InFlight(s.entries[t]) && s.entries[t].taskId == t && alive != s.entries[t].endpointId
    ensures var candidates := [Scheduler.Endpoint(alive, [Inspection.Model(s.entries[t].modelKey, 1, None)])];
      var s' := AfterReport(AfterExpire(s, s.entries[t].endpointId, candidates, clock), t);
      IsReported(s', t) && !s'.entries[t].pushed && s'.cursor == s.cursor && s'.bindings == s.bindings
  {
    hide WriteAll, AddAll, Alternative;
    OnlyAlternative(s.entries[t].endpointId, alive, s.entries[t].modelKey);
  }

  /** For every sidecar task there is a run after which it is reported, unpushed, and about to be read again. */
  lemma LateReportIsReachable(p: Pending, e: string, alive: string, clock: string -> int) returns (steps: seq<Step>)
    requires FromSidecar(p) && alive != e
    ensures IsRun(INITIAL, steps)
    ensures var s := After(INITIAL, steps);
      Enabled(s, Read(p)) && IsReported(s, p.taskId) && !s.entries[p.taskId].pushed && !NeverPushedAgain(s, p.taskId)
  {
    hide AfterExpire, AfterReport, NeverPushedAgain;
    steps := PushedOnce(p, e);
    var s := After(INITIAL, steps);
    var candidates := [Scheduler.Endpoint(alive, [Inspection.Model(p.modelKey, 1, None)])];
    ExpiredThenReported(s, p.taskId, alive, clock);
    Extend(INITIAL, steps, Expire(e, candidates, clock));
    steps := steps + [Expire(e, candidates, clock)];
    Extend(INITIAL, steps, Report(p.taskId));
    steps := steps + [Report(p.taskId)];
    ReachableInv(steps);
    ReportedTaskIsSettledIffPushed(After(INITIAL, steps), p);
  }

  lemma ReachableInv(steps: seq<Step>)
    requires IsRun(INITIAL, steps)
    ensures Inv(After(INITIAL, steps))
  {
    InitialInv();
    InvOverRuns(INITIAL, steps);
  }

  // ---------------------------------------------------------------- recovery resets that repeat

  /** Recovery resets a task that the ledger already had unpushed exactly when nothing was written since the last recovery. */
  lemma RepeatsExactly(s: State, fromPostgres: bool, t: string)
    requires Inv(s)
    ensures var s' := Next(s, Restart(fromPostgres));
      && At(s'.resets, t) == At(s.resets, t) + (if t in s.memory && InFlight(s.memory[t]) then 1 else 0)
      && At(s'.repeats, t) == At(s.repeats, t) + (if t in s.memory && InFlight(s.memory[t]) && s.memory[t] != s.entries[t] then 1 else 0)
  {
    hide Keyed, Accounted, PushedWhereLedgerSays, CursorOk, AddAll, Add, ResetInFlight, Hydrated;
    SyncedReset(s.entries, s.memory);
    AddedAt(s.resets, Flying(s.memory), t);
    AddedAt(s.repeats, Flying(s.memory) - Flying(s.entries), t);
  }

  /** Two crashes with nothing written in between reset an in-flight task twice for one push. */
  lemma TwoCrashesResetTwice(s: State, first: bool, second: bool, t: string)
    requires Inv(s) && t in s.entries && InFlight(s.entries[t])
    ensures var s' := Next(Next(s, Restart(first)), Restart(second));
      s'.pushes == s.pushes && At(s'.resets, t) == At(s.resets, t) + 2 && At(s'.repeats, t) == At(s.repeats, t) + 1
  {
    hide Inv, Next, Synced, InStep;
    var s1 := Next(s, Restart(first));
    RestartKeeps(s, first);
    RepeatsExactly(s, first, t);
    RepeatsExactly(s1, second, t);
    RecoveryIsReset(s, first);
    RestartWritesNothing(s, first);
    RestartWritesNothing(s1, second);
    FlyingRow(s, t);
  }

  lemma RestartWritesNothing(s: State, fromPostgres: bool)
    ensures var s' := Next(s, Restart(fromPostgres)); s'.memory == s.memory && s'.postgres == s.postgres && s'.pushes == s.pushes
  {
    hide Hydrated, ResetInFlight, AddAll, Add;
  }

  lemma FlyingRow(s: State, t: string)
    requires Inv(s) && t in s.entries && InFlight(s.entries[t])
    ensures t in s.memory && s.memory[t] == s.entries[t]
  {
    hide Keyed, Accounted, PushedWhereLedgerSays, CursorOk;
  }

  lemma TwoResetsForOnePush(p: Pending, e: string) returns (steps: seq<Step>)
    requires FromSidecar(p)
    ensures IsRun(INITIAL, steps)
    ensures var s := After(INITIAL, steps);
      At(s.pushes, p.taskId) == 1 && At(s.resets, p.taskId) == 2 && At(s.repeats, p.taskId) == 1 && PushedNow(s.entries, p.taskId) == 0
  {
    steps := PushedOnce(p, e);
    var s := After(INITIAL, steps);
    ReachableInv(steps);
    TwoCrashesResetTwice(s, true, true, p.taskId);
    Extend(INITIAL, steps, Restart(true));
    steps := steps + [Restart(true)];
    Extend(INITIAL, steps, Restart(true));
    steps := steps + [Restart(true)];
  }

  ghost predicate LosesNothing(s: State, s': State) {
    s'.repeats == s.repeats && s'.lost == s.lost
  }

  lemma ReadLosesNothing(s: State, p: Pending)
    ensures LosesNothing(s, AfterRead(s, p))
  {
    hide Resolve;
    if !Skips(s.entries, p.taskId) {
      var s' := s.(cursor := Gating(p, Resolve(s, p), p.taskId in s.entries));
      assert AfterRead(s, p) == s';
    }
  }

  lemma GateLosesNothing(s: State, allowed: bool)
    requires s.cursor.Gating?
    ensures LosesNothing(s, AfterGate(s, allowed))
  {
    hide AfterGate;
    if !allowed || s.cursor.known || s.cursor.p.taskId in s.entries { GateKeepsLedger(s, allowed); } else { GateRecords(s); }
  }

  lemma SendLosesNothing(s: State, ok: bool)
    requires s.cursor.Sending?
    ensures LosesNothing(s, AfterSend(s, ok))
  {
    hide Add;
  }

  lemma WriteLosesNothing(s: State, step: Step)
    requires Enabled(s, step) && (step.Mark? || step.Report? || step.Expire?)
    ensures LosesNothing(s, Next(s, step))
  {
    hide WriteAll, ReassignInFlight, PushMarked, ReportMarked, AddAll, Dying;
  }

  lemma StepLosesNothing(s: State, step: Step)
    requires Enabled(s, step) && !step.Restart?
    ensures LosesNothing(s, Next(s, step))
  {
    hide LosesNothing, AfterRead, AfterGate, AfterSend, AfterMark, AfterReport, AfterExpire, AfterRestart;
    match step
    case Publish(w, nodeEndpoint) => PublishLosesNothing(s, w, nodeEndpoint);
    case Read(p) => ReadLosesNothing(s, p);
    case Gate(allowed) => GateLosesNothing(s, allowed);
    case Send(ok) => SendLosesNothing(s, ok);
    case _ => WriteLosesNothing(s, step);
  }

  lemma PublishLosesNothing(s: State, w: string, nodeEndpoint: map<string, string>)
    ensures LosesNothing(s, s.(bindings := s.bindings[w := nodeEndpoint]))
  {
  }

  lemma {:induction false} RunLosesNothing(s: State, steps: seq<Step>)
    requires IsRun(s, steps) && forall i :: 0 <= i < |steps| ==> !steps[i].Restart?
    ensures After(s, steps).repeats == s.repeats && After(s, steps).lost == s.lost
    decreases |steps|
  {
    hide Next, Enabled;
    if steps != [] {
      StepLosesNothing(s, steps[0]);
      RunLosesNothing(Next(s, steps[0]), steps[1..]);
    }
  }

  /** Within one process, every push of a task is matched by a reassignment, by its present mark, or is about to be marked. */
  lemma PushAccountingWithoutRestart(steps: seq<Step>, t: string)
    requires IsRun(INITIAL, steps) && forall i :: 0 <= i < |steps| ==> !steps[i].Restart?
    ensures var s := After(INITIAL, steps);
      At(s.pushes, t) == At(s.resets, t) + PushedNow(s.entries, t) + Delivering(s.cursor, t)
  {
    RunLosesNothing(INITIAL, steps);
    PushAccounting(steps, t);
  }

  // ---------------------------------------------------------------- a task that waits behind a closed gate

  /** Unpushed at the endpoint, and not in the poll's hand beyond the gate. */
  ghost predicate Waiting(s: State, t: string, e: string) {
    && t in s.entries && !s.entries[t].pushed && s.entries[t].endpointId == e
    && ((s.cursor.Sending? || s.cursor.Delivered?) ==> s.cursor.p.taskId != t)
  }

  /** The step does not open the gate for the endpoint. */
  predicate GateClosed(s: State, step: Step, e: string) {
    step == Gate(true) && s.cursor.Gating? ==> s.cursor.endpointId != e
  }

  lemma GateKeepsWaiting(s: State, allowed: bool, t: string, e: string)
    requires Inv(s) && s.cursor.Gating? && Waiting(s, t, e) && GateClosed(s, Gate(allowed), e)
    ensures Waiting(AfterGate(s, allowed), t, e)
  {
    hide Inv, AfterGate, NewEntry;
    HandAtGate(s, t, e);
    GateCursorOnly(s, allowed);
    if !allowed || s.cursor.known || s.cursor.p.taskId in s.entries {
      GateKeepsLedger(s, allowed);
    } else {
      GateRecords(s);
      NewEntryIs(s.cursor.p, s.cursor.endpointId);
    }
  }

  lemma GateCursorOnly(s: State, allowed: bool)
    requires s.cursor.Gating?
    ensures var c := AfterGate(s, allowed).cursor; !c.Delivered? && (c.Sending? ==> allowed && c.p == s.cursor.p)
  {
    hide WriteAll, NewEntry, Recorded;
  }

  /** A known task stands at the gate of its own ledger endpoint. */
  lemma HandAtGate(s: State, t: string, e: string)
    requires Inv(s) && s.cursor.Gating? && Waiting(s, t, e)
    ensures s.cursor.p.taskId == t ==> s.cursor.endpointId == e
  {
    hide Keyed, Synced, Accounted, PushedWhereLedgerSays;
  }

  lemma ReadKeepsWaiting(s: State, p: Pending, t: string, e: string)
    requires Waiting(s, t, e) && s.cursor.Idle?
    ensures Waiting(AfterRead(s, p), t, e)
  {
    hide AfterRead;
    ReadKeepsLedger(s, p);
    ReadNeverSends(s, p);
  }

  lemma ReadNeverSends(s: State, p: Pending)
    requires s.cursor.Idle?
    ensures !AfterRead(s, p).cursor.Sending? && !AfterRead(s, p).cursor.Delivered?
  {
    hide Resolve;
    if !Skips(s.entries, p.taskId) {
      var s' := s.(cursor := Gating(p, Resolve(s, p), p.taskId in s.entries));
      assert AfterRead(s, p) == s';
    }
  }

  lemma SendKeepsWaiting(s: State, ok: bool, t: string, e: string)
    requires Waiting(s, t, e) && s.cursor.Sending?
    ensures Waiting(AfterSend(s, ok), t, e)
  {
    hide Add;
  }

  lemma MarkKeepsWaiting(s: State, t: string, e: string)
    requires Waiting(s, t, e) && s.cursor.Delivered?
    ensures Waiting(AfterMark(s), t, e)
  {
    hide WriteAll;
  }

  lemma ReportKeepsWaiting(s: State, reported: string, t: string, e: string)
    requires Waiting(s, t, e)
    ensures Waiting(AfterReport(s, reported), t, e)
  {
    hide WriteAll;
  }

  lemma PublishKeepsWaiting(s: State, w: string, nodeEndpoint: map<string, string>, t: string, e: string)
    requires Waiting(s, t, e)
    ensures Waiting(s.(bindings := s.bindings[w := nodeEndpoint]), t, e)
  {
  }

  lemma ExpiryKeepsWaiting(s: State, dead: string, candidates: seq<Scheduler.Endpoint>, clock: string -> int, t: string, e: string)
    requires Waiting(s, t, e)
    ensures Waiting(AfterExpire(s, dead, candidates, clock), t, e)
  {
    hide WriteAll, Alternative, AddAll;
  }

  lemma RestartKeepsWaiting(s: State, fromPostgres: bool, t: string, e: string)
    requires Inv(s) && Waiting(s, t, e)
    ensures Waiting(AfterRestart(s, fromPostgres), t, e)
  {
    hide Inv, Hydrated, AddAll, Add;
    RecoveryIsReset(s, fromPostgres);
  }

  lemma StepKeepsWaiting(s: State, step: Step, t: string, e: string)
    requires Inv(s) && Enabled(s, step) && Waiting(s, t, e) && GateClosed(s, step, e)
    ensures Waiting(Next(s, step), t, e)
  {
    hide Inv, Waiting, AfterRead, AfterGate, AfterSend, AfterMark, AfterReport, AfterExpire, AfterRestart;
    match step
    case Gate(allowed) => GateKeepsWaiting(s, allowed, t, e);
    case Expire(dead, candidates, clock) => ExpiryKeepsWaiting(s, dead, candidates, clock, t, e);
    case Restart(fromPostgres) => RestartKeepsWaiting(s, fromPostgres, t, e);
    case Read(p) => ReadKeepsWaiting(s, p, t, e);
    case Send(ok) => SendKeepsWaiting(s, ok, t, e);
    case Mark => MarkKeepsWaiting(s, t, e);
    case Report(reported) => ReportKeepsWaiting(s, reported, t, e);
    case Publish(w, nodeEndpoint) => PublishKeepsWaiting(s, w, nodeEndpoint, t, e);
  }

  ghost predicate GateStaysClosed(s: State, steps: seq<Step>, e: string)
    requires IsRun(s, steps)
    decreases |steps|
  {
    steps == [] || (GateClosed(s, steps[0], e) && GateStaysClosed(Next(s, steps[0]), steps[1..], e))
  }

  /**
   * An unpushed task whose endpoint's gate stays closed stays unpushed at that endpoint in every run: expiries move
   * pushed tasks only, so nothing rescues it when that endpoint dies.
   */
  lemma {:induction false} UnpushedTaskIsNotRescued(s: State, steps: seq<Step>, t: string, e: string)
    requires Inv(s) && IsRun(s, steps) && GateStaysClosed(s, steps, e) && Waiting(s, t, e)
    ensures Waiting(After(s, steps), t, e)
    decreases |steps|
  {
    hide Inv, Next, Enabled, Waiting, GateClosed;
    if steps != [] {
      StepKeeps(s, steps[0]);
      StepKeepsWaiting(s, steps[0], t, e);
      UnpushedTaskIsNotRescued(Next(s, steps[0]), steps[1..], t, e);
    }
  }

  /** A pushed task's endpoint dies, and then the endpoint it was moved to. */
  lemma ExpiredTwice(s: State, t: string, alive: string, third: string, clock: string -> int)
    requires t in s.entries && InFlight(s.entries[t]) && s.entries[t].taskId == t && alive != s.entries[t].endpointId
    ensures var model := Inspection.Model(s.entries[t].modelKey, 1, None);
      var s1 := AfterExpire(s, s.entries[t].endpointId, [Scheduler.Endpoint(alive, [model])], clock);
      var s2 := AfterExpire(s1, alive, [Scheduler.Endpoint(third, [model])], clock);
      && t in s1.entries && s1.entries[t] == Moved(s.entries[t], alive, clock(t))
      && t in s2.entries && s2.entries[t] == s1.entries[t] && s2.cursor == s.cursor
  {
    hide WriteAll, AddAll, Alternative;
    OnlyAlternative(s.entries[t].endpointId, alive, s.entries[t].modelKey);
  }

  /**
   * For every sidecar task there is a run in which it is moved to an endpoint that dies before the push, and stays
   * there unpushed although a third endpoint has room for it.
   */
  lemma StrandedBeforePush(p: Pending, e: string, alive: string, third: string, clock: string -> int) returns (steps: seq<Step>)
    requires FromSidecar(p) && alive != e && third != alive
    ensures IsRun(INITIAL, steps)
    ensures steps != [] && steps[|steps| - 1] == Expire(alive, [Scheduler.Endpoint(third, [Inspection.Model(p.modelKey, 1, None)])], clock)
    ensures HasRoom(Scheduler.Endpoint(third, [Inspection.Model(p.modelKey, 1, None)]), p.modelKey)
    ensures p.taskId in After(INITIAL, steps).moved && Waiting(After(INITIAL, steps), p.taskId, alive)
  {
    hide AfterExpire, HasRoom;
    steps := PushedOnce(p, e);
    var s := After(INITIAL, steps);
    var model := Inspection.Model(p.modelKey, 1, None);
    ExpiredTwice(s, p.taskId, alive, third, clock);
    RoomIn(third, p.modelKey);
    MovedIsMarked(s, p.taskId, e, alive, clock);
    var first, second := Expire(e, [Scheduler.Endpoint(alive, [model])], clock), Expire(alive, [Scheduler.Endpoint(third, [model])], clock);
    Extend(INITIAL, steps, first);
    steps := steps + [first];
    MovedOnlyGrows(After(INITIAL, steps), alive, [Scheduler.Endpoint(third, [model])], clock);
    Extend(INITIAL, steps, second);
    steps := steps + [second];
  }

  lemma RoomIn(e: string, modelKey: string)
    ensures HasRoom(Scheduler.Endpoint(e, [Inspection.Model(modelKey, 1, None)]), modelKey)
  {
    var endpoint := Scheduler.Endpoint(e, [Inspection.Model(modelKey, 1, None)]);
    assert endpoint.models[0].modelKey == modelKey;
  }

  lemma MovedIsMarked(s: State, t: string, e: string, alive: string, clock: string -> int)
    requires t in s.entries && InFlight(s.entries[t]) && s.entries[t].endpointId == e && alive != e
    ensures t in AfterExpire(s, e, [Scheduler.Endpoint(alive, [Inspection.Model(s.entries[t].modelKey, 1, None)])], clock).moved
  {
    hide WriteAll, AddAll, Alternative, ReassignInFlight;
    OnlyAlternative(e, alive, s.entries[t].modelKey);
  }

  lemma MovedOnlyGrows(s: State, dead: string, candidates: seq<Scheduler.Endpoint>, clock: string -> int)
    ensures s.moved <= AfterExpire(s, dead, candidates, clock).moved
  {
    hide WriteAll, AddAll, Dying, ReassignInFlight;
  }
}
