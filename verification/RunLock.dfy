/**
 * The sidecar run's calls as programs over its mutex (`workflow_run.cpp`), interleaved action by action. The mutex is
 * not recursive: locking it while holding it blocks the thread for good.
 */
module RunLock {
  import opened Js
  import opened Sidecar
  import Pump

  datatype Effect =
    | SetWaiting(nodeId: string, nowMs: int)
    | SetNode(nodeId: string, state: NodeState)
    | SetFailed(code: Option<string>)
    | SetExecuting
    | SetCompleted
    | StartFetch(nodeId: string)
    | EndFetch(nodeId: string)
    | Resolve(nodeId: string)

  /** What a thread still has to do. */
  datatype Program =
    | Done
    | Lock(rest: Program)
    | Unlock(rest: Program)
    | Do(effect: Effect, rest: Program)
    | IfFinalized(yes: Program, no: Program)
    | IfPlanned(nodeId: string, yes: Program, no: Program)
    | IfUpload(yes: Program, no: Program)

  // ---------------------------------------------------------------- the calls

  /** `fail`: it takes the mutex itself. */
  function FailCall(code: string, rest: Program): Program {
    Lock(IfFinalized(Unlock(rest), Do(SetFailed(Some(code)), Unlock(rest))))
  }

  predicate NoOutput(n: Notice) {
    n.errorCode.None? && n.outputUri.None?
  }

  /** What follows the first lock scope of `completeNode`. */
  function AfterCheck(n: Notice): Program {
    if n.errorCode.Some? then Lock(Do(SetNode(n.nodeId, NodeFailed), Do(SetFailed(n.errorCode), Do(Resolve(n.nodeId), Unlock(Done)))))
    else if n.outputUri.None? then Lock(FailCall("E_INFER_FAILED", Do(Resolve(n.nodeId), Unlock(Done))))
    else Do(StartFetch(n.nodeId), Done)
  }

  function CompleteNode(n: Notice): Program {
    Lock(IfPlanned(n.nodeId, IfFinalized(Unlock(Done), Unlock(AfterCheck(n))), Unlock(Done)))
  }

  function FetchThread(nodeId: string, result: FetchResult): Program {
    match result
    case FetchFailed => FailCall("E_STORAGE_TRANSFER_FAILED", Do(EndFetch(nodeId), Done))
    case NotScalar => FailCall("E_OUTPUT_VALIDATION_FAILED", Do(EndFetch(nodeId), Done))
    case Fetched => Lock(Do(SetExecuting, Unlock(Do(EndFetch(nodeId), Done))))
  }

  function NodeCallback(nodeId: string, ok: bool): Program {
    Lock(Do(SetNode(nodeId, if ok then NodeCompleted else NodeFailed),
            Unlock(if ok then Done else IfFinalized(Done, FailCall("E_INFER_FAILED", Done)))))
  }

  function TaskCallback(aggregate: Aggregate): Program {
    IfFinalized(Done,
      match aggregate
      case WrongBindings => FailCall("E_INTERNAL", Done)
      case MissingOutput => FailCall("E_INTERNAL", Done)
      case UploadFailed => IfUpload(FailCall("E_STORAGE_TRANSFER_FAILED", Done), Lock(Do(SetCompleted, Unlock(Done))))
      case Uploaded => Lock(Do(SetCompleted, Unlock(Done))))
  }

  /** The program of each kind of event. */
  function ProgramOf(call: RunStep): Program {
    match call
    case OnWaiting(nodeId, nowMs) => IfPlanned(nodeId, Lock(Do(SetWaiting(nodeId, nowMs), Unlock(Done))), Done)
    case OnNotice(n) => CompleteNode(n)
    case OnFetch(nodeId, result) => FetchThread(nodeId, result)
    case OnComplete(aggregate) => TaskCallback(aggregate)
    case OnNode(nodeId, ok) => NodeCallback(nodeId, ok)
  }

  // ---------------------------------------------------------------- effects

  function Perform(r: Run, e: Effect): Run {
    match e
    case SetWaiting(nodeId, nowMs) =>
      if nodeId !in r.plans then r
      else r.(status := if r.status == Starting then WaitingRemote else r.status,
              nodes := r.nodes[nodeId := Running], pending := r.pending[nodeId := Dispatch(r, nodeId, nowMs)])
    case SetNode(nodeId, state) => r.(nodes := r.nodes[nodeId := state])
    case SetFailed(code) => r.(errorCode := code, status := Failed, finalized := true)
    case SetExecuting => if r.status == WaitingRemote then r.(status := Executing) else r
    case SetCompleted => r.(status := Completed, finalized := true, finalOutput := if r.finalUpload.Some? then r.finalUpload else r.finalOutput)
    case StartFetch(nodeId) => r.(fetching := Pump.Add(r.fetching, nodeId))
    case EndFetch(nodeId) => r.(fetching := Subtract(r.fetching, nodeId), resolved := Pump.Add(r.resolved, nodeId))
    case Resolve(nodeId) => r.(resolved := Pump.Add(r.resolved, nodeId))
  }

  /** Effects on the fields that the mutex guards. */
  predicate Guarded(e: Effect) {
    !e.StartFetch? && !e.EndFetch? && !e.Resolve?
  }

  // ---------------------------------------------------------------- one call alone

  /** The run after one call alone, and whether the call blocked on the mutex that it holds. */
  function Solo(r: Run, held: bool, p: Program): (Run, bool)
    decreases p
  {
    match p
    case Done => (r, false)
    case Lock(rest) => if held then (r, true) else Solo(r, true, rest)
    case Unlock(rest) => Solo(r, false, rest)
    case Do(e, rest) => Solo(Perform(r, e), held, rest)
    case IfFinalized(yes, no) => Solo(r, held, if r.finalized then yes else no)
    case IfPlanned(nodeId, yes, no) => Solo(r, held, if nodeId in r.plans then yes else no)
    case IfUpload(yes, no) => Solo(r, held, if r.finalUpload.Some? then yes else no)
  }

  /** An unlocked scope that ends the call. */
  lemma SoloLast(r: Run)
    ensures Solo(r, false, Done) == (r, false) && Solo(r, true, Unlock(Done)) == (r, false)
  {
  }

  lemma SoloDo(r: Run, held: bool, e: Effect, rest: Program)
    ensures Solo(r, held, Do(e, rest)) == Solo(Perform(r, e), held, rest)
  {
  }

  lemma SoloFail(r: Run, code: string, rest: Program)
    ensures Solo(r, false, FailCall(code, rest)) == Solo(Fail(r, code), false, rest)
  {
    var body := Do(SetFailed(Some(code)), Unlock(rest));
    var r' := Perform(r, SetFailed(Some(code)));
    SoloDo(r, true, SetFailed(Some(code)), Unlock(rest));
    assert Solo(r', true, Unlock(rest)) == Solo(r', false, rest);
    assert Solo(r, true, Unlock(rest)) == Solo(r, false, rest);
    assert Solo(r, true, IfFinalized(Unlock(rest), body)) == if r.finalized then Solo(r, false, rest) else Solo(r', false, rest);
  }

  lemma SoloNotice(r: Run, n: Notice)
    requires !r.stuck
    ensures var (after, blocked) := Solo(r, false, CompleteNode(n)); after.(stuck := blocked) == Notified(r, n)
  {
    hide Pump.Add, FailCall, AfterCheck;
    SoloLast(r);
    var check := IfFinalized(Unlock(Done), Unlock(AfterCheck(n)));
    assert Solo(r, true, IfPlanned(n.nodeId, check, Unlock(Done))) == if n.nodeId in r.plans then Solo(r, true, check) else (r, false);
    assert Solo(r, true, Unlock(AfterCheck(n))) == Solo(r, false, AfterCheck(n));
    assert Solo(r, true, check) == if r.finalized then (r, false) else Solo(r, false, AfterCheck(n));
    if n.nodeId in r.plans && !r.finalized {
      SoloAfterCheck(r, n);
    }
  }

  /** Alone, a notice blocks on its own mutex exactly when it names a remote node of an unfinished run and brings neither error nor output. */
  lemma NoticeBlocksExactly(r: Run, n: Notice)
    requires !r.stuck
    ensures Solo(r, false, CompleteNode(n)).1 <==> n.nodeId in r.plans && !r.finalized && NoOutput(n)
  {
    hide Solo, CompleteNode, Pump.Add;
    SoloNotice(r, n);
  }

  lemma SoloAfterCheck(r: Run, n: Notice)
    requires !r.stuck && n.nodeId in r.plans && !r.finalized
    ensures var (after, blocked) := Solo(r, false, AfterCheck(n)); after.(stuck := blocked) == Notified(r, n)
  {
    hide Pump.Add;
    if n.errorCode.Some? {
      var r1 := Perform(r, SetNode(n.nodeId, NodeFailed));
      var r2 := Perform(r1, SetFailed(n.errorCode));
      var r3 := Perform(r2, Resolve(n.nodeId));
      var p3 := Do(Resolve(n.nodeId), Unlock(Done));
      var p2 := Do(SetFailed(n.errorCode), p3);
      SoloLast(r3);
      SoloDo(r2, true, Resolve(n.nodeId), Unlock(Done));
      SoloDo(r1, true, SetFailed(n.errorCode), p3);
      SoloDo(r, true, SetNode(n.nodeId, NodeFailed), p2);
    } else if n.outputUri.None? {
      assert Solo(r, true, FailCall("E_INFER_FAILED", Do(Resolve(n.nodeId), Unlock(Done)))) == (r, true);
    } else {
      SoloLast(Perform(r, StartFetch(n.nodeId)));
    }
  }

  lemma SoloFetch(r: Run, nodeId: string, result: FetchResult)
    requires !r.stuck
    ensures Solo(r, false, FetchThread(nodeId, result)) == (FetchEnds(r, nodeId, result), false)
  {
    hide Pump.Add, Subtract, FailCall;
    var end := Do(EndFetch(nodeId), Done);
    match result
    case FetchFailed => SoloFail(r, "E_STORAGE_TRANSFER_FAILED", end);
    case NotScalar => SoloFail(r, "E_OUTPUT_VALIDATION_FAILED", end);
    case Fetched =>
      var r' := Perform(r, SetExecuting);
      assert Solo(r', true, Unlock(end)) == Solo(r', false, end) == Solo(Perform(r', EndFetch(nodeId)), false, Done);
      assert Solo(r, true, Do(SetExecuting, Unlock(end))) == Solo(r', true, Unlock(end));
  }

  lemma SoloComplete(r: Run, aggregate: Aggregate)
    requires !r.stuck
    ensures Solo(r, false, TaskCallback(aggregate)) == (TaskComplete(r, aggregate), false)
  {
    hide FailCall, Fail;
    SoloLast(r);
    if !r.finalized {
      SoloFail(r, "E_INTERNAL", Done);
      SoloFail(r, "E_STORAGE_TRANSFER_FAILED", Done);
      SoloLast(Fail(r, "E_INTERNAL"));
      SoloLast(Fail(r, "E_STORAGE_TRANSFER_FAILED"));
      var complete := Do(SetCompleted, Unlock(Done));
      SoloDo(r, true, SetCompleted, Unlock(Done));
      SoloLast(Perform(r, SetCompleted));
      assert Solo(r, false, Lock(complete)) == (Perform(r, SetCompleted), false);
      var body := TaskCallback(aggregate).no;
      assert Solo(r, false, body) == (TaskComplete(r, aggregate), false);
    }
  }

  lemma SoloNode(r: Run, nodeId: string, ok: bool)
    requires !r.stuck
    ensures Solo(r, false, NodeCallback(nodeId, ok)) == (NodeDone(r, nodeId, ok), false)
  {
    hide FailCall;
    var rest := if ok then Done else IfFinalized(Done, FailCall("E_INFER_FAILED", Done));
    var state := if ok then NodeCompleted else NodeFailed;
    var r' := Perform(r, SetNode(nodeId, state));
    assert Solo(r, true, Do(SetNode(nodeId, state), Unlock(rest))) == Solo(r', true, Unlock(rest)) == Solo(r', false, rest);
    SoloFail(r', "E_INFER_FAILED", Done);
  }

  /**
   * Each atomic event of the run is its program executed alone, and the run gets stuck exactly when that program
   * blocks on its own mutex.
   */
  lemma SoloIsTheEvent(r: Run, call: RunStep)
    requires !r.stuck && (call.OnFetch? ==> Pump.At(r.fetching, call.nodeId) > 0)
    ensures var (after, blocked) := Solo(r, false, ProgramOf(call)); after.(stuck := blocked) == Advance(r, call)
  {
    hide Notified, FetchEnds, TaskComplete, NodeDone, CompleteNode, FetchThread, TaskCallback, NodeCallback, Dispatch;
    match call
    case OnWaiting(nodeId, nowMs) =>
      if nodeId in r.plans {
        var r' := Perform(r, SetWaiting(nodeId, nowMs));
        SoloDo(r, true, SetWaiting(nodeId, nowMs), Unlock(Done));
        SoloLast(r');
        assert Solo(r, false, Lock(Do(SetWaiting(nodeId, nowMs), Unlock(Done)))) == (r', false);
        assert r' == RemoteWaiting(r, nodeId, nowMs);
      } else {
        SoloLast(r);
      }
    case OnNotice(n) => SoloNotice(r, n);
    case OnFetch(nodeId, result) => SoloFetch(r, nodeId, result); FetchStays(r, nodeId, result);
    case OnComplete(aggregate) => SoloComplete(r, aggregate); CompleteStays(r, aggregate);
    case OnNode(nodeId, ok) => SoloNode(r, nodeId, ok); NodeStays(r, nodeId, ok);
  }

  lemma FetchStays(r: Run, nodeId: string, result: FetchResult)
    ensures FetchEnds(r, nodeId, result).stuck == r.stuck
  {
    hide Pump.Add, Subtract;
  }

  lemma CompleteStays(r: Run, aggregate: Aggregate)
    ensures TaskComplete(r, aggregate).stuck == r.stuck
  {
    hide Fail;
    if !r.stuck && !r.finalized {
      FailStays(r, "E_INTERNAL");
      FailStays(r, "E_STORAGE_TRANSFER_FAILED");
    }
  }

  lemma FailStays(r: Run, code: string)
    ensures Fail(r, code).stuck == r.stuck
  {
  }

  lemma NodeStays(r: Run, nodeId: string, ok: bool)
    ensures NodeDone(r, nodeId, ok).stuck == r.stuck
  {
  }

  // ---------------------------------------------------------------- all calls interleaved

  datatype Thread = Thread(call: RunStep, program: Program)

  datatype State = State(run: Run, owner: Option<nat>, threads: seq<Thread>)

  datatype Move = Spawn(call: RunStep) | Act(thread: nat)

  predicate Holds(s: State, i: nat) {
    s.owner == Some(i)
  }

  predicate Enabled(s: State, m: Move) {
    m.Spawn? || (m.thread < |s.threads| && !s.threads[m.thread].program.Done? && (s.threads[m.thread].program.Lock? ==> s.owner.None?))
  }

  function Rest(r: Run, p: Program): Program {
    match p
    case Done => Done
    case Lock(rest) => rest
    case Unlock(rest) => rest
    case Do(_, rest) => rest
    case IfFinalized(yes, no) => if r.finalized then yes else no
    case IfPlanned(nodeId, yes, no) => if nodeId in r.plans then yes else no
    case IfUpload(yes, no) => if r.finalUpload.Some? then yes else no
  }

  function Next(s: State, m: Move): State
    requires Enabled(s, m)
  {
    match m
    case Spawn(call) => s.(threads := s.threads + [Thread(call, ProgramOf(call))])
    case Act(i) =>
      var p := s.threads[i].program;
      State(if p.Do? then Perform(s.run, p.effect) else s.run,
            if p.Lock? then Some(i) else if p.Unlock? then None else s.owner,
            s.threads[i := Thread(s.threads[i].call, Rest(s.run, p))])
  }

  ghost predicate IsRun(s: State, moves: seq<Move>)
    decreases |moves|
  {
    moves == [] || (Enabled(s, moves[0]) && IsRun(Next(s, moves[0]), moves[1..]))
  }

  function After(s: State, moves: seq<Move>): State
    requires IsRun(s, moves)
    decreases |moves|
  {
    if moves == [] then s else After(Next(s, moves[0]), moves[1..])
  }

  // ---------------------------------------------------------------- discipline

  /** Guarded effects and unlocking happen only while the mutex is held, and it is not held at the end. */
  predicate Disciplined(p: Program, held: bool) {
    match p
    case Done => !held
    case Lock(rest) => held || Disciplined(rest, true)
    case Unlock(rest) => held && Disciplined(rest, false)
    case Do(e, rest) => (Guarded(e) ==> held) && Disciplined(rest, held)
    case IfFinalized(yes, no) => Disciplined(yes, held) && Disciplined(no, held)
    case IfPlanned(_, yes, no) => Disciplined(yes, held) && Disciplined(no, held)
    case IfUpload(yes, no) => Disciplined(yes, held) && Disciplined(no, held)
  }

  /** The mutex is never locked while held. */
  predicate NeverRelocks(p: Program, held: bool) {
    match p
    case Done => true
    case Lock(rest) => !held && NeverRelocks(rest, true)
    case Unlock(rest) => NeverRelocks(rest, false)
    case Do(_, rest) => NeverRelocks(rest, held)
    case IfFinalized(yes, no) => NeverRelocks(yes, held) && NeverRelocks(no, held)
    case IfPlanned(_, yes, no) => NeverRelocks(yes, held) && NeverRelocks(no, held)
    case IfUpload(yes, no) => NeverRelocks(yes, held) && NeverRelocks(no, held)
  }

  predicate LacksOutput(call: RunStep) {
    call.OnNotice? && NoOutput(call.notice)
  }

  lemma FailIsDisciplined(code: string, rest: Program)
    requires Disciplined(rest, false) && NeverRelocks(rest, false)
    ensures Disciplined(FailCall(code, rest), false) && NeverRelocks(FailCall(code, rest), false)
  {
    assert Disciplined(Unlock(rest), true) && NeverRelocks(Unlock(rest), true);
    assert Disciplined(Do(SetFailed(Some(code)), Unlock(rest)), true) && NeverRelocks(Do(SetFailed(Some(code)), Unlock(rest)), true);
  }

  lemma NoticeIsDisciplined(n: Notice)
    ensures Disciplined(CompleteNode(n), false) && (NeverRelocks(CompleteNode(n), false) <==> !NoOutput(n))
  {
    var rest := AfterCheck(n);
    if n.errorCode.Some? {
      var p3 := Do(Resolve(n.nodeId), Unlock(Done));
      assert Disciplined(p3, true) && NeverRelocks(p3, true);
      var p2 := Do(SetFailed(n.errorCode), p3);
      assert Disciplined(p2, true) && NeverRelocks(p2, true);
    }
    assert Disciplined(rest, false) && (NeverRelocks(rest, false) <==> !NoOutput(n));
    assert Disciplined(Unlock(rest), true) && NeverRelocks(Unlock(rest), true) == NeverRelocks(rest, false);
    var check := IfFinalized(Unlock(Done), Unlock(rest));
    assert NeverRelocks(Unlock(Done), true) && Disciplined(Unlock(Done), true);
    assert Disciplined(check, true) && NeverRelocks(check, true) == NeverRelocks(rest, false);
  }

  lemma FetchIsDisciplined(nodeId: string, result: FetchResult)
    ensures Disciplined(FetchThread(nodeId, result), false) && NeverRelocks(FetchThread(nodeId, result), false)
  {
    hide FailCall;
    var end := Do(EndFetch(nodeId), Done);
    FailIsDisciplined("E_STORAGE_TRANSFER_FAILED", end);
    FailIsDisciplined("E_OUTPUT_VALIDATION_FAILED", end);
    assert Disciplined(Unlock(end), true) && NeverRelocks(end, false) && NeverRelocks(Unlock(end), true);
    assert Disciplined(Do(SetExecuting, Unlock(end)), true) && NeverRelocks(Do(SetExecuting, Unlock(end)), true);
  }

  lemma NodeIsDisciplined(nodeId: string, ok: bool)
    ensures Disciplined(NodeCallback(nodeId, ok), false) && NeverRelocks(NodeCallback(nodeId, ok), false)
  {
    hide FailCall;
    FailIsDisciplined("E_INFER_FAILED", Done);
    var rest := if ok then Done else IfFinalized(Done, FailCall("E_INFER_FAILED", Done));
    assert Disciplined(rest, false) && NeverRelocks(rest, false);
    assert Disciplined(Unlock(rest), true) && NeverRelocks(Unlock(rest), true);
  }

  lemma TaskIsDisciplined(aggregate: Aggregate)
    ensures Disciplined(TaskCallback(aggregate), false) && NeverRelocks(TaskCallback(aggregate), false)
  {
    hide FailCall;
    FailIsDisciplined("E_INTERNAL", Done);
    FailIsDisciplined("E_STORAGE_TRANSFER_FAILED", Done);
    assert Disciplined(Do(SetCompleted, Unlock(Done)), true) && NeverRelocks(Do(SetCompleted, Unlock(Done)), true);
  }

  /** Every program keeps the discipline; the only one that locks while holding is a notice with neither error nor output. */
  lemma CallIsDisciplined(call: RunStep)
    ensures Disciplined(ProgramOf(call), false)
    ensures NeverRelocks(ProgramOf(call), false) <==> !LacksOutput(call)
  {
    hide CompleteNode, FetchThread, NodeCallback, TaskCallback;
    match call
    case OnWaiting(nodeId, nowMs) =>
      assert Disciplined(Do(SetWaiting(nodeId, nowMs), Unlock(Done)), true) && NeverRelocks(Do(SetWaiting(nodeId, nowMs), Unlock(Done)), true);
    case OnNotice(n) => NoticeIsDisciplined(n);
    case OnFetch(nodeId, result) => FetchIsDisciplined(nodeId, result);
    case OnComplete(aggregate) => TaskIsDisciplined(aggregate);
    case OnNode(nodeId, ok) => NodeIsDisciplined(nodeId, ok);
  }

  ghost predicate Inv(s: State) {
    && (s.owner.Some? ==> s.owner.value < |s.threads|)
    && forall i :: 0 <= i < |s.threads| ==>
         && Disciplined(s.threads[i].program, Holds(s, i))
         && (NeverRelocks(s.threads[i].program, Holds(s, i)) || LacksOutput(s.threads[i].call))
  }

  lemma StepKeeps(s: State, m: Move)
    requires Inv(s) && Enabled(s, m)
    ensures Inv(Next(s, m))
  {
    hide ProgramOf, Perform, LacksOutput;
    if m.Spawn? { CallIsDisciplined(m.call); }
  }

  lemma {:induction false} InvOverRuns(s: State, moves: seq<Move>)
    requires Inv(s) && IsRun(s, moves)
    ensures Inv(After(s, moves))
    decreases |moves|
  {
    hide Inv, Next, Enabled;
    if moves != [] {
      StepKeeps(s, moves[0]);
      InvOverRuns(Next(s, moves[0]), moves[1..]);
    }
  }

  // ---------------------------------------------------------------- deadlock

  /** The thread is about to lock the mutex that it holds. */
  predicate Deadlocked(s: State, i: nat) {
    i < |s.threads| && Holds(s, i) && s.threads[i].program.Lock?
  }

  /** The guarded fields agree. */
  predicate SameGuarded(r: Run, r': Run) {
    && r'.status == r.status && r'.finalized == r.finalized && r'.errorCode == r.errorCode
    && r'.finalOutput == r.finalOutput && r'.nodes == r.nodes && r'.pending == r.pending
  }

  /** Nothing moves any more: the deadlock, the guarded fields, and every thread that waits for the mutex. */
  ghost predicate Frozen(s: State, s': State, i: nat) {
    && Deadlocked(s', i) && SameGuarded(s.run, s'.run) && |s.threads| <= |s'.threads|
    && forall j :: 0 <= j < |s.threads| && s.threads[j].program.Lock? ==> s'.threads[j] == s.threads[j]
  }

  lemma StepFreezes(s: State, m: Move, i: nat)
    requires Inv(s) && Enabled(s, m) && Deadlocked(s, i)
    ensures Frozen(s, Next(s, m), i)
  {
    hide ProgramOf, NeverRelocks;
    if m.Act? {
      assert m.thread != i;
      var p := s.threads[m.thread].program;
      assert Disciplined(p, false);
    }
  }

  /** A deadlock is for ever, and takes every thread with it that still needs the mutex. */
  lemma {:induction false} DeadlockIsForever(s: State, moves: seq<Move>, i: nat)
    requires Inv(s) && IsRun(s, moves) && Deadlocked(s, i)
    ensures Frozen(s, After(s, moves), i)
    decreases |moves|
  {
    hide Inv, Next, Enabled, Deadlocked, SameGuarded;
    if moves == [] {
      FrozenNow(s, i);
    } else {
      StepKeeps(s, moves[0]);
      StepFreezes(s, moves[0], i);
      var s' := Next(s, moves[0]);
      DeadlockIsForever(s', moves[1..], i);
      FrozenLonger(s, s', After(s', moves[1..]), i);
    }
  }

  lemma FrozenNow(s: State, i: nat)
    requires Deadlocked(s, i)
    ensures Frozen(s, s, i)
  {
  }

  lemma FrozenLonger(s: State, s': State, s'': State, i: nat)
    requires Frozen(s, s', i) && Frozen(s', s'', i)
    ensures Frozen(s, s'', i)
  {
  }

  predicate Finished(s: State) {
    forall i :: 0 <= i < |s.threads| ==> s.threads[i].program.Done?
  }

  ghost predicate SomeoneCanAct(s: State) {
    exists i: nat :: Enabled(s, Act(i))
  }

  lemma OnlyMissingOutputDeadlocks(s: State)
    requires Inv(s)
    ensures forall i: nat :: Deadlocked(s, i) ==> LacksOutput(s.threads[i].call)
    ensures Finished(s) || SomeoneCanAct(s) || exists i: nat :: Deadlocked(s, i)
  {
    hide LacksOutput;
    if s.owner.Some? {
      if !Deadlocked(s, s.owner.value) {
        assert Disciplined(s.threads[s.owner.value].program, true);
        assert Enabled(s, Act(s.owner.value));
      }
    } else if !Finished(s) {
      var i :| 0 <= i < |s.threads| && !s.threads[i].program.Done?;
      assert Enabled(s, Act(i));
    }
  }

  /**
   * Under every interleaving of any calls, unfinished calls can always go on, unless a notice with neither error nor
   * output has deadlocked; no other call ever does.
   */
  lemma ProgressUnlessMissingOutput(run: Run, moves: seq<Move>)
    requires IsRun(State(run, None, []), moves)
    ensures var s := After(State(run, None, []), moves);
      && (forall i: nat :: Deadlocked(s, i) ==> LacksOutput(s.threads[i].call))
      && (Finished(s) || SomeoneCanAct(s) || exists i: nat :: Deadlocked(s, i))
  {
    InvOverRuns(State(run, None, []), moves);
    OnlyMissingOutputDeadlocks(After(State(run, None, []), moves));
  }

  /** A notice with neither error nor output, once past its check, deadlocks with the very lock that it takes next. */
  lemma MissingOutputDeadlocks(s: State, i: nat, n: Notice)
    requires i < |s.threads| && NoOutput(n) && s.threads[i].program == AfterCheck(n) && s.owner.None?
    ensures Enabled(s, Act(i)) && Deadlocked(Next(s, Act(i)), i)
  {
  }
}
