/**
 * The run's verdict when its calls interleave (`workflow_run.cpp`): two calls write it without checking again whether
 * the run has been finalized in the meantime.
 */
module RunVerdict {
  import opened Js
  import opened Sidecar
  import opened RunLock
  import Pump

  /** Status, error code and output are as before. */
  predicate SameVerdict(r: Run, r': Run) {
    r'.status == r.status && r'.errorCode == r.errorCode && r'.finalOutput == r.finalOutput
  }

  /** Finalized, with the status of a run that has ended. */
  predicate Finalized(r: Run) {
    r.finalized && (r.status == Completed || r.status == Failed)
  }

  lemma {:induction false} Append(s: State, moves: seq<Move>, more: seq<Move>)
    requires IsRun(s, moves) && IsRun(After(s, moves), more)
    ensures IsRun(s, moves + more) && After(s, moves + more) == After(After(s, moves), more)
    decreases |moves|
  {
    hide Enabled, Next;
    if moves == [] {
      assert moves + more == more;
    } else {
      Append(Next(s, moves[0]), moves[1..], more);
      assert (moves + more)[1..] == moves[1..] + more;
    }
  }

  lemma OneMove(s: State, m: Move)
    requires Enabled(s, m)
    ensures IsRun(s, [m]) && After(s, [m]) == Next(s, m)
  {
    hide Enabled, Next;
    assert [m][1..] == [];
  }

  // ---------------------------------------------------------------- what never falls back

  lemma PerformRaises(r: Run, e: Effect)
    ensures Rank(r.status) <= Rank(Perform(r, e).status) && (r.finalized ==> Perform(r, e).finalized)
    ensures (r.finalized ==> Finalized(r)) ==> Perform(r, e).finalized ==> Finalized(Perform(r, e))
  {
    hide Pump.Add, Subtract, Dispatch;
  }

  /** Under every interleaving the status never falls, and a finalized run stays finalized. */
  lemma {:induction false} StatusNeverFalls(s: State, moves: seq<Move>)
    requires IsRun(s, moves)
    ensures Rank(s.run.status) <= Rank(After(s, moves).run.status) && (s.run.finalized ==> After(s, moves).run.finalized)
    ensures (s.run.finalized ==> Finalized(s.run)) ==> After(s, moves).run.finalized ==> Finalized(After(s, moves).run)
    decreases |moves|
  {
    hide Perform, ProgramOf, Rank, Finalized;
    if moves != [] {
      if moves[0].Act? && s.threads[moves[0].thread].program.Do? { PerformRaises(s.run, s.threads[moves[0].thread].program.effect); }
      StatusNeverFalls(Next(s, moves[0]), moves[1..]);
    }
  }

  // ---------------------------------------------------------------- pending writes

  /** On the path that the program takes in a finalized run, it changes the verdict, before it blocks on its own mutex. */
  predicate Overwrites(r: Run, p: Program, held: bool) {
    match p
    case Done => false
    case Lock(rest) => !held && Overwrites(r, rest, true)
    case Unlock(rest) => Overwrites(r, rest, false)
    case Do(e, rest) => !SameVerdict(r, Perform(r, e)) || Overwrites(r, rest, held)
    case IfFinalized(yes, _) => Overwrites(r, yes, held)
    case IfPlanned(nodeId, yes, no) => Overwrites(r, if nodeId in r.plans then yes else no, held)
    case IfUpload(yes, no) => Overwrites(r, if r.finalUpload.Some? then yes else no, held)
  }

  /** Whether an effect changes the verdict depends on the verdict, on the upload target and on nothing else. */
  predicate SameOutlook(r: Run, r': Run) {
    SameVerdict(r, r') && r'.finalized == r.finalized && r'.plans == r.plans && r'.finalUpload == r.finalUpload
  }

  /** What an effect does to the verdict of a finalized run. */
  predicate KeepsVerdict(r: Run, e: Effect) {
    match e
    case SetFailed(code) => r.status == Failed && r.errorCode == code
    case SetCompleted => r.status == Completed && (r.finalUpload.Some? ==> r.finalOutput == r.finalUpload)
    case _ => true
  }

  lemma PerformVerdict(r: Run, e: Effect)
    requires Finalized(r)
    ensures SameVerdict(r, Perform(r, e)) <==> KeepsVerdict(r, e)
  {
    hide Pump.Add, Subtract, Dispatch;
  }

  lemma PerformFrame(r: Run, e: Effect)
    ensures Perform(r, e).plans == r.plans && Perform(r, e).finalUpload == r.finalUpload
    ensures r.finalized ==> Perform(r, e).finalized
  {
    hide Pump.Add, Subtract, Dispatch;
  }

  lemma PerformOutlook(r: Run, r': Run, e: Effect)
    requires SameOutlook(r, r') && Finalized(r)
    ensures SameVerdict(r, Perform(r, e)) <==> SameVerdict(r', Perform(r', e))
    ensures SameVerdict(r, Perform(r, e)) ==> SameOutlook(r, Perform(r, e))
  {
    hide Perform;
    PerformVerdict(r, e);
    PerformVerdict(r', e);
    PerformFrame(r, e);
  }

  lemma {:induction false} OverwritesOutlook(r: Run, r': Run, p: Program, held: bool)
    requires SameOutlook(r, r') && Finalized(r)
    ensures Overwrites(r, p, held) <==> Overwrites(r', p, held)
    decreases p
  {
    hide SameOutlook, SameVerdict, Perform;
    SameParts(r, r');
    match p
    case Done =>
    case Lock(rest) => OverwritesOutlook(r, r', rest, true);
    case Unlock(rest) => OverwritesOutlook(r, r', rest, false);
    case Do(e, rest) => PerformOutlook(r, r', e); OverwritesOutlook(r, r', rest, held);
    case IfFinalized(yes, _) => OverwritesOutlook(r, r', yes, held);
    case IfPlanned(nodeId, yes, no) => OverwritesOutlook(r, r', if nodeId in r.plans then yes else no, held);
    case IfUpload(yes, no) => OverwritesOutlook(r, r', if r.finalUpload.Some? then yes else no, held);
  }

  lemma SameParts(r: Run, r': Run)
    requires SameOutlook(r, r')
    ensures r'.plans == r.plans && r'.finalUpload == r.finalUpload && r'.finalized == r.finalized && r'.status == r.status
  {
  }

  lemma WaitingOverwritesNothing(r: Run, nodeId: string, nowMs: int)
    requires Finalized(r)
    ensures !Overwrites(r, Lock(Do(SetWaiting(nodeId, nowMs), Unlock(Done))), false)
  {
    hide Perform;
    PerformVerdict(r, SetWaiting(nodeId, nowMs));
    assert !Overwrites(r, Unlock(Done), true);
    assert !Overwrites(r, Do(SetWaiting(nodeId, nowMs), Unlock(Done)), true);
  }

  lemma NoticeOverwritesNothing(r: Run, n: Notice)
    requires Finalized(r)
    ensures !Overwrites(r, CompleteNode(n), false)
  {
    hide AfterCheck, Perform;
    assert !Overwrites(r, Unlock(Done), true);
    assert !Overwrites(r, IfFinalized(Unlock(Done), Unlock(AfterCheck(n))), true);
  }

  lemma FetchOverwritesNothing(r: Run, nodeId: string, result: FetchResult)
    requires Finalized(r)
    ensures !Overwrites(r, FetchThread(nodeId, result), false)
  {
    hide Perform, FailCall;
    var end := Do(EndFetch(nodeId), Done);
    PerformVerdict(r, EndFetch(nodeId));
    PerformVerdict(r, SetExecuting);
    assert !Overwrites(r, end, false);
    FailOverwritesNothing(r, "E_STORAGE_TRANSFER_FAILED", end);
    FailOverwritesNothing(r, "E_OUTPUT_VALIDATION_FAILED", end);
    assert !Overwrites(r, Unlock(end), true);
    assert !Overwrites(r, Do(SetExecuting, Unlock(end)), true);
  }

  lemma NodeOverwritesNothing(r: Run, nodeId: string, ok: bool)
    requires Finalized(r)
    ensures !Overwrites(r, NodeCallback(nodeId, ok), false)
  {
    hide Perform, FailCall;
    FailOverwritesNothing(r, "E_INFER_FAILED", Done);
    var state := if ok then NodeCompleted else NodeFailed;
    PerformVerdict(r, SetNode(nodeId, state));
    var rest := if ok then Done else IfFinalized(Done, FailCall("E_INFER_FAILED", Done));
    assert !Overwrites(r, rest, false);
    assert !Overwrites(r, Unlock(rest), true);
    assert !Overwrites(r, Do(SetNode(nodeId, state), Unlock(rest)), true);
  }

  /** A call that starts after the run was finalized overwrites nothing. */
  lemma CallsOverwriteNothing(r: Run, call: RunStep)
    requires Finalized(r)
    ensures !Overwrites(r, ProgramOf(call), false)
  {
    hide CompleteNode, FetchThread, NodeCallback, Perform;
    match call
    case OnWaiting(nodeId, nowMs) => WaitingOverwritesNothing(r, nodeId, nowMs);
    case OnNotice(n) => NoticeOverwritesNothing(r, n);
    case OnFetch(nodeId, result) => FetchOverwritesNothing(r, nodeId, result);
    case OnComplete(aggregate) =>
    case OnNode(nodeId, ok) => NodeOverwritesNothing(r, nodeId, ok);
  }

  lemma FailOverwritesNothing(r: Run, code: string, rest: Program)
    requires !Overwrites(r, rest, false)
    ensures !Overwrites(r, FailCall(code, rest), false)
  {
    assert !Overwrites(r, Unlock(rest), true);
  }

  predicate SomeOverwrites(s: State) {
    exists i: nat :: i < |s.threads| && Overwrites(s.run, s.threads[i].program, Holds(s, i))
  }

  lemma StepKeepsVerdict(s: State, m: Move)
    requires Inv(s) && Enabled(s, m) && Finalized(s.run) && !SomeOverwrites(s)
    ensures SameOutlook(s.run, Next(s, m).run) && !SomeOverwrites(Next(s, m))
  {
    hide ProgramOf, Perform, Overwrites, SameOutlook, NeverRelocks;
    var s' := Next(s, m);
    if m.Spawn? {
      CallsOverwriteNothing(s.run, m.call);
      SelfOutlook(s.run);
    } else {
      ActKeepsVerdict(s, m.thread);
      forall j: nat | j < |s'.threads| ensures !Overwrites(s'.run, s'.threads[j].program, Holds(s', j)) {
        if j != m.thread {
          OverwritesOutlook(s.run, s'.run, s.threads[j].program, Holds(s, j));
          HoldingOfOthers(s, m.thread, j);
        }
      }
    }
  }

  lemma SelfOutlook(r: Run)
    ensures SameOutlook(r, r)
  {
  }

  /** Another thread's move takes the mutex from nobody. */
  lemma HoldingOfOthers(s: State, i: nat, j: nat)
    requires Inv(s) && Enabled(s, Act(i)) && j < |s.threads| && j != i
    ensures Holds(Next(s, Act(i)), j) == Holds(s, j)
  {
    hide NeverRelocks, Perform;
    assert Disciplined(s.threads[i].program, Holds(s, i));
  }

  lemma ActKeepsVerdict(s: State, i: nat)
    requires Inv(s) && Enabled(s, Act(i)) && Finalized(s.run) && !Overwrites(s.run, s.threads[i].program, Holds(s, i))
    ensures var s' := Next(s, Act(i));
      SameOutlook(s.run, s'.run) && !Overwrites(s'.run, s'.threads[i].program, Holds(s', i))
  {
    hide Perform, NeverRelocks, SameOutlook;
    var p, s' := s.threads[i].program, Next(s, Act(i));
    assert Disciplined(p, Holds(s, i));
    SelfOutlook(s.run);
    if p.Do? {
      PerformOutlook(s.run, s.run, p.effect);
      OverwritesOutlook(s.run, s'.run, p.rest, Holds(s, i));
    }
  }

  lemma OutlookIsFinalized(r: Run, r': Run)
    requires SameOutlook(r, r') && Finalized(r)
    ensures Finalized(r')
  {
  }

  lemma OutlookIsTransitive(r: Run, r': Run, r'': Run)
    requires SameOutlook(r, r') && SameOutlook(r', r'')
    ensures SameOutlook(r, r'')
  {
  }

  lemma {:induction false} VerdictStays(s: State, moves: seq<Move>)
    requires Inv(s) && Finalized(s.run) && !SomeOverwrites(s) && IsRun(s, moves)
    ensures SameOutlook(s.run, After(s, moves).run)
    decreases |moves|
  {
    hide Inv, Next, Enabled, SameOutlook, SomeOverwrites, Finalized;
    if moves == [] {
      SelfOutlook(s.run);
    } else {
      var s' := Next(s, moves[0]);
      StepKeeps(s, moves[0]);
      StepKeepsVerdict(s, moves[0]);
      OutlookIsFinalized(s.run, s'.run);
      VerdictStays(s', moves[1..]);
      OutlookIsTransitive(s.run, s'.run, After(s', moves[1..]).run);
    }
  }

  // ---------------------------------------------------------------- the other direction

  /** With the mutex free or its own, a thread that overwrites can run on its own until it does. */
  lemma {:induction false} OverwriteHappens(s: State, i: nat) returns (moves: seq<Move>)
    requires Inv(s) && Finalized(s.run) && i < |s.threads| && (s.owner.None? || Holds(s, i))
    requires Overwrites(s.run, s.threads[i].program, Holds(s, i))
    ensures IsRun(s, moves) && !SameVerdict(s.run, After(s, moves).run)
    decreases s.threads[i].program
  {
    hide Inv, Perform, SameVerdict, SameOutlook;
    var p, s' := s.threads[i].program, Next(s, Act(i));
    OneMove(s, Act(i));
    if p.Do? && !SameVerdict(s.run, Perform(s.run, p.effect)) {
      moves := [Act(i)];
    } else {
      StepKeeps(s, Act(i));
      OverwriteIsAhead(s, i);
      moves := OverwriteHappens(s', i);
      VerdictBefore(s.run, s'.run, After(s', moves).run);
      Append(s, [Act(i)], moves);
      moves := [Act(i)] + moves;
    }
  }

  lemma VerdictBefore(r: Run, r': Run, r'': Run)
    requires SameOutlook(r, r') && !SameVerdict(r', r'')
    ensures !SameVerdict(r, r'')
  {
  }

  lemma OverwriteIsAhead(s: State, i: nat)
    requires Inv(s) && Finalized(s.run) && i < |s.threads| && (s.owner.None? || Holds(s, i))
    requires Overwrites(s.run, s.threads[i].program, Holds(s, i))
    requires s.threads[i].program.Do? ==> SameVerdict(s.run, Perform(s.run, s.threads[i].program.effect))
    ensures Enabled(s, Act(i))
    ensures var s' := Next(s, Act(i));
      && SameOutlook(s.run, s'.run) && Finalized(s'.run) && (s'.owner.None? || Holds(s', i))
      && i < |s'.threads| && s'.threads[i].program == Rest(s.run, s.threads[i].program)
      && Overwrites(s'.run, s'.threads[i].program, Holds(s', i))
  {
    hide Perform, NeverRelocks, SameOutlook;
    var p, s' := s.threads[i].program, Next(s, Act(i));
    assert Disciplined(p, Holds(s, i));
    SelfOutlook(s.run);
    if p.Do? {
      PerformOutlook(s.run, s.run, p.effect);
      OverwritesOutlook(s.run, s'.run, p.rest, Holds(s, i));
      OutlookIsFinalized(s.run, s'.run);
    }
  }

  /** No continuation changes the verdict. */
  ghost predicate VerdictIsFixed(s: State) {
    forall moves: seq<Move> :: IsRun(s, moves) ==> SameVerdict(s.run, After(s, moves).run)
  }

  /**
   * Once a run is finalized, and while the mutex is free, its verdict is fixed under every interleaving if and only if no
   * call under way has a write ahead that it makes without checking again.
   */
  lemma VerdictIsFixedExactly(s: State)
    requires Inv(s) && Finalized(s.run) && s.owner.None?
    ensures VerdictIsFixed(s) <==> !SomeOverwrites(s)
  {
    hide Inv, Overwrites, Finalized;
    if SomeOverwrites(s) {
      var i: nat :| i < |s.threads| && Overwrites(s.run, s.threads[i].program, Holds(s, i));
      var moves := OverwriteHappens(s, i);
      assert !VerdictIsFixed(s);
    } else {
      forall moves: seq<Move> | IsRun(s, moves) ensures SameVerdict(s.run, After(s, moves).run) {
        VerdictStays(s, moves);
      }
    }
  }

  /** In every state that the calls of a fresh run can reach. */
  lemma VerdictOverRuns(run: Run, moves: seq<Move>)
    requires !run.finalized && IsRun(State(run, None, []), moves)
    ensures var s := After(State(run, None, []), moves);
      s.run.finalized && s.owner.None? ==> (VerdictIsFixed(s) <==> !SomeOverwrites(s))
  {
    hide VerdictIsFixed, SomeOverwrites, Finalized;
    var start := State(run, None, []);
    InvOverRuns(start, moves);
    StatusNeverFalls(start, moves);
    var s := After(start, moves);
    if s.run.finalized && s.owner.None? { VerdictIsFixedExactly(s); }
  }

  // ---------------------------------------------------------------- a verdict that flips

  lemma Then(start: State, moves: seq<Move>, m: Move)
    requires IsRun(start, moves) && Enabled(After(start, moves), m)
    ensures IsRun(start, moves + [m]) && After(start, moves + [m]) == Next(After(start, moves), m)
  {
    hide Enabled, Next;
    OneMove(After(start, moves), m);
    Append(start, moves, [m]);
  }

  function Two(r: Run, owner: Option<nat>, a: Thread, b: Thread): State {
    State(r, owner, [a, b])
  }

  lemma ActFirst(r: Run, owner: Option<nat>, a: Thread, b: Thread)
    requires !a.program.Done? && (a.program.Lock? ==> owner.None?)
    ensures Enabled(Two(r, owner, a, b), Act(0))
    ensures Next(Two(r, owner, a, b), Act(0)) ==
      Two(if a.program.Do? then Perform(r, a.program.effect) else r,
          if a.program.Lock? then Some(0) else if a.program.Unlock? then None else owner,
          Thread(a.call, Rest(r, a.program)), b)
  {
    hide Perform;
  }

  lemma ActSecond(r: Run, owner: Option<nat>, a: Thread, b: Thread)
    requires !b.program.Done? && (b.program.Lock? ==> owner.None?)
    ensures Enabled(Two(r, owner, a, b), Act(1))
    ensures Next(Two(r, owner, a, b), Act(1)) ==
      Two(if b.program.Do? then Perform(r, b.program.effect) else r,
          if b.program.Lock? then Some(1) else if b.program.Unlock? then None else owner,
          a, Thread(b.call, Rest(r, b.program)))
  {
    hide Perform;
  }

  lemma BothSpawned(r: Run, a: RunStep, b: RunStep)
    ensures var start := State(r, None, []);
      IsRun(start, [Spawn(a), Spawn(b)]) && After(start, [Spawn(a), Spawn(b)]) == Two(r, None, Thread(a, ProgramOf(a)), Thread(b, ProgramOf(b)))
  {
    hide ProgramOf;
    var start := State(r, None, []);
    assert IsRun(start, []) && After(start, []) == start;
    Then(start, [], Spawn(a));
    Then(start, [Spawn(a)], Spawn(b));
    assert [] + [Spawn(a)] == [Spawn(a)] && [Spawn(a)] + [Spawn(b)] == [Spawn(a), Spawn(b)];
  }

  lemma NoticePasses(r: Run, n: Notice, b: Thread) returns (moves: seq<Move>)
    requires n.nodeId in r.plans && !r.finalized
    ensures var s := Two(r, None, Thread(OnNotice(n), CompleteNode(n)), b);
      IsRun(s, moves) && After(s, moves) == Two(r, None, Thread(OnNotice(n), AfterCheck(n)), b)
  {
    hide AfterCheck;
    var c := OnNotice(n);
    var s := Two(r, None, Thread(c, CompleteNode(n)), b);
    var inner := IfFinalized(Unlock(Done), Unlock(AfterCheck(n)));
    var check := IfPlanned(n.nodeId, inner, Unlock(Done));
    ActFirst(r, None, Thread(c, CompleteNode(n)), b);
    ActFirst(r, Some(0), Thread(c, check), b);
    ActFirst(r, Some(0), Thread(c, inner), b);
    ActFirst(r, Some(0), Thread(c, Unlock(AfterCheck(n))), b);
    hide Two, Enabled, Next;
    moves := [];
    assert After(s, moves) == s;
    Then(s, moves, Act(0));
    moves := moves + [Act(0)];
    Then(s, moves, Act(0));
    moves := moves + [Act(0)];
    Then(s, moves, Act(0));
    moves := moves + [Act(0)];
    Then(s, moves, Act(0));
    moves := moves + [Act(0)];
  }

  lemma GraphCompletes(r: Run, a: Thread) returns (moves: seq<Move>)
    requires !r.finalized
    ensures var c := OnComplete(Uploaded); var s := Two(r, None, a, Thread(c, TaskCallback(Uploaded)));
      IsRun(s, moves) && After(s, moves) == Two(Perform(r, SetCompleted), None, a, Thread(c, Done))
  {
    hide Perform;
    var c := OnComplete(Uploaded);
    var s := Two(r, None, a, Thread(c, TaskCallback(Uploaded)));
    var body := Do(SetCompleted, Unlock(Done));
    ActSecond(r, None, a, Thread(c, TaskCallback(Uploaded)));
    ActSecond(r, None, a, Thread(c, Lock(body)));
    ActSecond(r, Some(1), a, Thread(c, body));
    ActSecond(Perform(r, SetCompleted), Some(1), a, Thread(c, Unlock(Done)));
    hide Two, Enabled, Next;
    moves := [];
    assert After(s, moves) == s;
    Then(s, moves, Act(1));
    moves := moves + [Act(1)];
    Then(s, moves, Act(1));
    moves := moves + [Act(1)];
    Then(s, moves, Act(1));
    moves := moves + [Act(1)];
    Then(s, moves, Act(1));
    moves := moves + [Act(1)];
  }

  lemma NoticeFails(r: Run, n: Notice, b: Thread) returns (moves: seq<Move>)
    requires n.errorCode.Some?
    ensures var s := Two(r, None, Thread(OnNotice(n), AfterCheck(n)), b);
      && IsRun(s, moves) && After(s, moves).run.status == Failed && After(s, moves).run.errorCode == n.errorCode
  {
    var c := OnNotice(n);
    var s := Two(r, None, Thread(c, AfterCheck(n)), b);
    var write := Do(SetFailed(n.errorCode), Do(Resolve(n.nodeId), Unlock(Done)));
    var body := Do(SetNode(n.nodeId, NodeFailed), write);
    var r' := Perform(r, SetNode(n.nodeId, NodeFailed));
    ActFirst(r, None, Thread(c, AfterCheck(n)), b);
    ActFirst(r, Some(0), Thread(c, body), b);
    ActFirst(r', Some(0), Thread(c, write), b);
    var end := Two(Perform(r', SetFailed(n.errorCode)), Some(0), Thread(c, write.rest), b);
    assert end.run.status == Failed && end.run.errorCode == n.errorCode;
    hide Two, Enabled, Next, Perform;
    moves := [];
    assert After(s, moves) == s;
    Then(s, moves, Act(0));
    moves := moves + [Act(0)];
    Then(s, moves, Act(0));
    moves := moves + [Act(0)];
    Then(s, moves, Act(0));
    moves := moves + [Act(0)];
  }

  /** A failure notice passes its check, then the graph completes, and then the notice overwrites the verdict. */
  lemma CompletedThenFailed(r: Run, nodeId: string, code: string) returns (first: seq<Move>, second: seq<Move>)
    requires nodeId in r.plans && !r.finalized
    ensures IsRun(State(r, None, []), first)
    ensures var s := After(State(r, None, []), first);
      && s.run.finalized && s.run.status == Completed && s.owner.None?
      && IsRun(s, second) && After(s, second).run.status == Failed && After(s, second).run.errorCode == Some(code)
  {
    hide CompleteNode, AfterCheck, TaskCallback;
    var n := Notice(nodeId, Some(code), None);
    var c0, c1 := OnNotice(n), OnComplete(Uploaded);
    var start := State(r, None, []);
    BothSpawned(r, c0, c1);
    var pass := NoticePasses(r, n, Thread(c1, ProgramOf(c1)));
    Append(start, [Spawn(c0), Spawn(c1)], pass);
    var complete := GraphCompletes(r, Thread(c0, AfterCheck(n)));
    Append(start, [Spawn(c0), Spawn(c1)] + pass, complete);
    first := [Spawn(c0), Spawn(c1)] + pass + complete;
    second := NoticeFails(Perform(r, SetCompleted), n, Thread(c1, Done));
  }
}
