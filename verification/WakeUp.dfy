/**
 * From a completion report to the promise of a waiting remote node: the completion route marks the task reported
 * and sends one notice, the network delivers it at most once, and the sidecar resolves the node's promise.
 */
module WakeUp {
  import opened Js
  import Pump
  import TaskAccount
  import Sidecar

  type NodeKey = (string, string)

  /** The ledger protocol, the notices still under way per workflow and node, and the sidecar's runs. */
  datatype State = State(pump: Pump.State, notices: map<NodeKey, nat>, runs: map<string, Sidecar.Run>)

  datatype Step =
    | Protocol(step: Pump.Step)
    | Completion(taskId: string, forwarded: bool)
    | Deliver(workflowId: string, notice: Sidecar.Notice)
    | Start(workflowId: string, plans: map<string, Sidecar.Plan>, finalUpload: Option<string>)
    | InRun(workflowId: string, runStep: Sidecar.RunStep)

  const INITIAL := State(Pump.INITIAL, map[], map[])

  function Under(notices: map<NodeKey, nat>, k: NodeKey): nat {
    if k in notices then notices[k] else 0
  }

  /** Notices come only from the completion route, so a run sees none of its own accord. */
  predicate Enabled(s: State, step: Step) {
    match step
    case Protocol(st) => !st.Report? && Pump.Enabled(s.pump, st)
    case Completion(_, _) => true
    case Deliver(w, notice) => w in s.runs && Under(s.notices, (w, notice.nodeId)) > 0
    case Start(w, _, _) => w !in s.runs
    case InRun(w, st) => w in s.runs && !st.OnNotice?
  }

  /** The route: mark the task reported first; only the first report may be forwarded, and forwarding may fail. */
  function Completed(s: State, t: string, forwarded: bool): State {
    var entries := s.pump.entries;
    var first := t in entries && !entries[t].reported;
    var s' := s.(pump := Pump.AfterReport(s.pump, t));
    if first && forwarded then
      var k := (entries[t].workflowId, entries[t].nodeId);
      s'.(notices := s.notices[k := Under(s.notices, k) + 1])
    else s'
  }

  function Next(s: State, step: Step): State
    requires Enabled(s, step)
  {
    match step
    case Protocol(st) => s.(pump := Pump.Next(s.pump, st))
    case Completion(t, forwarded) => Completed(s, t, forwarded)
    case Deliver(w, notice) =>
      var k := (w, notice.nodeId);
      s.(notices := s.notices[k := s.notices[k] - 1], runs := s.runs[w := Sidecar.Notified(s.runs[w], notice)])
    case Start(w, plans, finalUpload) => s.(runs := s.runs[w := Sidecar.Fresh(w, plans, finalUpload)])
    case InRun(w, st) => s.(runs := s.runs[w := Sidecar.Advance(s.runs[w], st)])
  }

  datatype ReportOutcome = UnknownTask | Duplicate | NoSidecar | Notify(workflowId: string, notice: Sidecar.Notice)

  /** The completion route: whatever becomes of the notice, the first report of a task is marked before it. */
  method Complete(account: TaskAccount.Account, t: string, errorCode: Option<string>, outputUrl: Option<string>, sidecarUp: bool)
    returns (outcome: ReportOutcome)
    requires account.Valid()
    modifies account, account.store
    ensures account.Valid() && account.store == old(account.store)
    ensures account.entries == TaskAccount.ReportMarked(old(account.entries), t)
    ensures outcome == (
      if t !in old(account.entries) then UnknownTask
      else if old(account.entries)[t].reported then Duplicate
      else if !sidecarUp then NoSidecar
      else Notify(old(account.entries)[t].workflowId, Sidecar.Notice(old(account.entries)[t].nodeId, errorCode, outputUrl)))
  {
    if t !in account.entries {
      return UnknownTask;
    }
    var entry := account.entries[t];
    var first := account.MarkReported(t);
    if !first {
      return Duplicate;
    }
    if !sidecarUp {
      return NoSidecar;
    }
    return Notify(entry.workflowId, Sidecar.Notice(entry.nodeId, errorCode, outputUrl));
  }

  // ---------------------------------------------------------------- counting wake-ups

  /** The wake-ups of a node that a run has begun or made. */
  function InRunCount(r: Sidecar.Run, n: string): nat {
    Pump.At(r.fetching, n) + Pump.At(r.resolved, n)
  }

  function Wakes(s: State, w: string, n: string): nat {
    Under(s.notices, (w, n)) + if w in s.runs then InRunCount(s.runs[w], n) else 0
  }

  ghost predicate MayWake(entries: TaskAccount.Entries, w: string, n: string) {
    var t := Pump.TaskId(w, n);
    t in entries && entries[t].reported && entries[t].workflowId == w && entries[t].nodeId == n
  }

  /** A node is woken at most once in all, and only once its task is reported. */
  ghost predicate OneWake(s: State) {
    forall w, n :: Wakes(s, w, n) <= if MayWake(s.pump.entries, w, n) then 1 else 0
  }

  ghost predicate Inv(s: State) {
    Pump.Inv(s.pump) && OneWake(s)
  }

  lemma NoticeCounts(r: Sidecar.Run, notice: Sidecar.Notice, n: string)
    ensures InRunCount(Sidecar.Notified(r, notice), n) <= InRunCount(r, n) + if n == notice.nodeId then 1 else 0
  {
  }

  lemma FetchCounts(r: Sidecar.Run, nodeId: string, result: Sidecar.FetchResult, n: string)
    requires Pump.At(r.fetching, nodeId) > 0
    ensures InRunCount(Sidecar.FetchEnds(r, nodeId, result), n) == InRunCount(r, n)
  {
  }

  lemma SameCounts(r: Sidecar.Run, r': Sidecar.Run, n: string)
    requires r'.fetching == r.fetching && r'.resolved == r.resolved
    ensures InRunCount(r', n) == InRunCount(r, n)
  {
  }

  lemma WaitingCounts(r: Sidecar.Run, nodeId: string, nowMs: int)
    requires nodeId in r.plans
    ensures var r' := Sidecar.RemoteWaiting(r, nodeId, nowMs); r'.fetching == r.fetching && r'.resolved == r.resolved
  {
    hide Sidecar.Dispatch;
  }

  lemma CompletionCounts(r: Sidecar.Run, aggregate: Sidecar.Aggregate)
    ensures var r' := Sidecar.TaskComplete(r, aggregate); r'.fetching == r.fetching && r'.resolved == r.resolved
  {
  }

  lemma NodeCounts(r: Sidecar.Run, nodeId: string, ok: bool)
    ensures var r' := Sidecar.NodeDone(r, nodeId, ok); r'.fetching == r.fetching && r'.resolved == r.resolved
  {
  }

  /** Steps other than a notice begin no wake-up: a fetch that ends only resolves what it was started for. */
  lemma RunStepCounts(r: Sidecar.Run, step: Sidecar.RunStep, n: string)
    requires !step.OnNotice?
    ensures InRunCount(Sidecar.Advance(r, step), n) <= InRunCount(r, n)
  {
    hide Sidecar.FetchEnds, Sidecar.Dispatch, Sidecar.Notified, Sidecar.RemoteWaiting, Sidecar.TaskComplete, Sidecar.NodeDone,
         InRunCount;
    match step
    case OnFetch(nodeId, result) => if Pump.At(r.fetching, nodeId) > 0 { FetchCounts(r, nodeId, result, n); }
    case OnWaiting(nodeId, nowMs) => if nodeId in r.plans { WaitingCounts(r, nodeId, nowMs); SameCounts(r, Sidecar.Advance(r, step), n); }
    case OnComplete(aggregate) => CompletionCounts(r, aggregate); SameCounts(r, Sidecar.Advance(r, step), n);
    case OnNode(nodeId, ok) => NodeCounts(r, nodeId, ok); SameCounts(r, Sidecar.Advance(r, step), n);
  }

  /** Reports only accumulate, and a recorded task keeps its node. */
  lemma LaterEntriesWake(entries: TaskAccount.Entries, entries': TaskAccount.Entries, moved: set<string>, w: string, n: string)
    requires Pump.Evolves(entries, entries', moved) && MayWake(entries, w, n)
    ensures MayWake(entries', w, n)
  {
  }

  lemma ProtocolKeeps(s: State, st: Pump.Step)
    requires Inv(s) && Enabled(s, Protocol(st))
    ensures Inv(Next(s, Protocol(st)))
  {
    hide Pump.Inv, Pump.Next, Pump.Enabled, MayWake, Wakes;
    Pump.StepKeeps(s.pump, st);
    Pump.StepEvolves(s.pump, st);
    var s' := Next(s, Protocol(st));
    forall w, n ensures Wakes(s', w, n) <= if MayWake(s'.pump.entries, w, n) then 1 else 0 {
      SameWakes(s, s', w, n);
      if MayWake(s.pump.entries, w, n) { LaterEntriesWake(s.pump.entries, s'.pump.entries, s'.pump.moved, w, n); }
    }
  }

  lemma SameWakes(s: State, s': State, w: string, n: string)
    requires s'.notices == s.notices && s'.runs == s.runs
    ensures Wakes(s', w, n) == Wakes(s, w, n)
  {
  }

  lemma CompletionKeeps(s: State, t: string, forwarded: bool)
    requires Inv(s)
    ensures Inv(Next(s, Completion(t, forwarded)))
  {
    hide Pump.Inv, Pump.Next, Pump.AfterReport, MayWake;
    Pump.ReportKeeps(s.pump, t);
    ReportIs(s.pump, t);
    var s' := Completed(s, t, forwarded);
    var entries, entries' := s.pump.entries, s'.pump.entries;
    forall w, n ensures Wakes(s', w, n) <= if MayWake(entries', w, n) then 1 else 0 {
      if MayWake(entries, w, n) { LaterEntriesWake(entries, entries', s.pump.moved, w, n); }
      if t in entries && !entries[t].reported && (w, n) == (entries[t].workflowId, entries[t].nodeId) {
        FirstReportWakes(s.pump, t, entries');
      }
    }
  }

  lemma ReportIs(p: Pump.State, t: string)
    ensures Pump.AfterReport(p, t).entries ==
      if t in p.entries && !p.entries[t].reported then TaskAccount.ReportMarked(p.entries, t) else p.entries
    ensures Pump.Evolves(p.entries, Pump.AfterReport(p, t).entries, p.moved)
    ensures Pump.Enabled(p, Pump.Report(t)) && Pump.Next(p, Pump.Report(t)) == Pump.AfterReport(p, t)
  {
    hide Pump.WriteAll;
  }

  /** The first report is what allows the wake-up: before it none was possible, after it exactly this one is. */
  lemma FirstReportWakes(p: Pump.State, t: string, entries': TaskAccount.Entries)
    requires Pump.Inv(p) && t in p.entries && !p.entries[t].reported
    requires entries' == TaskAccount.ReportMarked(p.entries, t)
    ensures var w, n := p.entries[t].workflowId, p.entries[t].nodeId;
      !MayWake(p.entries, w, n) && MayWake(entries', w, n)
  {
    assert t == Pump.TaskId(p.entries[t].workflowId, p.entries[t].nodeId);
  }

  lemma DeliverKeeps(s: State, w: string, notice: Sidecar.Notice)
    requires Inv(s) && Enabled(s, Deliver(w, notice))
    ensures Inv(Next(s, Deliver(w, notice)))
  {
    hide Pump.Inv, MayWake, Sidecar.Notified, InRunCount;
    var s' := Next(s, Deliver(w, notice));
    forall v, n ensures Wakes(s', v, n) <= if MayWake(s'.pump.entries, v, n) then 1 else 0 {
      NoticeCounts(s.runs[w], notice, n);
      assert Wakes(s', v, n) <= Wakes(s, v, n);
    }
  }

  lemma RunStepKeeps(s: State, step: Step)
    requires Inv(s) && Enabled(s, step) && (step.Start? || step.InRun?)
    ensures Inv(Next(s, step))
  {
    hide Pump.Inv, MayWake, Sidecar.Advance;
    var s' := Next(s, step);
    forall v, n ensures Wakes(s', v, n) <= if MayWake(s'.pump.entries, v, n) then 1 else 0 {
      if step.InRun? { RunStepCounts(s.runs[step.workflowId], step.runStep, n); }
      assert Wakes(s', v, n) <= Wakes(s, v, n);
    }
  }

  lemma StepKeeps(s: State, step: Step)
    requires Inv(s) && Enabled(s, step)
    ensures Inv(Next(s, step))
  {
    hide Inv, Next;
    match step
    case Protocol(st) => ProtocolKeeps(s, st);
    case Completion(t, forwarded) => CompletionKeeps(s, t, forwarded);
    case Deliver(w, notice) => DeliverKeeps(s, w, notice);
    case Start(_, _, _) => RunStepKeeps(s, step);
    case InRun(_, _) => RunStepKeeps(s, step);
  }

  // ---------------------------------------------------------------- whole runs

  ghost predicate IsRun(s: State, steps: seq<Step>)
    decreases |steps|
  {
    steps == [] || (Enabled(s, steps[0]) && IsRun(Next(s, steps[0]), steps[1..]))
  }

  function After(s: State, steps: seq<Step>): State
    requires IsRun(s, steps)
    decreases |steps|
  {
    if steps == [] then s else After(Next(s, steps[0]), steps[1..])
  }

  lemma {:induction false} InvOverRuns(s: State, steps: seq<Step>)
    requires Inv(s) && IsRun(s, steps)
    ensures Inv(After(s, steps))
    decreases |steps|
  {
    hide Inv, Next, Enabled;
    if steps != [] {
      StepKeeps(s, steps[0]);
      InvOverRuns(Next(s, steps[0]), steps[1..]);
    }
  }

  /**
   * In every run, with crashes and recoveries of the control plane, a remote node's promise is resolved at most once,
   * and only after its own task was reported.
   */
  lemma ResolvedAtMostOnce(steps: seq<Step>, w: string, n: string)
    requires IsRun(INITIAL, steps)
    ensures var s := After(INITIAL, steps);
      w in s.runs ==>
        && Pump.At(s.runs[w].resolved, n) <= 1
        && (Pump.At(s.runs[w].resolved, n) == 1 ==> MayWake(s.pump.entries, w, n))
  {
    Pump.InitialInv();
    assert OneWake(INITIAL);
    InvOverRuns(INITIAL, steps);
    var s := After(INITIAL, steps);
    assert Wakes(s, w, n) <= if MayWake(s.pump.entries, w, n) then 1 else 0;
  }

  /** Once a node's task is reported, no step begins another wake-up of that node. */
  lemma NoNewWake(s: State, step: Step, w: string, n: string)
    requires Inv(s) && Enabled(s, step) && MayWake(s.pump.entries, w, n)
    ensures Wakes(Next(s, step), w, n) <= Wakes(s, w, n)
  {
    hide Pump.Inv, Pump.Next, Pump.Enabled, Pump.AfterReport, Sidecar.Advance, Sidecar.Notified, InRunCount, OneWake;
    match step
    case Protocol(st) => SameWakes(s, Next(s, step), w, n);
    case Completion(t, forwarded) =>
      if t in s.pump.entries && !s.pump.entries[t].reported { OtherTask(s.pump, t, w, n); }
    case Deliver(v, notice) => NoticeCounts(s.runs[v], notice, n);
    case Start(v, plans, finalUpload) => FreshCounts(v, plans, finalUpload, n);
    case InRun(v, st) => RunStepCounts(s.runs[v], st, n);
  }

  lemma FreshCounts(w: string, plans: map<string, Sidecar.Plan>, finalUpload: Option<string>, n: string)
    ensures InRunCount(Sidecar.Fresh(w, plans, finalUpload), n) == 0
  {
  }

  lemma OtherTask(p: Pump.State, t: string, w: string, n: string)
    requires Pump.Inv(p) && MayWake(p.entries, w, n) && t in p.entries && !p.entries[t].reported
    ensures (p.entries[t].workflowId, p.entries[t].nodeId) != (w, n)
  {
  }

  /**
   * The other side of at most once: a report whose notice was never sent, or was lost, is never made up for.
   * With no notice under way and no wake-up begun, the node's promise stays unresolved in every continuation.
   */
  lemma {:induction false} LostNoticeIsLostForever(s: State, steps: seq<Step>, w: string, n: string)
    requires Inv(s) && IsRun(s, steps) && MayWake(s.pump.entries, w, n) && Wakes(s, w, n) == 0
    ensures Wakes(After(s, steps), w, n) == 0
    decreases |steps|
  {
    hide Inv, Next, Enabled, MayWake, Wakes;
    if steps != [] {
      StepKeeps(s, steps[0]);
      NoNewWake(s, steps[0], w, n);
      MayWakeStays(s, steps[0], w, n);
      LostNoticeIsLostForever(Next(s, steps[0]), steps[1..], w, n);
    }
  }

  lemma MayWakeStays(s: State, step: Step, w: string, n: string)
    requires Inv(s) && Enabled(s, step) && MayWake(s.pump.entries, w, n)
    ensures MayWake(Next(s, step).pump.entries, w, n)
  {
    hide Pump.Inv, Pump.Next, Pump.Enabled, Pump.AfterReport, MayWake, OneWake, Sidecar.Advance, Sidecar.Notified;
    match step
    case Protocol(st) =>
      Pump.StepEvolves(s.pump, st);
      LaterEntriesWake(s.pump.entries, Pump.Next(s.pump, st).entries, Pump.Next(s.pump, st).moved, w, n);
    case Completion(t, forwarded) =>
      ReportIs(s.pump, t);
      LaterEntriesWake(s.pump.entries, Pump.AfterReport(s.pump, t).entries, s.pump.moved, w, n);
    case Deliver(_, _) =>
    case Start(_, _, _) =>
    case InRun(_, _) =>
  }
}
