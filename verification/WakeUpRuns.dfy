/** Runs of the wake-up path: a report that does wake its node, and what the route's notice is worth. */
module WakeUpRuns {
  import opened Js
  import Pump
  import PumpLimits
  import TaskAccount
  import Sidecar
  import opened WakeUp

  lemma {:induction false} Extend(s: State, steps: seq<Step>, step: Step)
    requires IsRun(s, steps) && Enabled(After(s, steps), step)
    ensures IsRun(s, steps + [step]) && After(s, steps + [step]) == Next(After(s, steps), step)
    decreases |steps|
  {
    hide Enabled, Next;
    if steps == [] {
      assert [] + [step] == [step] && [step][1..] == [];
    } else {
      Extend(Next(s, steps[0]), steps[1..], step);
      assert (steps + [step])[1..] == steps[1..] + [step];
    }
  }

  function Lifted(steps: seq<Pump.Step>): seq<Step> {
    seq(|steps|, i requires 0 <= i < |steps| => Protocol(steps[i]))
  }

  /** A run of the dispatch protocol is a run of the whole. */
  lemma {:induction false} LiftedRun(s: State, steps: seq<Pump.Step>)
    requires Pump.IsRun(s.pump, steps) && forall i :: 0 <= i < |steps| ==> !steps[i].Report?
    ensures IsRun(s, Lifted(steps)) && After(s, Lifted(steps)) == s.(pump := Pump.After(s.pump, steps))
    decreases |steps|
  {
    hide Pump.Next, Pump.Enabled;
    if steps != [] {
      LiftedRun(s.(pump := Pump.Next(s.pump, steps[0])), steps[1..]);
      assert Lifted(steps)[1..] == Lifted(steps[1..]);
    }
  }

  /** Exactly a forwarded first report puts one more notice under way, for its own task's node. */
  lemma NoticeIsSentExactly(s: State, t: string, forwarded: bool, k: NodeKey)
    ensures Under(Completed(s, t, forwarded).notices, k) == Under(s.notices, k) + (
      if t in s.pump.entries && !s.pump.entries[t].reported && forwarded
         && k == (s.pump.entries[t].workflowId, s.pump.entries[t].nodeId) then 1 else 0)
    ensures Completed(s, t, forwarded).runs == s.runs
  {
    hide Pump.AfterReport;
  }

  /**
   * For every sidecar task of a planned node there is a run in which its report wakes the node: at most once is not
   * never.
   */
  lemma ReportWakesItsNode(p: Pump.Pending, e: string, plans: map<string, Sidecar.Plan>, url: string) returns (steps: seq<Step>)
    requires Pump.FromSidecar(p) && p.nodeId in plans
    ensures IsRun(INITIAL, steps)
    ensures var s := After(INITIAL, steps);
      p.workflowId in s.runs && Pump.At(s.runs[p.workflowId].resolved, p.nodeId) == 1
  {
    hide Pump.AfterReport, Sidecar.Notified, Sidecar.Advance, PumpLimits.Stage;
    var protocol := PumpLimits.PushedOnce(p, e);
    LiftedRun(INITIAL, protocol);
    steps := Lifted(protocol);
    var s0 := After(INITIAL, steps);
    EntryAfterPush(p, e, s0.pump);
    var w, n := p.workflowId, p.nodeId;
    var notice := Sidecar.Notice(n, None, Some(url));
    Extend(INITIAL, steps, Completion(p.taskId, true));
    steps := steps + [Completion(p.taskId, true)];
    NoticeIsSentExactly(s0, p.taskId, true, (w, n));
    Extend(INITIAL, steps, Start(w, plans, None));
    steps := steps + [Start(w, plans, None)];
    Extend(INITIAL, steps, Deliver(w, notice));
    steps := steps + [Deliver(w, notice)];
    Extend(INITIAL, steps, InRun(w, Sidecar.OnFetch(n, Sidecar.Fetched)));
    steps := steps + [InRun(w, Sidecar.OnFetch(n, Sidecar.Fetched))];
    FetchResolves(w, plans, notice);
  }

  lemma EntryAfterPush(p: Pump.Pending, e: string, s: Pump.State)
    requires s == PumpLimits.Stage(map[p.taskId := Pump.NewEntry(p, e).(pushed := true)], Pump.Idle,
      map[p.workflowId := map[p.nodeId := e]], map[p.taskId := 1], map[p.taskId := e])
    ensures p.taskId in s.entries && !s.entries[p.taskId].reported
    ensures s.entries[p.taskId].workflowId == p.workflowId && s.entries[p.taskId].nodeId == p.nodeId
  {
  }

  lemma FetchResolves(w: string, plans: map<string, Sidecar.Plan>, notice: Sidecar.Notice)
    requires notice.nodeId in plans && notice.errorCode.None? && notice.outputUri.Some?
    ensures var r := Sidecar.Notified(Sidecar.Fresh(w, plans, None), notice);
      Pump.At(Sidecar.Advance(r, Sidecar.OnFetch(notice.nodeId, Sidecar.Fetched)).resolved, notice.nodeId) == 1
  {
  }
}
