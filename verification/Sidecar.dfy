/** One workflow's execution state in the sidecar (`workflow_run.cpp`). Calls, callbacks and fetch threads are atomic steps. */
module Sidecar {
  import opened Js
  import Pump
  import TaskAccount

  datatype GraphStatus = Starting | WaitingRemote | Executing | Completed | Failed

  datatype NodeState = NodePending | Running | NodeCompleted | NodeFailed

  datatype Plan = Plan(modelKey: string, inputUri: string, outputUri: string)

  datatype Notice = Notice(nodeId: string, errorCode: Option<string>, outputUri: Option<string>)

  /** Blocked: the call waits for a mutex that is never released. */
  datatype NoticeOutcome = UnknownNode | Ignored | Accepted | Blocked

  datatype FetchResult = FetchFailed | NotScalar | Fetched

  datatype Aggregate = WrongBindings | MissingOutput | UploadFailed | Uploaded

  /**
   * The run's fields. `fetching` counts fetch threads under way and `resolved` the times a remote node's promise
   * was resolved; `stuck` holds once a call has locked the mutex that it already holds.
   */
  datatype Run = Run(
    workflowId: string, plans: map<string, Plan>, finalUpload: Option<string>,
    status: GraphStatus, finalized: bool, errorCode: Option<string>, finalOutput: Option<string>,
    nodes: map<string, NodeState>, pending: map<string, Pump.Pending>,
    fetching: Pump.Counter, resolved: Pump.Counter, stuck: bool)

  function Fresh(workflowId: string, plans: map<string, Plan>, finalUpload: Option<string>): Run {
    Run(workflowId, plans, finalUpload, Starting, false, None, None, map[], map[], map[], map[], false)
  }

  // ---------------------------------------------------------------- specification

  function Fail(r: Run, code: string): Run {
    if r.finalized then r else r.(errorCode := Some(code), status := Failed, finalized := true)
  }

  function Dispatch(r: Run, nodeId: string, nowMs: int): Pump.Pending
    requires nodeId in r.plans
  {
    Pump.Pending(Pump.TaskId(r.workflowId, nodeId), r.workflowId, nodeId, r.plans[nodeId].modelKey, r.plans[nodeId].inputUri,
                 r.plans[nodeId].outputUri, TaskAccount.Normal, nowMs)
  }

  function RemoteWaiting(r: Run, nodeId: string, nowMs: int): Run
    requires nodeId in r.plans
  {
    if r.stuck then r
    else r.(status := if r.status == Starting then WaitingRemote else r.status,
            nodes := r.nodes[nodeId := Running], pending := r.pending[nodeId := Dispatch(r, nodeId, nowMs)])
  }

  function NoticeVerdict(r: Run, n: Notice): NoticeOutcome {
    if r.stuck then Blocked
    else if n.nodeId !in r.plans then UnknownNode
    else if r.finalized then Ignored
    else if n.errorCode.None? && n.outputUri.None? then Blocked
    else Accepted
  }

  /** A failure notice resolves the promise at once, an output notice starts a fetch, and one with neither deadlocks. */
  function Notified(r: Run, n: Notice): Run {
    if r.stuck || n.nodeId !in r.plans || r.finalized then r
    else if n.errorCode.Some? then
      r.(nodes := r.nodes[n.nodeId := NodeFailed], errorCode := n.errorCode, status := Failed, finalized := true,
         resolved := Pump.Add(r.resolved, n.nodeId))
    else if n.outputUri.None? then r.(stuck := true)
    else r.(fetching := Pump.Add(r.fetching, n.nodeId))
  }

  function Subtract(c: Pump.Counter, k: string): Pump.Counter {
    if k in c && c[k] > 0 then c[k := c[k] - 1] else c
  }

  function MarkExecuting(r: Run): Run {
    if r.status == WaitingRemote then r.(status := Executing) else r
  }

  /** A fetch thread ends: it fails the run or marks it executing, and resolves the promise either way. */
  function FetchEnds(r: Run, nodeId: string, result: FetchResult): Run {
    if r.stuck then r
    else
      var r' := match result
        case FetchFailed => Fail(r, "E_STORAGE_TRANSFER_FAILED")
        case NotScalar => Fail(r, "E_OUTPUT_VALIDATION_FAILED")
        case Fetched => MarkExecuting(r);
      r'.(fetching := Subtract(r.fetching, nodeId), resolved := Pump.Add(r.resolved, nodeId))
  }

  function TaskComplete(r: Run, aggregate: Aggregate): Run {
    if r.stuck || r.finalized then r
    else match aggregate
      case WrongBindings => Fail(r, "E_INTERNAL")
      case MissingOutput => Fail(r, "E_INTERNAL")
      case UploadFailed => if r.finalUpload.Some? then Fail(r, "E_STORAGE_TRANSFER_FAILED") else r.(status := Completed, finalized := true)
      case Uploaded => r.(status := Completed, finalized := true, finalOutput := if r.finalUpload.Some? then r.finalUpload else r.finalOutput)
  }

  /** A local node's completion callback; a failure ends the run. */
  function NodeDone(r: Run, nodeId: string, ok: bool): Run {
    if r.stuck then r
    else
      var r' := r.(nodes := r.nodes[nodeId := if ok then NodeCompleted else NodeFailed]);
      if ok then r' else Fail(r', "E_INFER_FAILED")
  }

  // ---------------------------------------------------------------- the object

  class WorkflowRun {
    const workflowId: string
    const plans: map<string, Plan>
    const finalUpload: Option<string>
    var status: GraphStatus
    var finalized: bool
    var errorCode: Option<string>
    var finalOutput: Option<string>
    var nodes: map<string, NodeState>
    var pending: map<string, Pump.Pending>
    var fetching: Pump.Counter
    var resolved: Pump.Counter
    var stuck: bool

    function View(): Run
      reads this
    {
      Run(workflowId, plans, finalUpload, status, finalized, errorCode, finalOutput, nodes, pending, fetching, resolved, stuck)
    }

    constructor (workflowId: string, plans: map<string, Plan>, finalUpload: Option<string>)
      ensures View() == Fresh(workflowId, plans, finalUpload)
    {
      this.workflowId, this.plans, this.finalUpload := workflowId, plans, finalUpload;
      status, finalized, errorCode, finalOutput := Starting, false, None, None;
      nodes, pending, fetching, resolved, stuck := map[], map[], map[], map[], false;
    }

    method FailWith(code: string)
      modifies this`errorCode, this`status, this`finalized
      ensures View() == Fail(old(View()), code)
    {
      if finalized {
        return;
      }
      errorCode, status, finalized := Some(code), Failed, true;
    }

    method OnRemoteWaiting(nodeId: string, nowMs: int)
      requires nodeId in plans
      modifies this
      ensures View() == RemoteWaiting(old(View()), nodeId, nowMs)
    {
      if stuck {
        return;
      }
      if status == Starting {
        status := WaitingRemote;
      }
      nodes := nodes[nodeId := Running];
      pending := pending[nodeId := Pump.Pending(Pump.TaskId(workflowId, nodeId), workflowId, nodeId, plans[nodeId].modelKey,
                                                plans[nodeId].inputUri, plans[nodeId].outputUri, TaskAccount.Normal, nowMs)];
    }

    method CompleteNode(notice: Notice) returns (outcome: NoticeOutcome)
      modifies this
      ensures View() == Notified(old(View()), notice) && outcome == NoticeVerdict(old(View()), notice)
    {
      if stuck {
        return Blocked;
      }
      if notice.nodeId !in plans {
        return UnknownNode;
      }
      if finalized {
        return Ignored;
      }
      if notice.errorCode.Some? {
        nodes := nodes[notice.nodeId := NodeFailed];
        errorCode, status, finalized := notice.errorCode, Failed, true;
        resolved := Pump.Add(resolved, notice.nodeId);
        return Accepted;
      }
      if notice.outputUri.None? {
        stuck := true;
        return Blocked;
      }
      fetching := Pump.Add(fetching, notice.nodeId);
      return Accepted;
    }

    method EndFetch(nodeId: string, result: FetchResult)
      modifies this
      ensures View() == FetchEnds(old(View()), nodeId, result)
    {
      if stuck {
        return;
      }
      match result {
        case FetchFailed => FailWith("E_STORAGE_TRANSFER_FAILED");
        case NotScalar => FailWith("E_OUTPUT_VALIDATION_FAILED");
        case Fetched =>
          if status == WaitingRemote {
            status := Executing;
          }
      }
      fetching := Subtract(fetching, nodeId);
      resolved := Pump.Add(resolved, nodeId);
    }

    method OnNodeComplete(nodeId: string, ok: bool)
      modifies this
      ensures View() == NodeDone(old(View()), nodeId, ok)
    {
      if stuck {
        return;
      }
      nodes := nodes[nodeId := if ok then NodeCompleted else NodeFailed];
      if !ok && !finalized {
        FailWith("E_INFER_FAILED");
      }
    }

    method OnTaskComplete(aggregate: Aggregate)
      modifies this
      ensures View() == TaskComplete(old(View()), aggregate)
    {
      if stuck || finalized {
        return;
      }
      if aggregate == WrongBindings || aggregate == MissingOutput {
        FailWith("E_INTERNAL");
        return;
      }
      if finalUpload.None? {
        status, finalized := Completed, true;
        return;
      }
      if aggregate == UploadFailed {
        FailWith("E_STORAGE_TRANSFER_FAILED");
        return;
      }
      status, finalOutput, finalized := Completed, finalUpload, true;
    }
  }

  // ---------------------------------------------------------------- status over whole runs

  datatype RunStep =
    | OnWaiting(nodeId: string, nowMs: int)
    | OnNotice(notice: Notice)
    | OnFetch(nodeId: string, result: FetchResult)
    | OnComplete(aggregate: Aggregate)
    | OnNode(nodeId: string, ok: bool)

  function Advance(r: Run, step: RunStep): Run {
    match step
    case OnWaiting(nodeId, nowMs) => if nodeId in r.plans then RemoteWaiting(r, nodeId, nowMs) else r
    case OnNotice(notice) => Notified(r, notice)
    case OnFetch(nodeId, result) => if Pump.At(r.fetching, nodeId) > 0 then FetchEnds(r, nodeId, result) else r
    case OnComplete(aggregate) => TaskComplete(r, aggregate)
    case OnNode(nodeId, ok) => NodeDone(r, nodeId, ok)
  }

  function AdvanceAll(r: Run, steps: seq<RunStep>): Run
    decreases |steps|
  {
    if steps == [] then r else AdvanceAll(Advance(r, steps[0]), steps[1..])
  }

  function Rank(status: GraphStatus): nat {
    match status
    case Starting => 0
    case WaitingRemote => 1
    case Executing => 2
    case Completed => 3
    case Failed => 3
  }

  ghost predicate Consistent(r: Run) {
    && (r.finalized <==> r.status == Completed || r.status == Failed)
    && (r.errorCode.Some? ==> r.status == Failed)
    && (r.finalOutput.Some? ==> r.status == Completed)
  }

  /** The status never falls, and the verdict, error code and output are fixed once the run is finalized. */
  ghost predicate Progress(r: Run, r': Run) {
    && Rank(r.status) <= Rank(r'.status)
    && (r.finalized ==> r'.finalized && r'.status == r.status && r'.errorCode == r.errorCode && r'.finalOutput == r.finalOutput)
  }

  lemma FailProgress(r: Run, code: string)
    requires Consistent(r)
    ensures Consistent(Fail(r, code)) && Progress(r, Fail(r, code))
  {
  }

  lemma WaitingProgress(r: Run, nodeId: string, nowMs: int)
    requires Consistent(r) && nodeId in r.plans
    ensures Consistent(RemoteWaiting(r, nodeId, nowMs)) && Progress(r, RemoteWaiting(r, nodeId, nowMs))
  {
    hide Dispatch;
  }

  lemma NoticeProgress(r: Run, notice: Notice)
    requires Consistent(r)
    ensures Consistent(Notified(r, notice)) && Progress(r, Notified(r, notice))
  {
    hide Pump.Add;
  }

  lemma FinishProgress(r: Run, finalOutput: Option<string>)
    requires Consistent(r) && !r.finalized
    ensures var r' := r.(status := Completed, finalized := true, finalOutput := finalOutput); Consistent(r') && Progress(r, r')
  {
  }

  lemma CompleteProgress(r: Run, aggregate: Aggregate)
    requires Consistent(r)
    ensures Consistent(TaskComplete(r, aggregate)) && Progress(r, TaskComplete(r, aggregate))
  {
    hide Fail, Consistent;
    var r' := TaskComplete(r, aggregate);
    if r.stuck || r.finalized {
      assert r' == r;
    } else {
      FailProgress(r, "E_INTERNAL");
      FailProgress(r, "E_STORAGE_TRANSFER_FAILED");
      FinishProgress(r, r.finalOutput);
      FinishProgress(r, r.finalUpload);
    }
  }

  lemma NodeProgress(r: Run, nodeId: string, ok: bool)
    requires Consistent(r)
    ensures Consistent(NodeDone(r, nodeId, ok)) && Progress(r, NodeDone(r, nodeId, ok))
  {
  }

  lemma FetchProgress(r: Run, nodeId: string, result: FetchResult)
    requires Consistent(r)
    ensures Consistent(FetchEnds(r, nodeId, result)) && Progress(r, FetchEnds(r, nodeId, result))
  {
    hide Pump.Add, Subtract;
  }

  lemma StepProgress(r: Run, step: RunStep)
    requires Consistent(r)
    ensures Consistent(Advance(r, step)) && Progress(r, Advance(r, step))
  {
    hide RemoteWaiting, Notified, FetchEnds, TaskComplete, NodeDone, Consistent;
    match step
    case OnWaiting(nodeId, nowMs) => if nodeId in r.plans { WaitingProgress(r, nodeId, nowMs); }
    case OnNotice(notice) => NoticeProgress(r, notice);
    case OnFetch(nodeId, result) => FetchProgress(r, nodeId, result);
    case OnComplete(aggregate) => CompleteProgress(r, aggregate);
    case OnNode(nodeId, ok) => NodeProgress(r, nodeId, ok);
  }

  lemma {:induction false} StatusOverRuns(r: Run, steps: seq<RunStep>)
    requires Consistent(r)
    ensures Consistent(AdvanceAll(r, steps)) && Progress(r, AdvanceAll(r, steps))
    decreases |steps|
  {
    if steps != [] {
      hide Advance, Consistent;
      StepProgress(r, steps[0]);
      StatusOverRuns(Advance(r, steps[0]), steps[1..]);
    }
  }

  // ---------------------------------------------------------------- pending dispatches

  /** Every pending dispatch names its node's task and carries the model and the object keys of the node's plan. */
  ghost predicate PendingFitsPlans(r: Run) {
    forall n :: n in r.pending ==>
      var d := r.pending[n];
      && n in r.plans && d.nodeId == n && d.workflowId == r.workflowId && d.taskId == r.workflowId + ":" + n
      && d.modelKey == r.plans[n].modelKey && d.inputUri == r.plans[n].inputUri && d.outputUri == r.plans[n].outputUri
      && d.priority == TaskAccount.Normal
  }

  ghost predicate SamePending(r: Run, r': Run) {
    r'.pending == r.pending && r'.plans == r.plans && r'.workflowId == r.workflowId
  }

  lemma FailSamePending(r: Run, code: string)
    ensures SamePending(r, Fail(r, code))
  {
  }

  lemma NoticeSamePending(r: Run, notice: Notice)
    ensures SamePending(r, Notified(r, notice))
  {
    hide Pump.Add;
  }

  lemma FetchSamePending(r: Run, nodeId: string, result: FetchResult)
    ensures SamePending(r, FetchEnds(r, nodeId, result))
  {
    hide Fail, Pump.Add, Subtract;
    FailSamePending(r, "E_STORAGE_TRANSFER_FAILED");
    FailSamePending(r, "E_OUTPUT_VALIDATION_FAILED");
  }

  lemma CompleteSamePending(r: Run, aggregate: Aggregate)
    ensures SamePending(r, TaskComplete(r, aggregate))
  {
    hide Fail;
    FailSamePending(r, "E_INTERNAL");
    FailSamePending(r, "E_STORAGE_TRANSFER_FAILED");
  }

  lemma NodeSamePending(r: Run, nodeId: string, ok: bool)
    ensures SamePending(r, NodeDone(r, nodeId, ok))
  {
    hide Fail;
    var r' := r.(nodes := r.nodes[nodeId := if ok then NodeCompleted else NodeFailed]);
    FailSamePending(r', "E_INFER_FAILED");
  }

  lemma OthersSamePending(r: Run, step: RunStep)
    requires !step.OnWaiting?
    ensures SamePending(r, Advance(r, step))
  {
    hide RemoteWaiting, Notified, FetchEnds, TaskComplete, NodeDone;
    match step
    case OnNotice(notice) => NoticeSamePending(r, notice);
    case OnFetch(nodeId, result) => FetchSamePending(r, nodeId, result);
    case OnComplete(aggregate) => CompleteSamePending(r, aggregate);
    case OnNode(nodeId, ok) => NodeSamePending(r, nodeId, ok);
  }

  lemma WaitingFitsPlans(r: Run, nodeId: string, nowMs: int)
    requires nodeId in r.plans && PendingFitsPlans(r)
    ensures PendingFitsPlans(RemoteWaiting(r, nodeId, nowMs))
    ensures var pending := RemoteWaiting(r, nodeId, nowMs).pending;
      !r.stuck ==> nodeId in pending && pending[nodeId].dispatchedAtMs == nowMs
  {
  }

  /** In every run the pending dispatches fit the plans. */
  lemma {:induction false} PendingOverRuns(r: Run, steps: seq<RunStep>)
    requires PendingFitsPlans(r)
    ensures PendingFitsPlans(AdvanceAll(r, steps))
    decreases |steps|
  {
    if steps != [] {
      hide Advance, PendingFitsPlans;
      StepFitsPlans(r, steps[0]);
      PendingOverRuns(Advance(r, steps[0]), steps[1..]);
    }
  }

  lemma StepFitsPlans(r: Run, step: RunStep)
    requires PendingFitsPlans(r)
    ensures PendingFitsPlans(Advance(r, step))
  {
    hide RemoteWaiting, Notified, FetchEnds, TaskComplete, NodeDone;
    if step.OnWaiting? {
      if step.nodeId in r.plans { WaitingFitsPlans(r, step.nodeId, step.nowMs); }
    } else {
      OthersSamePending(r, step);
    }
  }
}
