/**
 * The workflow ledger and its state machine (`workflow-ledger.ts`), driven by sidecar snapshots
 * (`workflow-status.ts`) and submissions, and the shelf life of its results (`shelf-life.ts`).
 */
module WorkflowLedger {
  import opened Js
  import Sidecar
  import TaskAccount

  datatype Lifecycle =
    | Registered | Inspecting | Binding | Dispatching | Executing | Collecting | Aggregating
    | Completed | Failed | Rejected | Cancelled

  /** `bindings` stands for the parsed `bindingsJson`. */
  datatype Record = Record(
    workflowId: string, status: Lifecycle, errorCode: Option<string>, finalOutputUri: Option<string>,
    endpointId: Option<string>, bindings: Option<map<string, string>>, createdAtMs: Option<int>, updatedAtMs: int)

  datatype Patch = Patch(
    errorCode: Option<string>, finalOutputUri: Option<string>, endpointId: Option<string>, bindings: Option<map<string, string>>)

  const NO_PATCH := Patch(None, None, None, None)

  type Records = map<string, Record>

  datatype Snapshot = Snapshot(status: Sidecar.GraphStatus, errorCode: Option<string>, finalOutputUri: Option<string>)

  predicate Terminal(s: Lifecycle) {
    s in {Completed, Failed, Rejected, Cancelled}
  }

  function LegalTransitions(s: Lifecycle): set<Lifecycle> {
    match s
    case Registered => {Inspecting, Binding, Dispatching, Rejected, Failed}
    case Inspecting => {Rejected, Binding, Failed}
    case Binding => {Rejected, Dispatching, Failed}
    case Dispatching => {Executing, Completed, Failed, Cancelled}
    case Executing => {Collecting, Completed, Failed, Cancelled}
    case Collecting => {Aggregating, Completed, Failed, Cancelled}
    case Aggregating => {Completed, Failed, Cancelled}
    case Completed => {}
    case Failed => {}
    case Rejected => {}
    case Cancelled => {}
  }

  // ---------------------------------------------------------------- specification

  function Either<T>(patch: Option<T>, current: Option<T>): Option<T> {
    if patch.Some? then patch else current
  }

  function Patched(r: Record, next: Lifecycle, p: Patch, now: int): Record {
    Record(r.workflowId, next, Either(p.errorCode, r.errorCode), Either(p.finalOutputUri, r.finalOutputUri),
           Either(p.endpointId, r.endpointId), Either(p.bindings, r.bindings), r.createdAtMs, now)
  }

  predicate Accepts(records: Records, w: string, next: Lifecycle) {
    w in records && next in LegalTransitions(records[w].status)
  }

  function Transitioned(records: Records, w: string, next: Lifecycle, p: Patch, now: int): Records {
    if Accepts(records, w, next) then records[w := Patched(records[w], next, p, now)] else records
  }

  function Opened(records: Records, w: string, now: int): Records {
    if w in records then records else records[w := Record(w, Registered, None, None, None, None, Some(now), now)]
  }

  function ToLifecycle(s: Sidecar.GraphStatus): Lifecycle {
    match s
    case Starting => Dispatching
    case WaitingRemote => Executing
    case Executing => Executing
    case Completed => Completed
    case Failed => Failed
  }

  predicate Truthy(o: Option<string>) {
    o.Some? && o.value != ""
  }

  /** The snapshot says something new; `seen` is the status read before the sidecar was asked. */
  predicate Advances(seen: Lifecycle, s: Snapshot) {
    !Terminal(seen) && (ToLifecycle(s.status) != seen || Truthy(s.finalOutputUri) || Truthy(s.errorCode))
  }

  function Polled(records: Records, w: string, seen: Lifecycle, s: Snapshot, now: int): Records {
    if Advances(seen, s) then
      Transitioned(records, w, ToLifecycle(s.status), NO_PATCH.(errorCode := s.errorCode, finalOutputUri := s.finalOutputUri), now)
    else records
  }

  /** The rows taken at startup: the first of each workflow that memory does not have. */
  function Hydrated(records: Records, rows: seq<Record>): Records
    decreases |rows|
  {
    if rows == [] then records
    else Hydrated(if rows[0].workflowId in records then records else records[rows[0].workflowId := rows[0]], rows[1..])
  }

  // ---------------------------------------------------------------- the object

  datatype Begun = Conflict | Refused | NoSidecar | Proceed

  class Ledger {
    var records: Records

    constructor ()
      ensures records == map[]
    {
      records := map[];
    }

    method Hydrate(rows: seq<Record>)
      modifies this
      ensures records == Hydrated(old(records), rows)
    {
      for i := 0 to |rows|
        invariant Hydrated(records, rows[i..]) == Hydrated(old(records), rows)
      {
        assert rows[i..][1..] == rows[i + 1..];
        if rows[i].workflowId !in records {
          records := records[rows[i].workflowId := rows[i]];
        }
      }
    }

    /** Write a record without any check. */
    method Upsert(r: Record, now: int)
      modifies this
      ensures records == old(records)[r.workflowId := r.(createdAtMs := Some(if r.createdAtMs.Some? then r.createdAtMs.value else now),
                                                         updatedAtMs := now)]
    {
      var created := if r.createdAtMs.Some? then r.createdAtMs.value else now;
      records := records[r.workflowId := r.(createdAtMs := Some(created), updatedAtMs := now)];
    }

    method Transition(w: string, next: Lifecycle, p: Patch, now: int) returns (updated: Option<Record>)
      modifies this
      ensures records == Transitioned(old(records), w, next, p, now)
      ensures updated == if Accepts(old(records), w, next) then Some(records[w]) else None
    {
      if w !in records || Terminal(records[w].status) || next !in LegalTransitions(records[w].status) {
        return None;
      }
      var r := records[w];
      records := records[w := Patched(r, next, p, now)];
      return Some(records[w]);
    }

    /** The part of a submission that runs without interruption, up to the sidecar's start. */
    method BeginSubmission(w: string, bound: bool, inspected: bool, sidecarUp: bool, now: int) returns (outcome: Begun)
      modifies this
      ensures outcome == if w in old(records) && old(records)[w].status != Registered then Conflict
                         else if !bound || !inspected then Refused
                         else if !sidecarUp then NoSidecar else Proceed
      ensures var present := Opened(old(records), w, now);
        match outcome
        case Conflict => records == old(records)
        case Refused => records == present[w := present[w].(status := Rejected, errorCode := Some("E_INSPECTION_REJECTED"), updatedAtMs := now)]
        case NoSidecar => records == present[w := present[w].(status := Failed, errorCode := Some("E_INTERNAL"), updatedAtMs := now)]
        case Proceed => records == present
    {
      if w in records && records[w].status != Registered {
        return Conflict;
      }
      if w !in records {
        Upsert(Record(w, Registered, None, None, None, None, None, 0), now);
      }
      if !bound || !inspected {
        var _ := Transition(w, Rejected, NO_PATCH.(errorCode := Some("E_INSPECTION_REJECTED")), now);
        return Refused;
      }
      if !sidecarUp {
        var _ := Transition(w, Failed, NO_PATCH.(errorCode := Some("E_INTERNAL")), now);
        return NoSidecar;
      }
      return Proceed;
    }

    /** The part after the sidecar answered; polls may have come in between. */
    method EndSubmission(w: string, started: bool, endpointId: string, nodeEndpoint: map<string, string>, now: int)
      modifies this
      ensures records == if started then Transitioned(old(records), w, Dispatching, BindingPatch(endpointId, nodeEndpoint), now)
                         else Transitioned(old(records), w, Failed, NO_PATCH.(errorCode := Some("E_INTERNAL")), now)
    {
      if !started {
        var _ := Transition(w, Failed, NO_PATCH.(errorCode := Some("E_INTERNAL")), now);
        return;
      }
      var _ := Transition(w, Dispatching, BindingPatch(endpointId, nodeEndpoint), now);
    }

    /** Apply a sidecar snapshot; a finished run also revokes the workflow's in-flight tasks, moved or not. */
    method ApplySnapshot(w: string, seen: Lifecycle, s: Snapshot, account: TaskAccount.Account, now: int)
      returns (revokes: seq<(string, string)>)
      requires account.Valid()
      modifies this
      ensures records == Polled(old(records), w, seen, s, now)
      ensures forall t, ep :: (ep, t) in revokes <==>
        && Advances(seen, s) && s.status in {Sidecar.Completed, Sidecar.Failed}
        && t in account.entries && account.entries[t].workflowId == w && TaskAccount.InFlight(account.entries[t])
        && account.entries[t].endpointId == ep
    {
      revokes := [];
      if Terminal(seen) {
        return;
      }
      var next := ToLifecycle(s.status);
      if next != seen || Truthy(s.finalOutputUri) || Truthy(s.errorCode) {
        var _ := Transition(w, next, NO_PATCH.(errorCode := s.errorCode, finalOutputUri := s.finalOutputUri), now);
        if next == Completed || next == Failed {
          revokes := account.RevokeTasksOfWorkflow(w);
        }
      }
    }
  }

  function BindingPatch(endpointId: string, nodeEndpoint: map<string, string>): Patch {
    NO_PATCH.(endpointId := if endpointId != "" then Some(endpointId) else None,
              bindings := if |nodeEndpoint| > 0 then Some(nodeEndpoint) else None)
  }

  // ---------------------------------------------------------------- whole runs

  /** Everything that changes records: guarded openings, transitions with any patch, and snapshots read at any time. */
  datatype Step =
    | Open(workflowId: string, now: int)
    | Move(workflowId: string, next: Lifecycle, patch: Patch, now: int)
    | Poll(workflowId: string, seen: Lifecycle, snapshot: Snapshot, now: int)

  function Next(records: Records, step: Step): Records {
    match step
    case Open(w, now) => Opened(records, w, now)
    case Move(w, next, p, now) => Transitioned(records, w, next, p, now)
    case Poll(w, seen, s, now) => Polled(records, w, seen, s, now)
  }

  function After(records: Records, steps: seq<Step>): Records
    decreases |steps|
  {
    if steps == [] then records else After(Next(records, steps[0]), steps[1..])
  }

  /** The step is a transition of this workflow that the table accepts. */
  predicate Succeeds(records: Records, step: Step, w: string) {
    match step
    case Open(_, _) => false
    case Move(v, next, _, _) => v == w && Accepts(records, w, next)
    case Poll(v, seen, s, _) => v == w && Advances(seen, s) && Accepts(records, w, ToLifecycle(s.status))
  }

  function Successes(records: Records, steps: seq<Step>, w: string): nat
    decreases |steps|
  {
    if steps == [] then 0
    else (if Succeeds(records, steps[0], w) then 1 else 0) + Successes(Next(records, steps[0]), steps[1..], w)
  }

  function Rank(s: Lifecycle): nat {
    match s
    case Registered => 0
    case Inspecting => 1
    case Binding => 2
    case Dispatching => 3
    case Executing => 4
    case Collecting => 5
    case Aggregating => 6
    case _ => 7
  }

  function RankOf(records: Records, w: string): nat {
    if w in records then Rank(records[w].status) else 0
  }

  lemma StepRaises(records: Records, step: Step, w: string)
    ensures w in records ==> w in Next(records, step)
    ensures Succeeds(records, step, w) ==> RankOf(Next(records, step), w) > RankOf(records, w)
    ensures !Succeeds(records, step, w) ==> RankOf(Next(records, step), w) == RankOf(records, w)
    ensures !Succeeds(records, step, w) && w in records ==> Next(records, step)[w] == records[w]
    ensures w in records && Terminal(records[w].status) ==> !Succeeds(records, step, w)
  {
    hide Patched, Truthy;
    if Succeeds(records, step, w) {
      var next := if step.Move? then step.next else ToLifecycle(step.snapshot.status);
      LegalRaises(records[w].status, next);
      PatchedStatus(records[w], next, if step.Move? then step.patch
        else NO_PATCH.(errorCode := step.snapshot.errorCode, finalOutputUri := step.snapshot.finalOutputUri), step.now);
    }
  }

  lemma LegalRaises(s: Lifecycle, next: Lifecycle)
    ensures next in LegalTransitions(s) ==> Rank(next) > Rank(s) && !Terminal(s)
  {
  }

  lemma PatchedStatus(r: Record, next: Lifecycle, p: Patch, now: int)
    ensures Patched(r, next, p, now).status == next
  {
  }

  /** Each successful transition raises the status: a workflow makes at most seven of them. */
  lemma {:induction false} AtMostSevenTransitions(records: Records, steps: seq<Step>, w: string)
    ensures w in records ==> w in After(records, steps)
    ensures RankOf(records, w) + Successes(records, steps, w) <= RankOf(After(records, steps), w) <= 7
    decreases |steps|
  {
    hide Next, Succeeds;
    if steps != [] {
      StepRaises(records, steps[0], w);
      AtMostSevenTransitions(Next(records, steps[0]), steps[1..], w);
    }
  }

  /** A terminal record never changes again, in any of its fields. */
  lemma {:induction false} TerminalIsFrozen(records: Records, steps: seq<Step>, w: string)
    requires w in records && Terminal(records[w].status)
    ensures w in After(records, steps) && After(records, steps)[w] == records[w]
    decreases |steps|
  {
    hide Next, Succeeds, Terminal;
    if steps != [] {
      StepRaises(records, steps[0], w);
      TerminalIsFrozen(Next(records, steps[0]), steps[1..], w);
    }
  }

  // ---------------------------------------------------------------- the table, read by target

  /** From which statuses each status can be reached in one transition. */
  lemma LegalExactly(s: Lifecycle, next: Lifecycle)
    ensures next in LegalTransitions(s) <==>
      match next
      case Registered => false
      case Inspecting => s == Registered
      case Binding => s in {Registered, Inspecting}
      case Dispatching => s in {Registered, Binding}
      case Executing => s == Dispatching
      case Collecting => s == Executing
      case Aggregating => s == Collecting
      case Rejected => s in {Registered, Inspecting, Binding}
      case Completed => s in {Dispatching, Executing, Collecting, Aggregating}
      case Cancelled => s in {Dispatching, Executing, Collecting, Aggregating}
      case Failed => s !in {Completed, Failed, Rejected, Cancelled}
  {
  }

  /** The status that a sidecar snapshot brings a workflow to; None where it changes nothing. */
  function Target(status: Lifecycle, snapshot: Sidecar.GraphStatus): Option<Lifecycle> {
    match (status, snapshot)
    case (Registered, Starting) => Some(Dispatching)
    case (Registered, Failed) => Some(Failed)
    case (Dispatching, WaitingRemote) => Some(Executing)
    case (Dispatching, Executing) => Some(Executing)
    case (Dispatching, Completed) => Some(Completed)
    case (Dispatching, Failed) => Some(Failed)
    case (Executing, Completed) => Some(Completed)
    case (Executing, Failed) => Some(Failed)
    case _ => None
  }

  /**
   * A poll that read the present status moves a registered, dispatching or executing workflow exactly as the table says:
   * it takes over the snapshot's error code and output, stamps the time, and keeps the rest.
   */
  lemma SnapshotMoves(records: Records, w: string, s: Snapshot, now: int)
    requires w in records && records[w].status in {Registered, Dispatching, Executing}
    ensures Polled(records, w, records[w].status, s, now) ==
      match Target(records[w].status, s.status)
      case Some(next) => records[w := records[w].(status := next, updatedAtMs := now,
                                   errorCode := if s.errorCode.Some? then s.errorCode else records[w].errorCode,
                                   finalOutputUri := if s.finalOutputUri.Some? then s.finalOutputUri else records[w].finalOutputUri)]
      case None => records
  {
  }

  /**
   * A poll whose snapshot maps to the status it had read changes nothing, whatever output or error code comes along,
   * because the workflow can only have risen since.
   */
  lemma SameStatusChangesNothing(records: Records, steps: seq<Step>, w: string, s: Snapshot, now: int)
    requires w in records && ToLifecycle(s.status) == records[w].status
    ensures Polled(After(records, steps), w, records[w].status, s, now) == After(records, steps)
  {
    hide After, LegalTransitions;
    AtMostSevenTransitions(records, steps, w);
    LegalRaises(After(records, steps)[w].status, records[w].status);
  }

  // ---------------------------------------------------------------- shelf life

  const DEFAULT_SHELF_LIFE_MS := 86_400_000.0

  /** The configured life when it is a finite positive number (None: it is not a finite number), else a day. */
  function ShelfLifeMs(parsed: Option<real>): real {
    if parsed.Some? && parsed.value > 0.0 then parsed.value else DEFAULT_SHELF_LIFE_MS
  }

  predicate IsShelfExpired(r: Record, now: int, parsed: Option<real>) {
    Terminal(r.status) && (now - r.updatedAtMs) as real > ShelfLifeMs(parsed)
  }

  /**
   * Under a monotone clock and a fixed configuration an expired result stays expired, whatever happens in between;
   * a finished workflow's result expires exactly when its life since the finishing transition has passed.
   */
  lemma ExpiryIsPermanent(records: Records, steps: seq<Step>, w: string, now: int, later: int, parsed: Option<real>)
    requires w in records && Terminal(records[w].status) && now <= later
    ensures w in After(records, steps)
    ensures IsShelfExpired(records[w], now, parsed) ==> IsShelfExpired(After(records, steps)[w], later, parsed)
    ensures IsShelfExpired(After(records, steps)[w], later, parsed) <==>
      later as real > records[w].updatedAtMs as real + ShelfLifeMs(parsed)
  {
    hide After, Terminal;
    TerminalIsFrozen(records, steps, w);
  }

  /** Without a usable configuration a finished workflow's result expires exactly when a day has passed. */
  lemma ExpiresAfterADay(r: Record, now: int, parsed: Option<real>)
    ensures parsed.None? || parsed.value <= 0.0 ==>
      (IsShelfExpired(r, now, parsed) <==>
         r.status in {Completed, Failed, Rejected, Cancelled} && now > r.updatedAtMs + 24 * 60 * 60 * 1000)
    ensures parsed.Some? && parsed.value > 0.0 ==>
      (IsShelfExpired(r, now, parsed) <==>
         r.status in {Completed, Failed, Rejected, Cancelled} && now as real > r.updatedAtMs as real + parsed.value)
  {
  }

  // ---------------------------------------------------------------- the dispatching transition and its rivals

  /** Snapshots of one run, taken in order, never ask for a lower status. */
  lemma SnapshotsNeverFallBack(r: Sidecar.Run, steps: seq<Sidecar.RunStep>)
    requires Sidecar.Consistent(r)
    ensures Rank(ToLifecycle(r.status)) <= Rank(ToLifecycle(Sidecar.AdvanceAll(r, steps).status))
  {
    hide Sidecar.AdvanceAll, Sidecar.Consistent;
    Sidecar.StatusOverRuns(r, steps);
  }

  /** What other routes and polls do while a submission waits: no route moves a workflow to inspecting or binding. */
  predicate IsRival(step: Step) {
    step.Move? ==> step.next !in {Inspecting, Binding}
  }

  predicate Rivals(steps: seq<Step>) {
    forall i :: 0 <= i < |steps| ==> IsRival(steps[i])
  }

  /** The rival moves the workflow on if it finds it registered: a rejection, a failure, a dispatch, or a poll that saw the run start or fail. */
  predicate Overtakes(step: Step, w: string) {
    match step
    case Open(_, _) => false
    case Move(v, next, _, _) => v == w && next in {Dispatching, Rejected, Failed}
    case Poll(v, seen, s, _) => v == w && Advances(seen, s) && s.status in {Sidecar.Starting, Sidecar.Failed}
  }

  predicate NoneOvertakes(steps: seq<Step>, w: string) {
    forall i :: 0 <= i < |steps| ==> !Overtakes(steps[i], w)
  }

  lemma OvertakingSucceeds(records: Records, step: Step, w: string)
    requires w in records && records[w].status == Registered && IsRival(step)
    ensures Succeeds(records, step, w) <==> Overtakes(step, w)
  {
    hide Advances;
  }

  /** A rival that succeeds takes a registered workflow past the statuses that lead to dispatching. */
  lemma RivalOvertakes(records: Records, step: Step, w: string)
    requires IsRival(step) && w in records && Succeeds(records, step, w)
    ensures RankOf(Next(records, step), w) >= 3
  {
    hide Patched, Truthy;
    StepRaises(records, step, w);
    var next := if step.Move? then step.next else ToLifecycle(step.snapshot.status);
    PatchedStatus(records[w], next, if step.Move? then step.patch
      else NO_PATCH.(errorCode := step.snapshot.errorCode, finalOutputUri := step.snapshot.finalOutputUri), step.now);
  }

  lemma {:induction false} RivalsBeforeDispatch(records: Records, rivals: seq<Step>, w: string)
    requires w in records && records[w].status == Registered && Rivals(rivals)
    ensures w in After(records, rivals)
    ensures NoneOvertakes(rivals, w) ==> After(records, rivals)[w] == records[w]
    ensures Accepts(After(records, rivals), w, Dispatching) <==> NoneOvertakes(rivals, w)
    decreases |rivals|
  {
    hide Next, Succeeds, Patched, Overtakes;
    if rivals != [] {
      var records' := Next(records, rivals[0]);
      StepRaises(records, rivals[0], w);
      OvertakingSucceeds(records, rivals[0], w);
      if Succeeds(records, rivals[0], w) {
        RivalOvertakes(records, rivals[0], w);
        AtMostSevenTransitions(records', rivals[1..], w);
        DispatchIsLate(After(records', rivals[1..]), w);
      } else {
        RivalsBeforeDispatch(records', rivals[1..], w);
      }
    }
  }

  lemma DispatchIsLate(records: Records, w: string)
    requires RankOf(records, w) >= 3
    ensures !Accepts(records, w, Dispatching)
  {
  }

  /**
   * A submission's own dispatching transition goes through, with its binding summary, if and only if no rival overtook
   * it while it waited for the sidecar. Otherwise the record is what the rivals made of it.
   */
  lemma BindingIsRecordedUnlessOvertaken(records: Records, rivals: seq<Step>, w: string, endpointId: string,
      nodeEndpoint: map<string, string>, now: int)
    requires w in records && records[w].status == Registered && Rivals(rivals)
    ensures var waited, patch := After(records, rivals), BindingPatch(endpointId, nodeEndpoint);
      var end := Next(waited, Move(w, Dispatching, patch, now));
      && w in waited && w in end
      && (Accepts(waited, w, Dispatching) <==> NoneOvertakes(rivals, w))
      && end[w] == if NoneOvertakes(rivals, w) then
           records[w].(status := Dispatching, updatedAtMs := now,
                       endpointId := if endpointId != "" then Some(endpointId) else records[w].endpointId,
                       bindings := if nodeEndpoint != map[] then Some(nodeEndpoint) else records[w].bindings)
         else waited[w]
  {
    hide After, LegalTransitions, NoneOvertakes;
    RivalsBeforeDispatch(records, rivals, w);
  }

  /** A poll between the sidecar's start and the route's transition drops the binding summary. */
  lemma PollDropsBinding(records: Records, w: string, endpointId: string, nodeEndpoint: map<string, string>, now: int)
    requires w !in records
    ensures var steps := [Open(w, now), Poll(w, Registered, Snapshot(Sidecar.Starting, None, None), now),
                          Move(w, Dispatching, BindingPatch(endpointId, nodeEndpoint), now)];
      w in After(records, steps) && After(records, steps)[w].status == Dispatching && After(records, steps)[w].bindings.None?
  {
    var poll, move := Poll(w, Registered, Snapshot(Sidecar.Starting, None, None), now),
                      Move(w, Dispatching, BindingPatch(endpointId, nodeEndpoint), now);
    ThreeSteps(records, Open(w, now), poll, move);
  }

  /**
   * A second submission of the same id passes the guard while the first waits for the sidecar; the sidecar refuses to
   * start the workflow twice, the second submission fails the workflow, and the first one's binding summary is dropped.
   */
  lemma SecondSubmissionDropsBinding(records: Records, w: string, endpointId: string, nodeEndpoint: map<string, string>, now: int)
    requires w !in records
    ensures var steps := [Open(w, now), Move(w, Failed, NO_PATCH.(errorCode := Some("E_INTERNAL")), now),
                          Move(w, Dispatching, BindingPatch(endpointId, nodeEndpoint), now)];
      w in After(records, steps) && After(records, steps)[w].status == Failed && After(records, steps)[w].bindings.None?
  {
    var fail, move := Move(w, Failed, NO_PATCH.(errorCode := Some("E_INTERNAL")), now),
                      Move(w, Dispatching, BindingPatch(endpointId, nodeEndpoint), now);
    ThreeSteps(records, Open(w, now), fail, move);
  }

  lemma ThreeSteps(records: Records, a: Step, b: Step, c: Step)
    ensures After(records, [a, b, c]) == Next(Next(Next(records, a), b), c)
  {
    hide Next;
    AfterAppend(records, [a, b], c);
    AfterAppend(records, [a], b);
    AfterAppend(records, [], a);
    assert [] + [a] == [a] && [a] + [b] == [a, b] && [a, b] + [c] == [a, b, c];
  }

  lemma {:induction false} AfterAppend(records: Records, steps: seq<Step>, last: Step)
    ensures After(records, steps + [last]) == Next(After(records, steps), last)
    decreases |steps|
  {
    hide Next;
    if steps == [] {
      assert [last][1..] == [];
    } else {
      AfterAppend(Next(records, steps[0]), steps[1..], last);
      assert (steps + [last])[1..] == steps[1..] + [last];
    }
  }
}
