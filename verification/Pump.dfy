/**
 * The dispatch and recovery protocol as a transition system (`dispatch-pump.ts`, wired in `instrumentation.ts`).
 * One pending task at a time is read, gated, sent and marked; reports, expiries, publications and restarts
 * interleave freely. Polls do not overlap, and store writes take effect at once.
 */
module Pump {
  import opened Js
  import Scheduler
  import opened TaskAccount

  const DEFAULT_ENDPOINT := "default-endpoint"

  datatype Pending = Pending(
    taskId: string, workflowId: string, nodeId: string, modelKey: string, inputUri: string, outputUri: string,
    priority: Priority, dispatchedAtMs: int)

  /** How far the poll has got with one pending task. */
  datatype Cursor =
    | Idle
    | Gating(p: Pending, endpointId: string, known: bool)
    | Sending(p: Pending, endpointId: string)
    | Delivered(p: Pending, endpointId: string)

  type Counter = map<string, nat>

  /**
   * The live ledger with both kinds of durable copy, the poll cursor and the published bindings.
   * The counters record history: transport successes, resets (reassignments and recovery resets), those recovery
   * resets that found the task already put back by an earlier recovery, deliveries whose mark a crash lost, the
   * endpoint of the latest push, and the tasks ever reassigned.
   */
  datatype State = State(
    entries: Entries, memory: Entries, postgres: Entries, cursor: Cursor, bindings: map<string, map<string, string>>,
    pushes: Counter, resets: Counter, repeats: Counter, lost: Counter, lastPush: map<string, string>, moved: set<string>)

  datatype Step =
    | Publish(workflowId: string, nodeEndpoint: map<string, string>)
    | Read(p: Pending)
    | Gate(allowed: bool)
    | Send(ok: bool)
    | Mark
    | Report(taskId: string)
    | Expire(dead: string, candidates: seq<Scheduler.Endpoint>, clock: string -> int)
    | Restart(fromPostgres: bool)

  const INITIAL := State(map[], map[], map[], Idle, map[], map[], map[], map[], map[], map[], {})

  // ---------------------------------------------------------------- task ids

  predicate ColonFree(s: string) {
    ':' !in s
  }

  function TaskId(workflowId: string, nodeId: string): string {
    workflowId + ":" + nodeId
  }

  /** The sidecar's task id names one node of one workflow, because workflow ids hold no colon. */
  lemma TaskIdInjective(w: string, n: string, w': string, n': string)
    requires ColonFree(w) && ColonFree(w') && TaskId(w, n) == TaskId(w', n')
    ensures w == w' && n == n'
  {
    var s := TaskId(w, n);
    assert s[|w|] == ':' && s[|w'|] == ':';
    assert forall i :: 0 <= i < |w| ==> s[i] == w[i] && s[i] != ':';
    assert forall i :: 0 <= i < |w'| ==> s[i] == w'[i] && s[i] != ':';
    assert w == s[..|w|] && w' == s[..|w'|];
    assert n == s[|w| + 1..] && n' == s[|w'| + 1..];
  }

  predicate FromSidecar(p: Pending) {
    ColonFree(p.workflowId) && p.taskId == TaskId(p.workflowId, p.nodeId)
  }

  // ---------------------------------------------------------------- steps

  function At(c: Counter, t: string): nat {
    if t in c then c[t] else 0
  }

  function Add(c: Counter, t: string): Counter {
    c[t := At(c, t) + 1]
  }

  function AddAll(c: Counter, ts: set<string>): Counter {
    map t | t in c.Keys + ts :: At(c, t) + if t in ts then 1 else 0
  }

  /** The ledger's endpoint for a known task; else the published binding; else the default endpoint. */
  function Resolve(s: State, p: Pending): string {
    if p.taskId in s.entries then s.entries[p.taskId].endpointId
    else if p.workflowId in s.bindings && p.nodeId in s.bindings[p.workflowId] then s.bindings[p.workflowId][p.nodeId]
    else DEFAULT_ENDPOINT
  }

  function NewEntry(p: Pending, endpointId: string): Entry {
    Entry(p.taskId, RequestId(endpointId, p.taskId), p.workflowId, p.nodeId, p.modelKey, p.inputUri, p.outputUri,
          p.priority, p.dispatchedAtMs, endpointId, false, false)
  }

  /** Both stores take the present entry of every given task. */
  function PersistAll(s: State, entries: Entries, ts: set<string>): State {
    s.(entries := entries, memory := WriteAll(false, s.memory, entries, ts), postgres := WriteAll(true, s.postgres, entries, ts))
  }

  function WriteAll(postgres: bool, rows: Entries, entries: Entries, ts: set<string>): Entries {
    map t | t in rows.Keys + ts * entries.Keys ::
      if t in ts * entries.Keys then
        if postgres && t in rows then Update(rows[t], entries[t]) else entries[t]
      else rows[t]
  }

  /** The row after a partial update. */
  function Update(row: Entry, e: Entry): Entry {
    row.(requestId := e.requestId, endpointId := e.endpointId, priority := e.priority,
         dispatchedAtMs := e.dispatchedAtMs, pushed := e.pushed, reported := e.reported)
  }

  /** A bulk write of one task is the store's own write. */
  lemma WriteAllIsPut(postgres: bool, rows: Entries, entries: Entries, t: string)
    requires t in entries && entries[t].taskId == t
    ensures WriteAll(postgres, rows, entries, {t}) == Put(postgres, rows, entries[t])
  {
  }

  /** Steps that may happen: polls do not overlap, and pending tasks belong to nodes that a published binding covers. */
  predicate Enabled(s: State, step: Step) {
    match step
    case Publish(w, nodeEndpoint) => w !in s.bindings
    case Read(p) => s.cursor.Idle? && FromSidecar(p) && (p.workflowId in s.bindings ==> p.nodeId in s.bindings[p.workflowId])
    case Gate(allowed) => s.cursor.Gating?
    case Send(_) => s.cursor.Sending?
    case Mark => s.cursor.Delivered?
    case Report(_) => true
    case Expire(_, _, _) => true
    case Restart(_) => true
  }

  predicate Skips(entries: Entries, t: string) {
    t in entries && entries[t].pushed
  }

  /** A pushed task is skipped; any other one goes to the gate with the endpoint it resolves to. */
  function AfterRead(s: State, p: Pending): State {
    if Skips(s.entries, p.taskId) then s else s.(cursor := Gating(p, Resolve(s, p), p.taskId in s.entries))
  }

  /** Behind an open gate a new task is recorded; a closed gate records nothing. */
  function AfterGate(s: State, allowed: bool): State
    requires s.cursor.Gating?
  {
    var c := s.cursor;
    if !allowed then s.(cursor := Idle)
    else if c.known then s.(cursor := Sending(c.p, c.endpointId))
    else if c.p.taskId in s.entries then s.(cursor := Idle)
    else PersistAll(s, Recorded(s.entries, NewEntry(c.p, c.endpointId)), {c.p.taskId}).(cursor := Sending(c.p, c.endpointId))
  }

  function AfterSend(s: State, ok: bool): State
    requires s.cursor.Sending?
  {
    var c := s.cursor;
    if !ok then s.(cursor := Idle)
    else s.(cursor := Delivered(c.p, c.endpointId), pushes := Add(s.pushes, c.p.taskId), lastPush := s.lastPush[c.p.taskId := c.endpointId])
  }

  function AfterMark(s: State): State
    requires s.cursor.Delivered?
  {
    PersistAll(s, PushMarked(s.entries, s.cursor.p.taskId), {s.cursor.p.taskId}).(cursor := Idle)
  }

  function AfterReport(s: State, t: string): State {
    if t in s.entries && !s.entries[t].reported then PersistAll(s, ReportMarked(s.entries, t), {t}) else s
  }

  function Dying(entries: Entries, dead: string, candidates: seq<Scheduler.Endpoint>): set<string> {
    set t | t in entries && MovesAway(entries[t], dead, candidates)
  }

  function AfterExpire(s: State, dead: string, candidates: seq<Scheduler.Endpoint>, clock: string -> int): State {
    var ts := Dying(s.entries, dead, candidates);
    PersistAll(s, ReassignInFlight(s.entries, dead, candidates, clock), ts).(resets := AddAll(s.resets, ts), moved := s.moved + ts)
  }

  function Flying(entries: Entries): set<string> {
    set t | t in entries && InFlight(entries[t])
  }

  /**
   * A crash loses memory and the poll; startup hydrates, resets what it read as in flight, and only then attaches
   * the store, so the reset is not written and a later recovery may read the task as in flight again.
   */
  function AfterRestart(s: State, fromPostgres: bool): State {
    var hydrated := Hydrated(map[], if fromPostgres then s.postgres else s.memory);
    s.(entries := ResetInFlight(hydrated), cursor := Idle,
       resets := AddAll(s.resets, Flying(hydrated)), repeats := AddAll(s.repeats, Flying(hydrated) - Flying(s.entries)),
       lost := if s.cursor.Delivered? then Add(s.lost, s.cursor.p.taskId) else s.lost)
  }

  function Next(s: State, step: Step): State
    requires Enabled(s, step)
  {
    match step
    case Publish(w, nodeEndpoint) => s.(bindings := s.bindings[w := nodeEndpoint])
    case Read(p) => AfterRead(s, p)
    case Gate(allowed) => AfterGate(s, allowed)
    case Send(ok) => AfterSend(s, ok)
    case Mark => AfterMark(s)
    case Report(t) => AfterReport(s, t)
    case Expire(dead, candidates, clock) => AfterExpire(s, dead, candidates, clock)
    case Restart(fromPostgres) => AfterRestart(s, fromPostgres)
  }

  // ---------------------------------------------------------------- invariant

  /** Task ids name their node, and the request id is always the digest for the present endpoint. */
  ghost predicate Keyed(entries: Entries) {
    forall t :: t in entries ==>
      var e := entries[t];
      && e.taskId == t && ColonFree(e.workflowId) && t == TaskId(e.workflowId, e.nodeId)
      && e.requestId == RequestId(e.endpointId, t)
  }

  /** The durable row is the live entry, unless recovery put the task back and nothing was written since. */
  ghost predicate InStep(row: Entry, e: Entry) {
    row == e || (InFlight(row) && e == ResetEntry(row))
  }

  ghost predicate Synced(entries: Entries, rows: Entries) {
    rows.Keys == entries.Keys && forall t :: t in entries ==> InStep(rows[t], entries[t])
  }

  /** The task in hand is unpushed in the ledger, at the endpoint that the poll resolved. */
  ghost predicate InHand(entries: Entries, p: Pending, endpointId: string) {
    p.taskId in entries && !entries[p.taskId].pushed && entries[p.taskId].endpointId == endpointId
  }

  ghost predicate CursorOk(entries: Entries, cursor: Cursor, bindings: map<string, map<string, string>>, lastPush: map<string, string>) {
    match cursor
    case Idle => true
    case Gating(p, endpointId, known) =>
      && FromSidecar(p)
      && if known then InHand(entries, p, endpointId)
         else p.taskId !in entries && (endpointId == DEFAULT_ENDPOINT || Bound(bindings, p.workflowId, p.nodeId, endpointId))
    case Sending(p, endpointId) => InHand(entries, p, endpointId)
    case Delivered(p, endpointId) => InHand(entries, p, endpointId) && p.taskId in lastPush && lastPush[p.taskId] == endpointId
  }

  ghost predicate Bound(bindings: map<string, map<string, string>>, workflowId: string, nodeId: string, endpointId: string) {
    workflowId in bindings && nodeId in bindings[workflowId] && bindings[workflowId][nodeId] == endpointId
  }

  function Delivering(c: Cursor, t: string): nat {
    if c.Delivered? && c.p.taskId == t then 1 else 0
  }

  function PushedNow(entries: Entries, t: string): nat {
    if t in entries && entries[t].pushed then 1 else 0
  }

  /** Every transport success is undone, lost to a crash, marked, or about to be marked. */
  ghost predicate Accounted(entries: Entries, cursor: Cursor, pushes: Counter, resets: Counter, repeats: Counter, lost: Counter) {
    forall t :: At(pushes, t) + At(repeats, t) == At(resets, t) + At(lost, t) + PushedNow(entries, t) + Delivering(cursor, t)
  }

  /** A pushed task's ledger endpoint is the one that got the latest push. */
  ghost predicate PushedWhereLedgerSays(entries: Entries, lastPush: map<string, string>) {
    forall t :: t in entries && entries[t].pushed ==> t in lastPush && lastPush[t] == entries[t].endpointId
  }

  ghost predicate Inv(s: State) {
    && Keyed(s.entries) && Synced(s.entries, s.memory) && s.memory == s.postgres
    && CursorOk(s.entries, s.cursor, s.bindings, s.lastPush)
    && Accounted(s.entries, s.cursor, s.pushes, s.resets, s.repeats, s.lost)
    && PushedWhereLedgerSays(s.entries, s.lastPush)
  }

  /** The gate never opens for the default endpoint, because nothing registers under it. */
  predicate NoDefault(s: State, step: Step) {
    step.Gate? && step.allowed && s.cursor.Gating? ==> s.cursor.known || s.cursor.endpointId != DEFAULT_ENDPOINT
  }

  // ---------------------------------------------------------------- writing both stores

  /** Both stores stay equal and in step with the ledger when exactly the changed entries are written. */
  lemma PersistSyncs(entries: Entries, entries': Entries, memory: Entries, postgres: Entries, ts: set<string>)
    requires Synced(entries, memory) && memory == postgres
    requires entries'.Keys == entries.Keys + ts
    requires forall t :: t in entries && t !in ts ==> entries'[t] == entries[t]
    requires forall t :: t in entries && t in ts ==> SameIdentity(entries[t], entries'[t])
    ensures WriteAll(false, memory, entries', ts) == WriteAll(true, postgres, entries', ts)
    ensures Synced(entries', WriteAll(false, memory, entries', ts))
  {
    hide ResetEntry, InFlight;
    forall t | t in ts && t in postgres ensures Update(postgres[t], entries'[t]) == entries'[t] {
      assert t in entries;
      UpdateOfSynced(memory[t], entries[t], entries'[t]);
    }
  }

  lemma UpdateOfSynced(row: Entry, e: Entry, e': Entry)
    requires InStep(row, e) && SameIdentity(e, e')
    ensures Update(row, e') == e'
  {
  }

  // ---------------------------------------------------------------- preservation, part by part

  lemma MarkEntries(entries: Entries, p: Pending, endpointId: string, bindings: map<string, map<string, string>>, lastPush: map<string, string>)
    requires Keyed(entries) && PushedWhereLedgerSays(entries, lastPush)
    requires CursorOk(entries, Delivered(p, endpointId), bindings, lastPush)
    ensures Keyed(PushMarked(entries, p.taskId)) && PushedWhereLedgerSays(PushMarked(entries, p.taskId), lastPush)
  {
  }

  lemma MarkAccounts(entries: Entries, p: Pending, endpointId: string, pushes: Counter, resets: Counter, repeats: Counter, lost: Counter)
    requires Accounted(entries, Delivered(p, endpointId), pushes, resets, repeats, lost) && InHand(entries, p, endpointId)
    ensures Accounted(PushMarked(entries, p.taskId), Idle, pushes, resets, repeats, lost)
  {
    var entries' := PushMarked(entries, p.taskId);
    forall t ensures At(pushes, t) + At(repeats, t) == At(resets, t) + At(lost, t) + PushedNow(entries', t) + Delivering(Idle, t) {
      assert PushedNow(entries', t) == PushedNow(entries, t) + Delivering(Delivered(p, endpointId), t);
    }
  }

  lemma ReportEntries(entries: Entries, t: string, cursor: Cursor, bindings: map<string, map<string, string>>, lastPush: map<string, string>)
    requires Keyed(entries) && PushedWhereLedgerSays(entries, lastPush) && CursorOk(entries, cursor, bindings, lastPush)
    ensures var entries' := ReportMarked(entries, t);
      Keyed(entries') && PushedWhereLedgerSays(entries', lastPush) && CursorOk(entries', cursor, bindings, lastPush)
  {
  }

  lemma SamePushedAccounts(entries: Entries, entries': Entries, cursor: Cursor,
      pushes: Counter, resets: Counter, repeats: Counter, lost: Counter)
    requires Accounted(entries, cursor, pushes, resets, repeats, lost)
    requires forall t :: PushedNow(entries', t) == PushedNow(entries, t)
    ensures Accounted(entries', cursor, pushes, resets, repeats, lost)
  {
  }

  lemma RecordEntries(entries: Entries, p: Pending, endpointId: string, lastPush: map<string, string>)
    requires Keyed(entries) && PushedWhereLedgerSays(entries, lastPush) && FromSidecar(p) && p.taskId !in entries
    ensures var entries' := Recorded(entries, NewEntry(p, endpointId));
      && Keyed(entries') && PushedWhereLedgerSays(entries', lastPush) && InHand(entries', p, endpointId)
      && forall t :: PushedNow(entries', t) == PushedNow(entries, t)
  {
  }

  lemma SendAccounts(entries: Entries, p: Pending, endpointId: string, pushes: Counter, resets: Counter, repeats: Counter, lost: Counter)
    requires Accounted(entries, Sending(p, endpointId), pushes, resets, repeats, lost)
    ensures Accounted(entries, Delivered(p, endpointId), Add(pushes, p.taskId), resets, repeats, lost)
  {
    forall t ensures At(Add(pushes, p.taskId), t) + At(repeats, t) ==
      At(resets, t) + At(lost, t) + PushedNow(entries, t) + Delivering(Delivered(p, endpointId), t)
    {
      assert At(Add(pushes, p.taskId), t) == At(pushes, t) + if t == p.taskId then 1 else 0;
    }
  }

  lemma SendEntries(entries: Entries, p: Pending, endpointId: string, lastPush: map<string, string>)
    requires PushedWhereLedgerSays(entries, lastPush) && InHand(entries, p, endpointId)
    ensures PushedWhereLedgerSays(entries, lastPush[p.taskId := endpointId])
  {
  }

  lemma ResetAccounts(entries: Entries, entries': Entries, ts: set<string>, cursor: Cursor,
      pushes: Counter, resets: Counter, repeats: Counter, lost: Counter)
    requires Accounted(entries, cursor, pushes, resets, repeats, lost)
    requires forall t :: PushedNow(entries, t) == PushedNow(entries', t) + if t in ts then 1 else 0
    ensures Accounted(entries', cursor, pushes, AddAll(resets, ts), repeats, lost)
  {
    forall t ensures At(pushes, t) + At(repeats, t) == At(AddAll(resets, ts), t) + At(lost, t) + PushedNow(entries', t) + Delivering(cursor, t) {
      assert At(AddAll(resets, ts), t) == At(resets, t) + if t in ts then 1 else 0;
    }
  }

  /** Resets of tasks that were put back already count on both sides. */
  lemma RepeatAccounts(entries: Entries, rows: set<string>, ts: set<string>, cursor: Cursor,
      pushes: Counter, resets: Counter, repeats: Counter, lost: Counter)
    requires ts <= rows && Accounted(entries, cursor, pushes, AddAll(resets, ts), repeats, lost)
    ensures Accounted(entries, cursor, pushes, AddAll(resets, rows), AddAll(repeats, rows - ts), lost)
  {
    forall t ensures At(AddAll(resets, rows), t) - At(AddAll(resets, ts), t) == At(AddAll(repeats, rows - ts), t) - At(repeats, t) {
      AddedAt(resets, rows, t);
      AddedAt(resets, ts, t);
      AddedAt(repeats, rows - ts, t);
    }
  }

  lemma AddedAt(c: Counter, ts: set<string>, t: string)
    ensures At(AddAll(c, ts), t) == At(c, t) + if t in ts then 1 else 0
  {
  }

  lemma LoseDelivery(entries: Entries, cursor: Cursor, pushes: Counter, resets: Counter, repeats: Counter, lost: Counter)
    requires Accounted(entries, cursor, pushes, resets, repeats, lost)
    ensures Accounted(entries, Idle, pushes, resets, repeats, if cursor.Delivered? then Add(lost, cursor.p.taskId) else lost)
  {
    var lost' := if cursor.Delivered? then Add(lost, cursor.p.taskId) else lost;
    forall t ensures At(pushes, t) + At(repeats, t) == At(resets, t) + At(lost', t) + PushedNow(entries, t) + Delivering(Idle, t) {
      assert At(lost', t) == At(lost, t) + Delivering(cursor, t);
    }
  }

  /** A dead endpoint's tasks: keyed anew where they go, untouched otherwise, and never the task in hand. */
  lemma ExpireEntries(entries: Entries, dead: string, candidates: seq<Scheduler.Endpoint>, clock: string -> int, cursor: Cursor,
      bindings: map<string, map<string, string>>, lastPush: map<string, string>)
    requires Keyed(entries) && PushedWhereLedgerSays(entries, lastPush) && CursorOk(entries, cursor, bindings, lastPush)
    ensures var entries' := ReassignInFlight(entries, dead, candidates, clock);
      Keyed(entries') && PushedWhereLedgerSays(entries', lastPush) && CursorOk(entries', cursor, bindings, lastPush)
  {
    hide Alternative, MovesAway, AfterDeath, Moved;
    forall t | t in entries ensures
      var e, e' := entries[t], AfterDeath(entries[t], dead, candidates, clock);
      SameIdentity(e, e') && (e' == e || (e.pushed && !e'.pushed && e'.requestId == RequestId(e'.endpointId, t)))
    {
      AfterDeathKeeps(entries[t], dead, candidates, clock);
    }
  }

  lemma AfterDeathKeeps(e: Entry, dead: string, candidates: seq<Scheduler.Endpoint>, clock: string -> int)
    ensures var e' := AfterDeath(e, dead, candidates, clock);
      && SameIdentity(e, e')
      && if MovesAway(e, dead, candidates) then e.pushed && !e'.pushed && e'.requestId == RequestId(e'.endpointId, e.taskId) else e' == e
  {
  }

  lemma ExpirePushed(entries: Entries, dead: string, candidates: seq<Scheduler.Endpoint>, clock: string -> int)
    ensures var ts := Dying(entries, dead, candidates);
      forall t :: PushedNow(entries, t) == PushedNow(ReassignInFlight(entries, dead, candidates, clock), t) + if t in ts then 1 else 0
  {
    hide Alternative, MovesAway, AfterDeath;
    forall t | t in entries { AfterDeathKeeps(entries[t], dead, candidates, clock); }
  }

  lemma ResetEntriesKeep(entries: Entries, lastPush: map<string, string>)
    requires Keyed(entries) && PushedWhereLedgerSays(entries, lastPush)
    ensures Keyed(ResetInFlight(entries)) && PushedWhereLedgerSays(ResetInFlight(entries), lastPush)
    ensures var ts := Flying(entries);
      forall t :: PushedNow(entries, t) == PushedNow(ResetInFlight(entries), t) + if t in ts then 1 else 0
  {
  }

  lemma SyncedReset(entries: Entries, rows: Entries)
    requires Synced(entries, rows)
    ensures ResetInFlight(Hydrated(map[], rows)) == ResetInFlight(entries)
    ensures Synced(ResetInFlight(entries), rows)
    ensures Hydrated(map[], rows) == rows && Flying(entries) <= Flying(rows)
  {
    assert Hydrated(map[], rows) == rows;
  }

  // ---------------------------------------------------------------- preservation, step by step

  lemma CursorKeeps(s: State, cursor: Cursor)
    requires Inv(s) && !s.cursor.Delivered? && !cursor.Delivered? && CursorOk(s.entries, cursor, s.bindings, s.lastPush)
    ensures Inv(s.(cursor := cursor))
  {
    hide Keyed, Synced, Accounted, PushedWhereLedgerSays, CursorOk;
    CursorMoves(s.entries, s.cursor, cursor, s.pushes, s.resets, s.repeats, s.lost);
  }

  lemma RecordKeeps(s: State)
    requires Inv(s) && s.cursor.Gating? && !s.cursor.known
    ensures Inv(AfterGate(s, true))
  {
    hide Keyed, Synced, Accounted, PushedWhereLedgerSays, WriteAll, Recorded, NewEntry;
    var c := s.cursor;
    var entries' := Recorded(s.entries, NewEntry(c.p, c.endpointId));
    RecordEntries(s.entries, c.p, c.endpointId, s.lastPush);
    SamePushedAccounts(s.entries, entries', c, s.pushes, s.resets, s.repeats, s.lost);
    CursorMoves(entries', c, Sending(c.p, c.endpointId), s.pushes, s.resets, s.repeats, s.lost);
    RecordSyncs(s.entries, c.p, c.endpointId, s.memory, s.postgres);
  }

  lemma GateKeeps(s: State, allowed: bool)
    requires Inv(s) && Enabled(s, Gate(allowed))
    ensures Inv(Next(s, Gate(allowed)))
  {
    hide Inv, AfterRead, AfterSend, AfterMark, AfterReport, AfterExpire, AfterRestart;
    if allowed && !s.cursor.known {
      RecordKeeps(s);
    } else {
      GateCursor(s, allowed);
      CursorKeeps(s, AfterGate(s, allowed).cursor);
    }
  }

  lemma GateCursor(s: State, allowed: bool)
    requires Inv(s) && s.cursor.Gating? && (!allowed || s.cursor.known)
    ensures var c := AfterGate(s, allowed).cursor;
      !c.Delivered? && CursorOk(s.entries, c, s.bindings, s.lastPush) && AfterGate(s, allowed) == s.(cursor := c)
  {
    hide Keyed, Synced, Accounted, PushedWhereLedgerSays;
  }

  lemma CursorMoves(entries: Entries, cursor: Cursor, cursor': Cursor, pushes: Counter, resets: Counter, repeats: Counter, lost: Counter)
    ensures Accounted(entries, cursor, pushes, resets, repeats, lost) && !cursor.Delivered? && !cursor'.Delivered? ==>
      Accounted(entries, cursor', pushes, resets, repeats, lost)
  {
    if Accounted(entries, cursor, pushes, resets, repeats, lost) && !cursor.Delivered? && !cursor'.Delivered? {
      forall t ensures At(pushes, t) + At(repeats, t) == At(resets, t) + At(lost, t) + PushedNow(entries, t) + Delivering(cursor', t) {
        assert Delivering(cursor', t) == Delivering(cursor, t);
      }
    }
  }

  lemma RecordSyncs(entries: Entries, p: Pending, endpointId: string, memory: Entries, postgres: Entries)
    requires Synced(entries, memory) && memory == postgres && p.taskId !in entries
    ensures var entries' := Recorded(entries, NewEntry(p, endpointId));
      && WriteAll(false, memory, entries', {p.taskId}) == WriteAll(true, postgres, entries', {p.taskId})
      && Synced(entries', WriteAll(false, memory, entries', {p.taskId}))
  {
    hide WriteAll, Synced;
    PersistSyncs(entries, Recorded(entries, NewEntry(p, endpointId)), memory, postgres, {p.taskId});
  }

  lemma MarkKeeps(s: State)
    requires Inv(s) && Enabled(s, Mark)
    ensures Inv(Next(s, Mark))
  {
    hide Keyed, Synced, Accounted, PushedWhereLedgerSays, WriteAll;
    var t := s.cursor.p.taskId;
    PersistSyncs(s.entries, PushMarked(s.entries, t), s.memory, s.postgres, {t});
    MarkEntries(s.entries, s.cursor.p, s.cursor.endpointId, s.bindings, s.lastPush);
    MarkAccounts(s.entries, s.cursor.p, s.cursor.endpointId, s.pushes, s.resets, s.repeats, s.lost);
  }

  lemma SendKeeps(s: State, ok: bool)
    requires Inv(s) && Enabled(s, Send(ok))
    ensures Inv(Next(s, Send(ok)))
  {
    hide Keyed, Synced, Accounted, PushedWhereLedgerSays, Add;
    SendAccounts(s.entries, s.cursor.p, s.cursor.endpointId, s.pushes, s.resets, s.repeats, s.lost);
    SendEntries(s.entries, s.cursor.p, s.cursor.endpointId, s.lastPush);
    CursorMoves(s.entries, s.cursor, Idle, s.pushes, s.resets, s.repeats, s.lost);
  }

  lemma ReadKeeps(s: State, p: Pending)
    requires Inv(s) && Enabled(s, Read(p))
    ensures Inv(Next(s, Read(p)))
  {
    hide Keyed, Synced, Accounted, PushedWhereLedgerSays;
    CursorKeeps(s, AfterRead(s, p).cursor);
  }

  lemma ReportKeeps(s: State, t: string)
    requires Inv(s)
    ensures Inv(Next(s, Report(t)))
  {
    hide Keyed, Synced, Accounted, PushedWhereLedgerSays, CursorOk, WriteAll;
    if t in s.entries {
      PersistSyncs(s.entries, ReportMarked(s.entries, t), s.memory, s.postgres, {t});
      ReportEntries(s.entries, t, s.cursor, s.bindings, s.lastPush);
      SamePushedAccounts(s.entries, ReportMarked(s.entries, t), s.cursor, s.pushes, s.resets, s.repeats, s.lost);
    }
  }

  lemma ExpireKeeps(s: State, dead: string, candidates: seq<Scheduler.Endpoint>, clock: string -> int)
    requires Inv(s)
    ensures Inv(Next(s, Expire(dead, candidates, clock)))
  {
    hide Keyed, Synced, Accounted, PushedWhereLedgerSays, CursorOk, WriteAll, AfterDeath, MovesAway, AddAll;
    var ts := Dying(s.entries, dead, candidates);
    var entries' := ReassignInFlight(s.entries, dead, candidates, clock);
    forall t | t in s.entries { AfterDeathKeeps(s.entries[t], dead, candidates, clock); }
    PersistSyncs(s.entries, entries', s.memory, s.postgres, ts);
    ExpireEntries(s.entries, dead, candidates, clock, s.cursor, s.bindings, s.lastPush);
    ExpirePushed(s.entries, dead, candidates, clock);
    ResetAccounts(s.entries, entries', ts, s.cursor, s.pushes, s.resets, s.repeats, s.lost);
  }

  /** Recovery from either store yields what the recovery reset would make of the live ledger. */
  lemma RecoveryIsReset(s: State, fromPostgres: bool)
    requires Inv(s)
    ensures Next(s, Restart(fromPostgres)).entries == ResetInFlight(s.entries)
  {
    hide Keyed, Accounted, PushedWhereLedgerSays, CursorOk, ResetInFlight, Hydrated, AddAll;
    SyncedReset(s.entries, s.memory);
  }

  lemma RestartKeeps(s: State, fromPostgres: bool)
    requires Inv(s)
    ensures Inv(Next(s, Restart(fromPostgres)))
  {
    hide Keyed, Synced, Accounted, PushedWhereLedgerSays, ResetInFlight, Hydrated, AddAll, Add;
    var ts, rows := Flying(s.entries), Flying(s.memory);
    RecoveryIsReset(s, fromPostgres);
    SyncedReset(s.entries, s.memory);
    ResetEntriesKeep(s.entries, s.lastPush);
    ResetAccounts(s.entries, ResetInFlight(s.entries), ts, s.cursor, s.pushes, s.resets, s.repeats, s.lost);
    RepeatAccounts(ResetInFlight(s.entries), rows, ts, s.cursor, s.pushes, s.resets, s.repeats, s.lost);
    LoseDelivery(ResetInFlight(s.entries), s.cursor, s.pushes, AddAll(s.resets, rows), AddAll(s.repeats, rows - ts), s.lost);
  }

  lemma PublishKeeps(s: State, w: string, nodeEndpoint: map<string, string>)
    requires Inv(s) && Enabled(s, Publish(w, nodeEndpoint))
    ensures Inv(Next(s, Publish(w, nodeEndpoint)))
  {
    hide Keyed, Synced, Accounted, PushedWhereLedgerSays;
  }

  lemma StepKeeps(s: State, step: Step)
    requires Inv(s) && Enabled(s, step)
    ensures Inv(Next(s, step))
  {
    hide Inv, Next;
    match step
    case Publish(w, nodeEndpoint) => PublishKeeps(s, w, nodeEndpoint);
    case Read(p) => ReadKeeps(s, p);
    case Gate(allowed) => GateKeeps(s, allowed);
    case Send(ok) => SendKeeps(s, ok);
    case Mark => MarkKeeps(s);
    case Report(t) => ReportKeeps(s, t);
    case Expire(dead, candidates, clock) => ExpireKeeps(s, dead, candidates, clock);
    case Restart(fromPostgres) => RestartKeeps(s, fromPostgres);
  }

  // ---------------------------------------------------------------- whole runs

  ghost predicate IsRun(s: State, steps: seq<Step>)
    decreases |steps|
  {
    steps == [] || (Enabled(s, steps[0]) && IsRun(Next(s, steps[0]), steps[1..]))
  }

  function After(s: State, steps: seq<Step>): State
    requires IsRun(s, steps)
    decreases |steps|
  {
    if steps == [] then s else After(Next(s, steps[0]), steps[1..])
  }

  lemma {:induction false} InvOverRuns(s: State, steps: seq<Step>)
    requires Inv(s) && IsRun(s, steps)
    ensures Inv(After(s, steps))
    decreases |steps|
  {
    hide Inv, Next, Enabled;
    if steps != [] {
      StepKeeps(s, steps[0]);
      InvOverRuns(Next(s, steps[0]), steps[1..]);
    }
  }

  lemma InitialInv()
    ensures Inv(INITIAL)
  {
  }

  /**
   * Push accounting in every reachable state, crashes included: the transport successes of a task, and its repeated
   * recovery resets, are its resets, its deliveries whose mark a crash lost, and one more if it is pushed or about to
   * be marked; and the ledger always says where the latest push went and under which request id.
   */
  lemma PushAccounting(steps: seq<Step>, t: string)
    requires IsRun(INITIAL, steps)
    ensures var s := After(INITIAL, steps);
      && At(s.pushes, t) + At(s.repeats, t) == At(s.resets, t) + At(s.lost, t) + PushedNow(s.entries, t) + Delivering(s.cursor, t)
      && (t in s.entries ==> s.entries[t].requestId == RequestId(s.entries[t].endpointId, t))
      && (t in s.entries && s.entries[t].pushed ==> t in s.lastPush && s.lastPush[t] == s.entries[t].endpointId)
  {
    InitialInv();
    InvOverRuns(INITIAL, steps);
  }

  /** In every reachable state both kinds of store hold the same rows, and recovery from either resets the live ledger. */
  lemma StoresAgreeAndRecover(steps: seq<Step>, fromPostgres: bool)
    requires IsRun(INITIAL, steps)
    ensures var s := After(INITIAL, steps);
      && s.memory == s.postgres
      && Next(s, Restart(fromPostgres)).entries == ResetInFlight(s.entries)
  {
    InitialInv();
    InvOverRuns(INITIAL, steps);
    RecoveryIsReset(After(INITIAL, steps), fromPostgres);
  }

  /** Crashing again straight after recovery changes nothing more. */
  lemma RecoveryIsIdempotent(steps: seq<Step>, first: bool, second: bool)
    requires IsRun(INITIAL, steps)
    ensures var s := Next(After(INITIAL, steps), Restart(first));
      Next(s, Restart(second)).entries == s.entries
  {
    hide Inv, Next;
    InitialInv();
    InvOverRuns(INITIAL, steps);
    var s0 := After(INITIAL, steps);
    RecoveryIsReset(s0, first);
    RestartKeeps(s0, first);
    RecoveryIsReset(Next(s0, Restart(first)), second);
    ResetTwice(s0.entries);
  }

  lemma ResetTwice(entries: Entries)
    ensures ResetInFlight(ResetInFlight(entries)) == ResetInFlight(entries)
  {
  }

  /** A task, once reported, stays recorded and reported. */
  ghost predicate IsReported(s: State, t: string) {
    t in s.entries && s.entries[t].reported
  }

  /** Recorded tasks stay, keep their identity and their reports, and change place, priority and time only by reassignment. */
  ghost predicate Evolves(before: Entries, after: Entries, moved: set<string>) {
    forall t :: t in before ==>
      && t in after && SameIdentity(before[t], after[t])
      && (before[t].reported ==> after[t].reported)
      && (t in moved || SamePlace(before[t], after[t]))
  }

  predicate SamePlace(a: Entry, b: Entry) {
    a.endpointId == b.endpointId && a.priority == b.priority && a.dispatchedAtMs == b.dispatchedAtMs
  }

  lemma Stays(entries: Entries, moved: set<string>)
    ensures Evolves(entries, entries, moved)
  {
  }

  lemma ExpireEvolves(entries: Entries, dead: string, candidates: seq<Scheduler.Endpoint>, clock: string -> int, moved: set<string>)
    ensures Evolves(entries, ReassignInFlight(entries, dead, candidates, clock),
                    moved + Dying(entries, dead, candidates))
  {
    hide Alternative;
  }

  /** What any step does to the recorded tasks; nothing but a first record adds one. */
  ghost predicate Effect(s: State, s': State, step: Step) {
    && Evolves(s.entries, s'.entries, s'.moved) && s.moved <= s'.moved
    && (forall w :: w in s.bindings ==> w in s'.bindings && s'.bindings[w] == s.bindings[w])
    && forall t :: t in s'.entries && t !in s.entries ==>
         && step == Gate(true) && s.cursor.Gating? && !s.cursor.known && t == s.cursor.p.taskId
         && s'.entries[t] == NewEntry(s.cursor.p, s.cursor.endpointId)
  }

  lemma GateKeepsLedger(s: State, allowed: bool)
    requires s.cursor.Gating? && (!allowed || s.cursor.known || s.cursor.p.taskId in s.entries)
    ensures var s' := AfterGate(s, allowed);
      s'.entries == s.entries && s'.moved == s.moved && s'.bindings == s.bindings && s'.pushes == s.pushes
      && s'.resets == s.resets && s'.repeats == s.repeats && s'.lost == s.lost
  {
  }

  lemma GateRecords(s: State)
    requires s.cursor.Gating? && !s.cursor.known && s.cursor.p.taskId !in s.entries
    ensures var s', e := AfterGate(s, true), NewEntry(s.cursor.p, s.cursor.endpointId);
      s'.entries == Recorded(s.entries, e) && s'.moved == s.moved && s'.bindings == s.bindings && s'.pushes == s.pushes
      && s'.resets == s.resets && s'.repeats == s.repeats && s'.lost == s.lost
  {
    hide WriteAll, Recorded, NewEntry;
  }

  lemma GateEffect(s: State, allowed: bool)
    requires Enabled(s, Gate(allowed))
    ensures Effect(s, Next(s, Gate(allowed)), Gate(allowed))
  {
    hide AfterGate, Evolves, NewEntry, AfterRead, AfterSend, AfterMark, AfterReport, AfterExpire, AfterRestart;
    if !allowed || s.cursor.known || s.cursor.p.taskId in s.entries {
      GateKeepsLedger(s, allowed);
      SameLedger(s, AfterGate(s, allowed), Gate(allowed));
    } else {
      GateRecords(s);
      NewEntryIs(s.cursor.p, s.cursor.endpointId);
      RecordEvolves(s.entries, NewEntry(s.cursor.p, s.cursor.endpointId), s.moved);
    }
  }

  lemma NewEntryIs(p: Pending, endpointId: string)
    ensures var e := NewEntry(p, endpointId); e.taskId == p.taskId && e.(pushed := false, reported := false) == e
  {
  }

  lemma ExpireEffect(s: State, dead: string, candidates: seq<Scheduler.Endpoint>, clock: string -> int)
    ensures Effect(s, Next(s, Expire(dead, candidates, clock)), Expire(dead, candidates, clock))
  {
    hide WriteAll, Evolves, ReassignInFlight, MovesAway, AddAll;
    ExpireEvolves(s.entries, dead, candidates, clock, s.moved);
    SameKeys(s.entries, dead, candidates, clock);
  }

  lemma RestartEffect(s: State, fromPostgres: bool)
    requires Inv(s)
    ensures Effect(s, Next(s, Restart(fromPostgres)), Restart(fromPostgres))
  {
    hide Inv, Evolves, ResetInFlight, Hydrated, AddAll, Add;
    RecoveryIsReset(s, fromPostgres);
    ResetEvolves(s.entries, s.moved);
  }

  lemma MarkEffect(s: State, step: Step)
    requires Enabled(s, step) && (step.Mark? || step.Report?)
    ensures Effect(s, Next(s, step), step)
  {
    hide WriteAll, Evolves, PushMarked, ReportMarked, AfterRead, AfterSend, AfterGate, AfterExpire, AfterRestart;
    Stays(s.entries, s.moved);
    MarksEvolve(s.entries, if step.Mark? then s.cursor.p.taskId else step.taskId, s.moved);
  }

  lemma SameLedger(s: State, s': State, step: Step)
    requires s'.entries == s.entries && s'.moved == s.moved
    requires forall w :: w in s.bindings ==> w in s'.bindings && s'.bindings[w] == s.bindings[w]
    ensures Effect(s, s', step)
  {
    hide Evolves;
    Stays(s.entries, s.moved);
  }

  lemma ReadKeepsLedger(s: State, p: Pending)
    ensures var s' := AfterRead(s, p); s'.entries == s.entries && s'.moved == s.moved && s'.bindings == s.bindings
  {
    hide Resolve, Skips;
    if !Skips(s.entries, p.taskId) {
      var s' := s.(cursor := Gating(p, Resolve(s, p), p.taskId in s.entries));
      assert AfterRead(s, p) == s';
    }
  }

  lemma ReadEffect(s: State, p: Pending)
    ensures Effect(s, AfterRead(s, p), Read(p))
  {
    hide Effect, AfterRead;
    ReadKeepsLedger(s, p);
    SameLedger(s, AfterRead(s, p), Read(p));
  }

  lemma SendEffect(s: State, ok: bool)
    requires s.cursor.Sending?
    ensures Effect(s, AfterSend(s, ok), Send(ok))
  {
    hide Effect, Add;
    SameLedger(s, AfterSend(s, ok), Send(ok));
  }

  lemma PublishEffect(s: State, w: string, nodeEndpoint: map<string, string>)
    requires w !in s.bindings
    ensures Effect(s, s.(bindings := s.bindings[w := nodeEndpoint]), Publish(w, nodeEndpoint))
  {
    hide Effect;
    SameLedger(s, s.(bindings := s.bindings[w := nodeEndpoint]), Publish(w, nodeEndpoint));
  }

  lemma StepEvolves(s: State, step: Step)
    requires Inv(s) && Enabled(s, step)
    ensures Effect(s, Next(s, step), step)
  {
    hide Inv, Effect, AfterRead, AfterSend, AfterGate, AfterMark, AfterReport, AfterExpire, AfterRestart;
    match step
    case Publish(w, nodeEndpoint) => PublishEffect(s, w, nodeEndpoint);
    case Read(p) => ReadEffect(s, p);
    case Send(ok) => SendEffect(s, ok);
    case Gate(allowed) => GateEffect(s, allowed);
    case Expire(dead, candidates, clock) => ExpireEffect(s, dead, candidates, clock);
    case Restart(fromPostgres) => RestartEffect(s, fromPostgres);
    case Mark => MarkEffect(s, step);
    case Report(_) => MarkEffect(s, step);
  }

  lemma SameKeys(entries: Entries, dead: string, candidates: seq<Scheduler.Endpoint>, clock: string -> int)
    ensures ReassignInFlight(entries, dead, candidates, clock).Keys == entries.Keys
  {
  }

  lemma ResetEvolves(entries: Entries, moved: set<string>)
    ensures Evolves(entries, ResetInFlight(entries), moved) && ResetInFlight(entries).Keys == entries.Keys
  {
  }

  lemma MarksEvolve(entries: Entries, t: string, moved: set<string>)
    ensures Evolves(entries, PushMarked(entries, t), moved) && PushMarked(entries, t).Keys == entries.Keys
    ensures Evolves(entries, ReportMarked(entries, t), moved) && ReportMarked(entries, t).Keys == entries.Keys
  {
  }

  lemma RecordEvolves(entries: Entries, e: Entry, moved: set<string>)
    ensures Evolves(entries, Recorded(entries, e), moved)
  {
  }

  lemma StepKeepsReports(s: State, step: Step, t: string)
    requires Inv(s) && Enabled(s, step) && IsReported(s, t)
    ensures IsReported(Next(s, step), t)
  {
    hide Inv, Next, Enabled;
    StepEvolves(s, step);
  }

  lemma {:induction false} ReportsAreForever(s: State, steps: seq<Step>, t: string)
    requires Inv(s) && IsRun(s, steps) && IsReported(s, t)
    ensures IsReported(After(s, steps), t)
    decreases |steps|
  {
    hide Inv, Next, Enabled, IsReported;
    if steps != [] {
      StepKeeps(s, steps[0]);
      StepKeepsReports(s, steps[0], t);
      ReportsAreForever(Next(s, steps[0]), steps[1..], t);
    }
  }

  // ---------------------------------------------------------------- binding drift

  ghost predicate DefaultClosed(s: State, steps: seq<Step>)
    requires IsRun(s, steps)
    decreases |steps|
  {
    steps == [] || (NoDefault(s, steps[0]) && DefaultClosed(Next(s, steps[0]), steps[1..]))
  }

  ghost predicate UndriftedEntries(entries: Entries, moved: set<string>, bindings: map<string, map<string, string>>) {
    forall t :: t in entries && t !in moved ==> Bound(bindings, entries[t].workflowId, entries[t].nodeId, entries[t].endpointId)
  }

  lemma RoutesKept(entries: Entries, entries': Entries, moved: set<string>, moved': set<string>,
      bindings: map<string, map<string, string>>, bindings': map<string, map<string, string>>)
    requires UndriftedEntries(entries, moved, bindings) && Evolves(entries, entries', moved') && moved <= moved'
    requires forall w :: w in bindings ==> w in bindings' && bindings'[w] == bindings[w]
    requires forall t :: t in entries' && t !in entries ==> Bound(bindings', entries'[t].workflowId, entries'[t].nodeId, entries'[t].endpointId)
    ensures UndriftedEntries(entries', moved', bindings')
  {
  }

  /** A task's first record goes where its published binding says. */
  lemma FirstRecordIsBound(s: State)
    requires Inv(s) && Enabled(s, Gate(true)) && NoDefault(s, Gate(true)) && !s.cursor.known
    ensures Bound(s.bindings, s.cursor.p.workflowId, s.cursor.p.nodeId, s.cursor.endpointId)
  {
    hide Keyed, Synced, Accounted, PushedWhereLedgerSays;
  }

  lemma StepKeepsRoutes(s: State, step: Step)
    requires Inv(s) && UndriftedEntries(s.entries, s.moved, s.bindings) && Enabled(s, step) && NoDefault(s, step)
    ensures var s' := Next(s, step); UndriftedEntries(s'.entries, s'.moved, s'.bindings)
  {
    hide Inv, UndriftedEntries, PersistAll, Recorded;
    StepEvolves(s, step);
    var s' := Next(s, step);
    if step == Gate(true) && !s.cursor.known { FirstRecordIsBound(s); }
    RoutesKept(s.entries, s'.entries, s.moved, s'.moved, s.bindings, s'.bindings);
  }

  lemma {:induction false} RoutesOverRuns(s: State, steps: seq<Step>)
    requires Inv(s) && UndriftedEntries(s.entries, s.moved, s.bindings) && IsRun(s, steps) && DefaultClosed(s, steps)
    ensures var e := After(s, steps); UndriftedEntries(e.entries, e.moved, e.bindings)
    decreases |steps|
  {
    hide Inv, Next, Enabled, UndriftedEntries, NoDefault;
    if steps != [] {
      StepKeeps(s, steps[0]);
      StepKeepsRoutes(s, steps[0]);
      RoutesOverRuns(Next(s, steps[0]), steps[1..]);
    }
  }

  /**
   * As long as the gate stays closed for the default endpoint, every recorded task sits at the endpoint its
   * published binding names, from its first record to its first reassignment, however polls and publication interleave.
   */
  lemma NoBindingDrift(steps: seq<Step>, t: string)
    requires IsRun(INITIAL, steps) && DefaultClosed(INITIAL, steps)
    ensures var s := After(INITIAL, steps);
      t in s.entries && t !in s.moved ==> Bound(s.bindings, s.entries[t].workflowId, s.entries[t].nodeId, s.entries[t].endpointId)
  {
    InitialInv();
    RoutesOverRuns(INITIAL, steps);
  }
}
