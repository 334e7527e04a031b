/** The control plane's task ledger and its durable copy (`dispatch-pump.ts`, `ledger-store.ts`). */
module TaskAccount {
  import opened Js
  import Inspection
  import Scheduler

  /** The digest of an endpoint id and a task id, kept symbolic. */
  datatype RequestId = RequestId(endpointId: string, taskId: string)

  datatype Priority = Normal | Compensation

  datatype Entry = Entry(
    taskId: string, requestId: RequestId, workflowId: string, nodeId: string, modelKey: string, inputKey: string, outputKey: string,
    priority: Priority, dispatchedAtMs: int, endpointId: string, pushed: bool, reported: bool)

  type Entries = map<string, Entry>

  predicate InFlight(e: Entry) {
    e.pushed && !e.reported
  }

  // ---------------------------------------------------------------- specification of the ledger

  function Recorded(entries: Entries, e: Entry): Entries {
    if e.taskId in entries then entries else entries[e.taskId := e.(pushed := false, reported := false)]
  }

  function PushMarked(entries: Entries, t: string): Entries {
    if t in entries then entries[t := entries[t].(pushed := true)] else entries
  }

  function ReportMarked(entries: Entries, t: string): Entries {
    if t in entries then entries[t := entries[t].(reported := true)] else entries
  }

  function Moved(e: Entry, endpointId: string, now: int): Entry {
    e.(endpointId := endpointId, priority := Compensation, pushed := false, dispatchedAtMs := now,
       requestId := RequestId(endpointId, e.taskId))
  }

  function ResetEntry(e: Entry): Entry {
    if InFlight(e) then e.(pushed := false) else e
  }

  function ResetInFlight(entries: Entries): Entries {
    map t | t in entries :: ResetEntry(entries[t])
  }

  /** Stored entries, except where memory already has one. */
  function Hydrated(entries: Entries, stored: Entries): Entries {
    stored + entries
  }

  // ---------------------------------------------------------------- specification of the stores

  /** The in-memory store replaces the whole entry. */
  function Overwrite(rows: Entries, e: Entry): Entries {
    rows[e.taskId := e]
  }

  /** The Postgres store inserts a new row in full, but updates only the mutable columns of an existing one. */
  function Upsert(rows: Entries, e: Entry): Entries {
    if e.taskId in rows then
      rows[e.taskId := rows[e.taskId].(requestId := e.requestId, endpointId := e.endpointId, priority := e.priority,
                                       dispatchedAtMs := e.dispatchedAtMs, pushed := e.pushed, reported := e.reported)]
    else rows[e.taskId := e]
  }

  /** The columns that an update leaves alone. */
  predicate SameIdentity(a: Entry, b: Entry) {
    && a.taskId == b.taskId && a.workflowId == b.workflowId && a.nodeId == b.nodeId
    && a.modelKey == b.modelKey && a.inputKey == b.inputKey && a.outputKey == b.outputKey
  }

  /** The partial update is a full overwrite exactly when the row it meets agrees on the columns it leaves alone. */
  lemma UpsertIsOverwrite(rows: Entries, e: Entry)
    ensures Upsert(rows, e) == Overwrite(rows, e) <==> (e.taskId in rows ==> SameIdentity(rows[e.taskId], e))
  {
    if e.taskId in rows {
      assert Upsert(rows, e)[e.taskId] == Overwrite(rows, e)[e.taskId] <==> SameIdentity(rows[e.taskId], e);
    }
  }

  function Put(postgres: bool, rows: Entries, e: Entry): Entries {
    if postgres then Upsert(rows, e) else Overwrite(rows, e)
  }

  /** The store got the present entry of every moved task, and nothing else. */
  ghost predicate WrittenThrough(postgres: bool, before: Entries, after: Entries, entries: Entries, moved: set<string>) {
    && moved <= entries.Keys && after.Keys == before.Keys + moved
    && (forall t :: t in moved ==> entries[t].taskId == t && after[t] == Put(postgres, before, entries[t])[t])
    && (forall t :: t in before && t !in moved ==> after[t] == before[t])
  }

  lemma WriteOne(postgres: bool, before: Entries, rows: Entries, entries: Entries, entries': Entries, moved: set<string>, t: string)
    requires WrittenThrough(postgres, before, rows, entries, moved) && t !in moved
    requires entries'.Keys == entries.Keys && t in entries' && entries'[t].taskId == t
    requires forall x :: x in entries && x != t ==> entries'[x] == entries[x]
    ensures WrittenThrough(postgres, before, Put(postgres, rows, entries'[t]), entries', moved + {t})
  {
  }

  /** The moved entries have reached their target, the others are untouched. */
  ghost predicate Mapped(before: Entries, entries: Entries, target: Entries, moved: set<string>) {
    && before.Keys == entries.Keys == target.Keys && moved <= before.Keys
    && forall t :: t in entries ==> entries[t] == if t in moved then target[t] else before[t]
  }

  lemma MapOne(before: Entries, entries: Entries, entries': Entries, target: Entries, moved: set<string>, t: string)
    requires Mapped(before, entries, target, moved) && t in target && t in entries
    requires entries' == entries[t := target[t]]
    ensures Mapped(before, entries', target, moved + {t})
  {
  }

  // ---------------------------------------------------------------- reassignment

  predicate HasRoom(e: Scheduler.Endpoint, modelKey: string) {
    exists i :: 0 <= i < |e.models| && e.models[i].modelKey == modelKey && e.models[i].queueRemaining >= 1
  }

  function FirstWithRoom(alive: seq<Scheduler.Endpoint>, modelKey: string): Option<Scheduler.Endpoint> {
    if alive == [] then None
    else if HasRoom(alive[0], modelKey) then Some(alive[0])
    else FirstWithRoom(alive[1..], modelKey)
  }

  function Others(candidates: seq<Scheduler.Endpoint>, dead: string): seq<Scheduler.Endpoint> {
    if candidates == [] then []
    else (if candidates[0].endpointId != dead then [candidates[0]] else []) + Others(candidates[1..], dead)
  }

  /** Where a dead endpoint's task for this model goes, if anywhere. */
  function Alternative(candidates: seq<Scheduler.Endpoint>, dead: string, modelKey: string): Option<Scheduler.Endpoint> {
    FirstWithRoom(Scheduler.SortByCapacity(Others(candidates, dead)), modelKey)
  }

  /** One entry after its endpoint is declared dead; `clock` is the time read for each moved task. */
  function AfterDeath(e: Entry, dead: string, candidates: seq<Scheduler.Endpoint>, clock: string -> int): Entry {
    if e.endpointId == dead && InFlight(e) then
      match Alternative(candidates, dead, e.modelKey)
      case Some(alt) => Moved(e, alt.endpointId, clock(e.taskId))
      case None => e
    else e
  }

  function ReassignInFlight(entries: Entries, dead: string, candidates: seq<Scheduler.Endpoint>, clock: string -> int): Entries {
    map t | t in entries :: AfterDeath(entries[t], dead, candidates, clock)
  }

  /** The task is in flight at the dead endpoint and some live endpoint has room for it. */
  predicate MovesAway(e: Entry, dead: string, candidates: seq<Scheduler.Endpoint>) {
    e.endpointId == dead && InFlight(e) && Alternative(candidates, dead, e.modelKey).Some?
  }

  lemma ResetOf(e: Entry)
    ensures ResetEntry(e) == if InFlight(e) then e.(pushed := false) else e
  {
  }

  lemma AfterDeathOf(e: Entry, dead: string, candidates: seq<Scheduler.Endpoint>, clock: string -> int)
    ensures MovesAway(e, dead, candidates) ==>
      AfterDeath(e, dead, candidates, clock) == Moved(e, Alternative(candidates, dead, e.modelKey).value.endpointId, clock(e.taskId))
    ensures MovesAway(e, dead, candidates) <==> e.endpointId == dead && InFlight(e) && Alternative(candidates, dead, e.modelKey).Some?
    ensures !MovesAway(e, dead, candidates) ==> AfterDeath(e, dead, candidates, clock) == e
    ensures Alternative(candidates, dead, e.modelKey) == FirstWithRoom(Scheduler.SortByCapacity(Others(candidates, dead)), e.modelKey)
  {
  }

  lemma {:induction false} DistinctCount(ids: seq<string>)
    requires forall i, j :: 0 <= i < j < |ids| ==> ids[i] != ids[j]
    ensures |set t | t in ids| == |ids|
  {
    if ids != [] {
      var n := |ids| - 1;
      DistinctCount(ids[..n]);
      assert (set t | t in ids) == (set t | t in ids[..n]) + {ids[n]};
    }
  }

  predicate Eligible(e: Scheduler.Endpoint, dead: string, modelKey: string) {
    e.endpointId != dead && HasRoom(e, modelKey)
  }

  /** Position k holds the best endpoint other than the dead one: most capacity, then earliest among the candidates. */
  ghost predicate IsBestAlternative(candidates: seq<Scheduler.Endpoint>, dead: string, modelKey: string, k: nat) {
    && k < |candidates| && Eligible(candidates[k], dead, modelKey)
    && forall j :: 0 <= j < |candidates| && Eligible(candidates[j], dead, modelKey) ==>
         var a, b := Scheduler.Capacity(candidates[j].models), Scheduler.Capacity(candidates[k].models);
         a < b || (a == b && k <= j)
  }

  lemma {:induction false} FirstWithRoomAfterInsert(e: Scheduler.Endpoint, s: seq<Scheduler.Endpoint>, modelKey: string)
    requires Scheduler.Descending(s)
    ensures FirstWithRoom(Scheduler.InsertByCapacity(e, s), modelKey) ==
      match FirstWithRoom(s, modelKey)
      case None => if HasRoom(e, modelKey) then Some(e) else None
      case Some(f) =>
        if HasRoom(e, modelKey) && Scheduler.Capacity(f.models) <= Scheduler.Capacity(e.models) then Some(e) else Some(f)
  {
    hide HasRoom, Scheduler.Capacity;
    if s == [] {
      assert [e][1..] == [];
    } else if Scheduler.Capacity(s[0].models) <= Scheduler.Capacity(e.models) {
      assert ([e] + s)[1..] == s;
      FirstWithRoomAmong(s, modelKey);
    } else {
      FirstWithRoomAfterInsert(e, s[1..], modelKey);
      assert ([s[0]] + Scheduler.InsertByCapacity(e, s[1..]))[1..] == Scheduler.InsertByCapacity(e, s[1..]);
    }
  }

  lemma {:induction false} FirstWithRoomAmong(s: seq<Scheduler.Endpoint>, modelKey: string)
    ensures FirstWithRoom(s, modelKey).Some? ==> FirstWithRoom(s, modelKey).value in s
  {
    if s != [] { FirstWithRoomAmong(s[1..], modelKey); }
  }

  lemma BestStep(candidates: seq<Scheduler.Endpoint>, dead: string, modelKey: string, k: nat)
    requires candidates != [] && IsBestAlternative(candidates[1..], dead, modelKey, k)
    ensures
      if Eligible(candidates[0], dead, modelKey)
         && Scheduler.Capacity(candidates[k + 1].models) <= Scheduler.Capacity(candidates[0].models)
      then IsBestAlternative(candidates, dead, modelKey, 0)
      else IsBestAlternative(candidates, dead, modelKey, k + 1)
  {
    hide Eligible, Scheduler.Capacity;
    forall j | 0 < j < |candidates| ensures candidates[j] == candidates[1..][j - 1] {
    }
  }

  /**
   * The chosen alternative is alive, has room for the model and the most capacity among such endpoints, ties going to
   * the earliest; none is chosen only if nobody else has room.
   */
  lemma {:induction false} AlternativeIsBest(candidates: seq<Scheduler.Endpoint>, dead: string, modelKey: string)
    ensures match Alternative(candidates, dead, modelKey)
      case Some(alt) => exists k: nat :: IsBestAlternative(candidates, dead, modelKey, k) && candidates[k] == alt
      case None => forall e :: e in candidates ==> !Eligible(e, dead, modelKey)
  {
    if candidates != [] {
      hide HasRoom, Scheduler.Capacity, Scheduler.InsertByCapacity, FirstWithRoom;
      var c, rest := candidates[0], candidates[1..];
      var sorted := Scheduler.SortByCapacity(Others(rest, dead));
      AlternativeIsBest(rest, dead, modelKey);
      Scheduler.SortIsDescending(Others(rest, dead));
      FirstWithRoomAfterInsert(c, sorted, modelKey);
      if c.endpointId != dead {
        assert Others(candidates, dead) == [c] + Others(rest, dead);
        assert ([c] + Others(rest, dead))[1..] == Others(rest, dead);
      } else {
        assert Others(candidates, dead) == Others(rest, dead);
      }
      if Alternative(rest, dead, modelKey).Some? {
        var k: nat :| IsBestAlternative(rest, dead, modelKey, k) && rest[k] == Alternative(rest, dead, modelKey).value;
        BestStep(candidates, dead, modelKey, k);
      } else if Eligible(c, dead, modelKey) {
        assert IsBestAlternative(candidates, dead, modelKey, 0);
      }
    } else {
      assert Scheduler.SortByCapacity(Others(candidates, dead)) == [];
    }
  }

  // ---------------------------------------------------------------- the objects

  class LedgerStore {
    const postgres: bool
    var tasks: Entries

    constructor (postgres: bool)
      ensures this.postgres == postgres && tasks == map[]
    {
      this.postgres, tasks := postgres, map[];
    }

    method PutTask(e: Entry)
      modifies this
      ensures tasks == Put(postgres, old(tasks), e)
    {
      if !postgres || e.taskId !in tasks {
        tasks := tasks[e.taskId := e];
      } else {
        var row := tasks[e.taskId];
        tasks := tasks[e.taskId := row.(requestId := e.requestId, endpointId := e.endpointId, priority := e.priority,
                                        dispatchedAtMs := e.dispatchedAtMs, pushed := e.pushed, reported := e.reported)];
      }
    }
  }

  /** The in-memory ledger with its write-through store. Entries are values here. */
  class Account {
    var entries: Entries
    /** Task ids in insertion order. */
    var order: seq<string>
    var store: LedgerStore?

    ghost predicate Valid()
      reads this
    {
      && (forall t :: t in entries <==> t in order)
      && (forall i, j :: 0 <= i < j < |order| ==> order[i] != order[j])
      && (forall t :: t in entries ==> entries[t].taskId == t)
    }

    constructor ()
      ensures Valid() && entries == map[] && store == null
    {
      entries, order, store := map[], [], null;
    }

    method AttachStore(s: LedgerStore)
      requires Valid()
      modifies this
      ensures Valid() && store == s && entries == old(entries)
    {
      store := s;
    }

    method Persist(e: Entry)
      modifies store
      ensures store != null ==> store.tasks == Put(store.postgres, old(store.tasks), e)
    {
      if store != null {
        store.PutTask(e);
      }
    }

    method Insert(e: Entry)
      requires Valid() && e.taskId !in entries
      modifies this`entries, this`order
      ensures Valid() && entries == old(entries)[e.taskId := e]
    {
      entries := entries[e.taskId := e];
      order := order + [e.taskId];
    }

    /** Startup: take every stored task that memory does not have yet. */
    method Hydrate(s: LedgerStore, rows: seq<string>)
      requires Valid() && (forall t :: t in rows <==> t in s.tasks) && forall t :: t in s.tasks ==> s.tasks[t].taskId == t
      modifies this
      ensures Valid() && store == old(store)
      ensures entries == Hydrated(old(entries), s.tasks)
    {
      for i := 0 to |rows|
        invariant Valid() && store == old(store)
        invariant forall t :: t in entries <==> t in old(entries) || t in rows[..i]
        invariant forall t :: t in entries ==> entries[t] == if t in old(entries) then old(entries)[t] else s.tasks[t]
      {
        assert rows[i] in rows;
        if rows[i] !in entries {
          Insert(s.tasks[rows[i]]);
        }
      }
      assert rows[..|rows|] == rows;
    }

    method Record(e: Entry) returns (added: bool)
      requires Valid()
      modifies this, store
      ensures Valid() && store == old(store) && added == (e.taskId !in old(entries))
      ensures entries == Recorded(old(entries), e)
      ensures store != null ==> store.tasks == if added then Put(store.postgres, old(store.tasks), entries[e.taskId]) else old(store.tasks)
    {
      if e.taskId in entries {
        return false;
      }
      var full := e.(pushed := false, reported := false);
      Insert(full);
      Persist(full);
      return true;
    }

    method MarkReported(t: string) returns (first: bool)
      requires Valid()
      modifies this, store
      ensures Valid() && store == old(store) && first == (t in old(entries) && !old(entries)[t].reported)
      ensures entries == ReportMarked(old(entries), t)
      ensures store != null ==> store.tasks == if first then Put(store.postgres, old(store.tasks), entries[t]) else old(store.tasks)
    {
      if t !in entries || entries[t].reported {
        assert t in entries ==> entries[t := entries[t].(reported := true)] == entries;
        return false;
      }
      entries := entries[t := entries[t].(reported := true)];
      Persist(entries[t]);
      return true;
    }

    method MarkPushed(t: string)
      requires Valid()
      modifies this, store
      ensures Valid() && store == old(store) && entries == PushMarked(old(entries), t)
      ensures store != null ==> store.tasks == if t in entries then Put(store.postgres, old(store.tasks), entries[t]) else old(store.tasks)
    {
      if t in entries {
        entries := entries[t := entries[t].(pushed := true)];
        Persist(entries[t]);
      }
    }

    method Reassign(t: string, endpointId: string, now: int)
      requires Valid()
      modifies this, store
      ensures Valid() && store == old(store) && order == old(order)
      ensures entries == if t in old(entries) then old(entries)[t := Moved(old(entries)[t], endpointId, now)] else old(entries)
      ensures store != null ==> store.tasks == if t in entries then Put(store.postgres, old(store.tasks), entries[t]) else old(store.tasks)
    {
      if t in entries {
        entries := entries[t := Moved(entries[t], endpointId, now)];
        Persist(entries[t]);
      }
    }

    /** Ids of an endpoint's pushed, unreported tasks. */
    method ListInFlight(endpointId: string) returns (ids: seq<string>)
      requires Valid()
      ensures forall t :: t in ids <==> t in entries && entries[t].endpointId == endpointId && InFlight(entries[t])
      ensures forall i, j :: 0 <= i < j < |ids| ==> ids[i] != ids[j]
    {
      ids := [];
      for i := 0 to |order|
        invariant forall t :: t in ids <==> t in order[..i] && entries[t].endpointId == endpointId && InFlight(entries[t])
        invariant forall i, j :: 0 <= i < j < |ids| ==> ids[i] != ids[j]
      {
        assert order[i] in order;
        var e := entries[order[i]];
        if e.endpointId == endpointId && e.pushed && !e.reported {
          ids := ids + [order[i]];
        }
      }
      assert order[..|order|] == order;
    }

    method ListInFlightForRecovery() returns (ids: seq<string>)
      requires Valid()
      ensures forall t :: t in ids <==> t in entries && InFlight(entries[t])
      ensures forall i, j :: 0 <= i < j < |ids| ==> ids[i] != ids[j]
    {
      ids := [];
      for i := 0 to |order|
        invariant forall t :: t in ids <==> t in order[..i] && InFlight(entries[t])
        invariant forall i, j :: 0 <= i < j < |ids| ==> ids[i] != ids[j]
      {
        assert order[i] in order;
        var e := entries[order[i]];
        if e.pushed && !e.reported {
          ids := ids + [order[i]];
        }
      }
      assert order[..|order|] == order;
    }

    /** The stored rows; none when no store is attached. */
    ghost function Rows(): Entries
      reads this, store
    {
      if store == null then map[] else store.tasks
    }

    /** The moved tasks have their target entries, in memory and in the store, and no other task has changed. */
    ghost predicate MovedSoFar(before: Entries, stored: Entries, target: Entries, moved: set<string>)
      reads this, store
    {
      Mapped(before, entries, target, moved) && (store != null ==> WrittenThrough(store.postgres, stored, store.tasks, entries, moved))
    }

    lemma NothingMoved(target: Entries)
      requires entries.Keys == target.Keys
      ensures MovedSoFar(entries, Rows(), target, {})
    {
    }

    /** Replace one entry in memory and write it through. */
    method Replace(t: string, e: Entry, ghost before: Entries, ghost stored: Entries, ghost target: Entries, ghost moved: set<string>)
      requires Valid() && MovedSoFar(before, stored, target, moved)
      requires t in entries && t !in moved && t in target && e == target[t] && e.taskId == t
      modifies this, store
      ensures Valid() && store == old(store) && order == old(order)
      ensures MovedSoFar(before, stored, target, moved + {t})
    {
      hide WrittenThrough, Mapped, Put;
      ghost var entries0, rows0 := entries, Rows();
      entries := entries[t := e];
      Persist(e);
      MapOne(before, entries0, entries, target, moved, t);
      if store != null {
        WriteOne(store.postgres, stored, rows0, entries0, entries, moved, t);
      }
    }

    /** Put every in-flight task back to unpushed; the number of tasks put back is returned. */
    method ResetInFlightForRecovery() returns (reset: nat)
      requires Valid()
      modifies this, store
      ensures Valid() && store == old(store) && entries == ResetInFlight(old(entries))
      ensures reset == |set t | t in old(entries) && InFlight(old(entries)[t])|
      ensures MovedSoFar(old(entries), old(Rows()), ResetInFlight(old(entries)), set t | t in old(entries) && InFlight(old(entries)[t]))
    {
      hide MovedSoFar, ResetEntry;
      ghost var before, stored, target := entries, Rows(), ResetInFlight(entries);
      ghost var moved: set<string> := {};
      var ids := ListInFlightForRecovery();
      NothingMoved(target);
      for i := 0 to |ids|
        invariant Valid() && store == old(store) && MovedSoFar(before, stored, target, moved)
        invariant forall t :: t in moved <==> t in ids[..i]
      {
        var t := ids[i];
        assert t in ids && t !in moved;
        Untouched(before, stored, target, moved, t);
        ResetOf(entries[t]);
        Replace(t, entries[t].(pushed := false), before, stored, target, moved);
        moved := moved + {t};
      }
      assert ids[..|ids|] == ids;
      DistinctCount(ids);
      assert moved == set t | t in ids;
      assert moved == set t | t in before && InFlight(before[t]);
      forall t | t in before ensures t !in moved ==> target[t] == before[t] { ResetOf(before[t]); }
      Finished(before, stored, target, moved);
      reset := |ids|;
    }

    lemma Untouched(before: Entries, stored: Entries, target: Entries, moved: set<string>, t: string)
      requires MovedSoFar(before, stored, target, moved) && t in before && t !in moved
      ensures t in entries && entries[t] == before[t] && t in target
    {
    }

    lemma Finished(before: Entries, stored: Entries, target: Entries, moved: set<string>)
      requires MovedSoFar(before, stored, target, moved)
      requires forall t :: t in before && t in target && t !in moved ==> target[t] == before[t]
      ensures entries == target
    {
    }

    /** Move a dead endpoint's in-flight tasks; a task without an alternative stays as it is. */
    method ReassignInFlightTasks(dead: string, candidates: seq<Scheduler.Endpoint>, clock: string -> int)
      requires Valid()
      modifies this, store
      ensures Valid() && store == old(store) && entries == ReassignInFlight(old(entries), dead, candidates, clock)
      ensures MovedSoFar(old(entries), old(Rows()), ReassignInFlight(old(entries), dead, candidates, clock),
                         set t | t in old(entries) && MovesAway(old(entries)[t], dead, candidates))
    {
      hide MovedSoFar, Alternative, AfterDeath, MovesAway, Others, FirstWithRoom, Scheduler.SortByCapacity;
      ghost var before, stored, target := entries, Rows(), ReassignInFlight(entries, dead, candidates, clock);
      ghost var moved: set<string> := {};
      var alive := Scheduler.SortByCapacity(Others(candidates, dead));
      var ids := ListInFlight(dead);
      NothingMoved(target);
      for i := 0 to |ids|
        invariant Valid() && store == old(store) && MovedSoFar(before, stored, target, moved)
        invariant forall t :: t in moved <==> t in ids[..i] && MovesAway(before[t], dead, candidates)
      {
        var t := ids[i];
        assert t in ids && t !in moved;
        Untouched(before, stored, target, moved, t);
        AfterDeathOf(entries[t], dead, candidates, clock);
        var alt := FirstWithRoom(alive, entries[t].modelKey);
        if alt.Some? {
          Replace(t, Moved(entries[t], alt.value.endpointId, clock(t)), before, stored, target, moved);
          moved := moved + {t};
        }
      }
      forall t | t in before ensures MovesAway(before[t], dead, candidates) ==> t in ids {
        AfterDeathOf(before[t], dead, candidates, clock);
      }
      assert moved == set t | t in before && MovesAway(before[t], dead, candidates);
      forall t | t in before ensures t !in moved ==> target[t] == before[t] { AfterDeathOf(before[t], dead, candidates, clock); }
      Finished(before, stored, target, moved);
    }

    /** The revocations addressed when a workflow ends: its in-flight tasks, each at its present endpoint. */
    method RevokeTasksOfWorkflow(workflowId: string) returns (revokes: seq<(string, string)>)
      requires Valid()
      ensures forall t, ep :: (ep, t) in revokes <==>
        t in entries && entries[t].workflowId == workflowId && InFlight(entries[t]) && entries[t].endpointId == ep
      ensures forall i, j :: 0 <= i < j < |revokes| ==> revokes[i].1 != revokes[j].1
    {
      revokes := [];
      for i := 0 to |order|
        invariant forall t, ep :: (ep, t) in revokes <==>
          t in order[..i] && entries[t].workflowId == workflowId && InFlight(entries[t]) && entries[t].endpointId == ep
        invariant forall k, j :: 0 <= k < j < |revokes| ==> revokes[k].1 != revokes[j].1
        invariant forall k :: 0 <= k < |revokes| ==> revokes[k].1 in order[..i]
      {
        assert order[i] in order && order[i] !in order[..i];
        assert order[..i + 1] == order[..i] + [order[i]];
        var e := entries[order[i]];
        if e.workflowId == workflowId && e.pushed && !e.reported {
          revokes := revokes + [(e.endpointId, order[i])];
        }
      }
      assert order[..|order|] == order;
    }
  }
}
