/** When an expired endpoint's tasks are tried again: exact conditions over histories of the registry. */
module RegistryLimits {
  import opened Js
  import Inspection
  import Scheduler
  import opened TaskAccount
  import opened Registry

  /** A registration, a heartbeat or a whole sweep, with the world that it leaves. */
  datatype Event =
    | Registered(endpointId: string, after: World)
    | Beaten(endpointId: string, after: World)
    | Swept(deaths: seq<Death>, after: World)

  ghost predicate Happens(v: World, event: Event, now: nat -> int, ttlMs: int) {
    match event
    case Registered(id, w) =>
      && id !in v.regs && id in w.regs && w.regs[id].lastSeenMs == now(v.readings)
      && w == World(v.order + [id], v.regs[id := w.regs[id]], v.entries, v.readings + 1)
    case Beaten(id, w) =>
      && id in v.regs && id in w.regs && w.regs[id].lastSeenMs == now(v.readings) && w.regs[id].accountId == v.regs[id].accountId
      && w == v.(regs := v.regs[id := w.regs[id]], readings := v.readings + 1)
    case Swept(deaths, w) => Handled(v, map[], w, deaths, now, ttlMs)
  }

  ghost predicate IsHistory(v: World, events: seq<Event>, now: nat -> int, ttlMs: int)
    decreases |events|
  {
    events == [] || (Happens(v, events[0], now, ttlMs) && IsHistory(events[0].after, events[1..], now, ttlMs))
  }

  function AtTheEnd(v: World, events: seq<Event>): World {
    if events == [] then v else events[|events| - 1].after
  }

  /** The event is a sweep, or a sweep nested in one, that hands the endpoint out. */
  ghost predicate HandsOut(event: Event, e: string) {
    event.Swept? && e in Ids(event.deaths)
  }

  ghost predicate Removes(event: Event, e: string) {
    event.Swept? && e !in event.after.regs
  }

  ghost predicate Registers(event: Event, e: string) {
    event.Registered? && event.endpointId == e
  }

  lemma {:induction false} Prefix(v: World, events: seq<Event>, j: nat, now: nat -> int, ttlMs: int)
    requires IsHistory(v, events, now, ttlMs) && j <= |events|
    ensures IsHistory(v, events[..j], now, ttlMs)
    ensures IsHistory(AtTheEnd(v, events[..j]), events[j..], now, ttlMs)
    decreases |events|
  {
    hide Happens;
    if j == 0 {
      assert events[..0] == [] && events[0..] == events;
    } else {
      var w := events[0].after;
      Prefix(w, events[1..], j - 1, now, ttlMs);
      assert events[..j][1..] == events[1..][..j - 1] && events[1..][j - 1..] == events[j..];
      assert AtTheEnd(w, events[1..][..j - 1]) == AtTheEnd(v, events[..j]);
    }
  }

  // ---------------------------------------------------------------- coming and going

  /** An endpoint leaves the registry exactly by being handed out, and comes in exactly by registering. */
  lemma EventMoves(v: World, event: Event, e: string, now: nat -> int, ttlMs: int)
    requires Happens(v, event, now, ttlMs)
    ensures HandsOut(event, e) <==> e in v.regs && e !in event.after.regs
    ensures e !in v.regs && e in event.after.regs ==> Registers(event, e)
    ensures Registers(event, e) ==> e !in v.regs && e in event.after.regs
  {
    hide AllPlaced, AfterDeaths, Kept, Ids;
    if event.Swept? {
      var none: Registrations := map[];
      assert none.Keys == {};
    }
  }

  lemma {:induction false} CameBack(v: World, events: seq<Event>, e: string, now: nat -> int, ttlMs: int) returns (i: nat)
    requires IsHistory(v, events, now, ttlMs) && e !in v.regs && e in AtTheEnd(v, events).regs
    ensures i < |events| && Registers(events[i], e)
    decreases |events|
  {
    hide Happens, Registers;
    var w := events[0].after;
    EventMoves(v, events[0], e, now, ttlMs);
    if e in w.regs {
      i := 0;
    } else {
      assert AtTheEnd(w, events[1..]) == AtTheEnd(v, events);
      i := CameBack(w, events[1..], e, now, ttlMs);
      i := i + 1;
    }
  }

  lemma {:induction false} WentAway(v: World, events: seq<Event>, e: string, now: nat -> int, ttlMs: int) returns (k: nat)
    requires IsHistory(v, events, now, ttlMs) && e in v.regs && e !in AtTheEnd(v, events).regs
    ensures k < |events| && HandsOut(events[k], e)
    decreases |events|
  {
    hide Happens, HandsOut;
    var w := events[0].after;
    EventMoves(v, events[0], e, now, ttlMs);
    if e !in w.regs {
      k := 0;
    } else {
      assert AtTheEnd(w, events[1..]) == AtTheEnd(v, events);
      k := WentAway(w, events[1..], e, now, ttlMs);
      k := k + 1;
    }
  }

  lemma HappensAt(v: World, events: seq<Event>, j: nat, now: nat -> int, ttlMs: int)
    requires IsHistory(v, events, now, ttlMs) && j < |events|
    ensures Happens(AtTheEnd(v, events[..j]), events[j], now, ttlMs)
    ensures AtTheEnd(v, events[..j + 1]) == events[j].after
  {
    hide Happens;
    Prefix(v, events, j, now, ttlMs);
  }

  ghost predicate RegistersThenRemoved(events: seq<Event>, e: string) {
    exists i, j :: 0 <= i < j < |events| && Registers(events[i], e) && Removes(events[j], e)
  }

  lemma HandedOutAfterReturn(v: World, events: seq<Event>, e: string, k: nat, now: nat -> int, ttlMs: int) returns (i: nat)
    requires IsHistory(v, events, now, ttlMs) && e !in v.regs && k < |events| && HandsOut(events[k], e)
    ensures i < k && Registers(events[i], e) && Removes(events[k], e)
  {
    hide Happens, Registers, IsHistory;
    HappensAt(v, events, k, now, ttlMs);
    EventMoves(AtTheEnd(v, events[..k]), events[k], e, now, ttlMs);
    Prefix(v, events, k, now, ttlMs);
    i := CameBack(v, events[..k], e, now, ttlMs);
  }

  lemma ReturnIsHandedOut(v: World, events: seq<Event>, e: string, i: nat, j: nat, now: nat -> int, ttlMs: int) returns (k: nat)
    requires IsHistory(v, events, now, ttlMs) && i < j < |events| && Registers(events[i], e) && Removes(events[j], e)
    ensures i < k <= j && HandsOut(events[k], e)
  {
    hide Happens, Registers, IsHistory, HandsOut;
    HappensAt(v, events, i, now, ttlMs);
    EventMoves(AtTheEnd(v, events[..i]), events[i], e, now, ttlMs);
    Prefix(v, events, i + 1, now, ttlMs);
    var w, rest := events[i].after, events[i + 1..];
    Prefix(w, rest, j - i, now, ttlMs);
    assert rest[..j - i][j - i - 1] == events[j];
    k := WentAway(w, rest[..j - i], e, now, ttlMs);
    assert rest[..j - i][k] == events[i + 1 + k];
    k := i + 1 + k;
  }

  /**
   * An endpoint that is gone is handed out again if and only if it registers anew and a later sweep leaves it out:
   * no sweep tries its tasks before that.
   */
  lemma HandedOutAgainExactly(v: World, events: seq<Event>, e: string, now: nat -> int, ttlMs: int)
    requires IsHistory(v, events, now, ttlMs) && e !in v.regs
    ensures (exists k :: 0 <= k < |events| && HandsOut(events[k], e)) <==> RegistersThenRemoved(events, e)
  {
    hide Registers, Removes, HandsOut, IsHistory;
    if k :| 0 <= k < |events| && HandsOut(events[k], e) {
      var i := HandedOutAfterReturn(v, events, e, k, now, ttlMs);
    }
    if RegistersThenRemoved(events, e) {
      var i, j :| 0 <= i < j < |events| && Registers(events[i], e) && Removes(events[j], e);
      var k := ReturnIsHandedOut(v, events, e, i, j, now, ttlMs);
    }
  }

  // ---------------------------------------------------------------- what becomes of the task

  /** Until its endpoint is handed out, a task in flight stays as it is. */
  lemma {:induction false} UntouchedUntilHandedOut(v: World, events: seq<Event>, t: string, now: nat -> int, ttlMs: int)
    requires IsHistory(v, events, now, ttlMs) && t in v.entries && InFlight(v.entries[t])
    requires forall k :: 0 <= k < |events| ==> !HandsOut(events[k], v.entries[t].endpointId)
    ensures t in AtTheEnd(v, events).entries && AtTheEnd(v, events).entries[t] == v.entries[t]
    decreases |events|
  {
    hide InFlight, HandsOut, EachOnce, AllPlaced, AfterDeaths, Kept, Handled;
    if events != [] {
      var w := events[0].after;
      EventMoves(v, events[0], v.entries[t].endpointId, now, ttlMs);
      if events[0].Swept? { TaskAfterSweep(v, w, events[0].deaths, now, ttlMs, t); }
      assert AtTheEnd(w, events[1..]) == AtTheEnd(v, events);
      UntouchedUntilHandedOut(w, events[1..], t, now, ttlMs);
    }
  }

  /** The first event that hands the task's endpoint out moves the task to the best endpoint then alive, if one has room. */
  lemma RetryOutcome(v: World, events: seq<Event>, t: string, j: nat, now: nat -> int, ttlMs: int)
    requires IsHistory(v, events, now, ttlMs) && t in v.entries && InFlight(v.entries[t])
    requires j < |events| && HandsOut(events[j], v.entries[t].endpointId)
    requires forall k :: 0 <= k < j ==> !HandsOut(events[k], v.entries[t].endpointId)
    ensures t in events[j].after.entries
    ensures exists d :: (
      d in events[j].deaths && d.endpointId == v.entries[t].endpointId && HandledDeath(v.entries[t], events[j].after.entries[t], d))
  {
    hide InFlight, HandsOut, Handled, HandledDeath;
    var u := AtTheEnd(v, events[..j]);
    Prefix(v, events, j, now, ttlMs);
    UntouchedUntilHandedOut(v, events[..j], t, now, ttlMs);
    HappensAt(v, events, j, now, ttlMs);
    EventMoves(u, events[j], v.entries[t].endpointId, now, ttlMs);
    IsSweep(events[j], v.entries[t].endpointId);
    TaskAfterSweep(u, events[j].after, events[j].deaths, now, ttlMs, t);
  }

  lemma IsSweep(event: Event, e: string)
    requires HandsOut(event, e)
    ensures event.Swept?
  {
  }

  /** A task left in flight at a removed endpoint stays as it is unless that endpoint registers anew and a later sweep removes it. */
  lemma StrandedUntilReregistered(v: World, events: seq<Event>, t: string, now: nat -> int, ttlMs: int)
    requires IsHistory(v, events, now, ttlMs)
    requires t in v.entries && InFlight(v.entries[t]) && v.entries[t].endpointId !in v.regs
    requires !RegistersThenRemoved(events, v.entries[t].endpointId)
    ensures t in AtTheEnd(v, events).entries && AtTheEnd(v, events).entries[t] == v.entries[t]
    ensures v.entries[t].endpointId in AtTheEnd(v, events).regs ==>
      exists i :: 0 <= i < |events| && Registers(events[i], v.entries[t].endpointId)
  {
    hide InFlight, RegistersThenRemoved, HandsOut, IsHistory, Registers;
    HandedOutAgainExactly(v, events, v.entries[t].endpointId, now, ttlMs);
    UntouchedUntilHandedOut(v, events, t, now, ttlMs);
    if v.entries[t].endpointId in AtTheEnd(v, events).regs {
      var i := CameBack(v, events, v.entries[t].endpointId, now, ttlMs);
    }
  }

  // ---------------------------------------------------------------- a history

  lemma LoneEndpointExpires(e: string, reg: Registration, entries: Entries, now: nat -> int, ttlMs: int, stamp: string -> int)
    requires Stale(reg, now(0), ttlMs)
    requires forall t :: t in entries ==> AfterDeath(entries[t], e, [], stamp) == entries[t]
    ensures Handled(World([e], map[e := reg], entries, 0), map[], World([], map[], entries, 2),
                    [Death(e, reg, 0, 1, map[], [], stamp)], now, ttlMs)
  {
    var d := Death(e, reg, 0, 1, map[], [], stamp);
    assert [d][..0] == [] && AfterDeaths(entries, [d]) == ReassignInFlight(entries, e, [], stamp) == entries;
    assert Snapshot([e], map[]) == [] by { assert [e][1..] == []; }
    var none: Registrations := map[];
    assert none.Keys == {} && map[e := reg].Keys == {e};
    assert Ids([d]) == {e};
    assert Kept([e], {}) == [] by { assert [e][1..] == []; }
  }

  lemma NobodyTakesOver(entry: Entry, dead: string, stamp: string -> int)
    ensures AfterDeath(entry, dead, [], stamp) == entry
  {
    AlternativeIsBest([], dead, entry.modelKey);
  }

  /**
   * An endpoint expires while no other is alive; then another one registers, with room for the task's model, and the
   * next sweep still leaves the task where it is.
   */
  lemma LaterSweepDoesNotRetry(entry: Entry, f: string, accountId: Option<string>, stamp: string -> int)
    returns (v: World, events: seq<Event>, now: nat -> int)
    requires InFlight(entry) && f != entry.endpointId
    ensures v.order == [entry.endpointId] && v.entries == map[entry.taskId := entry]
    ensures IsHistory(v, events, now, DEFAULT_TTL_MS) && |events| == 3
    ensures HandsOut(events[0], entry.endpointId) && events[1].Registered? && events[2].Swept?
    ensures var regs := AtTheEnd(v, events).regs;
      f in regs && HasRoom(Scheduler.Endpoint(f, regs[f].models), entry.modelKey)
    ensures AtTheEnd(v, events).entries == v.entries
  {
    hide InFlight, AfterDeath;
    var e, entries := entry.endpointId, map[entry.taskId := entry];
    var model := Inspection.Model(entry.modelKey, 1, None);
    now := (n: nat) => 100_000 + n;
    v := World([e], map[e := Registration(None, [], 0)], entries, 0);
    NobodyTakesOver(entry, e, stamp);
    LoneEndpointExpires(e, v.regs[e], entries, now, DEFAULT_TTL_MS, stamp);
    var d := Death(e, v.regs[e], 0, 1, map[], [], stamp);
    var w1 := World([], map[], entries, 2);
    var w2 := World([f], map[f := Registration(accountId, [model], 100_002)], entries, 3);
    var w3 := w2.(readings := 4);
    NothingHandled(w2, w3, now, DEFAULT_TTL_MS);
    events := [Swept([d], w1), Registered(f, w2), Swept([], w3)];
    assert d in [d] && e in Ids([d]);
    assert w3.regs[f].models[0] == model;
    RegisteredInto(w1, f, w2, now, DEFAULT_TTL_MS);
    ThreeEvents(v, events, now, DEFAULT_TTL_MS);
  }

  lemma RegisteredInto(v: World, f: string, w: World, now: nat -> int, ttlMs: int)
    requires v.order == [] && v.regs == map[] && f in w.regs && w.regs == map[f := w.regs[f]] && w.order == [f]
    requires w.entries == v.entries && w.readings == v.readings + 1 && w.regs[f].lastSeenMs == now(v.readings)
    ensures Happens(v, Registered(f, w), now, ttlMs)
  {
    assert v.order + [f] == [f] && v.regs[f := w.regs[f]] == w.regs;
  }

  lemma ThreeEvents(v: World, events: seq<Event>, now: nat -> int, ttlMs: int)
    requires |events| == 3 && Happens(v, events[0], now, ttlMs) && Happens(events[0].after, events[1], now, ttlMs)
    requires Happens(events[1].after, events[2], now, ttlMs)
    ensures IsHistory(v, events, now, ttlMs)
  {
    hide Happens;
    assert events[1..][0] == events[1] && events[1..][1..][0] == events[2] && events[1..][1..][1..] == [];
    assert IsHistory(events[1].after, events[1..][1..], now, ttlMs);
    assert IsHistory(events[0].after, events[1..], now, ttlMs);
  }
}
