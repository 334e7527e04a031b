/**
 * Endpoint liveness and expiry (`endpoint-registry.ts`), wired to the reassignment of in-flight tasks
 * (`instrumentation.ts`): sweeping calls a hook that lists the live endpoints, which sweeps again.
 */
module Registry {
  import opened Js
  import Inspection
  import Scheduler
  import opened TaskAccount
  import Pump

  const DEFAULT_TTL_MS := 90_000

  datatype Registration = Registration(accountId: Option<string>, models: seq<Inspection.Model>, lastSeenMs: int)

  type Registrations = map<string, Registration>

  datatype UpsertResult = Accepted | AlreadyRegistered | UnknownEndpoint | VersionMismatch

  predicate Stale(r: Registration, nowMs: int, ttlMs: int) {
    nowMs - r.lastSeenMs > ttlMs
  }

  /** The given ids, in the given order. */
  function Kept(order: seq<string>, ids: set<string>): seq<string> {
    if order == [] then [] else (if order[0] in ids then [order[0]] else []) + Kept(order[1..], ids)
  }

  /** The registered endpoints with their capability, in the given order. */
  function Snapshot(order: seq<string>, regs: Registrations): seq<Scheduler.Endpoint> {
    if order == [] then []
    else (if order[0] in regs then [Scheduler.Endpoint(order[0], regs[order[0]].models)] else []) + Snapshot(order[1..], regs)
  }

  /**
   * One endpoint handed to the reassignment: its last registration, the clock readings that found it stale and
   * the others alive, the registrations left by then, the candidates given, and the times stamped on moved tasks.
   */
  datatype Death = Death(
    endpointId: string, last: Registration, deadAt: nat, aliveAt: nat, alive: Registrations,
    candidates: seq<Scheduler.Endpoint>, stamp: string -> int)

  /** The registry, the task ledger and the number of clock readings so far. */
  datatype World = World(order: seq<string>, regs: Registrations, entries: Entries, readings: nat)

  // ---------------------------------------------------------------- what a series of deaths does to the tasks

  function AfterDeaths(entries: Entries, deaths: seq<Death>): Entries {
    if deaths == [] then entries
    else
      var n := |deaths| - 1;
      ReassignInFlight(AfterDeaths(entries, deaths[..n]), deaths[n].endpointId, deaths[n].candidates, deaths[n].stamp)
  }

  predicate Moves(e: Entry, d: Death) {
    MovesAway(e, d.endpointId, d.candidates)
  }

  lemma {:induction false} DeathsCompose(entries: Entries, a: seq<Death>, b: seq<Death>)
    ensures AfterDeaths(AfterDeaths(entries, a), b) == AfterDeaths(entries, a + b)
  {
    if b == [] {
      assert a + b == a;
    } else {
      var n := |b| - 1;
      DeathsCompose(entries, a, b[..n]);
      assert (a + b)[..|a + b| - 1] == a + b[..n];
    }
  }

  /** No task is lost or added, and each is moved by the first death that can move it, or not at all. */
  lemma {:induction false} Fate(entries: Entries, deaths: seq<Death>, t: string)
    requires t in entries
    ensures t in AfterDeaths(entries, deaths)
    ensures (forall k :: 0 <= k < |deaths| ==> !Moves(entries[t], deaths[k])) ==> AfterDeaths(entries, deaths)[t] == entries[t]
    ensures forall k :: 0 <= k < |deaths| && Moves(entries[t], deaths[k]) && (forall j :: 0 <= j < k ==> !Moves(entries[t], deaths[j])) ==>
      AfterDeaths(entries, deaths)[t] == AfterDeath(entries[t], deaths[k].endpointId, deaths[k].candidates, deaths[k].stamp)
  {
    hide AfterDeath, MovesAway, Alternative;
    if deaths != [] {
      var n := |deaths| - 1;
      Fate(entries, deaths[..n], t);
      var e := AfterDeaths(entries, deaths[..n])[t];
      AfterDeathOf(e, deaths[n].endpointId, deaths[n].candidates, deaths[n].stamp);
      forall k | 0 <= k < n && Moves(entries[t], deaths[k]) ensures
        AfterDeath(entries[t], deaths[k].endpointId, deaths[k].candidates, deaths[k].stamp).pushed == false
      {
        AfterDeathOf(entries[t], deaths[k].endpointId, deaths[k].candidates, deaths[k].stamp);
      }
      if k :| 0 <= k < n && Moves(entries[t], deaths[k]) {
        var first := FirstMove(entries[t], deaths, k);
        assert Moves(entries[t], deaths[..n][first]);
        assert !e.pushed;
      } else {
        assert forall k :: 0 <= k < n ==> deaths[..n][k] == deaths[k];
      }
    }
  }

  lemma FirstMove(e: Entry, deaths: seq<Death>, k: nat) returns (first: nat)
    requires k < |deaths| && Moves(e, deaths[k])
    ensures first <= k && Moves(e, deaths[first]) && forall j :: 0 <= j < first ==> !Moves(e, deaths[j])
  {
    hide Moves;
    if j :| 0 <= j < k && Moves(e, deaths[j]) {
      first := FirstMove(e, deaths, j);
    } else {
      first := k;
    }
  }

  // ---------------------------------------------------------------- what a sweep, with its nested sweeps, guarantees

  ghost predicate Within(inner: Registrations, outer: Registrations) {
    inner.Keys <= outer.Keys && forall x :: x in inner ==> inner[x] == outer[x]
  }

  ghost function Ids(deaths: seq<Death>): set<string> {
    set d | d in deaths :: d.endpointId
  }

  /** The endpoint had gone silent, and those offered in its place were heard of by a later reading of the clock. */
  ghost predicate DeathOk(d: Death, now: nat -> int, ttlMs: int) {
    && d.deadAt < d.aliveAt && Stale(d.last, now(d.deadAt), ttlMs) && d.endpointId !in d.alive
    && forall x :: x in d.alive ==> !Stale(d.alive[x], now(d.aliveAt), ttlMs)
  }

  /** The given endpoints, in the order in which they were handed out. */
  ghost function HandedOut(deaths: seq<Death>, ids: set<string>): seq<string> {
    if deaths == [] then []
    else
      var n := |deaths| - 1;
      HandedOut(deaths[..n], ids) + if deaths[n].endpointId in ids then [deaths[n].endpointId] else []
  }

  /** The death fits the registrations before and after; `owed` are the endpoints already removed but not handed out. */
  ghost predicate Placed(d: Death, owed: Registrations, order: seq<string>, before: Registrations, after: Registrations) {
    && Within(d.alive, before) && Within(after, d.alive) && d.candidates == Snapshot(order, d.alive)
    && if d.endpointId in owed then d.last == owed[d.endpointId] else d.endpointId in before && d.last == before[d.endpointId]
  }

  /** Every owed or removed endpoint is handed out, once. */
  ghost predicate EachOnce(deaths: seq<Death>, owed: set<string>, before: set<string>, after: set<string>) {
    && (forall i, j :: 0 <= i < j < |deaths| ==> deaths[i].endpointId != deaths[j].endpointId)
    && Ids(deaths) == owed + (before - after)
  }

  ghost predicate AllPlaced(deaths: seq<Death>, owed: Registrations, v: World, w: World, now: nat -> int, ttlMs: int) {
    forall i :: 0 <= i < |deaths| ==>
      DeathOk(deaths[i], now, ttlMs) && Placed(deaths[i], owed, v.order, v.regs, w.regs) && v.readings <= deaths[i].aliveAt < w.readings
  }

  ghost predicate Shrunk(order: seq<string>, regs: Registrations, order': seq<string>, regs': Registrations) {
    Within(regs', regs) && order' == Kept(order, regs'.Keys)
  }

  ghost predicate Handled(v: World, owed: Registrations, w: World, deaths: seq<Death>, now: nat -> int, ttlMs: int) {
    && Shrunk(v.order, v.regs, w.order, w.regs) && v.readings <= w.readings
    && w.entries == AfterDeaths(v.entries, deaths)
    && EachOnce(deaths, owed.Keys, v.regs.Keys, w.regs.Keys)
    && AllPlaced(deaths, owed, v, w, now, ttlMs)
  }

  lemma {:induction false} KeptMembers(order: seq<string>, ids: set<string>, x: string)
    ensures x in Kept(order, ids) <==> x in order && x in ids
  {
    if order != [] { KeptMembers(order[1..], ids, x); }
  }

  lemma {:induction false} KeptAll(order: seq<string>, ids: set<string>)
    requires forall x :: x in order ==> x in ids
    ensures Kept(order, ids) == order
  {
    if order != [] { KeptAll(order[1..], ids); }
  }

  lemma {:induction false} KeptTwice(order: seq<string>, outer: set<string>, inner: set<string>)
    requires inner <= outer
    ensures Kept(Kept(order, outer), inner) == Kept(order, inner)
  {
    if order != [] {
      KeptTwice(order[1..], outer, inner);
      var rest := Kept(order[1..], outer);
      assert Kept(order, outer) == if order[0] in outer then [order[0]] + rest else rest;
    }
  }

  lemma {:induction false} KeptDistinct(order: seq<string>, ids: set<string>)
    requires forall i, j :: 0 <= i < j < |order| ==> order[i] != order[j]
    ensures forall i, j :: 0 <= i < j < |Kept(order, ids)| ==> Kept(order, ids)[i] != Kept(order, ids)[j]
  {
    if order != [] {
      KeptDistinct(order[1..], ids);
      KeptMembers(order[1..], ids, order[0]);
      assert order[0] !in order[1..];
    }
  }

  lemma KeptListsAll(order: seq<string>, ids: set<string>)
    requires forall i, j :: 0 <= i < j < |order| ==> order[i] != order[j]
    requires forall x :: x in ids ==> x in order
    ensures forall x :: x in Kept(order, ids) <==> x in ids
    ensures forall i, j :: 0 <= i < j < |Kept(order, ids)| ==> Kept(order, ids)[i] != Kept(order, ids)[j]
  {
    forall x ensures x in Kept(order, ids) <==> x in ids {
      KeptMembers(order, ids, x);
    }
    KeptDistinct(order, ids);
  }

  lemma {:induction false} SnapshotKept(order: seq<string>, ids: set<string>, regs: Registrations)
    requires regs.Keys <= ids
    ensures Snapshot(Kept(order, ids), regs) == Snapshot(order, regs)
  {
    if order != [] {
      SnapshotKept(order[1..], ids, regs);
      var rest := Kept(order[1..], ids);
      assert Kept(order, ids) == if order[0] in ids then [order[0]] + rest else rest;
    }
  }

  lemma NothingHandled(v: World, w: World, now: nat -> int, ttlMs: int)
    requires (forall x :: x in v.order ==> x in v.regs) && w == v.(readings := w.readings) && v.readings <= w.readings
    ensures Handled(v, map[], w, [], now, ttlMs)
  {
    KeptAll(v.order, v.regs.Keys);
  }

  lemma OnceMore(a: seq<Death>, b: seq<Death>, owed: set<string>, first: set<string>, second: set<string>, third: set<string>)
    requires EachOnce(a, owed, first, second) && EachOnce(b, {}, second, third)
    requires owed !! first && third <= second <= first
    ensures EachOnce(a + b, owed, first, third)
  {
    assert Ids(a + b) == Ids(a) + Ids(b);
    forall i, j | 0 <= i < |a| && 0 <= j < |b| ensures a[i].endpointId != b[j].endpointId {
      assert a[i].endpointId in Ids(a) && b[j].endpointId in Ids(b);
    }
  }

  lemma PlacedEarlier(d: Death, owed: Registrations, v: World, w: World, after: Registrations)
    requires Placed(d, map[], w.order, w.regs, after) && Shrunk(v.order, v.regs, w.order, w.regs) && owed.Keys !! v.regs.Keys
    ensures Placed(d, owed, v.order, v.regs, after)
  {
    SnapshotKept(v.order, w.regs.Keys, d.alive);
  }

  /** A nested sweep continues the work of the enclosing one. */
  lemma ThenNested(v: World, owed: Registrations, w: World, a: seq<Death>, x: World, b: seq<Death>, now: nat -> int, ttlMs: int)
    requires Handled(v, owed, w, a, now, ttlMs) && Handled(w, map[], x, b, now, ttlMs) && owed.Keys !! v.regs.Keys
    ensures Handled(v, owed, x, a + b, now, ttlMs)
  {
    hide DeathOk, EachOnce, Kept, Snapshot, AfterDeaths;
    DeathsCompose(v.entries, a, b);
    var none: Registrations := map[];
    assert none.Keys == {};
    OnceMore(a, b, owed.Keys, v.regs.Keys, w.regs.Keys, x.regs.Keys);
    KeptTwice(v.order, w.regs.Keys, x.regs.Keys);
    forall i | 0 <= i < |b| ensures Placed(b[i], owed, v.order, v.regs, x.regs) {
      PlacedEarlier(b[i], owed, v, w, x.regs);
    }
  }

  lemma OnceMoreDeath(a: seq<Death>, d: Death, owed: set<string>, before: set<string>, after: set<string>)
    requires EachOnce(a, owed, before, after) && d.endpointId !in owed && d.endpointId !in before
    ensures EachOnce(a + [d], owed + {d.endpointId}, before, after)
  {
    assert Ids(a + [d]) == Ids(a) + {d.endpointId};
    forall i | 0 <= i < |a| ensures a[i].endpointId != d.endpointId {
      assert a[i].endpointId in Ids(a);
    }
  }

  lemma DeathPlaced(v: World, owed: Registrations, w: World, a: seq<Death>, d: Death, x: World, now: nat -> int, ttlMs: int)
    requires AllPlaced(a, owed, v, w, now, ttlMs) && Shrunk(v.order, v.regs, w.order, w.regs)
    requires d.endpointId !in owed && d.endpointId !in v.regs
    requires DeathOk(d, now, ttlMs) && d.alive == w.regs && d.candidates == Snapshot(w.order, w.regs)
    requires v.readings <= d.aliveAt < w.readings && x.regs == w.regs && x.readings == w.readings
    ensures AllPlaced(a + [d], owed[d.endpointId := d.last], v, x, now, ttlMs)
  {
    hide DeathOk, Kept, Snapshot;
    SnapshotKept(v.order, w.regs.Keys, w.regs);
    forall i | 0 <= i < |a| ensures Placed(a[i], owed[d.endpointId := d.last], v.order, v.regs, x.regs) {
      StillPlaced(a, i, d, owed, v, w);
    }
  }

  lemma OneMoreDeath(entries: Entries, a: seq<Death>, d: Death)
    ensures AfterDeaths(entries, a + [d]) == ReassignInFlight(AfterDeaths(entries, a), d.endpointId, d.candidates, d.stamp)
  {
    assert (a + [d])[..|a|] == a;
  }

  /** After its live endpoints are listed, one removed endpoint is handed out. */
  lemma ThenDeath(v: World, owed: Registrations, w: World, a: seq<Death>, d: Death, x: World, now: nat -> int, ttlMs: int)
    requires Handled(v, owed, w, a, now, ttlMs) && d.endpointId !in owed && d.endpointId !in v.regs
    requires DeathOk(d, now, ttlMs) && d.alive == w.regs && d.candidates == Snapshot(w.order, w.regs)
    requires v.readings <= d.aliveAt < w.readings
    requires x == w.(entries := ReassignInFlight(w.entries, d.endpointId, d.candidates, d.stamp))
    ensures Handled(v, owed[d.endpointId := d.last], x, a + [d], now, ttlMs)
  {
    hide DeathOk, EachOnce, Kept, Snapshot, ReassignInFlight, AllPlaced, AfterDeaths;
    OnceMoreDeath(a, d, owed.Keys, v.regs.Keys, w.regs.Keys);
    assert owed[d.endpointId := d.last].Keys == owed.Keys + {d.endpointId};
    OneMoreDeath(v.entries, a, d);
    DeathPlaced(v, owed, w, a, d, x, now, ttlMs);
  }

  lemma StillPlaced(a: seq<Death>, i: nat, d: Death, owed: Registrations, v: World, w: World)
    requires i < |a| && Placed(a[i], owed, v.order, v.regs, w.regs) && d.endpointId !in owed && d.endpointId !in v.regs
    ensures Placed(a[i], owed[d.endpointId := d.last], v.order, v.regs, w.regs)
  {
  }

  lemma PlacedBeforeRemoval(d: Death, owed: Registrations, v: World, w: World, after: Registrations)
    requires Within(owed, v.regs) && w.regs == v.regs - owed.Keys && w.order == Kept(v.order, w.regs.Keys)
    requires Placed(d, owed, w.order, w.regs, after)
    ensures Placed(d, map[], v.order, v.regs, after)
  {
    SnapshotKept(v.order, w.regs.Keys, d.alive);
  }

  /** A whole sweep: the stale endpoints are removed, then handed out. */
  lemma WholeSweep(v: World, owed: Registrations, w: World, x: World, deaths: seq<Death>, now: nat -> int, ttlMs: int)
    requires Within(owed, v.regs) && w == World(Kept(v.order, w.regs.Keys), v.regs - owed.Keys, v.entries, v.readings + 1)
    requires Handled(w, owed, x, deaths, now, ttlMs)
    ensures Handled(v, map[], x, deaths, now, ttlMs)
  {
    hide DeathOk, Kept, Snapshot, AfterDeaths, Ids;
    KeptTwice(v.order, w.regs.Keys, x.regs.Keys);
    assert owed.Keys + (w.regs.Keys - x.regs.Keys) == v.regs.Keys - x.regs.Keys;
    forall i | 0 <= i < |deaths| ensures Placed(deaths[i], map[], v.order, v.regs, x.regs) {
      PlacedBeforeRemoval(deaths[i], owed, v, w, x.regs);
    }
  }

  lemma {:induction false} SnapshotMembers(order: seq<string>, regs: Registrations, c: Scheduler.Endpoint)
    ensures c in Snapshot(order, regs) <==> c.endpointId in order && c.endpointId in regs && c.models == regs[c.endpointId].models
  {
    if order != [] { SnapshotMembers(order[1..], regs, c); }
  }

  /** The endpoint lists the model with at least one free place. */
  predicate Offers(c: Scheduler.Endpoint, modelKey: string) {
    exists i :: 0 <= i < |c.models| && c.models[i].modelKey == modelKey && c.models[i].queueRemaining > 0
  }

  /** The entry after its task was moved: a new place, time and request id, compensation priority, and not pushed there yet. */
  predicate MovedTo(e: Entry, e': Entry, endpointId: string, now: int) {
    && SameIdentity(e, e') && e'.endpointId == endpointId && e'.dispatchedAtMs == now
    && e'.priority == Compensation && !e'.pushed && e'.reported == e.reported
    && e'.requestId == RequestId(endpointId, e.taskId)
  }

  lemma MovedIs(e: Entry, endpointId: string, now: int)
    ensures MovedTo(e, Moved(e, endpointId, now), endpointId, now)
  {
  }

  lemma RoomIsOffered(c: Scheduler.Endpoint, modelKey: string)
    ensures HasRoom(c, modelKey) <==> Offers(c, modelKey)
  {
  }

  /** The task goes to the endpoint with the most capacity among those with room for its model, ties to the earliest registered. */
  ghost predicate GoesToBest(e: Entry, e': Entry, d: Death) {
    exists k: nat :: IsBestAlternative(d.candidates, d.endpointId, e.modelKey, k) && Offers(d.candidates[k], e.modelKey)
      && MovedTo(e, e', d.candidates[k].endpointId, d.stamp(e.taskId))
  }

  ghost predicate HandledDeath(e: Entry, e': Entry, d: Death) {
    if exists c :: c in d.candidates && Offers(c, e.modelKey) then GoesToBest(e, e', d) else e' == e
  }

  lemma DeathOfOne(e: Entry, d: Death, order: seq<string>)
    requires e.endpointId == d.endpointId && InFlight(e)
    requires d.candidates == Snapshot(order, d.alive) && d.endpointId !in d.alive
    ensures HandledDeath(e, AfterDeath(e, d.endpointId, d.candidates, d.stamp), d)
  {
    hide HasRoom, Offers, MovedTo, AfterDeath, Alternative, Moved, Snapshot, Scheduler.Capacity;
    AfterDeathOf(e, d.endpointId, d.candidates, d.stamp);
    AlternativeIsBest(d.candidates, d.endpointId, e.modelKey);
    forall c | c in d.candidates ensures Eligible(c, d.endpointId, e.modelKey) <==> Offers(c, e.modelKey) {
      SnapshotMembers(order, d.alive, c);
      RoomIsOffered(c, e.modelKey);
    }
    if Alternative(d.candidates, d.endpointId, e.modelKey).Some? {
      var k: nat :| IsBestAlternative(d.candidates, d.endpointId, e.modelKey, k)
        && d.candidates[k] == Alternative(d.candidates, d.endpointId, e.modelKey).value;
      assert Eligible(d.candidates[k], d.endpointId, e.modelKey);
      MovedIs(e, d.candidates[k].endpointId, d.stamp(e.taskId));
    }
  }

  /**
   * After a sweep with everything it sets off, a task has changed only if it was in flight at an endpoint that the
   * sweep removed; and then it was handed out once, and moved unless no endpoint alive at that moment had room for its
   * model. A nested sweep that comes later may remove its new endpoint too.
   */
  lemma TaskAfterSweep(v: World, w: World, deaths: seq<Death>, now: nat -> int, ttlMs: int, t: string)
    requires Handled(v, map[], w, deaths, now, ttlMs) && t in v.entries
    ensures t in w.entries
    ensures var e := v.entries[t];
      if InFlight(e) && e.endpointId in v.regs && e.endpointId !in w.regs then
        exists d :: d in deaths && d.endpointId == e.endpointId && HandledDeath(e, w.entries[t], d)
      else w.entries[t] == e
  {
    hide HandledDeath, AfterDeath, AfterDeaths, Snapshot, Kept, Shrunk, Within, InFlight;
    var e := v.entries[t];
    if InFlight(e) && e.endpointId in Ids(deaths) {
      var k :| 0 <= k < |deaths| && deaths[k].endpointId == e.endpointId;
      FateAtOwnDeath(v.entries, deaths, t, k);
      DeathOfOne(e, deaths[k], v.order);
    } else {
      FateOfOthers(v.entries, deaths, t);
    }
  }

  lemma FateAtOwnDeath(entries: Entries, deaths: seq<Death>, t: string, k: nat)
    requires t in entries && k < |deaths| && deaths[k].endpointId == entries[t].endpointId
    requires forall i, j :: 0 <= i < j < |deaths| ==> deaths[i].endpointId != deaths[j].endpointId
    ensures t in AfterDeaths(entries, deaths)
    ensures AfterDeaths(entries, deaths)[t] == AfterDeath(entries[t], deaths[k].endpointId, deaths[k].candidates, deaths[k].stamp)
  {
    hide Moves, AfterDeath, AfterDeaths;
    Fate(entries, deaths, t);
    MovesFromItsEndpoint(entries[t], deaths[k]);
    forall j | 0 <= j < |deaths| && j != k ensures !Moves(entries[t], deaths[j]) {
      MovesFromItsEndpoint(entries[t], deaths[j]);
    }
  }

  lemma FateOfOthers(entries: Entries, deaths: seq<Death>, t: string)
    requires t in entries && (!InFlight(entries[t]) || entries[t].endpointId !in Ids(deaths))
    ensures t in AfterDeaths(entries, deaths) && AfterDeaths(entries, deaths)[t] == entries[t]
  {
    hide Moves, AfterDeath, AfterDeaths;
    Fate(entries, deaths, t);
    forall j | 0 <= j < |deaths| ensures !Moves(entries[t], deaths[j]) {
      MovesFromItsEndpoint(entries[t], deaths[j]);
    }
  }

  lemma MovesFromItsEndpoint(e: Entry, d: Death)
    ensures Moves(e, d) ==> e.endpointId == d.endpointId && InFlight(e)
    ensures !Moves(e, d) ==> AfterDeath(e, d.endpointId, d.candidates, d.stamp) == e
  {
    hide Alternative, AfterDeath;
    AfterDeathOf(e, d.endpointId, d.candidates, d.stamp);
  }

  // ---------------------------------------------------------------- the object

  /** `now` gives the clock's successive readings, in any order; `stamps` the times at which tasks are moved. */
  class Registry {
    const ttlMs: int
    const now: nat -> int
    const stamps: nat -> string -> int
    const account: Account
    var regs: Registrations
    /** Endpoint ids in insertion order. */
    var order: seq<string>
    var readings: nat
    /** Every endpoint handed to the hook so far. */
    ghost var deaths: seq<Death>

    ghost predicate Valid()
      reads this, account
    {
      && account.Valid() && (forall x :: x in order <==> x in regs)
      && forall i, j :: 0 <= i < j < |order| ==> order[i] != order[j]
    }

    ghost function View(): World
      reads this, account
    {
      World(order, regs, account.entries, readings)
    }

    constructor (account: Account, now: nat -> int, stamps: nat -> string -> int, ttlMs: int)
      requires account.Valid()
      ensures Valid() && this.account == account && this.ttlMs == ttlMs && this.now == now && this.stamps == stamps
      ensures View() == World([], map[], account.entries, 0) && deaths == []
    {
      this.account, this.ttlMs, this.now, this.stamps := account, ttlMs, now, stamps;
      regs, order, readings, deaths := map[], [], 0, [];
    }

    method ReadClock() returns (t: int)
      modifies this`readings
      ensures t == now(old(readings)) && readings == old(readings) + 1
    {
      t := now(readings);
      readings := readings + 1;
    }

    method RegisterEndpoint(endpointId: string, version: int, models: seq<Inspection.Model>, accountId: Option<string>)
      returns (result: UpsertResult)
      requires Valid()
      modifies this
      ensures Valid() && deaths == old(deaths)
      ensures result == if endpointId in old(regs) then AlreadyRegistered else if version != 1 then VersionMismatch else Accepted
      ensures View() == if result != Accepted then old(View())
        else World(old(order) + [endpointId], old(regs)[endpointId := Registration(accountId, models, now(old(readings)))],
                   account.entries, old(readings) + 1)
    {
      if endpointId in regs {
        return AlreadyRegistered;
      }
      if version != 1 {
        return VersionMismatch;
      }
      var seen := ReadClock();
      regs := regs[endpointId := Registration(accountId, models, seen)];
      order := order + [endpointId];
      return Accepted;
    }

    method Heartbeat(endpointId: string, version: int, models: seq<Inspection.Model>) returns (result: UpsertResult)
      requires Valid()
      modifies this
      ensures Valid() && deaths == old(deaths)
      ensures result == if endpointId !in old(regs) then UnknownEndpoint else if version != 1 then VersionMismatch else Accepted
      ensures View() == if result != Accepted then old(View())
        else old(View()).(regs := old(regs)[endpointId := old(regs)[endpointId].(models := models, lastSeenMs := now(old(readings)))],
                          readings := old(readings) + 1)
    {
      if endpointId !in regs {
        return UnknownEndpoint;
      }
      if version != 1 {
        return VersionMismatch;
      }
      var seen := ReadClock();
      regs := regs[endpointId := regs[endpointId].(models := models, lastSeenMs := seen)];
      return Accepted;
    }

    ghost function StaleIds(t: int): set<string>
      reads this
    {
      set x | x in regs && Stale(regs[x], t, ttlMs)
    }

    /** Remove the registrations that one clock reading finds stale. */
    method RemoveStale() returns (expired: seq<string>)
      requires Valid()
      modifies this`regs, this`order, this`readings
      ensures Valid() && readings == old(readings) + 1 && order == Kept(old(order), regs.Keys)
      ensures expired == Kept(old(order), old(StaleIds(now(readings))))
      ensures regs == old(regs) - old(StaleIds(now(readings)))
    {
      hide Kept;
      ghost var all, gone := order, StaleIds(now(readings));
      var t := ReadClock();
      expired := [];
      KeptAll([], gone);
      for i := 0 to |order|
        invariant order == all == old(order) && account.Valid() && readings == old(readings) + 1
        invariant expired == Kept(all[..i], gone)
        invariant Within(regs, old(regs)) && forall x :: x in regs <==> x in old(regs) && !(x in all[..i] && x in gone)
      {
        var id := order[i];
        assert id in all && id !in all[..i];
        assert all[..i + 1] == all[..i] + [id];
        KeptOneMore(all[..i], id, gone);
        if Stale(regs[id], t, ttlMs) {
          regs := regs - {id};
          expired := expired + [id];
        }
      }
      assert all[..|all|] == all;
      assert regs == old(regs) - gone;
      KeptListsAll(all, regs.Keys);
      order := Kept(order, regs.Keys);
    }

    /**
     * Remove the silent endpoints and hand them to the hook, which lists the live endpoints for each of them and so
     * sweeps again. Every sweep that goes on shrinks the registry.
     */
    method Sweep() returns (expired: seq<string>)
      requires Valid()
      modifies this, account, account.store
      ensures Valid() && account.store == old(account.store) && old(deaths) <= deaths
      ensures Handled(old(View()), map[], View(), deaths[|old(deaths)|..], now, ttlMs)
      ensures expired == Kept(old(order), old(StaleIds(now(readings))))
      ensures HandedOut(deaths[|old(deaths)|..], old(StaleIds(now(readings)))) == expired
      ensures forall x :: x in expired <==> x in old(regs) && now(old(readings)) - old(regs)[x].lastSeenMs > ttlMs
      ensures forall x :: x in regs ==> now(old(readings)) - regs[x].lastSeenMs <= ttlMs
      ensures readings > old(readings)
      decreases regs.Keys, 0
    {
      hide Handled, Kept, Snapshot, Within, HandedOut;
      ghost var v, before, gone := View(), deaths, StaleIds(now(readings));
      expired := RemoveStale();
      KeptListsAll(v.order, gone);
      NoneHandedOut(gone);
      if expired == [] {
        StillThere(v.regs, regs, gone);
        KeptAll(v.order, regs.Keys);
        NothingHandled(v, View(), now, ttlMs);
        assert deaths[|before|..] == [];
      } else {
        ghost var owed := map x | x in gone :: v.regs[x];
        ghost var w := View();
        StillThere(v.regs, regs, gone);
        assert expired[0] in expired && expired[0] !in regs;
        assert owed.Keys == gone;
        OnExpired(expired, owed, v.readings);
        WholeSweep(v, owed, w, View(), deaths[|before|..], now, ttlMs);
        WithinOf(w, owed, View(), deaths[|before|..], now, ttlMs);
      }
    }

    method OnExpired(expired: seq<string>, ghost owed: Registrations, ghost deadAt: nat)
      requires Valid() && (forall x :: x in expired <==> x in owed) && owed.Keys !! regs.Keys && deadAt < readings
      requires forall i, j :: 0 <= i < j < |expired| ==> expired[i] != expired[j]
      requires forall x :: x in owed ==> Stale(owed[x], now(deadAt), ttlMs)
      modifies this, account, account.store
      ensures Valid() && account.store == old(account.store) && old(deaths) <= deaths
      ensures Handled(old(View()), owed, View(), deaths[|old(deaths)|..], now, ttlMs)
      ensures readings >= old(readings) && HandedOut(deaths[|old(deaths)|..], owed.Keys) == expired
      decreases regs.Keys, 3
    {
      hide Handled, Kept, Snapshot, Within, DeathOk, HandedOut, Stale;
      ghost var v, before := View(), deaths;
      NoneHandedOut(owed.Keys);
      ghost var done: Registrations := map[];
      NothingHandled(v, v, now, ttlMs);
      assert deaths[|before|..] == [];
      for i := 0 to |expired|
        invariant Valid() && account.store == old(account.store) && before <= deaths && readings >= v.readings
        invariant regs.Keys <= v.regs.Keys && Handled(v, done, View(), deaths[|before|..], now, ttlMs)
        invariant HandedOut(deaths[|before|..], owed.Keys) == expired[..i]
        invariant done.Keys == (set x | x in expired[..i]) && forall x :: x in done ==> x in owed && done[x] == owed[x]
      {
        var id := expired[i];
        assert id in expired && id !in done;
        ghost var earlier := deaths;
        HandOut(id, owed[id], deadAt, v, done, |before|);
        OneMoreHandedOut(earlier, deaths, |before|, owed.Keys);
        done := done[id := owed[id]];
        assert expired[..i + 1] == expired[..i] + [id];
      }
      assert expired[..|expired|] == expired;
      assert done == owed;
    }

    /** Give one removed endpoint's tasks to the reassignment, with the endpoints then alive. */
    method HandOut(id: string, ghost last: Registration, ghost deadAt: nat, ghost v: World, ghost done: Registrations, ghost from: nat)
      requires Valid() && from <= |deaths| && deadAt < readings && v.readings <= readings
      requires Handled(v, done, View(), deaths[from..], now, ttlMs)
      requires id !in v.regs && id !in done && Stale(last, now(deadAt), ttlMs) && done.Keys !! v.regs.Keys
      modifies this, account, account.store
      ensures Valid() && account.store == old(account.store) && old(deaths) <= deaths && readings >= old(readings)
      ensures Handled(v, done[id := last], View(), deaths[from..], now, ttlMs) && regs.Keys <= v.regs.Keys
      ensures |deaths| > |old(deaths)| && deaths[|deaths| - 1].endpointId == id
      ensures forall k :: |old(deaths)| <= k < |deaths| - 1 ==> deaths[k].endpointId in v.regs
      decreases regs.Keys, 2
    {
      hide Handled, Kept, Snapshot, Within, DeathOk, ReassignInFlight;
      ghost var w, a := View(), deaths[from..];
      var alive := ListAlive();
      ghost var x, b := View(), deaths[from + |a|..];
      assert deaths[from..] == a + b;
      ThenNested(v, done, w, a, x, b, now, ttlMs);
      WithinOf(v, done, w, a, now, ttlMs);
      WithinOf(v, done, x, a + b, now, ttlMs);
      NestedIds(w, x, b, now, ttlMs);
      var stamp := stamps(readings);
      ghost var d := Death(id, last, deadAt, w.readings, regs, alive, stamp);
      account.ReassignInFlightTasks(id, alive, stamp);
      deaths := deaths + [d];
      assert deaths[from..] == a + b + [d];
      FreshOk(d, v.regs, now, ttlMs);
      ThenDeath(v, done, x, a + b, d, View(), now, ttlMs);
    }

    method Registered() returns (endpoints: seq<Scheduler.Endpoint>)
      requires Valid()
      ensures endpoints == Snapshot(order, regs)
    {
      endpoints := [];
      for i := 0 to |order|
        invariant endpoints == Snapshot(order[..i], regs)
      {
        assert order[i] in order;
        SnapshotOneMore(order[..i], order[i], regs);
        assert order[..i + 1] == order[..i] + [order[i]];
        endpoints := endpoints + [Scheduler.Endpoint(order[i], regs[order[i]].models)];
      }
      assert order[..|order|] == order;
    }

    /** The endpoints alive after a sweep. */
    method ListAlive() returns (alive: seq<Scheduler.Endpoint>)
      requires Valid()
      modifies this, account, account.store
      ensures Valid() && account.store == old(account.store) && old(deaths) <= deaths
      ensures Handled(old(View()), map[], View(), deaths[|old(deaths)|..], now, ttlMs)
      ensures alive == Snapshot(order, regs)
      ensures forall x :: x in regs ==> now(old(readings)) - regs[x].lastSeenMs <= ttlMs
      ensures readings > old(readings)
      decreases regs.Keys, 1
    {
      hide Handled, Kept, Snapshot;
      var _ := Sweep();
      alive := Registered();
    }

    /** The gate in front of a push: the endpoint is connected, alive, and its first entry for the model has room. */
    method CanDispatch(endpointId: string, modelKey: string, online: bool) returns (allowed: bool)
      requires Valid()
      modifies this, account, account.store
      ensures Valid() && account.store == old(account.store) && old(deaths) <= deaths
      ensures !online ==> !allowed && View() == old(View()) && deaths == old(deaths)
      ensures online ==> Handled(old(View()), map[], View(), deaths[|old(deaths)|..], now, ttlMs)
      ensures online ==> (allowed <==> endpointId in regs && exists i :: 0 <= i < |regs[endpointId].models| && RoomAt(regs[endpointId].models, modelKey, i))
      ensures allowed ==> now(old(readings)) - regs[endpointId].lastSeenMs <= ttlMs
    {
      hide Handled, Snapshot, RoomAt;
      if !online {
        return false;
      }
      var alive := ListAlive();
      var i := 0;
      while i < |alive| && alive[i].endpointId != endpointId
        invariant 0 <= i <= |alive| && forall k :: 0 <= k < i ==> alive[k].endpointId != endpointId
      {
        i := i + 1;
      }
      if endpointId in regs { SnapshotMembers(order, regs, Scheduler.Endpoint(endpointId, regs[endpointId].models)); }
      if i == |alive| {
        return false;
      }
      SnapshotMembers(order, regs, alive[i]);
      FirstRemainingAt(alive[i].models, modelKey);
      return FirstRemaining(alive[i].models, modelKey) >= 1;
    }
  }

  /** The queue room of the first model entry with this key; zero when there is none. */
  function FirstRemaining(models: seq<Inspection.Model>, modelKey: string): int {
    if models == [] then 0
    else if models[0].modelKey == modelKey then models[0].queueRemaining
    else FirstRemaining(models[1..], modelKey)
  }

  /** Entry i is the first one with this key, and it has room. */
  predicate RoomAt(models: seq<Inspection.Model>, modelKey: string, i: nat) {
    && i < |models| && models[i].modelKey == modelKey && models[i].queueRemaining >= 1
    && forall j :: 0 <= j < i ==> models[j].modelKey != modelKey
  }

  lemma {:induction false} FirstRemainingAt(models: seq<Inspection.Model>, modelKey: string)
    ensures FirstRemaining(models, modelKey) >= 1 <==> exists i :: 0 <= i < |models| && RoomAt(models, modelKey, i)
  {
    if models != [] {
      FirstRemainingAt(models[1..], modelKey);
      assert forall i :: 0 < i < |models| ==> models[i] == models[1..][i - 1];
      if models[0].modelKey == modelKey {
        assert models[0].queueRemaining >= 1 ==> RoomAt(models, modelKey, 0);
      } else {
        forall i | 0 < i < |models| ensures RoomAt(models, modelKey, i) <==> RoomAt(models[1..], modelKey, i - 1) {
        }
        if i :| 0 <= i < |models[1..]| && RoomAt(models[1..], modelKey, i) { assert RoomAt(models, modelKey, i + 1); }
      }
    }
  }

  // ---------------------------------------------------------------- a sweep inside the dispatch protocol

  ghost function ExpireSteps(deaths: seq<Death>): seq<Pump.Step> {
    if deaths == [] then []
    else [Pump.Expire(deaths[0].endpointId, deaths[0].candidates, deaths[0].stamp)] + ExpireSteps(deaths[1..])
  }

  /** A sweep's effect on the ledger is that of as many expiry steps of the protocol, possible in every state. */
  lemma {:induction false} SweepIsExpirySteps(s: Pump.State, deaths: seq<Death>)
    ensures Pump.IsRun(s, ExpireSteps(deaths)) && Pump.After(s, ExpireSteps(deaths)).entries == AfterDeaths(s.entries, deaths)
    decreases |deaths|
  {
    hide AfterDeaths, ReassignInFlight, Pump.WriteAll, Pump.AddAll, Pump.Dying;
    if deaths == [] {
      NoDeaths(s.entries);
    } else {
      var d := deaths[0];
      var step := Pump.Expire(d.endpointId, d.candidates, d.stamp);
      assert ExpireSteps(deaths)[1..] == ExpireSteps(deaths[1..]);
      SweepIsExpirySteps(Pump.Next(s, step), deaths[1..]);
      NoDeaths(s.entries);
      OneMoreDeath(s.entries, [], d);
      DeathsCompose(s.entries, [d], deaths[1..]);
      assert [] + [d] == [d] && [d] + deaths[1..] == deaths;
    }
  }

  lemma NoDeaths(entries: Entries)
    ensures AfterDeaths(entries, []) == entries
  {
  }

  // ---------------------------------------------------------------- bookkeeping of the methods

  lemma NestedIds(v: World, w: World, deaths: seq<Death>, now: nat -> int, ttlMs: int)
    requires Handled(v, map[], w, deaths, now, ttlMs)
    ensures forall k :: 0 <= k < |deaths| ==> deaths[k].endpointId in v.regs
  {
    forall k | 0 <= k < |deaths| ensures deaths[k].endpointId in v.regs {
      assert deaths[k].endpointId in Ids(deaths);
    }
  }

  lemma NoneHandedOut(ids: set<string>)
    ensures HandedOut([], ids) == []
  {
  }

  /** Deaths of other endpoints do not show, the last one does. */
  lemma LastHandedOut(a: seq<Death>, b: seq<Death>, ids: set<string>)
    requires |a| < |b| && b[..|a|] == a && b[|b| - 1].endpointId in ids
    requires forall k :: |a| <= k < |b| - 1 ==> b[k].endpointId !in ids
    ensures HandedOut(b, ids) == HandedOut(a, ids) + [b[|b| - 1].endpointId]
  {
    OthersHandedOut(a, b[..|b| - 1], ids);
  }

  lemma OneMoreHandedOut(earlier: seq<Death>, deaths: seq<Death>, from: nat, ids: set<string>)
    requires from <= |earlier| < |deaths| && earlier <= deaths && deaths[|deaths| - 1].endpointId in ids
    requires forall k :: |earlier| <= k < |deaths| - 1 ==> deaths[k].endpointId !in ids
    ensures HandedOut(deaths[from..], ids) == HandedOut(earlier[from..], ids) + [deaths[|deaths| - 1].endpointId]
  {
    assert deaths[from..][..|earlier| - from] == earlier[from..];
    LastHandedOut(earlier[from..], deaths[from..], ids);
  }

  lemma {:induction false} OthersHandedOut(a: seq<Death>, b: seq<Death>, ids: set<string>)
    requires |a| <= |b| && b[..|a|] == a && forall k :: |a| <= k < |b| ==> b[k].endpointId !in ids
    ensures HandedOut(b, ids) == HandedOut(a, ids)
    decreases |b|
  {
    if |a| < |b| {
      assert b[..|b| - 1][..|a|] == a;
      OthersHandedOut(a, b[..|b| - 1], ids);
    } else {
      assert b == a;
    }
  }

  lemma FreshOk(d: Death, before: Registrations, now: nat -> int, ttlMs: int)
    requires d.deadAt < d.aliveAt && Stale(d.last, now(d.deadAt), ttlMs) && d.endpointId !in before && Within(d.alive, before)
    requires forall x :: x in d.alive ==> !Stale(d.alive[x], now(d.aliveAt), ttlMs)
    ensures DeathOk(d, now, ttlMs)
  {
  }

  lemma StillThere(before: Registrations, after: Registrations, gone: set<string>)
    requires after == before - gone && gone <= before.Keys
    ensures gone == {} ==> after == before
    ensures var owed := map x | x in gone :: before[x]; Within(owed, before) && after == before - owed.Keys
  {
  }

  lemma WithinOf(v: World, owed: Registrations, w: World, deaths: seq<Death>, now: nat -> int, ttlMs: int)
    requires Handled(v, owed, w, deaths, now, ttlMs)
    ensures Within(w.regs, v.regs) && w.regs.Keys <= v.regs.Keys && v.readings <= w.readings
  {
  }

  lemma {:induction false} KeptOneMore(order: seq<string>, x: string, ids: set<string>)
    ensures Kept(order + [x], ids) == Kept(order, ids) + if x in ids then [x] else []
  {
    if order != [] {
      KeptOneMore(order[1..], x, ids);
      assert (order + [x])[1..] == order[1..] + [x];
    }
  }

  lemma {:induction false} SnapshotOneMore(order: seq<string>, x: string, regs: Registrations)
    ensures Snapshot(order + [x], regs) == Snapshot(order, regs) + if x in regs then [Scheduler.Endpoint(x, regs[x].models)] else []
  {
    if order != [] {
      SnapshotOneMore(order[1..], x, regs);
      assert (order + [x])[1..] == order[1..] + [x];
    }
  }
}
