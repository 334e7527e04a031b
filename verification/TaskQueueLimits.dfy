/** How far the task queue's promises reach: exact conditions, and states that show where they end. */
module TaskQueueLimits {
  import opened Js
  import opened TaskQueue
  import opened TaskQueueRuns

  // ---------------------------------------------------------------- the empty-handed return

  /** The marks cover the whole queue: no id twice, and every one marked. */
  ghost predicate Covered(q: seq<Task>, marks: set<string>) {
    && (forall i, j :: 0 <= i < j < |q| ==> q[i].taskId != q[j].taskId)
    && forall i :: 0 <= i < |q| ==> q[i].taskId in marks
  }

  lemma {:induction false} ScanFindsNothing(q: seq<Task>, marks: set<string>)
    ensures ScanList(q, marks).found.None? <==> Covered(q, marks)
  {
    if q != [] && q[0].taskId in marks {
      var tail, rest := q[1..], marks - {q[0].taskId};
      ScanFindsNothing(tail, rest);
      assert forall i :: 0 < i < |q| ==> q[i] == tail[i - 1];
      if Covered(tail, rest) {
        assert forall i :: 0 < i < |q| ==> q[i].taskId != q[0].taskId;
      }
    }
  }

  lemma LaneFindsNothing(l: Lane)
    ensures PopLane(l).1.None? <==> Covered(Pending(l), l.revoked)
  {
    ScanFindsNothing(Pending(l), l.revoked);
  }

  lemma OrderIsPart(lanes: Lanes, order: seq<string>)
    requires IsOrder(lanes, order)
    ensures IsOrderPart(lanes, order)
  {
  }

  /** popAny returns false without a shutdown if and only if something is queued and, in every lane, the marks cover all of it. */
  lemma EndedExactly(s: State, order: seq<string>)
    requires IsOrder(s.lanes, order) && !s.shuttingDown
    ensures PopVerdict(s, order) == Ended <==>
      AnyQueued(s.lanes, order) && forall k :: k in s.lanes ==> Covered(Pending(s.lanes[k]), s.lanes[k].revoked)
  {
    hide PopLanes, PopLane, Covered, AnyQueued;
    OrderIsPart(s.lanes, order);
    var i := PopSource(s.lanes, order);
    forall k | k in s.lanes ensures PopLane(s.lanes[k]).1.None? <==> Covered(Pending(s.lanes[k]), s.lanes[k].revoked) {
      LaneFindsNothing(s.lanes[k]);
    }
    if i == |order| {
      forall k | k in s.lanes ensures Covered(Pending(s.lanes[k]), s.lanes[k].revoked) {
        var j :| 0 <= j < |order| && order[j] == k;
      }
    } else {
      assert order[i] in s.lanes;
    }
  }

  /** One queued task, revoked: the caller gets false although the queue is open. */
  lemma RevokedTaskEndsThePop(t: Task, limit: int)
    requires !t.compensation && limit > 0
    ensures var start, order := State(map[t.modelKey := Lane([], [], {}, limit)], false), [t.modelKey];
      PopVerdict(Run(start, order, [Op.Push(t), Op.Revoke(t.taskId)]), order) == Ended
  {
    var start, order := State(map[t.modelKey := Lane([], [], {}, limit)], false), [t.modelKey];
    var ops := [Op.Push(t), Op.Revoke(t.taskId)];
    assert ops[1..] == [Op.Revoke(t.taskId)] && ops[1..][1..] == [];
    var s1 := Apply(start, order, ops[0]);
    assert s1.lanes[t.modelKey] == Lane([t], [], {}, limit) by { assert [] + [t] == [t]; }
    var s2 := Apply(s1, order, ops[1]);
    assert s2.lanes[t.modelKey] == Lane([t], [], {t.taskId}, limit) by { assert {} + {t.taskId} == {t.taskId}; }
    assert s2.lanes.Keys == {t.modelKey} && !s2.shuttingDown;
    assert Run(start, order, ops) == Run(s1, order, ops[1..]) == Run(s2, order, []);
    assert AnyQueued(s2.lanes, order) by { assert order[0] in s2.lanes && Size(s2.lanes[order[0]]) > 0; }
    assert Pending(s2.lanes[t.modelKey]) == [t];
    EndedExactly(s2, order);
  }

  /** After such a return every lane is empty. */
  lemma EndedMeansDrained(s: State, order: seq<string>, k: string, t: Task)
    requires IsOrder(s.lanes, order) && k in s.lanes
    requires PopVerdict(s, order) == Ended && !s.shuttingDown
    ensures k in Apply(s, order, Pop).lanes && Size(Apply(s, order, Pop).lanes[k]) == 0
    ensures t in Pending(s.lanes[k]) ==> t.taskId in s.lanes[k].revoked
  {
    var i := PopSource(s.lanes, order);
    var l := s.lanes[k];
    var j :| 0 <= j < |order| && order[j] == k;
    PopOneLane(s.lanes, order, k);
    ScanTakesPrefix(Pending(l), l.revoked);
    ScanSkipsMarked(Pending(l), l.revoked);
  }

  // ---------------------------------------------------------------- revocation

  lemma PushAt(s: State, order: seq<string>, t: Task)
    requires t.modelKey in s.lanes && Size(s.lanes[t.modelKey]) < s.lanes[t.modelKey].depthLimit
    ensures Apply(s, order, Op.Push(t)) == s.(lanes := s.lanes[t.modelKey := Enqueue(s.lanes[t.modelKey], t)])
  {
  }

  /** One mark cancels one copy: a task pushed twice into an empty queue is still popped after its revocation. */
  lemma DuplicateOutlivesRevocation(t: Task, limit: int)
    requires !t.compensation && limit >= 2
    ensures var start, order := State(map[t.modelKey := Lane([], [], {}, limit)], false), [t.modelKey];
      !NeverPops(start, order, [Op.Push(t), Op.Push(t), Op.Revoke(t.taskId), Pop], t.taskId)
  {
    var start, order := State(map[t.modelKey := Lane([], [], {}, limit)], false), [t.modelKey];
    var ops := [Op.Push(t), Op.Push(t), Op.Revoke(t.taskId), Pop];
    PushAt(start, order, t);
    var s1 := Apply(start, order, ops[0]);
    assert s1.lanes[t.modelKey] == Lane([t], [], {}, limit) by { assert [] + [t] == [t]; }
    PushAt(s1, order, t);
    var s2 := Apply(s1, order, ops[1]);
    assert s2.lanes[t.modelKey] == Lane([t, t], [], {}, limit) by { assert [t] + [t] == [t, t]; }
    var s3 := Apply(s2, order, ops[2]);
    assert s3.lanes[t.modelKey] == Lane([t, t], [], {t.taskId}, limit) by { assert {} + {t.taskId} == {t.taskId}; }
    assert !s3.shuttingDown;
    TwoCopiesPop(s3, order, t, limit);
    assert ops[1..] == [Op.Push(t), Op.Revoke(t.taskId), Pop] && ops[1..][1..] == [Op.Revoke(t.taskId), Pop];
    assert ops[1..][1..][1..] == [Pop];
    assert !NeverPops(s3, order, [Pop], t.taskId);
    assert !NeverPops(s2, order, [Op.Revoke(t.taskId), Pop], t.taskId);
    assert !NeverPops(s1, order, ops[1..], t.taskId);
  }

  lemma TwoCopiesPop(s: State, order: seq<string>, t: Task, limit: int)
    requires !s.shuttingDown && order == [t.modelKey] && t.modelKey in s.lanes
    requires s.lanes[t.modelKey] == Lane([t, t], [], {t.taskId}, limit)
    ensures PopVerdict(s, order) == Popped(t)
  {
    assert Pending(s.lanes[t.modelKey]) == [t, t] && [t, t][1..] == [t];
    assert ScanList([t], {}) == Scan([t], Some(t), {});
    assert ScanList([t, t], {t.taskId}).found == Some(t);
    assert AnyQueued(s.lanes, order) by { assert order[0] in s.lanes && Size(s.lanes[order[0]]) > 0; }
  }

  lemma FoundInCompensation(l: Lane)
    requires (forall t :: t in l.normal ==> !t.compensation) && (forall t :: t in l.compensation ==> t.compensation)
    requires PopLane(l).1.Some?
    ensures PopLane(l).1.value.compensation <==> !Covered(l.compensation, l.revoked)
  {
    ScanConcat(l.compensation, l.normal, l.revoked);
    ScanFindsNothing(l.compensation, l.revoked);
    ScanTakesPrefix(l.compensation, l.revoked);
    ScanTakesPrefix(l.normal, ScanList(l.compensation, l.revoked).marks);
  }

  /**
   * Which task a pop returns: it comes from the first lane that the marks do not cover, and it is a compensation task
   * exactly when they do not cover that lane's compensation queue. Later lanes have no say.
   */
  lemma PriorityExactly(s: State, order: seq<string>) returns (i: nat)
    requires IsOrder(s.lanes, order) && Sorted(s.lanes) && PopVerdict(s, order).Popped?
    ensures i < |order| && order[i] in s.lanes
    ensures forall j :: 0 <= j < i ==> order[j] in s.lanes && Covered(Pending(s.lanes[order[j]]), s.lanes[order[j]].revoked)
    ensures !Covered(Pending(s.lanes[order[i]]), s.lanes[order[i]].revoked)
    ensures PopVerdict(s, order).task.compensation <==> !Covered(s.lanes[order[i]].compensation, s.lanes[order[i]].revoked)
  {
    hide PopLanes, PopLane, Covered;
    OrderIsPart(s.lanes, order);
    i := PopSource(s.lanes, order);
    forall j | 0 <= j <= i ensures PopLane(s.lanes[order[j]]).1.None? <==> Covered(Pending(s.lanes[order[j]]), s.lanes[order[j]].revoked) {
      LaneFindsNothing(s.lanes[order[j]]);
    }
    FoundInCompensation(s.lanes[order[i]]);
  }

  /** Compensation goes first only within a lane: an earlier lane's normal task, pushed later, is popped before it. */
  lemma CompensationWaitsForEarlierLanes(n: Task, c: Task, limit: int)
    requires !n.compensation && c.compensation && n.modelKey != c.modelKey && limit >= 1
    ensures var start, order := State(map[n.modelKey := Lane([], [], {}, limit), c.modelKey := Lane([], [], {}, limit)], false),
                                [n.modelKey, c.modelKey];
      PopVerdict(Run(start, order, [Op.Push(c), Op.Push(n)]), order) == Popped(n)
  {
    var order, ops := [n.modelKey, c.modelKey], [Op.Push(c), Op.Push(n)];
    var start := State(map[n.modelKey := Lane([], [], {}, limit), c.modelKey := Lane([], [], {}, limit)], false);
    PushAt(start, order, c);
    var s1 := Apply(start, order, ops[0]);
    PushAt(s1, order, n);
    var s2 := Apply(s1, order, ops[1]);
    assert s2.lanes[n.modelKey] == Lane([n], [], {}, limit) by { assert [] + [n] == [n]; }
    assert ops[1..] == [Op.Push(n)] && ops[1..][1..] == [];
    assert Run(start, order, ops) == Run(s1, order, ops[1..]) == Run(s2, order, []);
    assert Pending(s2.lanes[n.modelKey]) == [n];
    assert AnyQueued(s2.lanes, order) by { assert order[0] in s2.lanes && Size(s2.lanes[order[0]]) > 0; }
  }

  /** More copies than the mark covers: either the scan returns one, or it leaves as many too many behind. */
  lemma {:induction false} ScanLeavesExcess(q: seq<Task>, marks: set<string>, id: string)
    requires !Shielded(q, marks, id)
    ensures var r := ScanList(q, marks);
      && |r.taken| <= |q|
      && ((r.found.Some? && r.found.value.taskId == id) || !Shielded(q[|r.taken|..], r.marks, id))
  {
    ScanTakesPrefix(q, marks);
    if q != [] && q[0].taskId in marks {
      var tail, rest := q[1..], marks - {q[0].taskId};
      ScanLeavesExcess(tail, rest, id);
      ScanTakesPrefix(tail, rest);
      assert q[1 + |ScanList(tail, rest).taken|..] == tail[|ScanList(tail, rest).taken|..];
    }
  }

  lemma PopLeavesExcess(l: Lane, id: string)
    requires !Shielded(Pending(l), l.revoked, id)
    ensures (PopLane(l).1.Some? && PopLane(l).1.value.taskId == id) || !Shielded(Pending(PopLane(l).0), PopLane(l).0.revoked, id)
    ensures Size(l) > 0
  {
    ScanLeavesExcess(Pending(l), l.revoked, id);
    ScanTakesPrefix(Pending(l), l.revoked);
    var n := |ScanList(Pending(l), l.revoked).taken|;
    assert Pending(PopLane(l).0) == Pending(l)[n..];
  }

  function TotalSize(lanes: Lanes, order: seq<string>): nat {
    if order == [] then 0 else (if order[0] in lanes then Size(lanes[order[0]]) else 0) + TotalSize(lanes, order[1..])
  }

  lemma {:induction false} TotalShrinks(lanes: Lanes, lanes': Lanes, order: seq<string>, i: nat)
    requires lanes'.Keys == lanes.Keys && forall k :: k in lanes ==> Size(lanes'[k]) <= Size(lanes[k])
    requires i < |order| && order[i] in lanes ==> Size(lanes'[order[i]]) < Size(lanes[order[i]])
    ensures TotalSize(lanes', order) <= TotalSize(lanes, order)
    ensures i < |order| && order[i] in lanes ==> TotalSize(lanes', order) < TotalSize(lanes, order)
  {
    if order != [] { TotalShrinks(lanes, lanes', order[1..], if i > 0 then i - 1 else |order|); }
  }

  lemma FoundShrinks(l: Lane)
    ensures Size(PopLane(l).0) <= Size(l) && (PopLane(l).1.Some? ==> Size(PopLane(l).0) < Size(l))
  {
    ScanTakesPrefix(Pending(l), l.revoked);
  }

  /** A pop that returns a task leaves less queued. */
  lemma PopTakesSome(s: State, order: seq<string>)
    requires IsOrder(s.lanes, order) && PopVerdict(s, order).Popped?
    ensures TotalSize(Apply(s, order, Pop).lanes, order) < TotalSize(s.lanes, order)
  {
    hide PopLane;
    OrderIsPart(s.lanes, order);
    var i := PopSource(s.lanes, order);
    var lanes' := PopLanes(s.lanes, order).0;
    forall k | k in s.lanes ensures Size(lanes'[k]) <= Size(s.lanes[k]) {
      PopOneLane(s.lanes, order, k);
      FoundShrinks(s.lanes[k]);
    }
    FoundShrinks(s.lanes[order[i]]);
    TotalShrinks(s.lanes, lanes', order, i);
  }

  function Pops(n: nat): seq<Op> {
    seq(n, i => Pop)
  }

  ghost predicate HasExcess(lanes: Lanes, id: string) {
    exists k :: k in lanes && !Shielded(Pending(lanes[k]), lanes[k].revoked, id)
  }

  /** A pop that returns another task leaves the excess where it was. */
  lemma ExcessStays(s: State, order: seq<string>, id: string)
    requires IsOrder(s.lanes, order) && !s.shuttingDown && HasExcess(s.lanes, id)
    ensures PopVerdict(s, order).Popped?
    ensures PopVerdict(s, order).task.taskId == id || HasExcess(Apply(s, order, Pop).lanes, id)
  {
    hide PopLane, PopLanes, Shielded;
    OrderIsPart(s.lanes, order);
    var k :| k in s.lanes && !Shielded(Pending(s.lanes[k]), s.lanes[k].revoked, id);
    PopLeavesExcess(s.lanes[k], id);
    var j :| 0 <= j < |order| && order[j] == k;
    assert AnyQueued(s.lanes, order) by { assert order[j] in s.lanes && Size(s.lanes[order[j]]) > 0; }
    var i := PopSource(s.lanes, order);
    if j < i {
      EmptyIsShielded(PopLane(s.lanes[k]).0, s.lanes[k], id);
      assert false;
    }
    assert k in PopLanes(s.lanes, order).0;
  }

  /** A lane from which nothing was returned is empty, and an empty lane has no excess. */
  lemma EmptyIsShielded(after: Lane, before: Lane, id: string)
    requires after == PopLane(before).0 && PopLane(before).1.None?
    ensures Shielded(Pending(after), after.revoked, id)
  {
    ScanTakesPrefix(Pending(before), before.revoked);
    assert Pending(after) == [];
  }

  lemma {:induction false} ExcessIsPopped(s: State, order: seq<string>, id: string) returns (n: nat)
    requires IsOrder(s.lanes, order) && !s.shuttingDown && HasExcess(s.lanes, id)
    ensures !NeverPops(s, order, Pops(n), id)
    decreases TotalSize(s.lanes, order)
  {
    hide PopVerdict, HasExcess, Apply, TotalSize;
    ExcessStays(s, order, id);
    if PopVerdict(s, order).task.taskId == id {
      n := 1;
    } else {
      PopTakesSome(s, order);
      StepOrder(s, order, Pop);
      StaysOpen(s, order);
      n := ExcessIsPopped(Apply(s, order, Pop), order, id);
      n := n + 1;
      assert Pops(n)[1..] == Pops(n - 1);
    }
  }

  lemma StaysOpen(s: State, order: seq<string>)
    ensures Apply(s, order, Pop).shuttingDown == s.shuttingDown
  {
  }

  predicate PushFree(ops: seq<Op>, id: string) {
    forall i :: 0 <= i < |ops| ==> !(ops[i].Push? && ops[i].task.taskId == id)
  }

  /** No continuation that does not push the task again returns it. */
  ghost predicate StaysUnpopped(s: State, order: seq<string>, id: string) {
    forall ops: seq<Op> :: PushFree(ops, id) ==> NeverPops(s, order, ops, id)
  }

  lemma {:induction false} ShutDownNeverPops(s: State, order: seq<string>, ops: seq<Op>, id: string)
    requires s.shuttingDown
    ensures NeverPops(s, order, ops, id)
    decreases |ops|
  {
    if ops != [] { ShutDownNeverPops(Apply(s, order, ops[0]), order, ops[1..], id); }
  }

  /** A task is out of reach for good if and only if the queue is shut down or every lane's marks cover its copies. */
  lemma UnpoppedExactly(s: State, order: seq<string>, id: string)
    requires IsOrder(s.lanes, order)
    ensures StaysUnpopped(s, order, id) <==> s.shuttingDown || AllShielded(s.lanes, id)
  {
    hide NeverPops, Shielded;
    if s.shuttingDown || AllShielded(s.lanes, id) {
      forall ops: seq<Op> | PushFree(ops, id) ensures NeverPops(s, order, ops, id) {
        if s.shuttingDown { ShutDownNeverPops(s, order, ops, id); } else { ShieldOverRuns(s, order, ops, id); }
      }
    } else {
      var n := ExcessIsPopped(s, order, id);
      assert PushFree(Pops(n), id);
    }
  }

  /** A revocation holds for good if and only if the queue is shut down or no lane has the task queued more than once. */
  lemma RevocationHoldsExactly(s: State, order: seq<string>, id: string)
    requires IsOrder(s.lanes, order)
    ensures StaysUnpopped(Apply(s, order, Op.Revoke(id)), order, id) <==>
      s.shuttingDown || forall k :: k in s.lanes ==> Count(Pending(s.lanes[k]), id) <= 1
  {
    hide StaysUnpopped;
    var s' := Apply(s, order, Op.Revoke(id));
    UnpoppedExactly(s', order, id);
    forall k | k in s.lanes ensures Shielded(Pending(s'.lanes[k]), s'.lanes[k].revoked, id) <==> Count(Pending(s.lanes[k]), id) <= 1 {
      assert s'.lanes[k] == s.lanes[k].(revoked := s.lanes[k].revoked + {id});
    }
  }
}
