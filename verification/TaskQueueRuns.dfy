/** Properties of the task queue over every interleaving of its operations. */
module TaskQueueRuns {
  import opened Js
  import opened TaskQueue

  function Run(s: State, order: seq<string>, ops: seq<Op>): State
    decreases |ops|
  {
    if ops == [] then s else Run(Apply(s, order, ops[0]), order, ops[1..])
  }

  /** Lanes hold tasks of their own model, each in the queue of its priority. */
  ghost predicate Sorted(lanes: Lanes) {
    forall k :: k in lanes ==>
      && (forall t :: t in lanes[k].normal ==> t.modelKey == k && !t.compensation)
      && (forall t :: t in lanes[k].compensation ==> t.modelKey == k && t.compensation)
  }

  // ---------------------------------------------------------------- lanes that a pop does not reach

  lemma {:induction false} PopKeys(lanes: Lanes, order: seq<string>)
    ensures PopLanes(lanes, order).0.Keys == lanes.Keys
  {
    hide PopLane;
    if order != [] && order[0] in lanes {
      PopKeys(lanes[order[0] := PopLane(lanes[order[0]]).0], order[1..]);
    }
  }

  /** What one pop does to lane k: nothing, or its own scan. */
  lemma {:induction false} PopOneLane(lanes: Lanes, order: seq<string>, k: string)
    requires IsOrderPart(lanes, order) && k in lanes
    ensures PopLanes(lanes, order).0.Keys == lanes.Keys
    ensures PopLanes(lanes, order).0[k] == lanes[k] || PopLanes(lanes, order).0[k] == PopLane(lanes[k]).0
    ensures k !in order ==> PopLanes(lanes, order).0[k] == lanes[k]
  {
    hide PopLane;
    if order != [] {
      var (lane, found) := PopLane(lanes[order[0]]);
      if found.None? {
        PopOneLane(lanes[order[0] := lane], order[1..], k);
      }
    }
  }

  ghost predicate IsOrderPart(lanes: Lanes, order: seq<string>) {
    && (forall i :: 0 <= i < |order| ==> order[i] in lanes)
    && forall i, j :: 0 <= i < j < |order| ==> order[i] != order[j]
  }

  /** The lane that yields the popped task; every lane before it was drained by revocation, every later one is untouched. */
  lemma {:induction false} PopSource(lanes: Lanes, order: seq<string>) returns (i: nat)
    requires IsOrderPart(lanes, order)
    ensures i <= |order| && PopLanes(lanes, order).0.Keys == lanes.Keys
    ensures forall j :: 0 <= j < i ==> PopLane(lanes[order[j]]).1.None? && PopLanes(lanes, order).0[order[j]] == PopLane(lanes[order[j]]).0
    ensures i < |order| ==>
      PopLanes(lanes, order).1 == PopLane(lanes[order[i]]).1 && PopLane(lanes[order[i]]).1.Some? &&
      PopLanes(lanes, order).0[order[i]] == PopLane(lanes[order[i]]).0
    ensures i == |order| ==> PopLanes(lanes, order).1.None?
    ensures forall j :: i < j < |order| ==> PopLanes(lanes, order).0[order[j]] == lanes[order[j]]
  {
    hide PopLane;
    PopKeys(lanes, order);
    i := 0;
    if order != [] {
      var (lane, found) := PopLane(lanes[order[0]]);
      if found.None? {
        var i' := PopSource(lanes[order[0] := lane], order[1..]);
        PopOneLane(lanes[order[0] := lane], order[1..], order[0]);
        i := i' + 1;
      }
    }
  }

  // ---------------------------------------------------------------- depth

  function Limit(l: Lane): int {
    if l.depthLimit < 0 then 0 else l.depthLimit
  }

  /** A push is accepted if and only if the lane reports room, whatever the priorities; for an unknown lane it reports none. */
  lemma PushNeedsRoom(s: State, t: Task)
    ensures PushVerdict(s, t) == Accepted <==> Remaining(s, t.modelKey) > 0
    ensures Remaining(s, t.modelKey) == 0 ==> PushVerdict(s, t) == if t.modelKey in s.lanes then LaneFull else UnknownLane
    ensures t.modelKey in s.lanes && Remaining(s, t.modelKey) > 0 ==>
      |s.lanes[t.modelKey].normal| + |s.lanes[t.modelKey].compensation| + Remaining(s, t.modelKey) == s.lanes[t.modelKey].depthLimit
  {
  }

  /** Every lane is within its depth limit, and the reported room is exactly what is left. */
  ghost predicate WithinDepth(s: State) {
    forall k :: k in s.lanes ==> Size(s.lanes[k]) <= Limit(s.lanes[k])
  }

  lemma PopShrinks(l: Lane)
    ensures Size(PopLane(l).0) <= Size(l) && PopLane(l).0.depthLimit == l.depthLimit
  {
    ScanTakesPrefix(Pending(l), l.revoked);
  }

  lemma PopKeepsDepth(lanes: Lanes, order: seq<string>, k: string)
    requires IsOrderPart(lanes, order) && k in lanes
    ensures PopLanes(lanes, order).0.Keys == lanes.Keys
    ensures var l := PopLanes(lanes, order).0[k]; l.depthLimit == lanes[k].depthLimit && Size(l) <= Size(lanes[k])
  {
    hide PopLane, PopLanes;
    PopOneLane(lanes, order, k);
    PopShrinks(lanes[k]);
  }

  lemma StepKeepsDepth(s: State, order: seq<string>, op: Op, k: string)
    requires IsOrder(s.lanes, order) && WithinDepth(s) && k in s.lanes
    ensures k in Apply(s, order, op).lanes
    ensures Apply(s, order, op).lanes[k].depthLimit == s.lanes[k].depthLimit
    ensures Size(Apply(s, order, op).lanes[k]) <= Limit(s.lanes[k])
  {
    hide PopLanes;
    if op.Pop? { PopKeepsDepth(s.lanes, order, k); }
  }

  lemma StepStaysWithinDepth(s: State, order: seq<string>, op: Op)
    requires IsOrder(s.lanes, order) && WithinDepth(s)
    ensures WithinDepth(Apply(s, order, op))
  {
    hide PopLanes;
    PopKeys(s.lanes, order);
    forall k | k in s.lanes ensures k in Apply(s, order, op).lanes && Size(Apply(s, order, op).lanes[k]) <= Limit(Apply(s, order, op).lanes[k]) {
      StepKeepsDepth(s, order, op, k);
    }
  }

  /** In every run from empty lanes, a lane's size and its reported room add up to its limit. */
  lemma {:induction false} DepthOverRuns(s: State, order: seq<string>, ops: seq<Op>, k: string)
    requires IsOrder(s.lanes, order) && WithinDepth(s) && k in s.lanes
    ensures k in Run(s, order, ops).lanes
    ensures Size(Run(s, order, ops).lanes[k]) + Remaining(Run(s, order, ops), k) == Limit(s.lanes[k])
    decreases |ops|
  {
    if ops != [] {
      hide Apply;
      StepKeepsDepth(s, order, ops[0], k);
      StepStaysWithinDepth(s, order, ops[0]);
      StepOrder(s, order, ops[0]);
      DepthOverRuns(Apply(s, order, ops[0]), order, ops[1..], k);
    }
  }

  // ---------------------------------------------------------------- conservation

  function QueueOf(l: Lane, compensation: bool): seq<Task> {
    if compensation then l.compensation else l.normal
  }

  /** The tasks of one priority that a lane's scan takes: skipped ones and the returned one, in order. */
  function LaneTaken(l: Lane, compensation: bool): seq<Task> {
    var taken := ScanList(Pending(l), l.revoked).taken;
    var cut := if |taken| <= |l.compensation| then |taken| else |l.compensation|;
    if compensation then taken[..cut] else taken[cut..]
  }

  function TakenFrom(lanes: Lanes, order: seq<string>, k: string, compensation: bool): seq<Task> {
    if order == [] || order[0] !in lanes then []
    else if order[0] == k then LaneTaken(lanes[k], compensation)
    else
      var (lane, found) := PopLane(lanes[order[0]]);
      if found.Some? then [] else TakenFrom(lanes[order[0] := lane], order[1..], k, compensation)
  }

  function TakenBy(s: State, order: seq<string>, op: Op, k: string, compensation: bool): seq<Task> {
    if op.Pop? && !s.shuttingDown && AnyQueued(s.lanes, order) then TakenFrom(s.lanes, order, k, compensation) else []
  }

  function AcceptedBy(s: State, op: Op, k: string, compensation: bool): seq<Task> {
    if op.Push? && op.task.modelKey == k && op.task.compensation == compensation && PushVerdict(s, op.task) == Accepted
    then [op.task] else []
  }

  lemma TakenPrefix(l: Lane)
    ensures var taken := ScanList(Pending(l), l.revoked).taken; var n := |taken|;
      if n <= |l.compensation| then taken == l.compensation[..n]
      else n - |l.compensation| <= |l.normal| && taken == l.compensation + l.normal[..n - |l.compensation|]
  {
    ScanTakesPrefix(Pending(l), l.revoked);
    var taken := ScanList(Pending(l), l.revoked).taken;
    assert taken == Pending(l)[..|taken|];
  }

  lemma LaneConserves(l: Lane, compensation: bool)
    ensures LaneTaken(l, compensation) + QueueOf(PopLane(l).0, compensation) == QueueOf(l, compensation)
  {
    hide ScanList;
    TakenPrefix(l);
  }

  lemma {:induction false} PopConserves(lanes: Lanes, order: seq<string>, k: string, compensation: bool)
    requires IsOrderPart(lanes, order) && k in lanes
    ensures k in PopLanes(lanes, order).0
    ensures TakenFrom(lanes, order, k, compensation) + QueueOf(PopLanes(lanes, order).0[k], compensation) == QueueOf(lanes[k], compensation)
  {
    hide PopLane, LaneTaken;
    if order != [] {
      var (lane, found) := PopLane(lanes[order[0]]);
      if order[0] == k {
        LaneConserves(lanes[k], compensation);
        if found.None? { PopOneLane(lanes[k := lane], order[1..], k); }
      } else if found.None? {
        PopConserves(lanes[order[0] := lane], order[1..], k, compensation);
      }
    }
  }

  lemma StepConserves(s: State, order: seq<string>, op: Op, k: string, compensation: bool)
    requires IsOrder(s.lanes, order) && k in s.lanes
    ensures k in Apply(s, order, op).lanes
    ensures QueueOf(s.lanes[k], compensation) + AcceptedBy(s, op, k, compensation) ==
            TakenBy(s, order, op, k, compensation) + QueueOf(Apply(s, order, op).lanes[k], compensation)
  {
    if op.Pop? { PopConserves(s.lanes, order, k, compensation); }
  }

  function AcceptedOver(s: State, order: seq<string>, ops: seq<Op>, k: string, compensation: bool): seq<Task>
    decreases |ops|
  {
    if ops == [] then [] else AcceptedBy(s, ops[0], k, compensation) + AcceptedOver(Apply(s, order, ops[0]), order, ops[1..], k, compensation)
  }

  function TakenOver(s: State, order: seq<string>, ops: seq<Op>, k: string, compensation: bool): seq<Task>
    decreases |ops|
  {
    if ops == [] then [] else TakenBy(s, order, ops[0], k, compensation) + TakenOver(Apply(s, order, ops[0]), order, ops[1..], k, compensation)
  }

  /**
   * Over any run, per lane and priority: what was queued at the start followed by what was accepted equals
   * what was taken, in order, followed by what is still queued. Nothing is lost, duplicated or reordered.
   */
  lemma {:induction false} ConservationOverRuns(s: State, order: seq<string>, ops: seq<Op>, k: string, compensation: bool)
    requires IsOrder(s.lanes, order) && k in s.lanes
    ensures k in Run(s, order, ops).lanes
    ensures QueueOf(s.lanes[k], compensation) + AcceptedOver(s, order, ops, k, compensation) ==
            TakenOver(s, order, ops, k, compensation) + QueueOf(Run(s, order, ops).lanes[k], compensation)
    decreases |ops|
  {
    if ops != [] {
      var op, s' := ops[0], Apply(s, order, ops[0]);
      hide Apply, AcceptedBy, TakenBy;
      StepConserves(s, order, op, k, compensation);
      StepOrder(s, order, op);
      ConservationOverRuns(s', order, ops[1..], k, compensation);
      Regroup(QueueOf(s.lanes[k], compensation), AcceptedBy(s, op, k, compensation), AcceptedOver(s', order, ops[1..], k, compensation),
              TakenBy(s, order, op, k, compensation), QueueOf(s'.lanes[k], compensation),
              TakenOver(s', order, ops[1..], k, compensation), QueueOf(Run(s', order, ops[1..]).lanes[k], compensation));
    }
  }

  lemma Regroup(q: seq<Task>, a: seq<Task>, b: seq<Task>, t: seq<Task>, q': seq<Task>, u: seq<Task>, e: seq<Task>)
    requires q + a == t + q' && q' + b == u + e
    ensures q + (a + b) == (t + u) + e
  {
    calc {
      q + (a + b);
      (q + a) + b;
      t + (q' + b);
      (t + u) + e;
    }
  }

  lemma StepOrder(s: State, order: seq<string>, op: Op)
    requires IsOrder(s.lanes, order)
    ensures IsOrder(Apply(s, order, op).lanes, order)
  {
    if op.Pop? && order != [] { PopOneLane(s.lanes, order, order[0]); }
  }

  // ---------------------------------------------------------------- revocation

  function Count(q: seq<Task>, id: string): nat {
    if q == [] then 0 else (if q[0].taskId == id then 1 else 0) + Count(q[1..], id)
  }

  /** The lane does not hold the task, or holds it once and marked. */
  ghost predicate Shielded(q: seq<Task>, marks: set<string>, id: string) {
    Count(q, id) == 0 || (Count(q, id) == 1 && id in marks)
  }

  lemma {:induction false} ScanShielded(q: seq<Task>, marks: set<string>, id: string)
    requires Shielded(q, marks, id)
    ensures var r := ScanList(q, marks);
      && (r.found.Some? ==> r.found.value.taskId != id)
      && |r.taken| <= |q| && Shielded(q[|r.taken|..], r.marks, id)
  {
    ScanTakesPrefix(q, marks);
    if q != [] {
      var tail := q[1..];
      if q[0].taskId in marks {
        ScanShielded(tail, marks - {q[0].taskId}, id);
        var r := ScanList(tail, marks - {q[0].taskId});
        assert q[1 + |r.taken|..] == tail[|r.taken|..];
      }
    }
  }

  lemma PopLaneShielded(l: Lane, id: string)
    requires Shielded(Pending(l), l.revoked, id)
    ensures Shielded(Pending(PopLane(l).0), PopLane(l).0.revoked, id)
    ensures PopLane(l).1.Some? ==> PopLane(l).1.value.taskId != id
  {
    ScanShielded(Pending(l), l.revoked, id);
    ScanTakesPrefix(Pending(l), l.revoked);
    var n := |ScanList(Pending(l), l.revoked).taken|;
    assert Pending(PopLane(l).0) == Pending(l)[n..];
  }

  ghost predicate AllShielded(lanes: Lanes, id: string) {
    forall k :: k in lanes ==> Shielded(Pending(lanes[k]), lanes[k].revoked, id)
  }

  lemma {:induction false} CountConcat(p: seq<Task>, q: seq<Task>, id: string)
    ensures Count(p + q, id) == Count(p, id) + Count(q, id)
  {
    if p == [] {
      assert p + q == q;
    } else {
      assert (p + q)[1..] == p[1..] + q;
      CountConcat(p[1..], q, id);
    }
  }

  lemma EnqueueCount(l: Lane, t: Task, id: string)
    ensures Count(Pending(Enqueue(l, t)), id) == Count(Pending(l), id) + if t.taskId == id then 1 else 0
  {
    var l' := Enqueue(l, t);
    CountConcat(l.compensation, l.normal, id);
    CountConcat(l'.compensation, l'.normal, id);
    CountConcat(l.compensation, [t], id);
    CountConcat(l.normal, [t], id);
    assert Count([t], id) == if t.taskId == id then 1 else 0;
  }

  lemma StepKeepsShield(s: State, order: seq<string>, op: Op, id: string)
    requires IsOrder(s.lanes, order) && AllShielded(s.lanes, id) && !(op.Push? && op.task.taskId == id)
    ensures AllShielded(Apply(s, order, op).lanes, id)
    ensures op.Pop? && PopVerdict(s, order).Popped? ==> PopVerdict(s, order).task.taskId != id
  {
    match op
    case Push(t) => if t.modelKey in s.lanes { EnqueueCount(s.lanes[t.modelKey], t, id); }
    case Pop =>
      PopKeys(s.lanes, order);
      var i := PopSource(s.lanes, order);
      if i < |order| { PopLaneShielded(s.lanes[order[i]], id); }
      forall k | k in s.lanes
        ensures Shielded(Pending(PopLanes(s.lanes, order).0[k]), PopLanes(s.lanes, order).0[k].revoked, id)
      {
        PopOneLane(s.lanes, order, k);
        PopLaneShielded(s.lanes[k], id);
      }
    case Revoke(_) =>
    case Shutdown =>
  }

  /** No pop of the run returns the task. */
  ghost predicate NeverPops(s: State, order: seq<string>, ops: seq<Op>, id: string)
    decreases |ops|
  {
    ops == [] || (&& (ops[0].Pop? && PopVerdict(s, order).Popped? ==> PopVerdict(s, order).task.taskId != id)
                  && NeverPops(Apply(s, order, ops[0]), order, ops[1..], id))
  }

  lemma {:induction false} ShieldOverRuns(s: State, order: seq<string>, ops: seq<Op>, id: string)
    requires IsOrder(s.lanes, order) && AllShielded(s.lanes, id)
    requires forall i :: 0 <= i < |ops| ==> !(ops[i].Push? && ops[i].task.taskId == id)
    ensures NeverPops(s, order, ops, id)
    decreases |ops|
  {
    if ops != [] {
      StepKeepsShield(s, order, ops[0], id);
      StepOrder(s, order, ops[0]);
      ShieldOverRuns(Apply(s, order, ops[0]), order, ops[1..], id);
    }
  }

  /** A task queued at most once per lane is never popped after its revocation, unless it is pushed again. */
  lemma RevokedIsNeverPopped(s: State, order: seq<string>, ops: seq<Op>, id: string)
    requires IsOrder(s.lanes, order) && forall k :: k in s.lanes ==> Count(Pending(s.lanes[k]), id) <= 1
    requires forall i :: 0 <= i < |ops| ==> !(ops[i].Push? && ops[i].task.taskId == id)
    ensures NeverPops(s, order, [Op.Revoke(id)] + ops, id)
  {
    var s' := Apply(s, order, Op.Revoke(id));
    assert ([Op.Revoke(id)] + ops)[1..] == ops;
    ShieldOverRuns(s', order, ops, id);
  }

  // ---------------------------------------------------------------- priority

  lemma {:induction false} ScanSkipsMarked(q: seq<Task>, marks: set<string>)
    ensures var r := ScanList(q, marks);
      forall i :: 0 <= i < |r.taken| && !(r.found.Some? && i == |r.taken| - 1) ==> r.taken[i].taskId in marks
  {
    if q != [] && q[0].taskId in marks {
      ScanSkipsMarked(q[1..], marks - {q[0].taskId});
      ScanTakesPrefix(q[1..], marks - {q[0].taskId});
    }
  }

  lemma PopKeepsSorted(lanes: Lanes, order: seq<string>)
    requires IsOrder(lanes, order) && Sorted(lanes)
    ensures Sorted(PopLanes(lanes, order).0)
  {
    hide PopLanes, PopLane;
    PopKeys(lanes, order);
    forall k | k in lanes
      ensures forall t :: t in PopLanes(lanes, order).0[k].normal ==> t in lanes[k].normal
      ensures forall t :: t in PopLanes(lanes, order).0[k].compensation ==> t in lanes[k].compensation
    {
      PopOneLane(lanes, order, k);
      PopOnlyRemoves(lanes[k]);
    }
  }

  lemma PopOnlyRemoves(l: Lane)
    ensures forall t :: t in PopLane(l).0.normal ==> t in l.normal
    ensures forall t :: t in PopLane(l).0.compensation ==> t in l.compensation
  {
    hide ScanList;
  }

  lemma StepKeepsSorted(s: State, order: seq<string>, op: Op)
    requires IsOrder(s.lanes, order) && Sorted(s.lanes)
    ensures Sorted(Apply(s, order, op).lanes)
  {
    hide PopLanes;
    if op.Pop? { PopKeepsSorted(s.lanes, order); }
  }

  /** A lane whose scan ends beyond its compensation queue has skipped all of that queue. */
  lemma LaneSkipsCompensation(l: Lane)
    requires forall t :: t in l.compensation ==> t.compensation
    requires PopLane(l).1.Some? && !PopLane(l).1.value.compensation
    ensures PopLane(l).1.value in l.normal && PopLane(l).0.compensation == []
    ensures forall c :: c in l.compensation ==> c.taskId in l.revoked
  {
    ScanTakesPrefix(Pending(l), l.revoked);
    ScanSkipsMarked(Pending(l), l.revoked);
    TakenPrefix(l);
    hide ScanList;
    var r := ScanList(Pending(l), l.revoked);
    var n, m := |r.taken|, |l.compensation|;
    assert n > m;
    assert r.found.value == l.normal[n - 1 - m];
    forall c | c in l.compensation ensures c.taskId in l.revoked {
      var j :| 0 <= j < m && l.compensation[j] == c;
      assert r.taken[j] == c;
    }
  }

  /** A normal task is popped only when every compensation task of its lane had been revoked and is now gone. */
  lemma NormalWaitsForCompensation(s: State, order: seq<string>)
    requires IsOrder(s.lanes, order) && Sorted(s.lanes)
    requires PopVerdict(s, order).Popped? && !PopVerdict(s, order).task.compensation
    ensures var k := PopVerdict(s, order).task.modelKey;
      && k in s.lanes && k in Apply(s, order, Pop).lanes
      && Apply(s, order, Pop).lanes[k].compensation == []
      && forall c :: c in s.lanes[k].compensation ==> c.taskId in s.lanes[k].revoked
  {
    hide PopLane, PopLanes;
    var i := PopSource(s.lanes, order);
    LaneSkipsCompensation(s.lanes[order[i]]);
  }

  lemma {:induction false} SortedOverRuns(s: State, order: seq<string>, ops: seq<Op>)
    requires IsOrder(s.lanes, order) && Sorted(s.lanes)
    ensures IsOrder(Run(s, order, ops).lanes, order) && Sorted(Run(s, order, ops).lanes)
    decreases |ops|
  {
    hide Apply, Sorted;
    if ops != [] {
      StepKeepsSorted(s, order, ops[0]);
      StepOrder(s, order, ops[0]);
      SortedOverRuns(Apply(s, order, ops[0]), order, ops[1..]);
    }
  }

  /** In every run from empty lanes, a normal task is popped only after the compensation tasks of its lane. */
  lemma PriorityOverRuns(s: State, order: seq<string>, ops: seq<Op>)
    requires IsOrder(s.lanes, order) && forall k :: k in s.lanes ==> s.lanes[k].normal == [] && s.lanes[k].compensation == []
    ensures var e := Run(s, order, ops);
      PopVerdict(e, order).Popped? && !PopVerdict(e, order).task.compensation ==>
        var k := PopVerdict(e, order).task.modelKey;
        && k in e.lanes && k in Apply(e, order, Pop).lanes
        && Apply(e, order, Pop).lanes[k].compensation == []
        && forall c :: c in e.lanes[k].compensation ==> c.taskId in e.lanes[k].revoked
  {
    hide PopVerdict, Apply;
    SortedOverRuns(s, order, ops);
    var e := Run(s, order, ops);
    if PopVerdict(e, order).Popped? && !PopVerdict(e, order).task.compensation {
      NormalWaitsForCompensation(e, order);
    }
  }
}
