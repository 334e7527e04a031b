/** The endpoint daemon's per-model task queue (`task_queue.cpp`). Each public method is one atomic step under the mutex. */
module TaskQueue {
  import opened Js

  datatype Task = Task(
    taskId: string, requestId: string, workflowId: string, nodeId: string, modelKey: string,
    inputUri: string, outputUri: string, compensation: bool)

  datatype Lane = Lane(normal: seq<Task>, compensation: seq<Task>, revoked: set<string>, depthLimit: int)

  type Lanes = map<string, Lane>

  datatype State = State(lanes: Lanes, shuttingDown: bool)

  datatype PushOutcome = Accepted | UnknownLane | LaneFull

  /** Blocked: the caller still waits. Ended: popAny returned false. */
  datatype PopOutcome = Blocked | Ended | Popped(task: Task)

  function Size(l: Lane): nat {
    |l.normal| + |l.compensation|
  }

  // ---------------------------------------------------------------- specification of one scan

  /** What a lane serves, in order. */
  function Pending(l: Lane): seq<Task> {
    l.compensation + l.normal
  }

  datatype Scan = Scan(taken: seq<Task>, found: Option<Task>, marks: set<string>)

  /** Take tasks from the front: drop a marked one together with its mark, stop at the first unmarked one. */
  function ScanList(q: seq<Task>, marks: set<string>): Scan {
    if q == [] then Scan([], None, marks)
    else if q[0].taskId in marks then
      var r := ScanList(q[1..], marks - {q[0].taskId});
      r.(taken := [q[0]] + r.taken)
    else Scan([q[0]], Some(q[0]), marks)
  }

  lemma {:induction false} ScanTakesPrefix(q: seq<Task>, marks: set<string>)
    ensures ScanList(q, marks).taken <= q
    ensures ScanList(q, marks).found == None ==> ScanList(q, marks).taken == q
    ensures ScanList(q, marks).marks <= marks
    ensures ScanList(q, marks).found.Some? ==>
      var t := ScanList(q, marks).taken; t != [] && t[|t| - 1] == ScanList(q, marks).found.value
  {
    if q != [] && q[0].taskId in marks {
      ScanTakesPrefix(q[1..], marks - {q[0].taskId});
    }
  }

  function Drop(q: seq<Task>, n: nat): seq<Task> {
    if n <= |q| then q[n..] else []
  }

  function Over(n: nat, m: nat): nat {
    if n <= m then 0 else n - m
  }

  /** The lane after its scan: what was taken leaves the compensation queue first, then the normal one. */
  function PopLane(l: Lane): (Lane, Option<Task>) {
    var r := ScanList(Pending(l), l.revoked);
    (Lane(Drop(l.normal, Over(|r.taken|, |l.compensation|)), Drop(l.compensation, |r.taken|), r.marks, l.depthLimit), r.found)
  }

  /** Scan the lanes in key order until one yields a task. */
  function PopLanes(lanes: Lanes, order: seq<string>): (Lanes, Option<Task>) {
    if order == [] || order[0] !in lanes then (lanes, None)
    else
      var (lane, found) := PopLane(lanes[order[0]]);
      if found.Some? then (lanes[order[0] := lane], found) else PopLanes(lanes[order[0] := lane], order[1..])
  }

  // ---------------------------------------------------------------- specification of the operations

  datatype Op = Push(task: Task) | Pop | Revoke(taskId: string) | Shutdown

  function PushVerdict(s: State, t: Task): PushOutcome {
    if t.modelKey !in s.lanes then UnknownLane
    else if Size(s.lanes[t.modelKey]) >= s.lanes[t.modelKey].depthLimit then LaneFull
    else Accepted
  }

  predicate AnyQueued(lanes: Lanes, order: seq<string>) {
    exists i :: 0 <= i < |order| && order[i] in lanes && Size(lanes[order[i]]) > 0
  }

  function PopVerdict(s: State, order: seq<string>): PopOutcome {
    if s.shuttingDown then Ended
    else if !AnyQueued(s.lanes, order) then Blocked
    else match PopLanes(s.lanes, order).1
      case Some(t) => Popped(t)
      case None => Ended
  }

  function Enqueue(l: Lane, t: Task): Lane {
    if t.compensation then l.(compensation := l.compensation + [t]) else l.(normal := l.normal + [t])
  }

  function Apply(s: State, order: seq<string>, op: Op): State {
    match op
    case Push(t) => if PushVerdict(s, t) == Accepted then s.(lanes := s.lanes[t.modelKey := Enqueue(s.lanes[t.modelKey], t)]) else s
    case Pop => if s.shuttingDown || !AnyQueued(s.lanes, order) then s else s.(lanes := PopLanes(s.lanes, order).0)
    case Revoke(id) => s.(lanes := map k | k in s.lanes :: s.lanes[k].(revoked := s.lanes[k].revoked + {id}))
    case Shutdown => s.(shuttingDown := true)
  }

  function Remaining(s: State, modelKey: string): int {
    if modelKey !in s.lanes then 0
    else if s.lanes[modelKey].depthLimit > Size(s.lanes[modelKey]) then s.lanes[modelKey].depthLimit - Size(s.lanes[modelKey])
    else 0
  }

  // ---------------------------------------------------------------- the queue

  ghost predicate IsOrder(lanes: Lanes, order: seq<string>) {
    && (forall k :: k in lanes <==> k in order)
    && forall i, j :: 0 <= i < j < |order| ==> order[i] != order[j]
  }

  class Queue {
    /** The map's iteration order, fixed once the lanes are configured. */
    const order: seq<string>
    var lanes: Lanes
    var shuttingDown: bool

    ghost predicate Valid()
      reads this
    {
      IsOrder(lanes, order)
    }

    function View(): State
      reads this
    {
      State(lanes, shuttingDown)
    }

    constructor (depthLimits: seq<(string, int)>)
      requires forall i, j :: 0 <= i < j < |depthLimits| ==> depthLimits[i].0 != depthLimits[j].0
      ensures Valid() && !shuttingDown
      ensures order == seq(|depthLimits|, i requires 0 <= i < |depthLimits| => depthLimits[i].0)
      ensures forall i :: 0 <= i < |depthLimits| ==> depthLimits[i].0 in lanes && lanes[depthLimits[i].0] == Lane([], [], {}, depthLimits[i].1)
    {
      order := seq(|depthLimits|, i requires 0 <= i < |depthLimits| => depthLimits[i].0);
      lanes, shuttingDown := map[], false;
      new;
      for i := 0 to |depthLimits|
        invariant forall k :: k in lanes <==> exists j :: 0 <= j < i && depthLimits[j].0 == k
        invariant forall j :: 0 <= j < i ==> depthLimits[j].0 in lanes && lanes[depthLimits[j].0] == Lane([], [], {}, depthLimits[j].1)
        invariant !shuttingDown
      {
        lanes := lanes[depthLimits[i].0 := Lane([], [], {}, depthLimits[i].1)];
      }
      forall k ensures k in lanes <==> k in order {
        if k in lanes {
          var j :| 0 <= j < |depthLimits| && depthLimits[j].0 == k;
          assert order[j] == k;
        }
        if k in order {
          var j :| 0 <= j < |order| && order[j] == k;
          assert depthLimits[j].0 == k;
        }
      }
    }

    method Push(task: Task) returns (outcome: PushOutcome)
      requires Valid()
      modifies this
      ensures Valid() && View() == Apply(old(View()), order, Op.Push(task))
      ensures outcome == PushVerdict(old(View()), task)
    {
      if task.modelKey !in lanes {
        return UnknownLane;
      }
      var lane := lanes[task.modelKey];
      var queued := |lane.normal| + |lane.compensation|;
      if queued >= lane.depthLimit {
        return LaneFull;
      }
      if task.compensation {
        lane := lane.(compensation := lane.compensation + [task]);
      } else {
        lane := lane.(normal := lane.normal + [task]);
      }
      lanes := lanes[task.modelKey := lane];
      return Accepted;
    }

    method Revoke(taskId: string)
      requires Valid()
      modifies this
      ensures Valid() && View() == Apply(old(View()), order, Op.Revoke(taskId))
    {
      for i := 0 to |order|
        invariant lanes.Keys == old(lanes).Keys && shuttingDown == old(shuttingDown)
        invariant forall j :: 0 <= j < i ==> lanes[order[j]] == old(lanes)[order[j]].(revoked := old(lanes)[order[j]].revoked + {taskId})
        invariant forall j :: i <= j < |order| ==> lanes[order[j]] == old(lanes)[order[j]]
      {
        assert order[i] in order;
        lanes := lanes[order[i] := lanes[order[i]].(revoked := lanes[order[i]].revoked + {taskId})];
      }
      assert forall k :: k in lanes ==> lanes[k] == old(lanes)[k].(revoked := old(lanes)[k].revoked + {taskId});
    }

    method QueueRemaining(modelKey: string) returns (n: int)
      requires Valid()
      ensures n == Remaining(View(), modelKey)
    {
      if modelKey !in lanes {
        return 0;
      }
      var queued := |lanes[modelKey].normal| + |lanes[modelKey].compensation|;
      return if lanes[modelKey].depthLimit > queued then lanes[modelKey].depthLimit - queued else 0;
    }

    method Shutdown()
      requires Valid()
      modifies this
      ensures Valid() && View() == Apply(old(View()), order, Op.Shutdown)
    {
      shuttingDown := true;
    }

    /** Skip marked tasks at the front of one queue, consuming their marks, and take the first unmarked one. */
    static method TakeFront(queue: seq<Task>, marks: set<string>) returns (rest: seq<Task>, marks': set<string>, found: Option<Task>)
      ensures found == ScanList(queue, marks).found && marks' == ScanList(queue, marks).marks
      ensures ScanList(queue, marks).taken + rest == queue
    {
      hide ScanList;
      rest, marks', found := queue, marks, None;
      ghost var taken := [];
      while rest != []
        invariant taken + rest == queue
        invariant ScanList(queue, marks).found == ScanList(rest, marks').found
        invariant ScanList(queue, marks).marks == ScanList(rest, marks').marks
        invariant ScanList(queue, marks).taken == taken + ScanList(rest, marks').taken
        decreases |rest|
      {
        var task := rest[0];
        ScanUnroll(rest, marks');
        PrefixGrows(queue, taken, rest);
        rest := rest[1..];
        taken := taken + [task];
        if task.taskId in marks' {
          marks' := marks' - {task.taskId};
        } else {
          return rest, marks', Some(task);
        }
      }
      ScanUnroll(rest, marks');
    }

    /** The two queues of one lane, compensation first. */
    method TakeFromLane(key: string) returns (found: Option<Task>)
      requires key in lanes
      modifies this`lanes
      ensures lanes == old(lanes)[key := PopLane(old(lanes)[key]).0] && found == PopLane(old(lanes)[key]).1
    {
      hide ScanList, PopLane;
      var lane := lanes[key];
      var compensation, marks;
      compensation, marks, found := TakeFront(lane.compensation, lane.revoked);
      var normal := lane.normal;
      if found.None? {
        normal, marks, found := TakeFront(lane.normal, marks);
      }
      TwoQueuesAsOne(lane, compensation, normal, marks, found);
      lanes := lanes[key := lane.(compensation := compensation, normal := normal, revoked := marks)];
    }

    /** A blocked caller keeps waiting; otherwise scan every lane, compensation before normal. */
    method PopAny() returns (outcome: PopOutcome)
      requires Valid()
      modifies this
      ensures Valid() && View() == Apply(old(View()), order, Pop)
      ensures outcome == PopVerdict(old(View()), order)
    {
      hide PopLane, PopLanes;
      if shuttingDown {
        return Ended;
      }
      var queued := exists i :: 0 <= i < |order| && order[i] in lanes && Size(lanes[order[i]]) > 0;
      if !queued {
        return Blocked;
      }
      for i := 0 to |order|
        invariant Valid() && !shuttingDown
        invariant PopLanes(old(lanes), order) == PopLanes(lanes, order[i..])
      {
        PopLanesUnroll(lanes, order, i);
        var found := TakeFromLane(order[i]);
        if found.Some? {
          return Popped(found.value);
        }
      }
      PopLanesEmpty(lanes);
      assert order[|order|..] == [];
      return Ended;
    }
  }

  lemma ScanUnroll(q: seq<Task>, marks: set<string>)
    ensures q == [] ==> ScanList(q, marks) == Scan([], None, marks)
    ensures q != [] && q[0].taskId !in marks ==> ScanList(q, marks) == Scan([q[0]], Some(q[0]), marks)
    ensures q != [] && q[0].taskId in marks ==>
      var r := ScanList(q[1..], marks - {q[0].taskId}); ScanList(q, marks) == Scan([q[0]] + r.taken, r.found, r.marks)
  {
  }

  lemma PrefixGrows(q: seq<Task>, taken: seq<Task>, rest: seq<Task>)
    requires taken + rest == q && rest != []
    ensures (taken + [rest[0]]) + rest[1..] == q
    ensures forall more :: taken + ([rest[0]] + more) == (taken + [rest[0]]) + more
  {
    assert rest == [rest[0]] + rest[1..];
  }

  lemma PopLanesUnroll(lanes: Lanes, order: seq<string>, i: nat)
    requires i < |order| && order[i] in lanes
    ensures var (lane, found) := PopLane(lanes[order[i]]);
      PopLanes(lanes, order[i..]) ==
        if found.Some? then (lanes[order[i] := lane], found) else PopLanes(lanes[order[i] := lane], order[i + 1..])
  {
    assert order[i..][1..] == order[i + 1..];
  }

  lemma PopLanesEmpty(lanes: Lanes)
    ensures PopLanes(lanes, []) == (lanes, None)
  {
  }

  /** Scanning a concatenation scans its second part only when the first yields nothing. */
  lemma {:induction false} ScanConcat(p: seq<Task>, q: seq<Task>, marks: set<string>)
    ensures var a := ScanList(p, marks);
      ScanList(p + q, marks) ==
        if a.found.Some? then a
        else var b := ScanList(q, a.marks); Scan(p + b.taken, b.found, b.marks)
  {
    hide ScanList;
    ScanUnroll(p, marks);
    if p == [] {
      assert p + q == q;
    } else {
      assert (p + q)[0] == p[0] && (p + q)[1..] == p[1..] + q;
      ScanUnroll(p + q, marks);
      if p[0].taskId in marks {
        ScanConcat(p[1..], q, marks - {p[0].taskId});
        assert p == [p[0]] + p[1..];
        PrefixGrows(p, [], p);
        assert forall more :: [p[0]] + (p[1..] + more) == p + more;
      }
    }
  }

  /** The two loops over one lane's queues amount to one scan of its pending list. */
  lemma TwoQueuesAsOne(l: Lane, compensation: seq<Task>, normal: seq<Task>, marks: set<string>, found: Option<Task>)
    requires var a := ScanList(l.compensation, l.revoked);
      && a.taken + compensation == l.compensation
      && if a.found.Some? then normal == l.normal && marks == a.marks && found == a.found
         else var b := ScanList(l.normal, a.marks); b.taken + normal == l.normal && marks == b.marks && found == b.found
    ensures PopLane(l) == (l.(compensation := compensation, normal := normal, revoked := marks), found)
  {
    ScanConcat(l.compensation, l.normal, l.revoked);
    ScanTakesPrefix(l.compensation, l.revoked);
    var a := ScanList(l.compensation, l.revoked);
    if a.found.Some? {
      assert l.compensation[|a.taken|..] == compensation;
    } else {
      var b := ScanList(l.normal, a.marks);
      assert |a.taken| == |l.compensation| && compensation == [];
      assert l.normal[|b.taken|..] == normal;
    }
  }
}
