# Verified model of an inference control plane

This project models four parts of the system and proves what they promise.

* **Binding a workflow.** A submitted graph names its remote nodes. The binder searches the graph for cycles (an
  iterative Tarjan search), refuses a cycle whose grouped nodes fall into different groups, splits the remote nodes into
  partitions, and gives each partition the live endpoint with the most queue room that can serve all of it. A separate
  inspection compares the same graph with the declared model interfaces.
  Files: `Js`, `Digraph`, `Tarjan`, `Inspection`, `InspectionPorts`, `CycleCheck`, `Scheduler`, `Serving`,
  `SchedulerGuarantees`, `SchedulerLimits`, `PlanKeys`.
* **Dispatch and recovery.** The task ledger, its two durable stores, the poll that pushes pending tasks, completion
  reports, endpoint expiry with reassignment, crash recovery, the workflow ledger, and the sidecar's run that waits for
  remote outputs. The ledgers, the registry and the run are classes; the protocol between them is a transition system;
  the run's calls are also programs over its mutex, interleaved action by action.
  Files: `TaskAccount`, `Pump`, `PumpLimits`, `PumpRecords`, `Registry`, `RegistryLimits`, `Sidecar`, `RunLock`, `RunVerdict`,
  `WakeUp`, `WakeUpRuns`, `WorkflowLedger`.
* **The endpoint's task queue.** Lanes with two priorities, a depth bound and lazily consumed revocation marks.
  Files: `TaskQueue`, `TaskQueueRuns`, `TaskQueueLimits`.
* **The contract compiler.** The declaration order of generated types and the generated `to_json`/`from_json` pair.
  Files: `Schema`, `TypeOrder`, `Codec`, `CodecRoundTrip`, `CodecMeaning`, `SchemaMeaning`.

Code that changes state step by step is a method or a class, proved against a specification function of its old state;
the results over runs are lemmas about those functions. `dafny verify dfyconfig.toml` checks everything.

## Main results

1. The iterative search ends after exactly nodes + edges iterator pulls, and its components are exactly the classes of
   mutual reachability (`Tarjan.StronglyConnected`). The cycle check therefore rejects exactly the graphs in which two
   grouped nodes on a common cycle have different first groups (`CycleCheck.CycleViolation`).
2. Binding succeeds if and only if there is no such conflict and every partition has a serving endpoint
   (`Scheduler.BindDecides`); each node goes to the greedy choice for its partition (`SchedulerGuarantees.BoundGreedily`);
   grouped nodes on a cycle end up on one endpoint (`SchedulerGuarantees.CycleIsCoLocated`), and any two nodes do exactly
   when their greedy choices agree (`SchedulerGuarantees.CoLocatedExactly`); and a bound request passes inspection, exactly
   when its shadowed intents are admissible (`SchedulerGuarantees.BoundPassesInspectionExactly`). What serving and
   admissible mean is said in terms of the graph document (`Serving.ServesExactly`,
   `InspectionPorts.CandidateMatchesExactly`). In the plan no node's output is another node's output or any input, and
   a node's inputs are its named ports in order (`PlanKeys.PlanIsSound`, `PlanKeys.OutputsAreApart`,
   `PlanKeys.InputsAreApart`).
3. Over every run of the dispatch protocol, with crashes: transport successes are accounted for one by one
   (`Pump.PushAccounting`), a reported task is never sent again exactly when it is marked pushed
   (`PumpLimits.ReportedTaskIsSettledIffPushed`), every entry is that of a pending task that the poll read
   (`PumpRecords.RecordedAsRead`), both stores agree and recovery from either equals a reset of the live ledger
   (`Pump.StoresAgreeAndRecover`), and a task stays where its published binding says until it is first reassigned
   (`Pump.NoBindingDrift`).
4. The re-entrant sweep terminates, hands every expired endpoint out once, and moves each of its in-flight tasks to the
   best live endpoint or leaves it (`Registry.Registry.Sweep`, `Registry.TaskAfterSweep`); its effect is that of expiry
   steps of the protocol (`Registry.SweepIsExpirySteps`). A removed endpoint's tasks are tried again exactly when it
   registers anew and is removed again (`RegistryLimits.HandedOutAgainExactly`).
5. A remote node's promise is resolved at most once in every run (`WakeUp.ResolvedAtMostOnce`); a lost notice is never
   made up for (`WakeUp.LostNoticeIsLostForever`). The run's calls cannot block each other for good, except through a
   notice with neither error nor output (`RunLock.ProgressUnlessMissingOutput`, `RunLock.DeadlockIsForever`); and a
   finalized run's verdict is fixed exactly when no call under way has an unchecked write ahead
   (`RunVerdict.VerdictIsFixedExactly`).
6. A workflow's status strictly rises, at most seven times, and freezes at its end
   (`WorkflowLedger.AtMostSevenTransitions`, `WorkflowLedger.TerminalIsFrozen`).
7. The task queue refines one list scan per lane and conserves every accepted task in order
   (`TaskQueue.Queue.PopAny`, `TaskQueueRuns.ConservationOverRuns`); a revocation holds for good exactly when no lane has
   the task twice (`TaskQueueLimits.RevocationHoldsExactly`).
8. Ordering the types of a file fails if and only if their references are cyclic (`TypeOrder.TypeOrder.Order`); decoding
   an encoded value gives it back with held nulls collapsed, if and only if its constants hold
   (`CodecRoundTrip.RoundTrip`). On any JSON value, whoever wrote it, decoding yields exactly the values that an
   independent reading relation gives (`CodecMeaning.DecodeExactly`), and the type emitted for a schema holds exactly the
   values that the schema stands for (`SchemaMeaning.TypeFitsSchema`).

## Where the code and its comments differ

The model follows the code in each case.

* The comment on the cycle check promises one endpoint for all remote nodes of a cycle. The check looks only at nodes named
  in `nodeGroups` (`server/lib/scheduler.ts:128-129`), so ungrouped remote nodes on a cycle can be split
  (`SchedulerLimits.UngroupedCycleIsSplit`); with overlapping groups the last group decides a node's endpoint while the
  check reads the first one, so a group, and a cycle, can be split too (`SchedulerLimits.OverlappingGroupsSplitACycle`).
  Nodes with the same last group stay together (`SchedulerGuarantees.GroupIsCoLocated`), and the exact condition for any two
  nodes is `SchedulerGuarantees.CoLocatedExactly`.
* Two intents for one grouped node: the binder checks the last one only, and inspection may then fail
  (`SchedulerLimits.ShadowedIntentFailsInspection`, exactly when: `SchedulerGuarantees.BoundPassesInspectionExactly`).
* A node id, and a port name, may hold slashes, and then two inputs of different nodes can be one object
  (`PlanKeys.SlashedNodesShareAnInput`, exactly when: `PlanKeys.InputKeysDiffer`).
* An edge entry that is null makes the check, and with it the binder, throw, although the graph is meant to be read
  leniently (`SchedulerLimits.NullEdgeThrows`, exactly when: `CycleCheck.CollectEdges`).
* The comment on reassignment says that a later sweep retries a task that found no alternative
  (`server/lib/dispatch-pump.ts:272-274`). A sweep hands out registered endpoints only, so nothing happens to the task
  until its endpoint registers again and expires again (`RegistryLimits.LaterSweepDoesNotRetry`, exactly when:
  `RegistryLimits.HandedOutAgainExactly`, with what effect: `RegistryLimits.RetryOutcome`).
* A task reported after it was put back to unpushed is pushed again, because the poll tests only `pushed`
  (`PumpLimits.LateReportIsReachable`, exactly when: `PumpLimits.ReportedTaskIsSettledIffPushed`). A reassigned task whose
  new endpoint dies before the push is not moved again (`PumpLimits.StrandedBeforePush`, in every run while that
  endpoint's gate stays closed: `PumpLimits.UnpushedTaskIsNotRescued`).
* The recovery reset is not written to the store, so two crashes with no write in between reset a task twice for one push
  (`PumpLimits.TwoResetsForOnePush`, exactly when: `PumpLimits.RepeatsExactly`).
* While a submission waits for the sidecar, a status poll, or a second submission of the same id, can take the workflow off
  `registered`; the first submission's transition is then illegal and its binding summary is dropped
  (`WorkflowLedger.PollDropsBinding`, `WorkflowLedger.SecondSubmissionDropsBinding`, exactly when:
  `WorkflowLedger.BindingIsRecordedUnlessOvertaken`).
* `popAny` may return false without a shutdown (`TaskQueueLimits.RevokedTaskEndsThePop`, exactly when:
  `TaskQueueLimits.EndedExactly`), compensation goes first only within a lane
  (`TaskQueueLimits.CompensationWaitsForEarlierLanes`, exactly: `TaskQueueLimits.PriorityExactly`), and one revocation
  cancels one copy of a task (`TaskQueueLimits.DuplicateOutlivesRevocation`, exactly:
  `TaskQueueLimits.RevocationHoldsExactly`).
* `fail` keeps the first verdict, but the failure branch of `completeNode` and the end of `onTaskComplete` write theirs without
  checking again, so a completed run can still turn failed (`RunVerdict.CompletedThenFailed`, exactly when:
  `RunVerdict.VerdictIsFixedExactly`).
* A success notice without an output locks a mutex that the call already holds (`RunLock.NoticeBlocksExactly`,
  `RunLock.MissingOutputDeadlocks`).
* A property whose type is a list without `null` is still emitted as optional, and so lets null through
  (`contracts/scripts/codegen.mjs:202-207`; `SchemaMeaning.Represents` says so, and `SchemaMeaning.TypeFitsSchema` that nothing
  else gets through).

## Assumptions

* Polls do not overlap; the timer that starts them does not enforce this (`server/instrumentation.ts:93`).
* Store writes take effect at once; the code starts them without waiting.
* Recovery in the code is from Postgres only: the in-memory store is lost on restart (`server/lib/ledger-store.ts:182-189`).
  The steps that recover from the memory half are hypothetical; they are there to say that the two stores never differ.
* In `Pump`, a workflow's binding is published once, as its single dispatching transition allows, and covers every node for
  which the sidecar reports a pending task; for a node that it does not cover, the code falls back to the workflow's first
  endpoint (`server/instrumentation.ts:78`).
* Workflow ids hold no colon, as the submission route requires. The digest behind request ids is an injective symbol.
* The clock, the transport, the signer, fetch and upload results, the gate's answer in `Pump` and the sidecar's answers
  are parameters. No clock is assumed monotone except where `WorkflowLedger.ExpiryIsPermanent` says so.
* Sorting endpoints by capacity is a stable sort. JSON numbers are reals; queue room and capacity are integers.

## Model

| member | source | states |
|---|---|---|
| Digraph.Transitive | server/lib/scheduler.ts:108-109 | reachability composes; with Digraph.Reflexive, mutual reachability has classes |
| Digraph.ClosedReaches | server/lib/scheduler.ts:108-109 | no path leaves a set that no edge leaves |
| Tarjan.StronglyConnected | server/lib/scheduler.ts:138-186 | for every graph the components are non-empty, duplicate-free, disjoint, cover exactly the nodes, and two nodes share one if and only if they reach each other; the pulls are exactly nodes plus edges |
| Tarjan.Search.FollowEdge | server/lib/scheduler.ts:153-184 | a turn with an edge left keeps the search invariant, costs one pull and forgets no discovered node |
| Tarjan.Search.Return | server/lib/scheduler.ts:156-172 | a turn with no edge left keeps the search invariant, costs one pull and discovers nothing |
| Tarjan.Search.OpenRoot | server/lib/scheduler.ts:145-152 | a new root is discovered and the invariant kept |
| Tarjan.PopComponent | server/lib/scheduler.ts:162-170 | the pops return exactly the stack segment from the head up, in reverse, and unmark exactly those nodes |
| Tarjan.SegmentClosed | server/lib/scheduler.ts:162-170 | when the low link is the node's own index, no edge leaves the stack segment except to finished nodes |
| Tarjan.SegmentIsComponent | server/lib/scheduler.ts:162-170 | that segment is then exactly one class of mutual reachability |
| Tarjan.MergeBackward | server/lib/scheduler.ts:158-161 | when a child's segment is merged, every stacked node still reaches back to the active node that holds it |
| Tarjan.DiscoverLowComplete | server/lib/scheduler.ts:175-181 | low links still bound every explored edge out of their segment after a discovery |
| Tarjan.SpentAfterPull | server/lib/scheduler.ts:153-155 | each pull of an edge iterator spends exactly one of the nodes-plus-edges units |
| Inspection.InspectWorkflowGraph | server/lib/inspection.ts:140-223 | the failures are exactly those the targets earn, in order, with the missing-nodes failure first |
| Inspection.InspectTarget | server/lib/inspection.ts:165-219 | unknown model before missing node before interface mismatch, and none exactly when some candidate fits |
| Inspection.InspectionPasses | server/lib/inspection.ts:140-223 | no failure if and only if there are no targets, or the nodes are an array and some registered model accepts the node of every target |
| Inspection.IndexNodes | server/lib/inspection.ts:147-155 | the index maps each string name to the last node that bears it |
| InspectionPorts.FindPortIsFirst | server/lib/inspection.ts:86 | the declaration looked up is the first of its name |
| InspectionPorts.ShapesAgree | server/lib/inspection.ts:70-76 | shapes agree if and only if all dimensions are numbers, the ranks are equal, and each pair of dimensions is equal or holds a -1 |
| InspectionPorts.PortMatchesExactly | server/lib/inspection.ts:79-102 | a port matches if and only if its name is a non-empty string whose first declaration has the same tensor type and size and an agreeing shape |
| InspectionPorts.PortArrayIs | server/lib/inspection.ts:119-122 | a node's ports on a side are exactly the objects and arrays in its list for that side |
| InspectionPorts.PortsMatchExactly | server/lib/inspection.ts:105-117 | a side fits if and only if it has no ports, or is declared and every port matches |
| InspectionPorts.CandidateMatchesExactly | server/lib/inspection.ts:165-219 | a model accepts a node if and only if the inputs fit its declared inputs and the outputs its declared outputs |
| InspectionPorts.RawIndexIsLast | server/lib/inspection.ts:147-155 | a name is indexed if and only if some node bears it, and then at the last such node |
| InspectionPorts.VerdictOfOnlyCandidate | server/lib/inspection.ts:165-219 | with one model of the key, the verdict is empty if and only if the last node of the name fits it on both sides, else one interface mismatch |
| InspectionPorts.RepeatingNodePasses | server/lib/inspection.ts:79-117 | a node that repeats the declarations, up to -1 on either side of any dimension, passes |
| InspectionPorts.OnePortFails | server/lib/inspection.ts:105-117 | one port on either side that fits no declaration makes the verdict an interface mismatch |
| InspectionPorts.AnyDifferenceFails | server/lib/inspection.ts:79-102 | against one declaration a difference in name, tensor type, size, rank or a dimension where neither has -1 is an interface mismatch |
| InspectionPorts.SidesAreNotExchanged | server/lib/inspection.ts:165-219 | a node passes against its own declarations and fails against the same ones with the sides exchanged |
| CycleCheck.FirstGroup | server/lib/scheduler.ts:193-195 | the first group that lists the node, or the number of groups |
| CycleCheck.NodeNamesAreDeclared | server/lib/scheduler.ts:121-125 | the names are duplicate-free and exactly those of readable nodes |
| CycleCheck.GraphOfDocument | server/lib/scheduler.ts:121-136 | the searched graph has exactly the declared nodes and the declared edges between them |
| CycleCheck.CollectEdges | server/lib/scheduler.ts:126-136 | the adjacency in insertion order, and the throw if and only if an edge entry is null |
| CycleCheck.EdgeEndsExactly | server/lib/scheduler.ts:131-136 | an edge entry counts if and only if both of its ends are strings |
| CycleCheck.Splits | server/lib/scheduler.ts:191-197 | true if and only if two grouped members have different first groups |
| CycleCheck.SplitIsConflict | server/lib/scheduler.ts:188-200 | a split component is a conflict between two mutually reachable nodes, and has more than one node |
| CycleCheck.ConflictIsSplit | server/lib/scheduler.ts:188-200 | every conflict shows up inside one component |
| CycleCheck.AnySplit | server/lib/scheduler.ts:188-201 | the pass over the components answers whether the graph has a conflict, skipping only components that are no cycle |
| CycleCheck.CycleViolation | server/lib/scheduler.ts:112-202 | violation if and only if two distinct grouped nodes of the graph reach each other and have different first groups; none when nodes or edges are no array |
| Scheduler.SortIsDescending | server/lib/scheduler.ts:250-254 | candidates are in descending order of total queue room |
| Scheduler.SortMembers | server/lib/scheduler.ts:250-254 | sorting keeps exactly the given endpoints |
| Scheduler.PickIsGreedy | server/lib/scheduler.ts:258-276 | the first candidate that serves has the most queue room among all that serve, ties to the earliest in the input; none is found if and only if nobody serves |
| Scheduler.MakePartitions | server/lib/scheduler.ts:235-247 | the declared groups that name an intent, then each ungrouped intent alone |
| Scheduler.AssignPartitions | server/lib/scheduler.ts:257-276 | the later partition wins a shared node; one partition without an endpoint fails everything |
| Scheduler.AssignSucceeds | server/lib/scheduler.ts:258-276 | assignment succeeds if and only if every partition has an endpoint that serves it |
| Scheduler.BindWorkflow | server/lib/scheduler.ts:213-286 | the result is the specified binding: empty for no intents, else cycle check, partitions, picks, plan |
| Scheduler.BindDecides | server/lib/scheduler.ts:213-276 | with intents, success if and only if there is no cycle violation and every partition is served by some endpoint |
| Scheduler.AssignedByLast | server/lib/scheduler.ts:258-276 | a node gets the endpoint of the last partition that holds it |
| Scheduler.IndexEntries | server/lib/scheduler.ts:226-233 | the binder's index maps each readable name to its last node |
| Serving.CapacityAddsUp | server/lib/scheduler.ts:250-254 | capacity is the sum of queue room over all models |
| Serving.FirstModelExactly | server/lib/scheduler.ts:88 | the model looked up is the first of its key |
| Serving.EntryIndexIsLast | server/lib/scheduler.ts:226-233 | a non-empty name is indexed if and only if some node bears it, with the ports of the last such node |
| Serving.ServesExactly | server/lib/scheduler.ts:82-106 | an endpoint serves an intent if and only if its first model of that key has room and fits, on both sides, the last node of that non-empty name |
| Serving.IntentByIdIsLast | server/lib/scheduler.ts:236 | of several intents for one node the last one is kept |
| PlanKeys.KeysArePaths | server/lib/scheduler.ts:60-68 | the keys are the slash-joined paths of workflow, node and port |
| PlanKeys.OutputKeysDiffer | server/lib/scheduler.ts:63 | two output keys of a workflow are equal if and only if the nodes are, whatever the ids hold |
| PlanKeys.InputKeysDiffer | server/lib/scheduler.ts:62 | two input keys are equal if and only if node and port read the same once joined by a slash; for slash-free node ids, if and only if node and port are the same |
| PlanKeys.SlashedNodesShareAnInput | server/lib/scheduler.ts:62 | two ports of different nodes with slashes in their ids have one key |
| PlanKeys.OutputIsNoInput | server/lib/scheduler.ts:62-63 | no output key is an input key of the workflow |
| PlanKeys.FinalIsApart | server/lib/scheduler.ts:62-65 | nor is the key of the final result an input or output key |
| PlanKeys.KeysAreOfTheWorkflow | server/lib/scheduler.ts:60-68 | every key starts with the path of its workflow |
| PlanKeys.WorkflowsShareNoKey | server/app/api/infer/workflows/route.ts:31-34 | slash-free workflow ids keep the keys of different workflows apart |
| PlanKeys.PortBindingsAre | server/lib/scheduler.ts:301-303 | one binding per port with a non-empty string name, in order, each under its own key |
| PlanKeys.InputsOfFirstNode | server/lib/scheduler.ts:298-303 | the ports are those of the first readable node of that name |
| PlanKeys.IntentNodeExists | server/lib/scheduler.ts:95-98 | every intent of a bound request names a readable node |
| PlanKeys.PlanIsSound | server/lib/scheduler.ts:278-304 | the plan has one binding per intent, in order, with its node and model, a key of the workflow for its output, and the named ports of the first readable node as inputs |
| PlanKeys.SummaryEndpoint | server/lib/scheduler.ts:284 | the endpoint named for the whole workflow is the one its first intent is bound to |
| PlanKeys.OutputsAreApart | server/lib/scheduler.ts:281 | two bindings of a plan write one object if and only if they are for one node |
| PlanKeys.InputsAreApart | server/lib/scheduler.ts:281-282 | no binding writes over an input of any binding; with slash-free node ids two inputs are one object if and only if they are the same port of the same node |
| SchedulerGuarantees.BoundNodes | server/lib/scheduler.ts:235-276 | exactly the intent nodes are bound |
| SchedulerGuarantees.BoundByLastGroup | server/lib/scheduler.ts:239-276 | a grouped node gets the endpoint picked for the last group that lists it |
| SchedulerGuarantees.BoundGreedily | server/lib/scheduler.ts:249-276 | every intent node sits at the greedy choice for the intents that decide its place |
| SchedulerGuarantees.GroupIsCoLocated | server/lib/scheduler.ts:207-208 | two intent nodes with the same last group are bound to one endpoint |
| SchedulerGuarantees.DisjointGroupIsCoLocated | server/lib/scheduler.ts:207-208 | with disjoint groups, every declared group is bound to one endpoint |
| SchedulerGuarantees.CycleIsCoLocated | server/lib/scheduler.ts:186-202 | two intent nodes on a common cycle, each listed in exactly one group, are bound to one endpoint |
| SchedulerGuarantees.CoLocatedExactly | server/lib/scheduler.ts:249-276 | any two intent nodes of a bound request share an endpoint if and only if the greedy choices for the intents that decide their places have the same endpoint id |
| SchedulerGuarantees.IndexesAgree | server/lib/scheduler.ts:226-233 | the inspection's index reads the same node wherever the binder's index has one |
| SchedulerGuarantees.IntentPartition | server/lib/scheduler.ts:235-247 | every intent not shadowed by another one for its grouped node is a member of some partition |
| SchedulerGuarantees.BoundPassesInspectionExactly | server/app/api/infer/workflows/route.ts:98-120 | a bound request with intents passes inspection against the same endpoints if and only if every shadowed intent is admissible |
| SchedulerGuarantees.BindImpliesInspection | server/app/api/infer/workflows/route.ts:98-120 | so it passes whenever intents for one grouped node agree on the model, as with distinct node ids |
| SchedulerLimits.ShadowedIntentFailsInspection | server/lib/scheduler.ts:236-247 | two intents for one grouped node: binding succeeds, inspection fails |
| SchedulerLimits.OverlappingGroupsSplitACycle | server/lib/scheduler.ts:275 | overlapping groups: two nodes of one group on one cycle are bound to different endpoints |
| SchedulerLimits.UngroupedCycleIsSplit | server/lib/scheduler.ts:128-129 | no groups: two remote nodes on one cycle are bound to different endpoints |
| SchedulerLimits.NullEdgeThrows | server/lib/scheduler.ts:131-133 | a request that an endpoint could serve makes the binder throw because of one null edge |
| TaskQueue.ScanTakesPrefix | client/daemon/src/task_queue.cpp:59-69 | a scan removes a prefix, ends in the returned task, drains the list if it returns none, and only consumes marks |
| TaskQueue.ScanConcat | client/daemon/src/task_queue.cpp:58-70 | scanning one queue and then the other is one scan of their concatenation |
| TaskQueue.TwoQueuesAsOne | client/daemon/src/task_queue.cpp:57-71 | the two loops over a lane amount to one scan of compensation followed by normal |
| TaskQueue.Queue.constructor | client/daemon/src/task_queue.cpp:7-11 | one empty lane per configured model with its depth limit |
| TaskQueue.Queue.Push | client/daemon/src/task_queue.cpp:23-43 | refused for an unknown lane or a full one, else appended to the queue of its priority; nothing else changes |
| TaskQueue.Queue.PopAny | client/daemon/src/task_queue.cpp:45-73 | the state and outcome of the list specification: waiting, end on shutdown or drained lanes, else the first unmarked task in lane order |
| TaskQueue.Queue.TakeFromLane | client/daemon/src/task_queue.cpp:57-71 | one lane's two loops leave the lane and find the task that the single scan gives |
| TaskQueue.Queue.Revoke | client/daemon/src/task_queue.cpp:75-81 | every lane is marked, nothing else changes |
| TaskQueue.Queue.QueueRemaining | client/daemon/src/task_queue.cpp:83-89 | limit minus size where positive, else zero; zero for an unknown lane |
| TaskQueue.Queue.Shutdown | client/daemon/src/task_queue.cpp:91-95 | only the flag changes |
| TaskQueueRuns.DepthOverRuns | client/daemon/src/task_queue.cpp:30-34 | in every run size plus reported room equals the limit |
| TaskQueueRuns.PushNeedsRoom | client/daemon/src/task_queue.cpp:23-43 | a push is accepted if and only if the room reported for its lane is positive; otherwise the lane is unknown or full |
| TaskQueueRuns.ConservationOverRuns | client/daemon/src/task_queue.cpp:23-73 | per lane and priority: what was queued and accepted equals what was removed, in order, followed by what is queued |
| TaskQueueRuns.RevokedIsNeverPopped | client/daemon/src/task_queue.hpp:44-48 | a task queued at most once per lane is never popped after its revocation unless pushed again |
| TaskQueueLimits.RevocationHoldsExactly | client/daemon/src/task_queue.cpp:57-81 | after a revocation no continuation without another push returns the task, if and only if the queue is shut down or no lane has it queued more than once |
| TaskQueueLimits.UnpoppedExactly | client/daemon/src/task_queue.cpp:57-73 | in any state the task is out of reach for good if and only if the queue is shut down or every lane's marks cover its copies |
| TaskQueueLimits.ExcessIsPopped | client/daemon/src/task_queue.cpp:57-73 | an open queue with a copy that no mark covers returns the task after some number of pops |
| TaskQueueLimits.DuplicateOutlivesRevocation | client/daemon/src/task_queue.cpp:62-66 | from an empty queue, a task pushed twice and revoked is still popped |
| TaskQueueRuns.PopSource | client/daemon/src/task_queue.cpp:57-71 | a pop comes from the first lane that yields; every earlier lane was drained by revocation, every later one is untouched |
| TaskQueueRuns.NormalWaitsForCompensation | client/daemon/src/task_queue.cpp:56-71 | a normal task is popped only when all compensation tasks of its lane were revoked and are gone |
| TaskQueueRuns.PriorityOverRuns | client/daemon/src/task_queue.cpp:56-71 | so in every run from empty lanes |
| TaskQueueLimits.PriorityExactly | client/daemon/src/task_queue.cpp:56-71 | a pop serves the first lane that the marks do not cover, and returns a compensation task if and only if they do not cover that lane's compensation queue |
| TaskQueueLimits.CompensationWaitsForEarlierLanes | client/daemon/src/task_queue.cpp:56-57 | from an empty queue, an earlier lane's normal task is popped before a later lane's compensation task pushed first |
| TaskQueueLimits.EndedExactly | client/daemon/src/task_queue.cpp:47-72 | without a shutdown, false if and only if something is queued and in every lane the queued ids are distinct and all marked |
| TaskQueueLimits.EndedMeansDrained | client/daemon/src/task_queue.cpp:54-72 | after such a return every lane is empty and all it held had been revoked |
| TaskQueueLimits.RevokedTaskEndsThePop | client/daemon/src/task_queue.cpp:57-72 | one task, pushed and revoked, makes popAny return false on an open queue |
| TaskQueueRuns.StepKeepsSorted | client/daemon/src/task_queue.cpp:36-40 | lanes hold only their own model's tasks, each in the queue of its priority |
| TaskQueueRuns.SortedOverRuns | client/daemon/src/task_queue.cpp:36-40 | so in every run |
| Schema.RefsAreMentions | contracts/scripts/codegen.mjs:342-357 | the reference list is duplicate-free and holds exactly the same-file types mentioned outside nested references |
| TypeOrder.TypeOrder.Visit | contracts/scripts/codegen.mjs:359-372 | terminates; stops only on a cycle; else the name is emitted after all it refers to, and only names it reaches are added |
| TypeOrder.TypeOrder.Order | contracts/scripts/codegen.mjs:337-377 | succeeds if and only if the reference graph is acyclic; then every declared type is listed once, after its dependencies, and enums come before structs when no name is both |
| TypeOrder.AppendProgress | contracts/scripts/codegen.mjs:363-371 | emitting a name whose references are emitted keeps the list in dependency order |
| TypeOrder.PathGoesBack | contracts/scripts/codegen.mjs:337-377 | reference paths only lead backwards in the list |
| TypeOrder.OrderedIsAcyclic | contracts/scripts/codegen.mjs:361 | a complete ordered list means there is no cycle |
| CodecRoundTrip.RoundTrip | contracts/scripts/codegen.mjs:243-334 | for every accepted environment, type and value: decoding the encoding yields the value with held nulls collapsed if all const fields hold their constant (section 6.1.3 of JSON Schema Validation draft-07), and throws otherwise |
| CodecRoundTrip.ExactRoundTrip | contracts/scripts/codegen.mjs:243-334 | the value itself comes back if and only if the constants hold and no optional holds a null |
| CodecRoundTrip.CollapseIsIdentity | contracts/scripts/codegen.mjs:297-301 | collapsing changes nothing if and only if no optional holds a null |
| CodecRoundTrip.NullEncoding | contracts/scripts/codegen.mjs:297-301 | exactly absent optionals and null free JSON encode to null |
| CodecRoundTrip.EncodedLookup | contracts/scripts/codegen.mjs:291-304 | with distinct keys, each member of the object is what its own field wrote |
| CodecRoundTrip.FindOwnValue | contracts/scripts/codegen.mjs:260-266 | with distinct enum values, reading a written value finds it again |
| CodecRoundTrip.EmittedMembersMirror | contracts/scripts/codegen.mjs:277-287 | one member per property, in order, with its key, flags, constant and type; distinct property keys stay distinct |
| CodecRoundTrip.StructIsEmitted | contracts/scripts/codegen.mjs:271-287 | a struct is emitted if and only if the object is closed or has no properties, and every property type is supported |
| CodecRoundTrip.UnknownKeysAreDropped | contracts/scripts/codegen.mjs:306-333 | decoding a struct ignores every key that no member declares |
| CodecRoundTrip.TypeListIsOptional | contracts/scripts/codegen.mjs:200-207 | a type is emitted as optional exactly for type lists and for nullable references |
| CodecRoundTrip.LosingMembers | contracts/scripts/codegen.mjs:282-287 | a member can lose a null if and only if it is optional or nullable over an optional or free-JSON type |
| CodecRoundTrip.NullablePropertyLosesNull | contracts/scripts/codegen.mjs:202-207 | every accepted nullable property is such a member |
| CodecMeaning.TruncateIs | contracts/scripts/codegen.mjs:320 | reading a float as an integer cuts off its fraction, towards zero |
| CodecMeaning.WrapIs | contracts/scripts/codegen.mjs:320 | the wrapped integer is the one in the 64-bit range that is congruent |
| CodecMeaning.ConstantsAreScalar | contracts/scripts/codegen.mjs:313-319 | a constant is matched by exactly the JSON values equal to it, numbers compared by value |
| CodecMeaning.FieldAcceptsExactly | contracts/scripts/codegen.mjs:308-331 | a field is read if and only if a required key is there, a value that is not an allowed null decodes, and a plain constant holds |
| CodecMeaning.StructDecodesExactly | contracts/scripts/codegen.mjs:306-333 | a struct is read from exactly the JSON values that every one of its fields accepts |
| CodecMeaning.DecodeExactly | contracts/scripts/codegen.mjs:243-334 | for every JSON value, decoding succeeds with a value if and only if the reading relation, which is stated without the decoder, holds between them |
| CodecMeaning.DecodedHasType | contracts/scripts/codegen.mjs:243-334 | whatever is decoded has the type it was decoded at |
| CodecMeaning.EncodeExactly | contracts/scripts/codegen.mjs:289-304 | encoding gives exactly the JSON that holds every value and field as the type demands and nothing else |
| CodecMeaning.WritingIsUnique | contracts/scripts/codegen.mjs:289-304 | a value can be written in one way only |
| SchemaMeaning.ScalarsDenote | contracts/scripts/codegen.mjs:222-232 | strings, 64-bit integers, floats, booleans and free JSON each hold exactly their own JSON values |
| SchemaMeaning.OptionalDenotes | contracts/scripts/codegen.mjs:206 | an optional holds null and what its type holds |
| SchemaMeaning.EnumDenotes | contracts/scripts/codegen.mjs:243-268 | an enum holds exactly its listed strings |
| SchemaMeaning.VectorDenotes | contracts/scripts/codegen.mjs:226 | a vector holds exactly the arrays of what its type holds |
| SchemaMeaning.SingleFits | contracts/scripts/codegen.mjs:215-235 | the type emitted for one type name holds exactly the values of that name |
| SchemaMeaning.TypeExprExactly | contracts/scripts/codegen.mjs:190-236 | a type is found for exactly the references, the schemas with one supported type name besides null, and the typeless constants and string enums; every other schema is rejected |
| SchemaMeaning.TypeFitsSchema | contracts/scripts/codegen.mjs:190-236 | for every supported schema, reference, type list, constant, enum or array, the emitted type holds exactly the values that the schema stands for |
| TaskAccount.UpsertIsOverwrite | server/lib/ledger-store.ts:44-46 | the partial update equals the full overwrite if and only if the row agrees on the columns that it omits |
| TaskAccount.LedgerStore.PutTask | server/lib/ledger-store.ts:112-134 | full overwrite or partial update of one row |
| TaskAccount.AlternativeIsBest | server/lib/dispatch-pump.ts:280-299 | the alternative is a candidate other than the dead endpoint, with room for the model and the most capacity among such, ties to the earliest; none if and only if nobody has room |
| TaskAccount.Account.AttachStore | server/lib/dispatch-pump.ts:52-54 | the store is set, the entries stay |
| TaskAccount.Account.Hydrate | server/lib/dispatch-pump.ts:57-62 | stored tasks are taken except where memory has one |
| TaskAccount.Account.Record | server/lib/dispatch-pump.ts:72-78 | a new task is added unpushed and unreported and written through; a known one changes nothing |
| TaskAccount.Account.MarkReported | server/lib/dispatch-pump.ts:85-91 | true exactly for the first report of a known task, which is then written through |
| TaskAccount.Account.MarkPushed | server/lib/dispatch-pump.ts:94-100 | only the pushed flag of a known task changes, written through |
| TaskAccount.Account.Reassign | server/lib/dispatch-pump.ts:133-143 | new endpoint, compensation priority, unpushed, new time and request id, written through |
| TaskAccount.Account.ListInFlight | server/lib/dispatch-pump.ts:103-107 | exactly the endpoint's pushed, unreported tasks, each once |
| TaskAccount.Account.ResetInFlightForRecovery | server/lib/dispatch-pump.ts:122-130 | every in-flight task and no other is put back, counted and written through |
| TaskAccount.Account.ReassignInFlightTasks | server/lib/dispatch-pump.ts:276-306 | every in-flight task of the dead endpoint with an alternative is moved to it and written through; nothing else changes in memory or store |
| TaskAccount.Account.RevokeTasksOfWorkflow | server/lib/dispatch-pump.ts:313-335 | the revocations are exactly the workflow's in-flight tasks at their present endpoints, each once |
| Pump.TaskIdInjective | server/sidecar/src/workflow_run.cpp:202 | colon-free workflow ids make task ids unique per workflow and node |
| Pump.WriteAllIsPut | server/lib/ledger-store.ts:112-134 | the protocol's write of one task is the store's own write |
| Pump.PersistSyncs | server/lib/dispatch-pump.ts:64-69 | writing exactly the changed entries keeps both stores equal and in step with the ledger |
| Pump.StepKeeps | server/lib/dispatch-pump.ts:203-256 | every step of the protocol keeps the invariant |
| Pump.InvOverRuns | server/lib/dispatch-pump.ts:203-256 | so does every run |
| Pump.PushAccounting | server/lib/dispatch-pump.ts:72-169 | in every reachable state a task's transport successes plus its repeated recovery resets are its resets, its deliveries lost to a crash, and one if it is pushed or about to be marked; the request id fits the endpoint, and a pushed task's endpoint got the latest push |
| PumpLimits.PushAccountingWithoutRestart | server/lib/dispatch-pump.ts:72-143 | without restarts, transport successes are reassignments and one if the task is pushed or about to be marked |
| PumpLimits.RepeatsExactly | server/lib/dispatch-pump.ts:158-169 | recovery resets exactly the tasks that it reads as in flight, and repeats a reset exactly for those that the live ledger had unpushed since the last recovery |
| PumpLimits.TwoCrashesResetTwice | server/lib/dispatch-pump.ts:162-167 | two recoveries in a row reset a task in flight twice, once as a repeat |
| PumpLimits.TwoResetsForOnePush | server/lib/dispatch-pump.ts:162-167 | a run from the start with one push and two resets of a task |
| Pump.StoresAgreeAndRecover | server/lib/dispatch-pump.ts:158-169 | in every reachable state both stores hold the same rows, and crash, hydrate and reset give the reset of the live ledger |
| Pump.RecoveryIsIdempotent | server/lib/dispatch-pump.ts:158-169 | a second crash right after recovery changes nothing |
| Pump.RecoveryIsReset | server/lib/dispatch-pump.ts:122-130 | recovery from either store is the recovery reset of memory wherever the invariant holds |
| Pump.StepEvolves | server/lib/dispatch-pump.ts:72-143 | a step keeps every task's identity, keys and report, changes endpoint, priority and time only by reassignment, and adds a task only behind an open gate |
| Pump.ReportsAreForever | server/lib/dispatch-pump.ts:85-91 | a reported task stays reported in every run, recoveries included |
| Pump.FirstRecordIsBound | server/lib/dispatch-pump.ts:220-242 | a task's first record is at the endpoint of its published binding |
| Pump.NoBindingDrift | server/lib/dispatch-pump.ts:220-242 | if the gate stays closed for the default endpoint, every never-reassigned task is at the endpoint its published binding names, for any timing of polls and publication |
| PumpRecords.RecordedAsRead | server/lib/dispatch-pump.ts:220-242 | over every run, each ledger entry is that of a pending task that the poll read: node, model, input and output key for ever, priority and time until it is first moved |
| PumpRecords.MessageFitsLedger | server/lib/dispatch-pump.ts:243-250 | what is sent carries the ledger's request id, goes to the ledger's endpoint, and has the keys of a pending task that was read, the input for reading and the output for writing |
| PumpRecords.GateDecides | server/lib/dispatch-pump.ts:227-242 | a task is sent exactly behind an open gate, unless it was taken for new and is recorded already, and is recorded exactly behind an open gate if it was new |
| PumpRecords.ClosedGateLeavesNoTrace | server/lib/dispatch-pump.ts:227-229 | a closed gate leaves the state as it was; a new task is not even recorded |
| PumpRecords.FailedSendLeavesTheTask | server/lib/dispatch-pump.ts:250 | after a failed send the task is recorded, unpushed and at its endpoint, and the next poll takes it up again |
| PumpLimits.ReportedTaskIsSettledIffPushed | server/lib/dispatch-pump.ts:226 | a reported task that a poll may read is sent in no continuation, if and only if it is marked pushed |
| PumpLimits.SettledOverRuns | server/lib/dispatch-pump.ts:226 | a reported and pushed task stays so and is sent no more in every run, restarts included |
| PumpLimits.LateReportIsReachable | server/lib/dispatch-pump.ts:226 | for every sidecar task a run from the start after which it is reported, unpushed and can be sent again |
| PumpLimits.UnpushedTaskIsNotRescued | server/lib/dispatch-pump.ts:102-107 | while the gate of its endpoint stays closed, an unpushed task not in hand stays unpushed at that endpoint in every run, expiries and restarts included |
| PumpLimits.StrandedBeforePush | server/lib/dispatch-pump.ts:102-107 | for every sidecar task a run from the start in which the endpoint it was moved to dies before the push, and it stays there unpushed although another endpoint has room |
| Registry.DeathsCompose | server/instrumentation.ts:52-56 | handing out endpoints in two portions is handing out all of them |
| Registry.Fate | server/lib/dispatch-pump.ts:289-303 | over any series of deaths a task is moved by the first one that can move it, and by no other |
| Registry.TaskAfterSweep | server/lib/dispatch-pump.ts:263-275 | after a sweep a task has changed only if it was in flight at a removed endpoint; then it was moved, unpushed, with compensation priority and a new request id, to the endpoint with room for its model and maximal capacity among those alive when it was handed out, ties to the earliest registered, unless none of them had room; a nested sweep after that may have removed the new endpoint too |
| Registry.ThenNested | server/lib/endpoint-registry.ts:155-158 | what a nested sweep did adds up with what the enclosing sweep had done |
| Registry.WholeSweep | server/lib/endpoint-registry.ts:138-153 | removal followed by handing out is a complete sweep: each removed endpoint is handed out once |
| Registry.Registry.RegisterEndpoint | server/lib/endpoint-registry.ts:77-100 | refused if known, then if the version is not 1, else entered with the present time |
| Registry.Registry.Heartbeat | server/lib/endpoint-registry.ts:103-121 | refused if unknown, then if the version is not 1, else capability and time are replaced and the account kept |
| Registry.Registry.RemoveStale | server/lib/endpoint-registry.ts:139-147 | exactly the endpoints silent for longer than the limit are removed; the result lists them, and the rest stay, in registration order |
| Registry.Registry.Sweep | server/lib/endpoint-registry.ts:138-153 | terminates with all nested sweeps; returns exactly the stale endpoints in registration order and hands them out in that order; every endpoint removed, here or in a nested sweep, was stale and is handed out once, with candidates that a later clock reading found alive; the ledger is the fold of those reassignments |
| Registry.Registry.OnExpired | server/instrumentation.ts:52-56 | every given endpoint is handed out once, in the given order, along with those that nested sweeps remove |
| Registry.Registry.ListAlive | server/lib/endpoint-registry.ts:155-158 | the remaining endpoints in registration order, none of them stale at the sweep's clock reading |
| Registry.Registry.CanDispatch | server/instrumentation.ts:80-86 | open if and only if the endpoint is connected, still registered after a sweep, and some entry for the model has room with none for it before |
| Registry.SweepIsExpirySteps | server/instrumentation.ts:52-56 | the ledger after a sweep is the one after as many expiry steps of the protocol |
| Registry.FirstRemainingAt | server/instrumentation.ts:84-85 | the room looked up is positive if and only if the first entry for the model has room |
| RegistryLimits.HandedOutAgainExactly | server/lib/dispatch-pump.ts:271-275 | over every history of registrations, heartbeats and sweeps, an endpoint that is gone is handed out again if and only if it registers anew and a later sweep removes it |
| RegistryLimits.RetryOutcome | server/lib/dispatch-pump.ts:271-275 | a task in flight is unchanged until its endpoint is first handed out, and then moves to the best endpoint alive at that moment, or stays if none has room |
| RegistryLimits.StrandedUntilReregistered | server/lib/dispatch-pump.ts:271-275 | a task left at a removed endpoint is unchanged in every history in which that endpoint does not register anew and get removed again |
| RegistryLimits.LaterSweepDoesNotRetry | server/lib/dispatch-pump.ts:271-275 | a history: the only endpoint expires, another one with room registers, and the next sweep leaves the task where it was |
| Sidecar.WorkflowRun.OnRemoteWaiting | server/sidecar/src/workflow_run.cpp:187-212 | the node runs and its dispatch is pending; a starting run becomes waiting |
| Sidecar.WaitingFitsPlans | server/sidecar/src/workflow_run.cpp:187-212 | the dispatch that a waiting node files carries its plan's model, input and output key and the present time |
| Sidecar.PendingOverRuns | server/sidecar/src/workflow_run.cpp:187-212 | in every run all pending dispatches fit the plans |
| Sidecar.WorkflowRun.CompleteNode | server/sidecar/src/workflow_run.cpp:214-285 | unknown node, late notice, failure, missing output and fetch each have their state and outcome |
| Sidecar.WorkflowRun.EndFetch | server/sidecar/src/workflow_run.cpp:259-281 | the promise is resolved once; a failed fetch or a non-scalar fails the run unless it is finalized |
| Sidecar.WorkflowRun.OnNodeComplete | server/sidecar/src/workflow_run.cpp:70-86 | the node's state is set, and a failure ends an unfinished run |
| Sidecar.WorkflowRun.OnTaskComplete | server/sidecar/src/workflow_run.cpp:287-332 | nothing once finalized; else failure for wrong bindings, missing output or failed upload, otherwise completion |
| Sidecar.WorkflowRun.FailWith | server/sidecar/src/workflow_run.cpp:334-342 | the first verdict stands |
| Sidecar.StatusOverRuns | server/sidecar/src/workflow_run.cpp:187-349 | when each call is one atomic step, the status never falls, and status, error code and output are fixed once finalized |
| RunVerdict.StatusNeverFalls | server/sidecar/src/workflow_run.cpp:187-349 | under every interleaving the status never falls and a finalized run stays finalized |
| RunVerdict.VerdictIsFixedExactly | server/sidecar/src/workflow_run.cpp:226-243 | once a run is finalized and while the mutex is free, status, error code and output are fixed under every interleaving if and only if no call under way has a differing write ahead that it makes without checking again |
| RunVerdict.VerdictOverRuns | server/sidecar/src/workflow_run.cpp:187-349 | so in every state that a fresh run's calls can reach |
| RunVerdict.CallsOverwriteNothing | server/sidecar/src/workflow_run.cpp:187-349 | a call that starts after the run was finalized never changes the verdict |
| RunVerdict.CompletedThenFailed | server/sidecar/src/workflow_run.cpp:233-243 | from any unfinished run: a failure notice passes its check, the run completes, and the notice turns it failed |
| RunLock.SoloIsTheEvent | server/sidecar/src/workflow_run.cpp:187-349 | each event of the run is its sequence of lock scopes executed alone, and the run is stuck exactly when that sequence locks the mutex it holds |
| RunLock.NoticeBlocksExactly | server/sidecar/src/workflow_run.cpp:214-257 | a notice alone blocks on its own mutex if and only if its node is remote, the run unfinished, and it brings neither error nor output |
| RunLock.CallIsDisciplined | server/sidecar/src/workflow_run.cpp:187-349 | every call touches the guarded fields only under the mutex and releases it; the only one that locks it twice is such a notice |
| RunLock.ProgressUnlessMissingOutput | server/sidecar/src/workflow_run.cpp:187-349 | under every interleaving of any calls, unfinished calls can go on unless such a notice has deadlocked, and no other call deadlocks |
| RunLock.DeadlockIsForever | server/sidecar/src/workflow_run.cpp:249-252 | after a deadlock no continuation changes the guarded fields or lets a call that waits for the mutex proceed |
| RunLock.MissingOutputDeadlocks | server/sidecar/src/workflow_run.cpp:249-252 | such a notice, once past its check, deadlocks as soon as it takes the mutex |
| WakeUp.Complete | server/app/api/control/v1/tasks/completions/route.ts:36-73 | unknown, duplicate, no sidecar or notify; the first report is marked in every case but the first |
| WakeUp.RunStepCounts | server/sidecar/src/workflow_run.cpp:259-281 | no event but a notice begins a wake-up |
| WakeUp.StepKeeps | server/app/api/control/v1/tasks/completions/route.ts:36-73 | notices, fetches and resolutions of a node sum to at most one, and to none before its report |
| WakeUp.ResolvedAtMostOnce | server/app/api/control/v1/tasks/completions/route.ts:46-50 | in every run each promise is resolved at most once, and only after its own task was reported |
| WakeUp.LostNoticeIsLostForever | server/app/api/control/v1/tasks/completions/route.ts:46-73 | a reported node with no notice under way and no wake-up begun is never woken |
| WakeUpRuns.NoticeIsSentExactly | server/app/api/control/v1/tasks/completions/route.ts:36-73 | a completion adds one notice, for its own task's node, if and only if it is the first report of a known task and was forwarded |
| WakeUpRuns.ReportWakesItsNode | server/app/api/control/v1/tasks/completions/route.ts:46-73 | for every sidecar task of a planned node there is a run in which its report resolves its promise once |
| WorkflowLedger.Ledger.Transition | server/lib/workflow-ledger.ts:97-122 | refused for absent, terminal and illegal cases with the record unchanged, else patched with the new status and time |
| WorkflowLedger.Ledger.Upsert | server/lib/workflow-ledger.ts:86-90 | the record is replaced without a check; the creation time is kept if given |
| WorkflowLedger.Ledger.Hydrate | server/lib/workflow-ledger.ts:68-73 | rows are taken except where memory has the workflow |
| WorkflowLedger.Ledger.BeginSubmission | server/app/api/infer/workflows/route.ts:82-127 | conflict unless absent or registered; else the workflow is registered, rejected or failed |
| WorkflowLedger.Ledger.EndSubmission | server/app/api/infer/workflows/route.ts:148-161 | failed, or dispatching with the binding summary where the table allows it |
| WorkflowLedger.Ledger.ApplySnapshot | server/lib/workflow-status.ts:45-78 | the record moves as the snapshot says where the table allows it; a finished run revokes exactly the workflow's in-flight tasks, even when the transition is refused |
| WorkflowLedger.StepRaises | server/lib/workflow-ledger.ts:41-53 | a successful transition strictly raises the rank; any other step leaves the record as it is |
| WorkflowLedger.LegalExactly | server/lib/workflow-ledger.ts:41-53 | for each status, exactly the statuses from which one transition reaches it |
| WorkflowLedger.SnapshotMoves | server/lib/workflow-status.ts:53-63 | what each sidecar state makes of a registered, dispatching or executing workflow, with the whole resulting record |
| WorkflowLedger.SameStatusChangesNothing | server/lib/workflow-status.ts:53-60 | a poll whose snapshot maps to the status that it had read changes nothing after any steps in between, so the test for an output or error code has no effect on the ledger |
| WorkflowLedger.AtMostSevenTransitions | server/lib/workflow-ledger.ts:41-53 | initial rank plus successful transitions is at most the final rank, which is at most seven |
| WorkflowLedger.TerminalIsFrozen | server/lib/workflow-ledger.ts:97-122 | a terminal record never changes in any field |
| WorkflowLedger.ExpiryIsPermanent | server/lib/shelf-life.ts:25-32 | an expired result stays expired in every run at every later time, and a finished workflow's result is expired exactly when its life has passed since the finishing transition |
| WorkflowLedger.ExpiresAfterADay | server/lib/shelf-life.ts:15-32 | without a usable configuration a finished record expires exactly after 24 hours, otherwise exactly after the configured life, and no unfinished one expires |
| WorkflowLedger.SnapshotsNeverFallBack | server/lib/workflow-status.ts:27-39 | successive states of one run never map to a lower status |
| WorkflowLedger.BindingIsRecordedUnlessOvertaken | server/app/api/infer/workflows/route.ts:148-161 | for any steps of other routes and polls in between, the record becomes dispatching with the submission's endpoint and bindings and is otherwise as before, if and only if none of them was a rejection, a failure, a dispatch, or an advancing poll that saw the run starting or failed; otherwise the record is as they left it |
| WorkflowLedger.PollDropsBinding | server/lib/workflow-status.ts:53-60 | one poll in between, and the binding summary is dropped |
| WorkflowLedger.SecondSubmissionDropsBinding | server/app/api/infer/workflows/route.ts:85-153 | a second submission of the same id in between fails the workflow, and the first one's binding summary is dropped |

## Left out

- Overlapping polls: `setInterval` ticks are not excluded from each other; what two polls at once may do is not modelled.
- Asynchronous store writes: a write that fails or is overtaken by a crash is not modelled; the workflow ledger's own store writes are left out, they follow the task ledger's pattern.
- Aliasing: entries are values, so the in-memory store's rows, which hydration shares with the ledger, are not shared here.
- Liveness: nothing says that a pending task is ever pushed, that a report ever arrives, or that a notice is retried.
- Blocking in the task queue: waiting is an outcome of `popAny`; condition variables, notifications and enqueue times are left out.
- Sidecar.WorkflowRun.CompleteNode: in this class, and in `WakeUp`, each call, callback and fetch thread is one atomic step; `RunLock` and `RunVerdict` interleave the lock scopes for progress, deadlock and the verdict.
- Sidecar.StatusOverRuns: holds for atomic calls only; for interleaved ones the verdict is fixed exactly as `RunVerdict.VerdictIsFixedExactly` says.
- The graph engine, tensors, snapshots of node states, and the filter of active workflows in the poll.
- Rejection reasons and error texts: only accept or reject, except in inspection, where the kind of each failure is kept.
- CodecRoundTrip.RoundTrip: doubles are reals, so NaN and infinities are not covered; decoding a float outside the range of a 64-bit integer wraps here and is undefined in C++.
- Codec: `$ref` resolution is done beforehand, inline enums are named but their name collisions are not, and identifier escaping, comments, file layout and TypeScript output are left out.
- WorkflowLedger.BindingIsRecordedUnlessOvertaken: steps to `inspecting` and `binding` are left out of the rivals, because no route or poll takes them.
- TypeOrder.TypeOrder.Order: references to other files count as leading nowhere.
- Node ids such as `__proto__`, which a JavaScript object treats specially, are ordinary keys of `nodeEndpoint`.
- JSON text: bindings are kept as a map, not as a string, so a damaged `bindingsJson` does not occur.
- Scheduler.BindWorkflow: object keys appear in the plan as strings; signing them is left out.
- SchedulerGuarantees.CycleIsCoLocated: the promise for every remote node of a cycle is false of the code; this covers nodes listed in exactly one group, `SchedulerGuarantees.CoLocatedExactly` gives the exact condition for all.
- Registry status projection, authentication, HTTP, sockets, configuration, logging, user interface and process supervision.
