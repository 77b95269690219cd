# Group deletion scheduling and the Kubernetes list helpers of the cluster autoscaler

This project models two pieces of the cluster autoscaler's sequential logic and proves what they promise.

**Scale-down actuation: the group deletion scheduler.** Drain workers report each node they have finished with. `ScheduleDeletion` reports a node that is ready to go. `AbortNodeDeletion` reports a node that failed, together with the result to record for it.

- A node of a non-atomic node group goes to the batcher at once, on its own.
- A node of an atomic node group is held per group id until the group's target size (fixed when the group is first seen) is reached. The group's nodes then go to the batcher in a single batch.
- Aborting a member of an atomic group that is still accumulating aborts the group for good. Every node it had accumulated gets a failure result, and it never flushes.
- A node that arrives for an aborted group gets a failure result and never reaches the batcher.

The scheduler's implementation file is not part of this model. Its behaviour is taken from its test, `group_deletion_scheduler_test.go`. That test brings in three further pieces:

- `countingBatcher`, which only counts the nodes handed to it;
- `scheduleAll`, which calls `ScheduleDeletion` for every node of every bucket;
- `mergeLists`.

The test also holds four table-driven scenarios.

The model is layered:

- `Actuation` defines pure step functions `Schedule` and `Abort` over a `State`. The `State` holds the per-group accumulators, every batcher call and every result registration.
- `Run` applies any interleaving of calls.
- The classes `GroupDeletionScheduler`, `CountingBatcher` and `NodeDeletionTracker` update their fields in place. Their methods are proved to perform exactly those steps, and the scheduler object carries the invariant below from construction on.
- An invariant, preserved by every step, gives all-or-nothing flushing. Each atomic group id makes at most one batch, of exactly its target size, and only once Flushed.
- Accounting lemmas show that each call's node is counted exactly once: delivered, still held back, or recorded. Aborting a node the group is holding back moves it from held back to recorded, so it is not counted twice.
- `ActuationTest` models the test's helpers as methods. It proves each of the four scenarios: `ScheduleAll` followed by the aborts, then `ScheduleAll` again, yields the expected batcher count and result map.

**Kubernetes utilities: `listers.go`.**

- `ScheduledPods`, `UnschedulablePods` and `filterNodes` are loops that append the elements satisfying a predicate. Each is proved equal to one order-preserving filter function (`Filter`); lemmas give its membership, multiplicity, order, length and idempotence.
- `nodeListerImpl.List` and `Get` are modelled given what the wrapped client-go lister answered.
- The `listerRegistryImpl` getters are modelled on a registry datatype.

## Model

| member | source | states |
|---|---|---|
| CountingBatcher.CountingBatcher.AddNodes | cluster-autoscaler/core/scaledown/actuation/group_deletion_scheduler_test.go:155-161 | the counter grows by exactly the number of nodes handed over; the only other change is the extra call in the history, so the counter always equals the nodes delivered |
| CountingBatcher.TotalNodesIsDelivered | cluster-autoscaler/core/scaledown/actuation/group_deletion_scheduler_test.go:159-161 | the counter equals the number of nodes in all batches delivered so far |
| CountingBatcher.TotalNodesAppend | cluster-autoscaler/core/scaledown/actuation/group_deletion_scheduler_test.go:159-161 | the count and the delivered nodes add up over consecutive runs of calls |
| DeletionTracker.NodeDeletionTracker.DeletionResults | cluster-autoscaler/core/scaledown/actuation/group_deletion_scheduler_test.go:147-150 | the reported map is the map that the registrations so far leave behind |
| DeletionTracker.ResultsMapLatest | cluster-autoscaler/core/scaledown/actuation/group_deletion_scheduler_test.go:147-150 | a node has a result if and only if it was registered; its result is the one from its latest registration |
| DeletionTracker.ResultsMapAppendOthers | cluster-autoscaler/core/scaledown/actuation/group_deletion_scheduler_test.go:134-138 | registering other nodes does not touch a node's result |
| Actuation.Schedule | cluster-autoscaler/core/scaledown/actuation/group_deletion_scheduler_test.go:59-98 | a step only appends to the batcher calls and the registered results, and hands over at most one batch or registers at most one result, never both |
| Actuation.Abort | cluster-autoscaler/core/scaledown/actuation/group_deletion_scheduler_test.go:82-98 | an abort never hands anything to the batcher |
| Actuation.GroupDeletionScheduler.constructor | cluster-autoscaler/core/scaledown/actuation/group_deletion_scheduler_test.go:129 | a new scheduler over a tracker and a batcher that has seen no atomic batch starts with no accumulators and satisfies the invariant |
| Actuation.GroupDeletionScheduler.ScheduleDeletion | cluster-autoscaler/core/scaledown/actuation/group_deletion_scheduler_test.go:169-171 | the accumulators, batcher calls and tracker log become exactly `Schedule` of the previous state; batcher and tracker stay consistent and the invariant is kept |
| Actuation.GroupDeletionScheduler.AbortNodeDeletion | cluster-autoscaler/core/scaledown/actuation/group_deletion_scheduler_test.go:134-138 | the state becomes exactly `Abort` of the previous state: the caller's result first, then the sibling failures; the invariant is kept |
| Actuation.GroupDeletionScheduler.FailSiblings | cluster-autoscaler/core/scaledown/actuation/group_deletion_scheduler_test.go:82-98 | appends one failure per accumulated node other than the trigger, in accumulation order |
| Actuation.InitInv | cluster-autoscaler/core/scaledown/actuation/group_deletion_scheduler_test.go:54-57 | a fresh scheduler has delivered nothing and recorded nothing, and satisfies the invariant |
| Actuation.ScheduleKeepsInv | cluster-autoscaler/core/scaledown/actuation/group_deletion_scheduler_test.go:71-80 | scheduling preserves all-or-nothing flushing: an accumulating group is below its threshold; an atomic batch is its group's whole flush |
| Actuation.AbortKeepsInv | cluster-autoscaler/core/scaledown/actuation/group_deletion_scheduler_test.go:82-98 | aborting preserves the same invariant |
| Actuation.RunKeepsInv | cluster-autoscaler/core/scaledown/actuation/group_deletion_scheduler_test.go:71-98 | the invariant holds after any interleaving of schedule and abort calls |
| Actuation.AtomicGroupFlushedOnce | cluster-autoscaler/core/scaledown/actuation/group_deletion_scheduler_test.go:71-98 | in any reachable state an atomic group has at most one batch, of exactly its target size; it has one if and only if it is Flushed |
| Actuation.StepKeepsTerminal | cluster-autoscaler/core/scaledown/actuation/group_deletion_scheduler_test.go:82-98 | a Flushed or Aborted accumulator never changes again, and no accumulator disappears |
| Actuation.StepIsolatesGroups | cluster-autoscaler/core/scaledown/actuation/group_deletion_scheduler_test.go:82-98 | a call about one group leaves every other group's accumulator and held nodes unchanged; batches only grow, and new batches belong to the call's group |
| Actuation.NonAtomicForwardsAtOnce | cluster-autoscaler/core/scaledown/actuation/group_deletion_scheduler_test.go:59-69 | a non-atomic node reaches the batcher at once and alone; nothing else changes |
| Actuation.AtomicAccumulatesThenFlushes | cluster-autoscaler/core/scaledown/actuation/group_deletion_scheduler_test.go:71-80 | an accumulating atomic group holds the node back below the threshold; at the threshold it hands over all its nodes in one batch and becomes Flushed; nothing is recorded either way |
| Actuation.ScheduleIntoAbortedFails | cluster-autoscaler/core/scaledown/actuation/group_deletion_scheduler_test.go:89-96 | a node scheduled into an aborted group gets a failure result and never reaches the batcher |
| Actuation.SiblingFailuresNodes | cluster-autoscaler/core/scaledown/actuation/group_deletion_scheduler_test.go:82-98 | the sibling failures name only accumulated nodes other than the trigger; when the trigger was not accumulated, they name every accumulated node, in accumulation order |
| Actuation.SiblingFailuresRecorded | cluster-autoscaler/core/scaledown/actuation/group_deletion_scheduler_test.go:82-98 | after appending the sibling failures, each such sibling's result is the aborted-by-sibling failure |
| Actuation.AbortRecordsGivenResult | cluster-autoscaler/core/scaledown/actuation/group_deletion_scheduler_test.go:134-138 | after an abort, the aborted node's result is exactly the caller's result |
| Actuation.AbortFailsAccumulatedSiblings | cluster-autoscaler/core/scaledown/actuation/group_deletion_scheduler_test.go:82-98 | aborting a member of an accumulating group aborts the group, hands nothing to the batcher, and fails every other accumulated member |
| Actuation.AbortOutsideAccumulationRecordsOnly | cluster-autoscaler/core/scaledown/actuation/group_deletion_scheduler_test.go:59-69 | aborting a node whose group is not accumulating records only that node's result and changes nothing else |
| Actuation.ScheduleAccountsOnce | cluster-autoscaler/core/scaledown/actuation/group_deletion_scheduler_test.go:163-174 | a scheduled node is counted exactly once as delivered, held back or recorded; nothing counted before is lost |
| Actuation.AbortHeldBackAccounts | cluster-autoscaler/core/scaledown/actuation/group_deletion_scheduler_test.go:82-98 | aborting a member the group holds back (once) leaves the accounted nodes unchanged: the node moves from held back to recorded, with every sibling |
| Actuation.SiblingFailuresMultiset | cluster-autoscaler/core/scaledown/actuation/group_deletion_scheduler_test.go:82-98 | the sibling failures name every accumulated node as often as it was accumulated, and never the trigger |
| Actuation.AbortAccountsOnce | cluster-autoscaler/core/scaledown/actuation/group_deletion_scheduler_test.go:134-138 | an aborted node that was not held back is counted exactly once; held-back siblings move to recorded, not twice |
| ActuationTest.MergeLists | cluster-autoscaler/core/scaledown/actuation/group_deletion_scheduler_test.go:182-188 | the result is the in-order concatenation of the argument lists |
| ActuationTest.ConcatLength | cluster-autoscaler/core/scaledown/actuation/group_deletion_scheduler_test.go:182-188 | the merged list is as long as all the lists together |
| ActuationTest.ConcatAppend | cluster-autoscaler/core/scaledown/actuation/group_deletion_scheduler_test.go:182-188 | merging splits over the argument lists, and a single list merges to itself |
| ActuationTest.ScheduleAll | cluster-autoscaler/core/scaledown/actuation/group_deletion_scheduler_test.go:163-174 | the scheduler state and the returned error are those of the `scheduleAll` specification |
| ActuationTest.ScheduleAllIsRun | cluster-autoscaler/core/scaledown/actuation/group_deletion_scheduler_test.go:163-174 | `scheduleAll` performs exactly one `ScheduleDeletion` per node, in order, with the bucket's size, up to the first bucket whose size is unreadable |
| ActuationTest.ScheduleAllStopsAtFirstBadBucket | cluster-autoscaler/core/scaledown/actuation/group_deletion_scheduler_test.go:165-168 | at the first bucket whose target size fails, the run stops with that group's error, having scheduled only the earlier buckets |
| ActuationTest.ScheduleAllSucceedsWhenSizesKnown | cluster-autoscaler/core/scaledown/actuation/group_deletion_scheduler_test.go:163-174 | when every target size can be read, no error is returned |
| ActuationTest.ScheduleAllAppend | cluster-autoscaler/core/scaledown/actuation/group_deletion_scheduler_test.go:163-174 | scheduling a merged list is scheduling its parts one after the other; if the first part stops with an error, that is the whole outcome |
| ActuationTest.AbortBucket | cluster-autoscaler/core/scaledown/actuation/group_deletion_scheduler_test.go:135-138 | the inner abort loop performs one abort per node of the bucket, in order, with the simulated result and the bucket's group id |
| ActuationTest.AbortAll | cluster-autoscaler/core/scaledown/actuation/group_deletion_scheduler_test.go:134-139 | the abort loop performs one abort per node of every bucket, in order, with the simulated result |
| ActuationTest.TestScheduleDeletion | cluster-autoscaler/core/scaledown/actuation/group_deletion_scheduler_test.go:114-150 | on a fresh scheduler, batcher and tracker, the test's three phases yield exactly the count and results of `RunTestCase` |
| ActuationTest.NonAtomicBucketForwardsEach | cluster-autoscaler/core/scaledown/actuation/group_deletion_scheduler_test.go:59-69 | each node of a non-atomic bucket reaches the batcher alone, in order; the count grows by the bucket's size |
| ActuationTest.AbortBucketRecordsEach | cluster-autoscaler/core/scaledown/actuation/group_deletion_scheduler_test.go:59-69 | aborting the nodes of a group that is not accumulating records the given result for each and changes nothing else |
| ActuationTest.NoNodesPasses | cluster-autoscaler/core/scaledown/actuation/group_deletion_scheduler_test.go:54-57 | "no nodes": zero nodes delivered, no results |
| ActuationTest.IndividualNodesPasses | cluster-autoscaler/core/scaledown/actuation/group_deletion_scheduler_test.go:59-69 | "individual nodes are deleted right away": 6 delivered; failures recorded for exactly test-node-3, test-node-4 and test-node-5 |
| ActuationTest.InterleavedPrefix | cluster-autoscaler/core/scaledown/actuation/group_deletion_scheduler_test.go:71-96 | two members of atomic-4 and atomic-2, interleaved, flush atomic-2 alone and keep atomic-4 accumulating |
| ActuationTest.LastBucketFlushes | cluster-autoscaler/core/scaledown/actuation/group_deletion_scheduler_test.go:71-80 | atomic-4's last bucket completes it: both groups are Flushed and 6 nodes have been delivered, in two batches |
| ActuationTest.AbortStep | cluster-autoscaler/core/scaledown/actuation/group_deletion_scheduler_test.go:82-98 | aborting atomic-4-node-2 aborts atomic-4; the simulated result goes first, then sibling failures for nodes 0 and 1; atomic-2 and the batches are unchanged |
| ActuationTest.LateArrivalStep | cluster-autoscaler/core/scaledown/actuation/group_deletion_scheduler_test.go:89-96 | atomic-4-node-3, arriving after the abort, only adds a group-aborted failure; the count stays 2 |
| ActuationTest.WholeAtomicGroupsPasses | cluster-autoscaler/core/scaledown/actuation/group_deletion_scheduler_test.go:71-80 | "whole atomic node groups deleted": 6 delivered, no results |
| ActuationTest.AtomicAbortedPasses | cluster-autoscaler/core/scaledown/actuation/group_deletion_scheduler_test.go:82-98 | "atomic node group aborted in the process": only atomic-2's 2 nodes are delivered; failures for exactly atomic-4-node-0 to atomic-4-node-3 |
| Listers.ScheduledPods | cluster-autoscaler/utils/kubernetes/listers.go:147-157 | the result is `Filter` of the pods by a non-empty node name |
| Listers.UnschedulablePods | cluster-autoscaler/utils/kubernetes/listers.go:159-173 | the result is `Filter` of the pods that have no node name, a PodScheduled condition False with reason Unschedulable, and no deletion timestamp |
| Listers.FilterNodes | cluster-autoscaler/utils/kubernetes/listers.go:259-267 | the result is `Filter` of the nodes by the predicate |
| Listers.FilterMembers | cluster-autoscaler/utils/kubernetes/listers.go:259-267 | an element is in the filtered list if and only if it is in the input and satisfies the predicate |
| Listers.FilterMultiplicity | cluster-autoscaler/utils/kubernetes/listers.go:259-267 | each element satisfying the predicate occurs as often as in the input; no other element occurs |
| Listers.FilterInOrder | cluster-autoscaler/utils/kubernetes/listers.go:259-267 | the filtered list is a subsequence of the input (order kept) and never longer |
| Listers.FilterIdempotent | cluster-autoscaler/utils/kubernetes/listers.go:259-267 | filtering twice with the same predicate equals filtering once |
| Listers.ScheduledAndUnschedulableDisjoint | cluster-autoscaler/utils/kubernetes/listers.go:151-165 | no pod is returned by both `ScheduledPods` and `UnschedulablePods` |
| Listers.List | cluster-autoscaler/utils/kubernetes/listers.go:233-248 | if the underlying list fails, the result is an empty list and that error; with no filter, the underlying list unchanged; otherwise the filtered list, with no error |
| Listers.ListReturnsFilteredUnderlying | cluster-autoscaler/utils/kubernetes/listers.go:243-247 | a successful `List` has no error and is never longer than the underlying list; it holds exactly the underlying nodes that pass the filter, if there is one |
| Listers.Get | cluster-autoscaler/utils/kubernetes/listers.go:250-257 | on error, no node and the error; otherwise the node and no error; the filter plays no part |
| Listers.NewListerRegistry | cluster-autoscaler/utils/kubernetes/listers.go:62-78 | each of the nine getters of the new registry returns the lister passed in the matching position; the all-nodes and ready-nodes listers are not swapped |
| Listers.RegistryRebuiltFromGetters | cluster-autoscaler/utils/kubernetes/listers.go:63-139 | building a registry from another registry's nine getters gives that registry back |

## Left out

- The scheduler's implementation file, the deletion tracker and the real batcher and evictor are not part of this model. The scheduler's behaviour is constructed from what its test pins down, with the per-group accumulator described above. The tracker is a name-to-result map, where the last registration wins.
- `DeletionResults` returns a second value, which the test discards. It is not modelled.
- Actuation.Schedule: a node arriving for a Flushed group is recorded as a failure. Nothing in the test exercises this case, and what should happen to such a node is undecided. No lemma fixes which failure the late node gets. `StepKeepsTerminal`, `AtomicGroupFlushedOnce` and `ScheduleAccountsOnce` do rely on this branch leaving the accumulator and the batches unchanged, which is why a Flushed group never hands over a second batch.
- Actuation.Schedule: scheduling the same node twice is not guarded against. Nothing exercises it.
- Concurrency among drain workers and the scheduler's locking are out of scope. The calls are modelled as one sequence, in arbitrary order (`Run`).
- The `drain` flag and the abort `reason` are only passed on or used in logs and events. They are carried but play no part in the state.
- Evictor timing configuration, the fake clientset, the test cloud provider, the autoscaling context and `cmp` diffing are test set-up with no logic of their own (group_deletion_scheduler_test.go:103-129).
- ActuationTest.ResultsMatch: the expected results only fix the result kind and "some error" (`cmpopts.AnyError`), so the comparison checks the key sets, the result kinds and that an error is present.
- `generateNodeGroupViewList` and `sizedNodeGroup` are defined outside the test file. The model assumes they build one bucket of the group's nodes `from` to `to - 1`, named `<group id>-node-<i>`, matching the node names the expectations use. The plain test group has target size 3, and `sizedNodeGroup` gives an atomic group its target size.
- `infoForNode` only wraps a node; nodes are identified by name.
- `NewListerRegistryWithDefaultListers` and every `New*Lister` constructor build client-go list-watches and start reflector goroutines. They are network I/O and background concurrency.
- `AllPodLister.List`, `PodDisruptionBudgetListerImpl.List` and the wrapped client-go listers only delegate to foreign code. What the foreign lister answers is a parameter of `List` and `Get`.
- `podv1.GetPodCondition` and the API object types are foreign. A pod is its node name, an optional PodScheduled condition (status and reason) and an optional deletion timestamp.
- Listers.ScheduledPods, Listers.UnschedulablePods, Listers.FilterNodes: Go distinguishes a nil slice from an empty one when nothing is kept. Both are the empty sequence here.
