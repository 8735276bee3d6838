# Milvus DataCoord: a verified model of its coordination core

DataCoord decides, for a Milvus cluster, which segments are compacted together and where, which segments a reader of a
channel is given, and which data node watches which channel. This project models that core, with the ID allocator it
depends on, and proves what the pieces promise together.

**Compaction.** A handler keeps a queue of tasks and a set of executing ones. Enqueuing takes a lock on every input
segment; scheduling keeps conflicting tasks apart; each pass assigns nodes, drives every executing task one step, and
sweeps those that have left. `CompactionTasks` says what one call of a task does under any answer of the data node and
any failure of the store. `CompactionRuns` makes the handler a state machine and proves its safety over whole runs.
`CompactionLimits` gives runs that show which assumptions are needed. `CompactionObjects` and `CompactionHandler` hold
the tasks, the flag table and the handler as objects, with the loops over them; every method is proved to take steps of
the state machine.

**Read view.** A flushed segment whose index is not built yet is replaced, for readers, by the segments it was
compacted from, as far back as these are known. `ReadView` defines the result by what can be reached in the lineage,
and proves coverage, separation from dropped segments, and absence of double counting. `ReadViewAcyclic` ranks every
acyclic lineage. `ReadViewRetrieve` is the loop over a set that changes while it is ranged over; `ReadViewHandler`
sorts the segments and puts the view together.

**Channels.** A store keeps which node holds which channel, in memory and in a key-value store. `ChannelKeys` is about
the keys, `ChannelMoves` about what a set of operations does and keeps, `ChannelStore` about the batches it is carried
out in, and `ChannelManager` about reloading, looking up, and removing a node.

**Plan generation.** `PlanGreedy`, `PlanGeneration` and `PlanTrigger` are the phases in which segments are packed into
compaction plans, as functions with their laws and as the loops that compute them.

**ID allocation.** `IdAllocation` describes what a loop turn logs, and proves what holds of every log;
`IdAllocatorLoop` is the loop in 32-bit arithmetic, proved to write such logs.

What comes from outside is a parameter or an arbitrary choice: answers of data nodes (`Env`), success of a save, which
transactions the key-value store accepts (`accepts`), the remote allocator's grants, clocks (`timedOut`, `now`),
configured limits, and the order in which a Go map is ranged over. Where a map is ranged over unchanged, the order is
a parameter, any enumeration of the keys (`Orders.Enumerates`); where it changes meanwhile, the next element is any
that is there (`Orders.AnyOf`). So every result below holds for all orders and all patterns of failure.

What the proofs brought out:

- `removeTasksByChannel` never releases the locks of the tasks it drops, so for the rest of the run no compaction of
  those segments is admitted (`CompactionRuns.OrphanNeverAdmitted`, `CompactionLimits.RemovalLeavesOrphan`). The only
  other way to leave a segment flagged for nobody is a clustering task that completes, whose inputs are dropped by
  then (`CompactionRuns.StepOrphansExactly`). The task counter goes wrong exactly when a removal takes a finished task
  before the sweep does (`CompactionRuns.StepCountsExactlyWhen`).
- A failed clustering task that has released its locks but cannot save its record goes on executing; a level-zero task
  can then apply deletes to segments it is rewriting (`CompactionLimits.ForgottenUnlockBreaksIsolation`). Locks are
  kept exactly when this does not happen (`CompactionRuns.SafeExactlyWhen`). Exclusion of conflicting tasks and
  agreement of memory with the store do not depend on it (`CompactionRuns.StepKeepsOrder`).
- A small flushed segment counts as indexed at first, and so does a dropped one of the current clustering compaction.
  When its child is replaced, it is replaced by its parents all the same; the view then holds it together with its
  parents (`ReadView.SmallParentCountsTwice`, `ReadViewHandler.TakenForIndexedCountsTwice`).
  `ReadView.DoubleCountsExactlyWhen` says when, for all lineages.
- The ID allocator adds requests up in 32 bits. It hands out more IDs than it has exactly when the first request that
  does not fit makes the total wrap around to one that does (`IdAllocatorLoop.PickStaysInCacheExactlyWhen`).
- Operations on a channel that name an unregistered node as its source take effect or not, depending on when another
  channel registers that node (`ChannelMoves.OrderIndependentExactlyWhen`, `ChannelMoves.OrderCanShow`).
- A channel name with a slash can make a reload put the channel on another node (`ChannelKeys.ParseBuiltKey`,
  `ChannelManager.ReloadRoundTrip`).
- A release of a channel in the buffer, and a watch of one that is there already, mark it in memory; after a restart it
  is on standby again. Otherwise a restart after an update finds the states as they were, if the watch infos ask for
  what the operations do (`ChannelManager.RestartKeepsState`).

The comments on `Process` (internal/datacoord/compaction_task_mix.go:153-154, and the same for level zero) say that it
returns true only from the completed and failed steps. The code does so on a timeout as well, and in states it does not
know; the model follows the code.

## Model

| member | source | states |
|---|---|---|
| CompactionTasks.ProcessDiscipline | internal/datacoord/compaction_task_mix.go:153-171 | A mix or level-zero task never changes which task its record describes; it is in memory what was last saved; it asks to be removed only in a terminal state and exactly when it unlocks its inputs; a terminal state is left unchanged. |
| CompactionTasks.BuiltTargetsAreFree | internal/datacoord/compaction_task_l0.go:318-341 | New targets of a level-zero plan lie on its channel and were not being compacted when it was built. |
| CompactionTasks.MixKeepsResultIDs | internal/datacoord/compaction_task_mix.go:350-353 | A mix task has its two pre-allocated segment IDs whenever it may build a plan from them. |
| CompactionTasks.Accepted | internal/datacoord/compaction_task_mix.go:273-281 | Of the saves a call tries in order, exactly those before the first failure are accepted. |
| CompactionTasks.ExecutingStates | internal/datacoord/compaction_task_mix.go:72-129 | An executing task times out, fails, goes back to wait for a node or has its segments saved exactly upon those answers of the data node and of the stores that call for it, and stays as it is otherwise. |
| CompactionTasks.ExecutingRecord | internal/datacoord/compaction_task_l0.go:101-142 | Nothing else of its record changes, except that a task sent back loses its node and a mix task whose segments are saved has them as its results; which records are stored, and in which cases it leaves. |
| CompactionTasks.PipeliningOutcome | internal/datacoord/compaction_task_mix.go:34-61 | A pipelining task without a node waits; with one it fails exactly if no plan can be built, executes exactly if the data node takes the plan, and else gives up its node, each only if that is saved; only the failed one leaves. |
| CompactionTasks.LateOutcome | internal/datacoord/compaction_task_mix.go:155-171 | A task with saved segments completes as soon as that is stored; one that has completed, failed or timed out only leaves; in an unknown state it leaves with its locks. |
| CompactionTasks.TargetsExactly | internal/datacoord/compaction_task_l0.go:318-341 | What a level-zero task applies its deletes to: exactly the flushed segments with inserts of its channel, collection and partition that began before its position and are not being imported. |
| CompactionTasks.BuildableExactly | internal/datacoord/compaction_task_l0.go:283-360 | A plan can be built exactly if an ID is allocated, every input is known and healthy, and a level-zero task has targets, none of them being compacted. |
| CompactionTasks.ClusteringDiscipline | internal/datacoord/compaction_task_clustering.go:72-157 | A clustering task completes only after indexing, keeping its locks; it unlocks only on failure or timeout; it leaves exactly when completed or cleaned up. |
| CompactionRuns.PickIsUnique | internal/datacoord/compaction.go:206-271 | What is picked is determined: a queued task is skipped exactly when an executing one, or one picked with a smaller plan ID, blocks it. |
| CompactionRuns.PickedIsClear | internal/datacoord/compaction.go:238-271 | A picked task conflicts with no executing and no other picked task, whichever of the two is asked. |
| CompactionRuns.MixWaitsExactlyWhen | internal/datacoord/compaction.go:252-258 | A mix task is passed over exactly if a level-zero task on its channel is executing or picked before it. |
| CompactionRuns.Level0WaitsExactlyWhen | internal/datacoord/compaction.go:245-251 | A level-zero task is passed over exactly if a level-zero or mix task on its channel is executing or picked before it. |
| CompactionRuns.ClusteringWaitsExactlyWhen | internal/datacoord/compaction.go:259-267 | A clustering task is passed over exactly if a level-zero task on its channel, or a mix or clustering task with its label, is executing or picked before it. |
| CompactionRuns.FreeIsPicked | internal/datacoord/compaction.go:238-271 | A task with none of these executing or queued, except itself, is picked. |
| CompactionRuns.ClusteringStartsAlone | internal/datacoord/compaction.go:259-267 | A clustering task never starts beside an executing mix or clustering task with its label. |
| CompactionRuns.EnqueueOutcome | internal/datacoord/compaction.go:562-618 | A request of a legal kind with existing, free inputs and a saved record is queued, counted, stored and locked, and changes nothing of other tasks; any other changes nothing. |
| CompactionRuns.RemovalOutcome | internal/datacoord/compaction.go:487-520 | Exactly the tasks of the channel leave queue and executing set; locks and stored records stay. |
| CompactionRuns.SweepOutcome | internal/datacoord/compaction.go:675-684 | Exactly the finished tasks leave the executing set, and nothing else changes but the counter. |
| CompactionRuns.AssignOutcome | internal/datacoord/compaction.go:620-646 | Only a pipelining task without a node is offered one; it then has that node, in memory and in the store, and is offered no other. |
| CompactionRuns.SentBackIsOffered | internal/datacoord/compaction_task_mix.go:53-78 | A task whose data node is gone or did not take its plan is offered a node again. |
| CompactionRuns.ProcessOutcome | internal/datacoord/compaction.go:664-673 | Processing a task changes that task and its own locks, and nothing of any other. |
| CompactionRuns.EnqueueKeepsInv | internal/datacoord/compaction.go:562-618 | Enqueuing keeps the whole invariant, also when the save after locking fails. |
| CompactionRuns.ScheduleKeepsInv | internal/datacoord/compaction.go:329-347 | Scheduling keeps the whole invariant. |
| CompactionRuns.ScheduleKeepsIsolation | internal/datacoord/compaction.go:238-271 | No task starts that would rewrite what an executing level-zero task applies deletes to. |
| CompactionRuns.AssignKeepsInv | internal/datacoord/compaction.go:620-646 | Assigning a node keeps the whole invariant. |
| CompactionRuns.ProcessKeepsInv | internal/datacoord/compaction.go:664-673 | Processing a task, whatever it meets, keeps the whole invariant, unless it is a clustering task that unlocks and cannot save. |
| CompactionRuns.SweepKeepsInv | internal/datacoord/compaction.go:675-684 | Sweeping finished tasks keeps the whole invariant. |
| CompactionRuns.RemoveChannelKeepsInv | internal/datacoord/compaction.go:487-520 | Removing a channel's tasks keeps the whole invariant. |
| CompactionRuns.StepKeepsOrder | internal/datacoord/compaction.go:206-684 | Every step, a forgotten unlock included, keeps queue and executing set apart, tasks well formed, memory equal to the last saved record, and conflicting tasks from executing together. |
| CompactionRuns.ForgettingBreaksLocks | internal/datacoord/compaction_task_clustering.go:419-434 | A clustering task with inputs that unlocks and cannot save is left alive without its locks. |
| CompactionRuns.StepKeepsInvExactlyWhen | internal/datacoord/compaction.go:206-684 | A step of the handler keeps the whole invariant, and the locks in it, if and only if it is not such a forgotten unlock. |
| CompactionRuns.InvThroughout | internal/datacoord/compaction.go:206-684 | The invariant, once it holds, holds in every later state, for every interleaving of steps and every failure, up to a forgotten unlock. |
| CompactionRuns.SafeThroughout | internal/datacoord/compaction.go:206-684 | In every state of every run: queue and executing set are apart, memory equals the last saved record, conflicting tasks never execute together. As long as no unlock has been forgotten also: inputs of live tasks are flagged and pairwise disjoint, and no mix or clustering task rewrites what a level-zero task targets. |
| CompactionRuns.SafeExactlyWhen | internal/datacoord/compaction.go:206-684 | Locks are kept in all states of a run if and only if no unlock is forgotten in it; so is the whole invariant. |
| CompactionRuns.ExitDiscipline | internal/datacoord/compaction_task_mix.go:34-129 | In every run, a mix or level-zero task asks to be removed only with a stored terminal state and its inputs unlocked. |
| CompactionRuns.TerminalForever | internal/datacoord/compaction_task_l0.go:51-187 | In every run, once a mix or level-zero task has stored a terminal state, its record never changes again. |
| CompactionRuns.RemoveChannelOrphansExactly | internal/datacoord/compaction.go:487-520 | A removal leaves segments flagged for nobody so, makes only inputs of live tasks dropped with their channel so, and while locks are kept all of those. |
| CompactionRuns.ProcessOrphansExactly | internal/datacoord/compaction_task_clustering.go:342-434 | Processing a task leaves segments flagged for nobody so, makes only inputs of a clustering task that completes so, and while locks are kept all of those. |
| CompactionRuns.StepOrphansExactly | internal/datacoord/compaction.go:206-684 | No step frees a segment flagged for nobody; only those two create one, and while locks are kept always. |
| CompactionRuns.OrphanExactlyWhen | internal/datacoord/compaction.go:206-684 | In every run, a segment is flagged for nobody only if its task was so abandoned before; as long as no unlock has been forgotten, if and only if. |
| CompactionRuns.OrphanForever | internal/datacoord/compaction.go:487-520 | In every run, a segment flagged for nobody stays so. |
| CompactionRuns.OrphanNeverAdmitted | internal/datacoord/compaction.go:588-618 | No later task with such a segment is ever admitted. |
| CompactionRuns.SweepCountsExactlyWhen | internal/datacoord/compaction.go:675-684 | The sweep leaves the task counter right if and only if no finished task was removed before it. |
| CompactionRuns.RemoveChannelKeepsCount | internal/datacoord/compaction.go:487-520 | Removing a channel's tasks keeps the counter equal to the sizes of queue and executing set. |
| CompactionRuns.RemovalSweepableExactlyWhen | internal/datacoord/compaction.go:506-520 | After a removal all finished tasks are still there to be swept if and only if none of them is on the channel. |
| CompactionRuns.StepCountsExactlyWhen | internal/datacoord/compaction.go:522-530 | A step keeps the counter right, for now and for the next sweep, if and only if it does not remove a finished task with its channel. |
| CompactionRuns.CountedThroughout | internal/datacoord/compaction.go:522-530 | Up to every state of a run before which no finished task was removed before its sweep, the counter equals the sizes of queue and executing set. |
| CompactionRuns.CountedExactlyWhen | internal/datacoord/compaction.go:522-530 | In all states of a run the counter is right, for now and for the next sweep, if and only if no finished task is removed before its sweep. |
| CompactionLimits.ForgottenUnlockBreaksIsolation | internal/datacoord/compaction_task_clustering.go:419-434 | If the save that follows a failed clustering task's unlock fails, a run breaks the isolation of level-zero targets. |
| CompactionLimits.RemovalLeavesOrphan | internal/datacoord/compaction.go:487-520 | A run of an enqueue and a removal leaves a segment flagged for nobody, no unlock being forgotten. |
| CompactionLimits.RemovalDuringPassMiscounts | internal/datacoord/compaction.go:506-520 | If a channel is removed between a task's finish and the sweep, a run without a forgotten unlock makes the counter wrong. |
| CompactionObjects.Meta.CheckAndSetSegmentsCompacting | internal/datacoord/meta.go:1350-1373 | All segments are flagged or none: exactly when all exist and none was flagged. |
| CompactionObjects.Meta.SetSegmentsCompacting | internal/datacoord/meta.go:1375-1381 | Exactly the given segments are flagged, or freed. |
| CompactionObjects.CompactionTask.UpdateAndSave | internal/datacoord/compaction_task_mix.go:273-281 | The record in memory changes exactly when the store has taken the new one. |
| CompactionObjects.CompactionTask.BuildCompactionRequest | internal/datacoord/compaction_task_l0.go:283-360 | A plan is built exactly when an ID is allocated, all inputs are healthy and, for level zero, there are targets and none is being compacted; its targets are then all of them. |
| CompactionObjects.CompactionTask.ProcessPipelining | internal/datacoord/compaction_task_l0.go:71-99 | A pipelining task waits for a node, fails, goes back for another node, or starts executing, as `CompactionTasks.PipeliningOutcome` says. |
| CompactionObjects.CompactionTask.ProcessExecutingMix | internal/datacoord/compaction_task_mix.go:72-129 | An executing mix task treats every answer as `CompactionTasks.ExecutingStates` and `ExecutingRecord` say. |
| CompactionObjects.CompactionTask.ProcessExecutingLevel0 | internal/datacoord/compaction_task_l0.go:101-142 | An executing level-zero task treats every answer as `CompactionTasks.ExecutingStates` and `ExecutingRecord` say. |
| CompactionObjects.CompactionTask.ProcessMetaSaved | internal/datacoord/compaction_task_mix.go:63-70 | Saves the completed state and, if that works, unlocks and leaves. |
| CompactionObjects.CompactionTask.ProcessSimpleTask | internal/datacoord/compaction_task_mix.go:155-171 | Dispatch by state agrees with the specification in every state. |
| CompactionObjects.CompactionTask.Process | internal/datacoord/compaction_task_l0.go:51-69 | One call changes record, targets, store and flags exactly as the specification says, whose outcomes are those of the laws of `CompactionTasks`, and leaves the task fit for the next call. |
| CompactionHandler.InsertSkips | internal/datacoord/compaction.go:220-236 | Remembering a task in the exclude sets makes exactly those tasks skipped that it blocks. |
| CompactionHandler.SortKeys | internal/datacoord/compaction.go:241-244 | The plan IDs, each once, in ascending order. |
| CompactionHandler.CompactionPlanHandler.Schedule | internal/datacoord/compaction.go:206-271 | The loops over exclude sets pick exactly what the scheduling rule picks. |
| CompactionHandler.CompactionPlanHandler.DoSchedule | internal/datacoord/compaction.go:329-347 | One scheduling step of the state machine. |
| CompactionHandler.CompactionPlanHandler.CreateCompactTask | internal/datacoord/compaction.go:588-618 | Names the first thing wrong with a request, and takes all its locks only if nothing is. |
| CompactionHandler.AnswerMeans | internal/datacoord/compaction.go:562-618 | Each answer is given exactly in its own case: a wrong kind, a missing input, an input being compacted, a failed save, in that order, or none of them. |
| CompactionHandler.CompactionPlanHandler.SubmitTask | internal/datacoord/compaction.go:522-530 | The task is queued and counted; everything else stays. |
| CompactionHandler.CompactionPlanHandler.EnqueueCompaction | internal/datacoord/compaction.go:562-586 | Does what the enqueue step of the state machine does, also for requests that step is not enabled for, with the answer its caller gets; a task that cannot be saved gives its locks back. |
| CompactionHandler.CompactionPlanHandler.RemoveTasksByChannel | internal/datacoord/compaction.go:487-520 | One removal step of the state machine. |
| CompactionHandler.PickAnyNode | internal/datacoord/compaction.go:687-708 | The node with the most free slots, if these are enough; or none, exactly if no node has enough. |
| CompactionHandler.SpentByKind | internal/datacoord/compaction.go:687-708 | What a pass charges a node is what the tasks sent to it use, each kind at its own rate. |
| CompactionHandler.CompactionPlanHandler.AssignNodeIDs | internal/datacoord/compaction.go:620-646 | Assign steps only; each goes to a node with the most free slots at its turn; what is left is what was not used, so no node is overcommitted; and a task whose save works goes without a node only if none has enough slots. |
| CompactionHandler.CompactionPlanHandler.CheckCompaction | internal/datacoord/compaction.go:648-685 | A pass is a run of assign steps, then one process step for every executing task in any order, then a sweep; every task that needs a node gets one of the freest, unless its save fails or none has enough slots left. |
| ReadView.ResultIsUnique | internal/datacoord/handler.go:193-221 | Lineage and first sets determine the result. |
| ReadView.DroppedApart | internal/datacoord/handler.go:215 | In the result, nothing is both dropped and flushed. |
| ReadView.FlushedCovered | internal/datacoord/handler.go:201-224 | Every segment first taken for flushed is in the view or replaced in it, recursively, by all of its parents. |
| ReadView.NothingLeftToReplace | internal/datacoord/handler.go:201-221 | A segment without an index stays in the view only if it has no parents or one of them is unknown. |
| ReadView.ReplacedByParents | internal/datacoord/handler.go:203-216 | A flushed segment without an index whose parents are all known is not in the view; its parents are, if they have an index or cannot be replaced in turn, and none of them is dropped. |
| ReadView.OnlyParentsMove | internal/datacoord/handler.go:205-216 | Indexed segments stay so and only parents with an index join them; a segment is no longer dropped only if it is a parent of a replaceable one. |
| ReadView.DoubleCountsExactlyWhen | internal/datacoord/handler.go:201-224 | If every segment has at most one child: the view holds no segment together with an ancestor if and only if, for any two flushed segments of which one descends from the other, every segment from the descendant on to just before the ancestor is replaced, and the ancestor, if taken for indexed, has its index or cannot be replaced. |
| ReadView.NoDoubleCounting | internal/datacoord/handler.go:201-224 | In particular, if the flushed segments are at first no ancestors of each other, the view holds no segment together with an ancestor. |
| ReadView.SmallParentCountsTwice | internal/datacoord/handler.go:168-214 | A small flushed parent without an index fails that condition: it is in the view together with its own parent. |
| ReadViewAcyclic.AcyclicIsRanked | internal/datacoord/handler.go:175-192 | Every lineage in which no segment is its own ancestor can be ranked with parents below children. |
| ReadViewAcyclic.SmallerParentsAcyclic | internal/datacoord/handler.go:175-192 | A lineage is of that kind if segments have larger IDs than those they were compacted from. |
| ReadViewRetrieve.ProgressApart | internal/datacoord/handler.go:201-219 | Throughout the loop, nothing is both dropped and flushed. |
| ReadViewRetrieve.ExpansionProgresses | internal/datacoord/handler.go:203-216 | Replacing one segment keeps the loop's invariant. |
| ReadViewRetrieve.ProgressEnds | internal/datacoord/handler.go:201-221 | When nothing more can be replaced, the sets are the result. |
| ReadViewRetrieve.Expand | internal/datacoord/handler.go:203-216 | A segment is replaced by its parents, indexed or not, none of them dropped any more. |
| ReadViewRetrieve.ExpansionIsLighter | internal/datacoord/handler.go:201-219 | Replacing a segment makes the set lighter, in any acyclic lineage. |
| ReadViewRetrieve.CircleNeverEnds | internal/datacoord/handler.go:201-221 | Where segments without an index are each compacted from another of them, and one is reached, there is something left to replace however many have been replaced. |
| ReadViewRetrieve.RetrieveUnIndexed | internal/datacoord/handler.go:201-219 | A pass in any order makes progress; if it asks for no other, nothing more can be replaced. |
| ReadViewRetrieve.Retrieve | internal/datacoord/handler.go:220-221 | For every order, the loop ends, with the one result there is. |
| ReadViewHandler.ClassifyOne | internal/datacoord/handler.go:133-173 | A segment goes into the set it belongs to, and nothing else moves. |
| ReadViewHandler.Classify | internal/datacoord/handler.go:133-173 | Every segment is in exactly the set it belongs to, and nothing else is in any. |
| ReadViewHandler.PlacedExactly | internal/datacoord/handler.go:133-173 | Which set a segment is in, by its state, level, clustering version, index and size, if and only if. |
| ReadViewHandler.ValidPartitions | internal/datacoord/handler.go:105 | Exactly the partitions above the one that stands for all. |
| ReadViewHandler.VersionsOf | internal/datacoord/handler.go:226-229 | The current statistics version of each partition. |
| ReadViewHandler.ResultIsView | internal/datacoord/handler.go:201-252 | The loop's result, with the sorted sets, covers every flushed segment, has nothing dropped and nothing replaceable in it, and counts nothing twice exactly when all flushed segments give way. |
| ReadViewHandler.ViewIsUnique | internal/datacoord/handler.go:103-252 | Segments and context determine the sorted sets, the loop's result and the view. |
| ReadViewHandler.GetEarliestSegmentDMLPos | internal/datacoord/handler.go:256-295 | The first of the earliest positions of undropped segments with data, in the partitions named if any is; none exactly if there is no such segment. |
| ReadViewHandler.EarliestIsUnique | internal/datacoord/handler.go:256-295 | There is one such position. |
| ReadViewHandler.EarliestMissesNothing | internal/datacoord/handler.go:256-295 | It is at or before the position of every segment that is neither dropped nor being imported and is in the partitions named, and it is the position of one of these. |
| ReadViewHandler.GetChannelSeekPosition | internal/datacoord/handler.go:331-359 | The checkpoint, or else the earliest position, or else the start of the collection. |
| ReadViewHandler.GetQueryVChanPositions | internal/datacoord/handler.go:103-252 | For every order, the view is the one determined by the segments, complete, free of dropped and of replaceable segments, and free of double counting exactly when all flushed segments give way; its seek position and statistics versions are the right ones; there is none exactly when no partition is named and the collection is unknown. |
| ReadViewHandler.TakenForIndexedCountsTwice | internal/datacoord/handler.go:150-214 | Three segments of which the middle one is taken for indexed without an index: the view holds it together with its parent. |
| ReadViewHandler.SegmentsCountTwice | internal/datacoord/handler.go:150-170 | A small flushed segment is such a middle one, and so is a dropped one of the current clustering compaction. |
| ChannelKeys.ParseRender | internal/datacoord/channel_store.go:305 | Every 64-bit node ID is read back as written, the least one included. |
| ChannelKeys.ParsesExactly | internal/datacoord/channel_store.go:305 | A text is read as a number if and only if it is that number in decimal, with a sign or without, and the number fits 64 bits. |
| ChannelKeys.ParseBuiltKey | internal/datacoord/channel_store.go:290-306 | Parsing a built key gives back the node, for every prefix, if and only if the name has no slash or itself reads as a key of that node; for other names it gives what the name reads as. |
| ChannelKeys.KeysDiffer | internal/datacoord/channel_store.go:290-292 | Different assignments have different keys, whatever the names. |
| ChannelKeys.SlashInNameMisleads | internal/datacoord/channel_store.go:300-306 | A channel of node 7 is read as one of node 8. |
| ChannelMoves.AppliedIsUnique | internal/datacoord/channel_store.go:399-431 | Which channels have been carried out determines the store. |
| ChannelMoves.MemoryOutcome | internal/datacoord/channel_store.go:473-557 | What every operation leaves in memory of its channel on every node, with owner and state, also for sources that are not registered or do not hold it. |
| ChannelMoves.KvOutcome | internal/datacoord/channel_store.go:125-148 | What it leaves in the key-value store: nothing where the channel was deleted, the watch info where it was watched or released, and all else as it was. |
| ChannelMoves.AppliedOutcome | internal/datacoord/channel_store.go:473-597 | After a well-formed operation both agree on one node: watched there, or on standby in the buffer, after a transfer or watch, to be released after a release, with the watch info given; and nowhere after a delete. |
| ChannelMoves.OthersUntouched | internal/datacoord/channel_store.go:399-431 | Channels not carried out are as they were, in both. |
| ChannelMoves.NewNodeHolds | internal/datacoord/channel_store.go:440-451 | A node is newly registered only with a channel. |
| ChannelMoves.MoveUnaffected | internal/datacoord/channel_store.go:473-557 | A channel's operations do what they would have done before all others', unless those register its source. |
| ChannelMoves.MemoryNext | internal/datacoord/channel_store.go:565-578 | One more channel's operations carry memory on, in any order. |
| ChannelMoves.KnownSourcesDoNotInterfere | internal/datacoord/channel_store.go:484-487 | Deletes that name registered nodes never interfere. |
| ChannelMoves.OrderIndependentExactlyWhen | internal/datacoord/channel_store.go:559-579 | For every set of operations: whatever the order in which the channels are taken, memory ends up the same, if and only if no transfer from an unregistered node meets another channel's operations that register it. |
| ChannelMoves.OrderCanShow | internal/datacoord/channel_store.go:484-509 | A good store and two channels' operations for which it does not. |
| ChannelMoves.AppliedKeepsAgree | internal/datacoord/channel_store.go:559-597 | Well-formed operations keep the (node, channel) pairs of memory and key-value store equal, whichever have been carried out. |
| ChannelMoves.AppliedKeepsOwner | internal/datacoord/channel_store.go:473-557 | Well-formed operations leave every channel with one node at most, which is registered and recorded in it. |
| ChannelMoves.AppliedKeepsGood | internal/datacoord/channel_store.go:399-597 | Both at once, and stored watch infos stay with their channels. |
| ChannelStore.SplitByChannel | internal/datacoord/channel_store.go:227-240 | Each channel's operations, in the order given. |
| ChannelStore.SaneIsSupported | internal/datacoord/channel_store.go:461-470 | The sanity check accepts exactly the supported combinations, of one or two operations. |
| ChannelStore.PairIsTransfer | internal/datacoord/channel_store.go:473-482 | A delete and a watch, in either order, are a transfer from the one node to the other. |
| ChannelStore.TransferOutcome | internal/datacoord/channel_store.go:473-510 | A delete and a watch of a channel its node holds: it is to be watched on the new node, or on standby in the buffer, with the info given, and nowhere else. |
| ChannelStore.SingleOutcome | internal/datacoord/channel_store.go:524-557 | A watch, release or delete alone of a channel no other node holds: where the channel is then, in which state, and with which info. |
| ChannelStore.BuildKV | internal/datacoord/channel_store.go:125-148 | The saves and removals of a channel are those of its move. |
| ChannelStore.TxnApplies | internal/datacoord/channel_store.go:582-597 | One transaction carries the key-value store on by the moves of its channels. |
| ChannelStore.StateChannelStore.AddAssignment | internal/datacoord/channel_store.go:440-451 | A node holds a channel, and is registered. |
| ChannelStore.StateChannelStore.RemoveAssignment | internal/datacoord/channel_store.go:434-438 | A node no longer holds a channel. |
| ChannelStore.StateChannelStore.UpdateMetaMemoryForPairOp | internal/datacoord/channel_store.go:473-510 | A delete and a watch, in either order, move the channel, or mark it where it is, or do nothing. |
| ChannelStore.StateChannelStore.UpdateMetaMemoryForSingleOp | internal/datacoord/channel_store.go:524-557 | A release, watch or delete alone. |
| ChannelStore.StateChannelStore.Txn | internal/datacoord/channel_store.go:582-597 | All keys of a batch, or none, exactly if the transaction is refused. |
| ChannelStore.StateChannelStore.UpdateMeta | internal/datacoord/channel_store.go:559-579 | A batch takes effect in the key-value store and, channel by channel in some order, in memory, or, if its transaction is refused, in neither. |
| ChannelStore.StateChannelStore.Update | internal/datacoord/channel_store.go:399-431 | For every operation set, order and sequence of refusals: one transaction for each batch of at most 64 operations, none closed while the next channel still fits, no channel in two; those before the first refused one are carried out, each channel once, in some order, and that one is the last sent; it succeeds exactly if none is refused, and then all supported operations are carried out. |
| ChannelStore.UpdateIsDetermined | internal/datacoord/channel_store.go:399-431 | Two updates with the same operations that start alike and succeed end alike, in whatever order they take channels and fill batches, unless the order can show. |
| ChannelManager.Reload | internal/datacoord/channel_store.go:333-363 | Every cell an entry names holds what such an entry says, owned by its node, which is registered; all others are as before; it fails exactly when a key cannot be parsed. |
| ChannelManager.ReloadSucceedsExactlyWhen | internal/datacoord/channel_store.go:290-363 | Built keys reload without an error if and only if every name with a slash reads as a key itself. |
| ChannelManager.ReloadRoundTrip | internal/datacoord/channel_store.go:333-363 | A fresh store reloaded from a good one's key-value pairs, in any order, has the same channels on the same nodes if and only if every channel's node can be read from its key; it is then good, as the manager requires. |
| ChannelManager.ReloadedState | internal/datacoord/channel.go:154-181 | The state of a reloaded channel is the one its watch info asks for, and standby in the buffer. |
| ChannelManager.RestartKeepsState | internal/datacoord/channel_store.go:333-363 | A reload after an update whose watch infos ask for what its operations do finds the state memory had, if and only if the operation is not a release or a repeated watch on the buffer. |
| ChannelManager.ChannelManagerImpl.Execute | internal/datacoord/channel_manager.go:687-698 | Well-formed operations leave a good store, however many of their batches get through; it succeeds exactly if the watch infos could be filled and no transaction was refused. |
| ChannelManager.ChannelManagerImpl.Watch | internal/datacoord/channel_manager.go:234-261 | A new channel is in the buffer on standby, or nothing has changed; then as much of what the assign policy proposes is carried out as gets through, all of it if no transaction is refused; the store stays good, and errors are not reported. |
| ChannelManager.ChannelManagerImpl.Release | internal/datacoord/channel_manager.go:211-232 | The channel is marked for release on its node, or nothing has changed, exactly if its transaction was refused or its watch info could not be filled; one in the buffer needs nothing, an unknown one is an error. |
| ChannelManager.ChannelManagerImpl.FindWatcher | internal/datacoord/channel_manager.go:390-410 | The one node that holds the channel, or the buffer, or none; for every order. |
| ChannelManager.ChannelManagerImpl.DeleteNode | internal/datacoord/channel_manager.go:263-292 | It fails exactly if the node holds something and a transaction is refused or watch infos cannot be filled. After success or a failure partway, each channel of the node is on it or in the buffer, never both or neither; after success all are in the buffer on standby and the node is gone; nothing else moves. Deleting the buffer itself keeps it and loses what it holds. |
| PlanGreedy.GreedySelects | internal/datacoord/compaction_trigger.go:663-678 | Free space shrinks by the selected sizes, the limits hold, and nothing passed over would still fit. |
| PlanGreedy.ReverseGreedySelects | internal/datacoord/compaction_trigger.go:680-692 | The same from the back. |
| PlanGreedy.GreedyCounts | internal/datacoord/compaction_trigger.go:663-678 | Selected and passed over together are the candidates. |
| PlanGreedy.ReverseGreedyCounts | internal/datacoord/compaction_trigger.go:680-692 | The same from the back. |
| PlanGreedy.GreedyTakesFirst | internal/datacoord/compaction_trigger.go:663-678 | The first candidate that fits is the first taken. |
| PlanGreedy.GreedyGoesForward | internal/datacoord/compaction_trigger.go:663-678 | What becomes of the first candidates does not depend on the later ones and is not taken back. |
| PlanGreedy.ReverseGreedyTakesSmallest | internal/datacoord/compaction_trigger.go:680-692 | Of candidates sorted from large to small, the last ones are taken, the smallest first, as many as fit. |
| PlanGreedy.ReverseGreedyGoesBackward | internal/datacoord/compaction_trigger.go:680-692 | What is taken of the last candidates does not depend on the earlier ones and is not given back. |
| PlanGreedy.GreedySelect | internal/datacoord/compaction_trigger.go:663-678 | The loop with deletion in place computes the greedy selection. |
| PlanGreedy.ReverseGreedySelect | internal/datacoord/compaction_trigger.go:680-692 | The same from the back. |
| PlanGeneration.FillPrioritizedKeeps | internal/datacoord/compaction_trigger.go:571-599 | Every prioritized segment ends up in a bucket, nothing is lost, and buckets of several are below the expected size and the merge limit. |
| PlanGeneration.FillOneFull | internal/datacoord/compaction_trigger.go:574-592 | No candidate left over would fit beside a prioritized segment, by number or expected size. |
| PlanGeneration.FillOneTakesFirst | internal/datacoord/compaction_trigger.go:574-592 | The first prioritized candidate in the list that fits is taken first, and if there is none the first small one. |
| PlanGeneration.FillPrioritizedFull | internal/datacoord/compaction_trigger.go:571-599 | No small segment left over, and nothing in a later bucket, would fit an earlier one. |
| PlanGeneration.FillSmallKeeps | internal/datacoord/compaction_trigger.go:601-626 | The same for small segments, and every bucket is worth merging. |
| PlanGeneration.SmallBucketFull | internal/datacoord/compaction_trigger.go:604-618 | Nothing left over would fit beside a small segment and what was put with it. |
| PlanGeneration.SmallBucketTakesSmallest | internal/datacoord/compaction_trigger.go:604-618 | Of a list sorted from large to small, the smallest ones are put beside its head, the smallest first. |
| PlanGeneration.FillSmallGroups | internal/datacoord/compaction_trigger.go:601-626 | All small segments are tried in groups of which none would take a member of a later one; exactly those worth merging become buckets, and the members of the others are left over. |
| PlanGeneration.FirstWithRoom | internal/datacoord/compaction_trigger.go:847-856 | The first bucket with room, if any has. |
| PlanGeneration.SqueezeCounts | internal/datacoord/compaction_trigger.go:840-860 | Squeezing loses nothing. |
| PlanGeneration.SqueezeSettles | internal/datacoord/compaction_trigger.go:840-860 | Buckets only grow, by expandable segments and not beyond the expansion limit; afterwards no expandable leftover fits any bucket. |
| PlanGeneration.SqueezeStartsLast | internal/datacoord/compaction_trigger.go:840-860 | The last small segment, if expandable, is the first squeezed in, into the first bucket with room. |
| PlanGeneration.FillUnplannedKeeps | internal/datacoord/compaction_trigger.go:630-646 | The last phase loses nothing. |
| PlanGeneration.FillUnplannedFull | internal/datacoord/compaction_trigger.go:630-646 | A small segment left over fits none of these buckets and beside none of the segments without one; every bucket starts with an unplanned segment and has taken in another. |
| PlanGeneration.AbsorbTakesLast | internal/datacoord/compaction_trigger.go:634-642 | The last small segment that fits is the first taken in. |
| PlanGeneration.BucketsFit | internal/datacoord/compaction_trigger.go:571-626 | Before squeezing, every bucket of several is below the expected size and has at most the allowed number. |
| PlanGeneration.PlanConserves | internal/datacoord/compaction_trigger.go:519-661 | Plans and leftovers are the input, and leftovers are never prioritized. |
| PlanGeneration.PlanCapped | internal/datacoord/compaction_trigger.go:571-646 | Every plan of several segments is within the expansion limit. |
| PlanGeneration.PlanHeads | internal/datacoord/compaction_trigger.go:571-646 | Every plan starts with a segment of its phase's own list. |
| PlanGeneration.PrioritizedPackTight | internal/datacoord/compaction_trigger.go:571-599 | No prioritized segment starts a plan if an earlier one had room for it. |
| PlanGeneration.SmallAreMerged | internal/datacoord/compaction_trigger.go:601-628 | The groups of small segments worth merging are plans, with what was squeezed in; leftovers were in none of them. |
| PlanGeneration.LeftoversFitNowhere | internal/datacoord/compaction_trigger.go:519-661 | A small segment left over at the end fits no plan of a prioritized segment; if expandable, no plan within the expansion limit; and no unplanned segment, with a plan or without. |
| PlanGeneration.PlannedOnce | internal/datacoord/compaction_trigger.go:519-661 | A segment that occurs once is in one plan, in one place. |
| PlanTrigger.Sort | internal/datacoord/compaction_trigger.go:546-569 | By size, equals by ID, with nothing lost. |
| PlanTrigger.Split | internal/datacoord/compaction_trigger.go:532-543 | Three lists with exactly their own segments. |
| PlanTrigger.PackPrioritized | internal/datacoord/compaction_trigger.go:571-599 | The loop fills the buckets the phase describes, so that `PlanGeneration.FillPrioritizedFull` holds of them. |
| PlanTrigger.PackSmall | internal/datacoord/compaction_trigger.go:601-626 | The loop fills the buckets the phase describes, so that `PlanGeneration.FillSmallGroups` holds of them. |
| PlanTrigger.SqueezeSmallSegmentsToBuckets | internal/datacoord/compaction_trigger.go:840-860 | The loop squeezes as the phase describes; nothing that may be squeezed in would still fit. |
| PlanTrigger.PackUnplanned | internal/datacoord/compaction_trigger.go:630-646 | The loop fills the buckets the phase describes, so that `PlanGeneration.FillUnplannedFull` holds of them. |
| PlanTrigger.MakePlans | internal/datacoord/compaction_trigger.go:648-661 | Each plan names its bucket's segments and adds up their rows. |
| PlanTrigger.GeneratePlans | internal/datacoord/compaction_trigger.go:519-661 | The plans are those of the phases on the sorted lists; plans and leftovers are the input; all prioritized segments are planned; only a lone segment can be too big; nothing is left over, and no prioritized segment starts a plan, that would have fitted into a plan before. |
| PlanTrigger.PacksTight | internal/datacoord/compaction_trigger.go:519-661 | That last part, in terms of the sizes, flags and limits of the input alone. |
| PlanTrigger.PlansDisjoint | internal/datacoord/compaction_trigger.go:519-661 | Of distinct segments, none is named twice, by two plans or by one. |
| IdAllocation.Fitting | internal/allocator/id_allocator.go:115-130 | The longest run of requests that fits one after the other. |
| IdAllocation.AnsweredOnceInOrder | internal/allocator/cached_allocator.go:191-203 | A turn answers every request once, in arrival order: with its IDs, or an error exactly when the cache and the refill cannot serve it, the remote's own if it failed. |
| IdAllocation.NoneRefusedWhenGrantSuffices | internal/allocator/id_allocator.go:86-109 | No request is refused in a turn whose sync granted at least what is missing, or a whole batch where that is more. |
| IdAllocation.Asked | internal/allocator/id_allocator.go:86-95 | The larger of what is missing and a whole batch. |
| IdAllocation.HandedOutOnce | internal/allocator/id_allocator.go:132-137 | Over every run, each range handed out lies in one grant; they are disjoint if the grants are, and increase if the grants do. |
| IdAllocation.PlayTurn | internal/allocator/cached_allocator.go:191-203 | A turn that receives requests continues such a run. |
| IdAllocation.PlaySync | internal/allocator/cached_allocator.go:173-189 | So does a sync on a timer or by force. |
| IdAllocatorLoop.PickStaysInCacheExactlyWhen | internal/allocator/id_allocator.go:115-130 | What is picked stays within the cache, and is then the longest run that fits, if and only if all requests fit or the 32-bit total up to the first that does not still exceeds the cache. |
| IdAllocatorLoop.SmallSumsAreSeen | internal/allocator/id_allocator.go:115-130 | That is so whenever the requests sum below 2^32. |
| IdAllocatorLoop.SmallTurnsAreSeen | internal/allocator/cached_allocator.go:191-203 | Then both picks of a turn are right, whatever the cache and the grant. |
| IdAllocatorLoop.PickCanOverrun | internal/allocator/id_allocator.go:115-130 | Otherwise requests are picked for more IDs than are cached; two requests and ten cached IDs are enough. |
| IdAllocatorLoop.OverrunSpoils | internal/allocator/cached_allocator.go:270-278 | Once a round has served past the end of its cache, the log is none in which IDs come from grants, and stays so. |
| IdAllocatorLoop.IDAllocator.GatherReqIDCount | internal/allocator/id_allocator.go:77-84 | The wrapped sum of what is wanted. |
| IdAllocatorLoop.IDAllocator.SyncID | internal/allocator/id_allocator.go:86-109 | Asks for at least a whole batch, and for all that is wanted unless that wraps around; a grant replaces the cache, an error leaves it. |
| IdAllocatorLoop.IDAllocator.PickCanDo | internal/allocator/id_allocator.go:115-130 | Leading requests are moved over while the wrapped total is within the cache. |
| IdAllocatorLoop.IDAllocator.FinishRequest | internal/allocator/cached_allocator.go:270-278 | Every picked request gets the next IDs. |
| IdAllocatorLoop.IDAllocator.FailRemainRequest | internal/allocator/cached_allocator.go:249-268 | Every request left is refused, with the sync's error if there was one. |
| IdAllocatorLoop.IDAllocator.RequestsTurn | internal/allocator/cached_allocator.go:191-203 | The turn leaves nothing pending and answers every request once, in arrival order, whatever the sums. It logs exactly what the reference says if neither pick wraps unseen, and leaves the allocator in order if and only if that is so. |
| IdAllocatorLoop.IDAllocator.TickTurn | internal/allocator/cached_allocator.go:182-189 | The timer's turn. |
| IdAllocatorLoop.IDAllocator.ForcedSyncTurn | internal/allocator/cached_allocator.go:173-180 | The forced sync's turn. |

## Left out

- The clustering task's own state machine: it appears as a task with locks, a channel and a label, which holds on in
  any unfinished state, completes after indexing, and, once failed or timed out, cleans up or forgets its unlock. The
  segments it writes and the levels it changes are not modelled.
- Restart of the compaction handler: runs start from a handler without tasks, so loading stored tasks is not modelled.
- The use of the compacting flag by statistics tasks; here only compaction touches it.
- Interleavings inside the handler's methods: each method is one step or a sequence of steps, and only the state
  machine in `CompactionRuns` interleaves the steps of a pass with others.
- Plan contents beyond what they target, fail reasons, end times, metrics, spans and logs of compaction tasks.
- A task's label is a pair of partition and channel, not the string made of them; a segment's channel is part of its
  identity.
- The width of the task counter.
- CompactionHandler.CompactionPlanHandler.EnqueueCompaction: requires a plan ID that no live task has and a record
  that can be processed. The state machine's step asks for more, which the callers provide: a plan ID never used
  before, a new task, and inputs on its own channel.
- How it is known which indexes are built, and how the collection's start position is found.
- ReadViewHandler.GetQueryVChanPositions: requires distinct segment IDs and an acyclic lineage; on a circular one the
  loop need not end, as `ReadViewRetrieve.CircleNeverEnds` says.
- Assign and balance policies: any well-formed operation set can go through
  `ChannelManager.ChannelManagerImpl.Execute`.
- Watch infos in memory, and that a channel object is shared between an operation and the store: channels are held by
  value, with owner and state.
- The key-value store is keyed by pairs of node and channel; `ChannelKeys.KeysDiffer` is why that is the same.
- ChannelStore.StateChannelStore.UpdateMeta: takes each channel's operations as `Update` has split them, not split
  again.
- A transfer from a node to itself: saving and removing one key in one transaction is taken as a removal.
- Advancing channel states on success or failure, notifying data nodes and checking their progress: these change only
  the state of a channel where it is. What is said of states is said of those an update or a reload leaves.
- Dropping channels: a delete operation, which can go through `ChannelManager.ChannelManagerImpl.Execute`.
- ChannelManager.ChannelManagerImpl.Watch: requires a channel that no node holds, and a policy whose operations fit.
- ChannelManager.Reload: loading the entries and decoding a watch info do not fail.
- Floating-point proportions and rates of plan generation: the limits they yield are integers.
- When a segment needs compaction by itself: a flag of the segment.
- Closing the ID allocator, and revoking its requests.
