# Models of QEMU's exclusive sections, block graph, image rewriting and jobs

A Dafny account of four parts of QEMU whose correctness is about whole runs or whole graphs:

- **Exclusive sections** (`cpu-common.c`). Any number of vCPU threads run `cpu_exec_start`/`cpu_exec_end`
  and `start_exclusive`/`end_exclusive`; every interleaving of their atomic actions is a run
  (`ExclusiveProtocol.dfy`).
- **The block graph** (`block.c`). Permission refresh as a function and in place with an undo log
  (`Permissions.dfy`, `PermissionTransaction.dfy`, `Loosening.dfy`, `TopologicalOrder.dfy`); transactional
  edits with reference counts (`GraphEdits.dfy`); the refresh of an edited graph and `inherits_from`
  (`GraphPermissions.dfy`, `Inheritance.dfy`); the operations built from all these, what each is to make
  of the graph, and frozen chains (`GraphOperations.dfy`, `GraphGoals.dfy`, `GraphTransaction.dfy`,
  `BackingChains.dfy`); AioContext changes (`AioContexts.dfy`). `Digraph.dfy` has the paths and cycles they
  all need.
- **Image rewriting** (`qemu-img.c`, with the status queries of `block/io.c`). Layers and allocation
  status (`Images.dfy`), buffers (`Buffers.dfy`), `rebase`, `compare` and `convert` (`Rebase.dfy`,
  `Compare.dfy`, `Convert.dfy`), and the coroutines of `convert` (`ConvertCoroutines.dfy`).
- **Jobs** (`job.c`, `blockjob.c`). One job's status, coroutine, pauses and cancellation (`Jobs.dfy`),
  transactions of jobs (`JobTransactions.dfy`), and runs of the job manager (`JobRuns.dfy`).

Threads and coroutines are state machines whose steps are the atomic sections of the code. What depends
on code outside the model is a parameter or a nondeterministic choice: driver hooks, how far a status
query reaches, what a job's run and prepare functions return. Which I/O fails is a parameter too, a
function from the number of a request to its success, so that contracts say exactly when a tool fails.
Assertions of the C code are preconditions or asserted facts, so proving the callers proves the
assertions. Two do not always hold and have exact conditions and inputs of their own: the length of a
range in `rebase` (`Rebase.ExtendedFits`, `Rebase.LongRange`), and that all links are frozen when a chain
without a base is unfrozen (`BackingChains.FrozenChainIsChain`, `GraphTransaction.GrownChain`).

`dafny verify dfyconfig.toml` checks everything.

## Model

| member | source | states |
|---|---|---|
| `ExclusiveProtocol.MutualExclusion` | cpu-common.c:182-321 | in every reachable state, while one CPU is in an exclusive section no other CPU is in one and no CPU is past `cpu_exec_start` and before `cpu_exec_end` |
| `ExclusiveProtocol.PendingCounts` | cpu-common.c:191-246 | outside the scan `pending_cpus` is 0 with no CPU counted, or 1 plus the number of CPUs with `has_waiter`; the nesting count is positive exactly inside a section |
| `ExclusiveProtocol.StepKeepsInv` | cpu-common.c:182-321 | every atomic step of every CPU keeps the invariant on lock, flags, counter and owner |
| `ExclusiveProtocol.RunKeepsInv` | cpu-common.c:182-321 | the invariant holds in every state of every run |
| `ExclusiveProtocol.DrainerHasWaker` | cpu-common.c:212-222 | a CPU blocked on `exclusive_cond` without a signal has a CPU that is not blocked and will signal it |
| `ExclusiveProtocol.IdlerHasWaker` | cpu-common.c:182-187 | a CPU blocked on `exclusive_resume` has a live owner of the section, or one about to broadcast |
| `ExclusiveProtocol.NoDeadlock` | cpu-common.c:182-321 | unless every CPU is outside, some CPU can take a step that finishes a call under way |
| `ExclusiveProtocol.FinishingIsCloser` | cpu-common.c:182-321 | every finishing step lowers a well-founded measure, so finishing steps cannot go on for ever |
| `ExclusiveProtocol.AllCanFinish` | cpu-common.c:182-321 | from every state the invariant allows, all calls under way can be brought to their end |
| `TopologicalOrder.TopologicalDfs` | block.c:2299-2322 | on an acyclic graph the list grows by exactly what is reachable from the root, has no duplicates, every parent before its children, and the old list as its suffix |
| `TopologicalOrder.ListDfs` | block.c:2619-2631 | called for every root of a list it yields exactly the union of the reachable sets, sorted |
| `Permissions.Cumulative` | block.c:2633-2649 | cumulative permissions are the union of what the parents ask and the intersection of what they share |
| `Permissions.RefreshConsistent` | block.c:2508-2609 | after a successful refresh every listed node has conflict-free parents, accepts its cumulative permissions, and every out-edge is what its driver wants for the final cumulative permissions |
| `Permissions.RefreshOfConsistent` | block.c:2587-2609 | refreshing a consistent list succeeds and changes nothing |
| `Permissions.RefreshFrame` | block.c:2587-2609 | an edge that no listed node owns keeps its permissions |
| `Permissions.RefreshFinds` | block.c:2587-2609 | if some permissions are consistent at the listed nodes and agree with the old ones on every edge no listed driver computes, the refresh returns exactly these: it never refuses without need, and the solution is unique |
| `Permissions.RefreshIffSolvable` | block.c:2587-2609 | so a refresh succeeds exactly when there is a solution, in whatever order it visits the nodes |
| `PermissionTransaction.CumulativePerm` | block.c:2633-2649 | the loop over the parents computes the cumulative permissions |
| `PermissionTransaction.ParentPermsConflict` | block.c:2244-2268 | the pairwise check reports a conflict exactly when some parent asks for what another does not share |
| `PermissionTransaction.Transaction.SetPerm` | block.c:2330-2361 | sets one edge and logs it so that undoing the log still gives the old permissions |
| `PermissionTransaction.Transaction.NodeRefreshPerm` | block.c:2508-2578 | succeeds exactly when the node accepts its cumulative permissions, forwards them to the children, and notes the driver call |
| `PermissionTransaction.Transaction.DoRefreshPerms` | block.c:2587-2609 | computes the refresh in place; the log undoes it, also for an edge set twice |
| `PermissionTransaction.Transaction.Abort` | util/transactions.c:60-79 | restores every edge permission from before the transaction; every driver whose check was logged hears `bdrv_abort_perm_update`, the latest first |
| `PermissionTransaction.Transaction.Commit` | util/transactions.c:81-99 | hands every driver the cumulative permissions, in log order |
| `PermissionTransaction.Transaction.ListRefreshPerms` | block.c:2619-2631 | refreshes the whole subgraph of the roots or changes nothing; at commit every driver is handed exactly what its check accepted, at abort exactly the drivers that had accepted are told so |
| `PermissionTransaction.Transaction.RefreshAndFinalize` | block.c:2686-2705 | success means the refreshed permissions and no check withdrawn, failure the old ones, no driver told, and every accepted check withdrawn |
| `PermissionTransaction.Transaction.ChildTrySetPerm` | block.c:2707-2739 | sets one edge and refreshes below it, or leaves all as it was; the return value is success also when the failed change was a loosening |
| `PermissionTransaction.CommittedIsConsistent` | block.c:2508-2649 | a committed refresh leaves every listed node consistent |
| `Loosening.DefaultPermsMonotone` | block.c:2760-2908 | the default permission functions forward less for looser cumulative permissions and for a node gone inactive |
| `Loosening.LooserRefreshSucceeds` | block.c:2508-2609 | a looser assignment on a subgraph of a consistent graph refreshes without conflict, to something looser |
| `Loosening.LoosenEdgeSucceeds` | block.c:2727-2734 | shrinking what an edge asks and growing what it shares never fails |
| `Loosening.DropEdgeSucceeds` | block.c:3313-3338 | taking a parent edge away never fails |
| `Loosening.DropEdgeValid` | block.c:3313-3338 | the graph without the edge is a well-formed subgraph |
| `Loosening.InactivateSucceeds` | block.c:7033-7047 | marking a node without writers inactive never fails |
| `GraphEdits.RetargetBack` | block.c:2933-2994 | retargeting an edge to another node keeps `backing` and `file` in step with it, and retargeting it back restores the whole shape |
| `GraphEdits.BackingSlot` | block.c:1440-1480 | a backing child becomes `bs->backing`, except for filters that keep their child in `bs->file` |
| `GraphEdits.ReplaceChildKeeps` | block.c:2418-2499 | a logged replacement of an edge that is not frozen can be undone and every reference stays accounted for |
| `GraphEdits.AttachChildKeeps` | block.c:3014-3177 | so can a logged attachment |
| `GraphEdits.MarkRemovedKeeps` | block.c:5307-5337 | so can a logged removal |
| `GraphEdits.SetPermKeeps` | block.c:2330-2361 | so can a logged permission change |
| `GraphEdits.SetInheritsFromKeeps` | block.c:3340-3374 | so can a logged change of `inherits_from` |
| `GraphEdits.AbortLastKeeps` | block.c:2431-2457 | an abort callback goes one step back towards the shape before the transaction and retargets no frozen edge; refcounts still equal edges, log-held, scheduled and caller references, and a reference it drops was still counted |
| `GraphEdits.CommitLastKeeps` | block.c:2423-2429 | a commit callback keeps that balance and frees only edges that point nowhere |
| `GraphEdits.RunUnrefKeeps` | block.c:7170-7212 | a scheduled unref drops a reference that is still counted |
| `GraphEdits.DeletedIsUnused` | block.c:7170-7199 | a node whose count is zero, which `bdrv_unref` deletes, has no edge, no log entry, no scheduled unref and no caller that refers to it |
| `GraphOperations.HasChildIsReach` | block.c:4327-4343 | `bdrv_recurse_has_child` is reachability |
| `GraphOperations.ShouldUpdateChild` | block.c:5228-5305 | the search answers false exactly when the class stays at its node or the edge lies in the subtree of the new target |
| `GraphOperations.MoveKeepsAcyclic` | block.c:5228-5305 | moving an edge the search allows closes no cycle and leaves the subtree of the new target alone |
| `GraphOperations.AttachKeepsAcyclic` | block.c:3205-3209 | an attachment the cycle check allows closes no cycle |
| `GraphOperations.ReplaceParentsMoves` | block.c:5346-5378 | replacing a node succeeds exactly when no parent is frozen or must stay; then exactly the parents that may move have moved; in any case the edits can be undone |
| `GraphPermissions.GraphOfValid` | block.c:2933-2994 | the children and parents lists that the permission refresh walks are those of the edges in the graph |
| `GraphPermissions.RefreshIs` | block.c:2587-2609 | a refresh of a graph succeeds exactly when consistent permissions exist below the roots, and finds them |
| `GraphPermissions.RefreshedIsConsistent` | block.c:2508-2609 | permissions a refresh has found leave every node below the roots consistent |
| `Inheritance.InheritsFromRecursive` | block.c:3436-3446 | the loop along `inherits_from` decides whether one node inherits from another, and ends |
| `Inheritance.OtherBelow` | block.c:3380-3405 | below the first edge, whether the root has another edge to a node does not depend on the edge the search came by |
| `Inheritance.ClearedGrounded` | block.c:3380-3405 | clearing `inherits_from` leaves no cycle in it |
| `GraphTransaction.CommitAdvanced` | block.c:5307-5315 | committing keeps every frozen edge, all attached edges, and acyclicity |
| `GraphTransaction.Abort` | util/transactions.c:60-79 | the loop restores edge targets, permissions, `inherits_from` and links as they were, with refcounts balanced |
| `GraphTransaction.Commit` | util/transactions.c:81-99 | the loop frees exactly the removed edges, with refcounts balanced |
| `GraphTransaction.ReplaceNodeNoperm` | block.c:5346-5378 | the loop over the parents computes the replacement that `GraphOperations.ReplaceParentsMoves` describes |
| `GraphTransaction.RefreshPerms` | block.c:2619-2631 | the real refresh, in the order of the depth-first search: it succeeds exactly when consistent permissions exist below the roots, and then writes these through the log; every driver below the roots has been asked once whether it accepts exactly its new cumulative permissions |
| `GraphTransaction.Finish` | block.c:5438-5447 | an operation that got as far as its goal succeeds exactly when the goal can be refreshed, and then tells every driver below the roots its cumulative permissions in the new graph; else everything is undone and no driver is told |
| `GraphTransaction.BlockGraph.ReplaceNodeCommon` | block.c:5393-5448 | success exactly when no parent stops it and consistent permissions exist below both nodes; then the graph is rewired as told with exactly the permissions of the refresh, else unchanged; acyclic, balanced, and no frozen edge moves |
| `GraphTransaction.BlockGraph.DropFilter` | block.c:5456-5474 | exactly when no parent is frozen and the result can be refreshed, the parents that may move go to the child and the link to it is gone; else nothing changes |
| `GraphTransaction.AttachChildNoperm` | block.c:3078-3223 | attaches exactly when that closes no cycle, both checks for inactive nodes pass and the child can move to the context of its parent |
| `GraphTransaction.BlockGraph.Append` | block.c:5488-5524 | puts the new node on top and moves the parents of the old top to it, leaving the subgraph consistent, or changes nothing; exactly when the attachment is allowed, no parent is frozen and the result can be refreshed; the parents that move are those outside the subtree of the new node before the call |
| `GraphTransaction.UnsetInheritsFrom` | block.c:3380-3405 | the recursion clears `inherits_from` of exactly the nodes below the edge that inherit from the root and have no other edge from it |
| `GraphTransaction.SetBackingNoperm` | block.c:3480-3565 | exchanges the backing link and the `inherits_from` of what is below the old and of the new one, unless that would close a cycle or the attachment is refused |
| `GraphTransaction.BlockGraph.SetBackingHd` | block.c:3573-3594 | exactly when the driver can have a backing file, the link is not frozen, no cycle is closed and the result can be refreshed, the link is exchanged and the subgraph consistent; else nothing changes |
| `GraphTransaction.BlockGraph.AttachChild` | block.c:3274-3306 | attaches a child and leaves the subgraph of the parent consistent, or changes nothing; exactly when no check refuses, no cycle is closed and the result can be refreshed; the reference of the caller is given up in any case |
| `GraphTransaction.BlockGraph.RootAttachChild` | block.c:3232-3262 | the same for an edge of a device or a job |
| `GraphTransaction.BlockGraph.UnrefChild` | block.c:3308-3421 | the edge is gone, and `inherits_from` cleared below it; the permissions below are refreshed if they can be, and else left alone |
| `GraphTransaction.BlockGraph.Ref` | block.c:7170-7174 | a caller takes a reference, which is accounted for |
| `GraphTransaction.BlockGraph.RunUnref` | block.c:7177-7212 | a scheduled unref runs between operations, and the reference it drops is still counted |
| `BackingChains.ChainIsDistinct` | block.c:5830-5844 | a chain down to its base meets no link twice |
| `BackingChains.FrozenChainIsChain` | block.c:5830-5844 | whatever keeps the frozen edges leaves a chain down to a base the chain that the walk from its top takes; a chain without a base stays complete exactly when its last node still has no link |
| `BackingChains.NewLinkIsThawed` | block.c:5828-5844 | a link at the end of a frozen chain that was not there when it was frozen is not frozen, so that unfreezing would meet a link it asserts to be frozen |
| `GraphTransaction.BlockGraph.Run` | block.c:3232-3338 | over any sequence of replace, drop, append, set-backing, attach, root-attach, unref and scheduled-unref operations, each with the effect its own contract states, the graph stays acyclic, balanced and well-formed, and no frozen edge moves |
| `GraphTransaction.BlockGraph.WithChainFrozen` | block.c:5764-5844 | freezing a chain, any sequence of operations, and unfreezing: with a base the chain is still there, and exactly the old set of links is frozen; without one this holds exactly when the last node still has no link, and otherwise the walk comes to a link that is not frozen |
| `GraphTransaction.GrownChain` | block.c:5791-5844 | an input for the latter: a node without a link, whose chain is frozen and which is then given a backing file |
| `GraphTransaction.BlockGraph.FreezeChain` | block.c:5764-5819 | freezes all links of the chain, or none; fails exactly when one is frozen already or leads to a node that never freezes |
| `GraphTransaction.BlockGraph.UnfreezeChain` | block.c:5830-5844 | unfreezes exactly the links of the chain, each of which is found frozen |
| `AioContexts.WalkIsComplete` | block.c:7670-7707 | a walk that ends well has collected exactly what is connected with the root, and nothing there refuses |
| `AioContexts.ChangeNode` | block.c:7670-7707 | terminates on the edges not yet passed, and fails only when something connected refuses |
| `AioContexts.ChangeParent` | block.c:7586-7612 | the same for a parent edge, with the callbacks of nodes, jobs and backends |
| `AioContexts.ChangeChild` | block.c:7625-7635 | the same for a child edge |
| `AioContexts.ChangeJob` | blockjob.c:147-171 | a job moves with all its nodes |
| `AioContexts.Mover.TryChange` | block.c:7719-7756 | if connected things share a context, either fails and changes nothing, exactly when something connected refuses, or moves exactly the connected component; connected means without the edge to ignore, if there is one |
| `Images.StatusAbove` | block/io.c:2624-2726 | the answer holds for the whole range: allocated in some layer above the base or in none; the count is 0 exactly at the end of the first layer; zero means that the range reads as zero; layers of whole units give an answer of whole units |
| `Images.DoBlockStatus` | block/io.c:2387-2622 | one layer's answer, however far the driver looks |
| `Images.UnallocatedReadsBase` | block/io.c:2669-2719 | a cell that no layer above the base decides reads as in the base |
| `Buffers.CompareBuffers` | qemu-img.c:1263-1288 | the longest prefix of whole chunks that all match or all differ, and which of the two |
| `Buffers.FindNonzero` | qemu-img.c:1132-1146 | -1 exactly for all zeroes, else the start of the first sector that is not zero |
| `Rebase.ExtendUnallocated` | qemu-img.c:4055-4060 | extending an unallocated range to unit boundaries adds only unallocated bytes |
| `Rebase.WriteStep` | qemu-img.c:4096-4110 | writing the old backing content over whole unallocated units changes nothing one can read |
| `Rebase.LoggedMore` | qemu-img.c:3942-3949 | what has been recorded of a run stays right: at every moment so far the image was intact |
| `Rebase.Image.Pwrite` | qemu-img.c:4096-4115 | a write is recorded with its outcome, and the image is still the replay of the record |
| `Rebase.ExtendedFits` | qemu-img.c:4055-4058 | if the buffer has whole units, an extended range fits it exactly when the old range does with what is before it in its first unit |
| `Rebase.LongRange` | qemu-img.c:4000-4105 | an input for which it does not: after 8192 bytes that are passed over comes a range as long as the buffer, which is extended back |
| `Rebase.Image.NextRange` | qemu-img.c:4000-4044 | a range that is passed over is allocated, or reads the same in the new backing file; where statuses come in whole units it ends at one or with the image; fails exactly when a query does |
| `Rebase.Image.Extend` | qemu-img.c:4055-4060 | the extended range is unallocated, aligned and contains the old one, so the loop goes forward; it fits the buffer exactly when the old one does with what is before it in its first unit |
| `Rebase.Image.CopyDiffering` | qemu-img.c:4066-4122 | unless a request fails, and only then it fails, no byte of the range needs the old backing file afterwards |
| `Rebase.Image.Rebase` | qemu-img.c:3941-4135 | fails exactly when a request does; the recorded requests and buffers are those of the run, and replaying its writes gives the image; after every prefix of the record, so at any moment and when it fails, the image reads as before over the old backing file; when it succeeds also over the new one; equal backing files cause no write; if statuses come in the units that are written, nothing in the record needs more than the buffer |
| `Compare.CheckEmptySectors` | qemu-img.c:1307-1328 | says whether a range reads as zero; fails exactly when the read does |
| `Compare.DecideRange` | qemu-img.c:1531-1580 | decides a range by the two statuses and, if need be, by content; in strict mode statuses that differ are a difference |
| `Compare.CompareStep` | qemu-img.c:1506-1585 | asks both images and decides the next range; fails exactly when a request does |
| `Compare.CheckOverhang` | qemu-img.c:1588-1622 | what only the longer image has must read as zero; fails exactly when a request does |
| `Compare.ImgCompare` | qemu-img.c:1506-1626 | fails exactly when one of its requests does; else identical exactly for images with equal content after zero-extending the shorter, and different for all others; in strict mode identical implies equal content and length, and different that content or length differ, or that some cell may have another status in each image |
| `Convert.IsAllocatedSectors` | qemu-img.c:1158-1209 | the leading run of zero or nonzero sectors, its end rounded to the alignment; true exactly when the first sector is not zero or a run of zeroes ends before the first boundary; what it calls unallocated is all zero |
| `Convert.ShortZeroRunIsData` | qemu-img.c:1148-1190 | an input for which the first sector is zero and the answer is true all the same |
| `Convert.IsAllocatedSectorsMin` | qemu-img.c:1216-1253 | what it calls unused is all zero; it makes progress, and what it calls used ends before `min` zero sectors, before zeroes up to the end, or at the end: shorter runs of zeroes do not split data |
| `Convert.SelectPart` | qemu-img.c:1699-1709 | the source that has the sector, and where it starts |
| `Convert.StatusIsRight` | qemu-img.c:1786-1793 | a range called zero reads as zero, and one left to the backing file reads as the target's backing file does |
| `Convert.Converter.IterationSectors` | qemu-img.c:1711-1816 | fails exactly when the query does, else a positive number of sectors within the image for which the status is right, no more than the buffer holds when they are data |
| `Convert.CoRead` | qemu-img.c:1818-1869 | reads the concatenated sources, across the end of one into the next; fails exactly when a read does |
| `Convert.Converter.CoWrite` | qemu-img.c:1872-1934 | unless a write fails, and only then it fails, the range of the target reads as the sources do; nothing else changed |
| `Convert.Converter.CopyClaimed` | qemu-img.c:2023-2058 | reading and writing a claimed range, also with `-S 0`; fails exactly when a request does |
| `Convert.Converter.Copy` | qemu-img.c:2113-2140 | counting, then copying range after range until all is copied; fails exactly when a request does |
| `Convert.DoCopy` | qemu-img.c:2090-2151 | with one coroutine, succeeds exactly when all requests do, the last one to a compressed target included, and a compressed target has clusters that fit the buffer; then the target reads as the concatenated sources; nothing beyond their size changes |
| `ConvertCoroutines.StepKeepsInv` | qemu-img.c:1967-2088 | every step of every coroutine keeps the invariant on claims, owners, writes and content |
| `ConvertCoroutines.ClaimsPartition` | qemu-img.c:1992-2015 | in every run, every sector handed out is in exactly one claim, done or owned by one coroutine |
| `ConvertCoroutines.WritesInOrder` | qemu-img.c:2036-2043 | with `wr_in_order` the ranges are written one at a time, in order, without gaps |
| `ConvertCoroutines.WaiterHasWaker` | qemu-img.c:2061-2077 | who waits at a sector waits for a claim ending there whose owner has not gone on, also after an error |
| `ConvertCoroutines.SuccessIsFaithful` | qemu-img.c:2080-2087 | over every interleaving, success means that the target reads as the sources do |
| `ConvertCoroutines.ErrorIffFailed` | qemu-img.c:1967-2088 | over every interleaving, the copy has an error exactly when a status query, read or write has failed before |
| `ConvertCoroutines.NoDeadlock` | qemu-img.c:1967-2088 | while some coroutine has not finished, some coroutine can go on |
| `ConvertCoroutines.StepDecreases` | qemu-img.c:1967-2088 | every step lowers a measure, so every run ends |
| `ConvertCoroutines.FinalResult` | qemu-img.c:2080-2087 | when nothing can go on all coroutines are finished; with an error if some step failed, and otherwise with success and a target that reads as the sources do |
| `Jobs.ApplyKeeps` | job.c:538-758 | starting, pausing, yielding, resuming, draining and I/O-error stops keep the pause accounting, make only transitions of the status table, and wake the coroutine only when it has yielded |
| `Jobs.YieldRoundTrip` | job.c:538-606 | a job that yields is idle until it is entered, and then goes on exactly as it was |
| `Jobs.UserPauseRoundTrip` | job.c:609-642 | a user pause stops the job at its next pause point; resuming wakes it and gives back exactly the job there was |
| `Jobs.DrainRoundTrip` | blockjob.c:93-127 | so does a drained section |
| `Jobs.ErrorStopRoundTrip` | blockjob.c:578-622 | a stop on an I/O error shows as a user pause; resuming also resets the error, and the assertion on that holds |
| `Jobs.CancelFlags` | job.c:888-924 | a cancel request sets the flags, unless it is soft and the job is done |
| `Jobs.CancelUnpauses` | job.c:888-924 | and ends a user pause with the count still right, and does nothing else |
| `Jobs.FreedIsNull` | job.c:463-485 | a job without references has status null and is in no transaction |
| `JobTransactions.CancelDooms` | job.c:888-924 | a job that another one force-cancels can only end by aborting, or was never started and does not end at all |
| `JobTransactions.FinishSyncAborts` | job.c:1242-1270 | waiting for a cancelled job brings it to aborting, whatever it returns |
| `JobTransactions.FinalizeDoomed` | job.c:846-883 | for a doomed job finalising decides on the abort callback, with legal transitions, and the job leaves its transaction |
| `JobTransactions.FinalizePending` | job.c:846-883 | for a pending job it decides on the commit callback |
| `JobTransactions.FirstFailureIs` | job.c:177-203 | preparation stops at the first job whose driver fails to prepare, and at none exactly when all succeed |
| `JobTransactions.PrepareEnds` | job.c:972-987 | a pending job whose preparation fails can only abort; another one is as before |
| `JobTransactions.AllOrNothing` | job.c:929-1061 | in every state in order, with the outcomes that finalising decided: if one job of a transaction has committed then none of it has aborted and all have ended, and the other way round |
| `JobTransactions.PopBusy` | job.c:846-883 | a job that leaves its transaction keeps everything else in order, and has a result of 0 exactly when it was committed |
| `JobTransactions.JobManager.TxnAbort` | job.c:929-969 | returns exactly when no other job of the transaction was never started; then every job of the transaction has ended by aborting, except for a pending one on whose behalf it aborts; no job outside the transaction changes |
| `JobTransactions.JobManager.PrepareAll` | job.c:972-1002 | finds the first job that fails to prepare, and changes only that one |
| `JobTransactions.JobManager.DoFinalize` | job.c:995-1008 | if all jobs prepare, all commit; if the first that fails is the one that finalises, all abort; if it is another one, all abort except the one that finalises, which commits: the state is in order exactly in the first two cases; no job outside the transaction changes |
| `JobTransactions.JobManager.AllCompleted` | job.c:1048-1053 | completed jobs of a transaction that does not abort have a result of 0 |
| `JobTransactions.JobManager.TxnSuccess` | job.c:1037-1061 | a job that is not the last to complete only waits; the last one makes all pending, and finalises them unless one asks for manual finalisation; no job outside the transaction changes |
| `JobTransactions.JobManager.Exit` | job.c:1064-1098 | a job that returned an error or was force-cancelled aborts its transaction; for any other one what `TxnSuccess` states holds |
| `JobTransactions.JobManager.CancelJob` | job.c:1137-1171 | cancelling aborts the transaction when the job is not started, or is done and the request is forced, else only sets its flags and wakes it; refused requests change nothing |
| `JobTransactions.JobManager.FinalizeJob` | job.c:1010-1017 | finalising a pending job finalises its whole transaction, as `DoFinalize` states; any other job refuses |
| `JobTransactions.JobManager.DismissJob` | job.c:774-785 | only a concluded job is dismissed |
| `JobTransactions.JobManager.EarlyFail` | job.c:787-792 | a job that was never started leaves its transaction, which goes on without it |
| `JobTransactions.JobManager.NewTxn` | job.c:114-120 | a new transaction is empty and undecided |
| `JobTransactions.JobManager.Create` | job.c:391-456 | a new job joins a transaction, which stays in order exactly when nothing has been decided about it yet |
| `JobTransactions.JobManager.Happen` | job.c:538-758 | an event of a single job keeps everything in order |
| `JobTransactions.JobManager.Free` | job.c:463-485 | a job is freed only in status null and outside any transaction |
| `JobRuns.Perform` | job.c:114-1171 | a command keeps every transaction in order exactly if it does not join a decided transaction, does not finalise one in which another job fails to prepare first, and does not abort one with another job that was never started |
| `JobRuns.Run` | job.c:114-1171 | over any sequence of commands, each with the effect its own contract states, all transactions are in order at every moment up to the first command that breaks one |
| `JobRuns.RunIsAllOrNothing` | job.c:929-1061 | so in such a run the jobs of a transaction never end differently |
| `JobRuns.SplitByPrepare` | job.c:945-1008 | a run of the entry points for the third case: two jobs are created, run and become pending; one is told to finalise and the other fails to prepare; one commits and one aborts |

## Left out

- Memory ordering weaker than sequential consistency, and CPUs that come or go during an exclusive section.
- The driver hooks of the permission system other than the default ones: they are arbitrary functions.
- GraphEdits.AttachChildKeeps: attaching a child may move it to another AioContext and moves it back when undone; the graph model has no contexts, `AioContexts` has them on their own.
- GraphEdits.AbortLastKeeps: does not move the child of an undone attachment back to its old AioContext, for the same reason.
- GraphTransaction.AttachChildNoperm: whether the child can move to the context of its parent is a parameter, for the same reason.
- GraphTransaction.BlockGraph.AttachChild: passes that parameter on.
- GraphTransaction.BlockGraph.RootAttachChild: has the same parameter.
- GraphTransaction.BlockGraph.Append: passes that parameter on.
- GraphTransaction.SetBackingNoperm: passes that parameter on.
- GraphTransaction.BlockGraph.SetBackingHd: passes that parameter on.
- GraphTransaction.BlockGraph.UnrefChild: does not move the node back to the main AioContext.
- GraphEdits.RunUnrefKeeps: a node without references stays in the model; deleting it would close it and drop its own references.
- `bdrv_replace_child_bs`, reopening, and opening of images.
- Drain counters and polling; drained nodes are taken for granted.
- Filters inside image chains, and a block status that is finer than a sector in `convert`.
- Rebase.Image.Rebase: allocation is taken to be constant within every unit of `write_align` bytes; the second allocation query, in the assertion on the extended range, is not counted as a request.
- Compare.ImgCompare: how much of a status a driver tells is up to it, so in strict mode the statuses of images with the same content may or may not be found to differ where the contract says they may.
- Convert.IsAllocatedSectors: its comment promises true exactly when the first sector is not zero; the code also answers true for zeroes that end before the first boundary. The contract follows the code, and `Convert.ShortZeroRunIsData` has an input that shows the difference.
- `copy_range`, `salvage`, bitmaps, compression itself and rate limits in `convert`; how `has_zero_init` is found out.
- JobTransactions.JobManager.DoFinalize: does not promise that all jobs of a transaction end alike when another job than the finalising one fails to prepare, because the code then commits the finalising one; `JobRuns.SplitByPrepare` has an input.
- JobTransactions.JobManager.TxnAbort: waiting for a job that was never started does not end; the method returns false where the code would wait.
- JobTransactions.JobManager.Happen: a driver signals readiness once, and its cancel hook returns true when asked to force or when the job is not ready.
- Names and ids of jobs, events, progress, speed limits, the QMP commands.
