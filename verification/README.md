# Verified models of the otos core services

A Dafny model of the parts of otos-coreinit whose correctness rests on state kept across calls: the
cluster scheduler and its memory manager, the ARM demand-paging and copy-on-write handler, the
device-tree walker, the network RPC, the per-core job executor with its x86_64 context switch, and
the two Cap'n Proto codecs underneath. Each C loop or in-place update is an imperative method proved
equal to a function on values; the theorems are about those functions, over every input, every
reachable state or every run. `dafny verify dfyconfig.toml` checks everything.

| files | component |
|---|---|
| `MemoryManager` | physical claims: fixed claims, first-fit allocation, free, the boot-time claims |
| `ClusterState`, `ClusterScheduler` | the scheduler's handlers as functions on its state, and as methods over its pools |
| `ClusterInvariant`, `ClusterRuns` | the invariant of every run of scheduler, resource and memory-manager calls |
| `ClusterHistory`, `ClusterDispatch`, `ClusterLeave`, `ClusterMemory` | what follows over whole runs: bindings, priorities, dispatch, results, node departure, memory |
| `ClusterWitness` | runs from boot in which a promise fails |
| `PageFault`, `PageView`, `PageRuns`, `PageMarks`, `PageFaultCore` | the translation walk, region split, STREAM and COW marks and the fault handler, refining plain memory with private copies |
| `Fdt`, `FdtTree`, `FdtProps`, `FdtSearch`, `FdtReg` | token scans over a flattened device tree, against the tree the blob encodes |
| `FdtTranslate`, `FdtWitness` | register translation in terms of bus windows; blobs, byte for byte, on which the walker fails |
| `Wire`, `CapnpFlat`, `CapnpList` | little-endian words; the flat and the list-root message codecs |
| `NetworkRpc`, `NetworkSession`, `NetworkRuns`, `NetworkLink` | the RPC packets, a session over Ethernet, runs over a lossy, duplicating, reordering network, and the session's calls as calls of those runs |
| `JobExec`, `JobRuns` | the priority executor and its runs |
| `ContextSwitch`, `SwitchRuns` | the context switch instruction by instruction, and runs of many jobs |
| `ExecutorRuns` | the executor's table and the machine it switches, in one run |

Conventions. Machine integers are subset types of `int`, and every wrap-around the C performs is
written out with `Wrap32` or `Wrap64`. Handles from the kernel's factory, network arrivals, the
invoked object's answers and the memory a job writes while it runs are inputs. Each scheduler
handler, each poll and each executor call is one atomic step.

## What turned out not to hold

Each of these is kept as the code has it, with the exact condition and an input or run on which it
fails.

- A claim whose end passes 2^64 is accepted on top of live ones (`WrappingClaimOverlapsLiveOne`); an
  accepted claim keeps the claims disjoint exactly when it does not wrap or every live claim ends at
  or below its base (`ClaimKeepsDisjointIff`).
- Failed boot claims are ignored, so a loader region can leave the init image partly unclaimed
  (`BootProtectsInitImage`, `StraddlingLoaderExposesImage`).
- Calling RELEASE on a resource object from outside breaks the reservation of a job bound through it
  (`OutsideReleaseIsSafeIff`), after which two live jobs can be bound to one resource
  (`OutsideReleaseDoubleBinds`). Releasing the pool resource frees the claim of a slice that starts at
  the pool's base (`PoolReleaseIsSafeIff`, `PoolReleaseBreaksSlice`).
- LEAVE_NODE is documented to release a node's jobs back to the pool (coreinit/cluster_scheduler.h:76-82).
  A released job is there exactly when it was not dispatched and what it needs outlives the node
  (`ReleasedJobIsInPoolIff`). A dispatched one is offered to nobody until somebody reports on it
  (`LeaveKeepsDispatched`, `LeaveStrandsDispatched`); one bound to a resource of the node is offered to
  nobody ever again, whatever is reported (`LeaveStrandsBound`, `LeaveStrandsBoundJob`).
- Joining declares no resource (`JoinDeclaresNothing`), although coreinit/cluster_scheduler.h:73-74
  promises a CPU core.
- Inherited priority is lost at the holder's first unlock, also of another mutex: it still ranks with
  the contender exactly when its base priority does (`UnlockKeepsInheritanceIff`,
  `FirstUnlockDropsBoost`).
- Both marks record the address they are given while the handler looks up the page. After an unaligned
  absent mark every access to the page halts the core, after an unaligned copy-on-write mark every
  store, unless the page was recorded before (`UnalignedMarkHaltsIff`, `UnalignedCowHaltsIff`,
  `UnalignedMarksHalt`). A store to a marked page halts it once the pool is used up (`WriteHalts`,
  `PoolRunsOut`).
- The compatible search never returns when, on the deepest level its stack has room for, it meets an
  unwanted node with children before a wanted one (`SearchReturnsIff`, `SearchTrapped`).
- The bounds test of a reg entry lets index 2^32 - 1 through, and cell counts whose entry size wraps;
  an accepted entry is read inside its property exactly under the stated condition
  (`AcceptedReadsInsideIff`, `WrappedCountReadsOutside`).
- A node's own ranges take part in the translation of its reg. That is harmless exactly when it has no
  window of its own or the enclosing buses take the address and its image to the same place
  (`OwnRangesHarmlessIff`, `OwnRangesUnderRootIff`, `OwnRangesSpoilReg`).
- Two sessions on the same node pair take each other's replies (`FaithfulIffOnePerPair`,
  `SharedPairConfuses`), and the Ethernet frame limit cuts calls well below the RPC's own 4096 bytes
  (`EtherCarriesIff`, `EtherLosesLongMessage`).
- A list of 2^30 elements or more, or with a body of 2^29 words or more, does not read back
  (`ListRoundTripIff`); some read back shorter without an error (`LongListMisread`).
- Spawning a job that outranks the running one leaves it waiting (`LateSpawnKeepsIff`,
  `LateSpawnWaits`).

## Model

| member | source | states |
|---|---|---|
| `MemoryManager.Manager.constructor` | coreinit/mem_mgr.c:144-150 | an empty table over the given window |
| `MemoryManager.Manager.ScanOverlap` | coreinit/mem_mgr.c:56-65 | the overlap loop finds a used claim exactly when one meets the range, on 64-bit ends |
| `MemoryManager.Manager.ClaimLocked` | coreinit/mem_mgr.c:54-75 | accepts exactly when nothing used meets the range and a row is left; appends that one row |
| `MemoryManager.Manager.CollectStarts` | coreinit/mem_mgr.c:87-94 | the candidates are the window bottom and precisely the ends of used claims |
| `MemoryManager.SelectionSort` | coreinit/mem_mgr.c:95-105 | sorts the candidates in place: ordered and a permutation |
| `MemoryManager.Manager.FirstFit` | coreinit/mem_mgr.c:107-130 | trying sorted candidates in order yields the lowest one that fits |
| `MemoryManager.Manager.AllocLocked` | coreinit/mem_mgr.c:78-130 | the answer is the lowest candidate that fits, none when the table is full; the claim is appended |
| `MemoryManager.Manager.FreeLocked` | coreinit/mem_mgr.c:133-142 | retires the first used claim with that base and no other, fails when there is none |
| `MemoryManager.Manager.InitSchema` | coreinit/mem_mgr.c:144-209 | the table after boot: the fixed claims, the loader region if given and accepted, the init image if accepted |
| `MemoryManager.ClaimKeepsWellFormed` | coreinit/mem_mgr.c:54-75 | claims stay disjoint with every end inside the address space if and only if the accepted claim does not wrap |
| `MemoryManager.ClaimKeepsDisjointIff` | coreinit/mem_mgr.c:54-75 | an accepted claim leaves the claims disjoint if and only if it does not wrap or every live claim ends at or below its base |
| `MemoryManager.WrappingClaimOverlapsLiveOne` | coreinit/mem_mgr.c:54-75 | a wrapping claim is accepted over a live one |
| `MemoryManager.StartBelow` | coreinit/mem_mgr.c:80-94 | below every free placement there is a free candidate, so the candidates lose nothing |
| `MemoryManager.PickIsLeastFree` | coreinit/mem_mgr.c:78-130 | first fit over claim ends returns the least free address of the whole window, and fails only if there is no free address |
| `MemoryManager.AllocKeepsWellFormed` | coreinit/mem_mgr.c:78-130 | allocation keeps claims disjoint; short of a full table its answer is the least free address |
| `MemoryManager.FreeUndoesAlloc` | coreinit/mem_mgr.c:133-142 | freeing what was just allocated leaves the same addresses covered as before, with one table row spent |
| `MemoryManager.BootProtectsInitImage` | coreinit/mem_mgr.c:144-209 | the init image ends up fully claimed if and only if the loader region, wrapping or not, was refused, is clear of it in the 64-bit test, or contains it |
| `MemoryManager.StraddlingLoaderExposesImage` | coreinit/mem_mgr.c:144-209 | a region over the image's end is accepted and leaves the image's first address unclaimed |
| `MemoryManager.BootTableGood` | coreinit/mem_mgr.c:144-209 | every boot claim has a size, and they are disjoint unless the loader region wraps |
| `MemoryManager.RunKeepsWellFormed` | coreinit/mem_mgr.c:54-142 | over every run of claims, allocations and frees without wrapping claims, live claims never overlap and rows are only spent |
| `ClusterScheduler.Scheduler.constructor` | coreinit/cluster_scheduler.c:867-905 | the state after init: empty pools and the memory pool resource over the window |
| `ClusterScheduler.Scheduler.FindJobSlot` | coreinit/cluster_scheduler.c:856-865 | lookup by handle among live jobs |
| `ClusterScheduler.Scheduler.CreateResourceObject` | coreinit/cluster_scheduler.c:199-249 | bump-allocates the resource and its index entry, or changes nothing but the bump counter when a pool is out |
| `ClusterScheduler.Scheduler.HandleJoinNode` | coreinit/cluster_scheduler.c:913-940 | the new node table and handle, including the failure paths |
| `ClusterScheduler.Scheduler.HandleLeaveNode` | coreinit/cluster_scheduler.c:942-1017 | both sweeps and the removal of the node |
| `ClusterScheduler.Scheduler.HandleRequestAllocation` | coreinit/cluster_scheduler.c:1052-1094 | claims the range first and creates the resource second, keeping the claim if that fails |
| `ClusterScheduler.Scheduler.HandleAllocateSlice` | coreinit/cluster_scheduler.c:1110-1157 | the slice sits where the memory manager answered, reserved to the asking job |
| `ClusterScheduler.Scheduler.HandleReleaseSlice` | coreinit/cluster_scheduler.c:1165-1223 | checks the reserver, frees the claim at the base, drops resource and index entry |
| `ClusterScheduler.Scheduler.HandleDeclareResource` | coreinit/cluster_scheduler.c:1225-1254 | creates the declared resource |
| `ClusterScheduler.Scheduler.HandleReassignResource` | coreinit/cluster_scheduler.c:1277-1310 | changes the owner of a live resource and nothing else |
| `ClusterScheduler.Scheduler.HandleSubmitJob` | coreinit/cluster_scheduler.c:1312-1331 | fills the first free job slot with the request at base priority |
| `ClusterScheduler.Scheduler.DestroyJobObject` | coreinit/cluster_scheduler.c:790-820 | frees the job's slot |
| `ClusterScheduler.Scheduler.ResourceOkFor` | coreinit/cluster_scheduler.c:1341-1381 | whether the job could be given its resource now |
| `ClusterScheduler.Scheduler.BindResourceFor` | coreinit/cluster_scheduler.c:1388-1413 | reserves the wanted resource and records the binding |
| `ClusterScheduler.Scheduler.ScanJobs` | coreinit/cluster_scheduler.c:1418-1471 | one pass clears vanished blockers and finds the best ready and the best mutex-blocked job |
| `ClusterScheduler.Scheduler.PickNextForNode` | coreinit/cluster_scheduler.c:1415-1517 | the whole GET_NEXT_JOB: scan, choose, bind, mark dispatched, assign |
| `ClusterScheduler.Scheduler.HandleReportJobResult` | coreinit/cluster_scheduler.c:1519-1572 | the blocked, yielded and finished reports, with the completion ring |
| `ClusterScheduler.Scheduler.HandleGetJobResult` | coreinit/cluster_scheduler.c:1574-1582 | the ring lookup |
| `ClusterScheduler.Scheduler.HandleMutexTryLock` | coreinit/cluster_scheduler.c:1584-1625 | lock, or raise the holder to the contender's priority |
| `ClusterScheduler.Scheduler.HandleMutexUnlock` | coreinit/cluster_scheduler.c:1627-1653 | unlock by the holder restores its base priority; by anyone else nothing |
| `ClusterInvariant.BestIsHighest` | coreinit/cluster_scheduler.c:1454-1467 | the scan keeps an offered job of maximal effective priority, the first of its rank |
| `ClusterInvariant.KeepReport` | coreinit/cluster_scheduler.c:1519-1572 | a report keeps the reservation invariant, also when it releases the binding |
| `ClusterInvariant.KeepLeave` | coreinit/cluster_scheduler.c:942-1017 | a departure keeps it, through both sweeps |
| `ClusterInvariant.KeepGetNext` | coreinit/cluster_scheduler.c:1415-1517 | a dispatch keeps it |
| `ClusterInvariant.KeepUnlock` | coreinit/cluster_scheduler.c:1627-1653 | an unlock keeps it, in particular effective priority at least base and equal without a mutex |
| `ClusterRuns.StepKeepsInv` | coreinit/cluster_scheduler.c:907-1653 | every scheduler, resource-object and memory-manager call keeps the invariant |
| `ClusterRuns.OutsideReleaseIsSafeIff` | coreinit/cluster_scheduler.c:68-127 | an outside RELEASE keeps it if and only if no live job is bound to the live resource through that reservation |
| `ClusterWitness.OutsideReleaseDoubleBinds` | coreinit/cluster_scheduler.c:68-127 | from a run that binds a job, an outside RELEASE and one more dispatch leave two live jobs bound to one live resource |
| `ClusterRuns.BootKeepsInv` | coreinit/cluster_scheduler.c:867-905 | boot establishes the invariant |
| `ClusterRuns.RunKeepsInv` | coreinit/cluster_scheduler.c:867-1653 | the invariant holds in every state of every run |
| `ClusterHistory.StepIsOneStep` | coreinit/cluster_scheduler.c:68-1653 | each step keeps a live job's slot, request, binding, priority (unless it unlocks) and dispatch mark (unless it reports); slots are refilled only under new handles |
| `ClusterHistory.Follow` | coreinit/cluster_scheduler.c:724-820 | over any run a job keeps its slot and request while it lives and never comes back under its handle |
| `ClusterHistory.ExclusiveBinding` | coreinit/cluster_scheduler.c:1341-1413 | in every reachable state a live job bound to a live resource is its reserver, so no two live jobs share one |
| `ClusterHistory.StickyBinding` | coreinit/cluster_scheduler.c:1388-1413 | a binding, once set, never changes while the job lives |
| `ClusterHistory.PriorityInheritance` | coreinit/cluster_scheduler.c:1584-1653 | from a failed try_lock to the holder's next unlock, the holder's effective priority is at least what the contender had |
| `ClusterHistory.UnlockKeepsInheritanceIff` | coreinit/cluster_scheduler.c:1627-1653 | in any run, after the holder's unlock of any mutex it still ranks with the contender if and only if its base priority does |
| `ClusterWitness.FirstUnlockDropsBoost` | coreinit/cluster_scheduler.c:1584-1653 | a run from boot in which a job unlocks one of two mutexes and falls below the job waiting for the other |
| `ClusterHistory.NoStrayBoost` | coreinit/cluster_scheduler.c:531-559 | effective priority is at least base, and equal for a live job that holds no mutex |
| `ClusterHistory.MutexExclusion` | coreinit/cluster_scheduler.c:531-559 | between two successful try_locks of one mutex, the first job gave it up |
| `ClusterHistory.NoDoubleDispatch` | coreinit/cluster_scheduler.c:1415-1517 | between two hand-outs of one job there is a report on it |
| `ClusterHistory.ResultCollectable` | coreinit/cluster_scheduler.c:1519-1582 | a finished job's value is returned exactly until as many later jobs finished as the ring has entries |
| `ClusterDispatch.GetNextIsMaximal` | coreinit/cluster_scheduler.c:1415-1517 | the answer is a ready job of maximal effective priority; a mutex-blocked one only if none is ready; none exactly if there is neither |
| `ClusterDispatch.GetNextServes` | coreinit/cluster_scheduler.c:1388-1494 | the chosen job comes out dispatched, with the resource it asked for bound and reserved to it |
| `ClusterDispatch.BindServes` | coreinit/cluster_scheduler.c:1341-1413 | binding a job that passed the resource test succeeds with a resource meeting its request |
| `ClusterDispatch.LeaveSweeps` | coreinit/cluster_scheduler.c:942-1017 | job by job and resource by resource: pinned jobs go and their reservations are released, other jobs only lose the assignment, exactly the node's resources go |
| `ClusterDispatch.LeaveLeavesNoTrace` | coreinit/cluster_scheduler.c:942-1017 | afterwards no live resource belongs to the node and no live job is pinned or assigned to it; jobs pinned elsewhere survive |
| `ClusterDispatch.LeaveGivesBack` | coreinit/cluster_scheduler.c:942-1017 | a surviving resource is unchanged except that the reservation of a cancelled job is released |
| `ClusterLeave.ResourceLeftIff` | coreinit/cluster_scheduler.c:1341-1381 | after a departure a surviving job's resource test passes if and only if, before it, what the job needs belonged to another node and was free or about to be given back |
| `ClusterLeave.ReleasedJobIsInPoolIff` | coreinit/cluster_scheduler.c:942-1017 | a released job is offered to every node if and only if it was not dispatched and what it needs outlives the node; for a bound job, its resource did not belong to the node |
| `ClusterLeave.RetiredForGood` | coreinit/cluster_scheduler.c:199-249 | a resource handle that is gone never comes back in a run |
| `ClusterLeave.LeaveStrandsBound` | coreinit/cluster_scheduler.c:1341-1349 | a job that survives the departure of the node owning its bound resource is handed out at no later step of the run |
| `ClusterLeave.LeaveKeepsDispatched` | coreinit/cluster_scheduler.c:942-1017 | a job dispatched when a node leaves is handed out again only after a report on it |
| `ClusterLeave.JoinDeclaresNothing` | coreinit/cluster_scheduler.c:913-940 | joining adds no resource and no index entry |
| `ClusterWitness.LeaveStrandsDispatched` | coreinit/cluster_scheduler.c:942-1017 | after join, submit, get-next and leave, no node is offered the one live job, which nothing blocks |
| `ClusterWitness.LeaveStrandsBoundJob` | coreinit/cluster_scheduler.c:942-1017 | the same after the job was bound to a resource of the node and given back undispatched |
| `ClusterMemory.ReleaseTakesBoth` | coreinit/cluster_scheduler.c:1165-1223 | a release removes the resource and uncovers exactly its range, keeping every other slice backed |
| `ClusterMemory.StepKeepsMemory` | coreinit/cluster_scheduler.c:1052-1254 | every disciplined step keeps memory resources one-to-one with used claims of equal base and size |
| `ClusterMemory.BootKeepsMemory` | coreinit/cluster_scheduler.c:867-905 | boot establishes that correspondence |
| `ClusterMemory.BootClaimsKeepMemory` | coreinit/mem_mgr.c:144-209 | the claims the memory manager makes at boot, with any loader region inside the address space, establish it |
| `ClusterMemory.RunKeepsMemory` | coreinit/cluster_scheduler.c:1052-1223 | it holds in every state of every disciplined run |
| `ClusterMemory.SlicesDisjoint` | coreinit/cluster_scheduler.c:1052-1223 | two live slices never share an address, in any state of such a run |
| `ClusterMemory.PoolReleaseIsSafeIff` | coreinit/cluster_scheduler.c:1165-1223 | releasing the pool keeps it if and only if no slice starts at the pool's base |
| `ClusterWitness.PoolReleaseBreaksSlice` | coreinit/cluster_scheduler.c:1165-1223 | after one slice allocation from boot, releasing the pool is accepted and leaves the slice without a claim |
| `PageFault.SplitKeepsTranslation` | coreinit/pagefault_aarch64.c:85-119 | after every single table store of a split, each RAM address translates to itself with the same permissions |
| `PageFault.SplitSparesOthers` | coreinit/pagefault_aarch64.c:85-119 | addresses of other gigabytes translate as before at every store |
| `PageView.MarkAbsentInvisible` | coreinit/pagefault_aarch64.c:133-150 | a STREAM mark changes nothing the program can observe |
| `PageView.MarkCowMarks` | coreinit/pagefault_aarch64.c:152-171 | a COW mark is exactly a mark on the observable memory |
| `PageView.ResumeKeeps` | coreinit/pagefault_aarch64.c:176-201 | the STREAM branch only makes the entry valid again and keeps the observable memory |
| `PageView.CopyKeepsView` | coreinit/pagefault_aarch64.c:202-217 | the COW branch gives the page a private copy of what was visible and clears its mark |
| `PageView.ReadRefines` | coreinit/pagefault_aarch64.c:176-228 | a load completes after at most one fault with the visible byte |
| `PageView.WriteRefines` | coreinit/pagefault_aarch64.c:176-228 | a store completes after at most two faults and acts on the private copy, given a pool page if one is needed |
| `PageView.WriteHalts` | coreinit/pagefault_aarch64.c:202-228 | with no pool page left, a store to a marked page halts the core |
| `PageRuns.StepRefines` | coreinit/pagefault_aarch64.c:85-228 | one step of the core is one step of plain memory with private copies, with the same reply |
| `PageRuns.BootRefines` | coreinit/arch_mmu_aarch64.c:41-101 | the identity map built at boot is plain memory with nothing private or marked, wherever the kernel entry lies |
| `PageRuns.RunRefines` | coreinit/pagefault_aarch64.c:85-228 | every run of splits, marks, loads and stores is a run of that memory: nothing gets stuck and every load is right |
| `PageRuns.OriginalKept` | coreinit/pagefault_aarch64.c:152-217 | from a successful COW mark on, no store of this core changes the shared original |
| `PageRuns.OneSplit` | coreinit/pagefault_aarch64.c:85-119 | at most one region is split in any run |
| `PageMarks.UnalignedMarkHaltsIff` | coreinit/pagefault_aarch64.c:133-201 | after an absent mark, a load or store to the page completes if and only if the address was page-aligned or the page recorded before, and a store that needs one finds a pool page; otherwise the core halts |
| `PageMarks.UnalignedCowHaltsIff` | coreinit/pagefault_aarch64.c:152-217 | after a copy-on-write mark every load completes, and a store if and only if the address was page-aligned or the page recorded before, and a pool page is left; otherwise the core halts |
| `PageMarks.PoolRunsOut` | coreinit/pagefault_aarch64.c:202-228 | a run from boot in which the pool's pages are spent, a further mark is accepted and the store to that page halts |
| `PageMarks.UnalignedMarksHalt` | coreinit/pagefault_aarch64.c:133-217 | after the first split from boot, marks one byte into a page are accepted and halt the accesses |
| `PageFaultCore.ArmCore.SplitRegion` | coreinit/pagefault_aarch64.c:85-119 | the in-place split is the function whose every intermediate store is covered above |
| `PageFaultCore.ArmCore.Contains` | coreinit/pagefault_aarch64.c:58-66 | membership in the recorded pages |
| `PageFaultCore.ArmCore.RegisterStreamedPage` | coreinit/pagefault_aarch64.c:121-131 | records the address once; a full table drops it |
| `PageFaultCore.ArmCore.MarkPageAbsent` | coreinit/pagefault_aarch64.c:133-150 | the mark, with each refusal |
| `PageFaultCore.ArmCore.MarkPageCow` | coreinit/pagefault_aarch64.c:152-171 | the mark, with each refusal |
| `PageFaultCore.ArmCore.CopyPage` | coreinit/pagefault_aarch64.c:206-213 | the byte loop copies the whole page |
| `PageFaultCore.ArmCore.HandleFault` | coreinit/pagefault_aarch64.c:176-228 | resume, copy or halt, with the exact new tables, memory and pool counter |
| `PageFaultCore.ArmCore.Perform` | coreinit/pagefault_aarch64.c:133-228 | translate, fault and retry: at most two faults, and no completion exactly when a marked page is written with the pool used up |
| `Fdt.Open` | lib/fdt.c:59-88 | an opened blob has its blocks inside its bytes |
| `Fdt.NodeName` | lib/fdt.c:115-128 | the NUL-terminated name scan, in bounds |
| `Fdt.SkipNode` | lib/fdt.c:138-178 | the token loop, as the scan function |
| `Fdt.FirstChild` | lib/fdt.c:216-256 | the loop, as the scan function |
| `Fdt.NextSibling` | lib/fdt.c:258-294 | the loop, as the scan function, with the parent check |
| `Fdt.ParentOffset` | lib/fdt.c:296-351 | the loop with its fixed-depth stack, as the scan function over all open ancestors |
| `FdtTree.SkipsNode` | lib/fdt.c:138-178 | on every well-formed node the skip lands exactly past the matching END_NODE, at any depth |
| `FdtTree.FirstChildIsFirst` | lib/fdt.c:216-256 | the first child of the tree, or none |
| `FdtTree.NodeExtent` | lib/fdt.c:138-178 | a node's descendants lie strictly inside its extent |
| `FdtTree.ScanNode` | lib/fdt.c:296-351 | the parent scan over a whole subtree gives the tree's own answer or comes out at its end unchanged |
| `FdtTree.ParentIsParent` | lib/fdt.c:296-351 | the parent of a path's last node is the node before it, within the levels the scan remembers |
| `FdtTree.NextSiblingIsNext` | lib/fdt.c:258-294 | the siblings are enumerated in order, on the levels whose parent can be named |
| `FdtProps.StrEq` | lib/fdt.c:353-396 | equal exactly when the NUL-terminated string is the name |
| `FdtProps.GetProp` | lib/fdt.c:353-396 | the property loop, as the scan function |
| `FdtProps.GetPropIsFirst` | lib/fdt.c:353-396 | finds the node's own first property of that name, never a child's |
| `FdtProps.FirstPropFits` | lib/fdt.c:353-396 | a found property lies inside the blob |
| `FdtProps.MatchIsListed` | lib/fdt.c:460-475 | the list walk matches exactly when some terminated entry equals the string |
| `FdtProps.CompatibleMatch` | lib/fdt.c:460-475 | true if and only if the list contains the string |
| `FdtSearch.PreIncreases` | lib/fdt.c:477-532 | preorder is increasing offset order |
| `FdtSearch.PreIsAll` | lib/fdt.c:477-532 | preorder lists every node |
| `FdtSearch.SearchIsLeast` | lib/fdt.c:477-532 | the result is the smallest offset after the previous one whose compatible list contains the string, or none if there is none |
| `FdtSearch.OneTurn` | lib/fdt.c:493-531 | the loop body with its stack array, on any tree, is one turn of the walk |
| `FdtSearch.TurnAnswers` | lib/fdt.c:493-531 | a turn returns the answer or leaves it to strictly fewer remaining nodes |
| `FdtSearch.NextNodeByCompatible` | lib/fdt.c:477-532 | wherever the search returns it terminates with the least match |
| `FdtSearch.ShallowEscapes` | lib/fdt.c:477-532 | a tree within the depth bound never traps the search |
| `FdtSearch.TrapIsForever` | lib/fdt.c:502-514 | inside a trap no number of turns returns |
| `FdtSearch.SearchReturnsIff` | lib/fdt.c:477-532 | the search returns if and only if no over-deep unwanted node with children comes before the first wanted node |
| `FdtWitness.SearchTrapped` | lib/fdt.c:502-514 | the bytes of a blob with a chain of seventeen nodes, on which no search ever returns |
| `FdtReg.ParentBelow` | lib/fdt.c:296-351 | a parent's offset is below its child's, on any bytes, so every climb ends |
| `FdtReg.OwnCellsOf` | lib/fdt.c:540-551 | a node's own cell count, if declared |
| `FdtReg.ParentCellsOf` | lib/fdt.c:553-590 | the climb, as its function |
| `FdtReg.ParentCellsIsTree` | lib/fdt.c:553-590 | each count comes from the nearest enclosing node declaring it, independently, two by default |
| `FdtReg.TryWindows` | lib/fdt.c:660-703 | the window loop, with the empty property as identity and C's 32-bit sizes |
| `FdtReg.MapIsFirstWindow` | lib/fdt.c:686-703 | with windows that do not wrap, an address passes exactly when some window contains it and keeps its distance from the first one's base |
| `FdtReg.ClimbRanges` | lib/fdt.c:647-708 | the bus loop, as the composition function |
| `FdtReg.ClimbIsThroughPath` | lib/fdt.c:647-708 | the climb is the composition of the buses up the tree |
| `FdtReg.RegToCpuAddr` | lib/fdt.c:619-712 | the whole translation, as its function |
| `FdtReg.RegIsThroughPath` | lib/fdt.c:619-712 | the reg entry sized by the enclosing counts, carried through every bus up to the root; no entry, no result |
| `FdtTranslate.BusIffWindows` | lib/fdt.c:660-703 | a bus with one- or two-cell counts and windows that do not wrap stops an address exactly when it has windows and none contains it, and otherwise shifts it by the first containing window |
| `FdtTranslate.PathCarriesIff` | lib/fdt.c:647-708 | an address comes out of the climb as another if and only if the first containing windows carry it there, in exact arithmetic |
| `FdtTranslate.PathStuckIff` | lib/fdt.c:647-708 | the climb fails if and only if some bus on the way has windows none of which contains the address that arrives there |
| `FdtTranslate.RegTranslates` | lib/fdt.c:619-712 | the whole translation: no result exactly when there is no such entry or the address gets stuck; otherwise the entry's size at the address the windows carry it to |
| `FdtTranslate.AcceptedReadsInsideIff` | lib/fdt.c:626-641 | for all counts, every byte read for an accepted entry lies in the property if and only if the index is not 2^32 - 1 and the reads fit the entry or what follows it |
| `FdtTranslate.WrappedCountReadsOutside` | lib/fdt.c:626-641 | 2^30 + 1 address cells make an accepted entry of four bytes of which eight are read |
| `FdtTranslate.OwnRangesHarmlessIff` | lib/fdt.c:653-664 | the result equals the translation through the enclosing buses alone if and only if there is no entry, no own window, a stop both ways, or the address and its image in the own window end up in the same place |
| `FdtTranslate.OwnRangesUnderRootIff` | lib/fdt.c:653-664 | for a child of the root: if and only if there is no entry, no own window, or the first containing own window maps the address to itself |
| `FdtWitness.OwnRangesSpoilReg` | lib/fdt.c:653-664 | the bytes of a blob in which a device's own ranges make its register untranslatable |
| `CapnpFlat.BuildFlat` | coreinit/capnp_build.h:18-49 | writes exactly the flat message, or nothing when the buffer is too small |
| `CapnpFlat.FlatRoundTrip` | coreinit/capnp_build.h:18-79 | reading a built message gives its words |
| `CapnpFlat.ReadIsFlat` | coreinit/capnp_build.h:66-79 | whatever the reader accepts is byte for byte what the builder writes for those words |
| `NetworkRpc.ParseOfHeader` | coreinit/network_rpc.c:22-50 | a written envelope parses to itself, whatever follows it |
| `NetworkRpc.ParseIsHeader` | coreinit/network_rpc.c:44-50 | only headers the writer writes parse |
| `NetworkRpc.AdmitRequest` | coreinit/network_rpc.c:127-152 | the destination admits a request exactly when the reply buffer has room for the capacity asked for |
| `NetworkRpc.AcceptAnswer` | coreinit/network_rpc.c:110-125 | a caller accepts a reply exactly when id and node pair are its own, it fits and reports success, and then gets the answered bytes |
| `NetworkRpc.AdmitIff` | coreinit/network_rpc.c:127-152 | the server admits exactly the well-formed requests to its node with payload and capacity in bounds, byte for byte |
| `NetworkRpc.AcceptIff` | coreinit/network_rpc.c:110-125 | the caller accepts exactly successful responses with its id and node pair that fit, for the bytes behind the header |
| `NetworkRpc.RemoteIsLocal` | coreinit/network_rpc.c:85-169 | a call through serve on the destination equals a direct invoke: same success, same bytes, for every payload and capacity up to 4096 |
| `NetworkRpc.AcceptedMatches` | coreinit/network_rpc.c:52-83 | the carrier's matching test never rejects a reply the caller would accept |
| `NetworkRpc.EtherCarriesIff` | coreinit/network_ether.c:32-130 | over Ethernet a call equals a direct invoke if and only if that fails anyway or message, capacity and result fit a frame |
| `NetworkRpc.EtherLosesLongMessage` | coreinit/network_ether.c:32-130 | a message of 1955 bytes that a direct invoke answers gets no result over Ethernet |
| `NetworkSession.FramingRoundTrip` | coreinit/network_ether.c:32-55 | a framed payload is polled back with its sender |
| `NetworkSession.CopyBytes` | coreinit/network_rpc.c:4-9 | copies the bytes and nothing else |
| `NetworkSession.ServeInto` | coreinit/network_rpc.c:127-169 | the reply assembled in the caller's buffer is the served packet; no reply exactly when there is none |
| `NetworkSession.PollOnce` | coreinit/network_ether.c:43-55 | a hit is a frame of ours from the peer that matches the request, left in the buffer |
| `NetworkSession.AwaitReply` | coreinit/network_ether.c:98-116 | the polling loop settles on the first hit, or on none if there is none |
| `NetworkSession.Session.constructor` | coreinit/network_rpc.c:11-20 | ids start at 1 |
| `NetworkSession.Session.BuildRequest` | coreinit/network_rpc.c:96-104 | the request packet, built in place |
| `NetworkSession.Session.Invoke` | coreinit/network_rpc.c:85-125 | each admissible call spends one id, sends exactly its request and returns what the first matching reply yields |
| `NetworkRuns.AdmittedIsRequest` | coreinit/network_rpc.c:127-152 | on a network that forges nothing, only callers' requests are executed |
| `NetworkRuns.TakenCorrelates` | coreinit/network_rpc.c:110-125 | a reply a call takes answers a call with the same node pair and id |
| `NetworkRuns.StepKeepsInv` | coreinit/network_rpc.c:85-169 | sending, executing, receiving and giving up keep every packet traceable to a call or an execution |
| `NetworkRuns.RunKeepsInv` | coreinit/network_rpc.c:85-169 | over every run with one session per pair and at most 2^64 calls each |
| `NetworkRuns.SuccessIsOwnResult` | coreinit/network_rpc.c:61-125 | every successful call returns the result of an execution of its own request, made at its destination after the call: never a stale reply |
| `NetworkRuns.SharedPairConfuses` | coreinit/network_rpc.c:61-125 | with two sessions on a pair there is a run in which a call returns another call's result |
| `NetworkRuns.FaithfulIffOnePerPair` | coreinit/network_rpc.c:61-125 | callers get their own results in every run if and only if no two sessions share a node pair |
| `NetworkLink.InvokeIsSend` | coreinit/network_rpc.c:85-108 | an invoke sends the packet of the session's next call in the run, and its counter moves to the one after |
| `NetworkLink.InvokeTakes` | coreinit/network_rpc.c:106-125 | bytes an invoke returns are what that call takes from a packet on the network |
| `NetworkLink.InvokeReturnsOwnResult` | coreinit/network_rpc.c:85-125 | in every run with one session per pair, the bytes a session's invoke returns were answered by the remote node to this very request, after it was sent |
| `CapnpList.RootReads` | include/capnp_list.h:66-72 | the root word written is the one the reader checks for |
| `CapnpList.ListReads` | include/capnp_list.h:73-75 | the list pointer keeps the low 29 bits of the body length |
| `CapnpList.TagReads` | include/capnp_list.h:76-78 | the tag keeps the low 30 bits of the count; the bits above run into the element width |
| `CapnpList.BuildListRoot` | include/capnp_list.h:43-83 | writes exactly the list message, or nothing when the buffer is too small |
| `CapnpList.CountOkIff` | include/capnp_list.h:161-170 | the two length checks amount to the body holding tag and elements, also for an empty body |
| `CapnpList.ListRoundTripIff` | include/capnp_list.h:43-175 | reading back gives data, elements and count if and only if the count is below 2^30 and the body below 2^29 words |
| `CapnpList.LongListMisread` | include/capnp_list.h:43-175 | some longer lists are accepted with a smaller count |
| `CapnpList.ReadStaysInside` | include/capnp_list.h:102-175 | on arbitrary bytes everything returned, to the last element, lies inside the message |
| `CapnpList.RebuildReads` | include/capnp_list.h:102-175 | rebuilding what any message was read as reads the same |
| `JobExec.PickIsBest` | coreinit/job_exec.c:59-70 | the selection loop takes the first of the highest-priority fitting slots, none exactly if none fits |
| `JobExec.FreeIsFirst` | coreinit/job_exec.c:72-88 | the first unused slot |
| `JobExec.Executor.constructor` | coreinit/job_exec.h:70-90 | an empty table with nothing running |
| `JobExec.Executor.PickBest` | coreinit/job_exec.c:131-142 | the loop over ready slots and the loop over a queue's waiters compute that choice |
| `JobExec.Executor.SpawnJob` | coreinit/job_exec.c:72-88 | the new table and slot number, or -1 and no change when full |
| `JobExec.Executor.Run` | coreinit/job_exec.c:174-180 | the kickoff, and the stack it loads |
| `JobExec.Executor.WaitOn` | coreinit/job_exec.c:107-129 | block, choose, switch, or halt when nothing is ready; the stack loaded is the chosen slot's saved one |
| `JobExec.Executor.WakeOne` | coreinit/job_exec.c:131-166 | wake the best waiter and preempt exactly when it outranks the caller; the stack loaded is its saved one |
| `JobRuns.KickoffRunsIff` | coreinit/job_exec.c:174-180 | the kickoff of a ready slot establishes the running invariant if and only if no ready slot outranks it |
| `JobRuns.StepKeepsInv` | coreinit/job_exec.c:72-180 | every step keeps: exactly the current slot runs, nothing ready outranks it, blocked slots are the ones with a queue, a halted core has nothing ready |
| `JobRuns.RunKeepsInv` | coreinit/job_exec.c:72-180 | in every state of every run |
| `JobRuns.LateSpawnKeepsIff` | coreinit/job_exec.c:72-88 | a spawn while a job runs keeps it if and only if the new job does not outrank the running one |
| `JobRuns.LateSpawnWaits` | coreinit/job_exec.c:72-88 | a run in which a job of priority 5 is spawned and the job of priority 1 goes on running |
| `JobRuns.WaitHaltsIff` | coreinit/job_exec.c:107-122 | a wait halts exactly when no slot is ready |
| `JobRuns.WaitRunsBest` | coreinit/job_exec.c:107-129 | after a wait that does not halt, the first of the highest-priority ready slots runs |
| `JobRuns.WakePreemptsIff` | coreinit/job_exec.c:131-166 | a wake preempts exactly when a waiter strictly outranks the caller; then the best waiter runs and the caller is ready |
| `JobRuns.StepSlot` | coreinit/job_exec.c:72-180 | slot by slot: spawned slots stay with their priority, a blocked slot changes exactly when a wake of its queue selects it, the stack pointer is saved exactly on leaving |
| `JobRuns.NeverLost` | coreinit/job_exec.c:72-180 | no spawned slot is ever lost and its priority never changes |
| `JobRuns.OnlyOwnWake` | coreinit/job_exec.c:107-166 | a blocked slot leaves that state only at a wake of its own queue that selected it as the first highest-priority waiter |
| `JobRuns.SavedUntilResumed` | coreinit/job_exec.c:107-166 | off the processor a job keeps its saved stack pointer |
| `JobRuns.ResumesWhereLeft` | coreinit/job_exec.c:107-166 | until a job runs again its table entry holds where its last switch left its frame |
| `ContextSwitch.FrameRoundTrip` | coreinit/job_exec_x86_64.h:22-37 | the frame layout loses nothing |
| `ContextSwitch.Machine.Save` | coreinit/job_exec_switch_x86_64.S:58-112 | memory after the save: the full frame with the flags of before cli, and its address where rdi points; interrupts are off |
| `ContextSwitch.Machine.Restore` | coreinit/job_exec_switch_x86_64.S:118-138 | the pops and iretq load exactly the frame |
| `ContextSwitch.Machine.Switch` | coreinit/job_exec_switch_x86_64.S:58-138 | both halves: new memory and new context |
| `ContextSwitch.Machine.Init` | coreinit/job_exec_x86_64.c:4-42 | the hand-built frame is that of a job about to start at its entry with its argument, on the aligned top |
| `SwitchRuns.SwitchResumes` | coreinit/job_exec_switch_x86_64.S:114-138 | with disjoint stacks the save leaves the other job's frame alone, so exactly its parked context comes back |
| `SwitchRuns.SwitchParks` | coreinit/job_exec_switch_x86_64.S:58-112 | the caller ends up parked: its frame in its stack, its cell pointing at it |
| `SwitchRuns.StepKeepsInv` | coreinit/job_exec_switch_x86_64.S:58-138 | work that writes anything but other jobs' stacks and saved pointers, creations and switches keep every other job parked |
| `SwitchRuns.RunKeepsInv` | coreinit/job_exec_switch_x86_64.S:58-138 | in every state of every run |
| `SwitchRuns.CreateParks` | coreinit/job_exec_x86_64.c:4-42 | a hand-built frame with its address saved parks the new job at its entry |
| `SwitchRuns.BeginsAtEntry` | coreinit/job_exec_switch_x86_64.S:114-138 | over any run, the first switch to a created job starts it at its entry with its argument, on its aligned stack |
| `SwitchRuns.ResumesExactly` | coreinit/job_exec_switch_x86_64.S:58-138 | over any run, the switch back to a job loads where its frame was left, and the job has all 15 registers, its flags of before the call, its return address, its stack pointer of after the return and the contents of its stack from there up |
| `ExecutorRuns.Reaches` | coreinit/job_exec.c:107-180 | whenever the table names another slot, the machine at the compiled call can make that switch |
| `ExecutorRuns.StepKeepsTied` | coreinit/job_exec.c:72-180 | every step keeps table and machine in agreement: the current slot is the job on the processor, spawned slots are its jobs, and table entries hold the saved pointers in memory |
| `ExecutorRuns.RunKeepsTied` | coreinit/job_exec.c:72-180 | in every state of every run |
| `ExecutorRuns.WorldRun` | coreinit/job_exec.c:72-180 | a run of the executor is a run of the machine |
| `ExecutorRuns.SpawnedBegins` | coreinit/job_exec.c:72-88 | a spawned job begins, when the table first puts it on the processor, at its entry with its argument |
| `ExecutorRuns.TableResumes` | coreinit/job_exec.c:107-166 | when the table puts a job back on the processor, the switch loads its table entry, which is where it left its frame, and the job goes on with its registers, flags, return address and stack contents |

## Left out

- fdt_path_offset (lib/fdt.c:398-456): a component-wise descent over the sibling walk already modelled.
- Malformed device trees: the tree theorems are for well-formed blobs below 2 GiB; the scans themselves are modelled on any bytes.
- FdtTranslate.RegTranslates: stated for one- or two-cell counts, windows inside the address spaces and an index below 2^32 - 1; outside them the code's wrap-around is in the modelled function and in FdtTranslate.AcceptedReadsInsideIff.
- ClusterScheduler.Scheduler.HandleRequestAllocation: the table of allocation records the handler also fills is not modelled; apart from the search for a free record nothing in the code reads it.
- Interleavings inside a handler: the scheduler's methods are atomic steps, so races between its scans and its compare-and-swaps are not modelled.
- Node and resource pools: the bump allocators are modelled with their lifetime limits; nothing is proved about reuse because the code has none.
- NetworkRuns.SuccessIsOwnResult: the sender's MAC check is not used, so it holds for any network in which packets may reach any node.
- Duplicate executions: a duplicated request is executed again, as the code does; at-most-once execution is left to the transport by coreinit/network_rpc.h:6-15.
- network_ether_announce and network_ether_wait_announcement: discovery would only add another instance of the framing and flat-codec lemmas.
- ContextSwitch.Machine.Save: pushfq is taken to store the flags register as it is; the two flags the processor clears in the stored copy are not distinguished.
- Interrupts between instructions: the switch runs with interrupts off, so its steps are not interleaved with handlers.
- job_exec_alloc_stack and job_exec_free_stack: first-fit over sixteen flags; stacks enter the runs as disjoint ranges, one per slot.
- The aarch64 context switch and the x86_64 page-fault handler.
- Caches, barriers and the TLB: a table store is seen by the next translation at once.
- The EL0 hook of the ARM fault handler, and the fault and copy counters.
- Device and board code, boot sequencing, the kernel's capability store and schema validation, the client wrappers, the boot bump allocator and the build tools.
