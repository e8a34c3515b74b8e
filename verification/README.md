# Verified core of a 32-bit SMP kernel

A Dafny model of the parts of the kernel whose correctness spans many functions,
cpus or representations: inter-processor messages and TLB shootdowns, the kernel
heap, two-level page tables, the scheduler with its context switch, the
reader/writer lock, the bitmap and the frame allocator, and the USTAR filesystem
over byte-granular disk accesses. `dafny verify dfyconfig.toml` verifies
everything.

Three cores are protocols between cpus and are modelled as state machines over
their atomic steps. A theorem about them speaks of every state of every run.

- The `Ipm` modules: `src/ipm.c`, with `paging_unmap_in` and the TLBs of all cpus
  around it. Every activation of the code (a handler, a shootdown, a remote call)
  is an activity; its steps interleave with those of all others, on the same cpu
  and elsewhere, which covers nested handlers. An activity may be moved to another
  cpu between any two of its steps, a handler until it has disabled preemption; the
  switch reloads cr3. What the C code would corrupt (a use after free, a double
  free, a queued message re-initialised) and every PANIC and ASSERT is a fault of
  the machine. `IpmBase` has what every event keeps of messages and TLBs,
  `IpmSafety` what it keeps of the calls whose sender was not moved in the middle of
  its broadcast, `IpmAttention` who attends a queue; `IpmTheorems`, `IpmUnmap`,
  `IpmSends`, `IpmStranded` and `IpmBroadcast` have what follows for runs, and
  `IpmRuns` runs in which all goes well.
- `Sched`, `SchedSafety`, `SchedOrder`: `schedule`, `switch_to_proc`, `do_context_switch` and
  the run queue, with preemption by interrupts wherever the code allows it.
- `RwLock`, `RwLockSafety`, `RwLockIrqs`: `rwlock_*` over spinlocks, down to the owner field and
  the interrupt flag.

The others work in place and are classes or methods over mutable state.

- `Memory`, `Ring`, `HeapLayout`, `HeapMemory`, `HeapSteps`, `HeapWrites`,
  `HeapGroups`, `Heap`: `src/kmalloc.c` and `src/list.c` on byte memory. Headers,
  list nodes and the counter are words in memory; `Rep` says that they describe a
  sequence of blocks. `do_kmalloc` drops its lock to create a group, so its
  sections are methods of their own (`TryAllocation`, `CreateSpare`,
  `FinishKmalloc`, `FreeSpare`, `DoKfree`). Each of them is a `Section`: it keeps
  the heap sound, leaves the groups that other cpus are setting up or tearing down to
  them, adds or drops at most one allocation and keeps the contents of the others.
  `DoKmallocShared` and `FreeShared` are the whole function with any number of such
  sections of other cpus wherever it has dropped the lock.
- `PageTables`, `PageRanges`, `PageSearch`, `PageFree`, `Paging`, `PageExamples`: `src/paging.c`.
  `Mmu` reads and writes page tables only through virtual pages that the walk of
  section 4.3 of the Intel SDM, Volume 3A, resolves: the recursive entry or the
  temporary window of the cpu. The lemmas are about what that does to the frames.
- `Bitmap`, `FrameAlloc`: `src/bitmap_asm.S`, `src/bitmap.c`, `src/frame_alloc.c`.
- `Disk`, `Archive`, `Ustar`: `src/disk.c`, `src/memdisk.c`, `src/ustar.c`.

## Where the code does less than its comments say

Each of these has the exact condition as a lemma or in a contract, and a failing
case at a valid state.

- `do_send_ipm` asks for its cpu in every iteration of a broadcast, and the IPI
  leaves out the cpu it is sent from. A sender that is moved in between can send
  more messages than the reference count has parties: a message is stranded, and
  later a freed call is used (`IpmBroadcast.MessagesMatchIff`,
  `IpmStranded.MovedSenderStrands`, `IpmBroadcast.UseAfterFreeRun`). What is proved
  of a call therefore supposes that its own sender is not moved there.
- A handler runs with preemption on until `src/ipm.c:175`. If it is moved before, it
  empties the queue of its new cpu, and the messages of the old one stay without an
  IPI (`IpmStranded.StrandedIff`, `IpmStranded.NothingStranded`,
  `IpmStranded.MovedHandlerStrands`).
- What is left of a file is cut to 32 bits before it is compared with the length of
  an access: a file of 4 GiB seems empty (`Ustar.FileReachIff`, `Ustar.FourGigabytes`).
- A group made for a request may be too small for it, because `src/kmalloc.c:508`
  adds the size of a pointer where it means the size of the struct
  (`HeapGroups.NewGroupFits`, `HeapGroups.NewGroupTooSmall`).
- `bitmap_set_next_bit` runs past its array when unset bits exist only below the
  start index (`Bitmap.PromiseIff`, `Bitmap.OverrunExample`), and with it
  `alloc_frame` when only low frames are left (`FrameAlloc.FrameAllocator.DoAllocation`,
  `FrameAlloc.LowFrameOnly`).
- The first reader of a rwlock waits for `writer_lock` with interrupts on, and the
  last one has them on again once it gave `writer_lock` back. Whichever is moved to
  another cpu there panics in `spinlock_unlock` of `readers_lock`
  (`RwLockSafety.PanicIff`, `RwLockSafety.StrayRun`, `RwLockSafety.LastStrayRun`).
- An asynchronous broadcast call on a single cpu is never freed
  (`IpmTheorems.AsyncBroadcastFreed`).
- The rollback of `do_paging_map_in` unmaps pages of the range that were mapped
  before (`Paging.Mmu.MapRange`, `PageExamples.FailureUnmaps`).
- Unmapping the last page of a kernel table frees a table that other address
  spaces still point at (`PageTables.UnmapValidIff`, `PageExamples.UnmapBreaks`).
- `compute_hole_size` in an address space that is not the current one keeps a
  pointer into the temporary window while it turns the window to a table
  (`PageSearch.ForeignScanIff`, `PageSearch.ForeignRunsOn`, `PageExamples.CountsTooMuch`).
- A write through a USTAR entry that is not a file but has a size hits the next
  header (`Archive.HarmlessIff`, `Ustar.OverwritesHeader`).
- The ASSERT of `octal_string_to_u64` accepts the digit 8 (`Ustar.OctalToU64`).

## Model

| member | source | states |
|---|---|---|
| `IpmBase.BaseEvent` | src/ipm.c:110-422 | every atomic step of every activity, wherever activities are moved, and every load, eviction and mapping keeps the places of messages, the logs and the TLBs in order |
| `IpmTheorems.SafeEvent` | src/ipm.c:48-422 | it also keeps the counts of every call exact whose sender was not moved in the middle of its broadcast, and does not fault while there is no other call |
| `IpmTheorems.RunsAreSafe` | src/ipm.c:48-422 | the invariant holds in every state of every run from boot |
| `IpmTheorems.StrayedIff` | src/ipm.c:253-278 | a call counts as strayed exactly when some event moved its sender to another cpu before the IPI of its broadcast was out |
| `IpmTheorems.NoRunFaults` | src/ipm.c:48-157 | until a call strays a run touches no freed memory, frees nothing twice, links no message that is in a queue, and reaches neither the PANIC nor the ASSERTs on ref_count |
| `IpmTheorems.OnePlace` | src/ipm.c:227-244 | a message is in at most one queue, there once, and never both queued and in the hands of a handler |
| `IpmTheorems.ShootdownReceiver` | src/ipm.c:115-157 | whoever may still touch the stack message of a shootdown or its counter runs on the cpu the sender waits for, and the counter is still 1 |
| `IpmTheorems.ShootdownReuse` | src/ipm.c:391-421 | the sender re-initialises the message, or leaves its stack frame, only when the message is in no queue and in nobody's hands |
| `IpmTheorems.ShootdownFlushes` | src/ipm.c:363-422 | exec_tlb_shootdown has returned only if every cpu but the one it was entered on executed a flush for it since, or received it in a move, however often it was moved |
| `IpmUnmap.GoneStays` | src/paging.c:832-841 | what an activity removed from the page table stays recorded as removed until it is mapped again |
| `IpmUnmap.EveryPageRemoved` | src/paging.c:815-841 | paging_unmap_in has returned only if, since the call, a step of it removed every page it was asked for from the page table |
| `IpmUnmap.RemovedEverywhere` | src/paging.c:832-841 | for each of them: no TLB holds a translation of the page that was not mapped after its removal |
| `IpmUnmap.UnmapReachesEveryTlb` | src/paging.c:832-841 | then, if no page of the call was mapped again since, it is not in the page table and no TLB of any cpu holds any translation of it, wherever the call was moved meanwhile |
| `IpmAttention.AttentionStep` | src/ipm.c:110-278 | exactly which events change whether a non-empty queue is attended by an IPI, a sender or a handler: a posted message and a move onto the cpu bring an attendant, and only a move takes the last one away |
| `IpmStranded.StrandedIff` | src/ipm.c:110-278 | in every run a queue holds a message that nobody attends if and only if an event moved its last attendant away and no event since brought one |
| `IpmStranded.NothingStranded` | src/ipm.c:253-278 | a non-empty queue has a pending IPI, a sender that will raise one, or a handler that has yet to see it empty, if after every move that took a handler off that cpu before its preempt_disable, or a broadcasting sender onto it, an IPI for it was raised |
| `IpmStranded.MovedHandlerStrands` | src/ipm.c:171-178 | a run from boot on two cpus in which a handler is moved before its preempt_disable and leaves a message behind; no call strays |
| `IpmStranded.MovedSenderStrands` | src/ipm.c:262-277 | a run in which a moved sender leaves a message with no IPI, no sender and no handler to attend it |
| `IpmTheorems.FifoOnce` | src/ipm.c:110-165 | received plus queued is what was sent, in order, for all messages but shootdowns; none is sent or received twice, on any cpu |
| `IpmTheorems.ShootdownsFirst` | src/ipm.c:227-244 | in every queue shootdowns come before all other messages |
| `IpmTheorems.CallLifetime` | src/ipm.c:48-107 | for every call that has not strayed, whatever became of others: ref_count is exactly the parties that have not released it; the struct is freed at most once, and exactly when the last of them has |
| `IpmTheorems.WaitingSenderReturns` | src/ipm.c:296-330 | a sender that stopped waiting for a call that has not strayed has every target past the function, which ran once on each of them and nowhere else, wherever the sender was moved while it waited; no handler will access the call again |
| `IpmTheorems.WaitEndsIff` | src/ipm.c:322-330 | it stops waiting exactly when every target is done |
| `IpmTheorems.RunsOnce` | src/ipm.c:48-107 | on a target that is done the function of a call, synchronous or not, has run once, before that at most once, and on no other cpu ever |
| `IpmTheorems.TargetsFixed` | src/ipm.c:332-361 | a call that has not strayed keeps its targets and its kind |
| `IpmTheorems.AsyncBroadcastFreed` | src/ipm.c:332-361 | an asynchronous broadcast that has not strayed and whose targets are all done has been freed if and only if there are at least two cpus |
| `IpmSends.MessagesGoTo` | src/ipm.c:253-278 | a message that send_ipm, exec_remote_call or broadcast_remote_call allocates goes to one cpu it was called for, carries its payload, and in a broadcast never goes to the cpu the sender is on |
| `IpmSends.EachCpuServed` | src/ipm.c:253-278 | every cpu the loop has passed got the message, or was the one the sender was on |
| `IpmSends.RaisedIpis` | src/ipm.c:253-278 | the IPI goes to the destination, in a broadcast to all cpus but the one it comes from |
| `IpmSends.StaysOnCpu` | src/ipm.c:253-278 | a send or an unmapping is on the cpu it was called on until the scheduler moves it |
| `IpmSends.OneNeverStrays` | src/ipm.c:296-330 | a call to one cpu never strays, wherever its sender is moved |
| `IpmSends.CallTargets` | src/ipm.c:296-361 | the targets of a call are the cpu it was made for, or all but the caller's |
| `IpmSends.CallRan` | src/ipm.c:296-361 | once a call that was waited for has returned, or all targets are done, the function has run on exactly those cpus, once on each |
| `IpmRuns.SyncCallRun` | src/ipm.c:296-330 | a run from boot in which a synchronous call to another cpu returns, has run there and is freed |
| `IpmRuns.AsyncCallRun` | src/ipm.c:48-107 | a run in which an asynchronous call runs after its struct was freed |
| `IpmRuns.UnmapRun` | src/paging.c:832-841 | a run from boot in which another cpu caches the page when it is removed, and has forgotten it when paging_unmap_in returns |
| `IpmBroadcast.LoopCounts` | src/ipm.c:262-270 | in every run, each iteration of a broadcast either sends one message or skips, and no message of the call comes from anywhere else |
| `IpmBroadcast.MessagesMatchIff` | src/ipm.c:262-270 | in every run, a broadcast sends exactly the messages its reference count counts if and only if exactly one iteration found the sender on its own cpu |
| `IpmBroadcast.UnmovedSkipsOnce` | src/ipm.c:262-270 | a sender that is not moved skips exactly once |
| `IpmBroadcast.UseAfterFreeRun` | src/ipm.c:262-277 | that run goes on to use a freed call |
| `IpmBroadcast.PanicRun` | src/ipm.c:48-70 | one in which the handler comes before the free panics on the reference count |
| `Ring.AddBetweenRing` | src/list.c:9-16 | linking a node between two neighbours in memory gives the ring with the node at that position |
| `Ring.DelRing` | src/list.c:26-30 | unlinking a node gives the ring without it, and its neighbours were the ones its pointers name |
| `HeapLayout.LinksSorted` | src/kmalloc.c:413-437 | the list nodes of the FREE blocks are in strictly increasing address order and do not overlap |
| `HeapLayout.LiveDisjoint` | src/kmalloc.c:243-309 | the live allocations of a group are disjoint, with room for a header between them |
| `HeapLayout.LinkNotLive` | src/kmalloc.c:413-437 | no list node of the free list overlaps a live allocation |
| `HeapLayout.Conservation` | src/kmalloc.c:280-304 | the bytes of a group are its headers, its free bytes and its live bytes |
| `HeapLayout.CutKeeps` | src/kmalloc.c:265-306 | an allocation adds exactly its extent to the live ones of the group and moves none |
| `HeapLayout.JoinKeeps` | src/kmalloc.c:377-406 | a merge keeps the tiling and the live allocations, and gives one header back to the counter |
| `HeapLayout.ReleaseKeeps` | src/kmalloc.c:444-454 | a free drops exactly the extent of the block |
| `HeapLayout.EmptyIff` | src/kmalloc.c:183-186 | the free bytes reach the size of the group exactly when one FREE block is left, hence when nothing is live |
| `HeapGroups.GroupEmptyIff` | src/kmalloc.c:183-186 | in memory, group->free equals group->size exactly when the group has no live allocation |
| `HeapGroups.AllocationsDisjoint` | src/kmalloc.c:243-309 | live allocations are pairwise disjoint across all groups |
| `HeapGroups.ExtentInside` | src/kmalloc.c:243-309 | a live allocation lies inside its group behind a header, and is at least MIN_SIZE |
| `HeapGroups.NewGroupFits` | src/kmalloc.c:507-550 | a request fits in the group created for it if and only if size + 8 and size + 32 round up to the same number of pages and do not wrap |
| `HeapGroups.NewGroupTooSmall` | src/kmalloc.c:507-550 | a request of 4066 bytes does not fit |
| `Heap.Kmalloc.constructor` | src/kmalloc.c:608-612 | an empty heap is valid |
| `Heap.Kmalloc.FindNode` | src/kmalloc.c:227-236 | the FREE node of lowest address that is big enough, or NULL exactly when none is |
| `Heap.Kmalloc.KmallocInGroup` | src/kmalloc.c:243-309 | first fit, cut when a node fits in the rest; the data is zeroed, headers, free list and counter again describe a tiling without adjacent FREE nodes, and no byte outside the group or of a live allocation changes |
| `Heap.Kmalloc.MergeFreeNode` | src/kmalloc.c:377-406 | ends, whatever the list; afterwards no two FREE nodes touch, and the live allocations and their bytes are the same |
| `Heap.Kmalloc.InsertInFreeList` | src/kmalloc.c:413-437 | the freed node goes to its place in address order and is merged; memory again describes a valid group |
| `Heap.Kmalloc.KfreeInGroup` | src/kmalloc.c:444-454 | fails exactly on a FREE block; otherwise the live allocations are the others, byte for byte |
| `Heap.Kmalloc.CreateGroup` | src/kmalloc.c:105-177 | the new group is valid and nothing outside its pages is written |
| `Heap.Kmalloc.TryAllocation` | src/kmalloc.c:463-479 | the first group of the list with a fit, NULL exactly when none has one; a new extent at least as large as asked and less than a node larger, zeroed, every live byte unchanged |
| `Heap.Kmalloc.FinishKmalloc` | src/kmalloc.c:511-553 | with the lock taken again: the new group is listed exactly when the others have no fit, and NULL comes out exactly when it is then too small |
| `Heap.Kmalloc.DoKmalloc` | src/kmalloc.c:492-553 | when no other cpu takes the lock meanwhile: NULL exactly without a fit and without pages; the ASSERT fails exactly when the new group is too small; otherwise one new zeroed extent and every live byte unchanged |
| `HeapGroups.InterferenceKeeps` | src/kmalloc.c:500-512 | any number of sections of other cpus leave the heap sound, the group a cpu is setting up to that cpu, and its allocations there with their contents |
| `Heap.Kmalloc.DoKmallocShared` | src/kmalloc.c:492-553 | with any such sections between its halves: the same, relative to the heap the others left; the ASSERT fails exactly when neither that heap nor the new group has room; allocations the others do not free keep their contents |
| `Heap.Kmalloc.FreeShared` | src/kmalloc.c:527-536 | with any such sections before it: the group that was not needed is gone, the heap is sound, and allocations the others do not free, the new one among them, keep their contents |
| `Heap.Kmalloc.Reclaim` | src/kmalloc.c:564-582 | a group leaves the list exactly when nothing in it is live |
| `Heap.Kmalloc.FreeSpare` | src/kmalloc.c:192-213 | the ASSERT of free_group holds for every group that left the list |
| `Heap.Kmalloc.DoKfree` | src/kmalloc.c:559-587 | fails exactly on an address in no group or a FREE block; otherwise exactly that extent is live no more, every other live byte is unchanged, and groups other cpus hold outside the list stay |
| `PageTables.MapRefines` | src/paging.c:433-524 | mapping is an update of one page of a partial map: that page maps as asked, all other pages of all address spaces are as they were, and the structures stay sound |
| `PageTables.UnmapRefines` | src/paging.c:678-731 | unmapping removes one page of the map and no other; a table goes exactly with its last page |
| `PageTables.UnmapUndoesMap` | src/paging.c:433-731 | mapping an unmapped user page and unmapping it restores every mapping and the set of free frames |
| `PageTables.UnmapValidIff` | src/paging.c:717-730 | the structures stay sound if and only if no other directory has the table or the table has another page |
| `PageExamples.UnmapBreaks` | src/paging.c:717-730 | two address spaces share a kernel table with one page; unmapping it in one of them breaks the other |
| `PageTables.TablesDistinct` | src/paging.c:433-524 | two entries of a directory never share a table, and a user table belongs to one address space |
| `PageTables.TempIrrelevant` | src/paging.c:280-308 | what the temporary windows show changes no mapping |
| `PageRanges.StageMap` | src/paging.c:763-795 | each page of a range mapping changes one page of the map |
| `PageRanges.StageUnmap` | src/paging.c:788-790 | each page of an unmapping changes one page of the map |
| `PageRanges.GrownBack` | src/paging.c:763-795 | a world that only gained user tables and has its old mappings back has its old tables and free frames back |
| `PageRanges.FirstFailure` | src/paging.c:763-795 | where mapping a range ends, from the state before: the first page for which the tables needed so far outnumber the free frames, or that is mapped otherwise |
| `PageRanges.NextFails` | src/paging.c:460-467 | whether the next page of a range fails can be told from the state before the range |
| `PageRanges.FirstStuck` | src/paging.c:819-830 | where unmapping a range ends, from the state before: the first page that is not mapped, or whose frame is free or behind an earlier page |
| `PageRanges.FreedStep` | src/paging.c:700-710 | unmapping with the frames frees exactly the frames behind the pages, and tables |
| `PageSearch.HoleMaximal` | src/paging.c:899-930 | a hole is maximal: its pages are unmapped, the next one is mapped or starts the temporary region |
| `PageSearch.ScanIsHole` | src/paging.c:899-930 | in the current address space the table-wise count is the length of the hole |
| `PageSearch.ForeignScanIff` | src/paging.c:899-930 | in another one it is so when no table is opened or the first one ends the hole or is the last, and otherwise if and only if the rest of the hole happens to be as long as that table reads as a directory |
| `PageSearch.ForeignRunsOn` | src/paging.c:899-930 | past a table that is empty from the next index on the count runs to the temporary region, so it is right if and only if nothing from there on is mapped |
| `PageExamples.ForeignScanWrong` | src/paging.c:899-930 | a valid state with a hole of 1023 pages that counts as the whole rest of the address space |
| `PageExamples.CountsTooMuch` | src/paging.c:899-930 | compute_hole_size returns that |
| `PageFree.AddDirValid` | src/paging.c:1009-1042 | a new address space maps no user page and the kernel pages of the current one; all others are as they were |
| `PageFree.TablesOwn` | src/paging.c:1044-1079 | of the frames in use, what an address space frees are its own user tables |
| `PageFree.FreedIff` | src/paging.c:1044-1079 | what tearing down frees is exactly the directory, its user tables, and the frames its user pages map to |
| `PageFree.DropDirValid` | src/paging.c:1044-1079 | tearing one down keeps the mappings of every other, and no kernel table is freed |
| `PageFree.DistinctCount` | src/paging.c:1044-1079 | freeing distinct frames adds as many to the free ones |
| `Paging.Mmu.CreateTempMapping` | src/paging.c:280-308 | the window of the cpu shows the frame, and only windows changed |
| `Paging.Mmu.GetPageDir` | src/paging.c:322-341 | the page resolves to the directory, through the recursive entry or the window |
| `Paging.Mmu.GetPageTable` | src/paging.c:357-377 | the page resolves to the table of the entry, through either |
| `Paging.Mmu.MapPageIn` | src/paging.c:433-524 | through either way in, the frames change as Map says; exactly when it fails, panics, and that it then changed nothing but windows |
| `Paging.Mmu.UnmapPageIn` | src/paging.c:678-731 | the same for Unmap, with the frame freed or not; afterwards everything is sound exactly when no other address space lost a table |
| `Paging.Mmu.MapRange` | src/paging.c:763-795 | succeeds, runs out of memory and panics exactly as the state before says; on success the range is mapped to consecutive frames and nothing else changes; out of memory, mappings, tables and free frames are the old ones if and only if no page before the failing one was mapped |
| `PageExamples.FailureUnmaps` | src/paging.c:788-790 | a call that fails for want of a table and unmaps a page that was mapped as asked before it |
| `Paging.Mmu.Rollback` | src/paging.c:784-791 | the pages of the range and no others are unmapped, and on an unmapped range the free frames are the old ones |
| `Paging.Mmu.UnmapRange` | src/paging.c:819-830 | with the frames or without, exactly the pages before the first stuck one go, with exactly their frames; it panics exactly when there is such a page |
| `Paging.Mmu.MapThenUnmap` | src/paging.c:763-830 | mapping a range and unmapping it succeeds when the mapping does, leaves the range unmapped, and restores the mappings if and only if none of the pages was mapped |
| `Paging.Mmu.PageIsMapped` | src/paging.c:859-872 | whether the page maps, in any address space |
| `Paging.Mmu.FindNextNonMapped` | src/paging.c:879-892 | in any address space the lowest unmapped page from the start up, NO_REGION exactly when there is none |
| `Paging.Mmu.ComputeHoleSize` | src/paging.c:899-930 | in the current address space the length of the hole; in any, what Scan counts, with the window turned away from the directory |
| `Paging.Mmu.FindContiguous` | src/paging.c:940-957 | in the current address space the lowest page from the start up that begins a hole of n pages below the temporary region, NO_REGION exactly when there is none; in any, the same for the count of compute_hole_size |
| `Paging.Mmu.SetupNewPageDir` | src/paging.c:1009-1042 | through the window, the frame becomes the directory of a new address space |
| `Paging.Mmu.FreeAddrSpace` | src/paging.c:1044-1079 | frees every mapped user frame, user table and the directory once, and panics exactly when two of these are the same or one is free already; the free frames grow by exactly their number |
| `SchedSafety.InvStep` | src/sched_core.c:173-222 | every step of every cpu keeps the invariant of queue, stacks and preemption counts |
| `SchedSafety.PutKeeps` | src/proc_asm.S:153-210 | queueing the outgoing process is safe because its stack has been left |
| `SchedSafety.NoAssertFires` | src/sched_core.c:182-222 | in no run does an ASSERT of schedule or switch_to_proc fail, or a stale stack pointer get loaded |
| `SchedSafety.OneCpuEach` | src/proc.c:323-353 | no process is current on two cpus, and no two cpus use one kernel stack |
| `SchedSafety.QueuedAtRest` | src/ts.c:39-98 | a queued process is runnable, resumable, and no cpu runs it or stands on its stack |
| `SchedSafety.ExactlyOnePlace` | src/sched_core.c:173-222 | an enqueued process is once in the queue or with exactly one cpu, never both |
| `SchedSafety.NotReentered` | src/sched_core.c:182-222 | schedule is not entered again on a cpu that is inside it |
| `SchedSafety.WithoutIs` | src/ts.c:62-69 | taking a process out of the queue leaves the others in order |
| `SchedOrder.FirstComeFirstServed` | src/ts.c:39-98 | in every run the processes taken, followed by those queued, are the ones that were enqueued or put back, in that order, less those dequeued |
| `SchedOrder.IdleIffEmpty` | src/sched_core.c:195-203 | a cpu decides for its idle process exactly when the queue is empty |
| `SchedOrder.StaysOnlyIf` | src/sched_core.c:154-164 | schedule decides exactly when there is no current process, or it is the idle one, is dead, or a reschedule was asked for |
| `SchedOrder.PickedRuns` | src/sched_core.c:182-222 | the process decided for is the one the cpu runs when schedule has returned |
| `SchedOrder.NoSwitchWhileDisabled` | src/sched_core.c:239-287 | between preempt_disable and the matching preempt_enable a cpu keeps its process and its stack |
| `SchedOrder.NoSwitchWithoutIrqs` | src/sched_core.c:182-190 | with interrupts off schedule does nothing |
| `SchedOrder.RunningRun` | src/sched_core.c:182-222 | a run in which an enqueued process gets to run |
| `SchedOrder.BackInQueueRun` | src/sched_core.c:173-180 | it goes on to be preempted and put back in the queue |
| `SchedOrder.DeadRun` | src/sched_core.c:173-180 | or to exit, and then it is not put back |
| `RwLockSafety.InvStep` | src/rw_lock.c:10-49 | every step keeps the invariant, but the one that gives readers_lock back on another cpu |
| `RwLockSafety.WriterAlone` | src/rw_lock.c:10-49 | a writer is never inside together with a reader or another writer |
| `RwLockSafety.ExclusionByCall` | src/rw_lock.c:10-49 | two threads are inside together only if both came in through rwlock_read_lock; whoever called rwlock_write_lock is inside alone |
| `RwLockSafety.WriterInsideRun` | src/rw_lock.c:43-45 | a run in which a caller of rwlock_write_lock gets inside |
| `RwLockSafety.WriterLeavesRun` | src/rw_lock.c:47-49 | it leaves the lock free |
| `RwLockSafety.TwoReadersRun` | src/rw_lock.c:10-26 | a run in which two readers are inside together |
| `RwLockIrqs.InterruptsRestored` | src/spinlock_def.c:25-53 | every function of the lock gives a thread back the interrupt flag it came with; a writer inside has interrupts off |
| `RwLockSafety.CountExact` | src/rw_lock.c:10-40 | num_readers is the number of readers that entered and did not leave |
| `RwLockSafety.OwnersRight` | src/spinlock_def.c:25-53 | if no thread moves while it has readers_lock, the owner ASSERTs hold, whichever cpus the first and the last reader are on |
| `RwLockSafety.PanicIff` | src/spinlock_def.c:43-53 | a step panics if and only if a thread gives readers_lock back on another cpu than it took it on |
| `RwLockSafety.FirstReaderMayStray` | src/rw_lock.c:10-26 | the first reader, waiting for writer_lock with interrupts on, can be moved, and then panics |
| `RwLockSafety.StrayRun` | src/rw_lock.c:10-26 | such a run from the unlocked lock exists |
| `RwLockSafety.LastReaderMayStray` | src/rw_lock.c:28-40 | the last reader, its interrupts on after it gave writer_lock back, can be moved, and then panics |
| `RwLockSafety.LastStrayRun` | src/rw_lock.c:28-40 | such a run exists too |
| `Bitmap.Bsf` | src/bitmap_asm.S:144-162 | the least set bit of a word |
| `Bitmap.CountWith` | src/bitmap_asm.S:20-87 | changing one bit changes the number of unset bits by what the counter changes |
| `Bitmap.PromiseIff` | src/bitmap.h:67-73 | bitmap_set_next_bit does what its header says if and only if the bitmap is full, the start is out of bounds, or an unset bit at or above the start exists |
| `Bitmap.OverrunExample` | src/bitmap_asm.S:174-179 | with bit 0 alone unset, a search from bit 1 leaves the array |
| `Bitmap.Bitmap.constructor` | src/bitmap.c:19-40 | all bits have the value asked for, and the counter agrees |
| `Bitmap.Bitmap.Set` | src/bitmap_asm.S:20-52 | that bit is set and no other changes; the counter stays the number of unset bits; out of bounds it traps |
| `Bitmap.Bitmap.Clear` | src/bitmap_asm.S:55-87 | the same for unsetting |
| `Bitmap.Bitmap.Get` | src/bitmap_asm.S:193-225 | the bit, or the trap exactly when it is out of bounds |
| `Bitmap.Bitmap.Search` | src/bitmap_asm.S:118-182 | the word-wise masked scan finds the least unset bit at or above the start, or there is none |
| `Bitmap.Bitmap.SetNext` | src/bitmap_asm.S:91-190 | sets the bit it finds and nothing else, and leaves the bitmap alone otherwise |
| `FrameAlloc.UsedCount` | src/frame_alloc.c:297-302 | the frames in use are as many as size minus the counter |
| `FrameAlloc.FrameAllocator.DoAllocation` | src/frame_alloc.c:225-264 | a frame that was not in use, lowest in its region, and the used set grows by it alone; a failed request changes nothing; exactly when it fails or crashes |
| `FrameAlloc.LowFrameOnly` | src/frame_alloc.c:225-264 | 256 frames of which frame 0 alone is free: the allocation runs past the bitmap |
| `FrameAlloc.FrameAllocator.Free` | src/frame_alloc.c:274-295 | the used set loses exactly that frame; it panics exactly on a frame not in use |
| `FrameAlloc.FrameAllocator.Allocated` | src/frame_alloc.c:297-302 | the number of frames in use |
| `FrameAlloc.Restored` | src/frame_alloc.c:225-295 | freeing what was allocated restores the bitmap |
| `Disk.MemDisk.ReadSector` | src/memdisk.c:43-82 | a sector of the array, or nothing past its end |
| `Disk.MemDisk.WriteSector` | src/memdisk.c:43-82 | replaces a sector, or nothing when read-only or past the end |
| `Disk.MemDisk.Read` | src/disk.c:23-83 | a slice of one flat byte array: min(len, size - offset) bytes, 0 past the end, the rest of the buffer untouched |
| `Disk.MemDisk.Write` | src/disk.c:85-159 | a slice update of the flat array through partial and whole sectors, with the same count, 0 when read-only |
| `Disk.MemDisk.WriteThenRead` | src/disk.c:23-159 | a read after a write returns the written bytes where both were, and elsewhere the old ones |
| `Archive.EntriesApart` | src/ustar.c:126-185 | an entry of the walk starts after the data of every earlier one |
| `Archive.FindFirst` | src/ustar.c:126-185 | the search finds the first entry with that name, and misses only if there is none |
| `Archive.WriteIsLocal` | src/ustar.c:208-239 | overwriting data of one file preserves every header, what every path finds, and every other file's contents |
| `Archive.HarmlessIff` | src/ustar.c:208-239 | writes through an entry spare all headers if and only if it is a file, has no size, or ends the disk |
| `Archive.OtherTypesHarm` | src/ustar.c:208-239 | the first byte written to any other entry is in the next header |
| `Ustar.SizedDirectoryHarms` | src/ustar.c:208-239 | a well-formed archive with such an entry |
| `Ustar.OverwritesHeader` | src/ustar.c:261-266 | one byte written to it is the first byte of the next header |
| `Ustar.OctalToU64` | src/ustar.c:95-104 | the sum of the digits times powers of 8, modulo 2^64; the ASSERT fails exactly on bytes outside '0' to '8' |
| `Ustar.OctalRoundTrip` | src/ustar.c:95-104 | a number written in octal digits is read back |
| `Ustar.DigitAt` | src/ustar.c:95-104 | each digit of that text is the quotient by its power of 8, modulo 8 |
| `Ustar.FindsSecond` | src/ustar.c:126-185 | in an archive given byte by byte, the file behind one of 512 bytes is found |
| `Ustar.ReadHeader` | src/ustar.c:111-117 | the 512 bytes at the offset, or failure exactly when they are not all on the disk |
| `Ustar.NamedIff` | src/ustar.c:126-185 | the name of an entry is the prefix and the name in its header, each up to its first NUL |
| `Ustar.FileReachIff` | src/ustar.c:226-226 | an access asks for the bytes the file has, up to its length, if and only if less than 4 GiB are left or the cut to 32 bits leaves enough |
| `Ustar.FourGigabytes` | src/ustar.c:226-226 | an access to the start of a file of 4 GiB asks for nothing |
| `Ustar.FindFile` | src/ustar.c:126-185 | the first header of the walk whose bytes up to the NULs make up the path, and nothing exactly when there is none, for every well-formed archive |
| `Ustar.ReadFile` | src/ustar.c:208-251 | bytes of the file's extent only, exactly as many as FileReach asks for that the disk has, for every file size of 64 bits |
| `Ustar.WriteFile` | src/ustar.c:208-266 | with the same count, and for an entry the walk skips over every header, every lookup and every other file is preserved |

## Left out

- Boot, segmentation, interrupt stubs, LAPIC, IOAPIC, ACPI, SMP wake-up, serial, VGA and tty: device registers and output.
- src/vfs.c, src/elf.c, process creation and deletion, src/multiboot.c, init_frame_alloc and init_paging: compositions or boot-time parsing that would add easy members.
- The debug wrappers of kmalloc, logging, the error list, and the simulation of running out of memory.
- Liveness: that spinning ends, that an IPI is delivered, tick periods.
- The test-and-set inside a spinlock is one atomic step. Locks that guard a whole operation (heap, frame allocator, address space) make it one atomic section.
- Physical memory mapped for a new heap group is a parameter of `CreateSpare`, `DoKmalloc` and `DoKmallocShared`: pages that nobody uses, or none.
- paging_map_frames_above_in, whose failure path neither unlocks nor undoes.
- The TLB of the recursive window and of the temporary window: page table accesses see the tables as they are in memory.
- Bits of an entry that compare_ptes ignores are one field, `touched`; effective user access through the directory entry is not modelled.
- Paging.Mmu.UnmapPageIn: a frame to free is memory that paging does not use itself; freeing a frame that is a table or a directory is left out.
- Paging.Mmu.MapRange: user pages only. For kernel pages MapPageIn and UnmapPageIn state what one page does, with the exact case in which a shared table is freed.
- Paging.Mmu.UnmapRange: user pages, and with the frames only data frames, as for UnmapPageIn.
- Paging.Mmu.ComputeHoleSize: for another address space the mapped pages are frames of memory other than the table of the windows. The same holds for Paging.Mmu.FindContiguous.
- Paging.Mmu.FreeAddrSpace: the user pages of the address space are data frames.
- IpmUnmap.UnmapReachesEveryTlb: it speaks of the return, not of the earlier freeing of frames.
- IpmTheorems.NoRunFaults: supposes that no sender is moved in the middle of a broadcast call; the IpmBroadcast module shows what happens otherwise.
- IpmTheorems.CallLifetime: supposes the same of the sender of that call only, and so do IpmTheorems.WaitingSenderReturns, IpmTheorems.TargetsFixed and IpmTheorems.AsyncBroadcastFreed.
- RwLockSafety.CountExact: num_readers is unbounded; 2^32 readers at once are out of the model.
- SchedSafety.NoAssertFires: sched_start, the tick and the statistics are left out; a process is enqueued again by its creator only when it is nowhere.
- Heap.Kmalloc.DoKfree: the address is the start of the data of a block, or lies in no group; a pointer into the middle of an allocation is undefined in the source.
- Bitmap.Bsf: a word is its sequence of 32 bits.
- Ustar.FindFile: archives whose header strings end inside the header and whose offsets stay below 4 GiB.
