# RT-Thread kernel and power switch: a verified model

A model in Dafny of the parts of this repository whose correctness rests on whole-system invariants, and
proofs about every run of them:

- the three heap allocators of the RT-Thread 4.0.2 kernel (`mem.c`, `memheap.c`, `slab.c` with its page
  allocator);
- the SMP scheduler with its nested global lock (`scheduler.c`, `cpu.c`, `thread.c`, `__rt_ffs`);
- mailboxes, message queues, mutexes with priority inheritance, and events (`ipc.c`);
- timers kept in a skip list under wrap-around tick arithmetic (`timer.c`);
- the smart power switch and its targets (`applications/sps.c`, `applications/target.c`);
- the binary image writer of the ROM file system (`rt-thread/tools/mkromfs.py`).

`dafny verify dfyconfig.toml` checks everything.

## How it is built

Each component has a specification on values: a state datatype, functions for its operations, an invariant,
and lemmas about every sequence of operations (`RunInv` and its relatives), with any number of blocks,
threads, CPUs, slots, levels or directory entries. Beside it stands the code, in the form the source has:
classes whose methods change fields, arrays and links step by step, each proved to compute what the
specification function says. The invariants are then facts about the code. Links are kept as the source keeps
them: in-band headers (`mem.c`), four link fields (`memheap.c`), `z_next` and `c_next` chains (`slab.c`),
`rt_list` rings through ready lists, timer rows and the suspend lists of all IPC objects, and slots linked by
index (message queues).

| files | source | content |
|---|---|---|
| `HeapBlocks`, `SmallHeap`, `SmallMem` | `mem.c` | the heap as a block list; its operations and runs; the code on in-band headers in a byte array |
| `Ring`, `MemPool`, `Memheap` | `memheap.c` | circular lists; the pool as blocks and a free list; the code on four link fields |
| `PageList`, `ZoneSize`, `Slab`, `SlabPages`, `Chains`, `SlabCode` | `slab.c` | runs of free pages; size classes; zones and chunks; where pages go; singly linked chains; the code on them |
| `Nodes` | `rtservice.h` | the `rt_list` operations on rings of nodes |
| `Bits`, `Scheduler`, `SchedulerCode` | `scheduler.c`, `cpu.c`, `thread.c`, `kservice.c` | find-first-set; the kernel as a state machine over critical sections; the code on rings |
| `ThreadCalls`, `Rotation`, `Fairness`, `Resume` | `scheduler.c`, `clock.c`, `thread.c` | what each call does to lists, CPUs and locks; time slices on one CPU; order and precedence with all CPUs at work; `rt_thread_resume` outside the lock |
| `IpcList`, `Mailbox`, `MessageQueue`, `MessageFlow`, `Mutex`, `MutexHold`, `Event` | `ipc.c` | suspend lists as sequences and as rings, and four kinds of object, each as a state machine and as code |
| `Timer`, `TimerCode` | `timer.c` | the skip list on sequences; the code on doubly linked rows |
| `Sps` | `sps.c`, `target.c` | the protocol between switch, targets and an arbitrary host; the code |
| `Romfs` | `mkromfs.py` | the image of a directory tree, a reader for it, and the code |

Conventions. Memory addresses are offsets into the pool; NULL is -1, and -2 for `memheap.c`, where -1 is the
header of the free list. Critical sections are atomic; what a thread does between two of them can be interleaved
with anything. In the kernel, the number of CPUs stands for "no CPU", as in the code. A smaller priority
number is more urgent. The configuration is the repository's: SMP, 32 priorities, 4-byte alignment, memory trace
on (so a small-heap header has 16 bytes), 24-byte memheap headers, 36-byte zone headers, 4096-byte pages.

What the code does where it differs from what one would expect, each with a lemma:

- `rt_malloc` of the small heap cannot use a last free block that fits exactly, so a new heap does not give away all its bytes (`LimitHidesExactLastFit`, `WholeHeapIsRefused`);
- a shrinking `rt_realloc` can leave `lfree` above a free block, and a later `rt_malloc` then returns NULL although that block fits (`ShrinkLowest`, `ShrinkCanHideFreeMemory`, `HiddenMemoryIsMissed`);
- `rt_realloc` of the small heap moves a block that is only a little too large, and returns NULL if there is no room for the copy (`ReallocStaysIff`, `SmallerIsRefused`);
- only an assertion keeps `rt_free` from freeing a free block, which would take its size off `used_mem` once more (`FreeBlockInvIff`);
- `rt_memheap_alloc` refuses a request for exactly all that is available, as on a new pool (`AllocRefuses`, `WholePoolIsRefused`);
- only assertions keep `rt_memheap_free` from freeing a free block; past them the free list would lead round without its header, and a search could go on for ever (`MemPool.FreeBlockInvIff`, `FreedTwiceLoops`);
- `rt_schedule_insert_thread` on a thread that is already ready breaks the ring: followed forward, the list now ends with that thread, and the threads behind it are lost (`InsertTwice`, `InsertIsSafeIff`); two calls of `rt_thread_resume` outside the lock that both test, both remove and both insert do that, and one that runs whole behind the test of another takes the ready thread out of its list and puts it at the tail (`ResumesCanCross`, `FollowingMovesToTail`, `RunSafeIff`);
- a tie between the two ready queues goes to the CPU's own, so two ready threads bound to a CPU keep an unbound one of the same priority from it, however many time slices pass and whatever the other CPUs do (`UnboundThreadRunsIff`, `UnboundNeverRuns`, `TwoBoundKeepOut`);
- `rt_thread_yield` does not mark the thread as yielding, so it gives way to more urgent threads only; threads of the same priority take turns when a time slice ends (`PlainYieldKeepsCpu`, `GivesWayIff`, `SlicesRotate`);
- releasing an inner mutex drops a priority lent through an outer one, and releasing mutexes crosswise leaves a thread at a lent priority (`ReleaseKeepsLentIff`, `LastReleaseRestoresIff`);
- a lent priority is not passed on: if the owner it is lent to waits for a mutex itself, that mutex's owner stays less urgent, and the waiting list is not put in order again (`LoanIsNotPassedOn`, `TakeInheritsIff`);
- a FIFO mutex can pass to a thread less urgent than another waiter (`HandOverInheritsIff`, `FifoHandsToLessUrgent`);
- a due periodic timer with period 0 keeps `rt_timer_check` going for ever (`CheckEndsIff`, `ZeroPeriodNeverEnds`);
- the slab allocator's comment promises that all power-of-two sizes are aligned to their size; beyond a page that depends on where the zone lies (`PowerOfTwoAligned`, `BigChunkMisaligned`);
- a gpio mail that finds its mailbox full is lost, and the switch and the target then disagree until another one is lost or gets through (`PoweredAsKnownIff`, `LostMailMisleads`);
- the count of unanswered pings is not cleared when a target is switched off, so a target that was switched off and on can be marked frozen at its first ping (`PatientIff`, `FrozenAtFirstPing`);
- the repository's README says a target answers a ping with a one-hot mask; the code sends its index, and the model follows the code. A target freezes with a probability of 1% although the comment says 2%; in the model freezing is free choice.

## Model

| member | source | states |
|---|---|---|
| `HeapBlocks.TakeKeeps` | rt-thread/src/mem.c:311-371 | handing out a free block, split or whole, keeps the blocks tiling the pool with no two free neighbours |
| `HeapBlocks.ReleaseKeeps` | rt-thread/src/mem.c:156-194 | marking a block free and plugging the holes on both sides leaves a tiling without adjacent free blocks |
| `HeapBlocks.ShrinkKeeps` | rt-thread/src/mem.c:471-498 | cutting a used block and joining its rest to a free successor keeps the same |
| `HeapBlocks.ReleaseUndoesTake` | rt-thread/src/mem.c:156-194 | freeing what was just handed out restores the block list it was taken from, whatever the split |
| `HeapBlocks.WeighTotal` | rt-thread/src/mem.c:329-371 | used and free extents always add up to the pool |
| `HeapBlocks.PayloadsDisjoint` | rt-thread/src/mem.c:329-348 | no byte belongs to the payloads of two blocks |
| `HeapBlocks.TakeKeepsPayload` | rt-thread/src/mem.c:311-371 | every byte of a live payload is in the same live payload after another block is handed out |
| `HeapBlocks.ReleaseKeepsPayload` | rt-thread/src/mem.c:546-609 | the same when another block is freed and merged |
| `HeapBlocks.TakeUses` | rt-thread/src/mem.c:311-371 | handing out a block adds exactly that one to the blocks in use |
| `HeapBlocks.ReleaseUses` | rt-thread/src/mem.c:156-194 | giving a block back takes exactly that one away, whatever is merged |
| `HeapBlocks.ShrinkUses` | rt-thread/src/mem.c:471-498 | cutting a block changes exactly its own length |
| `HeapBlocks.UsedDetermines` | rt-thread/src/mem.c:156-194 | the blocks in use determine the whole list, since each gap is one free block |
| `SmallHeap.InitInv` | rt-thread/src/mem.c:204-260 | the heap after initialisation satisfies the invariant |
| `SmallHeap.MallocInv` | rt-thread/src/mem.c:272-410 | rt_malloc keeps the whole-heap invariant for every size; NULL leaves the heap as it was |
| `SmallHeap.MallocDelivers` | rt-thread/src/mem.c:305-402 | a non-NULL result is a live block, at least as large as asked for and 4-byte aligned |
| `SmallHeap.MallocAdds` | rt-thread/src/mem.c:272-410 | a malloc that does not return NULL adds one block, where none was, of at least the size asked for and less than a header and a smallest block more, changes no other, and counts its extent in used_mem and max_mem |
| `SmallHeap.FreeRemoves` | rt-thread/src/mem.c:546-609 | a free of a live block takes exactly that block away and its extent off used_mem; any other pointer changes nothing |
| `SmallHeap.FreeUndoesMalloc` | rt-thread/src/mem.c:272-609 | freeing what was just allocated gives back the same blocks and the same used_mem |
| `SmallHeap.MallocFails` | rt-thread/src/mem.c:277-311 | with lfree lowest, NULL comes exactly for size 0, a size above the pool, or when no free block below the search limit fits |
| `SmallHeap.LimitHidesExactLastFit` | rt-thread/src/mem.c:305-311 | the search limit hides a sufficient free block exactly when it is the last one and fits exactly |
| `SmallHeap.WholeHeapIsRefused` | rt-thread/src/mem.c:305-311 | so a new heap refuses a request for all its bytes, although its one free block has them |
| `SmallHeap.FreeOpInv` | rt-thread/src/mem.c:546-609 | rt_free keeps the invariant for a live pointer, and for NULL and pointers outside the heap, which change nothing |
| `SmallHeap.FreeBlockInvIff` | rt-thread/src/mem.c:575-609 | past the assertion that the block is in use, freeing it keeps the invariant if and only if it is |
| `SmallHeap.ReallocInv` | rt-thread/src/mem.c:421-510 | rt_realloc keeps the invariant; NULL for a nonzero size leaves the heap unchanged |
| `SmallHeap.ReallocReplaces` | rt-thread/src/mem.c:421-510 | a realloc of a live block changes nothing and returns NULL, or replaces exactly that block by one of at least the size asked for |
| `SmallHeap.ReallocStaysIff` | rt-thread/src/mem.c:461-510 | the block stays in place exactly if it has the size or can be cut to it; NULL comes exactly if it has to move and malloc fails |
| `SmallHeap.SmallerIsRefused` | rt-thread/src/mem.c:461-510 | a heap on which a block of 1000 bytes is live and a realloc of it to 990 returns NULL |
| `SmallHeap.ReallocToNothing` | rt-thread/src/mem.c:437-442 | a realloc to size 0 frees and returns NULL |
| `SmallHeap.ReallocOfNull` | rt-thread/src/mem.c:444-446 | a realloc of NULL allocates |
| `SmallHeap.RunInv` | rt-thread/src/mem.c:272-609 | over every run: headers tile the pool, no two free neighbours, lfree is a free block or the end, used_mem is the extent of the used blocks, and used and free extents add up |
| `SmallHeap.RunMaxMem` | rt-thread/src/mem.c:349-369 | over every run max_mem is the running maximum of used_mem |
| `SmallHeap.RunLowestFree` | rt-thread/src/mem.c:380-387 | over every run of malloc and free, lfree is the lowest free block or the heap end |
| `SmallHeap.SearchFromLfree` | rt-thread/src/mem.c:305-311 | then searching from lfree finds what the same bounded search from the heap start finds |
| `SmallHeap.ShrinkLowest` | rt-thread/src/mem.c:471-498 | a shrinking realloc keeps lfree lowest if and only if the block lies above lfree or swallows the block lfree points to |
| `SmallHeap.ShrinkCanHideFreeMemory` | rt-thread/src/mem.c:471-498 | a heap, reached by two mallocs, on which it does not |
| `SmallHeap.HiddenMemoryIsMissed` | rt-thread/src/mem.c:305-311 | a run after which rt_malloc returns NULL for a size that a free block below the search limit holds |
| `SmallMem.SmallMemory.constructor` | rt-thread/src/mem.c:204-260 | the two headers in the array, with their next and prev, represent the initial heap |
| `SmallMem.SmallMemory.Malloc` | rt-thread/src/mem.c:272-410 | the code on in-band headers computes the specified malloc, keeps prev the inverse of next, writes no byte of any live payload, and writes nothing when it returns NULL |
| `SmallMem.SmallMemory.Search` | rt-thread/src/mem.c:305-311 | the loop along the next links finds the first fit from lfree |
| `SmallMem.SmallMemory.Carve` | rt-thread/src/mem.c:316-372 | splitting or taking the block writes headers only |
| `SmallMem.SmallMemory.AdvanceLfree` | rt-thread/src/mem.c:380-387 | the loop moves lfree to the next free block or the end |
| `SmallMem.SmallMemory.PlugHoles` | rt-thread/src/mem.c:156-194 | joins with free neighbours and moves lfree with a swallowed header |
| `SmallMem.SmallMemory.Free` | rt-thread/src/mem.c:546-609 | the code computes the specified free and changes no byte of any other live payload |
| `SmallMem.SmallMemory.Realloc` | rt-thread/src/mem.c:421-510 | the code computes the specified realloc, touches no other live payload, and the result starts with the first min(old, new) bytes |
| `SmallMem.SmallMemory.ShrinkInPlace` | rt-thread/src/mem.c:471-498 | in-place shrinking keeps the first bytes and all other payloads |
| `SmallMem.SmallMemory.CopyAndFree` | rt-thread/src/mem.c:501-509 | moving copies the bytes and then frees the old block |
| `Ring.Link` | rt-thread/src/memheap.c:221-225 | linking a node into a doubly linked circular list gives the list with the node in that place |
| `Ring.Unlink` | rt-thread/src/memheap.c:215-219 | unlinking gives the list without it |
| `MemPool.InitInv` | rt-thread/src/memheap.c:50-121 | the pool after initialisation satisfies the invariant |
| `MemPool.AllocInv` | rt-thread/src/memheap.c:138-281 | rt_memheap_alloc keeps the invariant; NULL changes nothing |
| `MemPool.AllocRefuses` | rt-thread/src/memheap.c:147-155 | given a sufficient free block, a request is refused exactly when it asks for all that is available |
| `MemPool.WholePoolIsRefused` | rt-thread/src/memheap.c:147-155 | so a new pool refuses a request for all its bytes, although it is one free block |
| `MemPool.AllocKeepsOthers` | rt-thread/src/memheap.c:169-258 | other live blocks keep place and size, and the result is a live block that is large enough |
| `MemPool.AllocFailsIff` | rt-thread/src/memheap.c:147-281 | NULL comes exactly if the request is not below what is available or no free block is large enough |
| `MemPool.AllocAdds` | rt-thread/src/memheap.c:138-281 | an allocation that does not return NULL adds one block, where none was, of at least the size asked for and less than a header and a smallest block more, and changes no other |
| `MemPool.FreeRemoves` | rt-thread/src/memheap.c:495-595 | a free of a live block takes exactly that block away, and its bytes are available again |
| `MemPool.FreeUndoesAlloc` | rt-thread/src/memheap.c:138-595 | freeing what was just allocated gives back the same blocks and as many available bytes |
| `MemPool.FreeOpInv` | rt-thread/src/memheap.c:495-595 | rt_memheap_free of a live block keeps the invariant, and NULL changes nothing |
| `MemPool.FreeBlockInvIff` | rt-thread/src/memheap.c:512-595 | past the assertion that the block is in use, freeing it keeps the invariant if and only if it is |
| `Memheap.FreedTwiceLoops` | rt-thread/src/memheap.c:580-587 | linking a free block in once more leaves a free list that never leads back to its header |
| `MemPool.FreeKeepsOthers` | rt-thread/src/memheap.c:495-595 | freeing one block leaves every other live block as it was |
| `MemPool.ReallocInv` | rt-thread/src/memheap.c:284-492 | rt_memheap_realloc keeps the invariant; NULL for a nonzero size changes nothing |
| `MemPool.ResizeKeepsOthers` | rt-thread/src/memheap.c:284-492 | a realloc leaves every other live block at its place and size |
| `MemPool.ReallocReplaces` | rt-thread/src/memheap.c:284-492 | a realloc of a live block changes nothing and returns NULL, or replaces exactly that block by one of at least the size asked for |
| `MemPool.ReallocStaysIff` | rt-thread/src/memheap.c:311-492 | the block stays in place exactly if it is large enough or the free block behind it makes it so; NULL comes exactly if it has to move and there is no room |
| `MemPool.ReallocToNothing` | rt-thread/src/memheap.c:294-299 | a realloc to size 0 frees and returns NULL |
| `MemPool.ReallocOfNull` | rt-thread/src/memheap.c:304-307 | a realloc of NULL allocates |
| `MemPool.HeadersSparePayloads` | rt-thread/src/memheap.c:182-258 | no header of the block list lies in a live payload, so what an operation writes into headers leaves live payloads alone |
| `MemPool.RunInv` | rt-thread/src/memheap.c:50-595 | over every run: blocks tile the pool up to the used tailer, no two free neighbours, the free list holds each free block once and nothing else, available_size is the sum of free payloads |
| `Memheap.MemHeap.constructor` | rt-thread/src/memheap.c:50-121 | the three items and their links represent the initial pool |
| `Memheap.MemHeap.Alloc` | rt-thread/src/memheap.c:138-281 | the code on next, prev, next_free, prev_free and used marks computes the specified allocation |
| `Memheap.MemHeap.Search` | rt-thread/src/memheap.c:169-180 | the walk along next_free finds the first free block that fits |
| `Memheap.MemHeap.Grant` | rt-thread/src/memheap.c:182-258 | splitting and relinking both lists, or taking the block off the free list |
| `Memheap.MemHeap.Free` | rt-thread/src/memheap.c:495-595 | the code computes the specified free, merging left and right |
| `Memheap.MemHeap.Realloc` | rt-thread/src/memheap.c:284-492 | the code computes the specified realloc: in place into the next free block, by cutting, or by moving; the bytes of every other live payload stay, and the result starts with the first min(old, new) bytes |
| `Memheap.MemHeap.Move` | rt-thread/src/memheap.c:405-418 | allocates, copies and frees: a NULL leaves all bytes, else the new block holds the old bytes and nobody else's change |
| `Memheap.MemHeap.Grow` | rt-thread/src/memheap.c:328-402 | growing over the next free block relinks both lists |
| `Memheap.MemHeap.Cut` | rt-thread/src/memheap.c:432-485 | cutting off the rest and merging it with a free successor |
| `PageList.AllocTakes` | rt-thread/src/slab.c:236-269 | rt_page_alloc keeps the list sorted, apart and joined up, and takes exactly the pages it returns, which were free |
| `PageList.AllocFailsIff` | rt-thread/src/slab.c:246-269 | NULL comes exactly when no n pages in a row are free |
| `PageList.ReleaseAdds` | rt-thread/src/slab.c:272-322 | rt_page_free keeps the list sorted, apart and maximally joined, and adds exactly the given pages |
| `PageList.Canonical` | rt-thread/src/slab.c:236-322 | a list is determined by its set of free pages |
| `PageList.ReleaseUndoesAlloc` | rt-thread/src/slab.c:236-322 | giving back what was allocated restores the very list |
| `PageList.ReleasesCommute` | rt-thread/src/slab.c:272-322 | the order of giving back does not matter |
| `PageList.PageAllocator.AllocPages` | rt-thread/src/slab.c:236-269 | the code on headers in the free pages computes the specified allocation |
| `PageList.PageAllocator.ReleasePages` | rt-thread/src/slab.c:272-322 | the code computes the specified release |
| `ZoneSize.ZoneIndexFits` | rt-thread/src/slab.c:401-459 | zoneindex gives the index and chunk size of the smallest of the 72 classes that holds the request |
| `ZoneSize.ClassesOrdered` | rt-thread/src/slab.c:401-459 | class sizes grow strictly with the index |
| `ZoneSize.ZoneIndexTwice` | rt-thread/src/slab.c:716-718 | rounding a rounded size changes nothing |
| `ZoneSize.RoundingLoss` | rt-thread/src/slab.c:401-459 | less than 8 bytes are lost below 128, and less than an eighth above |
| `ZoneSize.ZoneHolds` | rt-thread/src/slab.c:628-646 | header and chunks fit into a zone, which has at least three chunks |
| `Slab.PowerOfTwoAligned` | rt-thread/src/slab.c:628-648 | chunks of a power-of-two size are aligned to it exactly if their zone is, and always up to a page |
| `Slab.BigChunkMisaligned` | rt-thread/src/slab.c:587-648 | a heap on which a block of 8192 bytes is not at a multiple of its size |
| `Slab.TakeChunkOk` | rt-thread/src/slab.c:543-568 | taking a chunk from a zone keeps z_nfree equal to never-used chunks plus the free list, and the chunk was not in use |
| `Slab.GiveChunkOk` | rt-thread/src/slab.c:830-846 | giving a chunk back keeps it |
| `Slab.AllFreeMeansNoneLive` | rt-thread/src/slab.c:854-855 | when z_nfree reaches z_nmax no chunk of the zone is in use |
| `Slab.UsageFinds` | rt-thread/src/slab.c:795-827 | for every address in use, its page in memusage leads to its own zone, or says it is a large block and how long |
| `Slab.MallocOk` | rt-thread/src/slab.c:478-664 | rt_malloc returns NULL and changes nothing, or a block of at least the size asked for that was not in use, all others staying in use |
| `Slab.MallocFailsIff` | rt-thread/src/slab.c:478-607 | NULL for a nonzero size comes exactly when no zone has a chunk and the pages needed are not free in a row |
| `Slab.FreeOk` | rt-thread/src/slab.c:771-901 | rt_free of a block in use ends its use and nobody else's |
| `Slab.LiveApart` | rt-thread/src/slab.c:534-659 | blocks in use never overlap, across zones and large blocks |
| `Slab.RunInv` | rt-thread/src/slab.c:478-901 | over every run: page list in order and joined up, zone counts and lists agree, pages lead to zones, at most two spare zones, blocks in use disjoint |
| `SlabPages.PagesConserved` | rt-thread/src/slab.c:236-901 | over every run a page is free or in use, never both, exactly if it was free at the start |
| `SlabPages.LargeReturns` | rt-thread/src/slab.c:797-818 | freeing a large block makes exactly its pages free |
| `SlabPages.AllFreeIff` | rt-thread/src/slab.c:854 | z_nfree equals z_nmax exactly if no chunk of the zone is in use |
| `SlabPages.ZoneReturns` | rt-thread/src/slab.c:854-897 | freeing the last chunk of a zone whose class has another one makes the zone spare, or, if two are, its pages free; any other free leaves zones and pages |
| `SlabCode.SlabHeap.Malloc` | rt-thread/src/slab.c:478-664 | the code on linked zones and chunks computes the specified malloc |
| `SlabCode.SlabHeap.ChunkOf` | rt-thread/src/slab.c:539-577 | a chunk of the first zone of zone_array, which is unlinked by z_next when it has no more |
| `SlabCode.SlabHeap.TakeFrom` | rt-thread/src/slab.c:556-568 | the next chunk never used, or the first of the c_next chain |
| `SlabCode.SlabHeap.ZoneFor` | rt-thread/src/slab.c:587-659 | a new zone from the zone_free chain or from the page allocator |
| `SlabCode.SlabHeap.Free` | rt-thread/src/slab.c:771-901 | the code computes the specified free |
| `SlabCode.SlabHeap.FreeToZone` | rt-thread/src/slab.c:822-901 | back to the zone, which may go to zone_free and from there to the page allocator |
| `SlabCode.SlabHeap.GiveBack` | rt-thread/src/slab.c:830-846 | the chunk becomes the first of its c_next chain, and a full zone is linked in again |
| `SlabCode.SlabHeap.OnlyZone` | rt-thread/src/slab.c:854-855 | no z_next and first in zone_array means it is the only zone of its list |
| `SlabCode.SlabHeap.FindLink` | rt-thread/src/slab.c:863-864 | the loop over pz stops at the link that leads to the zone |
| `SlabCode.SlabHeap.CutPartial` | rt-thread/src/slab.c:863-865 | rewriting that one link takes the zone out of its list and leaves all others |
| `SlabCode.SlabHeap.PutAside` | rt-thread/src/slab.c:863-897 | from its list to zone_free, and one spare zone too many to the page allocator |
| `Bits.FfsFindsLowest` | rt-thread/src/kservice.c:1286-1330 | __rt_ffs with its byte table is 0 exactly for 0, and else one more than the position of the lowest set bit |
| `Scheduler.HighestIsLeast` | rt-thread/src/scheduler.c:126-160 | the bitmap gives the smallest priority whose list is not empty |
| `Scheduler.PickIsUrgent` | rt-thread/src/scheduler.c:126-160 | no thread in the CPU's own or the global queue is more urgent than the one picked |
| `Scheduler.BootedInv` | rt-thread/src/scheduler.c:191-272 | the kernel after every CPU has started satisfies the invariant |
| `Scheduler.LockInv` | rt-thread/src/cpu.c:126-147 | rt_cpus_lock keeps the invariant, nested or not |
| `Scheduler.UnlockInv` | rt-thread/src/cpu.c:153-168 | rt_cpus_unlock keeps it |
| `Scheduler.EnterInv` | rt-thread/src/scheduler.c:842-876 | rt_enter_critical keeps it |
| `Scheduler.ExitInv` | rt-thread/src/scheduler.c:901-938 | rt_exit_critical keeps it |
| `Scheduler.RescheduleInv` | rt-thread/src/scheduler.c:333-385 | a switch keeps it: whoever comes in takes over the lock or releases it; nobody is lost, queued twice or run twice |
| `Scheduler.IrqSwitchInv` | rt-thread/src/scheduler.c:547-632 | so does the switch at the end of an interrupt |
| `Scheduler.InsertInv` | rt-thread/src/scheduler.c:643-706 | putting a suspended thread back keeps it |
| `Scheduler.SuspendInv` | rt-thread/src/thread.c:796-835 | rt_thread_suspend keeps it |
| `Scheduler.StartInv` | rt-thread/src/thread.c:289-321 | starting a thread keeps it |
| `Scheduler.ChangePriorityInv` | rt-thread/src/thread.c:711-752 | changing a priority keeps it, for ready and for other threads |
| `Scheduler.BindInv` | rt-thread/src/thread.c:763-776 | binding to a CPU keeps it |
| `Scheduler.StepInv` | rt-thread/src/scheduler.c:298-938 | every step of every CPU keeps: bitmap bits agree with lists, lists hold exactly the ready threads of their CPU and priority, the spin lock is held exactly if one CPU's current thread has cpus_lock_nest > 0, and scheduler_lock_nest is critical_lock_nest plus one if cpus_lock_nest > 0 |
| `Scheduler.RunInv` | rt-thread/src/scheduler.c:298-938 | so it holds in every state of every run of any number of CPUs and threads |
| `Scheduler.ExactlyOnePlace` | rt-thread/src/scheduler.c:643-803 | a started thread is in its one list with oncpu detached, current on exactly one CPU, or suspended, and never in two of these places |
| `Scheduler.ResumedBeforeSchedule` | rt-thread/src/thread.c:845-879 | a thread resumed between suspending itself and its rt_schedule stays running on its CPU and is not queued |
| `Scheduler.RunsMostUrgent` | rt-thread/src/scheduler.c:333-385 | after an unlocked rt_schedule outside interrupts, if any thread is ready for that CPU then one is running, at least as urgent as all of them |
| `ThreadCalls.SuspendTakesOut` | rt-thread/src/thread.c:796-835 | rt_thread_suspend of a ready or running thread suspends it: it is in no list, and nothing else changes; any other thread is left alone |
| `ThreadCalls.SuspendedSleeps` | rt-thread/src/thread.c:796-835 | a running thread that suspends itself is on no CPU and in no list after the next rt_schedule, if another one is ready |
| `ThreadCalls.ResumeQueues` | rt-thread/src/thread.c:845-879 | rt_thread_resume makes a sleeping thread ready and the last of its list, and changes nothing else; one that is not suspended is left alone |
| `ThreadCalls.ResumeAfterSuspend` | rt-thread/src/thread.c:796-879 | a ready thread that is suspended and resumed is at the tail of its list |
| `ThreadCalls.StartQueues` | rt-thread/src/thread.c:289-321 | rt_thread_startup makes the thread ready at its first priority, the last of that list |
| `ThreadCalls.PriorityMoves` | rt-thread/src/thread.c:711-752 | a ready thread moves to the tail of the list of its new priority; for any other the lists stay; either way it has the new priority |
| `ThreadCalls.BindSets` | rt-thread/src/thread.c:763-776 | only a thread not started is bound, and a number that is no CPU means not bound |
| `ThreadCalls.LockNests` | rt-thread/src/cpu.c:126-168 | rt_cpus_lock holds the lock one level deeper, and rt_cpus_unlock undoes exactly that |
| `ThreadCalls.UnlockFrees` | rt-thread/src/cpu.c:153-168 | the lock is free after rt_cpus_unlock exactly if that was the outermost level |
| `ThreadCalls.CriticalNests` | rt-thread/src/scheduler.c:842-938 | rt_enter_critical and rt_exit_critical nest in the same way, and inside there is no switch |
| `ThreadCalls.ScheduleSwitchesIff` | rt-thread/src/scheduler.c:298-388 | rt_schedule changes the running thread exactly if, outside interrupts and critical sections, a ready thread is more urgent, or as urgent as a yielding one, or the current one cannot run; inside an interrupt it only asks for a switch |
| `ThreadCalls.IrqSwitchIff` | rt-thread/src/scheduler.c:547-632 | the switch at the end of an interrupt happens exactly if it was asked for, no other interrupt or critical section is open, and the same holds |
| `ThreadCalls.SwitchMoves` | rt-thread/src/scheduler.c:341-385 | at a switch a thread that could go on becomes the last of its list, one that suspended itself sleeps, and the first of a list comes in |
| `Rotation.YieldRotates` | rt-thread/src/scheduler.c:341-366 | a running thread marked as yielding, with a ready one of its priority in either queue: the head of the picked list runs, that list loses its head, the yielder goes to the tail of its own list, and every other list stays |
| `Rotation.TurnIsRun` | rt-thread/src/clock.c:73-100 | a time slice as used below is a run of the CPU: interrupt, tick with its rt_schedule, switch at the end of the interrupt, and rt_cpus_unlock until the lock is left |
| `Rotation.ReachesIsRun` | rt-thread/src/scheduler.c:298-938 | steps that a CPU may take one after the other are a run of the kernel |
| `Rotation.TurnsAreRun` | rt-thread/src/clock.c:73-100 | so m time slices are one too |
| `Rotation.TurnsRotate` | rt-thread/src/clock.c:84-96 | what m time slices do to the kernel is m rotations of the threads of that priority in the two queues |
| `Rotation.SlicesRotate` | rt-thread/src/clock.c:84-96 | within one queue of n waiting threads each of them runs once, in order, in n slices, and after n + 1 all is as it was |
| `Rotation.OneBoundAlternates` | rt-thread/src/scheduler.c:146-157 | one bound thread has every other slice, and the unbound ones have the rest in the order of their list |
| `Rotation.UnboundThreadRunsIff` | rt-thread/src/scheduler.c:146-157 | an unbound thread of that priority runs on the CPU again after some number of slices if and only if fewer than two threads of that priority are bound to it |
| `Rotation.SmallIsBooted` | rt-thread/src/scheduler.c:191-272 | a kernel with one CPU and three threads of one priority, one of them running, one bound and one not |
| `Rotation.UnboundNeverRuns` | rt-thread/src/scheduler.c:146-157 | in every such kernel, once the other two are started, the unbound one never runs, however many slices pass |
| `Rotation.GivesWayIff` | rt-thread/src/scheduler.c:341-366 | with an equal ready and nobody more urgent, rt_schedule changes the running thread if and only if it is marked as yielding |
| `Rotation.PlainYieldKeepsCpu` | rt-thread/src/thread.c:554-560 | a call of rt_thread_yield by a thread whose slice is not over changes nothing while nobody more urgent is ready |
| `Fairness.StepFifo` | rt-thread/src/scheduler.c:298-938 | whatever any CPU does, of two threads that stay in a ready list the one ahead stays ahead, unless its priority is set anew |
| `Fairness.RunFifo` | rt-thread/src/scheduler.c:298-938 | so over every run of any number of CPUs two threads that stay in a list keep their order |
| `Fairness.NoOvertaking` | rt-thread/src/scheduler.c:126-160 | and while a thread is ahead of another in a list, no CPU takes the other one |
| `Fairness.BoundFirst` | rt-thread/src/scheduler.c:146-157 | with a bound thread ready, a switch brings in an unbound one only if that is more urgent |
| `Fairness.TwoBoundKeepOut` | rt-thread/src/scheduler.c:146-157 | over every run of any number of CPUs: while two threads bound to a CPU want to run, an unbound one that is not more urgent never gets it |
| `Resume.RemoveSafeIff` | rt-thread/src/thread.c:867-872 | rt_list_remove outside the test keeps the ready lists in order if and only if the thread is not ready |
| `Resume.InsertSafeIff` | rt-thread/src/thread.c:874-875 | so does the insertion |
| `Resume.RemoveLeavesStaleBit` | rt-thread/src/thread.c:867-872 | a ready thread that was alone in its list leaves an empty ring whose bit is set |
| `Resume.RunSafeIff` | rt-thread/src/thread.c:845-879 | over every interleaving of any number of calls outside the lock with each other and the rest of the kernel: everything is in order in every state if and only if no call goes on after its thread was made ready |
| `Resume.ExclusiveIsSafe` | rt-thread/src/thread.c:845-879 | one call at a time for a thread, and nobody else who makes it ready meanwhile, is enough |
| `Resume.CrossingBreaks` | rt-thread/src/thread.c:845-879 | test, test, remove, remove, insert, insert for a sleeping thread breaks its ready list |
| `Resume.ResumesCanCross` | rt-thread/src/thread.c:845-879 | and a state in which that can happen is reached from every booted kernel with a thread to start |
| `Resume.FollowingMovesToTail` | rt-thread/src/thread.c:845-879 | a second call that runs whole behind the first takes the ready thread out of its list and then puts it at the tail |
| `Nodes.RemoveMember` | rt-thread/include/rtservice.h:86-92 | rt_list_remove takes a node out of its ring, leaves it alone, and touches no other list |
| `Nodes.InsertAfterMember` | rt-thread/include/rtservice.h:58-65 | rt_list_insert_after puts a lone node behind a member, and touches no other list |
| `Nodes.InsertLast` | rt-thread/include/rtservice.h:73-80 | rt_list_insert_before the head appends a lone node |
| `Nodes.InsertFirstTwice` | rt-thread/src/memheap.c:580-587 | a member put behind the head once more: the links never lead back to the head |
| `Nodes.InsertTwice` | rt-thread/include/rtservice.h:73-80 | for a node that is in the list already the result is no ring; followed forward, the list ends with that node and loses those behind it |
| `SchedulerCode.InsertIsSafeIff` | rt-thread/src/scheduler.c:643-706 | for a started thread, linking it into its ready list leaves a ring if and only if it is not ready; for a ready one, those behind it are lost |
| `SchedulerCode.Smp.CpusLock` | rt-thread/src/cpu.c:126-147 | the code changes counters and lock as specified |
| `SchedulerCode.Smp.CpusUnlock` | rt-thread/src/cpu.c:153-168 | likewise |
| `SchedulerCode.Smp.LockStatusRestore` | rt-thread/src/cpu.c:176-185 | the incoming thread becomes current, and the lock stays held exactly if that thread has it |
| `SchedulerCode.Smp.EnterCritical` | rt-thread/src/scheduler.c:842-876 | the code enters a critical section as specified |
| `SchedulerCode.Smp.ExitCritical` | rt-thread/src/scheduler.c:901-938 | the code leaves one as specified |
| `SchedulerCode.Smp.InsertThread` | rt-thread/src/scheduler.c:643-706 | linking the tlist node before the head of its ring and setting the bits queues the thread as specified, and every ring stays a ring |
| `SchedulerCode.Smp.RemoveThread` | rt-thread/src/scheduler.c:753-803 | unlinking the node takes the thread out as specified, and the bit of an empty ring is cleared |
| `SchedulerCode.Smp.GetHighestPriorityThread` | rt-thread/src/scheduler.c:126-160 | the node behind the head of the most urgent ring of the two queues is the specified choice |
| `SchedulerCode.Smp.Schedule` | rt-thread/src/scheduler.c:298-388 | the code schedules as specified, and only defers inside an interrupt |
| `SchedulerCode.Smp.DoIrqSwitch` | rt-thread/src/scheduler.c:547-632 | the code switches at the end of an interrupt as specified |
| `SchedulerCode.Smp.Suspend` | rt-thread/src/thread.c:796-835 | the code suspends as specified, or returns for a thread in another state |
| `SchedulerCode.Smp.Resume` | rt-thread/src/thread.c:845-879 | the code resumes as specified |
| `SchedulerCode.Smp.Startup` | rt-thread/src/thread.c:289-321 | the code starts a thread as specified |
| `SchedulerCode.Smp.ChangePriority` | rt-thread/src/thread.c:711-752 | the code moves a ready thread to the ring of its new priority as specified |
| `SchedulerCode.Smp.BindCpu` | rt-thread/src/thread.c:763-776 | the code binds a thread as specified, and only one not started |
| `IpcList.EnlistMembers` | rt-thread/src/ipc.c:80-123 | joining a waiting list loses, adds and doubles nobody else |
| `IpcList.InsertSorted` | rt-thread/src/ipc.c:95-118 | a list kept by priority stays sorted |
| `IpcList.EnlistPlace` | rt-thread/src/ipc.c:80-123 | a thread joins behind exactly those at least as urgent, so behind its equals, or at the tail of a FIFO list |
| `WaitRing.WaitList.Find` | rt-thread/src/ipc.c:95-118 | the walk along the ring stops at the first less urgent thread, or at the head |
| `WaitRing.WaitList.Suspend` | rt-thread/src/ipc.c:80-123 | linking the thread there gives the specified list, and the ring stays a ring |
| `WaitRing.WaitList.Resume` | rt-thread/src/ipc.c:134-147 | the node behind the head leaves the ring |
| `WaitRing.WaitList.ResumeAll` | rt-thread/src/ipc.c:157-185 | all nodes leave the ring, one after the other |
| `WaitRing.WaitList.Unlink` | rt-thread/src/ipc.c:1086-1095 | a node anywhere in the ring leaves it |
| `Mailbox.SendInv` | rt-thread/src/ipc.c:1442-1561 | one critical section of a send keeps the mailbox invariant |
| `Mailbox.RecvInv` | rt-thread/src/ipc.c:1590-1714 | one critical section of a receive keeps it |
| `Mailbox.RunInv` | rt-thread/src/ipc.c:1442-1758 | over every interleaving, with timeouts and resets: what was received is a prefix of what was sent and the rest is stored in order, and no wake-up is lost in either direction |
| `Mailbox.NobodyStuck` | rt-thread/src/ipc.c:1544-1560 | a waiting receiver and a stored mail, or a waiting sender and a free slot, never face each other without a woken thread on its way |
| `Mailbox.SendOutcomes` | rt-thread/src/ipc.c:1442-1561 | when a send is done, refused or waits, exactly, and what it leaves: the mail last, the first receiver woken |
| `Mailbox.RecvOutcomes` | rt-thread/src/ipc.c:1590-1714 | when a receive is done, refused or waits, exactly; done, it returns the oldest mail, which leaves, and the first sender is woken |
| `Mailbox.ReturnedInOrder` | rt-thread/src/ipc.c:1442-1714 | over every interleaving what the receives return is a prefix of what the sends were given, each mail once and in order, and the rest is stored |
| `Mailbox.TimeoutLeaves` | rt-thread/src/thread.c:891-915 | a waiter whose time is up leaves its list, and nobody else does |
| `Mailbox.ResetEmpties` | rt-thread/src/ipc.c:1726-1758 | a reset leaves nobody waiting and nothing stored |
| `Mailbox.MailBox.SendSection` | rt-thread/src/ipc.c:1442-1561 | the code on the ring of mails and the rings of waiters stores, wakes or waits as specified |
| `Mailbox.MailBox.RecvSection` | rt-thread/src/ipc.c:1590-1714 | the code fetches, wakes or waits as specified |
| `Mailbox.MailBox.Store` | rt-thread/src/ipc.c:1535-1542 | the mail becomes the last of the ring |
| `Mailbox.MailBox.Fetch` | rt-thread/src/ipc.c:1683-1691 | the first mail leaves the ring |
| `Mailbox.MailBox.Reset` | rt-thread/src/ipc.c:1726-1758 | all waiters leave and the ring is empty |
| `MessageQueue.SendTakeInv` | rt-thread/src/ipc.c:1975-2083 | taking a free slot, or waiting for one, keeps the invariant |
| `MessageQueue.UrgentTakeInv` | rt-thread/src/ipc.c:2155-2189 | so does the urgent variant |
| `MessageQueue.FillInv` | rt-thread/src/ipc.c:2085-2088 | copying into a held slot disturbs no other slot |
| `MessageQueue.LinkInv` | rt-thread/src/ipc.c:2090-2124 | linking the slot and waking a receiver keeps it |
| `MessageQueue.RecvTakeInv` | rt-thread/src/ipc.c:2240-2352 | unlinking the first slot, or waiting, keeps it |
| `MessageQueue.GiveBackInv` | rt-thread/src/ipc.c:2357-2383 | giving the slot back and waking a sender keeps it |
| `MessageQueue.ResetInv` | rt-thread/src/ipc.c:2406-2442 | a reset keeps it, with sends and receives under way |
| `MessageQueue.StepRefines` | rt-thread/src/ipc.c:1975-2445 | seen from outside each section is a step of a deque: linking appends, or prepends if urgent, the bytes that thread gave; receiving pops; a reset empties; nothing else shows |
| `MessageQueue.RunInv` | rt-thread/src/ipc.c:1975-2445 | over every interleaving: each slot is in exactly one of free list, queue, a sender's hands, a receiver's hands; no wake-up is lost; every step refines the deque |
| `MessageQueue.RecvPops` | rt-thread/src/ipc.c:2339-2349 | the receiver holds the slot of the first message |
| `MessageQueue.PhaseKept` | rt-thread/src/ipc.c:1975-2384 | a thread in the middle of a call is not disturbed by the others |
| `MessageQueue.CopyOutSent` | rt-thread/src/ipc.c:2354-2355 | the receiver's buffer gets the bytes that were sent, as many as both sizes allow |
| `MessageFlow.SendTakeOutcomes` | rt-thread/src/ipc.c:1975-2083 | when a send is bad, gets a slot, finds the queue full or waits, exactly; with the slot goes the buffer it was given |
| `MessageFlow.UrgentTakeOutcomes` | rt-thread/src/ipc.c:2155-2189 | the same for an urgent send, which never waits |
| `MessageFlow.RecvTakeOutcomes` | rt-thread/src/ipc.c:2240-2352 | when a receive gets the first message, finds the queue empty or waits, exactly |
| `MessageFlow.FillCopies` | rt-thread/src/ipc.c:2085-2088 | the buffer is copied into the slot, and the call goes on with the same slot, buffer and urgency |
| `MessageFlow.SectionsWake` | rt-thread/src/ipc.c:2090-2383 | linking wakes the first receiver, giving back frees the slot and wakes the first sender |
| `MessageFlow.TimeoutLeaves` | rt-thread/src/thread.c:891-915 | a waiter whose time is up leaves its list, and nobody else does |
| `MessageFlow.ResetEmpties` | rt-thread/src/ipc.c:2406-2442 | a reset leaves nobody waiting and nothing queued; all queued slots are free, and calls under way keep theirs |
| `MessageFlow.SentIsQueued` | rt-thread/src/ipc.c:1975-2196 | over every interleaving, a thread that gets a slot for a buffer, fills it and links it adds exactly that buffer to the queue, at the tail, or at the head if urgent |
| `MessageFlow.ReceivedIsFirst` | rt-thread/src/ipc.c:2240-2355 | over every interleaving, a receive that finds a message gets the bytes of the first one of that moment, however much later it copies |
| `MessageQueue.Queue.constructor` | rt-thread/src/ipc.c:1781-1830 | the loop builds the free list of all slots |
| `MessageQueue.Queue.SendTakeSection` | rt-thread/src/ipc.c:2002-2083 | the code on linked slots does as specified |
| `MessageQueue.Queue.UrgentTakeSection` | rt-thread/src/ipc.c:2172-2189 | likewise |
| `MessageQueue.Queue.FillSlot` | rt-thread/src/ipc.c:2085-2088 | writes only the held slot, outside any section |
| `MessageQueue.Queue.LinkSection` | rt-thread/src/ipc.c:2090-2124 | links at the tail or the head, counts, and wakes a receiver |
| `MessageQueue.Queue.RecvTakeSection` | rt-thread/src/ipc.c:2262-2352 | takes the head or waits; entry is the length of the queue |
| `MessageQueue.Queue.CopySlot` | rt-thread/src/ipc.c:2354-2355 | returns the bytes sent |
| `MessageQueue.Queue.GiveBackSection` | rt-thread/src/ipc.c:2357-2383 | puts the slot on the free list and wakes a sender |
| `MessageQueue.Queue.Reset` | rt-thread/src/ipc.c:2406-2442 | sends all waiters off and moves every queued slot to the free list |
| `MutexSpec.TakeInv` | rt-thread/src/ipc.c:654-779 | taking or waiting for one of any number of mutexes keeps: value 1 iff no owner iff hold 0, waiters only on an owned mutex, each thread waiting once |
| `MutexSpec.ReleaseInv` | rt-thread/src/ipc.c:790-881 | so does releasing, with the hand-over to the first waiter |
| `MutexSpec.RunInv` | rt-thread/src/ipc.c:654-881 | and so does every run, with timeouts |
| `MutexHold.TakeOutcomes` | rt-thread/src/ipc.c:654-779 | when a take succeeds, is refused or waits, exactly, and what changes: one level deeper, nothing, or a place in the list and the owner as urgent as the caller |
| `MutexHold.ReleaseOutcomes` | rt-thread/src/ipc.c:790-881 | a release is refused exactly for a thread that does not have the mutex; else it goes one level out, and from the last one the saved priority returns and the first waiter has the mutex |
| `MutexHold.ReleaseUndoesTake` | rt-thread/src/ipc.c:679-689 | for the owner a take and a release undo each other |
| `MutexHold.ReleaseUndoesFirstTake` | rt-thread/src/ipc.c:690-701 | and for a free mutex |
| `MutexHold.TimeoutLeaves` | rt-thread/src/thread.c:891-915 | a waiter whose time is up leaves its list, and nobody else does |
| `MutexHold.HeldUntilBalanced` | rt-thread/src/ipc.c:654-881 | over every run hold is the takes less the releases by the owner, and a thread has a mutex exactly until it has released it as often as it took it |
| `MutexSpec.RunInherits` | rt-thread/src/ipc.c:654-881 | while nobody asks for a second mutex, the owner of a PRIO mutex is at least as urgent as every thread waiting for it, in every run |
| `MutexSpec.RunInheritsIff` | rt-thread/src/ipc.c:654-881 | over any number of mutexes: that holds in every state of a run if and only if every step passes a check made before it: a loan goes to an owner whose own wait can bear it, a last release goes back to a priority as urgent as all who wait for the thread's other PRIO mutexes |
| `MutexSpec.TakeInheritsIff` | rt-thread/src/ipc.c:718-732 | a take keeps it if and only if, when it lends, the owner waits for no PRIO mutex whose owner, or a waiter before it in the list, is less urgent than the lent priority |
| `MutexSpec.ReleaseInheritsIff` | rt-thread/src/ipc.c:828-861 | a last release keeps it if and only if the saved priority is as urgent as every waiter of the thread's other PRIO mutexes |
| `MutexSpec.LoanIsNotPassedOn` | rt-thread/src/ipc.c:718-732 | a run and a further take, without any release, that break it along a chain of two mutexes |
| `MutexSpec.OneMutexInherits` | rt-thread/src/ipc.c:654-881 | with a single PRIO mutex that needs no discipline |
| `MutexSpec.HandOverInheritsIff` | rt-thread/src/ipc.c:841-861 | a hand-over keeps that property if and only if the first waiter is a most urgent one |
| `MutexSpec.FifoHandsToLessUrgent` | rt-thread/src/ipc.c:841-861 | a run after which a FIFO mutex goes to a thread less urgent than the next in its list |
| `MutexSpec.ReleaseKeepsLentIff` | rt-thread/src/ipc.c:833-839 | releasing one of several mutexes keeps it for another one if and only if the priority saved with the released one is as urgent as those waiters |
| `MutexSpec.InnerReleaseDropsLentPriority` | rt-thread/src/ipc.c:833-839 | a run where a properly nested release breaks it |
| `MutexSpec.RunReturnsToBase` | rt-thread/src/ipc.c:654-881 | over any number of mutexes, a thread that holds none is back at its base priority, if each thread gives up the mutex it got first only last |
| `MutexSpec.NestedIsFirstInLastOut` | rt-thread/src/ipc.c:790-881 | properly nested releases do so |
| `MutexSpec.LastReleaseRestoresIff` | rt-thread/src/ipc.c:833-839 | for any release that leaves a thread without mutexes: it ends at its base priority if and only if it had it when it got that mutex |
| `MutexSpec.CrossedReleasesKeepLentPriority` | rt-thread/src/ipc.c:833-839 | a run where crossed releases leave a thread at a lent priority |
| `MutexCode.RtMutex.Take` | rt-thread/src/ipc.c:654-779 | the code on its suspend ring does as specified, including the priority it lends to the owner |
| `MutexCode.RtMutex.Release` | rt-thread/src/ipc.c:790-881 | the code does as specified |
| `MutexCode.RtMutex.HandOn` | rt-thread/src/ipc.c:841-869 | the first thread of the suspend ring becomes the owner with its own priority saved, or the mutex is free |
| `EventSpec.WalkLeavesUnsatisfied` | rt-thread/src/ipc.c:1050-1101 | whoever is still waiting after a send is not satisfied by the flags that are left, although flags were cleared during the walk |
| `EventSpec.WalkPartitions` | rt-thread/src/ipc.c:1056-1101 | everyone in the list is left or let go, once |
| `EventSpec.WalkServes` | rt-thread/src/ipc.c:1063-1099 | whoever is let go gets all it asked for (AND), or some of it (OR), from flags that were there |
| `EventSpec.WalkConserves` | rt-thread/src/ipc.c:1090-1092 | no flag disappears but by being taken by someone with CLEAR |
| `EventSpec.TakenGoesToOne` | rt-thread/src/ipc.c:1090-1095 | a flag taken by one thread is not given to another later in the list |
| `EventSpec.SendDelivers` | rt-thread/src/ipc.c:1029-1101 | a send adds its flags to those pending; of both together only what was taken with CLEAR is gone, and every waiter is served or still lacks something |
| `EventSpec.RecvOutcomes` | rt-thread/src/ipc.c:1127-1237 | when a receive returns, is refused or waits, exactly; it returns the wished flags that are there, and exactly the wished ones go, only with CLEAR |
| `EventSpec.StepFlags` | rt-thread/src/ipc.c:1029-1277 | in every step flags come from sends alone, and go only by being taken with CLEAR or by a reset |
| `EventSpec.TimeoutLeaves` | rt-thread/src/thread.c:891-915 | a waiter whose time is up leaves the list, and nobody else does |
| `EventSpec.ResetEmpties` | rt-thread/src/ipc.c:1249-1277 | a reset leaves nobody waiting and no flag |
| `EventSpec.RunInv` | rt-thread/src/ipc.c:1029-1277 | in every state of every run nobody waits for flags that are there |
| `EventCode.RtEvent.SendFlags` | rt-thread/src/ipc.c:1029-1111 | the loop that follows and unlinks the nodes of the ring computes the specified walk, and each woken thread finds what it was given |
| `EventCode.RtEvent.RecvFlags` | rt-thread/src/ipc.c:1127-1237 | the code does as specified |
| `EventCode.RtEvent.Reset` | rt-thread/src/ipc.c:1249-1277 | all waiters leave and no flag is set |
| `TimerSpec.LaterIff` | rt-thread/src/timer.c:359-366 | the unsigned comparison orders deadlines correctly across wrap-around when they are less than half the range apart |
| `TimerSpec.DueIff` | rt-thread/src/timer.c:512-516 | the unsigned test finds exactly the deadlines that have come, under the same condition |
| `TimerSpec.StartedInv` | rt-thread/src/timer.c:296-393 | starting a timer keeps: each row sorted by deadline and, for equal ones, by start; each row contained in the next; the last row the active timers |
| `TimerSpec.RemovedInv` | rt-thread/src/timer.c:121-129 | taking a timer out of all rows keeps it |
| `TimerSpec.StartSets` | rt-thread/src/timer.c:296-393 | a started timer is active and due its time from now, in the last row; no other changes |
| `TimerSpec.StopStops` | rt-thread/src/timer.c:422-447 | a stop is refused exactly for a timer that is not active; a stopped timer is in no row, and the rest stays in order |
| `TimerSpec.ControlSets` | rt-thread/src/timer.c:458-484 | rt_timer_control sets time and kind and nothing else |
| `TimerSpec.UpperRowsAreSubseqs` | rt-thread/src/timer.c:379-391 | so each upper row is a subsequence of the one below |
| `TimerSpec.RunInv` | rt-thread/src/timer.c:296-553 | over every run, with any number of levels and wrap-arounds and a check at each tick, without any further window condition |
| `TimerSpec.CheckFiresDue` | rt-thread/src/timer.c:494-553 | one check fires exactly the due timers, once each, by deadline and start; one-shots become inactive, periodic ones get now plus their period, nothing due is left |
| `TimerSpec.TickFires` | rt-thread/src/timer.c:494-553 | a tick fires exactly the active timers whose deadline it reaches |
| `TimerSpec.OneShotOnTime` | rt-thread/src/timer.c:296-553 | over every run a one-shot timer that is started and left alone is active until the tick that reaches its deadline, and not from then on |
| `TimerSpec.RoundsFireInOrder` | rt-thread/src/timer.c:507-547 | after n rounds of the loop the first n due timers have fired, and it goes on exactly if there is one more |
| `TimerSpec.CheckEndsIff` | rt-thread/src/timer.c:507-547 | the loop ends if and only if no due periodic timer has the period 0 |
| `TimerSpec.ZeroPeriodNeverEnds` | rt-thread/src/timer.c:471-481 | in whatever state of whatever run a timer is set to be periodic with period 0 and started, the next check does not end |
| `TimerCode.SkipList.Walk` | rt-thread/src/timer.c:345-367 | the inner loop stops behind the last timer of the row that is not later |
| `TimerCode.SkipList.FindPlaces` | rt-thread/src/timer.c:342-370 | going down from the node found above gives in each row the place a walk from its head would give |
| `TimerCode.SkipList.InsertRows` | rt-thread/src/timer.c:372-391 | links the timer into the bottom row and as many above as the low bits of the start counter say |
| `TimerCode.SkipList.RemoveRows` | rt-thread/src/timer.c:121-129 | unlinks it from every row it is in and leaves it alone in the others |
| `TimerCode.SkipList.Start` | rt-thread/src/timer.c:296-412 | the code on doubly linked rows starts as specified |
| `TimerCode.SkipList.Stop` | rt-thread/src/timer.c:422-447 | the code stops as specified, or refuses |
| `TimerCode.SkipList.Check` | rt-thread/src/timer.c:494-553 | the code calls back exactly the first timers of the last row that are due, in order, and terminates |
| `TimerCode.SkipList.Tick` | rt-thread/src/timer.c:494-553 | counting a tick and checking keeps the run invariant |
| `Sps.KnownIsLastCommand` | applications/sps.c:134-163 | in every run with an arbitrary host, the targets the switch takes for ON or FROZEN are exactly those of the last command |
| `Sps.SendsAlternate` | applications/sps.c:148-162 | the gpio mails to each target, delivered or not, alternate 1, 0, 1, ... |
| `Sps.PoweredAsKnownIff` | applications/sps.c:150-161 | when a target's gpio mailbox is empty, it is powered as the switch believes if and only if an even number of sends was rejected since the last that got through |
| `Sps.PoweredAsKnown` | applications/target.c:44-83 | in particular if none was ever rejected |
| `Sps.LostMailMisleads` | applications/sps.c:160 | on and off before the target looks leaves it on for a switch that takes it for off |
| `Sps.FrozenAfterThreePings` | applications/sps.c:69-90 | a target is marked FROZEN only after at least three pings since the last answer that was read, counted across power cycles |
| `Sps.PatientIff` | applications/sps.c:148-162 | whatever happens after a target is switched on, at least three pings come before it is marked FROZEN, if and only if its count is 0 when it is switched on or an answer is still to be read |
| `Sps.FrozenAtFirstPing` | applications/sps.c:148-162 | a run in which a target that was switched off and on and is up is marked FROZEN at its first ping |
| `Sps.AnsweringStaysOn` | applications/sps.c:11-90 | a target that is kept on, is up and gets a turn between any two rounds is never marked FROZEN, if its count started at 0 |
| `Sps.FrozenWithinFourRounds` | applications/sps.c:19-90 | a target that is not ON while the switch keeps it on is marked FROZEN within four rounds, whatever else happens |
| `Sps.ThreeRoundsMayNotDo` | applications/sps.c:39-60 | a run in which the target is down for three rounds and the switch still takes it for on |
| `Sps.AckHasRoom` | applications/target.c:28-42 | each target has at most one ping or answer under way, so the four-slot mailbox always has room for an answer |
| `Sps.SimInv` | applications/target.c:20-86 | a step of a target keeps the invariant, and its answer gets through |
| `Sps.RunInv` | applications/sps.c:11-165 | the invariant of all lines and of the answer mailbox holds in every run |
| `SpsCode.Switch.IrqIn` | applications/sps.c:134-163 | the loop over the targets does as specified |
| `SpsCode.Switch.Ping` | applications/sps.c:11-100 | the three loops make up a specified round, and the host is told which targets are on exactly if one was found frozen and there is room |
| `SpsCode.Switch.Simulate` | applications/target.c:20-86 | the target does as specified |
| `Romfs.BinName` | rt-thread/tools/mkromfs.py:31-36 | padding makes every name end in a zero byte and fill whole words |
| `Romfs.LengthOf` | rt-thread/tools/mkromfs.py:162-211 | the length of a node's data is a function of the tree alone |
| `Romfs.LengthIndependentOfBase` | rt-thread/tools/mkromfs.py:162-211 | so it is the same at every base address |
| `Romfs.WritePlaces` | rt-thread/tools/mkromfs.py:174-211 | every entry of a folder holds the right addresses: aligned, and leading to its own name and data |
| `Romfs.ImagePlaces` | rt-thread/tools/mkromfs.py:230-241 | so does every entry of the image, from the root entry down |
| `Romfs.PlacedReads` | rt-thread/tools/mkromfs.py:162-211 | a reader that follows such entries gets the node back |
| `Romfs.ImageRoundTrip` | rt-thread/tools/mkromfs.py:230-241 | reading the image from its root entry recovers the tree, its names and file bytes, for every tree and base address for which it can be written |
| `Romfs.ImageOk` | rt-thread/tools/mkromfs.py:230-241 | it can be written if and only if its first and last address and the sizes of its files are 32-bit numbers |
| `Romfs.WriteNode` | rt-thread/tools/mkromfs.py:162-211 | the recursive code with its loop returns the specified bytes, or the packing error exactly when a field does not fit |
| `Romfs.WriteImage` | rt-thread/tools/mkromfs.py:230-241 | the code returns the specified image or error |

## Left out

- Memheap.MemHeap.Move: the headers of `memheap.c` are fields beside the pool's bytes, not bytes of it; that they lie outside the live payloads is `MemPool.HeadersSparePayloads`.
- SmallMem.SmallMemory.Realloc: the calls to malloc and free inside a moving realloc are one step, although the code releases the heap semaphore between them.
- SlabCode.SlabHeap.Malloc: one step, although the code releases the heap semaphore around the page allocator.
- SlabCode.SlabHeap.Free: only for addresses in use; for others the source relies on assertions.
- Scheduler.BootedInv: the kernel when every CPU runs its first thread and no other thread was started; `rt_system_scheduler_start` itself is not modelled.
- Rotation.SlicesRotate: here and in the other lemmas of `Rotation` about several slices the other CPUs take no step in between; what holds whatever they do is in `Fairness`.
- SchedulerCode.Smp.ExitCritical: the `rt_schedule` at its end is another step.
- SchedulerCode.Smp.Startup: likewise.
- SchedulerCode.Smp.Suspend: the thread's timer, which it stops, is not part of the kernel state.
- SchedulerCode.Smp.Resume: one step, as for callers inside the lock (the IPC objects and timers); a call outside it is three steps, in `Resume`.
- TimerCode.SkipList.Start: removal and insertion are one step, although interrupts are enabled between them.
- `rt_realloc` of `slab.c` (a combination of its malloc and free), `rt_calloc`, and its statistics.
- MutexCode.RtMutex.Take: the 8-bit width of `hold`, and in the kernel the 16-bit width of the nest counts; they are assumed to stay in range.
- TimerCode.SkipList.Check: callbacks that start or stop timers or last longer than a tick; soft timers, whose list works the same way.
- SpsCode.Switch.Ping: a body of a handler is one step, so a command never falls between the pings of a round and its verdict; `irq_out_handler` and the creation and deletion of mailboxes and threads are not modelled.
- Thread deletion and detaching, signals, and periodic threads that are woken inside an IPC wait.
- Semaphores and memory pools, which are simpler than the objects modelled.
- More than 32 priorities, and the uniprocessor variants of the scheduler.
- Context-switch assembly, spin-lock instructions and interrupt masking: taken as primitives, with `rt_cpus_lock_status_restore` run at the switch.
- Drivers, boards, device framework, console, shell, build scripts, the C output of `mkromfs.py`, and `host.c` (any host is allowed).
- Hooks, debug logs, assertions as behaviour, stack checks, and memory-trace names.
