# A model of the kernel's storage, threads and ciphers

Five parts of a small x86 teaching kernel below the hardware, each as the code
has it, with the properties its data structures rest on:

- **Kernel heap and pages** (`Bitmap`, `List`, `Pages`, `HeapState`, `Heap`):
  the first-fit bitmap over bytes, the intrusive list with two sentinels, the
  page allocator whose page bitmap, page table and frame bitmap must agree, and
  the slab allocator on top.
- **Files** (`Sectors`, `BlockMaps`, `Volumes`, `FileWrites`, `FileCuts`,
  `FileLives`, `FileSystem`, `FileRuns`, `Inodes`, `Mounts`, `Entries`,
  `Directories`, `Namespaces`, `Layout`): block maps with 12 direct blocks and
  an index sector, the block bitmap in memory and on the disk, shared by files
  and directories, writing, reading, cutting and zeroing as operations on byte
  sequences, files that come and go, the cache of open inodes over the packed
  inode table, what a mount finds again, directory entries in their sectors,
  whole calls from a name to a file's bytes, and the layout of a partition.
- **Threads** (`Scheduling`, `Preemption`, `Sync`, `Fairness`, `Kernel`): the
  three-level feedback queue with its idle thread and its preemption, semaphores
  that serve in the order of arrival, and recursive locks, as atomic steps and as
  code that updates fields in place.
- **Ciphers** (`Feistel`, `CodeBook`, `Sm4*`, `Sha256*`): SM4-ECB with padding
  (GB/T 32907-2016 and RFC 5652) and streaming SHA-256 (FIPS 180-4), each with
  the published example of its standard.
- **Pipes** (`IoQueue`): the ring buffer of 64 places that holds 63 bytes.

An ASSERT that fails stops the machine.  Where one on the modelled state can
fail, results say so (`Panic`, `Stopped`, `None`), or the contract requires what
it asserts; the others on that state are proved to hold.  ASSERTs on pointers,
on the magic number of a thread's stack and on the lengths of names are not
modelled.

Where the code departs from what its surroundings suggest, the model keeps the
code and says exactly when it is right:

- `file_write` swaps the two blocks it takes for block 12 in its second loop
  (kernel/fs/file.c:491-498). The file system stays in order unless the call
  starts before block 12, finds it missing and ends in it:
  `FileWrites.WriteKeeps` is the guard, `FileWrites.SwapLoses` says what is lost
  in every other case, and `FileWrites.SwapExample` is an instance.
- `file_write` with no bytes, at a multiple of 512 at or after the file's end,
  takes a block that the size does not account for
  (kernel/fs/file.c:401-453): the same guard excludes it.
- `file_write` returns the length less the offset in its block
  (kernel/fs/file.c:540).
- `memset` stops the machine on the size 0 (kernel/memop/string.c:6): so does
  removing nothing inside a file, and hashing a file whose length leaves 55 or
  63 bytes.
- `inode_sync` cuts the inode number to eight bits (kernel/fs/inode.c:65):
  `Inodes.CloseExactly`, `Mounts.SaveExactly` and `Mounts.RemoveExactly` say
  exactly when nothing is lost.
- A nested `lock_release` returns with interrupts off (kernel/thread/sync.c:59-62).
- `pipe_write` takes the capacity of the ring as 64 (kernel/device/pipe.c:50).
- `bitmap_scan` examines one bit after the map (kernel/memop/bitmap.c:43-58).
- `partition_format` tests unsigned words against 0, so that a partition that is
  too small passes (kernel/fs/fs.c:127-134); with 612 or 613 sectors there is no
  block for the root directory.

## Model

| member | source | states |
|---|---|---|
| `Bitmaps.Bitmap.Init` | kernel/memop/bitmap.c:9-11 | All bits of the map are clear and the byte after it is untouched. |
| `Bitmaps.Bitmap.ScanTest` | kernel/memop/bitmap.c:16-20 | The bit asked for, which may be the one after the map. |
| `Bitmaps.Bitmap.Set` | kernel/memop/bitmap.c:61-69 | Exactly one bit of the map changes. |
| `Bitmaps.Bitmap.Scan` | kernel/memop/bitmap.c:22-59 | Exact first fit for runs of any length from 1: the least start of a free run inside the map, or -1 only if not even the bit after the map completes one; a full map stops the machine. |
| `Bitmaps.Bitmap.ScanRun` | kernel/memop/bitmap.c:43-58 | The trailing ASSERT stops the machine exactly when the only run is completed by the bit after the map. |
| `Bitmaps.FullIffNoneFree` | kernel/memop/bitmap.c:24-28 | A map is full if and only if it counts no clear bit. |
| `Bitmaps.ByteIsBits` | kernel/memop/bitmap.c:16-20 | Every byte of the buffer is the sum of the powers of two of its eight bits, the lowest first. |
| `Bitmaps.CountFreeUpdate` | kernel/memop/bitmap.c:61-69 | Taking a clear bit or freeing a set one moves the count of clear bits by exactly one. |
| `Lists.InsertBefore` | kernel/list/list.c:14-25 | On linked nodes, the element enters the chain just before the given one; all links stay mutually inverse. |
| `Lists.RemoveElem` | kernel/list/list.c:41-52 | The element leaves the chain and its links become null. |
| `Lists.List.Push` | kernel/list/list.c:27-32 | The list's sequence gains the element at the front; the sentinels stay. |
| `Lists.List.Append` | kernel/list/list.c:34-39 | The list's sequence gains the element at the end. |
| `Lists.List.Remove` | kernel/list/list.c:41-52 | The list's sequence becomes what Without, the removal the other modules use, makes of it; the element is unlinked afterwards; the tail sentinel is left alone. |
| `Lists.List.Pop` | kernel/list/list.c:54-60 | The first element leaves; on an empty list nothing changes and the tail sentinel is returned. |
| `Lists.List.Find` | kernel/list/list.c:62-75 | Found if and only if the element is on the list or is its tail sentinel. |
| `Lists.List.Len` | kernel/list/list.c:96-104 | The length of the list's sequence. |
| `Lists.List.Empty` | kernel/list/list.c:106-108 | True if and only if the list's sequence is empty. |
| `Lists.WakeFirst` | kernel/thread/sync.c:34-38 | Popping one list and pushing on another moves the element and leaves both lists well formed and disjoint. |
| `Scheduling.PickIsReady` | kernel/thread/thread.c:177-184 | What schedule pops is a ready thread of the highest level that has one, never a sentinel. |
| `Scheduling.SwitchKeeps` | kernel/thread/thread.c:177-290 | Once a thread is ready, the switch leaves exactly one running thread, on no list, and every ready thread once on the list of its priority. |
| `Scheduling.ScheduleKeeps` | kernel/thread/thread.c:158-302 | schedule re-establishes the scheduler's invariant from every state its callers leave, with the idle thread as the last resort. |
| `Scheduling.UnblockIdleKeeps` | kernel/thread/thread.c:313-323 | Afterwards some ready list is not empty. |
| `Scheduling.TickKeeps` | kernel/device/timer.c:27-62 | A timer tick keeps the scheduler's invariant. |
| `Scheduling.BlockKeeps` | kernel/thread/thread.c:304-311 | Blocking keeps the scheduler's invariant. |
| `Scheduling.UnblockKeeps` | kernel/thread/thread.c:325-336 | Waking keeps the scheduler's invariant. |
| `Scheduling.YieldKeeps` | kernel/thread/thread.c:351-360 | Yielding keeps the scheduler's invariant. |
| `Scheduling.StartKeeps` | kernel/thread/thread.c:107-148 | Starting a thread keeps the scheduler's invariant. |
| `Scheduling.ExitKeeps` | kernel/thread/thread.c:366-383 | A thread's death keeps the scheduler's invariant. |
| `Scheduling.RunKeeps` | kernel/thread/thread.c:158-382 | Over every run of ticks, blocks, wakeups, yields, starts and exits: one running thread, every ready thread on the one list of its priority, all others on none. |
| `Scheduling.BlockedStays` | kernel/thread/thread.c:325-336 | A blocked thread stays blocked until it is woken. |
| `Scheduling.NextThreads` | kernel/thread/thread.c:116-117 | No event adds or removes a thread but a start, so that the list of all threads stays right over every event. |
| `Scheduling.NextFrame` | kernel/thread/thread.c:186-268 | No event touches the priority or the ticks of a thread that neither acts nor is woken. |
| `Scheduling.TickDemotes` | kernel/device/timer.c:33-60 | Each tick a thread receives brings the third level one tick nearer, and its level never rises. |
| `Scheduling.FuelRunsOut` | kernel/thread/thread.c:193-228 | Over every run in which the thread just runs, its distance to the third level falls by exactly its own ticks. |
| `Scheduling.DemotionBound` | kernel/thread/thread.c:193-228 | Such a thread is on the third level after 47 ticks of its own. |
| `Scheduling.RunTicks` | kernel/thread/thread.c:88 | Between steps no thread but the idle one has more than 30 ticks, over every run. |
| `Preemption.ScheduleIs` | kernel/thread/thread.c:158-302 | schedule gives the processor to the front of the highest non-empty list, or to the idle thread if all are empty; a running thread goes to the end of the list it is due on; no other thread moves or changes. |
| `Preemption.TickIs` | kernel/device/timer.c:27-62 | A thread of the second or third priority with ticks left is preempted if and only if a ready thread has a smaller level, and waits at the end of its own list with one tick less; without one, thread and lists stay; a used-up quantum puts it at the end of the list below with 15 or 10 ticks. |
| `Preemption.TickOutranked` | kernel/device/timer.c:36-60 | After a tick a ready thread of a smaller level is left waiting exactly in two cases: a first priority thread just demoted while both upper lists were empty, or a running thread with a priority that is none of the three. |
| `Preemption.TickInRun` | kernel/device/timer.c:27-62 | Over every run: each tick does what TickIs says, and after a tick at the second or third priority no ready thread has a smaller level than the running one. |
| `Preemption.BlockIs` | kernel/thread/thread.c:304-311 | The thread is on no list, with the status asked for, and a blocked one with the third priority; the next one due runs. |
| `Preemption.UnblockIs` | kernel/thread/thread.c:325-336 | The woken thread is ready with the first priority and 25 ticks, and the next to run. |
| `Preemption.YieldIs` | kernel/thread/thread.c:351-360 | The thread goes to the end of the first list with its ticks, and the front of that list runs. |
| `Preemption.StartIs` | kernel/thread/thread.c:107-148 | The new thread is at the end of the list of its priority, with as many ticks; nothing else changes. |
| `Preemption.ExitIs` | kernel/thread/thread.c:366-383 | The thread is dead and on no list; the next one due runs. |
| `Synchronization.DownKeeps` | kernel/thread/sync.c:19-30 | One test of sema_down's loop keeps all semaphores and locks in order. |
| `Synchronization.UpKeeps` | kernel/thread/sync.c:32-41 | sema_up wakes a sleeping thread, as thread_unblock asserts, and keeps all semaphores and locks in order. |
| `Synchronization.UnlinkedMoves` | kernel/thread/thread.c:329 | Taking a thread's tag off whatever list it is linked in changes only the waiters of the semaphore it waits for. |
| `Synchronization.MovedKeeps` | kernel/thread/thread.c:325-336 | So does any scheduler event, with a woken thread leaving the waiters it may be on. |
| `Synchronization.AcquireKeeps` | kernel/thread/sync.c:43-54 | lock_acquire keeps every lock's value, holder and nesting depth consistent, on its first test and on later ones. |
| `Synchronization.ReleaseKeeps` | kernel/thread/sync.c:56-68 | lock_release does, nested or outermost. |
| `Synchronization.LockAsserts` | kernel/thread/sync.c:48-63 | The ASSERTs on holder and repeat count hold in every state in order. |
| `Synchronization.DieKeeps` | kernel/thread/thread.c:366-383 | thread_exit wakes the waiting parent and keeps everything in order. |
| `Synchronization.BootedOk` | kernel/thread/thread.c:338-349 | The state thread_init leaves is in order. |
| `Synchronization.DoKeeps` | kernel/thread/sync.c:8-68 | Every step of every thread keeps semaphores and locks in order. |
| `Synchronization.InterleavedKeeps` | kernel/thread/sync.c:8-68 | So does every interleaving of steps. |
| `Synchronization.NoLostWakeup` | kernel/thread/sync.c:19-41 | Over every interleaving from boot: while threads wait, the value is at most the number of threads popped that have not tested again; waiters sleep, on one semaphore only. |
| `Synchronization.ValueCounts` | kernel/thread/sync.c:19-41 | Over every interleaving from boot: value = initial + ups - completed downs, in the eight bits it has. |
| `Synchronization.MutualExclusion` | kernel/thread/sync.c:43-68 | Over every interleaving from boot: at most one thread is between its outermost acquire and release of a lock, it is the holder, and the repeat count is its depth. |
| `Fairness.StepServes` | kernel/thread/sync.c:19-41 | In every step of every thread the one that finds the value 0 joins the end of the waiters, the first waiter leaves when the value is raised, a wake-up from outside takes just its own thread out, and the value moves by one, in eight bits. |
| `Fairness.StepWakes` | kernel/thread/sync.c:32-41 | The waiter that leaves slept until then and sleeps no longer; the one that joins sleeps. |
| `Fairness.StepIs` | kernel/thread/sync.c:8-68 | What every step does to the processor: a waiter gives it up with the third priority, a woken thread is the next to run, a dying one gives it up for good, and nothing else moves. |
| `Fairness.RunServes` | kernel/thread/sync.c:19-41 | Over every interleaving without wake-ups from outside: those who waited at first and then those who joined are those woken and then those who wait at last, in order. |
| `Fairness.FirstComeFirstServed` | kernel/thread/sync.c:19-41 | From boot all who wait have joined, and are woken in the order of joining. |
| `Fairness.WokenInTurn` | kernel/thread/sync.c:19-41 | A thread with n waiters before it is woken by the (n+1)-th up, and each earlier one brings it one place forward. |
| `Fairness.RunCounts` | kernel/thread/sync.c:19-41 | Over every interleaving the value is the one at first plus the ups less the units taken, counted step by step, in eight bits. |
| `Fairness.RunDepth` | kernel/thread/sync.c:43-68 | Over every interleaving a thread's depth in a lock is how often it got the lock less how often it released it. |
| `Fairness.Made` | kernel/thread/sync.c:8-17 | A new semaphore has the value given and no waiter; a new lock has the value 1 and no holder. |
| `KernelEntries.Kernel.ThreadUnblockIdle` | kernel/thread/thread.c:313-323 | The code refines the specification; its ASSERT holds. |
| `KernelEntries.Kernel.PopReady` | kernel/thread/thread.c:177-184 | The code pops the front of the highest non-empty list. |
| `KernelEntries.Kernel.PutCurrentBack` | kernel/thread/thread.c:186-268 | The code refines the specification of what happens to the thread that leaves. |
| `KernelEntries.Kernel.Schedule` | kernel/thread/thread.c:158-302 | schedule in place refines its specification and restores the invariant. |
| `KernelEntries.Kernel.ThreadBlock` | kernel/thread/thread.c:304-311 | thread_block in place refines its specification. |
| `KernelEntries.Kernel.ThreadUnblock` | kernel/thread/thread.c:325-336 | thread_unblock in place refines its specification, the list_remove from a list of waiters included. |
| `KernelEntries.Kernel.ThreadYield` | kernel/thread/thread.c:351-360 | thread_yield in place refines its specification; its ASSERT holds. |
| `KernelEntries.Kernel.ThreadStart` | kernel/thread/thread.c:107-148 | thread_start in place refines its specification; its ASSERTs hold, those on the list of all threads included. |
| `KernelEntries.Kernel.TimerHandler` | kernel/device/timer.c:27-62 | The tick handler in place refines its specification, and does what Preemption.TickIs says: who runs, where the preempted thread waits, and with how many ticks. |
| `KernelEntries.Kernel.SemaDown` | kernel/thread/sync.c:19-30 | One test of the loop refines its specification; a thread that finds 0 is the last of the waiters; interrupts come back only if the thread has left the loop. |
| `KernelEntries.Kernel.SemaUp` | kernel/thread/sync.c:32-41 | sema_up in place refines its specification; the first waiter has left the list and the others are as they were. |
| `KernelEntries.Kernel.LockAcquire` | kernel/thread/sync.c:43-54 | lock_acquire in place refines its specification; done if and only if nested or the semaphore was free. |
| `KernelEntries.Kernel.LockRelease` | kernel/thread/sync.c:56-68 | lock_release in place refines its specification; interrupts are restored if and only if they were off or the release is outermost. |
| `KernelEntries.Kernel.ThreadExit` | kernel/thread/thread.c:366-383 | thread_exit in place refines its specification. |
| `KernelPages.MapKeeps` | kernel/memop/memory.c:195-230 | Mapping one more page keeps page bits, entries and frames in agreement. |
| `KernelPages.MapCleared` | kernel/memop/memory.c:195-230 | Mapping a page and clearing its frame again leaves the frame bitmap as it was. |
| `KernelPages.UnmapKeeps` | kernel/memop/memory.c:468-476 | Unmapping a page keeps the agreement. |
| `KernelPages.FreeUndoesMalloc` | kernel/memop/memory.c:444-480 | mfree_page of what malloc_page returned restores the page bitmap, the frame bitmap and which entries are present. |
| `KernelPages.PtePtrInjective` | kernel/memop/memory.c:185-188 | Two addresses have the same page table entry if and only if they are in the same page. |
| `KernelPages.PoolsDisjoint` | kernel/memop/memory.c:86-106 | The kernel's frames lie below the user's, and those below the end of memory, for every memory size. |
| `KernelPages.Pages.constructor` | kernel/memop/memory.c:133-141 | With all bitmaps cleared, everything agrees. |
| `KernelPages.Pages.VaddrGet` | kernel/memop/memory.c:145-155 | The first fitting run of pages is marked as taken, or nothing changes. |
| `KernelPages.Pages.VaddrRemove` | kernel/memop/memory.c:64-74 | The run's bits are cleared. |
| `KernelPages.Pages.Palloc` | kernel/memop/memory.c:195-204 | The first free frame is taken and its physical address returned. |
| `KernelPages.Pages.MallocPage` | kernel/memop/memory.c:232-250 | Each page of the first fitting run gets a frame of its own; all structures agree afterwards; otherwise nothing changes. |
| `KernelPages.Pages.Pfree` | kernel/memop/memory.c:399-410 | The frame is freed in the pool its address belongs to, and the other pool is left alone. |
| `KernelPages.Pages.UnmapPage` | kernel/memop/memory.c:469-474 | The ASSERTs on the frame's address hold, and the frame and the entry are given back. |
| `KernelPages.Pages.MfreePage` | kernel/memop/memory.c:444-480 | The pages' bits, entries and frames are given back and all agree afterwards. |
| `HeapStates.BlockBack` | kernel/memop/memory.c:56-62 | block2arena undoes arena2block; a block lies inside its page, after the header. |
| `HeapStates.BlockAddress` | kernel/memop/memory.c:56-58 | A block's address is the arena's plus the header plus the index times the size. |
| `HeapStates.LiveInside` | kernel/memop/memory.c:318-397 | A live allocation lies inside the pages of its arena, after the header. |
| `HeapStates.LiveDisjoint` | kernel/memop/memory.c:318-397 | Any two live allocations are disjoint. |
| `HeapStates.FullHasAll` | kernel/memop/memory.c:503-510 | A count that has reached the number of blocks means that every block is on the free list. |
| `HeapStates.PopKeeps` | kernel/memop/memory.c:390-393 | The block popped was not live; counts, free lists and live blocks stay consistent. |
| `HeapStates.WithBlocksMembers` | kernel/memop/memory.c:382-386 | A new arena's blocks are not on the free list before each is appended. |
| `HeapStates.WithBlocksIs` | kernel/memop/memory.c:382-386 | A new arena's blocks follow in the order of their addresses, one size apart. |
| `HeapStates.GrowKeeps` | kernel/memop/memory.c:369-389 | A new arena keeps the heap in order. |
| `HeapStates.PushKeeps` | kernel/memop/memory.c:503-504 | Freeing a block keeps the heap in order. |
| `HeapStates.WithoutBlocksMembers` | kernel/memop/memory.c:505-510 | The blocks not yet removed are still on the free list. |
| `HeapStates.WithoutBlocksIs` | kernel/memop/memory.c:505-510 | With an arena given back exactly its blocks are off the list, and the others keep their order. |
| `HeapStates.ReleaseKeeps` | kernel/memop/memory.c:505-511 | Giving an arena back keeps the heap in order. |
| `HeapStates.LargeKeeps` | kernel/memop/memory.c:345-355 | A large allocation keeps the heap in order. |
| `HeapStates.SmallMade` | kernel/memop/memory.c:369-393 | A new arena whose first block is handed out at once keeps the heap in order, and the block was not live. |
| `HeapStates.WithoutLargeKeeps` | kernel/memop/memory.c:500-501 | Freeing one keeps the heap in order. |
| `HeapStates.FreePagesAreNew` | kernel/memop/memory.c:145-155 | Pages that were free belong to no arena. |
| `KernelHeap.BlockDescInit` | kernel/memop/memory.c:308-316 | Seven classes from 16 to 1024 bytes with 255, 127, 63, 31, 15, 7 and 3 blocks. |
| `KernelHeap.ClassOf` | kernel/memop/memory.c:363-368 | The smallest class that fits. |
| `KernelHeap.PagesNeeded` | kernel/memop/memory.c:345-346 | The pages of a large request hold the header and the bytes, and one less would not; a small one needs a page exactly when its list is empty. |
| `KernelHeap.FreeUndoesGrant` | kernel/memop/memory.c:318-516 | sys_free of what sys_malloc has just handed out restores arenas, live blocks and lists, but that a block from a list is now the last of it. |
| `KernelHeap.Heap.constructor` | kernel/memop/memory.c:174-182 | An empty heap is in order. |
| `KernelHeap.Heap.AppendBlocks` | kernel/memop/memory.c:382-386 | The ASSERT that a new block is not yet listed holds for each block. |
| `KernelHeap.Heap.RemoveBlocks` | kernel/memop/memory.c:505-510 | The ASSERT that each block is listed holds. |
| `KernelHeap.Heap.TakeBlock` | kernel/memop/memory.c:390-393 | The front block leaves the list, is counted and becomes live. |
| `KernelHeap.Heap.SysMalloc` | kernel/memop/memory.c:318-397 | A block that was not live, with all invariants kept: the front block of the list of the smallest class that fits, or if that is empty the first block of an arena in the first free page, or the first fitting run of the fewest pages; what becomes of arenas, lists and pages is exact. NULL or a stop only for the refused sizes or when the page bitmap has no run, and then nothing changes. |
| `KernelHeap.Heap.SysFree` | kernel/memop/memory.c:482-516 | Exactly this allocation stops being live, with all invariants kept: the block goes to the end of its list, unless its arena is all free with it, which then goes with all its blocks and its page; a large allocation's pages go. |
| `KernelHeap.Heap.FreeLarge` | kernel/memop/memory.c:500-501 | A large allocation's pages and frames go back. |
| `KernelHeap.Heap.GiveArenaBack` | kernel/memop/memory.c:504-512 | An arena whose blocks are all free leaves the list and its page and frame go back. |
| `Sectors.WordsOfBytes` | kernel/fs/file.c:316-319 | An array of words written as bytes reads back the same. |
| `Sectors.WordPlaces` | kernel/fs/file.c:316-319 | Each word lies in its four bytes with the lowest first. |
| `Sectors.WordsOfPacked` | kernel/fs/file.c:361-363 | An index sector read back is the table written. |
| `Sectors.PatchedBytes` | kernel/fs/file.c:454-459 | Copying into a block changes exactly the bytes written. |
| `Sectors.WrittenTwice` | kernel/fs/file.c:299-541 | What a write puts into a byte sequence is read back from there; a longer later write at the same place leaves no trace of it; writes to places apart commute, gaps filled with zeros included. |
| `BlockMaps.BitsDetermined` | kernel/fs/file.c:89-111 | The files' blocks and the directories' blocks determine the block bitmap. |
| `BlockMaps.BitsAreFootprints` | kernel/fs/file.c:89-111 | The set bits are, without overlap, the directories' blocks and the files' data blocks and index sectors. |
| `BlockMaps.KeepBlock` | kernel/fs/dir.c:137-151 | A free block taken by a directory belongs to no file, and bitmap and owners still agree. |
| `BlockMaps.Loaded` | kernel/fs/file.c:314-320 | What is loaded from the inode and its index sector is the file's map. |
| `BlockMaps.FileFrame` | kernel/fs/file.c:299-541 | A file whose blocks are untouched keeps its map and its bytes. |
| `Volumes.SyncedSector` | kernel/fs/file.c:122-143 | The copy of one sector of the bitmap, the last one cut short, saves exactly the bits whose number lies in that sector. |
| `Volumes.DirectKeeps` | kernel/fs/file.c:333-346 | A block below 12 is taken, cleared and entered in the inode; no block of another file or of a directory changes. |
| `Volumes.FirstKeeps` | kernel/fs/file.c:351-369 | Block 12 and the index sector are taken and entered. |
| `Volumes.SwappedKeeps` | kernel/fs/file.c:482-500 | In the second loop the two are swapped: memory is right, the index sector on the disk is empty. |
| `Volumes.IndirectKeeps` | kernel/fs/file.c:374-387 | A block above 12 is taken, cleared and entered in the index sector, which also repairs the swapped case. |
| `Volumes.PutKeeps` | kernel/fs/file.c:519-523 | Read, copy, write back changes exactly one block of one file. |
| `Volumes.FreeKeeps` | kernel/fs/file.c:623-626 | Giving a block back keeps bitmap and files in agreement. |
| `FileWrites.KeepsInBlocks` | kernel/fs/file.c:331-526 | The guard in terms of sizes says the same as the one in terms of blocks passed. |
| `FileWrites.WriteSettles` | kernel/fs/file.c:299-541 | When the blocks passed are those the size needs, the file holds the bytes written; all other files and the directories' blocks are unchanged. |
| `FileWrites.NotInOrder` | kernel/fs/file.c:331-526 | A block too many, or an unwritten index sector, leaves the file system out of order. |
| `FileWrites.TakesWhatIsNeeded` | kernel/fs/file.c:324-526 | The blocks taken are those the new size needs if and only if there is a byte to write or the block of the offset is needed; otherwise they are more. |
| `FileWrites.SwapLoses` | kernel/fs/file.c:491-498 | After every write in the excluded case the size claims the bytes, but the index sector names no block from 12 on. |
| `FileWrites.SwapExample` | kernel/fs/file.c:491-498 | The first 6200 bytes of a new file: the inode names an index sector that names no block. |
| `FileCuts.ReadAll` | kernel/fs/file.c:544-596 | The bytes read are the exact slice. |
| `FileCuts.CutMore` | kernel/fs/file.c:623-631 | Each round of the loop gives back one block. |
| `FileCuts.CutDirect` | kernel/fs/file.c:622-636 | Cutting below the index sector's blocks clears the inode's entries and gives the index sector back. |
| `FileCuts.CutIndirect` | kernel/fs/file.c:638-648 | Cutting above them writes the shortened table. |
| `FileCuts.CutSettles` | kernel/fs/file.c:619-657 | The file holds its bytes up to the offset; all other files and the directories' blocks are unchanged. |
| `FileCuts.CutKept` | kernel/fs/file.c:619-657 | Cutting what a write has added gives back the old map. |
| `FileCuts.CutBack` | kernel/fs/file.c:619-657 | Cutting a grown file back to its old size restores the block bitmap exactly. |
| `FileSystems.FileSystem.BlockBitmapAlloc` | kernel/fs/file.c:89-100 | The first free block is taken, for one place of one file. |
| `FileSystems.FileSystem.BitmapSync` | kernel/fs/file.c:122-143 | The bits of the one sector that has the block's bit are copied from memory, and no others. |
| `FileSystems.FileSystem.WithSector` | kernel/fs/file.c:124-142 | The slice copied is that of the sector's number. |
| `FileSystems.FileSystem.LoadBlocks` | kernel/fs/file.c:314-320 | The buffer holds the file's map. |
| `FileSystems.FileSystem.MapFirst` | kernel/fs/file.c:351-369 | The code for block 12 in the first loop enters both blocks in memory and on the disk. |
| `FileSystems.FileSystem.MapFirstSwapped` | kernel/fs/file.c:482-500 | The code for block 12 in the second loop leaves the index sector on the disk empty. |
| `FileSystems.FileSystem.FileWrite` | kernel/fs/file.c:299-541 | The result -1 and no change above 71680 bytes; else the length less the offset in its block, an exact count of the blocks taken, no sector of another file or of a directory changed, and the state in order with the bytes overlaid if and only if the guard on size, offset and length holds. |
| `FileSystems.FileSystem.FileRead` | kernel/fs/file.c:544-596 | The exact slice of the file's bytes, or -1 from its end on. |
| `FileSystems.FileSystem.CutFromDirect` | kernel/fs/file.c:621-636 | The ASSERT on the number of blocks holds; blocks and index sector are given back. |
| `FileSystems.FileSystem.CutFromIndirect` | kernel/fs/file.c:637-648 | The ASSERT on the number of blocks holds; blocks are given back and the table written. |
| `FileSystems.FileSystem.FileRemoveSomeContent` | kernel/fs/file.c:599-684 | -1 from the end on; a removal that reaches the end cuts the file; any other zeroes the range; an empty range inside the file stops the machine; no sector of another file or of a directory changes. |
| `FileSystems.FileSystem.GrowAndCut` | kernel/fs/file.c:599-684 | A write that grows a file, then a cut to its old size, restores the block bitmap exactly and changes no sector of another file or of a directory. |
| `FileSystems.FileSystem.InodeInit` | kernel/fs/inode.c:196-207 | The new file is empty and has no block; every other file keeps its bytes. |
| `FileSystems.FileSystem.RemoveFile` | kernel/fs/fs.c:608-612 | The file is gone, all its blocks and its index sector are free again, and every other file and directory keeps its sectors. |
| `FileSystems.FileSystem.TakeDirBlock` | kernel/fs/dir.c:137-179 | A directory takes the first free block and writes it; no file and no other directory's block changes. |
| `FileSystems.FileSystem.WriteDirBlock` | kernel/fs/dir.c:181-187 | A directory writes a block of its own; no file changes. |
| `FileLives.CreateSettles` | kernel/fs/inode.c:196-207 | A new file keeps the file system in order and all other files as they were. |
| `FileLives.DropSettles` | kernel/fs/inode.c:209-225 | A file that has been cut to nothing can be dropped without losing a block. |
| `FileLives.RemoveFileSettles` | kernel/fs/fs.c:608-612 | Removal frees exactly the blocks the file's size needed and leaves the rest in order. |
| `FileLives.DirTakeSettles` | kernel/fs/dir.c:137-179 | A block taken by a directory was no file's and no directory's, and all files keep their bytes. |
| `FileLives.DirWriteSettles` | kernel/fs/dir.c:181-187 | Writing a directory's block changes no file. |
| `FileRuns.CallRefines` | kernel/fs/file.c:299-684 | Each guarded call, a write, a removal of content, the creation or removal of a file, or a directory's taking or writing a block, does to the store of byte sequences and directory sectors what the operation means. |
| `FileRuns.RunRefines` | kernel/fs/file.c:299-684 | Over every run of guarded calls every state is in order, and the files and the directories' sectors hold what the operations mean. |
| `FileRuns.RunConserves` | kernel/fs/file.c:89-111 | In every state of a run the set bits are exactly the directories' blocks, the files' data blocks and their index sectors, none shared. |
| `FileRuns.EmptyValid` | kernel/fs/fs.c:170-211 | A partition just formatted, with the root directory's block only, is in order. |
| `FileRuns.RunFromEmpty` | kernel/fs/file.c:299-684 | From there every run of guarded calls leaves exactly what its operations mean. |
| `Inodes.DecodeEncode` | kernel/fs/inode.c:69-80 | A record written reads back the same. |
| `Inodes.Locate` | kernel/fs/inode.c:35-54 | Sector, offset and straddling of a record. |
| `Inodes.SlotWritten` | kernel/fs/inode.c:77-85 | Writing one slot, even across two sectors, changes no byte of another. |
| `Inodes.SyncedRecords` | kernel/fs/inode.c:64-87 | inode_sync replaces one record of the table by the cleaned one. |
| `Inodes.FieldPlaces` | kernel/include/inode.h:13-23 | The byte offset of every field of a record. |
| `Inodes.NeverDenied` | kernel/fs/inode.c:75 | Over every run of opening, denying and allowing writes, changing and closing, the write-deny flag never reaches the disk, so that a mount finds every inode free to be written. |
| `Inodes.StoredWell` | kernel/fs/inode.c:65 | The record lands in its own slot, and no other changes, if and only if its number is below 256 (or the contents were there anyway). |
| `Inodes.OpenTransparent` | kernel/fs/inode.c:103-153 | Opening counts, keeps one copy for each number, and changes nobody's view of any inode. |
| `Inodes.CloseCounts` | kernel/fs/inode.c:164-193 | Closing counts down, but for the root, and keeps one copy for each number. |
| `Inodes.CloseTransparent` | kernel/fs/inode.c:164-193 | Closing an inode numbered below 256 changes nobody's view of any inode. |
| `Inodes.CloseExactly` | kernel/fs/inode.c:164-193 | Closing keeps everybody's view if and only if it is not the last close, or the number is below 256, or the table was up to date and nobody sees the slot written. |
| `Inodes.CloseMisplaces` | kernel/fs/inode.c:65 | The last close of a greater number loses its changes and overwrites another slot. |
| `Inodes.ChangeSeen` | kernel/fs/inode.c:103-121 | A change through an open inode is seen at once by everybody, and no other inode changes. |
| `Inodes.InodeCache.InodeSync` | kernel/fs/inode.c:64-87 | The code replaces one record: the slot of the number cut to eight bits has number, size, blocks and other flags of the inode, but no open count, no write-deny flag and no links; no other record changes. |
| `Inodes.InodeCache.InodeOpen` | kernel/fs/inode.c:103-153 | The code refines the specification of opening. |
| `Inodes.InodeCache.InodeClose` | kernel/fs/inode.c:164-193 | The code refines the specification of closing; the last close writes the cleaned record. |
| `Mounts.MountBack` | kernel/fs/fs.c:218-250 | If the table describes every file, a mount finds bitmap and inodes as memory had them. |
| `Mounts.SaveExactly` | kernel/fs/inode.c:64-87 | After a call on one file and its inode_sync the table describes every file again if and only if the number is below 256, or nothing had changed and no file has the number of the slot written. |
| `Mounts.CallSurvives` | kernel/fs/file.c:528-536 | What a call has left in a file numbered below 256 is what a later mount finds. |
| `Mounts.WriteSurvives` | kernel/fs/file.c:299-541 | So after a guarded write a mount finds the bytes written, |
| `Mounts.CutSurvives` | kernel/fs/file.c:599-684 | and after a removal that reaches the end, the bytes before it. |
| `Mounts.FileWriteAndSync` | kernel/fs/file.c:299-541 | file_write to its end: the open inode takes the new size and block numbers and its cleaned record is written; a refused write leaves both alone; no record on the disk denies writing afterwards if none did before. |
| `Mounts.RemoveExactly` | kernel/fs/fs.c:608-612 | After sys_remove of a file the table describes every other file, and no open copy is out of date, if and only if the number is below 256, or the file was empty, or no file has the number of the slot the cut wrote. |
| `Mounts.DeletedGone` | kernel/fs/fs.c:608-612 | The removed file's inode is not open any more and its record is blank; which others are open stays. |
| `Mounts.RemovalSurvives` | kernel/fs/fs.c:608-612 | A mount after the removal of a file numbered below 256 finds all the others, and not that one. |
| `Mounts.FileRemoveAndSync` | kernel/fs/fs.c:608-612 | sys_remove once the name is erased, to its end: the inode is opened, cut and saved, its record is blanked, and it leaves the list of open inodes. |
| `Inodes.ErasedRecords` | kernel/fs/inode.c:209-223 | inode_delete blanks exactly the record of the full number, even across two sectors; the number is not cut to eight bits there. |
| `Inodes.InodeCache.InodeDelete` | kernel/fs/inode.c:209-223 | The code replaces one record by zero bytes. |
| `Entries.DecodeEncode` | kernel/include/dir.h:15-19 | An entry written to its 32 bytes reads back the same. |
| `Entries.FieldPlaces` | kernel/include/dir.h:15-19 | The name, the inode number and the kind lie at the bytes 0, 24 and 28. |
| `Entries.UnpackPatch` | kernel/fs/dir.c:180-187 | 32 bytes copied over one slot of a sector change that entry and none of the 15 others. |
| `Namespaces.ReadsOnce` | kernel/fs/dir.c:35-83 | A name reads as one run of bytes. |
| `Namespaces.CreateNames` | kernel/fs/file.c:145-202 | A new entry for a new file: the name reads as nothing, all other names read as before, and no two regular entries have one file. |
| `Namespaces.RemoveNames` | kernel/fs/fs.c:593-612 | An entry and its file gone: the name is not found, and all other names read as before. |
| `Namespaces.WriteNames` | kernel/fs/file.c:299-541 | A file written: its name alone reads otherwise. |
| `Namespaces.FileCreate` | kernel/fs/file.c:145-202 | file_create from the name to the sectors: the entry is in a sector of the directory, the name reads as an empty file and every other name as before; no two regular entries share a file. |
| `Namespaces.SysRemove` | kernel/fs/fs.c:536-615 | 0 if and only if the directory names a regular file, which then goes with its name while every other name reads as before; otherwise -1 and no change. |
| `Namespaces.WriteNamed` | kernel/fs/file.c:299-541 | A guarded write to a file the directory names: the name reads as the bytes overlaid, every other name as before, and the directory's entries stay. |
| `Namespaces.ReadNamed` | kernel/fs/file.c:544-596 | What is read is the exact slice of what the name reads as. |
| `Directories.OneEntry` | kernel/fs/dir.c:35-83 | A name has at most one entry. |
| `Directories.InsertHolds` | kernel/fs/dir.c:178-186 | Taking a free slot adds exactly that entry. |
| `Directories.EraseHolds` | kernel/fs/fs.c:597-600 | Clearing a slot removes exactly that name. |
| `Directories.Directory.SearchDirEntry` | kernel/fs/dir.c:35-83 | Found if and only if the directory has the name, with its entry. |
| `Directories.Directory.SyncDirEntry` | kernel/fs/dir.c:104-190 | Exactly this entry is added, in the directory's sectors; a block is taken from the bitmap if and only if no slot is free; no file and no other directory's block changes; the slot is the first free one, or the first of the new block; only a reused slot counts in the size, which stays a multiple of an entry's, so that the ASSERT holds. |
| `Directories.Directory.EraseName` | kernel/fs/fs.c:593-606 | Exactly the entry with the name is gone from the directory's sectors; no file and no other directory's block changes. |
| `Layouts.PartitionFormat` | kernel/fs/fs.c:120-154 | The regions follow in order, there is a block for the root directory, the data blocks end inside the partition and the bitmap has a bit for each, if and only if the partition has at least 614 sectors and the estimate does not wrap around; then each region has the fewest sectors that hold it. |
| `Layouts.Estimates` | kernel/fs/fs.c:126-134 | The two-pass estimate never gives too few bits, and wastes no more sectors than a bitmap of the bitmap would take. |
| `Sm4Functions.TauBytes` | kernel/crypto/sm4.c:249-256 | Each byte of the word is the S-box's value at that byte. |
| `Sm4Functions.LPrimeBits` | kernel/crypto/sm4.c:258-261 | Bit i is the sum of bits i, i - 13 and i - 23. |
| `Sm4Functions.TIsLTau` | kernel/crypto/sm4.c:243-247 | For every word the four tables give the map of section 6.2 of GB/T 32907-2016: the S-box on each byte, then the sum of the rotations by 0, 2, 10, 18 and 24; all 1024 entries are checked. |
| `Sm4.KeySchedule` | kernel/crypto/sm4.c:268-285 | The round keys are the key-expansion trace of section 7.3 of GB/T 32907-2016. |
| `Sm4Example.PublishedKeys` | kernel/crypto/sm4.c:268-285 | For the key of the standard's example the 32 round keys are the published ones. |
| `Sm4Example.PublishedBlock` | kernel/crypto/sm4.c:287-316 | And the block of the example becomes the published one. |
| `Sm4.AroundReversible` | kernel/crypto/sm4.c:287-347 | For every function T, each round can be undone. |
| `Feistel.TraceBackwards` | kernel/crypto/sm4.c:318-347 | Running the rounds with reversed keys on the reversed state retraces them, for any number of rounds. |
| `Feistel.CryptInverts` | kernel/crypto/sm4.c:287-347 | Decryption of an encrypted state gives it back, for every key array. |
| `Sm4.CryptBlockInverts` | kernel/crypto/sm4.c:287-347 | And at the level of the 16 bytes of a block. |
| `Sm4.Encrypt` | kernel/crypto/sm4.c:287-316 | The code encrypts the block in place, and nothing else. |
| `Sm4.Decrypt` | kernel/crypto/sm4.c:318-347 | The code decrypts a block into another buffer. |
| `Sm4.Padding` | kernel/crypto/sm4.c:349-356 | The padding of section 6.3 of RFC 5652, or 0 if the buffer is too small. |
| `Sm4.Unpadding` | kernel/crypto/sm4.c:358-366 | The length without the padding, or 0. |
| `CodeBook.UnpadPad` | kernel/crypto/sm4.c:349-366 | Unpadding undoes padding, for every length. |
| `CodeBook.PadBytes` | kernel/crypto/sm4.c:349-356 | Every byte added is the number of bytes added. |
| `CodeBook.EcbAt` | kernel/crypto/sm4.c:378-382 | Each block is transformed by itself, in its place. |
| `CodeBook.EcbInverts` | kernel/crypto/sm4.c:378-392 | Block by block, inverse functions undo one another. |
| `Sm4.EcbEncrypt` | kernel/crypto/sm4.c:368-382 | The status codes, and padded data encrypted block by block in place. |
| `Sm4.EcbDecrypt` | kernel/crypto/sm4.c:384-398 | The status codes, and data decrypted block by block in place with the length without padding. |
| `Sm4.RoundTrip` | kernel/crypto/sm4.c:368-398 | Decryption recovers the data and its length, if and only if there is at least one byte. |
| `Sm4.ThereAndBack` | kernel/crypto/sm4.c:368-398 | The key schedule, the encryption and the decryption run on one buffer with the kernel's tables: a message of at least one byte comes back with its length, an empty one is refused, and what lies behind is untouched. |
| `Sm4.Recover` | kernel/crypto/sm4.c:384-398 | The decryption of an encrypted message, for any reversible round. |
| `Sha256Functions.ChChooses` | kernel/crypto/sha256.c:10 | Ch takes the second word's bit where the first has 1, and the third's where it has 0. |
| `Sha256Functions.MajVotes` | kernel/crypto/sha256.c:11 | Maj takes the bit of any two words that agree. |
| `Sha256Functions.RotrTurns` | kernel/crypto/sha256.c:8 | The rotations of the sigmas turn the word as a ring of 32 bits. |
| `Sha256Functions.MacrosAgree` | kernel/crypto/sha256.c:8-15 | The kernel's macros and the assignments of its rounds, written down for themselves, are the functions of sections 4.1.2 and 6.2.2 of FIPS 180-4. |
| `Sha256Example.AbcDigest` | kernel/crypto/sha256.c:91-166 | The hash of "abc" is the published digest. |
| `Sha256Core.ExpandLoop` | kernel/crypto/sha256.c:50-70 | The message schedule. |
| `Sha256Core.RoundLoop` | kernel/crypto/sha256.c:70-81 | The 64 rounds. |
| `Sha256Core.Transform` | kernel/crypto/sha256.c:50-89 | The compression of section 6.2.2 of FIPS 180-4. |
| `Sha256.PaddedBlocks` | kernel/crypto/sha256.c:133-143 | The one or two last blocks are those of the padding of section 5.1.1 of FIPS 180-4. |
| `Sha256.FinishFold` | kernel/crypto/sha256.c:133-153 | What is left and the padding finish the one-shot hash. |
| `Sha256.LengthBytes` | kernel/crypto/sha256.c:144-152 | The eight bytes stored are the length in bits, big endian. |
| `BigEndianWords.WordSum` | kernel/crypto/sha256.c:56-58 | A word is the sum of its four bytes, the first counting most. |
| `Sha256.Context.Update` | kernel/crypto/sha256.c:119-128 | A chunk's whole blocks are hashed and the rest is kept. |
| `Sha256.Context.Finish` | kernel/crypto/sha256.c:133-160 | The hash of all that was read, or a stop exactly for lengths that leave 55 or 63 bytes. |
| `Sha256.HashFile` | kernel/crypto/sha256.c:91-166 | Streaming by 1024-byte reads gives the FIPS 180-4 hash of the file (less its digest, if marked), for every length but those of 55 and 63 modulo 64, which stop the machine. |
| `IoQueues.IoQueue.PutChar` | kernel/device/ioqueue.c:58-70 | A byte enters at the end unless 63 are queued. |
| `IoQueues.IoQueue.GetChar` | kernel/device/ioqueue.c:40-56 | The oldest byte leaves unless none is queued. |
| `IoQueues.IoQueue.Length` | kernel/device/ioqueue.c:72-80 | The number of bytes queued, across the wrap-around. |
| `IoQueues.IoQueue.PipeRead` | kernel/device/pipe.c:28-43 | The oldest bytes, as many as asked or queued; it never blocks. |
| `IoQueues.IoQueue.PipeWrite` | kernel/device/pipe.c:45-59 | All bytes enter in order; it blocks if and only if they are more than 63 less the number queued. |

## Left out

- Port I/O, the disk's command sequences, interrupts, boot code, context switching, fork, page-directory copying, ELF loading, the shell and printing: hardware effects and user interface. The disk is a sequence of sectors and a step with interrupts off is atomic.
- The user's half of the page allocator and heap: the same code over another bitmap and another frame pool; that frames of the two pools differ is `KernelPages.PoolsDisjoint`.
- A kernel page whose page directory entry is absent: the model takes all directories of the kernel heap as present.
- Too few free frames or blocks: `bitmap_scan` stops the machine first, so enough are required, and the exact number needed is part of the contracts. A full page bitmap is modelled.
- `Bitmaps.Bitmap.Scan`: says nothing for a run of length 0, which no caller asks for.
- `KernelHeap.Heap.SysMalloc`: what memory blocks contain, and so the zeroing of pages and blocks, is not modelled, only which addresses are handed out.
- Sums of offset and length that wrap around 32 bits in the file operations: the contracts require them not to.
- `FileSystems.FileSystem.BlockBitmapAlloc`: the block bitmap is a sequence of bits on which the scan for one bit is the first clear one; that the byte buffer refines it is `Bitmaps.Bitmap.Scan`.
- Several sector-sized buffers (`io_buf`) are values here: what a call leaves in a scratch buffer is not modelled.
- `FileSystems.FileSystem.FileWrite`: ends before the write-back of the inode; `Mounts.FileWriteAndSync` is the call with it. The file's size and block numbers are then held twice, in the file system and in the cache of open inodes, and `Mounts.InCache` says that they agree.
- `FileSystems.FileSystem.FileRemoveSomeContent`: ends before the write-back of the inode, which is the same as that of a write; `Mounts.CutSurvives` has the state after it.
- `FileSystems.FileSystem.RemoveFile`: begins after the name is erased, which is `Directories.Directory.EraseName`, and ends before the record is zeroed, which `Mounts.FileRemoveAndSync` has; the inode bitmap and the choice of a number by `FileSystems.FileSystem.InodeInit` are left out.
- `Mounts.MountBack`: which inodes exist is taken from memory, because the inode bitmap is not modelled.
- `Namespaces.FileCreate`: the choice of the inode number, the inode bitmap, the writing of the two inode records, the table of open files, and the roll-back when memory or files run out; the number is a parameter and must be free.
- `Namespaces.SysRemove`: the path is already split: the call has the last directory and the name in it. It has the file's bytes and blocks; the inode records are `Mounts.FileRemoveAndSync`.
- `Namespaces.WriteNamed`: the search for the name, which is `Directories.Directory.SearchDirEntry`, comes before it, and the write-back of the inode after it; so for `Namespaces.ReadNamed`.
- `FileSystems.FileSystem.TakeDirBlock`: the entry of the block's number in the directory's inode, which is `Directories.Directory.AddBlock`; which directory a block belongs to is recorded in that directory alone, and no directory gives a block back: dir_delete frees them by recursion, which is left out below.
- Write-deny exclusivity, file descriptors and their sharing after fork: file_close clears the flag for any closer, so that no single-writer property holds.
- `Inodes.InodeCache.InodeOpen`: an inode whose record does not carry its own number is outside the transparency results; the caller opens numbers that have been written.
- Directories that need the index sector, names of 24 characters (which leave no terminator), recursive deletion and the size of directories beyond what `SyncDirEntry` states: not implemented consistently. search_dir_entry gives one of its two buffers back twice when it finds the name and keeps the other (kernel/fs/dir.c:66-71); buffers are not modelled there.
- Marking the bits of the block bitmap past the end of the partition (kernel/fs/fs.c:177-186): the bitmap's domain is the real blocks.
- `KernelEntries.Kernel.SemaDown`: is one test of the loop; where the thread sleeps, the steps of other threads come between two tests. Interrupt flags of threads that are switched away are not tracked.
- The wait of the ring buffer's producer and consumer (kernel/device/ioqueue.c:28-32) is outside of any lock; put and get are atomic here and report that they would block.
- `KernelEntries.Kernel.ThreadStart`: the choice of a page and of a pid; and the freeing of a dead thread's pages, by which it leaves the list of all threads.
- `Sm4.Padding`: lengths whose sum with 16 wraps around 32 bits; no buffer could hold such a message and its padding.
- `Sm4.EcbEncrypt`: the same lengths.
- The ready lists and waiters of `Kernel` and the free lists of `Heap` are sequences, changed by what `Lists.List.Push`, `Append`, `Pop` and `Remove` do to a list's sequence; the linked elements inside threads and blocks are not composed with them, but for `Lists.WakeFirst`.
- The key's secrecy, and any other cryptographic strength.
