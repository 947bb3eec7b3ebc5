# Verification of the xv6 threads, file system, memory and shell code

A Dafny model of the parts of this repository (an xv6 kernel with threads, parking and user-level
synchronisation) that carry the most state, and proofs of what they are for.
`dafny verify dfyconfig.toml` checks the whole project.

The project has three groups.

**Threads and processes.** `ParkFlags` and `Handshake` describe setpark, park and unpark under
spinlocks, one atomic step at a time; `PidQueue` is the linked queue in place. `SyncLib` is the code
of the mutex and the condition variable as a state machine over every interleaving of its steps.
`Monitor` is an atomic specification of both (FIFO locks with direct hand-off, FIFO condition
variables), `Refinement` proves that the code refines it, and `Clients` carries invariants of client
programs from the specification to all runs on the real steps. `Discipline`, `Semaphores` and
`Counting` do so for the semaphore, down to an atomic counting semaphore; `BufferSem` and `BufferCv`
for the two bounded buffers, with any number of threads. `ProcTable` has fork, clone, exit, wait, join,
sleep, wakeup, kill and the parking calls on the process table.

**Storage and memory.** `Blocks`, `FsCore`, `Files`, `FileMap`, `FileBytes`, `FileWrite`, `FileTrunc`
and `FileSys` are the block and inode layer: one byte sequence per file over a bitmap, direct and
indirect blocks, with an ownership map that makes every block metadata, part of one file, or free.
`DirEntries` and `Directory` make directories finite maps; `Mkfs` builds the first image. `BufferRing`
and `BufferCache` are the buffer cache, `PipeBuffer` and `PipeRuns` the pipe, `Heap` the user-level
allocator, `PagePool` and `VirtualMemory` the page tables over the pool of physical pages.

**Languages.** `ShellTokens`, `ShellGrammar`, `ShellRoundTrip` and `Shell` are the shell's parser,
against a printer and in place on its buffer; `Grep` is the matcher against a declarative meaning of
patterns.

How to read it. A step that a spinlock, the pipe's lock or the process-table lock makes indivisible is
one step of a state machine; code that updates arrays, lists or blocks in place is a class with those
fields, and its methods are proved against functions or predicates on values. Panics and -1 results are
outcomes, except where a precondition says what a caller must never do. What the clock, sbrk, the disk
and the scheduler choose is a parameter or an arbitrary choice of step. Integers are unbounded, and 32-bit
wrap-around is written out where the source meets it: file offsets, pipe counters and the unit count of
malloc.

Where the code differs from what it promises:

- A failed setupkvm keeps the pages it has taken (`VirtualMemory.Vm.Setupkvm`); the promise that a failure
  restores the free pages holds for it exactly when none were free. `VirtualMemory.SetupShort` is a pool of
  one to twelve pages on which they are lost.
- The size round-up of mkfs keeps the image in order exactly when the directory does not end on a block
  boundary (`Mkfs.RoundUp`, `Mkfs.Image.RoundUp`). `Mkfs.RoundUpHole` builds a root directory of 32 entries
  with the steps of mkfs, which then gets a hole.
- balloc scans whole bitmap blocks: its answer lies below the end of the image exactly when a block is free
  (`FileSys.Disk.Balloc`). `Mkfs.FullImage` is a full image on which the answer lies past the end. writei
  completes exactly when the blocks it needs are free below the end.
- The unit count of malloc wraps for requests within seven bytes of 2^32 (`Heap.UnitsEnough`).
- unpark looks one entry past the table exactly when no entry has the pid (`ProcTable.UnparkIs`): the test for
  a null pointer that is to catch it never fires (`ProcTable.Kernel.FindPid`). `ProcTable.UnparkMiss` is such
  a call; `SyncLib.InvSafe` proves that the library never makes one.
- isParked is to say that a process is asleep because it is parked (kernel/proc.h:78). An operation keeps
  this true exactly when it is not a kill of a parked process (`ProcTable.FlagStep`); `ProcTable.KilledParked`
  is a run after which it is false.
- clone names its caller as the parent before it can fail, and does not take this back. With nothing to reap,
  wait and join sleep if and only if there is a child, exactly when there is a child or no slot of a
  failed clone (`ProcTable.SleepsForNobody`). `ProcTable.JoinsNobody` is a run after which join sleeps with no
  other process in the table: clone fails when the page of stack that it is given does not lie within memory.
- `>>` and `>` give the same redirection, so the printer writes `>` for both.

## Model

| member | source | states |
|---|---|---|
| `PidQueue.Queue.constructor` | user/pidqueue.c:6-11 | a new queue is well formed and empty |
| `PidQueue.Queue.IsEmpty` | user/pidqueue.c:51-57 | tells exactly whether the sequence of pids is empty |
| `PidQueue.Queue.Add` | user/pidqueue.c:35-49 | appends the pid at the end of the sequence; the linked list stays well formed, and the old cells stay where they were |
| `PidQueue.Queue.Remove` | user/pidqueue.c:13-33 | takes the first pid off and leaves the rest in order; an empty queue gives the error pid and stays empty |
| `Handshake.MutualExclusion` | user/spinlock.c:11-32 | no two threads hold the same spinlock |
| `Handshake.SetParkInv` | kernel/proc.c:539-557 | announcing a park keeps the handshake invariant: the flags of every thread fit the place where it is, queues have no repeats, an unpark on its way names a thread that waits for it |
| `Handshake.ParkInv` | kernel/proc.c:560-600 | parking keeps the handshake invariant, whether it sleeps or uses up an unpark that came first |
| `Handshake.UnparkInv` | kernel/proc.c:621-664 | an unpark keeps the handshake invariant: it is delivered to the announced or sleeping thread and not lost |
| `Handshake.ReturnInv` | kernel/proc.c:592-599 | a woken thread that returns from park keeps the handshake invariant |
| `Handshake.EnqueueInv` | user/pidqueue.c:35-49 | a thread that enters a queue under its spinlock keeps the handshake invariant |
| `Handshake.DequeueInv` | user/pidqueue.c:13-33 | taking the first thread off a queue keeps the handshake invariant and makes it the target of the unpark that follows |
| `SyncLib.InvSafe` | user/mutex.c:33-43 | in every state of the invariant no enabled step takes a pid from an empty queue, and the pid given to unpark is that of a live thread whose park is announced or done, so the branch that refuses it is never taken |
| `SyncLib.StepInv` | user/condvar.c:22-66 | every atomic step of every thread in mutex_lock, mutex_unlock, cv_wait, cv_signal and cv_broadcast keeps the invariant of mutexes, queues, spinlocks and park flags |
| `SyncLib.CallInv` | user/mutex.c:14-43 | beginning any library call from outside keeps the invariant |
| `SyncLib.StepMutex` | user/mutex.c:14-43 | a step keeps the mutex a FIFO lock (its flag tells whether it is owned, the arrivals are the grants followed by the queue, the last grant is the owner) and its logs only grow |
| `SyncLib.TraceInv` | user/mutex.c:14-43 | over every run the order of service of a mutex (grants made, then the queue) only grows at its end and the grants are a prefix of the arrivals through the guard: first come, first served, nobody overtakes |
| `SyncLib.NoLostUnpark` | kernel/proc.c:539-664 | while the spinlock of its queue is free, a thread between queue_add and the return of park is once in that queue with its park announced or done, or out of it with an unpark pending, or awake; it is in no other queue |
| `SyncLib.Stuck` | user/condvar.c:22-66 | if no thread can move, all spinlocks are free and every thread inside the library sleeps in the queue it waits on |
| `Monitor.StepInv` | user/condvar.c:22-66 | the atomic specification (FIFO locks with direct hand-off, FIFO condition variables) keeps its own invariant |
| `Refinement.StepRefines` | user/condvar.c:22-66 | every step of the library is one atomic step of the specification by the same thread, or is invisible to it |
| `Refinement.CallRefines` | user/mutex.c:14-43 | beginning a call corresponds to announcing the operation in the specification |
| `Refinement.InitRefines` | user/mutex.c:5-12 | freshly initialised mutexes and condition variables correspond to the initial state of the specification |
| `Refinement.StuckRefines` | user/mutex.c:14-31 | a thread that cannot move is outside the library or blocked in the specification too |
| `Clients.MoveRefines` | user/semaphore.c:17-33 | a program running on the library simulates the same program on the atomic specification |
| `Clients.Transfer` | user/semaphore.c:17-33 | what is inductive for a program on the specification holds in every state of every run on the library, for every interleaving |
| `Discipline.LibraryStep` | user/condvar.c:22-39 | a library step keeps the discipline that a thread owns a mutex exactly where its program counter says so |
| `Discipline.PoolStep` | user/condvar.c:41-53 | a library step moves pending wake-ups only by delivering a signal, from the signaller to the waiter it takes off the queue |
| `Semaphores.SemaphoreRuns` | user/semaphore.c:17-33 | in every run the value is the initial value plus posts minus completed waits, no wait completes on a value of zero or less, and while somebody is queued the value is at most the number of wake-ups under way |
| `Semaphores.NoStrandedWaiter` | user/semaphore.c:17-33 | when no thread can move any more, every thread has finished or sleeps on a semaphore whose value is zero or less |
| `Counting.MoveCounts` | user/semaphore.c:17-33 | each move of the semaphore code is one atomic step of a counting semaphore by the same thread, or invisible |
| `Counting.CountingRuns` | user/semaphore.c:17-33 | whatever is inductive for atomic counting semaphores holds in every state of every run on the library |
| `BufferSem.NoOverrun` | user/part4-sem.c:20-55 | a store finds a free slot and a load finds an item: the ring neither overruns nor underruns |
| `BufferSem.CountsStep` | user/part4-sem.c:35-55 | the counts of the three semaphores plus the operations under way stay equal to the capacity and to one |
| `BufferSem.BufferRuns` | user/part4-sem.c:20-55 | for any number of producers and consumers, in every run, the values removed are a prefix of the values inserted, at most the capacity is outstanding, and the semaphore counts fit |
| `BufferSem.BufferStops` | user/part4-sem.c:35-55 | a run halts only if everybody has finished, or the buffer is full and only producers are left asleep, or it is empty and only consumers are left asleep |
| `BufferCv.BlockedExactly` | user/part4-cv.c:36-62 | the index tests of produce and consume tell full and empty exactly |
| `BufferCv.BufferRuns` | user/part4-cv.c:20-62 | in every run the values removed are a prefix of those inserted, and while a consumer (producer) is queued there are no more items (free slots) than wake-ups under way |
| `BufferCv.BufferStops` | user/part4-cv.c:36-62 | a run halts only with every thread finished or asleep for good reason: a producer on a full ring, a consumer on an empty one |
| `ProcTable.ExitInv` | kernel/proc.c:263-301 | exit by any process but init keeps the process-table invariant: no process sleeps in wait or join beside a zombie it could reap, everybody but init has a live parent, pids are unique, nobody is reaped twice, an unpark is pending only for an announced park, and a process asleep in park can be found by unpark |
| `ProcTable.WaitInv` | kernel/proc.c:305-397 | a pass of wait or join keeps the invariant; it reaps only a zombie child of the right kind, fails exactly when there is nothing to wait for, and otherwise sleeps with no zombie to reap |
| `ProcTable.AllocInv` | kernel/proc.c:32-72 | giving out a process slot and a pid keeps the invariant |
| `ProcTable.PublishInv` | kernel/proc.c:155-258 | making a forked or cloned process runnable keeps the invariant |
| `ProcTable.DropInv` | kernel/proc.c:51-54 | giving back a slot that was not published, because there was no kernel stack, no memory for a fork, or no room for the stack of a clone, keeps the invariant |
| `ProcTable.UnparkInv` | kernel/proc.c:621-664 | unpark of any pid keeps the invariant |
| `ProcTable.WakeInv` | kernel/proc.c:519-537 | wakeup on any channel keeps the invariant |
| `ProcTable.RunInv` | kernel/proc.c:263-397 | the invariant holds in every state of every run from boot, over exit, wait, join, fork and clone with their failures, dispatch, yield, sleep, wakeup, kill, setpark, park and unpark |
| `ProcTable.UnparkIs` | kernel/proc.c:621-664 | for any table and pid: unpark looks behind the table exactly when no entry has the pid, otherwise changes at most one entry, which has that pid, as its flags say, and returns 0 exactly when it woke somebody and the pid is not -1 |
| `ProcTable.UnparkMiss` | kernel/proc.c:633-641 | on a new table, unpark of a pid that nobody has looks behind the table |
| `ProcTable.UnparkWakes` | kernel/proc.c:602-664 | in every state of the invariant, unpark wakes a process that is asleep in park, changes nobody else and returns 0 |
| `ProcTable.ParkSleeps` | kernel/proc.c:560-600 | a process asleep in park stays asleep through every operation of every process except an unpark of its pid and a kill of it |
| `ProcTable.FlagStep` | kernel/proc.h:78 | an operation keeps isParked equal to being asleep in park exactly when it is not a kill of a parked process |
| `ProcTable.FlagRuns` | kernel/proc.h:78 | in every state of every run from boot that kills no parked process, isParked says exactly who is asleep in park |
| `ProcTable.KilledParked` | kernel/proc.c:670-690 | a run from boot after which a killed process is runnable with isParked set |
| `ProcTable.SleepsForNobody` | kernel/proc.c:346-397 | with nothing to reap, wait and join sleep if and only if there is a child, exactly when there is a child or no slot that a failed clone has left in the name of the caller |
| `ProcTable.StaleStep` | kernel/proc.c:200-258 | an operation keeps every slot without a process free of a parent exactly when it is not a failed clone |
| `ProcTable.WaitRuns` | kernel/proc.c:305-397 | after every run from boot without a failed clone, wait and join with nothing to reap sleep exactly when there is a child |
| `ProcTable.JoinsNobody` | kernel/proc.c:253-257 | a run from boot after which join sleeps with no other process in the table |
| `ProcTable.Kernel.Wakeup1` | kernel/proc.c:519-527 | the table scan makes exactly the processes asleep on the channel runnable |
| `ProcTable.Kernel.ExitProc` | kernel/proc.c:263-301 | the loop over the table computes the specified new table; it panics exactly for init |
| `ProcTable.Kernel.Reap1` | kernel/proc.c:305-397 | one pass of the scanning loop computes the specified result and table, for wait and for join |
| `ProcTable.Kernel.AllocProc` | kernel/proc.c:32-72 | the scan takes the first unused slot and the next pid; without a page for the kernel stack the slot is given back and keeps the pid |
| `ProcTable.Kernel.SetParkProc` | kernel/proc.c:539-557 | only the caller's flag changes, and it succeeds exactly when no unpark is pending and no park is announced |
| `ProcTable.Kernel.ParkProc` | kernel/proc.c:560-600 | the caller sleeps exactly when no unpark is pending, and its flags are cleared as specified |
| `ProcTable.Kernel.FindPid` | kernel/proc.c:632-641 | the search ends at the first entry with the pid, and behind the table exactly if there is none; the pointer is never null |
| `ProcTable.Kernel.Unpark1` | kernel/proc.c:604-617 | wakes the first parked sleeper with the pid and returns its pid; -1 and no change if there is none |
| `ProcTable.Kernel.UnparkProc` | kernel/proc.c:602-664 | for any pid and table: the new table and the result are those of the specification, which UnparkIs, UnparkWakes and UnparkInv are about |
| `Blocks.BitOps` | kernel/fs.c:64-71 | setting or clearing a bit of a bitmap block changes that bit and no other |
| `Blocks.WordOps` | kernel/fs.c:336-341 | storing a word of an indirect block changes that word and no other, and reads back |
| `FsCore.OneSlot` | kernel/fs.c:319-347 | no block is at two places in inodes and indirect blocks |
| `FsCore.MarkInv` | kernel/fs.c:53-76 | marking a free block keeps block ownership; the block is all zero, and a bit past the last block harms nothing |
| `FsCore.ClearInv` | kernel/fs.c:78-97 | a block on its way to be freed is marked, so the panic for freeing a free block is out of reach; freeing it keeps block ownership |
| `FsCore.LinkInv` | kernel/fs.c:325-341 | linking a fresh zero block into an empty slot keeps block ownership and changes that slot only |
| `FsCore.UnlinkInv` | kernel/fs.c:359-376 | dropping an address leaves exactly the blocks it led to without a place |
| `Files.AllocSlot` | kernel/fs.c:325-341 | allocating a block for an empty slot takes one block from the free ones and is not visible in the bytes of any file |
| `FileSys.Disk.Balloc` | kernel/fs.c:52-76 | marks the first clear bit of the whole bitmap blocks that it scans, which is a block of the image exactly when one is free; panics exactly if all bits are set |
| `FileSys.Disk.Bfree` | kernel/fs.c:78-97 | zeroes the block and clears its bit; panics exactly when the bit is clear, with the block zero |
| `FileSys.Disk.Bmap` | kernel/fs.c:317-347 | returns the address of the block, allocating exactly the empty slots on the way; comes back exactly when the block is in range and enough blocks are free; no file reads differently |
| `FileSys.Disk.Readi` | kernel/fs.c:393-418 | returns exactly the slice of the file, -1 exactly for an offset past the end or a range that wraps, and changes nothing: reading allocates no block |
| `FileSys.Disk.Writei` | kernel/fs.c:420-451 | refused exactly for an offset past the end or a range that wraps; completes exactly when the blocks it needs are free, and then the file is overwritten or extended, cut at the largest file, every other file is unchanged and exactly the needed blocks are gone |
| `FileSys.Disk.Itrunc` | kernel/fs.c:349-380 | the file is empty, exactly its blocks have become free, every other file is unchanged and the invariant holds |
| `FileWrite.ProgressStep` | kernel/fs.c:438-444 | one round of the write loop writes the next bytes of the file and no other byte of any file, across block boundaries and the direct/indirect split |
| `FileWrite.ProgressStop` | kernel/fs.c:438-444 | when the loop runs out of blocks, the write needed more blocks than were free |
| `FileBytes.WriteDone` | kernel/fs.c:446-450 | after the loop the contents are the old ones overwritten or extended, and the file has no hole and reads as zero past its end |
| `FileTrunc.CutDirect` | kernel/fs.c:359-364 | freeing a direct block and clearing its address keeps ownership and gives exactly that block back |
| `FileTrunc.IndirectEnd` | kernel/fs.c:366-376 | after the entries, freeing the indirect block itself completes the truncation |
| `DirEntries.Strncmp` | kernel/string.c:54-62 | is zero exactly for names that are kept alike in fourteen bytes |
| `DirEntries.Strncpy` | kernel/string.c:64-75 | gives the name cut to fourteen bytes and filled up with NUL |
| `DirEntries.EntryAdded` | kernel/fs.c:517-520 | a new entry adds its binding to the directory map and changes no other |
| `Directory.Dirlookup` | kernel/fs.c:461-493 | agrees with the directory map, although it scans whole blocks past the size of the directory; the offset is that of the entry |
| `Directory.Dirlink` | kernel/fs.c:495-523 | fails exactly when the name is bound; panics exactly when it is not bound, no entry is free and the directory cannot grow; otherwise adds that binding and no other, and every other file is unchanged |
| `Mkfs.Image.constructor` | tools/mkfs.c:67-95 | an empty image satisfies the kernel's invariant once its bitmap is written |
| `Mkfs.Image.Ialloc` | tools/mkfs.c:296-308 | a new inode is empty, no file changes, and the invariant to be holds |
| `Mkfs.Image.Iappend` | tools/mkfs.c:328-375 | the data is appended, no other file changes, exactly the needed blocks are taken in order, and the invariant to be holds |
| `Mkfs.AppendTight` | tools/mkfs.c:328-375 | an append leaves no file with a block past its size |
| `Mkfs.Image.Balloc` | tools/mkfs.c:310-324 | with the bitmap written, the image satisfies the kernel's invariant |
| `Mkfs.RoundUp` | tools/mkfs.c:188-193 | rounding up the size of a file that has no block past its size keeps the whole image, and that file, in order exactly when the size is not a multiple of the block size |
| `Mkfs.Image.RoundUp` | tools/mkfs.c:188-193 | the image stays valid exactly when the directory does not end on a block boundary; it then reads as before with zeros behind, and every other file is unchanged |
| `Mkfs.RoundUpNames` | tools/mkfs.c:188-193 | the zeros behind the entries of a rounded directory bind no name: it is the same map as before |
| `Mkfs.RoundUpHole` | tools/mkfs.c:111-193 | a root directory of 32 entries in an image of the dimensions of mkfs, built with its own steps: rounding its size leaves a hole |
| `Mkfs.FullImage` | kernel/fs.c:52-76 | an image whose last block went to a file: balloc returns the number behind the last block |
| `Heap.Allocator.constructor` | user/umalloc.c:21-24 | before the first call the heap is empty |
| `Heap.Allocator.Search` | user/umalloc.c:36-38 | the walk around the ring ends at the last free block before the given address |
| `Heap.Allocator.Free` | user/umalloc.c:26-77 | exactly the units of the block go from live to free; the free list stays one address-sorted cycle without touching blocks, other live blocks keep their headers |
| `Heap.Allocator.Morecore` | user/umalloc.c:79-95 | fails exactly when sbrk does; otherwise exactly the new units are added, and the block at freep or the one after it is large enough |
| `Heap.Allocator.Malloc` | user/umalloc.c:97-140 | terminates; fails exactly when no free block fits and sbrk fails; otherwise returns a new live block with at least the requested bytes, growing the heap only when nothing fits, and at most once |
| `Heap.ReleaseInv` | user/umalloc.c:39-49 | putting a block back, with or without merging on either side, keeps the heap invariant |
| `Heap.ExactInv` | user/umalloc.c:116-118 | unlinking a block of exactly the size keeps the heap invariant |
| `Heap.SplitInv` | user/umalloc.c:119-123 | cutting the tail off a larger block keeps the heap invariant |
| `Heap.HuntEnd` | user/umalloc.c:129-135 | back at freep without a fit, nothing fits, and this does not happen a second time |
| `Heap.UnitsEnough` | user/umalloc.c:109 | the rounded unit count has room for the request exactly when the 32-bit sum does not wrap |
| `PagePool.OneFrame` | kernel/vm.c:228-326 | no page frame is mapped twice, in one address space or in two |
| `VirtualMemory.PagesCover` | kernel/vm.c:239-240 | a page is within the rounded-up size exactly when it holds one of the bytes of the process |
| `VirtualMemory.Vm.constructor` | kernel/kalloc.c:22-32 | every page of the range is on the free list once |
| `VirtualMemory.Vm.Walk` | kernel/vm.c:49-72 | the page table exists afterwards unless there was none and no page was free; at most that page is taken |
| `VirtualMemory.Vm.MapKernel` | kernel/vm.c:74-98 | maps the range of kernel pages to itself, or stops with no page free and a page table missing |
| `VirtualMemory.Vm.Setupkvm` | kernel/vm.c:133-149 | succeeds exactly with thirteen free pages and then has every kernel entry, among them the page table for user addresses; a failure keeps the pages it took, so it restores the free pages only if there were none |
| `VirtualMemory.SetupShort` | kernel/vm.c:133-149 | with one to twelve free pages setupkvm fails and none of them is free afterwards |
| `VirtualMemory.Vm.MapUser` | kernel/vm.c:241-248 | the page table is there and the entry free, so the unchecked mappages has nothing to fail on |
| `VirtualMemory.Vm.Allocuvm` | kernel/vm.c:226-251 | fails exactly when the size is too large or too few pages are free, and then restores directories and free pages; otherwise adds exactly the zeroed user pages |
| `VirtualMemory.Vm.Deallocuvm` | kernel/vm.c:253-278 | removes and frees exactly the user pages in the range that are there; other pages keep their contents |
| `VirtualMemory.Vm.Freevm` | kernel/vm.c:280-295 | returns each page of the address space to the free list exactly once |
| `VirtualMemory.Vm.Copyuvm` | kernel/vm.c:297-326 | succeeds exactly when enough pages are free, with equal contents and all kernel entries; a failure after setupkvm restores directories and free pages; the parent's pages are untouched |
| `VirtualMemory.FreeDetermined` | kernel/kalloc.c:38-70 | which pages are free follows from the directories alone |
| `BufferRing.FrontRing` | kernel/bio.c:126-131 | the six pointer assignments move a buffer to the front and keep the ring one cycle through all buffers |
| `BufferCache.Cache.constructor` | kernel/bio.c:39-56 | all buffers are in the ring once, empty and unlocked |
| `BufferCache.Cache.Bget` | kernel/bio.c:58-93 | gives the buffer that holds the block, or waits exactly if it is locked; otherwise takes over the unlocked buffer released longest ago or never; panics exactly if all are locked and none holds the block; no block is in two buffers |
| `BufferCache.Cache.Bread` | kernel/bio.c:95-105 | the locked buffer holds what the disk holds, and the disk does not change |
| `BufferCache.Cache.Bwrite` | kernel/bio.c:107-115 | the disk block becomes the buffer's contents and no other block changes |
| `BufferCache.Cache.Fill` | kernel/bio.c:8-13 | the holder of a locked buffer may change its data without breaking what holds of unlocked buffers |
| `BufferCache.Cache.Iderw` | kernel/ide.c:120-154 | a dirty buffer is written, an invalid one is read, and both are valid and clean afterwards |
| `BufferCache.Cache.Brelse` | kernel/bio.c:117-137 | the buffer is unlocked and becomes the most recently released one |
| `PipeBuffer.Pipe.Write` | kernel/pipe.c:80-94 | appends bytes until done or full, also when the 32-bit counter wraps, and tells done, full and broken apart |
| `PipeBuffer.Pipe.Read` | kernel/pipe.c:102-117 | takes the oldest bytes in order, or has to sleep exactly when the pipe is empty and may still be written |
| `PipeBuffer.Pipe.Close` | kernel/pipe.c:57-73 | closes that end only |
| `PipeBuffer.CountersApart` | kernel/pipe.c:82-103 | comparing the wrapped counters tells empty and full exactly |
| `PipeRuns.StepInv` | kernel/pipe.c:57-118 | every step of every reader and writer keeps the queue and loses no wakeup |
| `PipeRuns.PipeFifo` | kernel/pipe.c:75-118 | in every reachable state the bytes read are a prefix of the bytes written, at most 512 behind; a sleeping reader means empty and open for writing, a sleeping writer means full and open for reading, and there are never both |
| `ShellTokens.TextToks` | user/sh.c:261-307 | a printed token list is read back token by token |
| `ShellGrammar.ReadLine` | user/sh.c:343-412 | the tokens printed for a command are parsed as that command and nothing after it is touched |
| `ShellRoundTrip.RoundTrip` | user/sh.c:326-445 | a printed command parses as itself exactly when no simple command in it has more than nine words |
| `ShellRoundTrip.Reprint` | user/sh.c:326-445 | whatever parses can be printed so that it parses to the same command |
| `Shell.GetToken` | user/sh.c:264-307 | returns the first token of the rest of the buffer, its span if it is a word, and the cursor after it |
| `Shell.Peek` | user/sh.c:309-319 | tells exactly whether one of the symbols comes next and consumes only space |
| `Shell.RedirsAt` | user/sh.c:373-396 | reads the redirections that the token grammar reads, or fails where it fails |
| `Shell.ExecAt` | user/sh.c:414-445 | agrees with the token grammar on every input: same command, same rest, same failures, words where they stand in the buffer |
| `Shell.BlockAt` | user/sh.c:398-412 | agrees with the token grammar on every input |
| `Shell.PipeAt` | user/sh.c:360-371 | agrees with the token grammar on every input |
| `Shell.LineAt` | user/sh.c:343-358 | agrees with the token grammar on every input; the mutual recursion terminates |
| `Shell.StopsOk` | user/sh.c:264-307 | no recorded end position lies inside a word |
| `Shell.Nulterminate` | user/sh.c:447-492 | puts NUL exactly at the recorded ends |
| `Shell.TerminatedReads` | user/sh.c:447-492 | after that every pointer reads as the token that was parsed there |
| `Shell.CmdOf` | user/sh.c:326-341 | fails exactly on the inputs that the grammar rejects; otherwise the command, read through its pointers in the terminated buffer, is the one the grammar gives |
| `Grep.MatchHere` | user/grep.c:83-95 | decides whether some prefix of the text splits into one segment for each item of the pattern, the whole text under a final $ |
| `Grep.MatchStar` | user/grep.c:97-105 | decides whether the star can take some run of the text so that the rest of the pattern matches |
| `Grep.Match` | user/grep.c:71-81 | decides whether the pattern matches at some position, or at the start under a leading ^ |

## Left out

- ProcTable.Kernel.UnparkProc: when no entry has the pid, what the source goes on to do depends on the memory after the table; the model ends the call with an outcome of its own, and runs have no such call.
- ProcTable.PublishInv: files and memory that fork and clone copy are not part of the process table here; that a copy fails is an event.
- Heap.Allocator.Malloc: requests of at most 0x7FFFFFE8 bytes, so that eight times the unit count fits the signed argument of sbrk, and sbrk answers with addresses above the heap that are multiples of the header size.
- Heap.Allocator.Free: for a block that malloc returned and that was not freed since; the lock around it is left to the spinlock model.
- FileSys.Disk.Writei: when balloc gives out, the model ends the call before the address is stored, so nothing is said about a block past the end once it is in an inode.
- FileSys.Disk.Readi: the branch for devices is not modelled, here and in writei.
- Directory.Dirlink: for directories that hold whole entries and no name twice, and inode numbers below 65536; the reference that dirlookup takes and dirlink drops is not modelled.
- Mkfs.Image.Iappend: for data that fits the image and one bitmap block; mkfs does not test the first and asserts the second at the end.
- BufferCache.Cache.Brelse: for clients that wrote what they changed; otherwise the cache and the disk may differ.
- BufferCache.Cache.Bget: the sleep and retry on a locked buffer is the outcome Wait; who wakes whom is not modelled.
- PipeRuns.PipeFifo: for runs without kill, in which an end is closed after its callers have left.
- VirtualMemory.Vm.Allocuvm: for address spaces with one owner and no pages above the old size; sharing under clone is not modelled.
- VirtualMemory.Vm.Copyuvm: what a page holds is one value, so copying part of a page is not modelled.
- Shell.ExecAt: the redirections are collected and wrapped around the command at the end; the source wraps first and fills the words in through the shared pointer.
- SyncLib.StepInv: for threads that unlock only what they own, in runs without kill, with queue cells that can be allocated.
- Semaphores.SemaphoreRuns: the value is unbounded; overflow of the 32-bit value is not modelled.
- Fairness: nothing is said about whether a thread that can move ever does; the statements are about every state and about states in which nobody can move.
- The inode cache, inode locks and link counts, the inode blocks on disk, path walking and the file system calls.
- The scheduler's choice, context switching, interrupts and the contents of user memory in the process table.
- loaduvm, inituvm, exec, growproc and the hardware page-table bits.
- The disk queue and its interrupt handler, the console and all other devices, and booting.
- runcmd and the shell's main loop; the read loop of grep; the small user programs and usertests.
- pipealloc and the freeing of a pipe with both ends closed.
