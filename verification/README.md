# Verified models for xv6-rust

This project models six parts of the xv6 port in Dafny and proves what they promise. All files
sit in one directory; `dafny verify dfyconfig.toml` checks them.

**Crash-safe log over a block cache** (`Log*.dfy`, `BufLru.dfy`). `LogMachine` is a state machine:
operations, readers and the committer take steps in any order, each step at most one operation on
shared state; a disk block write is atomic; a crash keeps only the disk and may come at any step,
also during recovery. `LogTheorems` shows that recovery always yields the state after a whole
number of committed groups, that the cache is coherent, and that a commit ends after a fixed number of
moves. `LogStore` shows that the whole refines an atomic store which is told only what operations write,
log and read. `LogSpace` treats admission: the source reserves MAXOPBLOCKS blocks per operation,
but `begin_op` admits one block more in total than `write` accepts, so nine fresh blocks per
operation are safe and a tenth may panic. `LogCode` is the commit and recovery code with its
loops, with a trace of every disk image. `BufLru` is the linked list of cache entries.

**Buddy allocator** (`PowersOfTwo.dfy`, `FreeList.dfy`, `Buddy*.dfy`). `BuddyTree` is one binary tree;
its set bits and free lists are the allocator's bitmaps and lists. `BuddyMoves` and `BuddyTheorems`
work on the tree, `FreeList` on the intrusive lists in memory, and `Buddy` is the allocator, proved
to do to bitmaps and lists what the tree says. `BuddyNodes` shows that the list nodes it writes stay
out of memory handed out. `BuddyInit` and `BuddySetup` are about `init`. Its sum check can fail: a
size left with a single whole block that is a left half has that block pushed twice, and `init`
then gives its "allocator bug" error (`Init`, with `LoneLeftHappens` as an example). Metadata within
the first quarter of the span rules that out (`QuarterIsEnough`). `ReadsInsideIff` is the exact condition
under which `init` stays inside its bitmaps.

**Scheduler, sleep and wakeup, sleep locks** (`Sched*.dfy`). Any number of CPUs, processes and sleep
locks; each CPU runs its scheduler thread or a process thread, and `switch` moves one register at a
time. A timer interrupt may come wherever a thread holds no spinlock, before `lock` and `unlock`
acquire theirs and in the scheduler thread too, and takes the way through `try_yield_proc`. The
invariant is kept by every step; `SchedTheorems` and `SchedProgress` are about every run, `SchedCalls`
about what whole calls and rounds come to on a CPU that nobody disturbs.

**User-level malloc** (`Malloc*.dfy`). Addresses count headers. `MallocList` is the list of free
blocks as a value, `MallocLinks` the circle of headers in memory, `Malloc` the heap with its loops.
`sbrk` takes an `int`, and `morecore` passes it a 64-bit number of bytes without a test. So `malloc`
keeps its promise exactly up to 2^31 - 32 bytes, or where a free block is large enough; beyond that the
header claims more than the kernel gave (`Malloc`, with `HugeMalloc` as an example).

**Sv39 page tables** (`Sv39.dfy`, `PageTable.dfy`). Tables are words in memory; a tree is unshared if
every table has one place in one tree. The flat map from page numbers to entries is `Sv39.Lookup`.
The source's `is_user` tests the valid bit, not the user bit, and the address test admits MAXVA
itself; the model does the same, and `ClearThenCopyOut` shows what follows for guard pages.
`uvm_copy` stops only where it meets the size exactly; `GrowAndFork` shows what follows for a
process that has grown to a size that is no multiple of the page size.

**Shell parser and image builder** (`Shell*.dfy`, `Mkfs*.dfy`). `ShellGrammar` is the parser as functions,
`ShellTokens` the same parser on a sequence of tokens, `ShellLanguage` the grammar that it accepts exactly,
`ShellPrint` a printer with parentheses where the grammar needs them, `ShellCode` the parser with its
cursor and loops and the termination of tokens in place. `Mkfs` builds an image of blocks of bytes;
while an inode is only in memory, `Seen` is the disk as it will be once the inode is written. The
final rounding of the root's size adds a block that does not exist if the size is a multiple of the
block size already (`RoundSize`); the bitmap is right all the same (`Finish`). `ialloc` tests no
number: from 208 on it writes outside the inode table (`IAlloc`, `RootOverwritten`).

Panics and failed assertions are results of the modelled operations, or conditions under which a
step is not taken. Integers are unbounded; where a width matters (header words, page-table entries,
inode words, the arguments of `malloc` and `sbrk`) it is in the model. `Options.dfy` and `PowersOfTwo.dfy` are shared.

## Model

| member | source | states |
|---|---|---|
| `LogSpec.InstallUpToAt` | kernel/src/fs/log.rs:105-123 | The copy loop, as many rounds as wanted: the log area is untouched, and each home block holds the slot that names it, or its old content if none does |
| `LogSpec.RecoversToIsRecovered` | kernel/src/fs/log.rs:53-63 | The block-by-block description of what a crash recovers to is exactly the home blocks on the disk that `recover` leaves |
| `LogSpec.HomeWriteRecovers` | kernel/src/fs/log.rs:105-123 | Writing anything at the home of a logged block changes nothing for recovery |
| `LogInvariant.StepInv` | kernel/src/fs/log.rs:53-240 | Every step of every operation, reader and committer, and a crash, keeps the invariant of log and cache |
| `LogInvariant.SlotSource` | kernel/src/fs/log.rs:141-156 | What `write_log` copies into a slot is the current content of the block the slot names |
| `LogInvariant.HomeSource` | kernel/src/fs/log.rs:105-123 | What `install_trans` copies to a home block is the committed content of that block |
| `LogTheorems.RunInv` | kernel/src/fs/log.rs:53-240 | The invariant holds after every run |
| `LogTheorems.CrashAtomicity` | kernel/src/fs/log.rs:53-156 | Stop any run at any step, with any crashes in it, also during recovery: recovery shows the home blocks as the last committed group left them, and committed groups are never lost |
| `LogStore.GroupsGrowByWholeGroups` | kernel/src/fs/log.rs:127-138 | Over every run the committed groups grow by exactly the contents of that store at its durability points, in order, and no operation is open at any of them |
| `LogTheorems.GroupStep` | kernel/src/fs/log.rs:127-138 | Of all steps only the header write commits; it commits everything logged since the last group at once |
| `LogTheorems.GroupsArePrefix` | kernel/src/fs/log.rs:127-138 | Along a run the sequence of committed groups only grows |
| `LogStore.RefinesAtomicStore` | kernel/src/fs/log.rs:53-240 | Log, cache, commit, crash and recovery refine a store driven by the steps alone: a log write puts what its operation last wrote into its buffer, or found there, into the current content, the header write makes that the durable content, a crash goes back to it. What a crash recovers to is the durable content, what operations work on the current one |
| `LogStore.LogsWhatWasWritten` | kernel/src/fs/log.rs:181-208 | What a log write puts into the log is what its operation wrote into the buffer last |
| `LogTheorems.QuiescentIsDurable` | kernel/src/fs/log.rs:212-240 | With no open operation and no commit under way, nothing is uncommitted and the home blocks themselves are current |
| `LogTheorems.Coherence` | kernel/src/fs/bio.rs:55-100 | A valid buffer that nobody is changing equals its disk block unless it is pinned, and a pinned one is referenced |
| `LogTheorems.OneEntryPerBlock` | kernel/src/fs/bio.rs:55-90 | No block is cached twice |
| `LogStore.ReadsSeeLastWrite` | kernel/src/fs/bio.rs:93-100 | A buffer read and locked shows what the store says: the current content of its block, or what its own holder has written into it since |
| `LogTheorems.ReferencedStays` | kernel/src/fs/bio.rs:202-215 | As long as an entry is referenced and nothing crashes, it stays with its block, and valid once it is |
| `LogTheorems.CommittingIsAlone` | kernel/src/fs/log.rs:212-240 | While `committing` is set no operation is outstanding |
| `LogTheorems.HeaderStableWhileCommitting` | kernel/src/fs/log.rs:127-138 | Over any stretch of a run in which a commit is under way, no step of anybody changes the header in memory |
| `LogTheorems.MoveCounts` | kernel/src/fs/log.rs:127-156 | Every move of the committing thread leaves exactly one fewer to do; a recovering one gets on too |
| `LogTheorems.CommitLength` | kernel/src/fs/log.rs:212-240 | The commit of n blocks ends after exactly 3n + 5 moves of its thread, whatever steps of others come in between |
| `LogTheorems.EndOpNeverPanics` | kernel/src/fs/log.rs:212-240 | `end_op` never finds the log committing |
| `LogTheorems.UnpinNeverPanics` | kernel/src/fs/bio.rs:143-156 | A logged block carries one reference for its pin besides its holders' own, so `unpin` never finds the last reference |
| `LogSpace.BudgetHolds` | kernel/src/fs/log.rs:161-177 | Header, logged blocks and unspent reservations fit the log in every run in which operations stay within MAXOPBLOCKS |
| `LogSpace.NineBlocksAreSafe` | kernel/src/fs/log.rs:181-208 | A log write that is absorbed, or is at most the ninth fresh block of its operation, never panics for lack of space |
| `LogSpace.TenthBlockMayPanic` | kernel/src/fs/log.rs:161-208 | The bound is sharp: from a blank disk a run of operations that all stay within MAXOPBLOCKS ends in a panic at a tenth block |
| `LogCode.Log.InstallTrans` | kernel/src/fs/log.rs:105-123 | The loop installs all slots, and every disk image on the way recovers to the same content |
| `LogCode.Log.Recover` | kernel/src/fs/log.rs:53-63 | `recover` leaves the recovered disk, and a crash at any of its writes loses nothing |
| `LogCode.Log.WriteLog` | kernel/src/fs/log.rs:141-156 | Every slot holds its cached block; every image on the way recovers to the old content |
| `LogCode.Log.WriteHead` | kernel/src/fs/log.rs:80-91 | The header on disk becomes the one in memory, in one block write |
| `LogCode.Log.EmptyHead` | kernel/src/fs/log.rs:95-102 | The header on disk is emptied in one block write, nothing else changes |
| `LogCode.Log.Commit` | kernel/src/fs/log.rs:127-138 | Every image before one point of the commit recovers to the old home blocks, every image from it on to the new ones, and these are at home in the end |
| `BufLru.BufLru.constructor` | kernel/src/fs/bio.rs:31-53 | All entries in one list, in index order, none referenced |
| `BufLru.BufLru.FindCached` | kernel/src/fs/bio.rs:187-198 | Finds the entry of the block if there is one and takes one reference; otherwise changes nothing |
| `BufLru.BufLru.Recycle` | kernel/src/fs/bio.rs:202-215 | Takes the unreferenced entry whose last release is oldest; fails only if all entries are referenced |
| `BufLru.BufLru.Pin` | kernel/src/fs/bio.rs:143-146 | One more reference; the list is kept |
| `BufLru.BufLru.Unpin` | kernel/src/fs/bio.rs:150-156 | Gives a reference back unless it is the last one, and panics exactly then |
| `BufLru.BufLru.PinAndDrop` | kernel/src/fs/log.rs:181-208 | Logging a block and dropping its handle leaves it referenced and in its place in the list |
| `BufLru.BufLru.MoveIfNoRef` | kernel/src/fs/bio.rs:218-242 | Drops one reference; the last one moves the entry to the front and leaves the order of all others |
| `BufLru.BufLru.MoveUp` | kernel/src/fs/bio.rs:222-240 | Unlinking and relinking keeps one doubly linked list over all entries, with one moved to the front |
| `BufLru.OrderCovers` | kernel/src/fs/bio.rs:31-53 | The list holds every entry |
| `BufLru.OldestRelease` | kernel/src/fs/bio.rs:202-215 | The first unreferenced entry from the tail is the one released longest ago |
| `FreeList.ListHeap.Init` | allocator/src/list.rs:10-13 | A head becomes an empty circle; no other list changes |
| `FreeList.ListHeap.Push` | allocator/src/list.rs:15-23 | The block is first on the list; no other list changes |
| `FreeList.PushIsRing` | allocator/src/list.rs:15-23 | The writes of a push leave a circle through the head exactly if the block was not on the list |
| `FreeList.PushTwice` | allocator/src/list.rs:15-37 | After a push of a listed block the links from the head never come back to it; pushed twice in a row, the block stays first however often it is taken off |
| `FreeList.ListHeap.Pop` | allocator/src/list.rs:25-32 | Takes the first block off, or finds the list empty |
| `FreeList.ListHeap.Remove` | allocator/src/list.rs:34-37 | Takes a block out of the list it is in, wherever it is |
| `FreeList.ListHeap.IsEmpty` | allocator/src/list.rs:39-41 | A head that points at itself is exactly an empty list |
| `FreeList.PushRing` | allocator/src/list.rs:15-23 | Relinking three nodes inserts behind the head of a circle |
| `FreeList.UnlinkRing` | allocator/src/list.rs:34-37 | Joining the neighbours of a node takes it out of a circle |
| `BuddySizes.Log2` | allocator/src/lib.rs:467-474 | The exponent of the largest power of two not above the argument |
| `BuddySizes.RoundUpIs` | allocator/src/lib.rs:458-460 | The next multiple |
| `BuddySizes.RoundDownIs` | allocator/src/lib.rs:463-465 | The last multiple |
| `BuddySizes.SizeClassIs` | allocator/src/lib.rs:154-159 | The size class of a request is the smallest whose blocks hold it |
| `BuddyLists.IndexOfBlock` | allocator/src/lib.rs:364-382 | Block addresses and block indices are inverse to each other |
| `BuddyMoves.SplitWf` | allocator/src/lib.rs:183-200 | Splitting a live block keeps one well-formed tree and moves the life to the left half |
| `BuddyMoves.JoinWf` | allocator/src/lib.rs:238-262 | Joining with a free buddy keeps one well-formed tree and moves the life to the parent |
| `BuddyTheorems.BlocksDisjoint` | allocator/src/lib.rs:141-263 | Live and free blocks never overlap and lie between metadata and end |
| `BuddyTheorems.EveryLeafAccounted` | allocator/src/lib.rs:141-263 | Conservation: every leaf is reserved or in exactly one block, live or free |
| `BuddyTheorems.BitsMean` | allocator/src/lib.rs:141-263 | A block is marked in use exactly when it has a reserved leaf or a live block in it, and split exactly when that is below it |
| `BuddyTheorems.Canonical` | allocator/src/lib.rs:238-262 | Two states with the same live blocks have the same bitmaps and free sets |
| `BuddyTheorems.AllocWf` | allocator/src/lib.rs:141-203 | `alloc` keeps the tree, hands out one new block of the size asked for and leaves all others |
| `BuddyTheorems.MergeWf` | allocator/src/lib.rs:207-263 | `dealloc` keeps the tree and takes exactly that block out of the live ones |
| `BuddyTheorems.FindsSize` | allocator/src/lib.rs:216-225 | The first split bit above a live block gives exactly its size |
| `BuddyTheorems.FreeUndoesAlloc` | allocator/src/lib.rs:141-263 | `dealloc` right after `alloc` restores bitmaps and lists exactly |
| `BuddyTheorems.AllocComplete` | allocator/src/lib.rs:155-178 | `alloc` finds nothing only if every aligned block of the size meets reserved memory or a live block |
| `BuddyTheorems.AllocTakesSmallest` | allocator/src/lib.rs:155-203 | `alloc` takes the first block of the smallest size that has one and is large enough, and hands out its first part; that list loses it, the lists in between, empty before, get one block each, and all others stay |
| `BuddyTheorems.MergedIsFirst` | allocator/src/lib.rs:207-263 | The merged block becomes the first of its list, each list in between loses exactly one block, all other lists are as before |
| `BuddyTheorems.RunWf` | allocator/src/lib.rs:141-263 | Every sequence of allocations and valid frees keeps one well-formed tree |
| `BuddyTheorems.AllFreedRestores` | allocator/src/lib.rs:141-263 | Once everything is freed, in any order, bitmaps and free sets are back to the start |
| `BuddyInit.PushedAreFree` | allocator/src/lib.rs:307-341 | At each size the blocks pushed are exactly the free ones, and none is pushed twice unless the one whole block left is a left half |
| `BuddyInit.InitialWf` | allocator/src/lib.rs:76-128 | What `init` builds is a well-formed tree with nothing handed out |
| `BuddyInit.SumCheck` | allocator/src/lib.rs:120-128 | The blocks pushed add up to the whole managed range exactly when no size is left with such a lone left half |
| `BuddyInit.QuarterIsEnough` | allocator/src/lib.rs:76-128 | Metadata within the first quarter of the span rules that case out |
| `BuddySetup.ReadsInsideIff` | allocator/src/lib.rs:307-341 | `init` looks at no bit outside its bitmaps exactly when metadata takes at most seven eighths of the span and the range does not fill it, or no bitmap is longer than a byte |
| `BuddySetup.LoneLeftHappens` | allocator/src/lib.rs:53-132 | The case is real: for 800 bytes from address 16, with leaves and alignment of 16, `init` plans 23 leaves of metadata in 50, and size 4 is left with a lone left half |
| `BuddySetup.StripsMark` | allocator/src/lib.rs:267-303 | Marking metadata and the part behind the end marks exactly the blocks with reserved leaves |
| `BuddySetup.InitialTiles` | allocator/src/lib.rs:307-341 | Every leaf of the managed range lies in exactly one block that `init` pushed |
| `BuddySetup.SizesAre` | allocator/src/lib.rs:80-84 | The number of sizes is the logarithm of the range, rounded up |
| `Buddy.BuddySystem.Layout` | allocator/src/lib.rs:70-112 | Base and end aligned, metadata behind the base, every list head initialised and empty |
| `Buddy.BuddySystem.Mark` | allocator/src/lib.rs:283-303 | Exactly the blocks that touch the range are added to the bitmaps |
| `Buddy.BuddySystem.InitFreePair` | allocator/src/lib.rs:322-341 | Pushes the free one of a pair when the other is in use and counts its bytes, in all cases; the lists stay sound as long as no block is pushed twice |
| `Buddy.BuddySystem.InitFree` | allocator/src/lib.rs:307-319 | Counts the bytes of all blocks pushed, in all cases; without a lone left half it ends in the lists of the initial tree |
| `Buddy.BuddySystem.Init` | allocator/src/lib.rs:53-132 | Succeeds exactly when not initialised, large enough, sizes are powers of two and no size is left with a lone left half; then the system is valid, empty and tiled. Each failure gives its own error; only the one of the sum check changes anything |
| `Buddy.BuddySystem.Populate` | allocator/src/lib.rs:70-128 | The sum check passes exactly when no size is left with a lone left half |
| `Buddy.BuddySystem.MarkReserved` | allocator/src/lib.rs:267-303 | After marking, exactly the blocks with reserved leaves are marked, and the lists are empty |
| `Buddy.BuddySystem.Alloc` | allocator/src/lib.rs:141-203 | Does to bitmaps, lists and tree what `alloc` specifies; the address is that of the first block of the smallest size class that has one and holds the request, and none is given only if no class does; the address serves the request |
| `Buddy.BuddySystem.SizeOf` | allocator/src/lib.rs:216-225 | The loop over the split bits finds the size of the live block |
| `Buddy.BuddySystem.Dealloc` | allocator/src/lib.rs:207-263 | Does to bitmaps, lists and tree what merging the live block specifies |
| `Buddy.AllocServes` | allocator/src/lib.rs:141-203 | A block handed out lies between metadata and end, holds the request, keeps away from all live blocks and is aligned when the size is a multiple of the alignment |
| `Buddy.AllocSmallest` | allocator/src/lib.rs:141-178 | The block handed out starts where the first free block of the smallest size that serves starts, and none is handed out exactly if none serves |
| `BuddyNodes.NodesApart` | allocator/src/list.rs:3-37 | Every list node the allocator has written lies in its records or inside a free block, its 16 bytes keep away from every block handed out and from every other node |
| `SchedTheorems.StepInv` | kernel/src/process/cpu.rs:67-199 | Every step of every CPU, in scheduler or process thread, and every timer interrupt keeps the invariant |
| `SchedTheorems.RunInv` | kernel/src/process/cpu.rs:67-199 | The invariant holds after every interleaving, with a timer interrupt wherever no spinlock is held |
| `SchedTheorems.OneGuard` | kernel/src/lock/sleeplock.rs:41-63 | Over all interleavings a sleep lock has at most one guard, and only while it is locked |
| `SchedTheorems.NoLostWakeup` | kernel/src/process/process.rs:416-440 | Whenever a sleep lock is free and its spinlock is too, no process sleeps on it |
| `SchedProgress.SleeperIsRunnable` | kernel/src/process/manager.rs:158-167 | A process that slept on a lock is RUNNABLE as soon as the lock and its spinlock are free, unless a CPU has claimed it already |
| `SchedProgress.StateMoves` | kernel/src/process/process.rs:398-440 | Every change of a process's state and its cause: woken on its channel, claimed under its lock, started, yielding, going to sleep; nothing else, and nobody becomes UNUSED |
| `SchedProgress.StaysInUse` | kernel/src/process/manager.rs:158-185 | Over every run a process that is in use stays so |
| `SchedProgress.LockGivesGuard` | kernel/src/lock/sleeplock.rs:41-63 | Whatever comes in between, `lock` returns only with the guard, and `unlock` goes on to the waiters only with the lock free |
| `SchedCalls.LockTakes` | kernel/src/lock/sleeplock.rs:41-55 | `lock` on a free lock, undisturbed on its CPU, takes it and changes nothing else |
| `SchedCalls.LockSleeps` | kernel/src/process/process.rs:416-440 | `lock` on a taken lock ends with the process asleep on it, its registers saved, the lock as it was and the CPU back in the scheduler with its own registers |
| `SchedCalls.UnlockWakes` | kernel/src/lock/sleeplock.rs:57-63 | `unlock` frees the lock and makes exactly those RUNNABLE that slept on it |
| `SchedCalls.TimerYields` | kernel/src/process/process.rs:398-413 | A timer interrupt in user mode ends with the process RUNNABLE, the registers it had computed saved, and the CPU back in the scheduler |
| `SchedCalls.InterruptYields` | kernel/src/process/cpu.rs:187-199 | One in the kernel does the same, and the thread will go on exactly where it was |
| `SchedCalls.SchedulerRuns` | kernel/src/process/cpu.rs:67-100 | An undisturbed scheduler runs the first RUNNABLE process, which goes on where it was with the registers it had; nothing else changes |
| `SchedCalls.IdleRound` | kernel/src/process/manager.rs:170-185 | With nothing RUNNABLE a round of the scheduler changes nothing |
| `SchedTheorems.LockedIsHeld` | kernel/src/lock/sleeplock.rs:41-55 | A locked sleep lock has a holder |
| `SchedTheorems.OneCpuPerProcess` | kernel/src/process/manager.rs:170-185 | A process context is loaded by at most one CPU |
| `SchedTheorems.SavedBeforeLoaded` | kernel/src/process/cpu.rs:67-100 | A CPU that switches to a process finds it switched out with every register saved, and holds its lock |
| `SchedTheorems.ResumesWithItsRegisters` | kernel/src/asm/switch.S:4-34 | A process comes back with the registers it called `switch` with, on any CPU and after any steps of all CPUs |
| `SchedTheorems.MyProcIsRunning` | kernel/src/process/cpu.rs:80-93 | The process pointer of a CPU names the process whose thread it runs |
| `SchedTheorems.SchedNeverPanics` | kernel/src/process/cpu.rs:154-170 | The checks of `sched` never fire |
| `SchedTheorems.SchedulerNeverYields` | kernel/src/process/cpu.rs:187-199 | A scheduler thread that is interrupted after it has set its process pointer never yields in that process' place |
| `SchedTheorems.IdleHasNoProcess` | kernel/src/process/cpu.rs:187-199 | A timer interrupt finds no process pointer in a scheduler thread that is looking for a process or has not yet recorded one, so it does nothing there |
| `SchedTheorems.UnlockersHold` | kernel/src/lock/sleeplock.rs:57-63 | Whoever is about to unlock a sleep lock, however often interrupted or switched out before, holds it |
| `SchedTheorems.SpinlocksNeverPanic` | kernel/src/lock/spinlock.rs:32-60 | No CPU acquires a spinlock it holds, and no release finds the interrupt depth at zero |
| `SchedTheorems.NoSpinDeadlock` | kernel/src/process/manager.rs:158-167 | A spinning CPU waits for a CPU that can go on without an interrupt, or for one that waits for such a CPU |
| `SchedSteps.RunnableIsFree` | kernel/src/process/manager.rs:170-185 | A process found RUNNABLE under its lock is claimed by no other CPU |
| `SchedWakeSteps.CheckedIsAwake` | kernel/src/process/manager.rs:158-167 | A process that `wake_up` checks is RUNNABLE afterwards if it waited for the lock; whoever it is, it neither sleeps on the lock nor is on its way to |
| `MallocList.MergedSorted` | xv6-user/umalloc.c:33-42 | Joining with both neighbours keeps the list ascending and leaves a gap between any two blocks |
| `MallocList.MergedCovers` | xv6-user/umalloc.c:33-42 | `free` adds exactly the units of the block |
| `MallocList.RestCovers` | xv6-user/umalloc.c:75-84 | `malloc` takes exactly the units of the block it returns |
| `MallocList.Canonical` | xv6-user/umalloc.c:24-44 | The free units determine the free list |
| `MallocList.FreeUndoesTake` | xv6-user/umalloc.c:24-84 | Freeing the block just taken restores the list |
| `MallocList.FreesCommute` | xv6-user/umalloc.c:24-44 | Two frees in either order leave the same list |
| `MallocLinks.StopsThere` | xv6-user/umalloc.c:30-32 | The search of `free` stops exactly in front of the place of the block |
| `MallocLinks.LinkedMerged` | xv6-user/umalloc.c:33-43 | The two header writes leave one circle through `base` with the joined block |
| `MallocLinks.RoundTrip` | xv6-user/umalloc.c:74-88 | A search that comes back to `freep` has seen every block |
| `Malloc.FreedOk` | xv6-user/umalloc.c:24-44 | After `free`, live and free blocks are disjoint and make up all units from the kernel |
| `Malloc.Heap.Free` | xv6-user/umalloc.c:24-44 | Terminates, joins the block with its neighbours and keeps the heap |
| `Malloc.PassedIs` | xv6-user/umalloc.c:46-61 | `sbrk` is told the bytes asked for exactly when these are fewer than 2^31, otherwise fewer |
| `Malloc.LargestRequest` | xv6-user/umalloc.c:63-69 | The headers counted hold the request, and their bytes fit an `int` exactly up to 2^31 - 32 bytes |
| `Malloc.HugeRequest` | xv6-user/umalloc.c:46-69 | For 4294967288 bytes, 2^28 + 1 headers are asked for and `sbrk` is told 16 bytes |
| `Malloc.Heap.MoreCore` | xv6-user/umalloc.c:46-61 | Fails exactly when the kernel refuses; otherwise the headers claim what was asked for, put behind all free blocks, the break moves by what was passed, and the heap is below the break exactly when these agree |
| `Malloc.Heap.Take` | xv6-user/umalloc.c:75-84 | Unlinks the block or cuts off its end, and `freep` is the block in front of it |
| `Malloc.Heap.TakeOrGrow` | xv6-user/umalloc.c:74-89 | The loop: the first fit behind `freep`, in the list as it is or, if there is none, as it has grown; `freep` is then the block in front of the one taken from |
| `Malloc.Heap.Malloc` | xv6-user/umalloc.c:63-90 | Gives the first fit behind `freep` and moves `freep` in front of it, growing the heap first if there is none; 0 exactly if the kernel refuses. The heap stays below the break exactly if there was a fit, or none is given, or at most 2^31 - 32 bytes are asked for; beyond that the block given starts at the old break and claims more than the kernel gave |
| `Malloc.Heap.HugeMalloc` | xv6-user/umalloc.c:46-90 | `malloc` of 4294967288 bytes that finds no fit gives a block of 2^28 + 1 headers with one of them below the break |
| `Malloc.SizesFit` | xv6-user/umalloc.c:11-17 | No size exceeds the room up to the limit, so the 32-bit field holds every size of a heap below 2^32 headers |
| `Sv39.PteRoundTrip` | kernel/src/memory/mapping/page_table_entry.rs:104-129 | An entry gives back its frame and perm\|V |
| `Sv39.PteIs` | kernel/src/memory/mapping/page_table_entry.rs:104-129 | An entry is determined by its frame and its flags |
| `Sv39.IndicesDetermine` | kernel/src/memory/address.rs:136-138 | Up to and including MAXVA the three indices determine the page |
| `Sv39.LeafWritten` | kernel/src/memory/mapping/page_table.rs:193-205 | Writing an entry changes the lookup of that page and of no other page in any tree, and keeps trees unshared |
| `Sv39.AddedUnshared` | kernel/src/memory/mapping/page_table.rs:131-143 | A new interior table keeps all trees unshared |
| `Sv39.AddedLookup` | kernel/src/memory/mapping/page_table.rs:131-143 | A new interior table changes no lookup in any tree |
| `PageTable.PhysMem.UvmCreate` | kernel/src/memory/mapping/page_table.rs:240-242 | An empty tree; all others as before |
| `PageTable.PhysMem.Translate` | kernel/src/memory/mapping/page_table.rs:99-118 | The walk, and nothing above MAXVA |
| `PageTable.PhysMem.TranslateOrAlloc` | kernel/src/memory/mapping/page_table.rs:122-145 | The walk reaches an entry, and no lookup in any tree changes |
| `PageTable.PhysMem.PgtTranslate` | kernel/src/memory/mapping/page_table.rs:151-174 | The frame of a mapped page |
| `PageTable.PhysMem.Map` | kernel/src/memory/mapping/page_table.rs:182-214 | Succeeds exactly when all pages of the range are low enough and free, panics with remap exactly when one was mapped; then the pages lead to consecutive frames with perm\|V and all else is as before |
| `PageTable.PhysMem.UvmAlloc` | kernel/src/memory/mapping/page_table.rs:268-296 | Exactly the new pages are mapped, to zeroed frames of their own |
| `PageTable.NewPagesForUser` | kernel/src/memory/mapping/page_table.rs:281-288 | The flags of the new pages, bit by bit: valid, user, readable, writable, executable and nothing else |
| `PageTable.PhysMem.UvmCopy` | kernel/src/memory/mapping/page_table.rs:386-432 | Succeeds exactly when the size is a multiple of the page size, the parent has all pages and the child none; the child has the same bytes and flags on new frames, each its own; the parent is as before. Terminates for every size |
| `PageTable.PhysMem.GrowAndFork` | kernel/src/process/process.rs:371-390 | A process that grows and then forks: the copy succeeds exactly when it has grown to a multiple of the page size, and panics otherwise |
| `PageTable.PhysMem.UvmClear` | kernel/src/memory/mapping/page_table.rs:436-442 | The entry of the page loses its user bit, nothing else changes in any tree; panics exactly when the walk finds no entry |
| `PageTable.ClearUIs` | kernel/src/memory/mapping/page_table_entry.rs:97-100 | Clearing the user bit keeps frame, validity and all other flags |
| `PageTable.PhysMem.ClearThenCopyOut` | kernel/src/process/elf.rs:262-290 | `copy_out` succeeds for, and writes to, the same pages after a page has lost its user bit |
| `PageTable.PhysMem.CopyOut` | kernel/src/memory/mapping/page_table.rs:447-519 | Succeeds exactly when every page up to the end address is mapped; then it is one flat write, and it terminates |
| `ShellGrammar.GetToken` | xv6-user/sh.c:269-312 | The token starts at the first character that is no white space: none at the end of the input, >> exactly where two of them stand, else the symbol there, else the longest word; the cursor moves to the next character that is no white space |
| `ShellTokens.LexedAreTokens` | xv6-user/sh.c:269-312 | An input consists of tokens in one way only, and `gettoken` gives these |
| `ShellTokens.TokensAreLexed` | xv6-user/sh.c:269-312 | The tokens `gettoken` gives, with white space around them, make up the whole input |
| `ShellTokens.LineSame` | xv6-user/sh.c:348-363 | The parser fails or succeeds, and with the same tree, as one that sees the tokens only: neither spacing nor positions matter |
| `ShellLanguage.SentenceParses` | xv6-user/sh.c:331-450 | Every sentence of the grammar, however spaced and with redirections in front of, between and behind the arguments, is accepted and read as what it means: the arguments in their order, wrapped in the redirections in theirs |
| `ShellLanguage.AcceptedIsSentence` | xv6-user/sh.c:331-450 | Whatever is accepted is such a sentence |
| `ShellLanguage.Language` | xv6-user/sh.c:331-450 | The parser reads a command in an input if and only if the input spells a sentence that means it |
| `ShellLanguage.AnySpacing` | xv6-user/sh.c:269-312 | Writing a sentence down with any white space that keeps apart tokens which would run together gives back its meaning |
| `ShellGrammar.AcceptedOk` | xv6-user/sh.c:419-450 | In an accepted input every argument and file is a whole word and no command has more than nine arguments |
| `ShellRoundTrip.RoundTrip` | xv6-user/sh.c:331-450 | Parsing the printed form of any command with at most nine arguments each gives it back and uses up the input |
| `ShellRoundTrip.PrintedMeansTheSame` | xv6-user/sh.c:331-450 | Every accepted input means what its printed form means |
| `ShellPrint.RedirsTrip` | xv6-user/sh.c:378-401 | Printed redirections parse back, in order |
| `ShellRoundTrip.ArgsTrip` | xv6-user/sh.c:433-446 | Printed arguments, with redirections behind them, parse back |
| `ShellRoundTrip.LineTrip` | xv6-user/sh.c:348-363 | A printed line parses back inside any text that ends a line |
| `ShellCode.Parser.NextToken` | xv6-user/sh.c:269-312 | The code of `gettoken` gives exactly the token at the cursor, as `GetToken` states it, and moves the cursor behind it and the white space that follows |
| `ShellCode.Parser.LookAhead` | xv6-user/sh.c:314-324 | The code of `peek` moves over white space and tests the next character |
| `ShellCode.Parser.ParseRedirs` | xv6-user/sh.c:378-401 | The loop collects what the grammar function says, or panics |
| `ShellCode.Parser.ParseArgs` | xv6-user/sh.c:433-448 | The argument loop collects what the grammar function says, or panics |
| `ShellCode.Parser.ParseExecCmd` | xv6-user/sh.c:419-450 | Agrees with the grammar function; terminates |
| `ShellCode.Parser.ParseBlockCmd` | xv6-user/sh.c:403-417 | Agrees with the grammar function; terminates |
| `ShellCode.Parser.ParsePipeCmd` | xv6-user/sh.c:365-376 | Agrees with the grammar function; terminates |
| `ShellCode.Parser.ParseLineCmd` | xv6-user/sh.c:348-363 | Agrees with the grammar function; terminates on every input |
| `ShellCode.NulTerminate` | xv6-user/sh.c:453-497 | Writes a NUL at exactly the recorded ends |
| `ShellCode.EndsOutside` | xv6-user/sh.c:299-306 | No recorded end lies inside a word |
| `ShellCode.TokensRead` | xv6-user/sh.c:453-497 | After termination each argument and file reads as exactly its original text |
| `ShellCode.ParseCommand` | xv6-user/sh.c:331-346 | The whole of `parsecmd`: accepts what the grammar accepts, and all tokens read as their original text afterwards |
| `MkfsDisk.WordRoundTrip` | xv6-mkfs/mkfs.c:56-66 | A word written lowest byte first reads back; no other word of the block changes |
| `MkfsDisk.WithInodeAt` | xv6-mkfs/mkfs.c:184-196 | Writing an inode changes that inode and no other |
| `Mkfs.Image.RInode` | xv6-mkfs/mkfs.c:198-209 | Reads the words of the inode |
| `MkfsDisk.InodePlace` | xv6-mkfs/mkfs.c:184-196 | Inode numbers up to 207 are written in the table, 208 to 223 over the bitmap, all others over data blocks |
| `Mkfs.Image.IAlloc` | xv6-mkfs/mkfs.c:220-232 | Takes the next number without a test and writes one block. The image stays sound exactly if the number is below 208; then the file is empty with the type given and one link, and all other files and inodes are as before |
| `Mkfs.RootIsFirst` | xv6-mkfs/mkfs.c:117-123 | The first data block is the root directory's, once its first entry is appended |
| `Mkfs.RootOverwritten` | xv6-mkfs/mkfs.c:220-232 | Inode 224 is written over the first entry of the root directory, whose inode number becomes the type of the new file |
| `Mkfs.Image.BlockFor` | xv6-mkfs/mkfs.c:266-285 | The block for an offset, direct or indirect, allocated only if missing and then zero; no file changes. Stops exactly when the blocks needed are not left |
| `Mkfs.Image.IAppend` | xv6-mkfs/mkfs.c:252-294 | The content becomes the old content followed by the new bytes; type and links of the inode, all other inodes and files and all other blocks before the data are unchanged; exactly the blocks needed are taken; stops exactly if the file would be too large or the blocks needed are not left |
| `Mkfs.Image.RoundSize` | xv6-mkfs/mkfs.c:163-168 | The size becomes the next multiple of the block size above it and no other word of any inode changes. The image stays sound exactly if the size was no multiple before; then the file goes on with zeros |
| `Mkfs.Image.BAlloc` | xv6-mkfs/mkfs.c:234-248 | Bit b of the bitmap is set exactly for the blocks in use, whatever the sizes say; no other block changes |
| `Mkfs.Image.Finish` | xv6-mkfs/mkfs.c:163-170 | After rounding and bitmap every block that an inode reaches is marked and files still share none; every inode has the type it was taken with and one link; all files but the root are as before, and the root reads as before followed by zeros exactly where the image is sound |
| `Mkfs.NoSharing` | xv6-mkfs/mkfs.c:252-294 | No block is shared between two inodes |
| `Mkfs.NoReuse` | xv6-mkfs/mkfs.c:252-294 | No block is used twice by one inode |
| `Mkfs.BitmapMarksReached` | xv6-mkfs/mkfs.c:234-248 | The bitmap marks every block that an inode reaches, with the root's size rounded or not |

## Left out

- LogSpace.BudgetHolds: holds, like LogSpace.NineBlocksAreSafe, for operations that log at most MAXOPBLOCKS fresh blocks each; the code does not check this.
- The cache machine has one device; `pin` and `unpin` are single steps.
- Buddy.BuddySystem.Init: requires leaves of at least 16 bytes, the size of a list node, metadata that ends inside the range, and what `BuddySetup.ReadsInsideIff` says; otherwise the code writes nodes past their blocks or accesses bits outside its bitmaps, which has no defined result.
- Bit packing of the buddy bitmaps and the bytes of the allocator's metadata: bitmaps are sets, list nodes a map from their addresses; `BuddyNodes.NodesApart` shows that the bytes of different nodes do not overlap.
- `buddy-allocator/` is a copy of `allocator/`.
- `kill`, `wait`, `exit`, `alloc_proc`, the rest of `fork` and the restoring of `intena` in `sched`.
- Sleepers other than those on sleep locks.
- `uvm_unmap`, `uvm_dealloc`, `uvm_free`: entries are not cleared after unmapping, so removal properties do not hold as written.
- `copy_in` and `copy_in_str` across pages: they measure from the unchanged start address.
- Running out of memory: a fresh frame or table is always found.
- Page faults of user programs: a header that `malloc` writes behind the break may be mapped or not.
- Super block and directory entries in `mkfs`.
- `runcmd` and the input loop of the shell.
- Pipes, the kernel's bitmap, inode and file layers, system calls, the virtio ring, console, network, traps and drivers.
