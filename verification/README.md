# A verified model of the kernel's concurrent and storage core

The system is xv6 for RISC-V with two schedulers added, a lottery and a stride scheduler.  This
project models the parts of it whose correctness is an argument about whole runs or whole data
structures, and proves those arguments in Dafny 4.11.  `dafny verify dfyconfig.toml` checks it.

* **Redo log** (`LogMachine`, `LogSafety`, `LogTheorems`, `RedoLog`).  kernel/log.c over the buffer
  cache and a disk with atomic, ordered block writes.  Every call, every block write of a commit or a
  recovery, every load, reference, release and eviction of a buffer, every change to a held buffer, every
  sleep in `begin_op` and a crash is one step of a machine; the theorems are about all its runs.  Readers
  outside operations take part with their references.
* **Buffer cache** (`Ring`, `Buffers`, `BufferCache`).  kernel/bio.c with its doubly linked list kept in
  two link arrays.  What `bread` would return for a block is the abstract value.
* **The log on the cache** (`CacheTie`, `RedoLog`).  The class `RedoLog.Log` is the code of kernel/log.c
  with its loops and its in-memory header, calling the methods of `BufferCache.Cache`.  A buffer's
  reference count is the number of its pins and holders, each method extends a run of the machine, so the
  theorems hold of the code, and it follows that buffers nobody uses agree with the disk.
* **Stride scheduler** (`ProcTable`, `Stride`, `Spinlock`, `StrideScheduler`) and **lottery scheduler**
  (`LotteryDraw`, `LotteryShare`, `Lottery`, `LotteryScheduler`).  The scan loops with their locks, and
  what they amount to over time: proportional share, bounded waiting, the period of the generator, the
  exact share of each class, round robin within a class.
* **Sleep locks** (`SleepLock`) and **fork, exit and wait** (`WaitExit`).  Machines whose steps are the
  pieces of code between two lock operations, for any number of processes and any interleaving.
* **Files** (`Bitmap`, `FileBlocks`, `BlockCosts`, `FileSystem`).  Bitmap bytes, inodes, direct and indirect blocks
  stand for a table of byte sequences; every block has one owner.
* **Page tables** (`PageTree`, `Pool`, `Costs`, `Growth`, `Filling`, `Shrinking`, `Taking`, `UserBytes`,
  `PhysMem`).  Physical pages, the free list threaded through them and three-level trees
  stand for flat maps from virtual page to entry; every page has one owner.
* **User allocator** (`FreeBlocks`, `Malloc`).  user/umalloc.c: a circular, address-ordered, coalescing
  free list and the units it hands out.

`Params` and `DiskBlocks` have what several parts share, `Folding` keeps large definitions closed until a
proof asks for them, and `Arithmetic` has a few facts about products and quotients.

## What does not hold, and exactly when it does

* `begin_op` promises every operation room for MAXOPBLOCKS blocks.  The size test of `log_write` breaks
  the promise exactly for logs of at most LOGSIZE blocks (`LogTheorems.LogLargeEnough`); mkfs makes a
  log of LOGSIZE blocks (mkfs/mkfs.c:25).
* `begin_op` counts MAXOPBLOCKS for every live operation, whatever it has logged already.  So it may refuse
  needlessly (`LogTheorems.NeedlessRefusal`); `LogTheorems.RefusalNeededIff` says exactly when it does not.
* The size test comes before the search for the block, so a write that would only be absorbed panics
  exactly if the log is full: LOGSIZE blocks, or size - 1 in a log that is not larger
  (`LogTheorems.AbsorptionRefusedIff`).  That happens in runs where every operation keeps its budget
  (`LogTheorems.FullLogRefusesAbsorption`); in a log of more than LOGSIZE blocks only when every live
  operation has spent all of it (`LogTheorems.RefusedOnlyWhenSpent`).
* `bget` panics exactly if the block is not cached and the pinned and held blocks are NBUF
  (`LogTheorems.NoBufferIff`), so `write_log` panics exactly if its log block is not cached and the blocks of
  the transaction together with the other held blocks are NBUF
  (`LogTheorems.CommitNeedsOneFreeBuffer`).  NBUF equals LOGSIZE: one reader is enough beside 29 blocks,
  and none is needed beside 30 (`LogTheorems.ReadersExhaustBuffers`).
* Recycling a buffer is invisible exactly if the disk has what it holds (`Buffers.RecycleInvisibleIff`).
  Under the log that is always so (`RedoLog.Log.CacheIsClean`).  The path of `writei` whose copy from user
  space fails (kernel/fs.c:522-525) releases a changed buffer without `log_write`, and the change is lost
  when the buffer is recycled (`Buffers.UnloggedChangeIsLost`).
* A runnable process is dispatched by the stride scheduler within some bound exactly if every process
  that is ahead of it has a positive stride (`Stride.WaitIsBoundedIff`).  Plain `fork` sets no stride, and
  its child in a slot never used before starves others (`StrideScheduler.ForkedChildStarves`).
* `forkprio` panics exactly if it finds a slot and the copy of the parent's memory fails: it acquires a
  lock that it already holds (`StrideScheduler.Scheduler.ForkPrio`).
* The lottery's classes are drawn in the ratio 16386 : 8192 : 5460 : 2730, not 6 : 3 : 2 : 1
  (`LotteryShare.ExactShares`), and a process whose class is none of the four, which `forkprio` accepts,
  never runs (`Lottery.OtherClassesNeverRun`).
* `malloc` passes sbrk a size as an int.  What it then hands out lies below the break exactly for requests of
  at most 2^31 - 32 bytes (`Malloc.SbrkFits`, `Malloc.Heap.Malloc`); the largest request asks for 2^28 + 1
  units and gets one (`Malloc.LargestRequest`).
* A comment in `allocproc` calls class 3 the lowest priority; `forkprio` gives every class other than 0,
  1 and 2 the most tickets.  The model follows the code.

## Model

| member | source | states |
|---|---|---|
| `LogMachine.HeadRoundTrip` | kernel/log.c:87-113 | Reading a header that was written gives the same list of block numbers, and the words beyond it are untouched. |
| `LogSafety.StepKeepsInv` | kernel/log.c:69-235 | Every step keeps the invariant that ties disk, cache, pins, holders, changes under way, in-memory header and the histories of durable and pending writes together. |
| `LogSafety.DataModify` | kernel/log.c:205-215 | An operation's change to a buffer it holds touches neither the durable state nor what readers see of any other block. |
| `LogSafety.DataLogWrite` | kernel/log.c:215-235 | An append or absorption makes the content of the held buffer the current one and keeps the durable state. |
| `LogSafety.DataWriteSlot` | kernel/log.c:179-191 | Copying a block to its log slot changes neither what recovery would restore nor what readers see. |
| `LogSafety.DataWriteCommit` | kernel/log.c:103-113 | The header write moves the durable state from before the whole transaction to after it. |
| `LogSafety.DataInstallOne` | kernel/log.c:69-83 | Installing a block, in commit or in recovery, keeps the durable state, and unpins exactly that block in commit. |
| `LogSafety.DataClearHead` | kernel/log.c:117-123 | Clearing the header once all blocks are installed keeps the durable state. |
| `LogSafety.DataCrash` | kernel/log.c:117-123 | Losing the memory at any moment loses exactly the writes that are not durable. |
| `LogTheorems.RunKeepsInv` | kernel/log.c:55-235 | The invariant holds at the end of every run from a formatted disk. |
| `LogTheorems.CrashRecovery` | kernel/log.c:69-123 | After any run, a crash and a recovery with any number of further crashes, the home blocks hold exactly the committed transactions and the on-disk header is empty. |
| `LogTheorems.CommitIsAtomic` | kernel/log.c:194-203 | A crash between any two block writes of a commit leaves, after recovery, exactly the state before the transaction or exactly the state after it. |
| `LogTheorems.OperationsAreAtomic` | kernel/log.c:127-175 | Of the writes of one operation the durable history has all or none, and none while it is live: they are in one transaction. |
| `LogTheorems.NoCommitDuringOperation` | kernel/log.c:147-175 | committing implies that nothing is outstanding, so the panic of end_op is not reached. |
| `LogTheorems.PinnedUntilInstalled` | kernel/log.c:215-235 | Logged block numbers are distinct; each is pinned once and cached, with its current content unless an operation is just changing it, until it is installed; nothing else is pinned. |
| `LogTheorems.DirtyIsPinnedOrHeld` | kernel/log.c:205-235 | A buffer differs from the disk only while it is pinned, or held by the live operation that is changing it. |
| `LogTheorems.SpaceIsReserved` | kernel/log.c:127-142 | If no operation adds more than MAXOPBLOCKS blocks, logged blocks plus unused reservations never exceed LOGSIZE, in any run. |
| `LogTheorems.RoomForEveryPromise` | kernel/log.c:220-221 | With a log of more than LOGSIZE blocks an operation with budget left never meets the size panic. |
| `LogTheorems.SmallOperationsFit` | kernel/file.c:155-174 | With a log of more than LOGSIZE blocks, if every operation logs at most MAXOPBLOCKS different blocks, one that has logged fewer never meets the size panic, however often it logs them, and its writes become durable together. |
| `LogTheorems.LogLargeEnough` | kernel/log.c:215-235 | On a disk with LOGSIZE blocks beyond the log, that promise holds over all runs if and only if the log has more than LOGSIZE blocks. |
| `LogTheorems.NoSleeperStuck` | kernel/log.c:127-175 | A process asleep in begin_op could not begin if it looked, and while it is asleep an operation is outstanding or a commit runs, whose end wakes it. |
| `LogTheorems.RefusalNeededIff` | kernel/log.c:134-136 | Outside a commit begin_op refuses whenever one more reservation would promise more than LOGSIZE blocks; it refuses needlessly if and only if that reservation fits and the blocks that live operations have already added, counted again, do not. |
| `LogTheorems.NeedlessRefusal` | kernel/log.c:134-136 | It happens with every operation within budget: two have added ten blocks each, and a third is refused although ten blocks are left that nobody else may use. |
| `LogTheorems.AbsorptionRefusedIff` | kernel/log.c:220-233 | log_write of a held block that is already logged panics if and only if the log is full: min(LOGSIZE, size - 1) blocks. |
| `LogTheorems.RefusedOnlyWhenSpent` | kernel/log.c:220-233 | In a log of more than LOGSIZE blocks with every operation within budget, it panics only when every live operation has spent its whole budget. |
| `LogTheorems.FullLogRefusesAbsorption` | kernel/log.c:220-233 | On every log with room for a block it does happen, with every operation within budget. |
| `LogTheorems.NoBufferIff` | kernel/bio.c:59-89 | bread finds neither the block nor a buffer it may use if and only if the block is not cached and the pinned and held blocks are NBUF. |
| `LogTheorems.CommitNeedsOneFreeBuffer` | kernel/log.c:179-191 | write_log has no buffer for its next log block if and only if that block is not cached and the logged blocks and the other held blocks are NBUF together. |
| `LogTheorems.ReadersExhaustBuffers` | kernel/file.c:120-124 | For every m up to LOGSIZE and below the log size there is a run in which m blocks are being committed, NBUF - m readers hold one block each, and write_log has no buffer: 29 blocks and one reader, or 30 and none. |
| `CacheTie.AllInUse` | kernel/bio.c:75-88 | Every buffer has a reference if and only if the pinned and held blocks are NBUF. |
| `RedoLog.Log.CacheIsClean` | kernel/log.c:205-235 | Buffers that nobody uses agree with the disk: what was changed was logged before it was released, log_write pinned it, and install_trans writes it before it unpins it. |
| `RedoLog.Log.Bread` | kernel/bio.c:92-103 | The block is cached with one more holder and what bread would return; every pinned or held block stays cached; it panics exactly if the block is not cached and the pinned and held blocks are NBUF. |
| `RedoLog.Log.Brelse` | kernel/bio.c:116-137 | One holder less; every buffer keeps its block and the count stays the number of pins and holders. |
| `RedoLog.Log.WriteLog` | kernel/log.c:179-191 | The loop writes every log block and takes exactly the steps of the machine; it runs out of buffers exactly if some log block is not cached and the pinned and held blocks are NBUF. |
| `RedoLog.Log.WriteHead` | kernel/log.c:103-113 | The header write is the commit step; it runs out of buffers under the same condition for the header block. |
| `RedoLog.Log.FillHead` | kernel/log.c:103-113 | The loop over the in-memory list produces the encoded header. |
| `RedoLog.Log.InstallTrans` | kernel/log.c:69-83 | The loop installs every logged block in order, in commit and in recovery; in commit it runs out of buffers exactly if some log block is not cached, the pinned and held blocks are NBUF, and every block installed before it is held. |
| `RedoLog.Log.ReadHead` | kernel/log.c:87-97 | The in-memory list becomes the one in the header block. |
| `RedoLog.Log.Commit` | kernel/log.c:194-203 | All pending writes become durable and the disk has, for every home block, what bread returned before; with nothing logged the disk is not touched; it runs out of buffers exactly if the pinned and held blocks are NBUF and the header block or some log block is not cached. |
| `RedoLog.Log.Crash` | kernel/log.c:55-66 | A power failure leaves the disk as it is and a cache as binit makes it, and is the crash step of the machine. |
| `RedoLog.Log.Recover` | kernel/log.c:117-123 | Afterwards the home blocks are the committed history played back, and the log is empty; with two buffers that nobody uses it does not fail, so it never does after a crash. |
| `RedoLog.Log.BeginOp` | kernel/log.c:127-142 | Grants the operation exactly if no commit runs and the reserved space suffices, and sleeps otherwise. |
| `RedoLog.Log.LogWrite` | kernel/log.c:215-235 | Appends or absorbs the block of the held buffer, pinning it on append only, or panics exactly if the log is full. |
| `RedoLog.Log.EndOp` | kernel/log.c:147-175 | The last operation commits everything pending and wakes the sleepers; an earlier one only gives up its reservation; with nothing logged the disk is not touched; it fails exactly if the commit runs out of buffers. |
| `Ring.Unlinked` | kernel/bio.c:128-129 | The two link updates take one node out of the ring and keep the order of the others, in both directions. |
| `Ring.LinkedIn` | kernel/bio.c:130-133 | The four link updates put a node right after the head. |
| `Ring.Permutation` | kernel/bio.c:37-54 | A ring of NBUF different buffers has all of them. |
| `Buffers.RecycleInvisibleIff` | kernel/bio.c:77-86 | Recycling an unused buffer changes nothing that bread returns for any block if and only if the disk has what the buffer holds; in a clean cache it has. |
| `Buffers.UnloggedChangeIsLost` | kernel/fs.c:522-525 | A change released without log_write is what bread returns until the buffer is recycled, and is lost then. |
| `Buffers.LoadIsInvisible` | kernel/bio.c:92-103 | Filling a buffer from the disk changes nothing that bread returns. |
| `Buffers.WriteIsInvisible` | kernel/bio.c:106-112 | Writing a buffer to the disk changes nothing that bread returns. |
| `Buffers.ChangeIsLocal` | kernel/log.c:215-235 | A holder's change shows up in that block and no other. |
| `Buffers.CountIsInvisible` | kernel/bio.c:139-151 | Reference counts are not visible to bread, and dropping the last one leaves the cache clean if and only if it was clean and the disk has the content. |
| `BufferCache.Cache.LinkFront` | kernel/bio.c:130-133 | The buffer becomes the first of the list and the others keep their order. |
| `BufferCache.Cache.Unlink` | kernel/bio.c:128-129 | The buffer leaves the list and the others keep their order. |
| `BufferCache.Cache.FindCached` | kernel/bio.c:65-74 | The walk from the front finds the buffer of the block, or there is none. |
| `BufferCache.Cache.FindUnused` | kernel/bio.c:75-87 | The walk from the back finds the least recently used buffer without references, or all are referenced. |
| `BufferCache.Cache.Bget` | kernel/bio.c:59-89 | A hit counts a reference; a miss recycles the least recently used unused buffer; it panics exactly if there is neither; what bread returns stays the same exactly if the disk has what the recycled buffer held. |
| `BufferCache.Cache.Bread` | kernel/bio.c:92-103 | The returned buffer holds what bread would return for that block. |
| `BufferCache.Cache.Bwrite` | kernel/bio.c:106-112 | The disk has the buffer's content and no block's visible content changes. |
| `BufferCache.Cache.Brelse` | kernel/bio.c:116-137 | One reference less, invisible to readers; the cache stays clean exactly if other users remain or the disk has the content; the last release moves the buffer to the front and the list stays a permutation of all buffers. |
| `BufferCache.Cache.Bpin` | kernel/bio.c:139-144 | One reference more, invisible to readers. |
| `BufferCache.Cache.Bunpin` | kernel/bio.c:146-151 | One reference less, invisible to readers; the cache stays clean exactly if other users remain or the disk has the content. |
| `BufferCache.VictimIsOldest` | kernel/bio.c:75-87 | Over any history of last releases, of all unused buffers the one that bget recycles is the one released longest ago. |
| `Spinlock.Cpu.Acquire` | kernel/spinlock.c:22-43 | The lock is held, interrupts are off and the nesting is one deeper. |
| `Spinlock.Cpu.Release` | kernel/spinlock.c:47-73 | Undoes an acquire; interrupts come back with the outermost release if they were on. |
| `Spinlock.Cpu.Nested` | kernel/spinlock.c:84-110 | push_off and pop_off together change neither the nesting nor the interrupt flag. |
| `Stride.PickUnique` | kernel/proc.c:146-148 | At most one slot has least pass and then greatest pid. |
| `Stride.PickExists` | kernel/proc.c:141-160 | There is a pick as soon as some slot is runnable. |
| `Stride.PickIsLeast` | kernel/proc.c:146-148 | The pick is RUNNABLE, has the least pass and, among those, the greatest pid; with distinct pids exactly that slot is the pick. |
| `Stride.NewerGoesFirst` | kernel/proc.c:146-148 | Of two runnable processes with equal pass the one with the smaller pid does not run until the other has, however long the run. |
| `Stride.RunKeepsClose` | kernel/proc.c:161-177 | Passes of runnable processes never differ by more than a stride, over any run of dispatches. |
| `Stride.PairwiseShare` | kernel/proc.c:131-179 | Dispatches of any two processes are proportional to their tickets, to within one dispatch. |
| `Stride.ProportionalShare` | kernel/proc.c:131-179 | After N dispatches of n forkprio processes with T tickets in all, N t - (n-1) t <= runs T <= N t + T - t for a process with t tickets. |
| `Stride.BoundedWaiting` | kernel/proc.c:137-178 | Each dispatch of another process uses up some of a waiting process's bound, which is the sum of floor((pass_i - pass_j)/stride_j)+1 over those ahead of it. |
| `Stride.Starved` | kernel/proc.c:137-178 | A process ahead with a stride that is not positive keeps another waiting for any number of dispatches. |
| `Stride.WaitIsBoundedIff` | kernel/proc.c:137-178 | The waiting time is bounded if and only if every process ahead has a positive stride. |
| `StrideScheduler.TicketsOf` | kernel/proc.c:353-366 | Every class has a positive number of tickets that divides 10000, so stride times tickets is exactly 10000; which numbers they are is told by `ClassShares` and `ForkPrio`. |
| `StrideScheduler.ClassShares` | kernel/proc.c:353-366 | Over any run of forkprio children, one of class 0 is dispatched twice as often as one of class 1, one of class 2 five times, and one of any class but 0, 1 and 2 two hundred times, to within one dispatch of the rarer one. |
| `StrideScheduler.Scheduler.Scan` | kernel/proc.c:141-160 | The scan ends holding exactly the lock of the RUNNABLE slot with least pass and then greatest pid, or none if nothing is RUNNABLE; locks are taken in increasing order, at most two at once. |
| `StrideScheduler.Scheduler.Round` | kernel/proc.c:137-178 | One turn dispatches the RUNNABLE slot with least pass and then greatest pid, if any, holding its lock alone with noff 1, advances its pass by its stride and leaves no lock held, whatever happens to the other slots meanwhile. |
| `StrideScheduler.Scheduler.AllocProc` | kernel/proc.c:264-305 | The first unused slot, locked, with a fresh pid; -1 exactly if there is none or no page for it, and then no lock is held; pids stay distinct. |
| `StrideScheduler.Scheduler.ForkPrio` | kernel/proc.c:312-380 | The first unused slot becomes a runnable process with a fresh pid, the tickets of its class, stride 100, 200, 40 or 1 for class 0, 1, 2 or any other, and pass 0; it fails exactly if allocproc does, and panics on a lock it holds exactly if only the memory copy fails. |
| `StrideScheduler.Scheduler.Fork` | kernel/proc.c:512-560 | The first unused slot becomes a runnable process that keeps the slot's old tickets, stride and pass; it fails exactly if allocproc or the memory copy does, and then the slot is unused and unlocked. |
| `StrideScheduler.ForkedChildStarves` | kernel/proc.c:512-560 | A child of fork in a slot never used before can keep a process with a positive pass waiting for ever. |
| `LotteryDraw.IterIsAffine` | kernel/proc.c:40-43 | n draws are one affine map modulo 2^32. |
| `LotteryDraw.TicketRanges` | kernel/proc.c:59-71 | Of twelve tickets, 0 to 5 are class 0, 6 to 8 class 1, 9 and 10 class 2, and 11 class 3. |
| `LotteryDraw.DrawIsHighBits` | kernel/proc.c:40-43 | A draw is bits 16 to 30 of the seed. |
| `LotteryDraw.FirstDraws` | kernel/proc.c:38-71 | From the seed 123456 the first three draws are 20815, 19240 and 6163, for classes 1, 0 and 1. |
| `LotteryDraw.GeoDivides` | kernel/proc.c:40-43 | For a multiplier that is 1 modulo 4, 2^e divides the sum of its first n powers exactly if it divides n. |
| `LotteryDraw.FullPeriod` | kernel/proc.c:40-43 | The generator returns to a seed exactly after multiples of 2^32 draws. |
| `LotteryDraw.NoRepeat` | kernel/proc.c:40-43 | No seed repeats within 2^32 consecutive draws. |
| `LotteryShare.DrawnIsSeeds` | kernel/proc.c:59-71 | In 2^32 consecutive draws each class comes up once for every seed of that class. |
| `LotteryShare.ExactShares` | kernel/proc.c:38-71 | In 2^32 consecutive draws the classes come up exactly 16386, 8192, 5460 and 2730 times 2^17. |
| `Lottery.SearchFinds` | kernel/proc.c:103-124 | The loop finds the eligible slot nearest to the cursor, or there is none. |
| `Lottery.WaitIsPaid` | kernel/proc.c:97-125 | While a process waits, its distance from the cursor pays for every draw of its class, so there are fewer than NPROC of them. |
| `Lottery.TurnsGoForward` | kernel/proc.c:103-120 | Every draw of the class runs a slot further on and strictly shortens the distance. |
| `Lottery.NoClassmateTwice` | kernel/proc.c:97-125 | Nobody of its class runs twice before a waiting process runs. |
| `Lottery.NobodyStarves` | kernel/proc.c:97-125 | A process that stays runnable in one of the four classes runs within 2^32 rounds. |
| `Lottery.OtherClassesNeverRun` | kernel/proc.c:108 | A process of any other class never runs. |
| `LotteryScheduler.Scheduler.RandLottery` | kernel/proc.c:40-43 | The seed advances by the 32-bit map and the result is its high part. |
| `LotteryScheduler.Scheduler.SorteioPrioridade` | kernel/proc.c:59-71 | The class is 0 for tickets 0 to 5, 1 for 6 to 8, 2 for 9 and 10, and 3 for 11. |
| `LotteryScheduler.Scheduler.RunNext` | kernel/proc.c:103-124 | The loop runs the slot that the search of the specification finds, holds one lock at a time and at the switch exactly the lock of that slot, with noff 1. |
| `LotteryScheduler.Scheduler.Round` | kernel/proc.c:97-125 | One turn draws a ticket and runs the slot nearest after the cursor of its class, going round, that holds a RUNNABLE process of that class, or none if there is none; the cursor moves just past that slot, and no lock is held afterwards. |
| `SleepLock.StepKeepsInv` | kernel/sleeplock.c:22-53 | Every step, spurious wakeups by kill included, keeps the invariant of the protocol. |
| `SleepLock.MutualExclusion` | kernel/sleeplock.c:22-53 | At most one process has the lock, and it is the one that holdingsleep recognizes. |
| `SleepLock.NoLostWakeup` | kernel/sleeplock.c:22-41 | Whenever the inner lock is free and locked is 0, nobody sleeps or is about to sleep on the lock. |
| `SleepLock.NeverStuck` | kernel/proc.c:781-849 | Some process can always move while one is in the protocol and nobody is using the lock. |
| `SleepLock.LifeCycle` | kernel/sleeplock.c:22-41 | In every run a process leaves acquiresleep only by taking a lock that was free, and is its owner then; it gives it up only in releasesleep, and leaves that only when nobody sleeps on the lock. |
| `SleepLock.AloneAcquires` | kernel/sleeplock.c:22-31 | acquiresleep of a free lock by a process that nobody gets in the way of takes it in four steps and changes nothing else. |
| `WaitExit.StepKeepsInv` | kernel/proc.c:512-668 | Every step of fork, exit, reparent, wait, sleep, wakeup and kill keeps the invariant of the process tree. |
| `WaitExit.RunKeepsInv` | kernel/proc.c:512-668 | The invariant holds after every run. |
| `WaitExit.SleepersHaveNothingToReap` | kernel/proc.c:624-668 | Whenever wait_lock is free, a process asleep in wait has a child and none of its children is a ZOMBIE. |
| `WaitExit.WaitReturns` | kernel/proc.c:624-668 | In every run wait returns only with a ZOMBIE child that it has freed, or with no ZOMBIE child because it has no child or was killed, or because the copy of the status failed at one; it goes to sleep only with a child, none of them a ZOMBIE, and not killed. |
| `WaitExit.ScanAlone` | kernel/proc.c:632-667 | From any state of the invariant a scan that nobody gets in the way of frees the first ZOMBIE child in the rest of the table and returns; without one it sleeps exactly if it has a child and was not killed. |
| `WaitExit.NobodyIsOrphaned` | kernel/proc.c:564-618 | Every started process other than init has a parent that is neither ZOMBIE nor UNUSED. |
| `WaitExit.ForkReturns` | kernel/proc.c:512-560 | fork returns with a RUNNABLE child whose parent is the caller, or has freed the slot again. |
| `WaitExit.ExitLeavesZombie` | kernel/proc.c:582-618 | A process becomes a ZOMBIE only in exit; then it has no children and its parent is not asleep in wait. |
| `WaitExit.OnlyWaitReaps` | kernel/proc.c:624-668 | A ZOMBIE becomes UNUSED only by its parent's wait. |
| `WaitExit.NoDeadlock` | kernel/proc.c:512-668 | While a process is inside fork, exit or wait and not asleep, some process can take its next step. |
| `Bitmap.MaskIsShift` | kernel/fs.c:75 | The masks are the powers of two. |
| `Bitmap.MarkBit` | kernel/fs.c:75-102 | Setting or clearing one bit of one byte changes the described set by exactly that block. |
| `Bitmap.FreeMap.Take` | kernel/fs.c:66-87 | The nested search marks and returns the first free block, or there is none. |
| `Bitmap.FreeMap.Give` | kernel/fs.c:92-105 | The block is free afterwards and no other bit changes. |
| `FileBlocks.WordRoundTrip` | kernel/fs.c:402-417 | Storing a word in an indirect block and reading it back gives it; the other words stay. |
| `FileBlocks.ExtendKeepsOwned` | kernel/fs.c:383-421 | Linking a free block into an empty place keeps every block owned by exactly one place. |
| `FileBlocks.AllocKeepsSound` | kernel/fs.c:66-87 | Allocating and zeroing a free block changes no file and keeps the set bits exactly metadata, owned blocks and that block. |
| `FileBlocks.LinkDirectSound` | kernel/fs.c:388-396 | A direct block is linked in without changing any file. |
| `FileBlocks.LinkIndirectSound` | kernel/fs.c:401-406 | An indirect block is linked in without changing any file. |
| `FileBlocks.LinkEntrySound` | kernel/fs.c:407-417 | An entry of the indirect block is linked in without changing any file. |
| `FileBlocks.PatchWrites` | kernel/fs.c:518-526 | memmove into one data block writes those bytes of that file. |
| `FileBlocks.PatchKeepsOthers` | kernel/fs.c:518-526 | ... and changes no byte of any other file. |
| `FileBlocks.SpliceReads` | kernel/fs.c:472-539 | Reading back a written range gives what was written; bytes outside it are the old ones. |
| `FileBlocks.TruncKeepsSound` | kernel/fs.c:426-453 | Emptying an inode and releasing exactly its blocks keeps the pool sound. |
| `FileBlocks.TouchedFew` | kernel/fs.c:506-539 | A write over k places touches at most k data blocks and the indirect block. |
| `FileSystem.Volume.Balloc` | kernel/fs.c:66-87 | The first free block, zeroed, or 0 exactly if every block is in use; the block and its bitmap block are logged. |
| `FileSystem.Volume.Bmap` | kernel/fs.c:383-421 | Where the block is, allocated now if it was nowhere; exactly the place itself and, beyond the direct blocks, the indirect block's place get blocks as far as they had none, and it is 0 only if the disk is full; no file's bytes change; every block and every bit it changed is logged. |
| `FileSystem.Volume.Readi` | kernel/fs.c:472-501 | The bytes of the file from off on, as many as asked for and present; a sum that wraps around reads nothing; reading allocates and changes nothing. |
| `FileSystem.Volume.Writei` | kernel/fs.c:506-539 | -1 exactly for a bad offset or size; otherwise the written prefix is spliced in at off and no other byte of any file changes; everything is written if and only if there are enough free blocks for the places without one; every changed block, the bitmap block of every changed bit and the inode block are logged, and only the touched, bitmap and inode blocks are. |
| `BlockCosts.FitsMeans` | kernel/fs.c:506-539 | That condition in the inode's terms: the blocks it reaches whose address is 0, the indirect block included, are at most as many as the free blocks. |
| `FileSystem.LoggedMeans` | kernel/log.c:205-235 | What it means that changes are logged: every block that differs, and the bitmap block of every bit that differs, is in the set. |
| `FileSystem.Volume.Itrunc` | kernel/fs.c:426-453 | Exactly the inode's blocks become free, the file is empty, no other file changes, the bitmap block of every freed block and the inode block are logged, and the panic of bfree is not reached. |
| `FileSystem.FewBlocks` | kernel/file.c:155-174 | Four data blocks, an indirect, a bitmap and an inode block at most. |
| `FileSystem.OpenFile.WriteChunk` | kernel/file.c:155-170 | One operation of filewrite logs at most seven blocks, within MAXOPBLOCKS, when the bitmap is one block, and among them everything it changed; it splices the written prefix in at the offset. |
| `FileSystem.OpenFile.Write` | kernel/file.c:147-176 | The chunks add up to one splice at the old offset; the result is n exactly if everything was written; every operation keeps its bound and logs what it changed, and without a failure there are exactly ceil(n / 3072) of them. |
| `Pool.Push` | kernel/kalloc.c:47-63 | Linking a page in front keeps the list threaded through the free pages. |
| `PageTree.PathStep` | kernel/vm.c:91-102 | The indices that walk uses lead down the tree to the virtual page. |
| `PageTree.EntryChange` | kernel/vm.c:86-172 | Replacing an entry with nothing below it changes the tree in that one node. |
| `PageTree.LinkTable` | kernel/vm.c:96-99 | Linking a zeroed table changes no translation of any space. |
| `PageTree.MapOwn` | kernel/vm.c:161-165 | Storing a leaf entry adds exactly that translation, and the page gets that owner. |
| `PageTree.MapLent` | kernel/vm.c:161-165 | The same for a page that stays somebody else's, as the trampoline and the trapframe do. |
| `PageTree.UnmapLeaf` | kernel/vm.c:186-198 | Clearing a leaf entry removes exactly that translation. |
| `PageTree.NewRoot` | kernel/vm.c:204-212 | A zeroed page is a tree that maps nothing. |
| `PageTree.NoLeaf` | kernel/vm.c:279-294 | In a tree that maps nothing, freewalk meets tables and empty entries only. |
| `PhysMem.Memory.constructor` | kernel/kalloc.c:26-40 | Exactly the whole pages of the range are free. |
| `PhysMem.Memory.Kfree` | kernel/kalloc.c:47-63 | The page becomes the head of the free list. |
| `PhysMem.Memory.Kalloc` | kernel/kalloc.c:69-82 | The first free page, or 0 exactly if there is none. |
| `PhysMem.Memory.Walk` | kernel/vm.c:86-103 | The table for a virtual page; no translation changes, nothing at all without alloc; with alloc exactly the tables missing on the way are added, and it fails exactly if there are too few free pages for them. |
| `PhysMem.Memory.Walkaddr` | kernel/vm.c:109-126 | The page of a mapping with the user flag, 0 exactly if there is none below MAXVA. |
| `PhysMem.Memory.Mappages` | kernel/vm.c:144-172 | All translations of the range, exactly if the free pages suffice for the missing tables; otherwise a shorter prefix and -1; for one page exactly one or none. |
| `PageTree.MapRangeAt` | kernel/vm.c:158-170 | What a mapped range looks like, page by page. |
| `PhysMem.Memory.Uvmunmap` | kernel/vm.c:178-199 | Exactly the translations of the range go, and exactly their pages are freed or handed back. |
| `PhysMem.Memory.Uvmcreate` | kernel/vm.c:204-212 | A new empty space, or 0 if memory ran out. |
| `PhysMem.Memory.Uvmalloc` | kernel/vm.c:233-256 | Zeroed pages with the right flags for the range, exactly if the free pages suffice for the new pages and the page-table pages missing on their paths; otherwise 0, the spaces are as before and only page-table pages stay taken. |
| `PhysMem.Memory.Uvmdealloc` | kernel/vm.c:263-274 | Exactly the pages between the two rounded sizes go. |
| `PhysMem.Memory.Uvmcopy` | kernel/vm.c:313-340 | The child gets a copy of every page with the same flags, exactly if the free pages suffice for the copies and the missing page-table pages; otherwise -1, the spaces are as before and only page-table pages stay taken. |
| `Costs.EnoughMeans` | kernel/vm.c:233-256 | That condition as a number: at least k free pages and one for each table missing on the paths to the n pages; k + 2n are always enough. |
| `Costs.TableThere` | kernel/vm.c:86-103 | A table counts as present exactly if the tree in memory has a page for it. |
| `Costs.SpentShort` | kernel/vm.c:86-103 | Too few pages for one page of a range, after the pages before it took theirs, are too few for the range. |
| `Taking.Undone` | kernel/vm.c:244-252 | Unmapping what was mapped restores the spaces and leaves only page-table pages taken. |
| `PhysMem.Memory.Freewalk` | kernel/vm.c:279-294 | Frees exactly the subtree's pages and never meets a leaf. |
| `PhysMem.Memory.Uvmfree` | kernel/vm.c:299-304 | Every page of the tree joins the free list and nothing else changes hands. |
| `UserBytes.PatchWrote` | kernel/vm.c:372-376 | memmove into a user's page changes those bytes of that space and no other byte of any space. |
| `UserBytes.WroteReads` | kernel/vm.c:359-408 | Over any number of pages, what was written is what is seen. |
| `PhysMem.Memory.Copyout` | kernel/vm.c:359-383 | Succeeds exactly if every page is mapped with the user and write flags; then the user sees src there; otherwise the bytes before the first bad page are written. |
| `PhysMem.Memory.Copyin` | kernel/vm.c:389-408 | Succeeds exactly if every page is mapped for the user, and then yields what the user sees. |
| `PhysMem.Memory.OutAndIn` | kernel/vm.c:359-408 | copyout and then copyin of a range gives back the same bytes. |
| `Malloc.Units` | user/umalloc.c:69 | Enough units for the bytes and one header, and not one more. |
| `FreeBlocks.StopsAtSpot` | user/umalloc.c:30-32 | free's loop test holds at the last free block below the freed one and nowhere else. |
| `FreeBlocks.JoinedUp` | user/umalloc.c:33-37 | The freed block joins the list and absorbs the block above exactly if they touch. |
| `FreeBlocks.JoinedDown` | user/umalloc.c:38-42 | The block below absorbs it exactly if they touch; then no two free blocks touch. |
| `FreeBlocks.TakenWhole` | user/umalloc.c:76-77 | An exact fit leaves the list and becomes live; no unit moves. |
| `FreeBlocks.TakenTail` | user/umalloc.c:78-82 | The tail of a larger block becomes live; units are split without loss. |
| `FreeBlocks.FreeOrLive` | user/umalloc.c:24-90 | A unit is in a free block exactly if it was obtained from sbrk and is in no live block. |
| `FreeBlocks.Canonical` | user/umalloc.c:24-90 | The free list and its sizes are determined by the units obtained and the live blocks, whatever the order of the calls. |
| `Malloc.Heap.FindSpot` | user/umalloc.c:29-32 | The search of free ends, wherever freep points, at the greatest free block below. |
| `Malloc.Heap.Free` | user/umalloc.c:24-44 | The block is no longer live, no unit is lost, the list is circular, in address order and coalesced, and freep is the greatest block that was free below it. |
| `Malloc.Heap.Morecore` | user/umalloc.c:46-61 | At least 4096 fresh units join the free blocks, and one is large enough. |
| `Malloc.SbrkFits` | user/umalloc.c:46-54 | sbrk is passed the size that morecore means if and only if the request is at most 2^31 - 32 bytes, and a smaller one above. |
| `Malloc.LargestRequest` | user/umalloc.c:46-54 | malloc(2^32 - 1) asks for 2^28 + 1 units and sbrk is passed 16 bytes. |
| `Malloc.Heap.Malloc` | user/umalloc.c:63-90 | The end of the first large enough free block after freep, or fresh units, never live before; freep becomes the free block before it; 0 exactly if no free block is large enough and sbrk fails; the search ends and asks for memory at most once; fresh units are all below the break exactly for requests of at most 2^31 - 32 bytes. |

## Left out

- Device and machine code, the trap path and assembly: a disk write is one atomic step and `swtch` runs the process until it gives the processor back.
- Pipes, the console, system call plumbing, exec, directories and path names: they add shorter arguments than the ones here.
- The on-disk copy of inodes: `iupdate` only adds the inode's block to the set of logged blocks, and `ilock`, `iget` and `iput` are not modelled.
- Weak memory: steps are sequentially consistent.
- Fixed-width overflow of pass, pid and reference counts: they are unbounded integers; 32-bit arithmetic is modelled for the lottery's seed and the offset checks of `readi` and `writei`.
- Several processors running a scheduler at once: seed and the cursors are unlocked globals in the source, and the scheduling results are for one scheduler loop.
- The packing of an entry's fields into 64 bits: an entry is a record of a page number and flags.
- The junk that `kfree` writes into a page besides its link.
- FileSystem.Volume.Readi: copies to kernel memory only, so a failing copy to user space is not modelled.
- FileSystem.Volume.Writei: copies from kernel memory only, so a failing copy from user space is not modelled.
- FileSystem.OpenFile.WriteChunk: copies from kernel memory only, as `Writei` does.
- FileSystem.OpenFile.Write: copies from kernel memory only, as `Writei` does.
- RedoLog.Log.Bread: does not model the wait for a buffer's sleep lock; a step of the machine that needs a buffer happens when it is held.
- RedoLog.Log.WriteLog: takes the readers' references as they are at the call; readers that come and go between its block writes are steps of the machine only.
- RedoLog.Log.InstallTrans: while recovering, states only that two buffers that nobody uses suffice, since nobody holds a buffer then.
- RedoLog.Log.EndOp: takes an operation that has passed every buffer it changed to `log_write`, as the comment above it asks.
- Spinlock.Cpu.Acquire: takes a lock that no other processor holds, so the spinning is not modelled.
- PhysMem.Memory.Uvmcopy: takes parents whose pages below sz are their own, as every user process has them.
- Malloc.Heap.Free: takes a pointer that malloc returned and that was not freed since.
