# Verified models of an xv6-riscv kernel

This project models the parts of an xv6-riscv kernel (with copy-on-write fork, 2 MB
pages and "GroupLock") where correctness depends on long runs, on interleavings or on
data structures that are changed in place, and proves what those parts are for.
`dafny verify dfyconfig.toml` checks everything. Nothing here is executed.

Two forms are used. Where processes interleave or the power can fail, a state machine
(a datatype of states, one of actions, `Enabled` and `Apply`) has an invariant that every
action keeps, and theorems over every run. Beside it, or alone where a lock makes the code
sequential, a class has the fields the C code has; its methods follow the C loops and are
proved against a specification function or shown to be steps of the machine.

| area | modules |
|---|---|
| redo log: crash atomicity, group commit, log space | `LogMachine`, `LogProofs`, `LogTheorems`, `LogBudget`, `LogCalls`, `LogCode` |
| buffer cache, and the log over it | `BufRing`, `BufCache`, `BufView`, `BufCrash`, `BufLog` |
| inode content layer and write budget | `FsBlock`, `FsModel`, `FsWrite`, `FsTrunc`, `FsSteps`, `FsCode`, `WriteBudget` |
| copy-on-write memory | `CowMachine`, `CowProofs`, `CowTheorems`, `CowCode`, `CowHuge` |
| 2 MB and 4 KB mappings | `PageTable`, `Mappages` |
| process life cycle | `ProcMachine`, `ProcProofs`, `ProcTheorems`, `ProcCode` |
| virtio disk driver | `VirtQueue`, `Virtio` |
| heap allocator | `FreeList`, `Umalloc` |
| shell parser | `ShellGrammar`, `ShellTokens`, `ShellSyntax`, `ShellParser`, `ShellRoundTrip`, `ShellTerminate`, `ShellCode` |
| grep | `Grep`, `GrepLines` |
| GroupLock | `GroupLock` |

`Params` holds the sizes of param.h, `Sets` one helper. A predicate that appears wrapped as `forall x :: x == v ==> P(x)`
says just `P(v)`; the wrapping keeps it folded for the verifier until it is named.

## What turned out not to hold

* `log_write` tests for space before it looks for an absorbed entry
  (`kernel/log.c:220-228`). An operation that has added its MAXOPBLOCKS entries can
  therefore panic on a block that is already logged: `LogBudget.AbsorbedWritePanics` gives
  the run. It cannot panic while the calling operation has added fewer than MAXOPBLOCKS
  entries: `LogTheorems.LogWriteSafe`; and it panics exactly when the log is full, which takes
  every running operation its whole reservation: `LogTheorems.PanicExactly`. Chunks of filewrite
  never meet the panic, in any interleaving: `WriteBudget.ChunksNeverPanic`, for the sets of blocks
  that `FsCode.FileSystem.Writei` provides. All this takes a log of LOGSIZE blocks beside the
  header, which initlog does not check: whatever the log's size, no run of operations within their
  budgets panics if and only if it has them: `LogBudget.RoomIff`.
* A commit needs a buffer beside those that are pinned, and NBUF equals LOGSIZE. Whatever other
  processes read meanwhile, a commit panics only when the blocks still pinned and the buffers in use
  are together NBUF or more; it always panics when NBUF blocks are logged, and without other users
  only then: `BufLog.BufLog.Commit`. `BufLog.FullLog` is a run of three operations, as begin_op
  admits them, that ends in the panic "bget: no buffers".
* A truncation logs a bitmap block for every BPB blocks the file is spread over, so it keeps to its
  reservation of MAXOPBLOCKS blocks if and only if these are fewer than MAXOPBLOCKS:
  `FsCode.FileSystem.Itrunc`. `FsCode.SpreadTruncation` makes the call on a file that is spread
  over ten of them.
* Pages of a 2 MB chunk are handed out with count 0 (`kernel/kalloc.c:143-156`), although the
  comment there says 1. After a fork, a child's store spares the parent's page if and only if the
  page's count was at least 1 before: `CowHuge.StoreSparesParentIff`. From the lists and counts that
  freerange leaves, every run shows every process its own bytes if and only if no aligned 2 MB chunk
  fits in the managed range: `CowHuge.RefinesIffNoChunk`, whose proof has the failing run.
* mappages' 2 MB branch panics "remap huge" on a range where nothing is mapped, if and only if a
  level-0 table was left where that branch is taken: `Mappages.UnmappedIff`.
  `Mappages.LeftoverTable` makes the call on an address space without a single mapping.
* malloc does not answer 0 to every request that it cannot serve. morecore's byte count becomes
  sbrk's int (`user/umalloc.c:54`), and a count that has become negative is not refused
  (`kernel/proc.c:260-275`): morecore then makes a block of memory that is not its own. This happens
  if and only if no free block fits, the bytes do not fit an int, and sbrk does not refuse what is
  left of them: `Umalloc.Allocator.Malloc`. `Umalloc.LargeMalloc` makes the call.
* grep does not print every matching line. A line that fills its buffer makes it ask read for 0 bytes
  (`user/grep.c:18`), which ends the input, and strchr does not look behind a NUL. A last
  line without a newline is never printed; the others are, for every pattern that they match, if and
  only if none of them has BUFSIZE - 1 characters or more, or a NUL: `GrepLines.PrintsMatchingIff`.
* GroupLock is not free of deadlock, although one of its routines claims so. A process in acquire's
  loop can still get out of it if and only if the chain from its lock to the holder, to the lock that
  holder tries, and so on, comes to a free lock or to a holder that is alive and tries none:
  `GroupLock.AcquireEndsIff`. `GroupLock.RingDeadlocks` runs n processes into a deadlock, for every
  n from 1 (a holder that acquires again) on. Exit releases no lock (`kernel/proc.c:346-386`), and
  `GroupLock.OrphanBlocks` is the run in which a process acquires a lock and exits, after which
  nobody who tries that lock ever gets out of the loop.

## Model

| member | source | states |
|---|---|---|
| `LogTheorems.CrashAtomicity` | kernel/log.c:68-123 | from every reachable state: a crash, then any reboot that completes, however often it is itself cut short by crashes between block writes, leaves exactly the durable home blocks, on disk and as seen through the cache |
| `LogTheorems.CrashSafety` | kernel/log.c:126-203 | over every run: after crash and recovery the disk is the initial disk with a prefix of all updates replayed, and no operation has updates on both sides of that cut |
| `LogTheorems.CommitSwitch` | kernel/log.c:193-203 | the durable state changes at commit's first header write and at no other action; there every logged block is applied at once, and no operation is open |
| `LogTheorems.RecoveryCompletes` | kernel/log.c:116-123 | from any boot state recovery runs to its end in a bounded number of block writes |
| `LogTheorems.RebootKeepsDurable` | kernel/log.c:67-123 | block writes of recovery and crashes inside it never change what the disk stands for |
| `LogTheorems.RunKeeps` | kernel/log.c:126-235 | every interleaving of begin_op, log_write, end_op, commit steps, cache loads and evictions, and crashes keeps the invariant |
| `LogTheorems.GroupCommit` | kernel/log.c:126-175 | while committing nobody is inside an operation, begin_op waits, log_write has no caller, and end_op's panic is unreachable |
| `LogTheorems.SpaceSafety` | kernel/log.c:126-142 | in every state of every run whose callers keep to their budget, lh.n plus all unused reservations stays within LOGSIZE, and with that many log blocks no operation that has added fewer than MAXOPBLOCKS entries makes log_write panic |
| `LogTheorems.PanicExactly` | kernel/log.c:219-223 | log_write panics exactly when the log is full, and then every running operation has used up its reservation |
| `LogTheorems.BlocksBudget` | kernel/log.c:214-235 | in every run of operations that log_write with fewer than MAXOPBLOCKS distinct blocks logged before, no log_write panics |
| `LogTheorems.LogWriteSafe` | kernel/log.c:214-223 | the guard of log_write passes for an operation within its budget |
| `LogTheorems.CallsBudget` | kernel/log.c:214-235 | an operation that has made fewer than MAXOPBLOCKS calls is within its budget, in every run |
| `LogBudget.AbsorbedWritePanics` | kernel/log.c:214-235 | three operations as begin_op admits them can fill the log with MAXOPBLOCKS entries each, and then a log_write of a block already in the log panics |
| `LogBudget.RoomIff` | kernel/log.c:54-65 | for a log of any size: in no run of operations within their budgets does one of them make log_write panic, if and only if the log has LOGSIZE blocks beside its header |
| `LogCalls.LedgerIs` | kernel/log.c:205-235 | along every run the updates are exactly the operations, blocks and contents that log_write was called with, in order, less those that a crash lost, and as many of them are durable as there were at the last commit |
| `LogCalls.RunShowsCalls` | kernel/log.c:205-235 | in every run, outside recovery, every home block reads as the last of these calls left it, and as in the beginning if there was none |
| `LogCalls.CrashKeepsCalls` | kernel/log.c:68-203 | after a crash and a completed recovery every home block is as the last call that had committed left it, and every other as in the beginning |
| `LogCalls.IdleIsCommitted` | kernel/log.c:146-175 | whenever no operation is open and no commit runs, every call has committed |
| `LogCode.ChainInv` | kernel/log.c:54-235 | every state on the trail of the code below satisfies the machine's invariant |
| `LogCode.TrailCrash` | kernel/log.c:54-203 | whichever point of the code the power fails at, recovery restores that point's durable blocks |
| `LogCode.TrailCalls` | kernel/log.c:205-235 | at every point of the code the updates are its calls of log_write with their contents, in order |
| `LogCode.Log.constructor` | kernel/log.c:54-65 | initlog recovers and leaves an empty log and an unchanged history |
| `LogCode.Log.CopyToLog` | kernel/log.c:183-190 | one turn of write_log: log block tail gets what the cache, or else the disk, has of the logged block, no other block changes, and it is one block write of the machine |
| `LogCode.Log.WriteLogBlocks` | kernel/log.c:178-191 | write_log copies every logged block to its log block and makes nothing durable |
| `LogCode.Log.WriteHeader` | kernel/log.c:102-114 | write_head writes exactly lh.n and lh.block to the header and no other block, as one step |
| `LogCode.Log.InstallOne` | kernel/log.c:73-82 | one turn of install_trans writes the log block's content to its home block and to no other, and unpins it unless recovering |
| `LogCode.Log.InstallTrans` | kernel/log.c:68-83 | all committed blocks reach their homes; the history does not change at any write |
| `LogCode.Log.Commit` | kernel/log.c:193-203 | at each block write of commit the history is the old one before index k, the header write, and the committed one from there on |
| `LogCode.Log.RecoverFromLog` | kernel/log.c:116-123 | recovery ends with an empty log; the history does not change at any write |
| `LogCode.Log.ReadHead` | kernel/log.c:85-97 | lh is what the header on disk lists |
| `LogCode.Log.BeginOp` | kernel/log.c:126-142 | an operation is admitted if and only if no commit runs and lh.n and the reservations with its own fit in LOGSIZE; then there is one more outstanding |
| `LogCode.Log.LogWrite` | kernel/log.c:214-235 | the cache has the new content of that block and every other as before, and the call is the one update added; the block is listed once, absorbed if already there, and pinned if and only if it was new |
| `LogCode.Log.EndOp` | kernel/log.c:146-175 | the last operation out commits every update at once, any other only leaves |
| `BufRing.MoveFrontPermutation` | kernel/bio.c:126-134 | moving a buffer to the front keeps one place per node |
| `BufRing.MoveFrontNext` | kernel/bio.c:128-133 | after brelse's assignments every next link leads to the following place, around the head |
| `BufRing.MoveFrontPrev` | kernel/bio.c:128-133 | the same for prev |
| `BufCache.Bcache.constructor` | kernel/bio.c:36-53 | binit links all NBUF buffers and the head into one ring |
| `BufCache.Bcache.Find` | kernel/bio.c:65-73 | the buffer of the block, or none has it |
| `BufCache.Bcache.Victim` | kernel/bio.c:75-86 | the unreferenced buffer whose last brelse to 0 is oldest, or all are referenced |
| `BufCache.Bcache.Bget` | kernel/bio.c:58-88 | the only buffer of the block, or the oldest unreferenced one recycled for it, whose block is then what the disk has; the panic if and only if the block is not cached and every buffer is referenced |
| `BufCache.Bcache.Fill` | kernel/bio.c:92-103 | a reader sees the latest content of the block |
| `BufCache.Bcache.Bwrite` | kernel/bio.c:106-112 | the disk has the latest content of that block |
| `BufCache.Bcache.ToFront` | kernel/bio.c:128-133 | the list stays a ring through all buffers, ordered by last release |
| `BufCache.Bcache.Brelse` | kernel/bio.c:116-137 | the user is dropped; on the last reference, and only then, the buffer becomes the most recent |
| `BufCache.Bcache.Bpin` | kernel/bio.c:139-144 | one more reference, which keeps the buffer from being recycled |
| `BufCache.Bcache.Bunpin` | kernel/bio.c:146-151 | one reference less; the list does not move |
| `BufView.NothingLost` | kernel/bio.c:75-86 | at any moment, whatever the processes are doing with the cache: recycling an unused buffer loses no content, because a changed block is pinned, locked by who changed it, or on the disk |
| `BufLog.BufLog.constructor` | kernel/log.c:54-65 | an empty log over a cache without pins |
| `BufLog.BufLog.LogWrite` | kernel/log.c:214-235 | a step of any process: the block is logged once, its buffer is pinned once more exactly if it was not logged, and no other buffer changes for anybody |
| `BufLog.BufLog.Others` | kernel/bio.c:58-137 | any steps of other processes: what p has, locked or not, and the disk stay as they are, nothing leaves the log, and without open operations or with readers only no content changes |
| `BufLog.BufLog.Get` | kernel/bio.c:92-103 | bread, which waits while another process has the lock: the buffer of the block, locked, with its latest content; the panic if and only if there is no buffer when bget looks; asleep only if the lock is held |
| `BufLog.BufLog.BeginOp` | kernel/log.c:126-142 | an operation is admitted if and only if its reservation fits |
| `BufLog.BufLog.Update` | kernel/log.c:205-235 | bread, change, log_write and brelse, with any steps of others in between: when the block is released its latest content is the new one, and it is logged and pinned; if the others only read, nothing else changes; or the panic, exactly if there is no buffer |
| `BufLog.BufLog.CopyToLog` | kernel/log.c:183-190 | with others reading in between, the log block gets the latest content of the logged block, in the cache and by one disk write; the panic if and only if there is no buffer for it |
| `BufLog.BufLog.InstallOne` | kernel/log.c:73-82 | likewise, the home block gets the log block's content by one disk write, and is no longer pinned |
| `BufLog.BufLog.WriteLog` | kernel/log.c:178-191 | write_log writes the log blocks in order and nothing else; it panics only if pinned blocks and buffers in use are NBUF or more, always if NBUF blocks are logged, and for a process alone only then |
| `BufLog.BufLog.Commit` | kernel/log.c:193-203 | the same for the whole commit; when it goes through, the disk has the latest content of every block and no block outside the log area has changed; its disk writes are the log blocks, the header, the home blocks and the empty header, in this order, and a panic leaves the first of them; from an empty log, a crash after any of them loses all of the commit or nothing |
| `BufLog.BufLog.EndOp` | kernel/log.c:146-175 | the last operation out commits, with what is said of Commit; any other changes nothing else |
| `BufView.FullCount` | kernel/bio.c:75-87 | when every buffer is referenced, the pinned ones and those that processes have are NBUF or more |
| `BufView.NoBufferIff` | kernel/bio.c:75-87 | without users, bread of a block that is not logged finds no buffer if and only if NBUF blocks are pinned |
| `BufLog.FullLog` | kernel/log.c:193-203 | from an empty cache, three admitted operations log NBUF blocks and the commit panics |
| `BufCache.RecycleAgrees` | kernel/bio.c:77-84 | recycling an unreferenced buffer keeps one buffer per block and changes no block that a referenced or pinned buffer has |
| `BufCrash.CommitAtomic` | kernel/log.c:193-203 | of the disk writes of a commit, in their order: a crash after any number of them leaves a disk that recovery turns into the one before the commit, or into the one with all its blocks changed, the latter from the first header write on |
| `FsModel.OneOwner` | kernel/fs.c:65-105 | a data block's bit is set if and only if some inode slot or indirect entry refers to it, and then only one does |
| `FsModel.AttachInv` | kernel/fs.c:382-421 | giving a free block to an empty slot keeps ownership, bitmap and the absence of holes |
| `FsBlock.WordSetWord` | kernel/fs.c:407-415 | an indirect block's word reads back as stored, the other words are untouched |
| `FsWrite.FinishContent` | kernel/fs.c:505-539 | once the size is set, exactly the written range of the file is replaced, and every other file is as before |
| `FsSteps.MapsNothing` | kernel/fs.c:471-485 | a block below the size is mapped already, so that readi allocates nothing |
| `FsCode.FileSystem.Balloc` | kernel/fs.c:65-88 | the first free block, its bit set and its bytes 0, both logged and nothing else changed; or the disk is full and unchanged |
| `FsCode.FileSystem.Bmap` | kernel/fs.c:382-421 | the block of that index; nothing but that block and the indirect block is attached, and only if missing; 0 only if the disk is full; every block and every bitmap block that changes is passed to log_write |
| `FsCode.FileSystem.Readi` | kernel/fs.c:471-496 | exactly the slice of the file, across the direct/indirect boundary, with the 32-bit overflow test; the disk does not change |
| `FsCode.FileSystem.WriteBlock` | kernel/fs.c:516-528 | one turn of writei's loop: the bytes up to the block's end are in place, and every block and bitmap block that changes is passed to log_write |
| `FsCode.FileSystem.Writei` | kernel/fs.c:505-539 | -1 exactly on the two range errors and then nothing changed; else the first r bytes replace that range, the size is the maximum, other files are unchanged, r is short only on a full disk, and new blocks serve the written range only; every block and bitmap block that changes is passed to log_write, and so is the inode's; a chunk logs at most MAXOPBLOCKS - 1 blocks before the inode's |
| `FsCode.FileSystem.Filewrite` | kernel/file.c:149-174 | the chunks together are one write; each transaction logs everything that it changes, and at most MAXOPBLOCKS blocks; the result is n if and only if all was written |
| `WriteBudget.ChunksNeverPanic` | kernel/file.c:149-174 | in every interleaving of operations that log at most MAXOPBLOCKS - 1 blocks before their last, as chunks do, the next log_write does not panic |
| `FsCode.FileSystem.Bfree` | kernel/fs.c:90-105 | one bit cleared; the panic is a precondition, discharged at every call |
| `FsCode.FileSystem.ItruncDirect` | kernel/fs.c:432-437 | all direct blocks are freed |
| `FsCode.FileSystem.ItruncIndirect` | kernel/fs.c:439-449 | the listed blocks and then the indirect block are freed |
| `FsCode.FileSystem.Itrunc` | kernel/fs.c:423-453 | exactly the file's blocks become free, the file is empty, every other file is unchanged; it logs the bitmap blocks of these blocks and the inode's block, and no others, which is within MAXOPBLOCKS if and only if the bitmap blocks are fewer than that |
| `FsCode.SpreadTruncation` | kernel/fs.c:423-453 | the truncation of a file of MAXOPBLOCKS blocks, each under a bitmap block of its own, logs MAXOPBLOCKS + 1 blocks, on a disk laid out as kernel/fs.h describes |
| `FsTrunc.DetachOwned` | kernel/fs.c:431-449 | taking a block from a slot and freeing it keeps ownership and bitmap in step |
| `FsTrunc.TruncDone` | kernel/fs.c:451-453 | with all slots empty the truncation is complete |
| `CowTheorems.CowRefinesEager` | kernel/vm.c:425-457 | in every state of every run each process sees the bytes it would see had fork copied memory, with the same read and execute permissions, and can store where it could there |
| `CowTheorems.FrameAccounting` | kernel/kalloc.c:72-139 | in every state of every run a frame's count is its number of user entries, holders and kernel owners; exactly the count-0 frames are free, once each; a writable entry is the only reference |
| `CowTheorems.StoreIsLocal` | kernel/vm.c:475-500 | a store, or a copyout that succeeds, changes no other process's page |
| `CowTheorems.FreeHasOwner` | kernel/kalloc.c:94-118 | a reference that is dropped was counted, so counts do not go below 0 |
| `CowTheorems.CountsDetermined` | kernel/vm.c:446-456 | equal owners give equal counts, whatever happened in between |
| `CowHuge.StoreSparesParentIff` | kernel/trap.c:83-100 | fork, the child's store fault and its store leave the parent's page unchanged if and only if the page's count was at least 1 before the fork |
| `CowHuge.RefinesIffNoChunk` | kernel/vm.c:331-345 | from the lists and counts that freerange leaves, with chunks handed out as kalloc_huge and uvmalloc do, every run shows every process the bytes of eager copying if and only if no aligned 2 MB chunk fits in the range |
| `CowCode.Freerange` | kernel/kalloc.c:48-70 | every page is on the 4 KB list or inside one aligned 2 MB chunk, never both, once, with count 0; every aligned chunk that fits is taken as a whole |
| `CowCode.Kernel.constructor` | kernel/kalloc.c:29-46 | all frames free and nothing mapped satisfies the invariant |
| `CowCode.Kernel.Kalloc` | kernel/kalloc.c:123-139 | the head of the free list, with count 1 and filled with 5s, or none |
| `CowCode.Kernel.Kfree` | kernel/kalloc.c:94-118 | one reference less; the frame is free again exactly if it was the last |
| `CowCode.Kernel.Uvmunmap` | kernel/vm.c:219-265 | exactly the pages of the range are gone, all other entries unchanged |
| `CowCode.Kernel.SharePage` | kernel/vm.c:432-450 | the parent's entry keeps frame and permissions but loses W, and is copy-on-write if it was writable or was so before; the child's is the same; no other entry changes and the frame has one count more; or the failed share leaves no count behind |
| `CowCode.Kernel.Uvmcopy` | kernel/vm.c:425-457 | the child gets every page of the parent with its bytes and permissions, both entries guarded as above; a failure restores all counts and leaves the child without pages |
| `CowCode.Kernel.StoreFault` | kernel/trap.c:69-103 | the process is killed exactly if the page is absent, not the user's, not copy-on-write, or shared while there is no free frame; a shared page moves to the first free frame with its bytes and permissions and the old frame has one reference less, an unshared one becomes writable in place |
| `PageTable.ReachesOnce` | kernel/vm.c:90-114 | two walks come to one table only along the same indices |
| `PageTable.Digits` | kernel/riscv.h:380-382 | the indices of the three levels are the base-512 digits of the page number |
| `PageTable.AddTableSame` | kernel/vm.c:106-111 | a new page-table page changes no translation |
| `PageTable.SmallLeaf` | kernel/vm.c:203-208 | a 4 KB leaf changes the translation of its own page only |
| `PageTable.HugeLeaf` | kernel/vm.c:185-201 | a 2 MB leaf maps 512 pages as 512 small leaves would, and changes no other translation |
| `Mappages.MixIrrelevant` | kernel/vm.c:172-214 | whatever mix of leaves, the hardware sees the same pages |
| `Mappages.UnmappedIff` | kernel/vm.c:182-191 | a range without mappings is mapped, unless a level-0 table is where the 2 MB branch is taken: then and only then the panic |
| `Mappages.LeftoverTable` | kernel/vm.c:182-191 | the panic on an address space without a single mapping |
| `Mappages.AddressSpace.constructor` | kernel/vm.c:269-278 | an empty root table maps nothing |
| `Mappages.AddressSpace.Walk` | kernel/vm.c:90-114 | the level-0 table for the address, made if need be; no translation changes; 0 only without memory or under a 2 MB leaf |
| `Mappages.AddressSpace.WalkToLevel1` | kernel/vm.c:146-166 | the same for level 1 |
| `Mappages.AddressSpace.MapSmall` | kernel/vm.c:203-208 | exactly one page more, not under a 2 MB leaf, or the reason why not |
| `Mappages.AddressSpace.MapHuge` | kernel/vm.c:185-201 | exactly 512 pages more, all under a new 2 MB leaf, or the reason why not; the panic if and only if the level-1 entry was in use before the call of mappages |
| `Mappages.AddressSpace.Mappages` | kernel/vm.c:172-214 | on 0 exactly the requested pages, all unmapped before, are mapped one to one and no other translation changes; on any failure a prefix of them; of the pages mapped, exactly those in a 2 MB group that begins inside the request, is aligned in physical memory, and behind which the request goes on are under 2 MB leaves; the answer and the page at which it stops follow from the state before the call, unless kalloc runs out of pages before that page; the loop terminates |
| `ProcTheorems.NoMissedExit` | kernel/proc.c:346-435 | over every interleaving: when wait_lock is free nobody sleeps in wait with a zombie child |
| `ProcTheorems.LivingParent` | kernel/proc.c:279-341 | every started process but init has a parent that is alive |
| `ProcTheorems.ReapedOnce` | kernel/proc.c:390-420 | over every run: two waits that reap, whoever makes them and however slots are used again in between, report different pids, each with the status that process exited with |
| `ProcTheorems.ApplyKeeps` | kernel/proc.c:279-435 | every step of fork, exit, wait, sleep, wakeup, kill and scheduling keeps the invariant |
| `ProcCode.ProcTable.constructor` | kernel/proc.c:232-255 | init is the only process, and the invariant holds |
| `ProcCode.ProcTable.WakeupInExit` | kernel/proc.c:330-373 | exit's calls of wakeup, for init and for the parent: exactly the processes asleep on the channel become runnable |
| `ProcCode.ProcTable.WakeupElsewhere` | kernel/proc.c:578-592 | the same for any caller and any channel that is no process |
| `ProcCode.ProcTable.Reparent` | kernel/proc.c:330-341 | exactly p's children go to init, and who sleeps on init is woken if and only if there was one |
| `ProcCode.ProcTable.Exit` | kernel/proc.c:346-386 | a zombie with its status and nothing else of it changed, whose parent is not asleep in wait; exactly its children are given to init; exactly those asleep on its parent, and on init if it had a child, are woken; nothing else of any process changes |
| `ProcCode.ProcTable.Scan` | kernel/proc.c:400-421 | the first zombie child, and whether there are children |
| `ProcCode.ProcTable.Reap` | kernel/proc.c:407-420 | the child's slot is free, its pid and exit status are reported; a failed copy reaps nothing |
| `ProcCode.ProcTable.Wait` | kernel/proc.c:390-435 | the first zombie child is reaped; -1 exactly without children or when killed; else p sleeps |
| `ProcCode.ProcTable.FindUnused` | kernel/proc.c:114-122 | the first unused slot |
| `ProcCode.ProcTable.Fork` | kernel/proc.c:279-326 | the first unused slot becomes a runnable child of p with the next pid, not killed and on no channel; or it is unused again; or there is none and nothing changed |
| `VirtQueue.IssueRing` | kernel/virtio_disk.c:271-277 | publishing a request overwrites no slot the device has yet to read |
| `VirtQueue.CompleteRing` | kernel/virtio_disk.c:309-314 | a completion overwrites no slot the driver has yet to read |
| `Virtio.IndexDiffers` | kernel/virtio_disk.c:312-324 | the wrapped indices differ if and only if there is something to look at |
| `Virtio.Disk.constructor` | kernel/virtio_disk.c:144-146 | all descriptors free, both rings empty |
| `Virtio.Disk.AllocDesc` | kernel/virtio_disk.c:155-166 | a free descriptor, marked, or there is none |
| `Virtio.Disk.FreeDesc` | kernel/virtio_disk.c:168-182 | the descriptor is free; the two panics are preconditions, discharged at every call |
| `Virtio.Disk.Alloc3Desc` | kernel/virtio_disk.c:199-213 | three distinct descriptors, or all free ones as before and fewer than three of them |
| `Virtio.Disk.Submit` | kernel/virtio_disk.c:215-281 | if and only if three descriptors are free, the head is put in the next slot of the ring, and its chain is the 16-byte operation header, BSIZE bytes of the buffer that the device may write exactly when reading, and a status byte that it may write |
| `Virtio.OnlyAllowed` | kernel/virtio_disk.c:240-265 | a device that keeps to the flags and lengths of the descriptors stores only where it may write and loads only where it may not |
| `Virtio.Disk.FreeChain` | kernel/virtio_disk.c:184-197 | exactly the three descriptors of the chain become free |
| `Virtio.Disk.Finish` | kernel/virtio_disk.c:283-291 | a completed request gives exactly its three descriptors back |
| `Virtio.Disk.Intr` | kernel/virtio_disk.c:294-327 | with the device fetching and completing requests at any turn of the loop: when it ends, the buffers of the requests completed by then, and no others, are released; the loop terminates; the status panic is unreachable with a device that reports success |
| `Virtio.Disk.DeviceFetch` | kernel/virtio_disk.c:271-281 | the device, section 2.6 of VIRTIO 1.1, takes the oldest published request |
| `Virtio.Disk.DeviceComplete` | kernel/virtio_disk.c:240-265 | a device that keeps to the flags and lengths of the descriptors moves exactly the requested block between that buffer and that sector, in the requested direction |
| `FreeList.FreedOk` | user/umalloc.c:24-44 | after free the list is circular, in address order and fully coalesced; the units of that block and no others become free |
| `FreeList.WholeOk` | user/umalloc.c:76-77 | taking a whole block keeps the list and hands out its units only |
| `FreeList.TailOk` | user/umalloc.c:78-82 | taking the tail of a block keeps the list and hands out those units only |
| `FreeList.Conservation` | user/umalloc.c:24-90 | free and live units together are the units got from sbrk |
| `Umalloc.Allocator.Place` | user/umalloc.c:30-32 | the search ends at the header after which the block belongs |
| `Umalloc.Allocator.Free` | user/umalloc.c:24-44 | the block's units are free, every other live block is untouched, the list is coalesced, and the next search begins at the highest free header below the block |
| `Umalloc.Allocator.MoreCore` | user/umalloc.c:46-61 | at least the requested units, all free and in one block; or sbrk refused and nothing changed; or, if and only if the bytes do not fit sbrk's int and it does not refuse, the address of a block that is not the allocator's |
| `Umalloc.Allocator.Take` | user/umalloc.c:75-85 | the last units of the block that fits are handed out, and the next search begins before it |
| `Umalloc.Allocator.FirstFit` | user/umalloc.c:74-89 | the search terminates with at most one morecore, called only if no free block fits, for every number of units; the block is the first that fits, going round from where the search began |
| `Umalloc.Allocator.Malloc` | user/umalloc.c:63-90 | for every request: the end of the first free block that fits, from where the last call stopped, of the right size and disjoint from every live block; more memory only if none fits; 0 only if none fits and sbrk refuses; else none fits, the bytes do not fit sbrk's int, and morecore takes memory it was not given |
| `Umalloc.LargeMalloc` | user/umalloc.c:46-61 | the first malloc of a program, for INT_MAX bytes, takes memory it was not given |
| `ShellTokens.LaidToks` | user/sh.c:266-309 | whatever blanks are between them, gettoken finds exactly the tokens that were written |
| `ShellTokens.ToksLaid` | user/sh.c:266-309 | every line is the tokens that gettoken finds, with blanks around them |
| `ShellParser.SimpleParse` | user/sh.c:416-447 | words with redirections before, between and behind them parse to the command with these words in order, inside exactly these redirections in order, the last outermost |
| `ShellParser.ParsesAs` | user/sh.c:328-447 | every line of the grammar, with or without parentheses, parses to the tree it stands for: bars and semicolons nest to the right, each '&' goes around the pipeline before it, redirections as above |
| `ShellParser.AcceptsGrammar` | user/sh.c:328-447 | parsecmd accepts a line if and only if it is of the grammar, and gives it the tree it stands for |
| `ShellRoundTrip.LaidParses` | user/sh.c:328-447 | the same for a line of the grammar written with any blanks around its tokens |
| `ShellRoundTrip.RoundTrip` | user/sh.c:328-447 | every tree of valid words with at most MAXARGS - 1 arguments per command, written with parentheses only where the grammar needs them, parses back to itself |
| `ShellTerminate.LineWords` | user/sh.c:345-447 | every part of a parsed tree is a whole word of the line, and no command has more than MAXARGS - 1 of them |
| `ShellTerminate.ParseWriteParse` | user/sh.c:328-447 | for every line that parsecmd accepts: its tree of words can be written out, and the written line parses to the same tree of words |
| `ShellTerminate.TreeKept` | user/sh.c:449-494 | after nulterminate every string of the tree equals its token |
| `ShellCode.Parser.GetTok` | user/sh.c:266-309 | the token, its ends, and the cursor behind it |
| `ShellCode.Parser.Peek` | user/sh.c:311-321 | whether the next character is one of those asked for |
| `ShellCode.Parser.Redirections` | user/sh.c:375-398 | all redirections in order, or the missing file |
| `ShellCode.Parser.Arguments` | user/sh.c:430-446 | all arguments and redirections in order, or the syntax error or excess |
| `ShellCode.Parser.SimpleCommand` | user/sh.c:416-447 | every command of the grammar that stands at the cursor gives the tree it stands for, with the cursor behind it; else the error, as the recursive grammar has it |
| `ShellCode.Parser.BlockCommand` | user/sh.c:400-414 | the line inside the parentheses with the redirections that follow; or the error, among them a missing ')' ; its first panic is unreachable |
| `ShellCode.Parser.Pipeline` | user/sh.c:362-373 | the same for pipelines: the commands between bars nest to the right |
| `ShellCode.Parser.CommandLine` | user/sh.c:345-360 | the same for lines, with '&' and ';'; terminates on every line |
| `ShellCode.Parser.Nulterminate` | user/sh.c:449-494 | NUL at the end of every word of the tree and nowhere else |
| `ShellCode.Parser.Command` | user/sh.c:328-343 | accepts exactly the lines of the grammar; the tree in memory, with its strings, is then the one that the line stands for; else the panic |
| `Grep.MatchHere` | user/grep.c:84-96 | true if and only if the text from there on can be cut into pieces, one for each item of the pattern |
| `Grep.MatchStar` | user/grep.c:98-106 | the same for a starred character and the rest of the pattern |
| `Grep.Match` | user/grep.c:72-82 | true if and only if the pattern admits a match somewhere, or at the start for '^' |
| `Grep.PatternOfItems` | user/grep.c:84-96 | every pattern is the spelling of its items, of which no single character has a '*' behind it, and '$' is the end of the text exactly if it comes last |
| `Grep.ItemsOfPattern` | user/grep.c:84-96 | and such items are read back from their spelling |
| `GrepLines.GrepInput` | user/grep.c:11-36 | however read cuts the input: the matching lines in order with their newlines, up to the first line that does not fit in the buffer or has a NUL |
| `GrepLines.PrintsMatchingIff` | user/grep.c:11-36 | for every pattern that is all matching lines that end with a newline, if and only if no such line has BUFSIZE - 1 characters or more, or a NUL |
| `GroupLock.MutualExclusion` | kernel/grouplock.c:106-199 | over every interleaving of any number of processes, at most one is between acquire's compare-and-swap and release's group addition, and holder_pid names nobody else |
| `GroupLock.HolderHolds` | kernel/grouplock.c:132-134 | the process in holder_pid does hold the lock |
| `GroupLock.ReleaseAsExpected` | kernel/grouplock.c:171-199 | release goes ahead for the holder and only for it; its addition takes effect at once, on state 1, so the warning is unreachable |
| `GroupLock.AcquireEndsIff` | kernel/grouplock.c:127-151 | in every state that keeps the invariant: some continuation takes a process out of acquire's loop if and only if the chain of locks and their waiting holders comes to a free lock or to a living holder that waits for none; otherwise it stays in the loop in every run |
| `GroupLock.RingDeadlocks` | kernel/grouplock.c:303-334 | for every n, n processes that each take a lock and then try the next one's reach a state from which none of them ever gets on |
| `GroupLock.OrphanBlocks` | kernel/proc.c:346-386 | from every initial state, a process acquires a lock and exits; whoever then tries that lock is in acquire's loop in every continuation |

## Left out

- mkfs is not part of this model: the log area is taken to be disjoint from the home blocks, and the inode blocks to come before the bitmap blocks, as in the layout of kernel/fs.h. `BufLog` has LOGSIZE log blocks.
- LogCode.Log.Bread: reads through the cache without inserting clean copies; the machine's Load and Evict actions stand for that.
- FsCode.FileSystem.Filewrite: the chunks are taken without interruption, where the source releases the inode's lock between them.
- Buffer contents and the bitmap: `FsCode` keeps the bitmap as bits and an in-memory inode as its disk copy, so that iupdate only logs the inode's block; ialloc, link counts, directories and path lookup are not modelled.
- User copies inside readi, writei and wait succeed, except that wait's failing copy is modelled; a failing copy in writei can leave a changed buffer unlogged.
- CowCode.Kernel.Uvmcopy: whether mappages finds page-table pages is a parameter (failAt); the page-table pages themselves, the guard page and freewalk are not part of the copy-on-write machine.
- CowCode.Kernel.StoreFault: the mapping of the copied page finds its page-table page, because the page was mapped before.
- kalloc_huge is modelled as uvmalloc's 2 MB step, and kfree_huge only as freerange calls it. Pages of a chunk are unmapped one by one like any other, so that a count of 0 wraps and the frame is not freed; uvmunmap's 2 MB branch is not modelled.
- Mappages.AddressSpace.Mappages: kalloc of page-table pages is a supply of fresh pages, physical page numbers are unbounded, and the leaf has one of R, W and X.
- BufLog.BufLog.Update: brelse's two sections are taken without interruption by the process itself, so that the content at the moment of release can be named; the other processes' are not. Which operation an open change belongs to is not tracked: the last end_op takes it that there is none.
- ProcTheorems.ReapedOnce: pids are unbounded integers, where nextpid is an int that wraps.
- The process machine has one wait_lock and takes each section under a p->lock as one step; memory, files and the scheduler's choice are left open.
- Virtio.Disk.DeviceComplete: the device reports success; memory fences and notification registers are not modelled.
- Umalloc.Allocator.Malloc: sbrk returns unit-aligned addresses that only grow, and a run ends where morecore would use memory it was not given.
- The shell parser builds a node when its parts are known, where the source fills in a node that is already linked; runcmd is not modelled.
- GrepLines.GrepInput: read does not fail, and write takes everything.
- GroupLock is a state machine only: its two loops spin until another process acts, which a sequential method cannot express. A process outside its routines can always go on. Creation and destruction of locks are not modelled.
- Pipes, console, UART, exec, system call dispatch, traps other than the store fault, and the user programs other than sh and grep would only add easier members.
