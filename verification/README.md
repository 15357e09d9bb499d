# A verified model of the xv6 RISC-V kernel's hard parts

Dafny models of the parts of xv6 whose correctness depends on many steps fitting together, with proofs
for every input, every interleaving and every reachable state.  `dafny verify dfyconfig.toml` checks all of it.

| module | models | main results |
|---|---|---|
| `Params`, `Sets` | shared constants, and sizes of finite sets | |
| `Wal` | the redo log of kernel/log.c over the buffer cache, write by write | a crash after any block write, followed by any number of interrupted recoveries, leaves all of a transaction or none of it |
| `LogProtocol`, `LogLimits` | `begin_op`, `log_write`, `end_op`, commit, crash and recovery as interleaved steps of any number of threads, with the cache's reference counts and sleep locks | no operation is ever split; reads see the latest logged data; the log reservation, and exactly when `log_write`, or a commit that finds no buffer, panics |
| `BufferCache` | the buffer ring of kernel/bio.c as linked arrays | the links stay one ring, no block is cached twice, `bget` recycles the least recently released buffer |
| `BlockCodec`, `FsModel`, `FsLog`, `FileSystem`, `FsWorstCase` | bitmap, block map, truncation, `readi`, `writei`, `filewrite` on raw bytes | ownership of blocks by inodes; files refine byte sequences; exactly which blocks a write logs; a `filewrite` chunk logs at most MAXOPBLOCKS of them, and on some disk that many |
| `ExitWait` | `fork`, `exit`, `wait`, `reparent`, `sleep`, `wakeup`, `sched` and the scheduler as interleaved steps | no lost wakeup of a parent; nothing is freed while a CPU is on its stack |
| `Sv39`, `PageTable`, `VirtualMemory`, `ProcMemory` | Sv39 trees (section 4.4 of the RISC-V Privileged Architecture, version 20211203), `kalloc`, and the operations on address spaces up to `fork` | three-level trees refine flat maps; free, table, user and kernel pages partition memory on every path; each operation fails exactly when there are too few pages |
| `Pipe` | the pipe's ring and its sleeping readers and writers | FIFO order across 32-bit wraparound; who may be asleep when |
| `VirtioQueue` | the driver's and the device's side of the queue (sections 2.6 and 5.2 of VIRTIO 1.1) | descriptor ownership and conservation, harmless 16-bit wraparound |
| `Umalloc` | the K&R allocator of user/umalloc.c | blocks tile the memory, the ring stays ordered and fully coalesced, both searches end, `malloc` fails exactly when it must |
| `Shell`, `ShellParser` | the recursive-descent parser of user/sh.c and `nulterminate` | parse after print is the identity; words are never overwritten |
| `Grep` | the matcher and the line buffer of user/grep.c | the matcher decides a declarative language; output does not depend on how reads are chunked |

State that the source updates in place is a class; protocols between threads are state machines whose steps
are the atomic regions of the source.  `panic` is a precondition or an assertion that is proved, or an error
result.  `acquire` and `release` are taken to give sequentially consistent critical sections.

Where a proof obligation over a whole state has many parts, the invariant is a quantifier over an enumeration
of the parts (`forall u :: Holds(u, v)`), so that each proof opens only the parts it uses.

## What was found

- `log_write` tests for room before it looks for an earlier entry for the block.  A call that would only be
  absorbed is therefore refused when the log is exactly full, although the operation is within its budget, on a
  log of any size that can hold a block (`LogLimits.AbsorbedWriteRefusedExactly`).
- A new block within an operation's budget is refused in some reachable state if and only if the log has at most
  LOGSIZE blocks (`LogLimits.NewBlockRefusedExactly`).  The shipped image has exactly LOGSIZE.
- `commit` reads each log block through a buffer, and `bget` panics when all NBUF are in use.  NBUF equals
  LOGSIZE, so on a log of more than LOGSIZE blocks, and on no smaller one, the blocks that a transaction pins can be
  all the buffers there are, with nobody else using the cache (`LogLimits.CommitPanicsAlone`).
- On a log of LOGSIZE blocks one reader outside any operation is enough for the same panic
  (`LogLimits.ShippedLogNeedsOneReader`); `LogLimits.CommitPanicsExactly` has the condition for any number of buffers in
  use by others, and `LogProtocol.CommitProceeds` says that a commit step panics in no other state.
- The chunk size of `filewrite` leaves nothing to spare: on a disk with several bitmap blocks one chunk logs exactly
  MAXOPBLOCKS blocks (`FsWorstCase.TightWrite`), and a hole below it would make it one more
  (`FsWorstCase.HoleBreaksBudget`).
- A writer to a pipe that is stopped by its killed flag after it has put bytes wakes nobody.  A sleeping
  reader then stays asleep with bytes waiting (`Pipe.KilledWriterStrandsReader`); `Pipe.StepReaders` says exactly
  when.
- `grep` stops for good at the first complete line that does not fit its buffer or has a NUL in it
  (`Grep.OutputUpTo`), and this is the only way in which it loses output (`Grep.OutputExactly`).
- In `proc_pagetable` the clean-up after the second `mappages` is never reached, because the two topmost pages
  share their tables (`ProcMemory.SecondMapped`).
- `growproc` by a negative amount larger than the process computes its new size modulo 2^64; the call
  succeeds and changes nothing (`ProcMemory.Process.Growproc`).

## Model

| member | source | states |
|---|---|---|
| Wal.HeaderRoundTrip | kernel/log.c:87-114 | reading back a header block written over any block gives the same list of block numbers |
| Wal.CommitIsAtomic | kernel/log.c:68-203 | power fails after any block write of commit and again inside any number of recoveries: the next full recovery gives exactly the old home blocks before the header write and exactly the new ones from it on |
| Wal.RecoveryIdempotent | kernel/log.c:68-123 | any number of recoveries cut short at any write, then a full one, equal a single recovery and leave an empty header |
| Wal.CommittedImage | kernel/log.c:194-203 | replaying any disk image from the header write on gives the transaction's contents |
| Wal.UncommittedImage | kernel/log.c:178-191 | images before the header write need no replay and have the old home blocks |
| Wal.CommitInstalls | kernel/log.c:68-83 | installing every slot makes the home blocks the old disk overlaid with the transaction |
| Wal.CommitTraceIsCrashSafe | kernel/log.c:193-203 | of the disk images that commit goes through, each of the first n promises the old contents and each later one the new, however many recoveries are interrupted |
| Wal.RecoveryTraceIsCrashSafe | kernel/log.c:116-123 | every image that recovery goes through promises the recovered contents |
| Wal.CommitEnds | kernel/log.c:193-203 | after the last write of commit the disk is the overlay and needs no replay |
| Wal.Log.constructor | kernel/log.c:54-64 | starts with an empty cache, nothing pinned and no entries |
| Wal.Log.Bread | kernel/bio.c:92-103 | returns the current contents of the block whichever idle buffers are recycled; pinned data is kept |
| Wal.Log.Bwrite | kernel/bio.c:105-112 | one atomic block write, recorded as a point at which power may fail |
| Wal.Log.WriteLog | kernel/log.c:178-191 | the disk becomes the image with all log slots written, through exactly the given sequence of images |
| Wal.Log.WriteHead | kernel/log.c:102-114 | the header block encodes the current entries |
| Wal.Log.InstallOne | kernel/log.c:74-81 | one home block is installed, and unpinned unless recovering |
| Wal.Log.InstallTrans | kernel/log.c:68-83 | all home blocks are installed in order, and nothing stays pinned |
| Wal.Log.ReadHead | kernel/log.c:86-97 | the entries in memory are those of the header on disk |
| Wal.Log.RecoverFromLog | kernel/log.c:116-123 | the disk becomes its recovered form and every image on the way is crash safe |
| Wal.Log.WriteTransaction | kernel/log.c:196-201 | the four phases of commit produce exactly the trace of images that the crash theorems are about |
| Wal.Log.Commit | kernel/log.c:193-203 | afterwards the disk is the overlay of the transaction, nothing is pinned, the log is empty, and every image on the way is crash safe |
| Wal.Log.LogWrite | kernel/log.c:214-235 | refused exactly by its two guards; otherwise the block joins the pending writes, and the entries grow only for a new block |
| Wal.Log.Enter | kernel/log.c:224-233 | the entry is found or added, distinct from all others, and a new one pins the block |
| LogProtocol.StepInv | kernel/log.c:126-235 | every enabled step of any thread, of commit, of a crash or of recovery keeps the whole invariant of log, cache and disk |
| LogProtocol.RunInv | kernel/log.c:126-235 | so does every run |
| LogProtocol.ReachableInv | kernel/log.c:54-235 | every state reachable from power-on on any bootable disk satisfies it |
| LogProtocol.ReadsSeeLatest | kernel/bio.c:58-151 | a buffer that a thread holds and has not changed holds the latest logged contents of its block, in every reachable state |
| LogProtocol.CrashKeepsWholeOperations | kernel/log.c:126-203 | a crash in any reachable state, with any number of interrupted recoveries, leaves exactly the committed writes, and each operation has all of its writes among them or none |
| LogProtocol.HeaderWriteCommits | kernel/log.c:193-203 | the header write makes every logged write durable at once, with no operation in progress |
| LogProtocol.OthersDoNotCommit | kernel/log.c:126-235 | no other step changes what is durable, and only a crash forgets a logged write |
| LogProtocol.OthersKeepCrashContents | kernel/log.c:126-235 | from any reachable state, booting the disk after any other step gives the same home blocks as booting it before the step |
| LogProtocol.CommitRunsAlone | kernel/log.c:146-175 | while a commit runs nobody can log, change a buffer in an operation or end one, so end_op's panic and the "outside of trans" panic are unreachable |
| LogProtocol.ReservationHolds | kernel/log.c:126-143 | in every reachable state the log plus all unspent budgets fits in LOGSIZE |
| LogProtocol.LogWritePanicsExactly | kernel/log.c:214-235 | in every reachable state a budgeted log_write panics if and only if the log is full by one of its two limits; on a log of more than LOGSIZE blocks the block is then already in it |
| LogProtocol.SleepersMustWait | kernel/log.c:126-143 | a thread asleep in begin_op is one that begin_op would not admit |
| LogProtocol.CommitProceeds | kernel/log.c:178-203 | in every reachable committing state whose buffers are unlocked exactly one step of commit is enabled, the one its progress calls for; if it reads a log block it panics if and only if every buffer is in use |
| LogProtocol.MissProceeds | kernel/bio.c:75-88 | in every reachable state a thread can get a buffer for an uncached block if and only if not every buffer is in use |
| LogLimits.SmallLogPanics | mkfs/mkfs.c:25 | on a log of at most LOGSIZE blocks, the shipped size among them, a reachable state refuses a new block within its operation's budget |
| LogLimits.NewBlockRefusedExactly | kernel/log.c:126-143 | a new block within its budget is refused in some reachable state if and only if the log has at most LOGSIZE blocks |
| LogLimits.CommitPanicsExactly | kernel/log.c:181-190 | a reachable state in which commit finds no buffer for a log block, with at most k buffers in use besides the pinned ones, exists if and only if the log takes a block at all and its capacity falls short of NBUF by at most k |
| LogLimits.CommitPanicsAlone | kernel/bio.c:58-89 | with nobody else using the cache such a state exists if and only if the log has more than LOGSIZE blocks |
| LogLimits.ShippedLogNeedsOneReader | mkfs/mkfs.c:25 | on a log of LOGSIZE blocks the pins alone never use up the cache, and one block in use by a reader outside any operation does |
| LogLimits.AbsorbedWriteRefusedExactly | kernel/log.c:219-226 | a block that the operation has logged already is refused in some reachable state if and only if the log can hold a block at all |
| BufferCache.PushLinked | kernel/bio.c:45-52 | the four assignments that link a buffer in at the head give the ring with that buffer in front |
| BufferCache.UnlinkLinked | kernel/bio.c:127-128 | the two assignments that take a buffer out give the ring without it |
| BufferCache.FrontOrdered | kernel/bio.c:125-133 | moving the buffer released now to the front keeps the ring ordered by time of release |
| BufferCache.Cache.constructor | kernel/bio.c:36-53 | binit links all buffers into one ring, unreferenced |
| BufferCache.Cache.Push | kernel/bio.c:47-51 | the ring gets the buffer in front, forwards and backwards |
| BufferCache.Cache.Unlink | kernel/bio.c:127-128 | the ring loses exactly that buffer |
| BufferCache.Cache.FindCached | kernel/bio.c:65-73 | finds the buffer that caches the block if and only if there is one |
| BufferCache.Cache.FindIdle | kernel/bio.c:75-87 | the unreferenced buffer released longest ago, or -1 if and only if all are referenced |
| BufferCache.Cache.Bget | kernel/bio.c:58-89 | a hit keeps the data; a miss recycles the unreferenced buffer released longest ago; panics if and only if the block is not cached and every buffer is in use; no two buffers ever cache one block |
| BufferCache.Cache.Brelse | kernel/bio.c:116-137 | the count drops, and at zero the buffer moves to the front with the newest stamp |
| BufferCache.Cache.Bpin | kernel/bio.c:139-144 | one more reference and nothing else |
| BufferCache.Cache.Bunpin | kernel/bio.c:146-151 | one reference less, the ring untouched |
| BlockCodec.WordAfterPut | kernel/fs.c:408-413 | a 32-bit word stored in a block reads back, and no other word changes |
| BlockCodec.SetBitAt | kernel/fs.c:74-77 | setting a bit sets that bit and no other |
| BlockCodec.ClearBitAt | kernel/fs.c:98-102 | clearing a bit clears that bit and no other |
| FsModel.AllocatedOwns | kernel/fs.c:65-88 | allocating a free block moves no pointer and keeps ownership |
| FsModel.PlacedOwns | kernel/fs.c:383-418 | placing an allocated block in an empty slot of a block map restores full ownership: distinct, used, nothing used but unowned |
| FsModel.DataWritten | kernel/fs.c:520-527 | overwriting file data changes no pointer and no bitmap bit |
| FsModel.AddrExtends | kernel/fs.c:388-406 | allocating into the inode keeps ownership and the bytes of all files, and changes that one pointer |
| FsModel.EntryExtends | kernel/fs.c:407-417 | allocating into the indirect block does too |
| FsModel.ListsOnce | kernel/fs.c:432-449 | the blocks itrunc visits are distinct and all in use, so bfree cannot panic |
| FsModel.EmptiedOwns | kernel/fs.c:425-453 | freeing exactly one inode's blocks keeps the ownership of all others |
| FsModel.EmptiedFiles | kernel/fs.c:425-453 | and the bytes of all other files |
| FsModel.WrittenContent | kernel/fs.c:506-539 | a finished write splices its bytes into the file's contents at the offset, and changes no other file |
| FsModel.FiledContent | kernel/file.c:155-177 | so does a whole filewrite; a read of the bytes that count returns them |
| FileSystem.FileSys.Balloc | kernel/fs.c:65-88 | the lowest free block, marked and zeroed, or 0 if and only if none is free; what is logged |
| FileSystem.FileSys.Claim | kernel/fs.c:77-81 | the bitmap bit is set and the block zeroed, both logged |
| FileSystem.FileSys.Bfree | kernel/fs.c:90-105 | exactly that block's bit is cleared |
| FileSystem.FileSys.MapAddr | kernel/fs.c:388-406 | a pointer held in the inode, allocated if it was 0; nothing else moves |
| FileSystem.FileSys.MapEntry | kernel/fs.c:407-417 | a pointer held in the indirect block, likewise |
| FileSystem.FileSys.Bmap | kernel/fs.c:382-418 | the address of block bn of the file; it allocates only when unmapped, fails only when the disk is full, keeps ownership, all files and the pointers of all other inodes, and logs exactly what it allocates, the bitmap blocks of that, and the indirect block if it got an entry |
| FileSystem.FileSys.Iupdate | kernel/fs.c:225-241 | the inode on disk is the inode in memory |
| FileSystem.FileSys.FreeList | kernel/fs.c:442-445 | exactly the non-zero blocks of the list become free |
| FileSystem.FileSys.FreeDirects | kernel/fs.c:432-437 | exactly the direct blocks become free and are forgotten |
| FileSystem.FileSys.FreeBlocks | kernel/fs.c:432-449 | direct blocks, indirect entries and the indirect block itself are freed, each once |
| FileSystem.FileSys.Itrunc | kernel/fs.c:425-453 | a block is in use afterwards if and only if it was and did not belong to the inode; every other file keeps its blocks and bytes |
| FileSystem.FileSys.ReadChunk | kernel/fs.c:482-493 | the bytes of one block of the file; bmap allocates nothing |
| FileSystem.FileSys.Readi | kernel/fs.c:471-496 | returns exactly the contents at the offset, cut at the file's size; changes and logs nothing |
| FileSystem.FileSys.CopyIn | kernel/fs.c:522 | the bytes are in the file's block; no other byte of any file changes |
| FileSystem.FileSys.WriteChunk | kernel/fs.c:516-528 | one round of writei with all of its failures and exactly what it logs |
| FileSystem.FileSys.WriteRounds | kernel/fs.c:516-528 | the loop: the bytes of all rounds are in the file, every block up to there is mapped, and exactly what that takes is logged |
| FileSystem.FileSys.EndWrite | kernel/fs.c:530-538 | the size grows only if the write went past it, and the inode is written |
| FileSystem.FileSys.Writei | kernel/fs.c:505-539 | refuses exactly the stated offsets; otherwise the bytes written are spliced in, a short count means a failed copy or a full disk, no hole appears, no other inode's pointers change; the blocks logged are exactly those of the bytes written, what was allocated, the bitmap blocks of that, the indirect block if it got an entry and the inode's block; a chunk of at most 3*BSIZE bytes logs at most MAXOPBLOCKS |
| FileSystem.FileSys.WriteTransaction | kernel/file.c:161-167 | one transaction of filewrite, recorded with the set it logged, which has at most MAXOPBLOCKS blocks |
| FileSystem.FileSys.Filewrite | kernel/file.c:149-177 | the whole buffer is in the file at the offset or the stated failure occurred; each transaction it adds to the record logged at most MAXOPBLOCKS blocks |
| FsLog.LogPlaced | kernel/fs.c:65-88 | filling one slot logs the block, its bitmap block and, for an entry, the indirect block |
| FsLog.LogMore | kernel/fs.c:516-528 | what two stretches of a write log one after the other is what they log as one |
| FsLog.RoundLogs | kernel/fs.c:516-528 | a round logs what it allocates and its data block only if the copy succeeds; all rounds so far log exactly what their result takes |
| FsLog.AllocatesExactly | kernel/fs.c:65-88 | a block is in use after a write if and only if it was before or is one of the blocks newly placed in the file |
| FsLog.NewWasFree | kernel/fs.c:65-88 | a block newly placed in a file was free |
| FsLog.Budget | kernel/file.c:149-156 | four data blocks of which one is mapped already, bitmap blocks for the other three and for the indirect block, that block and the inode's come to at most MAXOPBLOCKS |
| FsLog.WriteBudget | kernel/file.c:149-156 | any write of at most 3*BSIZE bytes to a file without a hole below the offset stays within MAXOPBLOCKS, because a first block that is not written from its start is mapped |
| FsWorstCase.TightOwns | mkfs/mkfs.c:20-27 | the worst-case disk, laid out as mkfs does, is a consistent one: every pointer to a block in use, no block owned twice, none in use and unowned |
| FsWorstCase.ThroughSize | kernel/file.c:149-156 | a chunk across the last direct block logs MAXOPBLOCKS blocks when everything it adds has its bit in a different bitmap block, and one more if its first block was a hole |
| FsWorstCase.TightRun | kernel/fs.c:505-539 | every outcome that writei may have for the chunk on that disk is a complete write with exactly MAXOPBLOCKS blocks logged |
| FsWorstCase.TightWrite | kernel/file.c:149-177 | such a write: it succeeds and logs exactly MAXOPBLOCKS blocks |
| FsWorstCase.HoleBreaksBudget | kernel/file.c:149-156 | with a hole for its first block the same chunk comes to MAXOPBLOCKS + 1 |
| ExitWait.StepInv | kernel/proc.c:280-600 | every step of fork, exit, wait, sleep, wakeup, kill, preemption and the scheduler keeps the invariant, under every interleaving |
| ExitWait.RunInv | kernel/proc.c:280-600 | so does every run |
| ExitWait.ReachableInv | kernel/proc.c:280-600 | it holds in every reachable state |
| ExitWait.SleepersHaveNoZombies | kernel/proc.c:333-437 | whenever wait_lock is free, no process asleep in wait has a zombie child |
| ExitWait.FreedOffStack | kernel/proc.c:392-437 | a process that a step frees is a zombie, off every CPU and off its kernel stack |
| ExitWait.ParentsLive | kernel/proc.c:333-388 | whenever wait_lock is free, every child's parent is a live process |
| ExitWait.SchedChecksPass | kernel/proc.c:484-501 | sched is entered with the process lock, no wait_lock and a state other than RUNNING |
| ExitWait.OneCpuEach | kernel/proc.c:447-475 | no process is on two CPUs |
| ExitWait.ExitZombieInv | kernel/proc.c:373-388 | becoming a zombie after waking the parent leaves no sleeping parent behind, because wait_lock is still held |
| ExitWait.WakeParentInv | kernel/proc.c:569-582 | one round of the wakeup of the parent |
| ExitWait.WakeInitInv | kernel/proc.c:333-344 | one round of the wakeup of initproc in reparent |
| ExitWait.ReparentChildInv | kernel/proc.c:333-344 | handing over a child, zombie or not, is safe while initproc's wakeup is pending |
| ExitWait.SleepLockInv | kernel/proc.c:538-566 | sleep takes the process lock before it lets wait_lock go |
| ExitWait.ReapInv | kernel/proc.c:404-424 | wait frees a zombie child whose lock is free |
| ExitWait.FreeInv | kernel/proc.c:155-173 | freeproc of such a zombie leaves no dangling child, parent or CPU |
| ExitWait.ForkLinkInv | kernel/proc.c:317-320 | fork sets the parent under wait_lock |
| Sv39.PteRoundTrip | kernel/riscv.h:348-353 | page address and permission bits read back from an entry built from them |
| Sv39.PxDigits | kernel/riscv.h:355-358 | the three indices are the base-512 digits of the page number |
| Sv39.PxInjective | kernel/riscv.h:355-358 | two addresses below MAXVA with equal indices are on one page |
| PageTable.SlotInjective | kernel/vm.c:86-103 | in a consistent machine two page numbers reach the same leaf slot only if equal |
| PageTable.SpaceChange | kernel/vm.c:143-192 | a change confined to one space's pages keeps every other tree and the whole partition |
| PageTable.SetLeafGood | kernel/vm.c:160 | writing one leaf entry keeps the invariant |
| PageTable.ClearLeafGood | kernel/vm.c:190 | clearing one does too, and an own page goes back to the kernel |
| PageTable.AddMidGood | kernel/vm.c:93-101 | linking a zeroed page below the root keeps the invariant |
| PageTable.AddLowGood | kernel/vm.c:93-101 | linking one below a middle table does too |
| PageTable.DissolvedGood | kernel/vm.c:270-288 | a tree without leaves can be taken apart, all its pages becoming the kernel's |
| VirtualMemory.Machine.constructor | kernel/kalloc.c:26-41 | kinit: exactly the whole pages between the two addresses exist, all free |
| VirtualMemory.Machine.Freerange | kernel/kalloc.c:33-41 | exactly the whole pages of the range become free |
| VirtualMemory.Machine.Kalloc | kernel/kalloc.c:68-82 | hands out a free page, filled with junk, or fails if and only if there is none |
| VirtualMemory.Machine.Kfree | kernel/kalloc.c:46-63 | a page only the kernel holds becomes free; its precondition is what makes a double free impossible |
| VirtualMemory.Machine.Availmemory | kernel/kalloc.c:85-97 | the page size times the number of free pages |
| VirtualMemory.FreeCount | kernel/kalloc.c:85-97 | the free list holds each free page exactly once |
| VirtualMemory.OwnersDetermined | kernel/kalloc.c:46-82 | the spaces and the kernel's pages determine the free pages: nothing can leak |
| VirtualMemory.NeedIs | kernel/vm.c:85-103 | the pages that mapping a range takes: those wanted for each leaf, and one for each table that the range has and the tree does not |
| VirtualMemory.Machine.Descend | kernel/vm.c:92-101 | one level of walk |
| VirtualMemory.Machine.Walk | kernel/vm.c:85-103 | the slot of the page's leaf, holding the flat map's entry; only the missing tables are added, one page each; it fails exactly when a table is missing and may not be made or there are too few pages |
| VirtualMemory.Machine.MapPage | kernel/vm.c:154-160 | exactly one leaf is added to the flat map, other spaces and contents untouched, or only table pages were added because pages ran out |
| VirtualMemory.Machine.Mappages | kernel/vm.c:142-168 | exactly the range is mapped to consecutive pages if and only if there are enough free pages for the missing tables; else a proper prefix of it is mapped |
| VirtualMemory.Machine.UnmapPage | kernel/vm.c:178-191 | exactly one leaf is removed, and its page freed if it was the space's own |
| VirtualMemory.Machine.Uvmunmap | kernel/vm.c:170-192 | exactly the range leaves the flat map; other pages of the space keep entry and contents |
| VirtualMemory.Machine.Uvmcreate | kernel/vm.c:196-205 | a new empty space, or nothing changed |
| VirtualMemory.Machine.AllocPage | kernel/vm.c:236-247 | a zeroed page of the space's own is mapped, or nothing but table pages changed and there were too few pages |
| VirtualMemory.Machine.Uvmalloc | kernel/vm.c:225-249 | with as many free pages as `NeedIs` counts, exactly the new pages are there, zeroed, with the flags asked for; with fewer, flat map, contents and all else are as before |
| VirtualMemory.Machine.Uvmdealloc | kernel/vm.c:255-267 | exactly the pages above the new size are unmapped and freed |
| VirtualMemory.Machine.FreeLow | kernel/vm.c:271-288 | freewalk on a lowest table |
| VirtualMemory.Machine.FreeMid | kernel/vm.c:271-288 | freewalk on a middle table: it and all tables below it are freed, each once |
| VirtualMemory.Machine.FreeRoot | kernel/vm.c:271-288 | freewalk on the root frees exactly the table pages, each once |
| VirtualMemory.Machine.Freewalk | kernel/vm.c:270-288 | the space is gone, exactly its table pages became free; the "leaf" panic is unreachable |
| VirtualMemory.Machine.Uvmfree | kernel/vm.c:291-297 | no page belongs to the space any more, all else untouched |
| VirtualMemory.Machine.CopyPage | kernel/vm.c:313-327 | one page is copied with flags and contents onto a page of the child's own, or there were too few pages |
| VirtualMemory.Machine.Uvmcopy | kernel/vm.c:305-333 | if and only if there are enough free pages, the child has equal flags and contents on pages of its own; otherwise its leaves are as they were |
| VirtualMemory.OwnPages | kernel/vm.c:300-333 | no page is mapped as a space's own twice, within one space or across two |
| ProcMemory.Process.ProcPagetable | kernel/proc.c:176-206 | with three free pages, a page table with exactly trampoline and trapframe; with fewer, no page is lost on any failing path |
| ProcMemory.SecondMapped | kernel/proc.c:197-203 | the trapframe shares the trampoline's tables, so mapping it cannot fail |
| ProcMemory.Process.ProcFreepagetable | kernel/proc.c:210-216 | the space and all its pages are gone |
| ProcMemory.Process.Freeproc | kernel/proc.c:155-173 | the trapframe page and the space become free, nothing else changes owner |
| ProcMemory.Process.Allocproc | kernel/proc.c:123-149 | with four free pages the process has a trapframe and an empty space; with fewer it fails and nothing is lost |
| ProcMemory.Process.Growproc | kernel/proc.c:259-275 | the space grows or shrinks to the new size and keeps the contents below it; it fails exactly when growing takes more pages than are free; shrinking below zero changes nothing |
| ProcMemory.Process.Fork | kernel/proc.c:280-298 | if and only if there are enough free pages, the child has equal pages of its own and the parent is unchanged; otherwise every page has the owner it had |
| Pipe.Wraps | kernel/pipe.c:11-20 | wrapped 32-bit counters still give the right slot, fullness and emptiness, because 512 divides 2^32 |
| Pipe.Ring.constructor | kernel/pipe.c:22-57 | an empty pipe with both ends open |
| Pipe.Ring.Put | kernel/pipe.c:93-99 | the byte joins the end of the stream |
| Pipe.Ring.Take | kernel/pipe.c:119-124 | the byte at the front of the stream leaves it |
| Pipe.Ring.WriteRun | kernel/pipe.c:76-103 | how many bytes are put and why the run ends, as functions of the room left, the end of the readable source, the killed flag and the read end; the bytes put are the next of the source |
| Pipe.Ring.ReadRun | kernel/pipe.c:105-130 | how many bytes are taken and delivered and why the run ends, as functions of what the pipe holds, the room at the destination, the killed flag and the write end; the bytes are the oldest |
| Pipe.Ring.Close | kernel/pipe.c:59-74 | exactly one end closes, and the pipe is freed if and only if both are closed |
| Pipe.StepSound | kernel/pipe.c:59-130 | every step keeps FIFO order and that a sleeping writer means a full pipe with the read end open |
| Pipe.StepReaders | kernel/pipe.c:76-103 | a step breaks the promise to sleeping readers if and only if a reader sleeps and a writer's killed flag is set after at least one byte, with bytes left, before the pipe is full and before the source fails |
| Pipe.FreedUnused | kernel/pipe.c:59-74 | nobody is inside a call on a pipe that has been freed |
| Pipe.RunSound | kernel/pipe.c:59-130 | over every run: FIFO, the promise to writers, and as long as no such writer met a sleeping reader the promise to readers |
| Pipe.KilledWriterStrandsReader | kernel/pipe.c:83-86 | a run in which the promise to readers is broken |
| VirtioQueue.SlotOf | kernel/virtio_disk.c:272-277 | a wrapped 16-bit index names the slot of the unwrapped one |
| VirtioQueue.SameIndex | kernel/virtio_disk.c:312-324 | equal wrapped indices mean that nothing is outstanding |
| VirtioQueue.QueueLaws | kernel/virtio_disk.c:156-324 | free count plus three per request is NUM, no descriptor has two owners, no unread ring entry is overwritten |
| VirtioQueue.Disk.constructor | kernel/virtio_disk.c:62-152 | all descriptors free |
| VirtioQueue.Disk.AllocDesc | kernel/virtio_disk.c:155-166 | the lowest free descriptor, or -1 if and only if none |
| VirtioQueue.Disk.FreeDesc | kernel/virtio_disk.c:168-182 | that descriptor becomes free and is cleared, and whoever waits for descriptors is woken |
| VirtioQueue.Disk.FreeChain | kernel/virtio_disk.c:184-198 | exactly the request's three descriptors become free |
| VirtioQueue.Disk.Alloc3Desc | kernel/virtio_disk.c:200-213 | three distinct free descriptors if and only if three are free, else no change |
| VirtioQueue.Disk.Start | kernel/virtio_disk.c:215-281 | a new request of the caller's operation and buffer is queued, owning three descriptors nobody else owns, if and only if three are free; otherwise the caller sleeps; a thread asleep for descriptors always means that fewer than three are free |
| VirtioQueue.Disk.Fetch | kernel/virtio_disk.c:271-277 | the device sees, in order, exactly the operation and buffer submitted |
| VirtioQueue.Disk.Complete | kernel/virtio_disk.c:295-327 | the device may finish any fetched request, in any order |
| VirtioQueue.Disk.SleepOn | kernel/virtio_disk.c:284-286 | a thread asleep on a buffer always means that its request is not done |
| VirtioQueue.Disk.IntrRound | kernel/virtio_disk.c:312-324 | the interrupt clears exactly the completed request's buffer and wakes its sleeper |
| VirtioQueue.Disk.Interrupt | kernel/virtio_disk.c:294-327 | every completion so far is handled: exactly the completed requests become seen, exactly their buffers stop being busy, and exactly the threads asleep on those are woken |
| VirtioQueue.Disk.Finish | kernel/virtio_disk.c:284-289 | the request's three descriptors come back, all other requests are untouched |
| Umalloc.FindPlace | user/umalloc.c:30-33 | the search in free ends, at the free block just before the one freed |
| Umalloc.InsertRing | user/umalloc.c:33-42 | linking a block in at its place keeps one address-ordered ring |
| Umalloc.RemoveRing | user/umalloc.c:77 | so does unlinking one |
| Umalloc.RightJoin | user/umalloc.c:33-35 | coalescing with the next free block keeps tiling and order |
| Umalloc.LeftJoin | user/umalloc.c:38-40 | coalescing with the previous one does too |
| Umalloc.TakeTail | user/umalloc.c:78-82 | splitting off the tail keeps tiling and ring |
| Umalloc.TakeWhole | user/umalloc.c:76-77 | handing out a whole block does too |
| Umalloc.Grown | user/umalloc.c:54-59 | new memory is one more block |
| Umalloc.HeapLaws | user/umalloc.c:21-90 | blocks tile exactly the memory obtained, without overlap, and no two free blocks are adjacent |
| Umalloc.Allocator.constructor | user/umalloc.c:21-22 | an empty heap |
| Umalloc.Allocator.Free | user/umalloc.c:24-44 | the block is no longer held; every other held block is where it was, unwritten |
| Umalloc.Allocator.FreeBlock | user/umalloc.c:24-44 | the freed block is part of a free block, coalesced on both sides |
| Umalloc.Allocator.Morecore | user/umalloc.c:46-61 | no change, exactly when sbrk has no room for the larger of the request and 4096 units; otherwise that much more heap at the old break, and a free block of at least the size asked for |
| Umalloc.Allocator.Take | user/umalloc.c:75-84 | exactly one new held block of exactly the units asked for |
| Umalloc.FitsEnd | user/umalloc.c:74-89 | a search that has come round to its start has seen every free block |
| Umalloc.Allocator.Search | user/umalloc.c:74-89 | the loop ends; it fails if and only if no free block fits and sbrk has no room; the break and the heap grow once, by what morecore asks for, exactly when no free block fits and sbrk has room |
| Umalloc.Allocator.Malloc | user/umalloc.c:63-90 | 0 if and only if no free block is large enough and sbrk has no room; otherwise a new held block of exactly the right size; the heap grows only when no free block is large enough, and then by exactly what one morecore asks for; held blocks are never moved, resized or written |
| Shell.RoundTrip | user/sh.c:328-446 | for words of any kind: parsing a command's parenthesised tokens gives the command back if and only if every EXEC has at most 9 arguments |
| Shell.LineBack | user/sh.c:345-446 | the same for a command followed by the end or a closing parenthesis |
| Shell.LineMade | user/sh.c:345-446 | whatever is parsed has at most 9 arguments per EXEC, and its words are words of the input |
| ShellParser.LexRuns | user/sh.c:266-309 | every word lexed is a longest run of plain characters |
| ShellParser.LexPrint | user/sh.c:266-309 | lexing the print of a command gives the tokens of its parenthesised form, at the right places |
| ShellParser.ParsePrint | user/sh.c:328-446 | parsing the print of a command with legal words gives the command, words as ranges of the line, if and only if every EXEC has room |
| ShellParser.PrintReads | user/sh.c:328-494 | after parsecmd on such a line the command's strings, read up to their NUL, are the command |
| ShellParser.WordsKept | user/sh.c:449-494 | nulterminate overwrites no character of any word of the line |
| ShellParser.WordReads | user/sh.c:449-494 | each word of the command reads back as its token |
| ShellParser.Gettoken | user/sh.c:266-309 | returns the next token of the line and moves past it |
| ShellParser.ReadToken | user/sh.c:276-302 | the switch of gettoken |
| ShellParser.Peek | user/sh.c:311-320 | true if and only if the next token begins with one of the characters |
| ShellParser.ParseRedirs | user/sh.c:375-398 | redirections nest around the command from left to right; a missing file panics |
| ShellParser.ParseArgs | user/sh.c:431-442 | arguments and redirections in any order; the tenth argument panics |
| ShellParser.ParseExec | user/sh.c:416-446 | a block, or a simple command |
| ShellParser.ParseBlock | user/sh.c:400-414 | a parenthesised line with redirections; a missing parenthesis panics; "parseblock" is unreachable |
| ShellParser.ParsePipe | user/sh.c:362-373 | a right-nested pipeline |
| ShellParser.ParseLine | user/sh.c:345-360 | pipelines with & and ;; ends on every input with the result of the token grammar |
| ShellParser.Nulterminate | user/sh.c:449-494 | exactly the positions after the command's words become NUL |
| ShellParser.Parsecmd | user/sh.c:328-343 | ends on every line with the grammar's result or its error; the strings of the command read as its tokens |
| Grep.InLangCons | user/grep.c:85-106 | a sequence of items matches if and only if the first matches a prefix and the others the rest |
| Grep.AcceptsStar | user/grep.c:98-106 | c* followed by a pattern, as some number of repetitions |
| Grep.StarStep | user/grep.c:98-106 | one more repetition, or none |
| Grep.FoundFrom | user/grep.c:72-82 | some substring is in the language if and only if matching succeeds from some position |
| Grep.MatchHere | user/grep.c:84-96 | true if and only if the pattern accepts a prefix, all of the text for a final $ |
| Grep.MatchStar | user/grep.c:98-106 | true if and only if some number of repetitions lets the rest of the pattern accept |
| Grep.Match | user/grep.c:72-82 | true if and only if some substring is in the pattern's language, respecting ^ and $ |
| Grep.StrChr | user/ulib.c:57-64 | the first occurrence in the buffer, unless a NUL comes before it |
| Grep.MoveDown | user/ulib.c:109-127 | the bytes kept move to the front |
| Grep.ScanLines | user/grep.c:21-29 | every complete line that strchr can reach is handled, and it can reach none in what is left |
| Grep.Round | user/grep.c:18-34 | one read: output so far plus output of what is left is unchanged |
| Grep.Run | user/grep.c:11-35 | for every input, NULs included, and every sequence of read sizes the output is the same function of the input |
| Grep.ShortLinesOutput | user/grep.c:11-35 | when every complete line has at most 1023 bytes with its newline and no NUL, the output is exactly the matching lines |
| Grep.OutputUpTo | user/grep.c:11-35 | for every input the output is the matching lines up to the line that stops the program |
| Grep.OutputExactly | user/grep.c:11-35 | the output is the matching lines for every pattern if and only if every complete line is that short and free of NULs |
| Grep.LongLineLost | user/grep.c:18-22 | otherwise the empty pattern, which matches every line, loses output |

## Left out

- Boot, traps, assembly, device registers, the hardware memory model, system-call plumbing, directories and path
  names, link counts, consoles and the other user programs are not modelled.
- Wal.Log.LogWrite: merges the caller's change of the buffer with log_write, because only their combination is visible to recovery.
- Wal.Log.Bread: always finds a buffer; when it does not is in `LogProtocol` and `LogLimits`.
- LogProtocol.StepInv: commit reads a log block and writes it in one step, so the buffer it holds in between is not counted against other threads.
- BufferCache.Cache.Bget: stops before the sleep lock is taken; the locks are in `LogProtocol`.
- FsWorstCase.HoleBreaksBudget: is about the block pointers before and after such a write and what they say is logged, because `Writei` is for files without holes.
- FileSystem.FileSys.Iupdate: keeps the inodes on disk as records rather than as bytes of the inode blocks.
- FileSystem.FileSys.Writei: bytes of a copy that failed are in the buffer and not logged; they are taken to stay, while the source loses them when the buffer is recycled.
- FileSystem.FileSys.Filewrite: no other operation runs between its transactions; pipes and devices are not part of it.
- FileSystem.FileSys.Readi: is for files without holes, which is what `Writei` keeps; on a hole the source would allocate outside a transaction and panic.
- ExitWait.StepInv: wait_lock and the process locks are modelled; other locks, the pid counter and the copying of the exit status are not.
- ExitWait.RunInv: the same.
- ExitWait.ReachableInv: the same.
- ExitWait.FreedOffStack: a fork that fails frees its child inside the critical section that made it, which is a step without effect here.
- ExitWait.SchedChecksPass: of the check that one lock is held, only the process lock and wait_lock are covered; interrupts are not modelled.
- Prompt delivery of `kill` is not claimed, because the source does not promise it.
- VirtualMemory.Machine.Freewalk: the recursion over three levels is written as three methods, one per level.
- VirtualMemory.Machine.UnmapPage: clears the entry before it frees the page, where the source frees first, the two touching different pages; pages of the space's own are only unmapped with freeing, and others without, as all callers do.
- VirtualMemory.Machine.Uvmunmap: the same holds of its ranges.
- VirtualMemory.Machine.Kfree: the free list is a sequence of page numbers; its links inside the free pages are not modelled.
- VirtualMemory.Machine.Uvmalloc: the pages must lie below MAXVA and be unmapped, which the size of physical memory ensures.
- ProcMemory.Process.Fork: the saved registers, open files and the process state are not part of it; `ExitWait` has the state.
- `copyin`, `copyout`, `uvmclear`, `uvmfirst` and the kernel's own page table are not modelled.
- VirtioQueue.Disk.Complete: the device reports success; a failing status, where the source panics, is not modelled.
- Umalloc.Allocator.Malloc: the width of the size field is not modelled, and requests are small enough for sbrk's int argument; the memory that sbrk can still give is a fixed limit on the break.
- `Shell` builds the arguments of an EXEC by value where the source fills them in through a pointer while redirections are already wrapped around it; malloc failure and running the command are not modelled.
