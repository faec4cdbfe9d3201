# xv6-riscv: verified models

This project models the hard parts of the xv6 kernel for RISC-V, of three of its user programs, and
of the shared counter in `kernel/race.c`, and proves what they promise. `dafny verify
dfyconfig.toml` checks everything.

Two kinds of model are used. Code that changes memory step by step under a lock is a class whose
methods keep the loops and assignments of the source; each method is proved against a function of
the state before the call. Code whose point is concurrency is a step system: a state, the atomic
steps of each process or device, and invariants over every interleaving.

- **File system.** `CrashLog` is the redo log as a sequence of block writes with a crash after any of
  them. `RedoLog` is the code of `kernel/log.c` over the cache of `BufferCache`, and issues exactly
  those writes. `LogProtocol` puts operations, commits, syncs and crashes into one step system.
  `BlockMap` and `InodeBlocks` are the bitmap and the block map; `FileData` is a file as one
  sequence of bytes, and the bound on the size of a transaction; `FullChunk` is a disk on which a write
  reaches the bound, and another goes wrong.
- **Virtual memory.** `Kalloc` is the page allocator. `PageTable` relates three levels of 512-word
  pages to a map from page number to entry. `Vm`, `UserVm`, `FreeVm` and `ProcVm` are the operations
  of `kernel/vm.c` on it; `AddressSpaces` runs any number of processes over one memory.
- **Concurrency.** `SleepLock` (sleep and wakeup), `ExitWait` and `Families` (exit, wait, fork, kill),
  `Virtio` and `DiskServes` (the disk queue), `Counter` (spin lock and the racing increments).
- **User programs.** `Umalloc`; `Shell`, `ShellGrammar` and `ShellCode`; `Grep`. `Collections` holds what modules share.

Hypotheses. Atomic steps are sequentially consistent. A block write is atomic. "bget: no buffers" is
a failure outcome of the cache. A copy from user memory stores what can be read of the source before
it fails. `vmfault` is called with the table of the running process. The heap lies above `base`. The
counter is not reset while it is raced for, and counts stay below 2^31. The disk device completes
the requests it has read, in any order, with status 0.

Where a promise of the source turned out false it is stated as such. Logging at most MAXOPBLOCKS
distinct blocks per operation does not keep `log_write` from "too big a transaction": its size check
comes before absorption, so a write to a block that is already in the log panics when the log is
full (`LogProtocol.AbsorbedWriteCanPanic`); it panics exactly when the header is full, which cannot
happen to an operation that has a new block left in its reservation (`LogProtocol.Reservation`). A
full log cannot be committed: there are as many buffers as log blocks, so LOGBLOCKS pinned blocks
leave none for the log blocks; with no other references to buffers, commit gets those it needs if
and only if the header names fewer blocks (`RedoLog.LogDevice.Commit`, `RedoLog.FullLog`). `writei`
stores what it can read of a piece before it finds that the rest cannot be read, and does not report
it: the contents are the old ones with the reported bytes in their place if and only if the source
can be read to its end, or what can be read of it behind the last block boundary is what the file
has there (`FileData.ContentWritten`; `FullChunk.TornWrite` is a write that breaks it). The write
does not log those bytes; they are gone if the block is read from disk again
(`FileData.TornUndone`). `malloc` asks `sbrk` for as much as it puts on its list exactly for
requests of at most 0x7fff_ffe0 bytes; for 0xffff_fff0 bytes it asks for nothing
(`Umalloc.SbrkExact`). Without the lock `race_increment` can end at 2 however many increments are
made (`Counter.TwoIsReached`), never below min(2, k) (`Counter.UnlockedBounds`), and is sure to end
at n*k if and only if there are no two processes or no increments (`Counter.UnlockedExact`).

## Model

| member | source | states |
|---|---|---|
| CrashLog.InstallPrefix | kernel/log.c:67-85 | after any first part of install_trans, exactly the installed home blocks hold the logged contents and all other blocks are untouched |
| CrashLog.RecoverPrefixPending | kernel/log.c:118-125 | recovery cut short after any of its writes leaves the committed transaction still recoverable, and done exactly when all writes reached the disk |
| CrashLog.CommitPrefix | kernel/log.c:196-206 | before the header write the old home blocks stay; from then on the new ones are pending; after the last write they are in place |
| CrashLog.RecoveryCompletes | kernel/log.c:118-125 | any number of crashes inside recovery, then one complete recovery, ends with a clean log and the right home blocks |
| CrashLog.CrashAtomicity | kernel/log.c:66-125 | commit stopped after any write, recovery crashed any number of times and then completed: home blocks all new if and only if the header write reached the disk, otherwise all old |
| RedoLog.LogDevice.WriteLog | kernel/log.c:181-194 | the log blocks get the cached contents of the blocks in the header, by exactly those block writes in order; one spare buffer is enough, and without one for the first log block it fails |
| RedoLog.LogDevice.InstallTrans | kernel/log.c:67-85 | every logged block is copied to its home and, outside recovery, unpinned; readers of home blocks see the logged contents; one spare buffer is enough, in recovery two |
| RedoLog.LogDevice.WriteHead | kernel/log.c:104-116 | one block write, of a header block that decodes to the in-memory header; fails exactly when no buffer has the block and all are referenced |
| RedoLog.FillHeader | kernel/log.c:104-116 | the loop produces the header with the given block numbers and leaves the rest of the block alone |
| RedoLog.ScanHeader | kernel/log.c:88-99 | the loop reads back the block numbers a header holds |
| RedoLog.LogDevice.ReadHead | kernel/log.c:88-99 | the in-memory header becomes what the header block on disk says, and nothing is written; fails exactly when no buffer has the block and all are referenced |
| RedoLog.LogDevice.Commit | kernel/log.c:196-206 | the block writes are those of the crash model, in order; afterwards the header is empty, nothing is pinned and no reader of a home block sees a change; one spare buffer is enough, and with no references but the pins it fails if and only if the header names NBUF blocks |
| RedoLog.LogDevice.RecoverFromLog | kernel/log.c:118-125 | the block writes are exactly those of recovery in the crash model; two spare buffers are enough, so it does not fail after a boot |
| RedoLog.LogDevice.LogWrite | kernel/log.c:217-238 | the block is in the header afterwards, once, and its buffer is pinned; false, a panic, exactly when the header is full or no operation is outstanding |
| RedoLog.LogDevice.Update | kernel/log.c:208-238 | bread, change, log_write and brelse in sequence keep the log device valid; the block is in the header and every reader sees the change; the disk is not written; fails exactly when the header is full or no buffer can be had |
| RedoLog.LogDevice.Operation | kernel/log.c:156-238 | any writes of an operation, made through cache and log and committed: however far it came, crashes and recovery leave all of its writes or none, all of them if it ended; with no other references to buffers it ends if and only if it writes fewer than NBUF different blocks |
| RedoLog.FullLog | kernel/log.c:181-206 | on any disk with room: writes to LOGBLOCKS different blocks, whose commit fails; crashes leave all of them or none |
| RedoLog.FullHeader | kernel/log.c:181-206 | no buffer is spare exactly when the header names NBUF blocks, and then none can be had for a log block |
| RedoLog.QuietOnDisk | kernel/log.c:208-238 | while no buffer is locked, a block whose latest contents are not on disk is in the header and pinned |
| RedoLog.CommitCrashSafe | kernel/log.c:180-206 | whatever part of its writes the commit code issued, crashes and recovery leave home blocks all old or all new, all new if it finished |
| LogProtocol.CrashAnywhere | kernel/log.c:127-206 | in every interleaving of operations, commits and earlier crashes, stopping anywhere and recovering gives the contents as of the last commit point |
| LogProtocol.Reservation | kernel/log.c:127-178 | header entries plus unused reservations never exceed LOGBLOCKS; committing implies no outstanding operation; a log_write with reservation left does not panic; an idle log is empty and admits an operation |
| LogProtocol.CommittedStays | kernel/log.c:196-206 | what is committed stays committed across any further steps and crashes |
| LogProtocol.SyncIsDurable | kernel/log.c:240-252 | sys_sync called in any reachable state and returned without a crash in between: every operation that had ended before the call is on disk, and stays there across any further steps and crashes |
| LogProtocol.SyncReturns | kernel/log.c:240-252 | sys_sync returns at once exactly if no operation and no commit is under way, and otherwise can return exactly when a commit was finished after the call |
| LogProtocol.CommitFinishes | kernel/log.c:144-206 | a commit under way can always be finished; then every operation that has ended is durable and the log admits operations |
| LogProtocol.AbsorbedWriteCanPanic | kernel/log.c:217-238 | a run in which every operation logs at most MAXOPBLOCKS distinct blocks, the last write included, and log_write still panics, on a block that operation has logged itself |
| BufferCache.UnlinkOk | kernel/bio.c:115-136 | unlinking a buffer from the circular list leaves one circular list of the others |
| BufferCache.PushOk | kernel/bio.c:115-136 | inserting a buffer behind the head gives one circular list with it in front |
| BufferCache.UnusedIsClean | kernel/bio.c:57-88 | a valid buffer that nobody locks or pins agrees with the disk, so recycling it loses nothing |
| BufferCache.MissReadsLatest | kernel/bio.c:91-102 | the disk block that a miss reads is the latest contents |
| BufferCache.RecycleOk | kernel/bio.c:57-88 | giving an unreferenced buffer to an uncached block keeps the cache a faithful view of the blocks |
| BufferCache.BCache.constructor | kernel/bio.c:35-52 | all buffers form one circular list in both directions |
| BufferCache.BCache.FindCached | kernel/bio.c:57-88 | the forward scan finds the buffer of a block if and only if there is one |
| BufferCache.BCache.FindUnused | kernel/bio.c:57-88 | the backward scan finds the unreferenced buffer whose last release is oldest |
| BufferCache.BCache.Bget | kernel/bio.c:57-88 | one reference to the only buffer of the block, recycled if it was not cached; None exactly when all buffers are referenced |
| BufferCache.BCache.Bread | kernel/bio.c:91-102 | a locked buffer with the current contents of the block, whatever has been recycled before; no buffer, exactly when none has the block and all are referenced; or a wait in acquiresleep, only if the buffer of the block is locked |
| BufferCache.BCache.Modify | kernel/bio.c:91-102 | the lock holder's change becomes the current contents of the block, and of no other |
| BufferCache.BCache.Bwrite | kernel/bio.c:105-111 | the disk block gets the buffer's contents; no view changes |
| BufferCache.BCache.Brelse | kernel/bio.c:115-136 | one reference less; the last one moves the buffer to the front of the list; a buffer must be pinned or on disk by then |
| BufferCache.BCache.Bpin | kernel/bio.c:138-144 | one reference more, owned by the log |
| BufferCache.BCache.Bunpin | kernel/bio.c:146-152 | that reference is given back |
| BlockMap.PutHas | kernel/fs.c:67-107 | setting or clearing one bit of a byte by its mask changes that bit only |
| BlockMap.Marked | kernel/fs.c:67-107 | marking a block in the bitmap changes what the bitmap says of that block only |
| InodeBlocks.Fs.Balloc | kernel/fs.c:67-90 | the first free block, marked and zeroed, with only its bit changed; 0 exactly when every block is marked |
| InodeBlocks.Fs.Bfree | kernel/fs.c:93-107 | exactly the bit of the block is cleared |
| InodeBlocks.Fs.Bmap | kernel/fs.c:406-445 | the block of the file at that place, allocated if there was none; no byte of any file and no other place changes; every bitmap, data and indirect block that changed is logged, and no others; 0 only when the disk is full |
| InodeBlocks.Fs.MapSlot | kernel/fs.c:406-445 | the same for a block number in the inode |
| InodeBlocks.Fs.MapEntry | kernel/fs.c:406-445 | the same for an entry of the indirect block |
| InodeBlocks.Attach | kernel/fs.c:406-445 | giving a fresh zeroed block a place keeps ownership unique and changes no byte of any file |
| InodeBlocks.Fs.Itrunc | kernel/fs.c:449-477 | exactly the blocks of this inode are freed, none of them twice, and the inode is empty; every bitmap and inode block that changed is logged |
| InodeBlocks.Fs.FreeIndirect | kernel/fs.c:449-477 | the entries of the indirect block and the block itself are freed, each found in use |
| InodeBlocks.OneUse | kernel/fs.c:403-477 | blocks reachable from inodes are pairwise distinct, marked used and not metadata |
| FileData.Readi | kernel/fs.c:495-520 | the bytes of the file from off on, clipped to the size, with the wrap check; -1 exactly when the destination is too small for them; allocates nothing and changes nothing |
| FileData.WriteBlock | kernel/fs.c:540-552 | one turn of the loop changes exactly its bytes of its file, whether the copy succeeds or fails; every block that changed is logged, but for one in which a failed copy stored something |
| FileData.WriteBytes | kernel/fs.c:540-552 | the loop: the copied bytes, and behind them what a failed copy could read, are in the file; which places were mapped; all changed blocks are logged but for that of a failed copy, and how many are logged; a count short of n ends at a block boundary, at a copy that cannot be read to its end or at a full disk |
| FileData.Writei | kernel/fs.c:529-563 | -1 exactly for a hole, a wrap or a file too large; otherwise the copied bytes replace the old ones, the size covers them, only a failed copy or a full disk ends it early, at a block boundary, and a failed copy also stores behind them what it could read; every block below the size stays mapped; every changed bitmap, data, indirect and inode block is logged, but for one in which a failed copy stored something; the number of logged blocks is bounded |
| FileData.StoreByte | kernel/fs.c:529-563 | storing into the block of a file changes those bytes of that file and of no other |
| FileData.ContentWritten | kernel/fs.c:529-563 | as sequences: the contents are the old ones with the reported bytes in their place if and only if the source can be read to its end, or what can be read of it behind the last block boundary is what the file has there; all other files keep theirs |
| FileData.TornUndone | kernel/fs.c:546-549 | if the block of a failed copy, which is not logged, is read from disk again, the contents are the old ones with the reported bytes in their place, for every source |
| FullChunk.TornWrite | kernel/fs.c:529-563 | a write of one block from the last byte before memory that cannot be read: it reports no byte, and the first byte of the file has changed |
| FileData.FirstMapped | kernel/file.c:149-165 | a write that starts inside a block starts in a mapped block |
| FileData.ChunkFits | kernel/file.c:149-165 | the bound for a chunk of filewrite is at most MAXOPBLOCKS at every offset |
| FullChunk.TenBlocks | kernel/file.c:149-165 | a disk after a chunk is written at an unaligned end of file: its bytes, its size and its new blocks are in place, and the transaction has logged the ten blocks that changed and no others, MAXOPBLOCKS in all |
| FullChunk.TenLogged | kernel/file.c:149-165 | which ten: four bitmap blocks, the inode block, the indirect block and four data blocks |
| FileData.WriteChunk | kernel/file.c:149-165 | one transaction of filewrite, from any consistent state: at most MAXOPBLOCKS blocks are logged, and all that changed are among them, but for that of a failed copy |
| FileData.Filewrite | kernel/file.c:134-179 | full chunks but for the last; every transaction logs at most MAXOPBLOCKS blocks and together they log all that changed, but for the block of a failed copy; the bytes written and the new offset; if no copy fails and the disk is not full, all bytes or, at the size limit, all full chunks before it are written; -1 exactly when not all are written |
| Kalloc.Machine.Freerange | kernel/kalloc.c:33-40 | exactly the whole pages of the range become free |
| Kalloc.Machine.Kfree | kernel/kalloc.c:46-63 | the page, filled with junk behind its link, is first on the list of distinct free pages; no other page changes |
| Kalloc.Machine.Kalloc | kernel/kalloc.c:68-82 | the first free page leaves the list, filled with junk; 0 exactly when there is none |
| PageTable.PteRoundTrip | kernel/riscv.h:381-392 | an entry gives back its frame, its flags, and by bits 1 to 4 whether it can be read, written, executed and used by the user |
| PageTable.AddMid | kernel/vm.c:98-116 | a zeroed page linked under the root represents the same map with one more level-1 page |
| PageTable.AddLow | kernel/vm.c:98-116 | a zeroed page linked under a level-1 page represents the same map with one more leaf table |
| PageTable.SetLeaf | kernel/vm.c:146-175 | storing an entry through walk's pointer changes the map at that page only |
| Vm.DirEntry | kernel/vm.c:98-116 | the word walk reads at each level is valid exactly when the next page exists, and leads to it |
| Vm.Walk | kernel/vm.c:98-116 | the address of the leaf entry in the tree that represents the map; without alloc nothing changes; with alloc exactly the missing page-table pages are added, and it fails if and only if there are fewer free pages than those |
| Vm.NeedAtMost | kernel/vm.c:98-175 | the pages it takes to map a range, page-table pages counted as they come to exist, are at most two for each page besides its frame |
| UserVm.Mappages | kernel/vm.c:146-175 | the map gets exactly these consecutive entries, or a first part of them if and only if the free pages are fewer than the missing page-table pages of the whole range; pages are conserved |
| UserVm.Uvmunmap | kernel/vm.c:193-213 | the map loses exactly these pages, unmapped ones are skipped, user frames go back to the free list |
| UserVm.Uvmdealloc | kernel/vm.c:248-260 | the pages between the two sizes are gone; the returned size |
| UserVm.Uvmalloc | kernel/vm.c:217-242 | all pages between the sizes are mapped to fresh zeroed frames, walkaddr finds every address in them, and they can be read, and written and executed as asked; or the map is what it was, if and only if the free pages are fewer than those frames and the missing page-table pages |
| UserVm.Vmfault | kernel/vm.c:454-475 | a page gets a zeroed frame, at which walkaddr finds it, readable, writable and not executable, if and only if it is below the size, is not mapped, and the free pages suffice for it and its missing page-table pages; 0 and no change of the map otherwise |
| UserVm.IsMapped | kernel/vm.c:477-488 | whether the map has the page |
| UserVm.WalkAddr | kernel/vm.c:121-139 | the frame of a mapped user page, and 0 for every other address |
| FreeVm.Freewalk | kernel/vm.c:264-280 | every page of a table without leaves goes to the free list, each once; "freewalk: leaf" is not reached and no other page changes |
| FreeVm.Uvmfree | kernel/vm.c:284-290 | every page-table page and user frame is freed, if all entries lie below the size |
| FreeVm.ProcFreepagetable | kernel/proc.c:212-218 | the same for a process, with trampoline and trapframe unmapped but not freed |
| ProcVm.Uvmcreate | kernel/vm.c:179-188 | an empty table on a fresh page, or 0 exactly when no page is free |
| ProcVm.ProcPagetable | kernel/proc.c:178-208 | a table with just trampoline and trapframe, on three pages, or, exactly when fewer are free, 0 with every page back on the free list |
| ProcVm.Uvmcopy | kernel/vm.c:298-326 | the child maps the same pages with the same flags and bytes on frames of its own; it fails if and only if the free pages are fewer than the mapped pages and the page-table pages the child lacks, and then its map is what it was; the parent is untouched |
| AddressSpaces.Procs.Allocproc | kernel/proc.c:109-151 | a new process with an empty address space, if and only if the table has a slot and four pages are free; no page lost otherwise |
| AddressSpaces.Procs.Growproc | kernel/proc.c:238-257 | size and entries after growing or shrinking; new pages are zeroed, found by walkaddr, writable and not executable; -1 exactly when it is to grow beyond TRAPFRAME or the free pages do not suffice, with the same entries; other processes' pages untouched |
| AddressSpaces.Procs.SbrkLazy | kernel/sysproc.c:43-69 | only the size grows, up to TRAPFRAME |
| AddressSpaces.Procs.Sbrk | kernel/sysproc.c:43-69 | the old size or -1; -1 exactly when it is to grow beyond TRAPFRAME or, by the eager way, the free pages do not suffice; an eager growth maps and zeroes the new pages, a lazy one maps nothing, and shrinking unmaps exactly the pages between the sizes |
| AddressSpaces.Procs.Fault | kernel/vm.c:454-475 | a fault of one process maps at most its own page, and does if and only if the page is below the size, is not mapped, and the free pages suffice |
| AddressSpaces.Procs.Reach | kernel/vm.c:388-396 | walkaddr and then vmfault, as copyin and copyout do it: a frame for every address below the size, mapped or not, as long as memory suffices, and for no address of trampoline or trapframe |
| AddressSpaces.FoundAt | kernel/vm.c:121-139 | walkaddr on the table of a process finds exactly the mapped pages below its size |
| AddressSpaces.CopyEntries | kernel/vm.c:298-326 | the child's pages can be read, written and executed exactly like the parent's |
| AddressSpaces.Procs.Freeproc | kernel/proc.c:156-174 | exactly the pages of the process go back to the free list |
| AddressSpaces.Procs.Fork | kernel/proc.c:261-310 | the child's pages and saved registers equal the parent's, but for a0, which is 0; no child exactly when the table is full or the free pages are fewer than four and those of the copy, and then no page is lost |
| AddressSpaces.WorldChange | kernel/proc.c:176-218 | an operation on one process keeps every page free or owned by exactly one process, and touches no page of another |
| AddressSpaces.Run | kernel/vm.c:86-326 | any run of system calls and faults of any number of processes, each with its effect on the processes, ended by their exits, leaves exactly the pages of the beginning on the free list |
| AddressSpaces.Procs.Step | kernel/sysproc.c:43-69 | one call or fault keeps the sharing of all pages and does exactly what it should to the processes: a new one, a size, a mapping, a copy or an exit, or nothing when it fails |
| SleepLock.MutualExclusion | kernel/sleeplock.c:21-41 | at most one process holds a sleep lock, in every interleaving |
| SleepLock.NoLostWakeup | kernel/proc.c:544-591 | whenever the inner spin lock is free and locked is 0, no process is asleep or in transit to sleep on the lock |
| SleepLock.FreeLockReachable | kernel/sleeplock.c:21-41 | then every process in acquiresleep can be the next holder: a run of at most ten steps leads there, its own after those of a kkill that has its p->lock |
| SleepLock.SleepsOnlyWhenTaken | kernel/proc.c:546-573 | a process on its way to sleep holds the inner lock and the sleep lock belongs to another |
| SleepLock.ReleaseFrees | kernel/sleeplock.c:33-41 | releasesleep by the holder, whenever no other process holds a spin lock, ends with the lock free and nobody asleep on it |
| SleepLock.CallEnds | kernel/sleeplock.c:21-41 | acquiresleep, releasesleep and kkill come to an end: with the lock, asleep, or outside |
| SleepLock.NoDeadlock | kernel/proc.c:546-591 | a process that cannot take a step waits for a lock whose holder can, or whose holder waits for a p->lock whose holder can |
| ExitWait.NoLostChild | kernel/proc.c:312-419 | whenever wait_lock is free, no process asleep or in transit to sleep in kwait has a zombie child, also across reparenting |
| ExitWait.ReapedOnce | kernel/proc.c:374-419 | whenever a process is about to reap a child, the child has not been reaped before, is a zombie, the process is its current parent and holds wait_lock, and the step records the status the child exited with |
| ExitWait.ReapedForGood | kernel/proc.c:374-419 | what was reaped stays recorded as it was, with the status of its exit |
| ExitWait.TwoReaps | kernel/proc.c:374-419 | two reaping steps of a run are of two different children |
| ExitWait.SleepyStep | kernel/proc.c:546-591 | a process starts to sleep only where sleep drops wait_lock, and a visit by wakeup ends it |
| ExitWait.ZombieStep | kernel/proc.c:312-370 | a process gets a zombie child only by the exit of a child or, as init, by reparenting |
| Families.LiveParent | kernel/proc.c:262-369 | in every run, the parent of a process is alive and not past reparent; every started process but init has a parent, also as a zombie |
| Families.KwaitReturns | kernel/proc.c:374-419 | kwait returns a child that it reaped itself, with the status of its exit, or -1, and then the caller is killed, has no child, or has a zombie whose status could not be copied out |
| Families.KwaitSleeps | kernel/proc.c:411-417 | a scan that ends has found no zombie; it leads to sleep exactly if the caller has a child and is not killed |
| Families.KwaitReaps | kernel/proc.c:374-419 | wherever in kwait the parent of a zombie is, its own steps reap a child and return, whenever no other process holds a lock |
| Families.ExitStatus | kernel/proc.c:330-419 | a process that called exit with a status carries that status until it is reaped, and kwait reports it |
| Families.ForkMakes | kernel/proc.c:262-310 | kfork on a free slot makes a runnable child of the caller with the next pid, by the caller's own steps, whenever no other process holds a lock |
| Families.ExitEnds | kernel/proc.c:330-369 | kexit makes the caller a zombie by its own steps, whenever no other process holds a lock |
| Families.KillWakes | kernel/proc.c:593-619 | kkill marks its victim and leaves it not asleep; a victim asleep in kwait is on its way out |
| Families.KilledReturns | kernel/proc.c:411-417 | a killed process in kwait, not past the test for it, returns by its own steps whenever no other process holds a lock |
| Families.CallEnds | kernel/proc.c:262-419 | fork, kill, exit and wait come to an end: whenever no other process holds a lock, the steps of one process lead it to user space, to sleep in kwait, or to its end |
| Families.NoDeadlock | kernel/proc.c:262-619 | a process that cannot take a step waits for a lock whose holder can, or whose holder waits for a p->lock whose holder can |
| Counter.MutualExclusion | kernel/spinlock.c:19-115 | at most one process is in the critical section, no panic in acquire, release or pop_off is reached, interrupts are off inside and on outside |
| Counter.Matched | kernel/spinlock.c:86-115 | any sequence of push_off and pop_off: interrupts stay off until every push_off is undone and are then what they were; pop_off panics exactly when there is none to undo |
| Counter.LockedExact | kernel/race.c:56-91 | every schedule with the lock ends with both cells at n*k |
| Counter.LockedFinishes | kernel/race.c:56-91 | for every n and k there is a schedule with the lock that lets all processes finish, and it ends at n*k |
| Counter.UnlockedBounds | kernel/race.c:56-91 | every schedule without the lock ends between min(2,k) and n*k |
| Counter.TwoIsReached | kernel/race.c:56-91 | for n, k >= 2 some schedule without the lock ends at 2 |
| Counter.LostUpdates | kernel/race.c:56-91 | for n >= 2 and k >= 1 some schedule without the lock ends at k |
| Counter.UnlockedExact | kernel/race.c:56-91 | every finished schedule without the lock ends at n*k if and only if n <= 1 or k == 0 |
| Virtio.Descriptors.AllocDesc | kernel/virtio_disk.c:155-165 | the first free descriptor, or -1 when none is free |
| Virtio.Descriptors.Alloc3Desc | kernel/virtio_disk.c:200-212 | the first three free descriptors, or none and the free flags as before, exactly when fewer than three are free |
| Virtio.Descriptors.FreeChain | kernel/virtio_disk.c:184-196 | exactly the three descriptors of the chain are freed |
| Virtio.OneOwner | kernel/virtio_disk.c:154-326 | each descriptor is free or in exactly one in-flight chain of three |
| Virtio.AvailNotOverwritten | kernel/virtio_disk.c:214-291 | a new avail entry overwrites none the device has not read, despite 16-bit indices |
| Virtio.UsedNotOverwritten | kernel/virtio_disk.c:293-326 | a new used entry overwrites none the driver has not read |
| Virtio.TakenInOrder | kernel/virtio_disk.c:214-291 | the device reads announced requests in order, each once |
| Virtio.CompletedOnce | kernel/virtio_disk.c:293-326 | the handler completes each request once, for its own buffer, with status 0 |
| Virtio.NotSeenEarly | kernel/virtio_disk.c:293-326 | the handler does not take a used entry that the device has written but not yet announced |
| Virtio.ReturnsAfterCompletion | kernel/virtio_disk.c:214-291 | virtio_disk_rw returns only when its own request is completed, and frees its three descriptors |
| Virtio.OwnTransfer | kernel/virtio_disk.c:214-291 | following the descriptors, the device moves data between the sector and the buffer of the request and nothing else |
| DiskServes.HandlerDrains | kernel/virtio_disk.c:293-326 | the handler leaves its loop only when it has completed every request that the device announced as done |
| DiskServes.Served | kernel/virtio_disk.c:214-326 | from every state, for every request, there is a run that completes it and lets virtio_disk_rw return |
| Virtio.EmptyTest | kernel/virtio_disk.c:311-323 | comparing 16-bit indices tells whether a ring is empty |
| Umalloc.Heap.FindPlace | user/umalloc.c:24-44 | the circular search ends, at the place where the block belongs |
| Umalloc.Heap.Free | user/umalloc.c:24-44 | the block leaves the live blocks and joins the free ones it touches; the list stays one ordered cycle without adjacent blocks; no header inside another live block is written |
| Umalloc.Heap.Morecore | user/umalloc.c:46-61 | fresh units are added to the heap and are free near freep; NULL exactly when they do not fit below the limit of sbrk, and then nothing changes; no header inside a live block is written |
| Umalloc.Heap.Malloc | user/umalloc.c:63-90 | the search ends; a block that was not live, of the fewest units that hold the bytes; NULL if and only if no free block fits and the units sbrk is asked for do not fit below its limit or it would be asked for too little, the latter exactly for requests above 0x7fff_ffe0 bytes that no free block meets; no header inside a live block is written |
| Umalloc.Heap.Take | user/umalloc.c:63-90 | the whole block, or its end, is handed out; no header inside a live block is written |
| Umalloc.SbrkExact | user/umalloc.c:46-61 | sbrk is asked for exactly what goes on the list if and only if the request is at most 0x7fff_ffe0 bytes; 0xffff_fff0 bytes make it sbrk(0) |
| Umalloc.MergeUp | user/umalloc.c:24-44 | joining with the block above keeps the list complete and separated |
| Umalloc.MergeDown | user/umalloc.c:24-44 | joining with the block below keeps the list complete and separated |
| Umalloc.Placed | user/umalloc.c:24-44 | a block that touches neither neighbour gets a place of its own |
| Umalloc.Conservation | user/umalloc.c:24-90 | the units from sbrk are exactly the free ones and the live ones, none in both |
| Shell.RoundTrip | user/sh.c:333-452 | parsing the printed form of any legal command gives the command |
| Shell.ParsedLegal | user/sh.c:333-452 | every command that a line parses to is legal, and printing and parsing it gives it again |
| Shell.Parseable | user/sh.c:333-452 | the commands that some line parses to are exactly the legal ones |
| ShellGrammar.ParserIsGrammar | user/sh.c:333-452 | tokens parse to a command exactly if the grammar of lines, pipes, blocks and simple commands derives it from them |
| ShellGrammar.SimpleExec | user/sh.c:421-452 | words and redirections in any order: the words are the arguments and the redirections are around them, each in their order; a panic exactly for an arrow without a word, another token, or MAXARGS words |
| ShellGrammar.LexerIsSpelling | user/sh.c:271-314 | the tokens of a line are exactly those that it is spelled with, with blanks only where two would be one |
| Shell.ParsesLine | user/sh.c:350-365 | the line form of a command, followed by the end or a closing parenthesis, parses to it |
| Shell.ParsesRedir | user/sh.c:380-452 | a command with its redirections parses to it |
| ShellCode.GetToken | user/sh.c:271-314 | the next token, its text, and the position of the following one |
| ShellCode.Peek | user/sh.c:316-326 | whether the next character is one of the given ones; only blanks are skipped |
| ShellCode.ParseRedirsAt | user/sh.c:380-403 | the cursor code agrees with the parser on tokens |
| ShellCode.ParseExecAt | user/sh.c:421-452 | the cursor code agrees with the parser on tokens, also on the panics |
| ShellCode.ParseArgsAt | user/sh.c:421-452 | the argument loop agrees with the parser on tokens, also on too many arguments |
| ShellCode.ParseBlockAt | user/sh.c:405-419 | the cursor code agrees with the parser on tokens |
| ShellCode.ParsePipeAt | user/sh.c:367-378 | the cursor code agrees with the parser on tokens |
| ShellCode.ParseLineAt | user/sh.c:350-365 | the cursor code agrees with the parser on tokens |
| ShellCode.ParseCommand | user/sh.c:333-348 | terminates on every line; the command on the line, or a syntax error exactly when the parser on tokens fails |
| ShellCode.NulTerminate | user/sh.c:455-499 | a NUL behind every word, and no word character changed |
| ShellCode.ReadsAll | user/sh.c:455-499 | read as C strings, the stored words are the tokens |
| ShellCode.ParseBuffer | user/sh.c:333-348 | the whole of parsecmd: the command that the grammar derives from the spelling of the line, held by the buffer afterwards, or a syntax error exactly when there is none; on the printed form of a command it is that command |
| Grep.Match | user/grep.c:72-82 | true exactly when some part of the text is a word of the expression, at the beginning after '^' and up to the end before a final '$' |
| Grep.MatchHere | user/grep.c:85-97 | true exactly when a beginning of the text is such a word |
| Grep.MatchStar | user/grep.c:100-108 | true exactly when the text is some fitting characters followed by a match of the rest |
| Grep.HereItem | user/grep.c:85-97 | an item matches and then the rest does, in the meaning by decomposition |

## Left out

- kernel/pipe.c and kernel/console.c: ring buffers, easier members of the same kind.
- kernel/exec.c, kernel/syscall.c and most of kernel/sysproc.c: argument marshalling and loading of programs; so `uvmclear` is left out too, and of `copyin` and `copyout` all but how they get at an address.
- kernel/trap.c, kernel/uart.c, kernel/plic.c, kernel/start.c and the assembly: device and hardware plumbing.
- kernel/fs.c inodes, directories and path names (`ialloc`, `iget`, `iput`, `dirlookup`, `namex`): link counts need a further hypothesis about unlinked directories.
- kernel/proc.c scheduling: a process gives up the CPU and the scheduler releases its lock; the choice of the next process and preemption by the timer are not modelled.
- Integer widths of pids, tick counts and commit counts: unbounded integers.
- InodeBlocks.Fs.Bmap: a block is kept as bytes and as an array of block numbers in two maps; the byte order of block numbers on disk is not modelled.
- FileData.Filewrite: between two chunks other writers can get the inode lock; that is not modelled. FileData.WriteChunk holds from any consistent state.
- AddressSpaces.Procs.Fork: open files, the current directory and the name are not modelled.
- UserVm.Uvmunmap: do_free is set exactly for user pages, as every caller has it; unmapping user pages without freeing them, or freeing the trampoline, is not modelled.
- Umalloc.Heap.Malloc: stops where sbrk would be asked for less than goes on the list; what the heap is like afterwards is not modelled.
- ShellCode.ParseArgsAt: the arguments are collected and put into the tree at the end, where the source fills a node that is already in the tree.
- RedoLog.LogDevice.Commit: one caller at a time, as the committing flag ensures; the interleavings are in LogProtocol, where buffers do not run out.
- BufferCache.BCache.Bread: ends where acquiresleep waits for another holder of the buffer; what follows is modelled in SleepLock.
