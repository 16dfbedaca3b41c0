# A verified model of xv6 for CPUTwo

This project models the parts of the xv6 kernel and user programs whose correctness depends on
invariants kept across many functions, and proves those invariants and what follows from them.
`dafny verify dfyconfig.toml` checks everything.

* **Crash-safe storage.** `Disk` is the block device as 512-byte sector commands. `RedoLog` gives
  the meaning of a disk with a redo log and proves commit and recovery atomic at every sector
  write. `LogRuns` is the log as a state machine over all interleavings of system calls, commits,
  crashes and recoveries; `Log` is the code that drives it. `FsBytes`, `FsState`, `Fs` and `FileIO`
  are blocks, inodes and files: who owns each block, what bytes each file holds, how many blocks a
  write logs; `LogBound` shows that bound reached. `FlatFiles` is a file system of flat byte sequences,
  those that programs read and those that are committed, and `FsSafe` and `FsRuns` relate runs on blocks
  to it. `CrashFs` joins files and log over whole runs, and `Packing` lays the files out in blocks and
  reads them back. `Mkfs` builds an image; `FirstBoot` boots from it, runs and loses power, and
  `RootDirectory` looks its files up. `Bio` is the buffer cache and `LogCache` the log's use of it. `LinkState`, `Links` and `LinkRuns` are directory
  entries and link counts.
* **Memory.** `PageTable` and `VmState` describe two-level page tables, the one use of every
  physical page, and the flat memory that programs see; `PageCost` counts the pages that a mapping
  takes. `Paging`, `UserMemory`, `UserCopy`, `ProcMemory` and `Exec` are the code; `MemoryRuns` puts all
  processes of the machine together.
* **Allocator.** `Ring`, `FreeList`, `Umalloc` and `MallocRuns` are the allocator of Kernighan and Ritchie, The C
  Programming Language, section 8.7. `Base` holds what several of the models need.
* **Sleep and wakeup.** `Pipe`, `Proc` and `Sleeplock`: each stretch of code under a spinlock is one
  atomic step, because the machine has one CPU and a held spinlock keeps interrupts off.
* **Parser and matcher.** `ShellGrammar`, `ShellSyntax`, `ShellText` and `Shell` for the shell's command
  language; `Regex` and `Grep` for the matcher of The Practice of Programming, chapter 9, and its line loop.

Conventions:

* A panic is an error outcome where the code can reach it, and otherwise an assertion or a
  precondition that is proved at every call. The row of the property names the panic.
* What the kernel learns from outside is a parameter: whether user memory faults and where, what
  sbrk answers, whether a directory can grow, what a read from a file returns.
* Integers are unbounded; 32-bit wrap-around is written out where the code relies on it or can
  meet it: pipe counters, malloc's rounding and sbrk argument, file offsets, segment ends,
  shrinking below zero. Link counts have 16 bits.
* Where comments and code differ the model follows the code: `mkfs/mkfs.c` line 92 calls a block
  one disk sector, but the driver writes a block as two, and the model does too.

Where a promise does not hold on all inputs, the model keeps the code as it is and the proofs give the
condition:

* A root directory whose entries fill whole blocks gets a size that reaches into a block it does not have
  (`FirstBoot.ReadFullRoot`); every other image is consistent from the first boot on.
* A write whose source faults inside a block that was there before, behind bytes that differ from those
  stored, leaves an unlogged change in an idle buffer (`LogCache.CachedLog.Torn`, `FsRuns.TornExactly`,
  `FsRuns.TearsExactly`). Programs read the torn bytes until the buffer is recycled, unless a later write to
  that block commits them; crash safety holds for runs with such writes too.
* A transaction of NBUF blocks, which the log admits because LOGBLOCKS equals NBUF, cannot be committed
  (`LogCache.CachedLog.CommitStuck`, `LogCache.FillTheLog`); every smaller one can. It takes calls that use up
  their whole reservation (`LogRuns.RunsLeaveRoom`), which no write on the disk that mkfs makes does.
* A link count has 16 bits: unlink panics on a file of more than 32767 links (`LinkRuns.OneLinkTooMany`), and
  iput frees one of 65536; within 32767 every run is sound (`LinkRuns.Run`).
* A name made in a directory that was removed while in use is lost with it, and the file keeps its link
  (`LinkRuns.LostName`); otherwise every link count is exact (`LinkRuns.CountsExact`).
* kill(0) marks a free slot (`Proc.Procs.BornKilled`); otherwise no child starts killed.
* A shell command of MAXARGS or more arguments is not read back, grep prints nothing from the first line that
  has a NUL, does not fit its buffer or does not end, and malloc's rounding wraps at the top of the address
  space; the rows below say exactly when.
* In proc_pagetable the second call of mappages cannot fail, because both kernel pages lie in one
  second-level table.

## Model

| member | source | states |
|---|---|---|
| `Disk.Device.Command` | kernel/virtio_disk.c:60-78 | one device command writes exactly the half block with that sector number |
| `Disk.Device.WriteBlock` | kernel/virtio_disk.c:47-85 | a block write is its two sector commands, low half first, and leaves that block and no other changed |
| `Disk.Device.ReadBlock` | kernel/virtio_disk.c:80-85 | a block read returns what the device holds |
| `Disk.PutBlock` | kernel/virtio_disk.c:60-78 | both sector commands together amount to one block update |
| `RedoLog.InvisibleRun` | kernel/log.c:176-189 | writes to log slots outside the header's list change nothing that recovery would produce |
| `RedoLog.HeadPut` | kernel/log.c:35-38 | the count and all LOGBLOCKS block numbers lie in the header's first sector, so the list changes as one sector write |
| `RedoLog.CommitPoint` | kernel/log.c:191-200 | from the header's first sector on, recovery produces the transaction's new contents in full |
| `RedoLog.InstallDone` | kernel/log.c:63-81 | after installing, every home block holds what recovery would produce |
| `RedoLog.RecoveryPrefix` | kernel/log.c:114-121 | recovery cut off after any sector write still leads to the same home blocks, and a finished recovery empties the log |
| `RedoLog.RebootsRecover` | kernel/log.c:114-121 | any number of interrupted recoveries followed by a complete one gives the home blocks that one recovery would have given |
| `RedoLog.CommitPrefix` | kernel/log.c:191-201 | commit cut off after any sector write: nothing before the header's first sector, everything from it on |
| `RedoLog.CrashAtomicity` | kernel/log.c:63-121 | commit stopped anywhere, then rebooted and stopped any number of times: all home blocks are old or all are new, decided by whether the header's first sector was written |
| `LogRuns.RoomToLog` | kernel/log.c:213-221 | a call with a reserved slot left never meets "too big a transaction" |
| `LogRuns.StepKeeps` | kernel/log.c:124-233 | every step of begin_op, log_write, end_op, commit, crash and recovery keeps the invariant of the log |
| `LogRuns.RunsRecoverFinishedCalls` | kernel/log.c:142-201 | for every interleaving cut off anywhere, recovery gives the effect of a prefix of the writes in which each system call is wholly inside or wholly outside, and no unfinished call is inside |
| `LogRuns.RunIssues` | kernel/log.c:203-233 | between two crashes the history is exactly the writes that the log_write steps were given, in order and each with its call |
| `LogRuns.RunRemembers` | kernel/log.c:191-201 | what has become durable stays: the committed prefix of the history never shrinks and never changes, through crashes and recoveries too |
| `LogRuns.CommittedCallsSurvive` | kernel/log.c:142-201 | every write issued before a commit that finishes is part of what recovery gives at any later time, behind those before it and ahead of those after it |
| `LogRuns.HistorySinceCrash` | kernel/log.c:114-121 | after a crash the history is the durable part of what was before it and the writes issued since; when no call is under way, recovery gives all of it |
| `LogRuns.NothingForgotten` | kernel/log.c:142-233 | without a crash the cache shows every write issued, and when no call is under way recovery gives every one of them |
| `LogRuns.RunsReserveSpace` | kernel/log.c:124-140 | over every run the listed blocks plus all unspent slots fit the log, listed blocks are distinct, and a commit runs only when no call is outstanding |
| `LogRuns.RunsAdmitReserved` | kernel/log.c:212-221 | over every run a call that has logged fewer than MAXOPBLOCKS different blocks may call log_write again, also for a block already listed: neither "too big a transaction" nor "log_write outside of trans" can happen to it |
| `LogRuns.RunsLeaveRoom` | kernel/log.c:124-140 | over every run in which no call takes more than a given number of slots, what one call leaves unused of its reservation stays free in the log; with at most seven, as on the disk mkfs makes, no commit has more than 27 blocks |
| `LogRuns.RunsNeverStuck` | kernel/log.c:124-173 | in every reachable state some step is possible: a new call is admitted, an outstanding one can end, or the disk can go on |
| `Log.RedoLogger.WriteLog` | kernel/log.c:176-189 | the loop writes exactly the listed cache blocks to their slots, in order |
| `Log.RedoLogger.WriteHead` | kernel/log.c:100-112 | the header block gets the list and is written; the rest of the disk stays |
| `Log.RedoLogger.InstallTrans` | kernel/log.c:63-81 | each slot is copied to its home block in list order and every pin taken by log_write is given back |
| `Log.RedoLogger.Commit` | kernel/log.c:191-201 | the device sees exactly the commit sequence, the log ends empty, and no home block changes in the cache |
| `Log.RedoLogger.ReadHead` | kernel/log.c:84-95 | the in-memory list becomes the list on disk |
| `Log.RedoLogger.RecoverFromLog` | kernel/log.c:114-121 | after recovery the log is empty and every home block holds what the disk's log promised |
| `Log.RedoLogger.BeginOp` | kernel/log.c:124-140 | a call is admitted exactly when no commit is under way and its whole reservation fits |
| `Log.RedoLogger.EndOp` | kernel/log.c:142-173 | the last call out commits, after which disk and cache agree on every home block and nothing is pinned |
| `Log.RedoLogger.LogWrite` | kernel/log.c:212-233 | the outcome in each of the three cases; a block already listed is absorbed, a new one is appended and pinned |
| `Log.CommitCommands` | kernel/log.c:191-201 | the sector commands of a commit are exactly the sequence whose every prefix is covered by CrashAtomicity |
| `Log.RecoveryCommands` | kernel/log.c:114-121 | likewise for recovery |
| `FsBytes.SetWordGet` | kernel/fs.c:436-443 | writing one word of an indirect block changes that word and no other |
| `FsBytes.WordPlace` | kernel/fs.c:436-443 | a stored word has its lowest byte first and leaves every other byte |
| `FsBytes.PutBitGet` | kernel/fs.c:83-85 | setting one bit of the free map changes that bit and no other |
| `FsState.OwnedExclusive` | kernel/fs.c:73-113 | every mapped block is in use and mapped once, and every data block in use is mapped: balloc never returns an owned block and "freeing free block" is unreachable |
| `FsState.OwnedAdd` | kernel/fs.c:411-450 | hanging a free block into an empty slot keeps ownership exact |
| `FsState.OwnedRemove` | kernel/fs.c:454-482 | freeing a slot's block and clearing the slot keeps ownership exact |
| `FsState.SplicedContent` | kernel/fs.c:534-568 | the block-by-block effect of a write is a splice of the file's flat contents |
| `Fs.FileSystem.Mount` | kernel/fs.c:44-55 | the mounted file system is valid if and only if the image has exact ownership, no holes, and free inodes own nothing |
| `Fs.FileSystem.Balloc` | kernel/fs.c:73-96 | returns the lowest free block, marked and zeroed, or 0 exactly when every block is in use |
| `Fs.FileSystem.Bfree` | kernel/fs.c:98-113 | one bit is cleared and nothing else changes |
| `Fs.FileSystem.Bmap` | kernel/fs.c:411-450 | returns the block behind a file block, direct or indirect; a mapped block changes and logs nothing, a missing one is allocated, ownership and every file's contents stay |
| `Fs.FileSystem.Readi` | kernel/fs.c:500-525 | returns exactly the slice of the file's contents clipped to its size, and without holes never allocates, logs or changes anything; a hole that is read gets a block, and the read is then short only on a full disk |
| `Fs.FileSystem.WriteRounds` | kernel/fs.c:545-557 | the loop writes whole rounds and logs a number of blocks bounded by rounds, free-map blocks and the indirect block |
| `Fs.FileSystem.Writei` | kernel/fs.c:534-568 | a refused write changes nothing; otherwise exactly [off, off+r) is replaced, the size grows if needed, other files are unchanged and no hole appears; the number of logged blocks has two bounds, one with the number of free-map blocks; the inode's block is logged last |
| `Fs.FileSystem.TruncIndirect` | kernel/fs.c:468-478 | the indirect block and every block in it become free and nothing else does |
| `Fs.FileSystem.Itrunc` | kernel/fs.c:454-482 | all blocks of the file and only those become free; other files are unchanged; every changed block is logged |
| `Fs.FileSystem.Ialloc` | kernel/fs.c:204-225 | the first free inode is taken and cleared, or there is none |
| `Fs.FileSystem.FreeInode` | kernel/fs.c:357-360 | freeing an inode keeps the file system valid, returns its blocks and logs what it changes |
| `Fs.FileSystem.EndOp` | kernel/log.c:142-173 | exactly the logged blocks become committed, as the cache has them |
| `Fs.FileSystem.Recycle` | kernel/bio.c:76-88 | a block whose buffer is recycled reads as it was last committed |
| `FileIO.ChunkFitsReservation` | kernel/file.c:147-152 | any chunk at any offset, with any number of free-map blocks, logs at most MAXOPBLOCKS blocks |
| `FileIO.ChunkWithOneMap` | kernel/file.c:147-152 | with one free-map block, as on the disk mkfs makes, a chunk logs at most seven blocks |
| `LogBound.TenLogged` | kernel/file.c:147-152 | whenever a chunk from inside the last direct block allocates in four different free-map groups, ten blocks are logged: four of data, four of the free map, the indirect block and the inode's |
| `LogBound.TightWrite` | kernel/file.c:147-152 | there is a consistent disk on which one such chunk logs exactly MAXOPBLOCKS blocks, so the reservation cannot be smaller |
| `FileIO.OpenFile.CommitChunk` | kernel/file.c:159-164 | begin_op, writei and end_op: the effect of writei, with exactly the logged blocks committed as the cache has them, as one step of the run of operations |
| `FileIO.OpenFile.FileRead` | kernel/file.c:106-129 | outside any transaction nothing is logged; the bytes are the slice at the offset, which advances by the count |
| `FileIO.OpenFile.Transaction` | kernel/file.c:154-165 | each transaction writes at the file's offset and ends with its logged blocks committed and no other block's committed contents changed; it logs at most MAXOPBLOCKS distinct blocks, seven with one free-map block, and fewer than MAXOPBLOCKS are logged whenever it calls log_write |
| `FileIO.OpenFile.FileWrite` | kernel/file.c:134-178 | a chunked write is a run of committed transactions whose chunks follow one another through the buffer; one that succeeds is one splice of the flat contents and, if all was committed before, is committed in full when the call returns; -1 without a fault means the disk is full; every transaction stays in its reservation |
| `FsRuns.Execute` | kernel/fs.c:454-568 | each operation on blocks is one step of a file system of flat byte sequences that has what programs read beside what is committed; a write is short only on a full disk or where user memory faults, and then it counts whole blocks; everything that differs between two commits is among the logged blocks, within the bound of the operation |
| `FsRuns.Run` | kernel/fs.c:454-568 | any sequence of operations, faults of user memory and recycled buffers included, keeps ownership exact and files without holes in the cache and in what is committed, and reports and leaves what the flat file system would |
| `FlatFiles.WriteSettles` | kernel/fs.c:545-557 | a write to a file of which all is committed leaves all of it committed if and only if it does not stop inside a block that it has changed |
| `FsRuns.TornExactly` | kernel/fs.c:551-556 | every block that a write changes is logged if and only if the write did not fault in a block that was there before and whose bytes it had changed |
| `FsRuns.TearsExactly` | kernel/fs.c:551-556 | a write with room on the disk leaves what programs read equal to what is committed if and only if the fault does not come inside a block, behind bytes that differ; the condition is about the write and the file before it |
| `FsRuns.RunSettles` | kernel/fs.c:534-568 | over every run without such a write, programs read exactly what is committed |
| `FsRuns.RecycleIsNothing` | kernel/bio.c:76-88 | recycling a buffer is then invisible |
| `FsSafe.BackedAfter` | kernel/fs.c:411-450 | a transaction that logs all its changes but one data block keeps every indirect block committed, so that a file has the same blocks in the cache and in what is committed |
| `CrashFs.ChangesAreLogged` | kernel/fs.c:454-568 | every inode, free-map or data block that differs from one commit to the next is among the blocks the operation logged |
| `CrashFs.FileWriteInTransactions` | kernel/file.c:147-165 | the operations of a chunked write are of the kind whose runs survive power failures |
| `CrashFs.CommitIsGood` | kernel/log.c:212-233 | the blocks of one operation fit the log header and lie outside the log |
| `CrashFs.CommitsSaved` | kernel/log.c:176-189 | what the cache has of the logged blocks is what is committed |
| `CrashFs.CrashedStep` | kernel/log.c:191-201 | an operation whose transaction is cut off at any sector of its commit has happened completely or not at all |
| `CrashFs.CrashedRun` | kernel/log.c:142-201 | power lost after any number of sectors of a run leaves a disk that holds the state after exactly the operations whose header was written |
| `CrashFs.PowerFailure` | kernel/file.c:154-165 | for every run of operations, faults included, every number of sectors written and every number of interrupted recoveries the recovered disk is a consistent file system whose files are the committed files of the flat file system after a prefix of the run |
| `Packing.PackIsLocal` | kernel/fs.h:31-51 | a block of the disk depends only on the inodes, the free-map bits or the data stored in it |
| `Packing.InodePlaces` | kernel/fs.h:32-39 | where the fields of an inode stand in its 16 words: type in the lower half of the first, link count in the upper half of the second, size, then the addresses |
| `Packing.InodesBack` | kernel/fs.c:231-247 | each inode is read back from its 16 words of its block |
| `Packing.BitPlaces` | kernel/fs.c:83-85 | bit k of a byte of the free map is the one that the mask 1 << k selects |
| `Packing.MapBack` | kernel/fs.c:83-85 | each byte of the free map is read back as its eight bits |
| `Packing.UnpackFiles` | kernel/fs.h:31-51 | the blocks of a consistent file system are read back as a consistent one with the same files |
| `Packing.FilesAfterPowerFailure` | kernel/log.c:114-121 | after a power failure anywhere in any run and any number of interrupted recoveries, the blocks found on the disk are read back as a consistent file system whose files are those committed after a prefix of the run |
| `Mkfs.LoggedBlocksAreHome` | mkfs/mkfs.c:92-103 | everything the file system logs lies outside the log area |
| `Mkfs.Image.IAlloc` | mkfs/mkfs.c:222-234 | the next inode, empty and with one link |
| `Mkfs.Image.IAppend` | mkfs/mkfs.c:254-296 | the bytes are appended to the file's contents and no other file changes; exactly the blocks needed are taken; mkfs gives up if and only if the file would exceed MAXFILE blocks or the image FSSIZE blocks |
| `Mkfs.Image.MarkUsed` | mkfs/mkfs.c:236-250 | exactly the first `used` bits are set |
| `Mkfs.Image.Finish` | mkfs/mkfs.c:165-172 | the finished image: data, inodes with the root size rounded up, and the free map; balloc's assertion cannot fail |
| `Mkfs.ImageOwnership` | mkfs/mkfs.c:236-296 | every image that mkfs finishes has exact block ownership |
| `Mkfs.ImageNoHoles` | mkfs/mkfs.c:165-170 | rounding the root directory up leaves no hole if and only if its entries did not fill whole blocks |
| `FirstBoot.AppendFile` | mkfs/mkfs.c:159-160 | a host file copied block by block becomes the file's contents, or does not fit |
| `FirstBoot.AddFile` | mkfs/mkfs.c:130-163 | one argument: a new inode, its entry in the root directory and its contents |
| `FirstBoot.MakeImage` | mkfs/mkfs.c:68-175 | mkfs finishes if and only if names, files and their blocks fit; the image then has exact ownership, holds every file and the root directory's entries followed by free ones, and uses the lowest blocks |
| `RootDirectory.RootBytes` | mkfs/mkfs.c:120-157 | the root directory byte by byte: the dots are entries 0 and 1 and name inode 1, file k is entry k + 2 and names inode k + 2, each entry 16 bytes with the inode number low byte first and the name padded with zeroes |
| `RootDirectory.Namecmp` | kernel/fs.c:572-576 | equal exactly when the names agree up to a NUL or DIRSIZ characters |
| `RootDirectory.Dirlookup` | kernel/fs.c:580-604 | on the bytes of a directory: the inode number of the first entry in use with the name, or 0 exactly when there is none |
| `RootDirectory.FindsFiles` | mkfs/mkfs.c:130-157 | a lookup in the root directory of the image finds inode k + 2 for the first file k of the name, inode 1 for the dots, and nothing for any other name |
| `FirstBoot.BootAndRun` | mkfs/mkfs.c:68-175 | from the files on mkfs's command line through any run of operations: exact ownership, no holes and the flat file system at every stop, if and only if the files fit and the root directory's entries do not fill whole blocks |
| `FirstBoot.BootRunAndCrash` | mkfs/mkfs.c:68-175 | from the files on mkfs's command line through any run of operations, whose writes come in filewrite's chunks, to a power failure anywhere: the files found on the disk are those committed after a prefix of the run, whatever the order of blocks in the log header |
| `FirstBoot.ReadFullRoot` | kernel/fs.c:580-604 | when they do fill whole blocks, the read of the entry behind the last one, which a lookup of a missing name does, allocates a block and so calls log_write, in or out of a transaction |
| `FirstBoot.SixtyTwoFiles` | mkfs/mkfs.c:165-170 | 62 empty files fit the image and fill the root directory's block; fewer do not fill it |
| `FirstBoot.FullRootExists` | mkfs/mkfs.c:165-170 | 62 empty files with different names are such a list of files |
| `Bio.Cache.constructor` | kernel/bio.c:36-54 | the list holds every buffer once, linked both ways |
| `Bio.Cache.Find` | kernel/bio.c:66-74 | the walk along the list finds the block's buffer exactly when there is one |
| `Bio.Cache.Oldest` | kernel/bio.c:76-88 | the backward walk finds the idle buffer released longest ago |
| `Bio.Cache.Bget` | kernel/bio.c:59-90 | the block's buffer, or the least recently released idle one recycled; no block's contents change and no block of a real device is cached twice |
| `Bio.Cache.Bread` | kernel/bio.c:92-104 | the buffer returned holds the block's contents as last written by anyone, with one reference more; no other buffer changes |
| `Bio.Cache.Modify` | kernel/fs.c:57-67 | changing a held buffer changes that block and no other |
| `Bio.Cache.Bwrite` | kernel/bio.c:106-113 | the disk catches up with the buffer, at that block only, and no block's contents change |
| `Bio.Cache.Brelse` | kernel/bio.c:115-138 | a buffer released for good becomes the newest of the list; contents are unchanged; the cache stays sound if and only if such a buffer is clean |
| `Bio.Cache.MoveToFront` | kernel/bio.c:129-134 | the six pointer writes keep the list one circular doubly linked permutation ordered by last release |
| `Bio.Cache.Bpin` | kernel/bio.c:140-145 | only the count changes |
| `Bio.Cache.Bunpin` | kernel/bio.c:147-152 | only the count changes; the cache stays sound if and only if a buffer that becomes idle is clean |
| `Bio.Recycled` | kernel/bio.c:78-84 | taking over a clean buffer for a block that is not cached loses no block's contents |
| `LogCache.CachedLog.Update` | kernel/log.c:203-233 | bread, change, log_write and brelse: one block's contents change, a block not yet listed is listed and pinned, and every reference is accounted for |
| `LogCache.CachedLog.Torn` | kernel/fs.c:551-554 | a buffer changed and released without log_write, as when writei's copy faults, leaves the cache sound if and only if the block was listed already or nothing changed; otherwise an idle buffer is not clean |
| `LogCache.CachedLog.LogOne` | kernel/log.c:181-188 | one round of write_log over the buffer cache |
| `LogCache.CachedLog.WriteHead` | kernel/log.c:100-112 | write_head over the buffer cache |
| `LogCache.CachedLog.InstallOne` | kernel/log.c:68-80 | one round of install_trans: the home block reaches the disk before it is unpinned, so that both releases find a clean buffer |
| `LogCache.CachedLog.Commit` | kernel/log.c:191-201 | over the buffer cache: the log ends empty, no buffer is referenced, every home block keeps its contents and the disk holds them |
| `LogCache.CachedLog.CommitStuck` | kernel/bio.c:76-89 | a transaction of as many blocks as there are buffers cannot be committed: "bget: no buffers" for its first log slot |
| `LogCache.FillTheLog` | kernel/log.c:212-233 | logging as many different blocks as the log holds gets there |
| `LogCache.FullCache` | kernel/bio.c:76-89 | as many pinned blocks as buffers leave no buffer for any other block |
| `LogCache.Run` | kernel/log.c:176-233 | over every run of reads, writes and commits from boot every idle buffer is clean, every read of a home block finds what was last written to it, and what awaits no commit is on the disk |
| `LinkState.NamedHasLink` | kernel/sysfile.c:211-216 | whatever an entry names has a true link count of at least one |
| `LinkState.NoLinkNoName` | kernel/fs.c:348-360 | an inode with count zero is named by no entry, so iput never frees a named inode |
| `LinkState.EnterKeeps` | kernel/sysfile.c:282-289 | adding an entry for a counted link, and counting a subdirectory for its parent, keeps every count large enough |
| `LinkState.EraseKeeps` | kernel/sysfile.c:222-228 | erasing an entry, and uncounting a subdirectory, keeps every count large enough |
| `LinkState.AllocKeeps` | kernel/sysfile.c:265-274 | a new inode with one link no entry accounts for keeps the invariant |
| `LinkState.FreeKeeps` | kernel/fs.c:357-360 | freeing an inode without links keeps the invariant |
| `LinkState.FreeSlack` | kernel/fs.c:357-360 | freeing an inode leaves every count as exact as it was, but for the inodes that entries stored in it name |
| `LinkState.ShortAdd` | kernel/file.h:27-27 | counting in 16 bits gives the 16-bit value of the true count |
| `LinkState.ShortSign` | kernel/file.h:27-27 | the stored count is positive exactly when the last 16 bits of the true one are between 1 and 32767, and zero exactly when they are zero |
| `Links.Directories.Count` | kernel/file.h:27-27 | every stored count is the 16-bit value of the true one |
| `Links.Directories.Dirlookup` | kernel/fs.c:580-604 | finds the entry with the name exactly when there is one |
| `Links.Directories.Dirlink` | kernel/fs.c:608-635 | succeeds exactly when the name is not taken and the directory has a free slot or can grow, and then writes the first free slot |
| `Links.Directories.LinkBegin` | kernel/sysfile.c:138-147 | directories are refused; otherwise a link is counted ahead of its entry |
| `Links.Directories.LinkEnd` | kernel/sysfile.c:149-169 | succeeds exactly when there is a parent, the name is not taken and there is a slot; either the entry exists or the count is back; counts stay large enough in both cases |
| `Links.Directories.IsDirEmpty` | kernel/sysfile.c:173-186 | true exactly when no entry from the third on is in use |
| `Links.Directories.UnlinkBegin` | kernel/sysfile.c:205-229 | refuses exactly "." and "..", a missing name and a non-empty directory; "unlink: nlink < 1" happens exactly when the true count is out of a short's range; otherwise the entry is erased |
| `Links.Directories.UnlinkEnd` | kernel/sysfile.c:231-233 | the owed decrement keeps every count large enough |
| `Links.Directories.Iput` | kernel/fs.c:343-369 | frees exactly on the last reference with a stored count of zero; below 65536 links no entry names the inode then |
| `Links.Directories.CreateDots` | kernel/sysfile.c:276-280 | succeeds exactly when there is space for both; a new directory gets its two entries in its first two slots without counting links for them |
| `Links.Directories.Create` | kernel/sysfile.c:245-302 | returns the existing file unchanged, or exactly a new inode with one link and one entry, or leaves no trace, and fails exactly when the name is taken by something else, there is no free inode or no space for an entry; the invariant holds in every case |
| `LinkRuns.Run` | kernel/sysfile.c:122-302 | over every run of create, iput and the two halves of link and unlink in any order, each call changes the tree of names, every link count and every kind as it should and succeeds exactly when it should, every name leads to one inode in use, and unlink never panics as long as no count passes 32767 |
| `LinkRuns.CountsExact` | kernel/sysfile.c:222-233 | over every run each count is exactly the number of names, subdirectories and calls under way, if and only if no directory was freed while it still held a name |
| `LinkRuns.LostName` | kernel/sysfile.c:245-302 | a file made in a directory that was removed while in use keeps its inode and its link, and nothing leads to it |
| `LinkRuns.InvSound` | kernel/sysfile.c:211-216 | the invariant says that a name leads to one inode, that entries are in directories, and that what they name is in use and counted |
| `LinkRuns.OneLinkTooMany` | kernel/sysfile.c:213-216 | the link after the 32767th makes unlink panic |
| `PageTable.WordRoundTrip` | kernel/cputwo.h:31-43 | a table entry survives being packed into and unpacked from its 32-bit word, with the page number from bit 12 on and the flags V, R, W, X and U in bits 0, 5, 6, 7 and 8 |
| `PageTable.Split` | kernel/cputwo.h:22-25 | a page number is its upper and its lower ten-bit index |
| `PageTable.HangOwned` | kernel/vm.c:98-102 | a new node keeps page ownership exact and shows in no flat map |
| `PageTable.WriteLookup` | kernel/vm.c:86-105 | writing one entry of the two-level table changes one page of one flat map |
| `PageTable.MapOwned` | kernel/vm.c:147-157 | mapping a held page keeps ownership exact |
| `PageTable.UnmapOwned` | kernel/vm.c:186-196 | unmapping a page keeps ownership exact |
| `PageTable.UnhangOwned` | kernel/vm.c:249-255 | giving up an empty node keeps ownership exact |
| `VmState.KeepsBytes` | kernel/vm.c:86-159 | an operation on some pages of one table leaves all other memory of all programs as it was |
| `Paging.Pager.constructor` | kernel/kalloc.c:23-37 | after kinit every page between the kernel and PHYSTOP is on the free list |
| `Paging.Pager.Kalloc` | kernel/kalloc.c:62-74 | a free page becomes held; 0 exactly when the list is empty |
| `Paging.Pager.Kfree` | kernel/kalloc.c:43-57 | a held page becomes free; the list holds each free page once |
| `Paging.Pager.Walk` | kernel/vm.c:86-105 | finds or adds the node; no flat map changes; it fails exactly when the node is missing and there is no memory or no leave to allocate |
| `Paging.Pager.MapPages` | kernel/vm.c:132-159 | one page of one flat map is set, or on failure nothing changes and the page is still the caller's; it fails exactly when the node is missing and memory is empty |
| `Paging.Pager.Uvmunmap` | kernel/vm.c:177-197 | the pages of the range are unmapped and freed, and nothing else changes |
| `Paging.Pager.MapFresh` | kernel/vm.c:212-223 | a zeroed page is mapped, or nothing is mapped and the free list is as before; it succeeds exactly when there is a page for it and one for its node if that is missing |
| `UserMemory.Pigeonhole` | kernel/memlayout.h:29-56 | a table mapped from page 0 on has fewer pages than lie below the trapframe, because memory has |
| `UserMemory.Uvmdealloc` | kernel/vm.c:229-241 | exactly the pages above the new size are unmapped and freed |
| `UserMemory.Uvmalloc` | kernel/vm.c:201-225 | zeroed pages up to the new size, or all pages taken back; no program sees its memory change; succeeds if and only if the new size is below the trapframe and the free list covers the pages and the missing nodes; "remap" is unreachable, also for unbounded sizes |
| `UserMemory.Vmfault` | kernel/vm.c:411-431 | a lazily allocated page becomes resident and reads as before, if and only if the address is below the size, not mapped yet and memory suffices |
| `UserMemory.CopyPage` | kernel/vm.c:283-295 | one page of the parent on a page of the child's own; fails exactly when memory does not suffice |
| `UserMemory.Uvmcopy` | kernel/vm.c:274-302 | the child's memory and permissions equal the parent's, or the child has nothing mapped; everyone else is unchanged; succeeds if and only if the free list covers the parent's mapped pages and the child's missing nodes |
| `UserMemory.CopiesDisjoint` | kernel/vm.c:274-302 | parent and child share no physical page |
| `ProcMemory.FreeWalk` | kernel/vm.c:245-261 | the root and all nodes become free; "freewalk: leaf" is unreachable |
| `ProcMemory.FreeWalkNode` | kernel/vm.c:245-261 | on a lower-level page "freewalk: leaf" happens exactly if an entry is left, and otherwise the page becomes free |
| `ProcMemory.Uvmfree` | kernel/vm.c:264-270 | every page of the table becomes free and no other page changes its use |
| `ProcMemory.Uvmcreate` | kernel/vm.c:163-172 | an empty table on a fresh page, or no change exactly when memory is empty |
| `ProcMemory.ProcPagetable` | kernel/proc.c:181-211 | a table that maps the trampoline, executable, and the trapframe, writable, neither for the user, and no user memory, or every page back where it was; fails exactly with fewer than two free pages, and never at the second mapping |
| `ProcMemory.ProcFreepagetable` | kernel/proc.c:215-221 | all pages of the process's table return to the free list, no other page and no other table changes |
| `ProcMemory.Growproc` | kernel/proc.c:241-260 | pages stay below the process's size through growth, failure, shrinking and the 32-bit wrap of a too large shrink; growth is invisible to every program and is refused exactly at the trapframe or for lack of memory; after a shrink the pages above the new size are gone and nothing else reads differently |
| `ProcMemory.Sbrk` | kernel/sysproc.c:39-65 | lazy growth changes no page, and eager or lazy the whole new pages read as zeros; refused exactly at the trapframe or, eagerly, for lack of memory; a shrink takes exactly the pages above the new size |
| `ProcMemory.AllocProc` | kernel/proc.c:129-155 | a trapframe and a table that maps it and the trampoline for the kernel only, or no change at all, exactly with fewer than three free pages |
| `ProcMemory.FreeProc` | kernel/proc.c:160-168 | exactly the trapframe and the pages of the table become free |
| `ProcMemory.ForkMemory` | kernel/proc.c:264-282 | a copy of the parent's memory in a table with its own trapframe and the trampoline, or every page back where it was; fails exactly when the free list does not cover three pages and the copy |
| `UserCopy.Walkaddr` | kernel/vm.c:109-127 | the page behind a user mapping, or 0 exactly when there is none |
| `UserCopy.Resident` | kernel/vm.c:329-333 | the page behind an address, faulted in if need be: there is one exactly if the page may be used and memory suffices |
| `UserCopy.Copyin` | kernel/vm.c:352-374 | the buffer is the flat slice of user memory; memory is unchanged although pages may be faulted in; succeeds if and only if every page of the range is a user page or lies below the size, and memory suffices for the missing ones |
| `UserCopy.Copyout` | kernel/vm.c:317-348 | on success user memory has all the bytes at the address, on failure a prefix of them; everything else reads as before; succeeds if and only if every page of the range is writable for the user or lies below the size, and memory suffices for the missing ones |
| `UserCopy.PatchedReads` | kernel/vm.c:317-374 | what copyout wrote is what a read finds |
| `Exec.Loadseg` | kernel/exec.c:152-173 | the file's bytes stand at the segment's address, or the file is too short; "address should exist" is unreachable |
| `Exec.LoadOne` | kernel/exec.c:60-73 | the table grows and the segment is laid over memory, if and only if the header is acceptable and memory suffices; on failure the table can still be freed at the recorded size |
| `Exec.ImageByte` | kernel/exec.c:60-73 | every byte of the image is the file's byte at the offset that the last segment over its address gives, and zero outside all segments |
| `Exec.LoadSegments` | kernel/exec.c:58-74 | after all headers user memory is zeros with the segments laid over them in order, each page with the permissions of the flags of the first segment that reaches it; fails exactly on a bad header or when memory does not suffice for the whole image |
| `Exec.Uvmclear` | kernel/vm.c:305-313 | the guard page stays mapped and keeps its contents but the program cannot reach it |
| `Exec.MakeStack` | kernel/exec.c:82-92 | a guard page that the program cannot reach and a writable stack page above the segments, below the trapframe; fails exactly for lack of room or memory |
| `Exec.PushArgs` | kernel/exec.c:94-115 | argument strings and the argv array are 16-byte aligned, disjoint, inside the stack page and readable there; the array is the strings' addresses as little-endian words and a zero word; no subtraction wraps; fails if and only if they do not fit the stack page |
| `Exec.ArgumentsFound` | kernel/exec.c:94-115 | following the words of the argv array in user memory leads to the argument strings |
| `Exec.NewProgram` | kernel/exec.c:57-115 | segments with their permissions, guard page, writable stack, arguments and the kernel pages of the new program, in a table that can be freed at the recorded size whatever happens |
| `Exec.ImageCost` | kernel/vm.c:86-105 | the pages that an image of n pages takes, in closed form: n, and a second-level table for every 1024 pages begun below the one of the kernel pages |
| `Exec.Kexec` | kernel/exec.c:26-146 | on failure no page, table or program differs from before; on success the new image is complete, maps the same trapframe and the trampoline, the old one's pages are free and other programs are unaffected; succeeds if and only if the headers are acceptable, image and stack lie below the trapframe, the free list covers them and the arguments fit |
| `MemoryRuns.AllReturned` | kernel/proc.c:157-177 | when no process is left every page is free but for the kernel's own |
| `MemoryRuns.System.Take` | kernel/pipe.c:31-32 | a page for the kernel itself, as for stacks, pipes and exec's arguments: no program can tell; fails exactly when memory is empty |
| `MemoryRuns.System.Give` | kernel/sysfile.c:466-467 | such a page goes back on the free list |
| `MemoryRuns.System.Fork` | kernel/proc.c:264-311 | a second process with equal memory, with every page of the machine accounted for; fails exactly when memory does not suffice |
| `MemoryRuns.System.Exit` | kernel/proc.c:157-177 | exactly the pages of the process become free and no other process sees a change |
| `MemoryRuns.System.Replace` | kernel/exec.c:128-145 | the new table takes the old one's place, or nothing changes, exactly as exec's condition says |
| `MemoryRuns.System.Fault` | kernel/vm.c:411-431 | a fault of any process is served exactly below its size, on a page not mapped yet, while memory suffices, and no program can tell |
| `MemoryRuns.System.CopyFrom` | kernel/vm.c:352-374 | copies from any process succeed exactly under copyin's condition |
| `MemoryRuns.System.CopyTo` | kernel/vm.c:317-348 | copies to any process succeed exactly under copyout's condition |
| `MemoryRuns.Step` | kernel/vm.c:132-431 | one step of any process: what it does to memory, sizes and pages, what it answers and when it is refused, for each kind of step |
| `MemoryRuns.Run` | kernel/vm.c:132-431 | over every run of fork, exec, sbrk, faults, copies, exit and allocations of the kernel each step does what it should, and at every stop each page has exactly one use that the tables agree with, the free list holds exactly the free pages, and every process's table maps its trapframe and the trampoline |
| `MemoryRuns.RunAndExit` | kernel/proc.c:157-177 | when all processes have exited after any run, the free list holds every page except those the kernel has taken for itself and not given back |
| `FreeList.Canonical` | user/umalloc.c:24-44 | the same live blocks in the same memory leave only one possible free list |
| `FreeList.FreedShaped` | user/umalloc.c:33-42 | insertion and joining keep the list sorted and coalesced, give up one block and lose no memory |
| `FreeList.JoinUpLinked` | user/umalloc.c:33-37 | the writes of the upper join put exactly the joined list into memory |
| `FreeList.JoinDownLinked` | user/umalloc.c:38-42 | the writes of the lower join put exactly the joined list into memory |
| `Umalloc.NeedSuffices` | user/umalloc.c:69-69 | a block has room for the bytes asked for if and only if the rounding does not wrap round |
| `Umalloc.CoreFits` | user/umalloc.c:52-54 | sbrk is asked for the bytes wanted if and only if they fit a positive signed word |
| `Umalloc.Allocator.FindPlace` | user/umalloc.c:29-32 | the search ends, at the highest header below the block |
| `Umalloc.Allocator.Free` | user/umalloc.c:24-44 | one live block is given up and nothing else; the list stays circular, sorted and coalesced, with freep on it |
| `Umalloc.Allocator.MoreCore` | user/umalloc.c:46-61 | fresh memory joins the free list, or nothing changes |
| `Umalloc.Allocator.Malloc` | user/umalloc.c:63-90 | the first block that fits, going round from behind freep, gives a new live block of the size needed from its end; fails exactly when no free block fits and sbrk refuses; sbrk is asked only when no free block fits, and once; the search ends |
| `Umalloc.Allocator.MallocThenFree` | user/umalloc.c:24-90 | allocating and freeing again restores the very same free list unless memory had to be obtained |
| `MallocRuns.Run` | user/umalloc.c:24-90 | over every program of mallocs and frees the list stays sorted, circular and coalesced, live blocks do not overlap, every unit of memory is in exactly one block, and each call changes the live blocks as it should |
| `MallocRuns.RunsAgree` | user/umalloc.c:24-90 | two programs that hold the same blocks in the same memory have the same free list, whatever they did before |
| `MallocRuns.NothingLost` | user/umalloc.c:24-90 | a program that has freed everything has every unit back on the free list |
| `Pipe.CountIndex` | kernel/pipe.c:95-95 | a 32-bit counter gives the ring index of the unbounded count |
| `Pipe.CountTests` | kernel/pipe.c:88-88 | the counter comparisons decide emptiness and fullness in spite of the wrap-around |
| `Pipe.Pipe.WriteStep` | kernel/pipe.c:76-103 | bytes join the stream in order; a writer sleeps only on a full pipe with a reader, after waking readers |
| `Pipe.Pipe.ReadStep` | kernel/pipe.c:105-134 | the bytes returned are the next of the stream; a reader sleeps only on an empty pipe with a writer; writers are woken |
| `Pipe.Pipe.Close` | kernel/pipe.c:58-74 | when both ends are closed nobody sleeps on the pipe |
| `Pipe.Run` | kernel/pipe.c:58-134 | over any interleaving each stretch of code does what it should; at every stop what was read is a prefix of what was written, at most PIPESIZE bytes are in flight, and whoever sleeps has something to wait for and someone to wake it |
| `Pipe.BytesInOrder` | kernel/pipe.c:76-134 | over a whole run the bytes that reads returned are, in order, a prefix of the bytes that writes accepted |
| `Proc.Procs.Wakeup` | kernel/proc.c:568-584 | whoever sleeps on the channel becomes runnable, and nothing else about any process changes |
| `Proc.Procs.ForkAlloc` | kernel/proc.c:264-300 | the first free slot with the next pid, or none; the child has the slot's killed flag; a failure for lack of memory clears the slot and uses up a pid |
| `Proc.Procs.BornKilled` | kernel/proc.c:586-603 | kill(0) marks the first free slot, and the next process there starts killed |
| `Proc.Procs.ForkAdopt` | kernel/proc.c:302-304 | the child gets its parent, which is alive and older |
| `Proc.Procs.ForkReady` | kernel/proc.c:306-308 | the child may run |
| `Proc.Procs.Reparent` | kernel/proc.c:313-326 | exactly the children of the exiting process become init's, and init is awake if it was given any; nothing else changes |
| `Proc.Procs.Exit` | kernel/proc.c:353-366 | the process is a zombie, its children are init's, and neither its parent nor an init that got children is asleep in wait; nothing else changes |
| `Proc.Procs.Wait` | kernel/proc.c:376-420 | reaps the first zombie child unless the copy of its status faults; without one gives up exactly if killed or childless, and otherwise sleeps |
| `Proc.Procs.Kill` | kernel/proc.c:586-608 | succeeds exactly when a slot has the pid; the first one is then marked, and runnable if it was asleep; no other process changes |
| `Proc.Safety` | kernel/proc.c:376-420 | whenever the locks are free no process asleep in wait has a zombie child, and no zombie or unused process is a parent |
| `Proc.ChainToInit` | kernel/proc.c:313-326 | from every started process the parents lead to init |
| `Proc.NoCycle` | kernel/proc.c:302-304 | an ancestor has a smaller pid, so no process is its own ancestor |
| `Proc.Run` | kernel/proc.c:264-420 | over every interleaving each step does what it should, every table keeps these properties, and without kill(0) no child starts killed |
| `Proc.NobodyLeftAsleep` | kernel/proc.c:568-584 | after a wakeup nobody sleeps on its channel |
| `Proc.SleepsOn` | kernel/proc.c:537-565 | over every run a process asleep on a channel sleeps until that channel is woken or the process is killed |
| `Sleeplock.Lock.Acquire` | kernel/sleeplock.c:21-31 | the caller has the lock exactly if it was free; otherwise it sleeps on a held lock |
| `Sleeplock.Lock.Release` | kernel/sleeplock.c:33-41 | no one holds the lock and no one sleeps on it |
| `Sleeplock.Lock.Holding` | kernel/sleeplock.c:43-52 | true exactly for the holder |
| `Sleeplock.Run` | kernel/sleeplock.c:21-41 | over any run each step does what it should; at every stop one holder at most, and nobody sleeps on a free lock |
| `ShellGrammar.RoundTrip` | user/sh.c:350-452 | parsing the printed form of a command tree gives the tree back if and only if no command has MAXARGS or more arguments |
| `ShellGrammar.ReadExec` | user/sh.c:421-452 | simple commands and blocks with redirections in any nesting are read back |
| `ShellGrammar.ReadPipe` | user/sh.c:367-378 | pipelines are read back |
| `ShellGrammar.ReadLine` | user/sh.c:350-365 | lists and background commands are read back |
| `ShellGrammar.LineFits` | user/sh.c:445-446 | every tree the parser produces has fewer than MAXARGS arguments per command |
| `ShellSyntax.ParsesExactly` | user/sh.c:350-452 | the parser accepts exactly the token sequences of the concrete syntax, with redirections anywhere among the words and around blocks, and gives each its tree |
| `ShellSyntax.ReadWhole` | user/sh.c:350-365 | a written line is read as its tree, up to its end or a closing parenthesis |
| `ShellSyntax.FindLine` | user/sh.c:350-365 | whatever the parser reads was a written line |
| `ShellText.ReadLaid` | user/sh.c:268-314 | tokens laid out with any white space between them, and none where none is needed, are read back |
| `ShellText.LaidOut` | user/sh.c:268-314 | every text without a NUL is its tokens laid out with white space |
| `ShellText.LineParse` | user/sh.c:350-365 | the parser treats words alike: parsing spans and parsing the strings they delimit give the same tree |
| `ShellText.TextRoundTrip` | user/sh.c:268-452 | a line of the concrete syntax, with any white space, parses to spans that spell out its tree |
| `ShellText.OnlyLinesParse` | user/sh.c:333-348 | and only such texts parse |
| `ShellText.EveryTreeIsWritten` | user/sh.c:350-452 | every tree whose commands have fewer than MAXARGS arguments is the tree of some line |
| `Shell.Peek` | user/sh.c:316-326 | true exactly when the next token starts with one of the characters |
| `Shell.GetToken` | user/sh.c:271-314 | takes exactly the next token off the line, and none exactly at the end |
| `Shell.Redirections` | user/sh.c:380-403 | the loop reads what the grammar reads, and fails where it fails |
| `Shell.ParseSimple` | user/sh.c:432-451 | the loop reads what the grammar reads, and fails where it fails |
| `Shell.ParseBlock` | user/sh.c:405-419 | likewise for blocks |
| `Shell.ParseExec` | user/sh.c:421-430 | likewise for commands |
| `Shell.ParsePipe` | user/sh.c:367-378 | likewise for pipelines |
| `Shell.ParseLine` | user/sh.c:350-365 | likewise for lines |
| `Shell.NulTerminate` | user/sh.c:454-499 | a NUL is written at the end of every word of the command and nowhere else |
| `Shell.StringsAreWords` | user/sh.c:454-499 | after that every argument and file name is a C string equal to its word |
| `Shell.ParseText` | user/sh.c:333-348 | terminates on every line, parses what the grammar parses, and leaves every word intact in the overwritten buffer |
| `Shell.ParseCmd` | user/sh.c:333-348 | succeeds if and only if the buffer holds a line of the concrete syntax with white space between its tokens; the strings that the command then points to are the words of its tree |
| `Shell.ReadBack` | user/sh.c:333-348 | writing a line down with any white space and parsing it gives programs exactly that line's tree |
| `Regex.MatchHere` | user/grep.c:85-96 | true exactly when the pattern's declarative meaning holds at the start of the text |
| `Regex.MatchStar` | user/grep.c:98-106 | true exactly when the rest matches after some run of fitting characters |
| `Regex.Match` | user/grep.c:72-82 | true exactly when the pattern occurs, with ^ and $ anchoring |
| `Grep.ScanLines` | user/grep.c:21-29 | the complete lines of the buffer are consumed and the matching ones printed |
| `Grep.Grep` | user/grep.c:11-35 | the output is the same however the input is split into reads |
| `Grep.OutputIsMatchingLines` | user/grep.c:11-35 | whatever the pattern the output is the matching lines in order, if and only if every line ends in a newline, is at most BUFSIZE - 1 bytes long and contains no NUL |
| `Grep.NulHidesTheRest` | user/grep.c:21-21 | a NUL in one line hides the lines behind it |

## Left out

- RootDirectory.Dirlookup: takes a directory of whole entries; on any other the code panics.
- MallocRuns.Run: requests stay below 2 GiB, as for Malloc, and sbrk hands out each unit once.
- Umalloc.Allocator.Malloc: excludes requests of 2 GiB and more, for which the argument of sbrk turns negative (CoreFits gives the exact bound), and takes sbrk's answer as a parameter that is fresh memory above the static header.
- Paging.Pager.MapPages: maps one page, as every call for a process's table does; the multi-page loop is used only for the kernel's own table.
- Paging.Pager.Uvmunmap: is called with do_free for user pages and without it for the trapframe and trampoline only, as the kernel does.
- ProcMemory.Sbrk: says nothing about the bytes between the size and the end of its page, which keep what an earlier shrink left there.
- Exec.Kexec: takes the program headers and the file as values, and fewer than MAXARG arguments of less than a page each, which is what sys_exec passes; the entry point, the process name and the trapframe registers are not modelled.
- Bio.Cache.Bget: requires that some buffer is idle or already stands for the block; otherwise the code panics, and LogCache.CachedLog.CommitStuck says when a commit gets there.
- Mkfs.Image.IAlloc: requires a free inode number below NINODES; mkfs does not check this, and with more than 198 files it would write inodes past those the superblock counts.
- FirstBoot.MakeImage: takes at most 198 files, for the same reason, with their names already shortened.
- FsRuns.Run: a buffer is recycled between two operations, not inside one.
- CrashFs.PowerFailure: operations follow one another, each in its own transaction; calls that overlap are the subject of LogRuns.
- Packing.InodesBack: an inode's major and minor device numbers are not modelled, and inode words and data bytes are integers without an upper bound.
- LogRuns.RunsLeaveRoom: takes the bound on the blocks of one call as a parameter; it is proved for filewrite's chunks (FileIO.ChunkWithOneMap), not for every system call.
- LogCache.CachedLog.Commit: nobody else holds a buffer during a commit, and crashes are not part of this model; Log and RedoLog treat them over a cache of whole blocks.
- Links.Directories.Create: inode references and locks appear only as preconditions, and names are not cut to DIRSIZ characters.
- Proc.Procs.ForkAlloc: RUNNABLE and RUNNING are one state and pids do not wrap; memory and files of the child are treated elsewhere.
- Pipe.Pipe.Close: freeing the pipe's page is reported, not performed.
- Shell.ParseSimple: collects arguments and redirections and builds the tree at the end, where the code updates an already wrapped node; no sharing of nodes is modelled.
- kernel/fs.c namex, skipelem and the in-memory inode table: path walking is left out, and inodes are addressed by number; lookups on the bytes of a directory are treated for the root directory of mkfs's image, and Links has entries as values.
- Which pages the kernel takes for stacks, pipes and exec's arguments, and when: MemoryRuns has them taken and given back at any time.
- PTE_D and PTE_G, the kernel's own page table, the TLB, trap handling, the scheduler, spinlocks, interrupts and devices other than the disk.
- copyinstr, the console, printf, the system-call layer, runcmd in the shell and the small user commands.
