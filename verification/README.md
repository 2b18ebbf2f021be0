# Machine-checked models of an xv6 kernel

The repository is two modified copies of the x86 xv6 teaching kernel. This project models the parts whose correctness
is hard to see from the code, and proves what those parts promise. `part1` is followed wherever both copies hold the
same code; the process table and the image checker are those of `part2`.

What is modelled, hardest first:

- **The write-ahead log** (`RedoLog`, `LogProtocol`, `LogControl`, `LogAdmission`, `LogDurability`, `LogTheorems`,
  `LogPanic`, `LogDevice`, `LogCache`). A disk is a map from block numbers to 512-byte blocks and each `bwrite` is one
  atomic step. `RedoLog` treats commit and recovery as sequences of disk writes that can stop after any of them.
  `LogProtocol` is a state machine of any number of processes in begin_op, log_write and end_op, with commit() writing
  block by block, crashes between any two steps, and recovery after each crash. `LogDevice` is the code itself, with
  its loops: each method is proved to take the protocol's step, and commit and recovery to issue exactly the writes of
  `RedoLog`. `LogCache` is commit() once more, through the buffers of the cache, with the condition under which bget
  finds one.
- **The buffer cache** (`CacheList`, `BufferCache`): the doubly linked LRU list, reference counts, pinning, and the
  view of each block through cache and disk.
- **The file layer** (`Bitmap`, `FileBlocks`, `FileContents`, `FileTruncate`, `FileSystem`): the bitmap down to its
  bits, direct and indirect block maps, reading, writing, truncating, and filewrite's chunks. Files refine byte
  sequences. `InodeBytes` is the layout of inodes on disk.
- **Directories and link counts** (`LinkCounts`, `Directories`), what names lead to (`NameLookup`), and create, link
  and unlink on a volume's bytes, with the number of blocks they log (`DirOperations`). `DirectoryBytes` decodes
  directories, which turns the one into the other, and `VolumeDirectories` has the calls with their searches, so that
  link counts are right on the volume.
- **The user-level heap** (`HeapRing`, `Heap`): the circular, address-sorted, coalescing free list of The C
  Programming Language, section 8.7.
- **Page tables and frames** (`Frames`, `AddressSpace`): two-level tables, growth, shrinking, copying and shared
  pages, with every frame there is in exactly one use; and processes that take and give back memory through them
  (`UserMemory`, `ProgramImage`, `UserMemoryRuns`): userinit, fork, exec, growproc, shmem_access and the release of a
  child in wait.
- **Processes and the priority scheduler** (`ProcTable`, `ProcProtocol`, `ProcInvariants`, `ProcLifecycle`,
  `ProcFamily`, `ProcReaping`, `ProcScheduling`, `ProcTheorems`, `ProcDevice`).
- **Pipes** (`PipeRing`, `PipeProtocol`, `PipeDevice`), **the shell's parser** (`ShellSyntax`, `ShellText`,
  `ShellRoundTrip`, `ShellGrammar`, `ShellNodes`, `ShellParser`), **grep's matcher** (`Matcher`) and **the image
  checker** (`ImageChecker`). `ShellGrammar` writes the shell's grammar down apart from the parser, which accepts
  exactly that.

Code that updates memory step by step is a class with the same fields; its methods are proved against functions on
values, and the results about whole runs are lemmas about those functions. Locks make steps atomic; sleeping is an
atomic release and block. A kernel panic is an outcome of the method that panics, unless it is proved unreachable.

Places where the code does not do what it seems to promise, each with the exact condition under which it does:

- MAXOPBLOCKS allows 10 blocks in an operation, but with mkfs's log of 30 blocks log_write can panic from 10 different
  blocks on (`LogPanic.TenBlocksPanic`), and since its size test is made before the lock is taken, two operations can
  pass it together and overflow the log (`LogPanic.RaceOverflows`); the commit that follows writes over the block
  behind the log, which nobody logged (`LogPanic.OverflowHitsHome`). Up to 9 blocks neither happens
  (`LogTheorems.NeverPanics`, `LogTheorems.SlotsSuffice`); filewrite's chunks, create, link and unlink stay at 7, 7, 5
  and 5 (`FileSystem.ChunkLogsSeven`, `DirOperations.Create`, `DirOperations.Link`, `DirOperations.Unlink`). The
  results about the disk are for operations that keep to 9 blocks, or to 10 with a log of at least 31 blocks; those
  about sleeping, group commit and reservation (`LogAdmission`) hold for 10 blocks and any log, also after an
  overflow.
- Pinned blocks take buffers from everybody else: with 28 of the 30 pinned and two held by readers, commit's next
  bread panics (`LogCache.RunOut`). `LogCache.Commit` says that one idle buffer is enough for a whole commit.
- malloc works for requests up to 0x7FFFFFF0 bytes; just above, the size passed to sbrk is negative or wraps
  (`Heap.RequestFits`).
- A killed pipe writer can fill the ring and return without waking a sleeping reader; `PipeProtocol.StrandsExactly`
  says exactly when.
- An entry added to a directory that has been removed breaks the link counts, and nothing else does
  (`LinkCounts.LinkDoneKeeps`, `LinkCounts.CreatedKeeps`, `LinkCounts.CreatedInRemoved`); such a directory is reached
  in `Directories.CreatingInRemovedDirectory`.
- A shared_page flag set without a mapping: copyuvm sets the child's flag ahead of the mapping, and when it then
  fails, nobody clears it. The flags of a child agree with its mappings exactly if its table entry held no flag that
  the parent has not (`UserMemory.Machine.Fork`); `UserMemoryRuns.StaleFlag` is a run in which shmem_access then
  returns an address that is not mapped.
- growproc to a size just below KERNBASE fails in the end, but deallocuvm, which undoes it, starts above the shared
  pages and puts the frame of one that is mapped on the free list. `UserMemory.Machine.Grow` says exactly when;
  `UserMemoryRuns.BigSbrk` is a run. No allocation ever succeeds up to the shared pages: there are too few frames
  (`UserMemory.SizeBound`).
- growproc to exactly 0 reports failure but has unmapped the pages; if there was one above page 0, the next fork
  panics in copyuvm (`UserMemory.Machine.Grow`, `UserMemoryRuns.ShrinkToNothing`).
- exec maps no page 0 but does not refuse a segment there: with a byte at address 0, loaduvm panics if the segment
  needs no page, and otherwise reads the file to physical address 0 (`UserMemory.Machine.LoadSegment`,
  `UserMemoryRuns.ZeroSegment`). Without such a segment neither happens.
- inituvm does not look at mappages' result: with no frame left for the table of page 0, the first process starts
  without that page (`UserMemory.Machine.Userinit`).
- shmem_access means to refuse a process that has grown up to the shared page, but compares with a wrapped physical
  address, so the test never fires (`AddressSpace.GuardNeverFires`).
- A buffer that was changed and released without log_write or bwrite loses the change when it is recycled
  (`BufferCache.Cache.Unlock`, `BufferCache.ForgottenChangeIsLost`).
- The checker takes the last bitmap block for a data block (`ImageChecker.BitmapBlockPasses`), and reads past a buffer
  on images larger than one bitmap block covers; what it accepts is stated exactly (`ImageChecker.Check`).
- The shell parses `>>` like `>`.

## Model

| member | source | states |
|---|---|---|
| `RedoLog.HeadRoundTrip` | part1/log.c:85-113 | a header has its count in the first word and the list behind it, and is read back as the same list, whatever the block held before |
| `RedoLog.ApplyLast` | part1/memide.c:39-60 | a block holds what its last write put there |
| `RedoLog.RecoverAt` | part1/log.c:115-122 | recovery installs every listed slot at its home, changes no other home block, and leaves an empty log |
| `RedoLog.RecoverEmpty` | part1/log.c:115-122 | a disk with an empty header recovers to itself |
| `RedoLog.CommitIsAtomic` | part1/log.c:192-202 | commit() cut after any number of its writes and then recovered leaves the old home blocks, or the old ones with every logged block installed, the latter exactly if the first header write reached the disk |
| `RedoLog.RecoveryIsIdempotent` | part1/log.c:115-122 | recovery cut after any of its writes and run again gives the same home blocks as an uninterrupted one |
| `RedoLog.Interrupted` | part1/log.c:69-122 | any number of recoveries, each cut anywhere, leaves a disk that recovers to the same home blocks |
| `RedoLog.CrashAnywhere` | part1/log.c:69-122 | a crash anywhere in commit() followed by any number of interrupted recoveries and a full one installs all of the batch or nothing |
| `LogProtocol.Absorb` | part1/log.c:223-230 | log absorption: a listed block leaves the list as it is, any other is put at its end |
| `LogControl.CheckPasses` | part1/log.c:218-221 | with at most 9 different blocks an operation, log_write's tests hold for every active operation |
| `LogControl.LogHasRoom` | part1/log.c:132 | admission control leaves a log slot for every listed block |
| `LogAdmission.NoLostWakeup` | part1/log.c:125-174 | in every run, with up to MAXOPBLOCKS blocks an operation and any log, lists that overflow it included: a commit runs with no operation in progress, a process asleep in begin_op has a false guard, and with neither in progress the log is empty and nobody sleeps |
| `LogAdmission.LogSpaceSuffices` | part1/log.c:132 | in every such run, listed blocks plus what active operations may still log never exceed LOGSIZE |
| `LogAdmission.ListHasRoom` | part1/log.c:223-230 | in every such run, log_write finds its block listed or an entry of the array left |
| `LogAdmission.EndOpNeverPanics` | part1/log.c:150-152 | in every such run, end_op never finds a commit running |
| `LogDurability.CommitStepKeepsDisk` | part1/log.c:192-202 | each write of commit() keeps what recovery would bring back, which becomes the new state at the header write |
| `LogTheorems.StepKeepsInv` | part1/log.c:125-233 | every step of every process, of a crash and of recovery keeps the invariant |
| `LogTheorems.OperationsAreAtomic` | part1/log.c:125-233 | in every run, recovering the disk at any moment brings back exactly a prefix of the logged writes, and no operation has writes on both sides of that prefix or of any commit |
| `LogTheorems.CacheShowsLatest` | part1/log.c:204-233 | a running system sees every logged write that no crash has lost |
| `LogTheorems.CommitsAreDurable` | part1/log.c:192-202 | what is committed stays committed through everything that follows |
| `LogTheorems.IdleMeansCommitted` | part1/log.c:153-173 | with no operation and no commit in progress every logged write is committed |
| `LogTheorems.SlotsSuffice` | part1/log.c:132 | outside a commit the log area has a slot for every listed block |
| `LogTheorems.NeverPanics` | part1/log.c:218-221 | with at most 9 different blocks an operation and a log of 30 blocks, neither log_write nor end_op panics in any run |
| `LogPanic.TenBlocksPanic` | part1/log.c:218-219 | from 10 different blocks an operation on, some run panics in log_write |
| `LogPanic.RaceOverflows` | part1/log.c:218-230 | with 10 blocks an operation and a log of 30, some run lists 30 blocks for 29 slots without a panic, the last slot lying behind the log |
| `LogPanic.OverflowHitsHome` | part1/log.c:177-190 | that run goes on to a write_log that stores a listed block in the block behind the log, which no operation wrote |
| `LogDevice.Log.WriteLog` | part1/log.c:177-190 | the loop issues exactly the copies to the log, in order |
| `LogDevice.Log.WriteHead` | part1/log.c:101-113 | the header block written is the encoding of the list |
| `LogDevice.Log.ReadHead` | part1/log.c:85-96 | the list read is the one encoded on disk |
| `LogDevice.Log.InstallTrans` | part1/log.c:69-82 | the loop issues exactly the installs, in order |
| `LogDevice.Log.Commit` | part1/log.c:192-202 | commit() issues exactly the write sequence that `RedoLog` analyses, which is the commit steps of the protocol one after the other; afterwards no buffer is pinned |
| `LogDevice.CommittedIs` | part1/log.c:192-202 | what the first k commit steps of the protocol come to: a prefix of the writes on disk and in the cache, and the list emptied after the last |
| `LogDevice.Log.RecoverFromLog` | part1/log.c:115-122 | recovery issues exactly the write sequence that `RedoLog` analyses |
| `LogDevice.Log.BeginOp` | part1/log.c:125-141 | one turn of the loop is the step Try of the protocol: the operation is admitted or sleeps |
| `LogDevice.Log.LogWriteTests` | part1/log.c:218-221 | the tests ahead of the lock are the step Check of the protocol, panics included |
| `LogDevice.Log.LogWrite` | part1/log.c:222-232 | the critical section is the step Append of the protocol: the block is listed once and seen through the cache; its buffer is pinned, and pinned are exactly the listed buffers |
| `LogDevice.Log.EndOp` | part1/log.c:145-162 | the first critical section is the step End of the protocol: the last operation starts the commit, others wake all sleepers, a running commit is a panic |
| `LogDevice.Log.Finished` | part1/log.c:168-172 | the second critical section is the step Finish of the protocol, which wakes all sleepers |
| `LogCache.Bread` | part1/bio.c:96-106 | a locked buffer with the block's view, no view changed; panics exactly if the block is not on the disk, or not cached with every buffer referenced or pinned |
| `LogCache.Copy` | part1/log.c:74-81 | one round of write_log or install_trans through buffers: one block on disk and in the view becomes what another shows, its buffer is no longer pinned, all references and locks are as before; bget finds no buffer exactly if the first block is not cached and none is idle |
| `LogCache.Commit` | part1/log.c:177-202 | commit() through buffers issues exactly the write sequence that `RedoLog` analyses, to disk and view; one idle buffer is enough for it, and with none it panics if the first log block is not cached |
| `LogCache.RunOut` | part1/bio.c:81-92 | a run from an empty cache to 28 pinned and 2 held buffers, in which the next bread panics |
| `CacheList.UnhookKeepsCircle` | part1/bio.c:132-133 | taking a buffer out leaves a doubly linked circle of the others |
| `CacheList.HookKeepsCircle` | part1/bio.c:134-137 | putting a buffer behind the head leaves a doubly linked circle |
| `BufferCache.Cache.constructor` | part1/bio.c:38-56 | the list holds every buffer once, all unused |
| `BufferCache.Cache.Find` | part1/bio.c:69-76 | finds the block's buffer exactly if it is cached |
| `BufferCache.Cache.FindVictim` | part1/bio.c:81-91 | finds the least recently released buffer that is neither referenced nor dirty, if any |
| `BufferCache.Cache.Bget` | part1/bio.c:61-93 | hit, recycle or panic, each exactly when; no view of any block changes and no referenced or dirty buffer is recycled |
| `BufferCache.Cache.Fill` | part1/bio.c:96-106 | bread's buffer ends up with the block's view |
| `BufferCache.Cache.Modify` | part1/log.c:204-212 | a lock holder changes the view of its own block only |
| `BufferCache.Cache.Bwrite` | part1/bio.c:109-116 | a locked buffer of the disk, valid or not, becomes the contents of its block on disk and in the view, and is clean and unpinned; no other view changes, nor this one if the buffer was valid; panics exactly on the other buffers |
| `BufferCache.Cache.Unlock` | part1/bio.c:120-126 | panics exactly if the lock is not held; no view changes; the cache stays valid exactly if the buffer was not changed or has been pinned or written |
| `BufferCache.Cache.Drop` | part1/bio.c:128-140 | the last reference moves the buffer to the front; the list stays a permutation ordered by last release; no view changes |
| `BufferCache.RecycleKeepsAll` | part1/bio.c:81-91 | recycling an idle buffer loses nothing and keeps one buffer per block of the device |
| `BufferCache.ForgottenChangeIsLost` | part1/bio.c:81-91 | recycling a buffer that was changed but neither pinned nor written brings the old contents back |
| `Bitmap.MarkedAfterMark` | part1/fs.c:68-70 | setting or clearing one bit of a bitmap block changes that bit only |
| `Bitmap.BitIsDigit` | part1/fs.c:68-69 | the bit tested is the binary digit of weight 2^k |
| `Bitmap.FreeCountAfter` | part1/fs.c:56-96 | marking a free block lowers the count of free blocks by one, clearing a marked one raises it by one |
| `FileBlocks.PointersAreDistinct` | part1/fs.c:373-401 | no two pointers, direct, indirect or to an indirect block, name the same block, and each named block is a marked data block |
| `FileBlocks.ReleaseKeepsOwned` | part1/fs.c:81-96 | a block about to be freed is marked, so "freeing free block" cannot happen, and freeing it keeps ownership exclusive |
| `FileBlocks.DirectClaim` | part1/fs.c:379-383 | a direct block taken from the free ones keeps ownership exclusive and changes no other pointer or block |
| `FileBlocks.RootClaim` | part1/fs.c:388-389 | the same for a new indirect block, whose entries all read 0 |
| `FileBlocks.EntryClaim` | part1/fs.c:390-395 | the same for a new entry of the indirect block |
| `FileContents.MapGrows` | part1/fs.c:373-401 | maps have no holes: bmap at the end adds one block, below the end it changes nothing |
| `FileContents.MappingKeepsBytes` | part1/fs.c:373-401 | bmap changes no byte of the file |
| `FileContents.WritingEnds` | part1/fs.c:507-511 | after the copy loop and the size update, the file is the old one with the bytes written over it, other files are as before, and the inode on disk equals the one in memory although iupdate runs only on growth |
| `FileContents.RoundStarves` | part1/fs.c:499-505 | if a round of the copy loop runs out of blocks, there were too few for the whole write |
| `FileTruncate.RootDrop` | part1/fs.c:422-432 | without its pointer, the indirect block and its entries are exactly the blocks left to free |
| `FileTruncate.Emptied` | part1/fs.c:434-435 | at the end of itrunc the file is empty and everything is consistent |
| `FileSystem.Volume.FindFree` | part1/fs.c:63-76 | the nested loops find the lowest free block if there is one |
| `FileSystem.Volume.Balloc` | part1/fs.c:56-78 | the lowest free block, marked and zeroed; panics exactly if none is free; every changed block is logged |
| `FileSystem.Volume.Bfree` | part1/fs.c:81-96 | clears the block's bit; panics exactly if it was clear |
| `FileSystem.Volume.Bmap` | part1/fs.c:373-401 | the block behind a file block, allocated if absent; panics exactly beyond MAXFILE or without enough free blocks; ownership stays exclusive |
| `FileSystem.Volume.Iupdate` | part1/fs.c:221-237 | the disk inode becomes the one in memory, and its block is logged |
| `InodeBytes.RoundTrip` | part1/fs.c:299-307 | an inode is read from disk as it was written exactly if its four 16-bit fields fit |
| `InodeBytes.RecordAfterPut` | part1/fs.c:221-237 | iupdate changes its own record of the block only |
| `InodeBytes.RecordLayout` | part1/fs.h:29-36 | in the block's bytes the fields lie where struct dinode has them: four shorts, the size at byte 8, the addresses from byte 12 on |
| `InodeBytes.UpdatedHolds` | part1/fs.c:221-237 | blocks that hold a table of inodes hold the table with the one inode replaced |
| `FileSystem.Volume.Readi` | part1/fs.c:453-477 | returns exactly file[off..min(off+n,size)], -1 exactly on the bounds, for all 32-bit off and n; allocates and logs nothing |
| `FileSystem.Volume.Writei` | part1/fs.c:482-512 | replaces exactly file[off..off+n] and extends the size, -1 exactly on the bounds, panics exactly if the free blocks do not suffice; no other file changes, disk inodes equal the ones in memory, all changed blocks are logged |
| `FileSystem.Volume.Itrunc` | part1/fs.c:408-436 | the file is empty and its blocks, the indirect block included, are free again; no bfree panics; other files are as before |
| `FileSystem.Volume.Ialloc` | part1/fs.c:195-215 | the lowest free inode becomes an empty file of that kind, all other fields 0; panics exactly if there is none |
| `FileSystem.Volume.Release` | part1/fs.c:340-346 | iput's release of an unlinked inode frees the blocks and then the inode |
| `FileSystem.ChunkLogsSeven` | part1/file.c:133-152 | a chunk logs all it changes, and at most 7 blocks when one bitmap block covers the disk |
| `FileSystem.ChunkBounds` | part1/file.c:135-152 | a chunk is refused exactly when everything that fits has been written |
| `FileSystem.Volume.Filewrite` | part1/file.c:126-154 | writes the longest run of whole chunks that fits, moves the offset by it, returns n or -1, panics exactly without enough free blocks; the chunks are operations that chain from the old disk to the new one |
| `DirOperations.WriteEntry` | part1/fs.c:573-576 | a directory entry replaces 16 bytes of one file; panics exactly if the directory cannot grow or the blocks do not suffice; logs the inode block, at most two more and the bitmap |
| `DirOperations.Create` | part1/sysfile.c:261-283 | create on the bytes: the lowest free inode becomes an empty file or a directory holding its dots, the parent gets the entry, all other files stay; panics exactly without a free inode, room in the directory or blocks; logs all it changes and at most 7 blocks when one bitmap block covers the disk |
| `DirOperations.Unlink` | part1/sysfile.c:216-229 | unlink on the bytes: the entry is cleared, the counts fall, and a last unused file is freed; its writei never panics; at most 5 blocks |
| `DirOperations.Link` | part1/sysfile.c:140-164 | link on the bytes: the count rises and the entry is written, or all files are as before; at most 5 blocks |
| `DirOperations.CreatedLeaves` | part1/sysfile.c:261-281 | after create, by fields and bytes: the new file has kind, device numbers, one link and, for a directory, its two dots; the parent has the entry at its place and a link for ".."; nothing else differs |
| `DirOperations.UnlinkedLeaves` | part1/sysfile.c:216-229 | after unlink, by fields and bytes: the entry is zeros, the counts are one less, the file keeps all else or is free; nothing else differs |
| `DirOperations.LinkedLeaves` | part1/sysfile.c:140-152 | after link, by fields and bytes: the entry at its place and one link more; nothing else differs |
| `DirectoryBytes.EntryDecodes` | part1/fs.c:573-574 | an entry that dirlink writes is read back as its inode number and the first 14 characters of its name |
| `DirectoryBytes.EntryWritten` | part1/fs.c:566-576 | writing 16 bytes at an entry's place changes or appends that one entry |
| `DirectoryBytes.CreatedDecodes` | part1/sysfile.c:261-281 | create on the bytes is `LinkCounts.Created` on the decoded tree |
| `DirectoryBytes.UnlinkedDecodes` | part1/sysfile.c:216-229 | unlink on the bytes is `LinkCounts.Unlinked`, followed by the release of a last unused inode |
| `DirectoryBytes.LinkedDecodes` | part1/sysfile.c:140-152 | link on the bytes is `LinkCounts.LinkBegun` and `LinkCounts.LinkDone` |
| `VolumeDirectories.DirLookup` | part1/fs.c:525-549 | the search reads the directory's bytes entry by entry and finds the first one in use with that name |
| `VolumeDirectories.FindPlace` | part1/fs.c:565-571 | the first unused entry or the end |
| `VolumeDirectories.IsDirEmpty` | part1/sysfile.c:168-181 | true exactly if no entry after the dots is in use |
| `VolumeDirectories.Create` | part1/sysfile.c:242-284 | create on the volume: an existing file, a refusal or the new inode, panics exactly; the link counts on the volume stay right exactly if the directory has links |
| `VolumeDirectories.Unlink` | part1/sysfile.c:185-239 | unlink on the volume removes exactly removable names, never panics, logs at most 5 blocks and keeps the link counts right |
| `VolumeDirectories.Link` | part1/sysfile.c:119-166 | link on the volume refuses exactly directories, missing parents and taken names, and otherwise panics exactly without room; counts stay right exactly if the directory has links |
| `LinkCounts.LinkBegunKeeps` | part1/sysfile.c:134-142 | raising the count ahead of the entry keeps count = entries + links under way |
| `LinkCounts.LinkFailedKeeps` | part1/sysfile.c:158-164 | a failed link takes its count back |
| `LinkCounts.LinkDoneKeeps` | part1/sysfile.c:144-152 | writing the entry keeps the counts exactly if the directory has not been removed |
| `LinkCounts.CreatedKeeps` | part1/sysfile.c:261-281 | create in a directory with links keeps the counts, for files and directories |
| `LinkCounts.CreatedInRemoved` | part1/sysfile.c:261-281 | create in a removed directory breaks them |
| `Directories.CreatingInRemovedDirectory` | part1/sysfile.c:185-284 | a run from a new file system, whose counts are right until the last step, in which create adds to a removed directory and breaks them |
| `LinkCounts.UnlinkedKeeps` | part1/sysfile.c:203-229 | unlink never meets nlink < 1, keeps the counts, and leaves a removed directory with exactly 0 links |
| `LinkCounts.EmptyNamedOnce` | part1/sysfile.c:168-181 | an empty directory is named by the one entry of the directory that its ".." names, so its count is 1 |
| `LinkCounts.ReleasedKeeps` | part1/fs.c:336-347 | freeing an inode without links keeps the counts |
| `NameLookup.FreeName` | part1/sysfile.c:146-149 | link goes through exactly if the name leads nowhere |
| `NameLookup.RemovableName` | part1/sysfile.c:198-214 | unlink goes through exactly if the name leads to a file, or to a directory in which only the dots lead anywhere |
| `NameLookup.CreateBinds` | part1/sysfile.c:242-284 | after create the name leads to the new inode, every other name of every directory where it led, and a new directory has exactly "." and ".."; no directory gets a name twice |
| `NameLookup.LinkBinds` | part1/sysfile.c:119-152 | after link the name leads to the file, which has one link more, and nothing else changes |
| `NameLookup.UnlinkUnbinds` | part1/sysfile.c:185-229 | after unlink the name leads nowhere and every other name of every directory where it led |
| `Directories.Namespace.DirLookup` | part1/fs.c:525-549 | the first entry in use with that name |
| `Directories.Namespace.DirLink` | part1/fs.c:552-579 | fails exactly if the name is taken, else fills the first unused entry or appends one |
| `Directories.Namespace.IsDirEmpty` | part1/sysfile.c:168-181 | true exactly if no entry after the dots is in use |
| `Directories.Namespace.LinkBegin` | part1/sysfile.c:133-142 | refuses directories, else raises the count; counts stay right |
| `Directories.Namespace.LinkEnd` | part1/sysfile.c:144-164 | links or takes the count back; counts stay right unless the directory was removed |
| `Directories.Namespace.Unlink` | part1/sysfile.c:185-239 | removes exactly removable names; counts stay right; a removed directory has no links |
| `Directories.Namespace.Create` | part1/sysfile.c:242-284 | returns an existing file, or makes the inode with its dot entries; counts stay right exactly if the directory has links |
| `HeapRing.FreedIsRing` | part1/umalloc.c:33-43 | inserting a block and joining it with the neighbours it touches keeps the ring sorted with one wrap point, its blocks apart and untouching, and adds its units |
| `HeapRing.MergedIsFreed` | part1/umalloc.c:33-43 | the four assignments do exactly that |
| `HeapRing.UnlinkKeepsRing` | part1/umalloc.c:76-77 | taking a whole block keeps the ring |
| `HeapRing.SplitKeepsRing` | part1/umalloc.c:79-81 | cutting the tail off a block keeps the ring |
| `Heap.RequestFits` | part1/umalloc.c:69-90 | sizes neither wrap nor turn negative in sbrk exactly up to 0x7FFFFFF0 bytes, and up to there no unit is wasted |
| `Heap.FullCircle` | part1/umalloc.c:74-86 | malloc's scan is back at freep exactly when it has seen every block |
| `Heap.Allocator.FindPlace` | part1/umalloc.c:30-32 | free's search ends at the one place where the block belongs |
| `Heap.Allocator.Free` | part1/umalloc.c:24-44 | the block returns to the list, no other block in use is touched, free and live units still add up to what sbrk gave |
| `Heap.Allocator.Morecore` | part1/umalloc.c:46-61 | at least 4096 units join the list, or 0 and nothing changes |
| `Heap.Allocator.Malloc` | part1/umalloc.c:63-90 | for every request that needs no negative sbrk: a fresh block of the requested units, disjoint from every other; morecore is called at most once, exactly if no free block is big enough; 0 only if sbrk refuses; the block holds the bytes asked for exactly if their number does not wrap |
| `Frames.MappedOnce` | part1/vm.c:226-370 | no private page has two mappings, and none is free, a table or shared |
| `Frames.OneUse` | part1/kalloc.c:59-95 | each frame there is is exactly one of free, a directory, a table, a private page, a shared page, in use elsewhere |
| `Frames.SharedOnFreeList` | part1/vm.c:276-279 | a shared frame on the free list has two uses |
| `Frames.PagesNeedFrames` | part1/vm.c:226-254 | n private pages of a space take n different frames |
| `Frames.TakeFrame` | part1/kalloc.c:82-95 | kalloc takes a frame that nothing else uses |
| `Frames.GiveFrame` | part1/kalloc.c:59-77 | kfree of a frame in no other use keeps every frame in exactly one use |
| `Frames.NewTable` | part1/vm.c:49-56 | a new table changes no mapping |
| `Frames.OnePteChanges` | part1/vm.c:58-78 | setting an entry changes that one mapping only |
| `Frames.UnmapPrivate` | part1/vm.c:274-281 | a private frame is that mapping's alone, never a shared one, so it can be freed |
| `Frames.DropSpace` | part1/vm.c:300-307 | without private pages, the directory and its tables are exactly what is left to free |
| `AddressSpace.Vm.Kalloc` | part1/kalloc.c:82-95 | takes the first free frame, which was in no other use, or 0 exactly if there is none |
| `AddressSpace.Vm.Kfree` | part1/kalloc.c:59-77 | the frame is the first of the free list, whose other frames and order stay; no mapping changes |
| `AddressSpace.Vm.Walkpgdir` | part1/vm.c:39-59 | finds or makes the table, fails exactly if it is not wanted or there is no memory, takes one frame exactly if the table is new, changes no mapping; every frame keeps one use |
| `AddressSpace.Vm.MapUser` | part1/vm.c:66-85 | maps one private page; panics with "remap" exactly if the entry is present, fails exactly without memory for a table, and then nothing changes |
| `AddressSpace.Vm.Clearpteu` | part1/vm.c:312-321 | takes the user flag off one page, which keeps frame and bytes; panics exactly if there is no table |
| `AddressSpace.Vm.Deallocuvm` | part1/vm.c:260-284 | every page between the sizes is gone and its frame on the free list, however many tables are skipped; nothing else changes; it terminates; a shared frame is freed exactly if one is mapped in the range |
| `AddressSpace.Vm.Allocuvm` | part1/vm.c:226-254 | for every new size: zeroed pages up to it, or 0 with everything as it was and every frame in one use; no panic on a space without pages above the old size; a shared frame is freed exactly if the new size reaches one that is mapped |
| `AddressSpace.Vm.Setupkvm` | part1/vm.c:123-141 | a directory with the kernel's rows and an empty user part, or 0 with everything as it was and every frame in one use; 0 exactly without frames for the directory and the kernel's tables |
| `AddressSpace.Vm.Freevm` | part1/vm.c:288-308 | all private frames, all tables and the directory are on the free list, every frame keeps one use, so shared frames are not there; other spaces are as before |
| `AddressSpace.Vm.Copyuvm` | part1/vm.c:325-370 | pages from 1 on have equal bytes and flags on frames of their own and shared pages are shared, or 0 with all spaces as they were and every frame in one use. Exactly: it panics if the first missing page is reached, gives 0 below a number of frames that size and flags determine, takes just that many otherwise, and the number of the child's flags set follows from the frames there were |
| `AddressSpace.Vm.Inituvm` | part1/vm.c:187-198 | page 0 with the given bytes; with one frame only, the frame is nobody's and there is no page 0 |
| `AddressSpace.Vm.Loaduvm` | part1/vm.c:202-222 | the file's bytes are in the pages of the range and nothing else changes, or -1 exactly if the file is too short; at address 0 it panics or goes to physical address 0, by whether the table is there |
| `AddressSpace.Vm.ShmemAccess` | part1/vm.c:434-473 | maps the shared frame at its fixed page, refuses bad numbers, returns the address unseen if the flag is set; panics exactly without memory for the table or on a mapped page without a flag |
| `AddressSpace.GuardNeverFires` | part1/vm.c:448-454 | the size test of shmem_access is never true for a user size |
| `UserMemory.EntryKeepsSound` | part1/proc.c:159-225 | replacing the memory of one process keeps the invariant: pages 1 up to each size are mapped and none from there to the shared pages, mapped shared pages have their flags, spaces and stacks are apart, and directories and loose frames are exactly those of the processes |
| `UserMemory.SizeBound` | part1/vm.c:226-254 | every page has a frame, so no size comes near the shared pages |
| `ProgramImage.ImageGrows` | part1/exec.c:55-56 | after allocuvm every byte is that of the last segment that covers it, or 0 |
| `ProgramImage.ImageLoaded` | part1/exec.c:59-60 | after loaduvm too, with the new segment |
| `UserMemory.Machine.Userinit` | part1/proc.c:120-136 | the first process; panics exactly without memory for stack, directory, kernel tables and page; with not a frame more it has no page 0 and a frame is lost |
| `UserMemory.Machine.Grow` | part1/proc.c:159-176 | -1 exactly for want of memory, beyond KERNBASE or for the new size 0; otherwise the new size, with pages of zeros added or the pages between the sizes gone and their frames free; all other pages of all processes keep entry and bytes; a shared frame is freed exactly if the new size is below KERNBASE and reaches a mapped shared page; the invariant is lost exactly by shrinking more than a page to 0 |
| `UserMemory.Machine.Fork` | part1/proc.c:185-225 | a child with the same size and bytes on other frames, exactly if there are an entry and enough frames, or -1 with all processes as they were but for the flags of the entry, of which exactly those up to the first shared page are set if the frames end there; copyuvm does not panic; flags and mappings of the child agree exactly if the entry held no flag that the parent has not |
| `UserMemory.Machine.LoadSegment` | part1/exec.c:46-60 | one round of the loop: a segment that passes the tests is loaded exactly if it has no byte at address 0, given memory; otherwise loaduvm panics if no page was needed so far, and else writes astray |
| `UserMemory.Machine.AddStack` | part1/exec.c:65-71 | two pages of zeros at the next page boundary, the lower one without PTE_U, or a refusal with fewer than 4 frames left |
| `ProgramImage.FitsOn` | part1/exec.c:42-67 | frames that suffice for image and stack at the start suffice for each next segment and for the stack at the end |
| `UserMemory.Machine.Exec` | part1/exec.c:27-122 | it succeeds, given a good header and arguments, whenever all segments pass the tests, avoid address 0 and end below KERNBASE and the frames suffice for tables, image and stack; then the new space has the program's bytes, the rounded end of the image plus two pages as its size, a guard page without PTE_U and user pages otherwise, flags and mappings agree, and the old space is free; or -1 with all processes as they were; allocuvm and clearpteu never panic; loaduvm panics or writes astray only for a program with a segment at address 0, and no such program ever runs |
| `UserMemory.Machine.Shmem` | part1/vm.c:434-473 | panics exactly without memory for the table; the address it returns is mapped exactly unless the flag was set without a mapping |
| `UserMemory.Machine.Reap` | part1/proc.c:293-313 | the child's stack, pages, tables and directory are free and its flags clear; no other process changes |
| `UserMemoryRuns.StaleFlag` | part1/vm.c:352-361 | a run from boot in which shmem_access returns an address that is not mapped |
| `UserMemoryRuns.BigSbrk` | part1/proc.c:165-167 | a run from boot in which growproc fails and a shared page is on the free list |
| `UserMemoryRuns.ShrinkToNothing` | part1/proc.c:168-171 | a run from boot in which growproc to 0 fails and copyuvm then panics |
| `UserMemoryRuns.ZeroSegment` | part1/exec.c:55-60 | a run from boot in which exec of a one-byte program at address 0 panics, or writes to physical address 0 |
| `ProcTable.ExitEntry` | part2/proc.c:264-276 | what exit does to each entry: parent woken, children to init, init woken for a zombie, itself a zombie |
| `ProcTable.KillKills` | part2/proc.c:571-589 | kill marks the first entry with the pid, makes it RUNNABLE if it slept, and changes no other field and no other entry; without such an entry it changes nothing |
| `ProcLifecycle.EntryMoves` | part2/proc.c:76-589 | every change of an entry's status, pid, parent, kill flag, priority and channel, in every step, with the one kind of step that makes it and exactly when: fork, dispatch, yield, sleep, wait, exit, wakeup, kill, reaping and setpri |
| `ProcLifecycle.WaitIsTurn` | part2/proc.c:291-321 | the step of wait is the turn that `ProcDevice.Ptable.WaitTurn` computes |
| `ProcFamily.ExitKeepsWait` | part2/proc.c:263-276 | exit leaves no process asleep in wait with a zombie child |
| `ProcFamily.FamilyKept` | part2/proc.c:76-323 | every step keeps: parents are alive, every process but init has one, a child under construction belongs to its forker, no sleeper in wait has a zombie child |
| `ProcInvariants.ControlKept` | part2/proc.c:333-544 | every step keeps: one CPU at most holds ptable.lock, and a process runs on one CPU at most |
| `ProcReaping.PidsKept` | part2/proc.c:91-99 | every step keeps pids unique and exited pids either reaped once or still zombies |
| `ProcScheduling.PrioritiesKept` | part2/proc.c:346-428 | every step keeps priorities 1 or 2 and search_pri rising within a pass |
| `ProcScheduling.ChargeAdds` | part2/proc.c:384-396 | 32-bit subtraction charges the time served, also across wrap-around |
| `ProcScheduling.TicksKept` | part2/proc.c:378-402 | every step keeps lop_ticks and hip_ticks equal to the time served in turns that ended at LOW and at HIGH |
| `ProcTheorems.NoStrandedZombie` | part2/proc.c:238-323 | in every run each zombie has a living parent that is not asleep in wait |
| `ProcTheorems.ReapedOnce` | part2/proc.c:283-323 | in every run wait returns each exited pid at most once, and the exited ones not returned are zombies; pids in use differ |
| `ProcTheorems.PassesRise` | part2/proc.c:346-409 | in every run panic("priority") is unreachable, a pass that saw a runnable HIGH process dispatches only HIGH ones, and no pass falls in priority |
| `ProcTheorems.HistoryIsTold` | part2/proc.c:378-402 | the time served per priority, as recorded, is what the run itself shows: the turns from dispatch to switch, by the priority at their end, since the entry was taken |
| `ProcTheorems.TicksAreServed` | part2/proc.c:378-402 | in every run lop_ticks is the length of the turns that ended at LOW priority and hip_ticks of those that ended at HIGH, each modulo 2^32, and no CPU charges more than has elapsed |
| `ProcTheorems.ScanSkips` | part2/proc.c:364-373 | while a CPU scans on, it passes over entries that are not runnable at search_pri only, and no other CPU changes who is runnable |
| `ProcTheorems.PassPicks` | part2/proc.c:346-377 | in every run a pass dispatches first the first runnable HIGH process, or the first runnable one if there is no HIGH one, and ends without a dispatch only if nobody is runnable |
| `ProcTheorems.SearchPriIs` | part2/proc.c:345-402 | in every run search_pri is HIGH exactly if the pass saw a runnable HIGH process at its start or a process that was no zombie ended a turn in it at HIGH, and every dispatch is of a runnable process at search_pri |
| `ProcTheorems.SleepsUntilRoused` | part2/proc.c:510-589 | in every run a sleeping process sleeps on, on its channel, until a wakeup of that channel, a kill of it, or an exit that wakes it |
| `ProcTheorems.ForkDelivers` | part2/proc.c:76-233 | in every run the entry that fork takes is handed on by the forking process only, as a runnable child of it with LOW priority, no ticks and a pid larger than all before |
| `ProcTheorems.OneLockHolder` | part2/proc.c:346-413 | in every run at most one CPU holds ptable.lock and no process is on two CPUs |
| `ProcDevice.Ptable.Wakeup1` | part2/proc.c:549-557 | exactly the sleepers on the channel become runnable |
| `ProcDevice.Ptable.SearchPri` | part2/proc.c:347-361 | HIGH exactly if a runnable HIGH process exists |
| `ProcDevice.Ptable.NextToRun` | part2/proc.c:364-373 | the next runnable process at the search priority |
| `ProcDevice.Ptable.Allocproc` | part2/proc.c:84-99 | the first unused entry gets the next pid, or nothing changes |
| `ProcDevice.Ptable.Exit` | part2/proc.c:263-276 | the scans of exit compute the table the state machine uses |
| `ProcDevice.Ptable.WaitTurn` | part2/proc.c:291-321 | reaps a zombie child, the first, exactly if there is one; else returns exactly if there are no children or the process was killed; else sleeps on its own entry |
| `ProcDevice.Ptable.Kill` | part2/proc.c:571-589 | true exactly if some entry has the pid; then the first one is marked, woken if it slept, and otherwise as before, as are all others |
| `PipeRing.CountersDecide` | part1/pipe.c:85-114 | the tests on the wrapped counters decide empty and full |
| `PipeRing.FillHolds` | part1/pipe.c:84-94 | writing appends as many bytes as there are or as there is room for |
| `PipeRing.DrainHolds` | part1/pipe.c:113-117 | reading returns the oldest unread bytes, as many as wanted or as there are |
| `PipeProtocol.ReadersSeeAPrefix` | part1/pipe.c:78-121 | in every run what was read is a prefix of what was written, at most PIPESIZE bytes behind, across wrap-around |
| `PipeProtocol.EofMeansDrained` | part1/pipe.c:106-120 | a reader gets 0 bytes only when all bytes are read and the write end is closed and unused |
| `PipeProtocol.EofIsFinal` | part1/pipe.c:59-75 | after the write end is closed nothing more is written |
| `PipeProtocol.WritersBytes` | part1/pipe.c:84-94 | in every run a call of pipewrite has stored exactly the first i bytes of its request, in order and once, however often it slept |
| `PipeProtocol.WriterReturns` | part1/pipe.c:84-97 | in every run a call that returns has stored its whole request, unless it was killed or no reader is left; then the ring is full |
| `PipeProtocol.ReaderReturns` | part1/pipe.c:100-121 | in every run a turn of a reader with nothing to read and the write end open sleeps, or returns if killed; any other returns with the oldest unread bytes, as many as it once asked for or as there are |
| `PipeProtocol.KilledNeverSleeps` | part1/pipe.c:86-112 | in every run a process counts as killed from its kill on and never sleeps in the pipe again |
| `PipeProtocol.StrandsExactly` | part1/pipe.c:85-92 | a step leaves a sleeper whose reason is gone exactly if a killed writer fills a partly free ring without finishing while a reader sleeps |
| `PipeProtocol.KilledWriterStrands` | part1/pipe.c:86-89 | such a run exists |
| `PipeProtocol.SleepersAreGuarded` | part1/pipe.c:78-121 | in every run without kills a sleeping reader means empty, a sleeping writer means full, and never both |
| `PipeDevice.Device.WriteTurn` | part1/pipe.c:78-98 | the loop on the array does what `PipeRing.Fill` says, and ends by return, -1 or sleep |
| `PipeDevice.Device.ReadTurn` | part1/pipe.c:100-121 | the loop on the array does what `PipeRing.Drain` says, and ends by return, -1 or sleep |
| `PipeDevice.Device.Pipewrite` | part1/pipe.c:78-98 | a turn of a writer, wakeups included, is the step Turn of the protocol; it returns n exactly if the request is stored, -1 if the ring is full and it was killed or nobody can read, and else sleeps |
| `PipeDevice.Device.Piperead` | part1/pipe.c:100-121 | a turn of a reader, wakeups included, is the step Turn of the protocol; with an empty ring and the write end open it sleeps or, killed, returns -1, and else returns the number of bytes read |
| `PipeDevice.Device.Close` | part1/pipe.c:59-75 | the step CloseRead or CloseWrite of the protocol, invariant kept: nobody sleeps on the other side any more; the pipe is freed exactly if the other end was closed before, and then no process is left in it |
| `ShellRoundTrip.LexSpell` | part1/sh.c:265-308 | tokens written out with spaces are read back |
| `ShellRoundTrip.LineParses` | part1/sh.c:344-446 | the canonical tokens of any tree parse to that tree |
| `ShellRoundTrip.RoundTrip` | part1/sh.c:327-446 | parsing the parenthesised text of any tree with at most 9 words per command gives that tree |
| `ShellRoundTrip.AcceptedLinesAreCanonical` | part1/sh.c:327-446 | every accepted line means the same as its canonical text, and its tree is well formed |
| `ShellText.LexLaid` | part1/sh.c:265-308 | tokens are read back however they are spaced, with white space only where two would run together |
| `ShellText.TextIsLaid` | part1/sh.c:265-308 | every text is its tokens with such gaps |
| `ShellGrammar.LineMeansOne` | part1/sh.c:344-446 | a line of the grammar means one tree: words and redirections in order, pipelines and lists nested to the right, a background node for each & |
| `ShellGrammar.LineParsesTo` | part1/sh.c:344-446 | every line of the grammar is accepted, with any redirections in front of and among at most nine words, after blocks, pipelines, & and lists, and the parser finds what it means |
| `ShellGrammar.LineFrom` | part1/sh.c:344-446 | whatever the parser accepts is a line of the grammar that means the tree found |
| `ShellGrammar.ParsesExactly` | part1/sh.c:327-446 | the parser yields a tree exactly for the lines of the grammar that mean it |
| `ShellGrammar.TextParses` | part1/sh.c:327-446 | so it is with text, however it is spaced |
| `ShellGrammar.SimpleCommand` | part1/sh.c:374-446 | a simple command gives exactly its words and exactly its redirections, in order, wherever they stand; ten words are too many |
| `ShellNodes.WordsSurvive` | part1/sh.c:449-493 | after nulterminate each word is a C string at its start, and only separators or the terminator were overwritten |
| `ShellParser.Parser.Peek` | part1/sh.c:310-320 | true exactly if the next token starts with one of the characters; skips spaces only |
| `ShellParser.Parser.GetToken` | part1/sh.c:265-308 | takes exactly the next token off the line; a word's span is a maximal run of word characters |
| `ShellParser.Parser.ParseRedirections` | part1/sh.c:374-397 | the redirections at the pointer, in order, or the missing file |
| `ShellParser.Parser.ParseArguments` | part1/sh.c:426-445 | the argument loop finds the tree of `ShellSyntax.ParseArgs`, redirections among the words included; the array indexes stay in bounds on every input |
| `ShellParser.Parser.Block` | part1/sh.c:399-413 | a parenthesised line with redirections; its first panic is unreachable |
| `ShellParser.Parser.ParseExecAt` | part1/sh.c:415-446 | a command or a block |
| `ShellParser.Parser.ParsePipeAt` | part1/sh.c:361-372 | a right-nested pipeline |
| `ShellParser.Parser.ParseLineAt` | part1/sh.c:344-359 | background marks and lists; the recursion terminates on every input |
| `ShellParser.Parser.NulTerminate` | part1/sh.c:449-493 | exactly the ends of the tree's words become NUL |
| `ShellParser.Parser.ParseCommand` | part1/sh.c:327-342 | succeeds exactly on the lines of `ShellGrammar`, with the one tree that the line means and every word a C string; rejected lines are left alone |
| `Matcher.FirstItem` | part1/grep.c:85-106 | a pattern matches at a place exactly if its first item covers some stretch there and the rest matches after it |
| `Matcher.MatchHere` | part1/grep.c:85-96 | true exactly if the pattern's items cover consecutive stretches from there |
| `Matcher.MatchStar` | part1/grep.c:99-106 | true exactly if some run of the character is followed by a match |
| `Matcher.Match` | part1/grep.c:72-82 | true exactly if the pattern matches at the start, when it begins with ^, or anywhere |
| `ImageChecker.CheckValidAddr` | part2/linux/fsChecker.c:134-164 | accepts exactly if every pointer is 0 or in range |
| `ImageChecker.GetBit` | part2/linux/fsChecker.c:167-181 | the bit of the block, from the right bitmap block |
| `ImageChecker.CountOne` | part2/linux/fsChecker.c:202-220 | counting one pointer keeps every counter equal to the number of pointers seen |
| `ImageChecker.CheckBitmap` | part2/linux/fsChecker.c:186-228 | accepts exactly if every data block of an inode in use is marked, and then each counter is the number of pointers to its block; indexes stay in range |
| `ImageChecker.CheckUsedBlock` | part2/linux/fsChecker.c:231-248 | for images of any size: complains exactly if a block above the bitmap that the first bitmap block marks has a zero counter; otherwise reads past its buffer exactly if the image is larger than that block covers |
| `ImageChecker.CheckUsedTimes` | part2/linux/fsChecker.c:327-336 | accepts exactly if no counter exceeds 1 |
| `ImageChecker.Check` | part2/linux/fsChecker.c:483-523 | for images of any size: passes exactly those of one bitmap block whose pointers are in range, whose data blocks are marked, whose marked blocks are named, and whose blocks are named once; each complaint exactly when it is the first that applies |
| `ImageChecker.BitmapBlockPasses` | part2/linux/fsChecker.c:136-148 | an image with boot block, superblock, inodes, bitmap and data, whose file owns the bitmap block, passes |

## Left out

- Device inodes in readi and writei, and the console: foreign effects.
- The path scanner (skipelem, namex): directories and inodes that a path names are parameters.
- The inode cache (iget, idup, ilock): inodes in memory are kept equal to the ones on disk between calls.
- FileSystem.Volume.Iupdate: the table it updates is one of records; `InodeBytes` has the bytes.
- DirOperations.Create: the path lookup before it, whose iput may release an inode that was removed meanwhile.
- LogDevice.Log.Commit: runs without other processes between its writes, which `LogProtocol` has; so does
  `LogCache.Commit`, whose buffers nobody else locks meanwhile.
- Volumes whose root directory was rounded up past its last mapped block by mkfs: block maps start without holes.
- FileSystem.ChunkLogsSeven: bounds a chunk only when one bitmap block covers the disk, because with more bitmap
  blocks the five allocations of a chunk may touch five of them.
- LinkCounts.CreatedKeeps: nlink is an unbounded integer here; a 16-bit count cannot be reached on a volume made by
  mkfs.
- Heap.Allocator.Malloc: a request for which sbrk is needed and gets a number that is not a positive int.
- ShellParser.Parser.NulTerminate: walks each node's sequence of spans, not argv and eargv up to their null pointers.
- ShellParser.Parser.ParseArguments: the command node is built once its words are known, not filled in place under the
  redirections that already wrap it.
- AddressSpace.Vm.ShmemAccess: does not model sm_counts, which exec and a failed fork leave inexact.
- UserMemory.Machine.Exec: the arguments, which copyout writes to the stack page; a bad header or arguments that do
  not fit are a parameter. A load that comes to the end of the file leaves its last page as it was; the space is
  freed.
- UserMemory.Machine.Fork: file descriptors and the parent's registers; processes are entries with memory here, and
  their scheduling is in `ProcProtocol`. The directory and tables of the scheduler (kpgdir) are not among the frames.
- ImageChecker.CheckBitmap: counters are unbounded integers; only 2^32 pointers to one block would wrap one.
- ProcReaping.PidsKept: pids are unbounded integers, so their reuse after 2^31 forks is not modelled.
- Deadlock freedom of the `part2` scheduler, which takes tickslock inside ptable.lock.
- The checksum changes of `part2/fs.c`, getpinfo, the directory checks of the image checker, grep's line reader, the
  shell's execution of commands, system call argument checks, hardware, boot code and user programs.
- Spinlocks, memory ordering and interrupts: critical sections are atomic steps.
