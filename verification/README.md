# xv6-riscv kernel, modelled and proved in Dafny

A modified xv6-riscv kernel and two of its user programs: the crash-safe log, the
buffer cache, copy-on-write memory, Sv39 page tables, the block trees of files, sleep
and wakeup, the life of processes, pipes and mailboxes, the virtio disk driver, the K&R
allocator and the pattern matcher of grep.

`dafny verify dfyconfig.toml` checks the whole project.

| files | what they model |
|---|---|
| Lists, Blocks | lists without repetition and disk blocks, used by several modules |
| Params | sizes from kernel/param.h, kernel/fs.h and kernel/riscv.h |
| LogMachine, Log, LogFull | kernel/log.c: a machine with one step per disk write and crashes anywhere; the code as methods whose every disk state is a state of a run of that machine; the one place where a legal write panics |
| Bcache | kernel/bio.c: the cache as a machine at lock granularity, its runs against a plain map of blocks, and the code with its linked list |
| LogCache, LogRuns, CacheFull | the log over the cache: both machines together, buffers changed, logged, pinned, copied, written and unpinned; crash atomicity of what `bread` returns; when a commit finds no buffer |
| PagePool, KAlloc | kernel/kalloc.c: free list and reference counts, one step per critical section, and the code |
| Cow, CowRefines | copy-on-write in kernel/vm.c and kernel/proc.c, interleaved at the reference-count lock; refinement of a kernel whose fork copies every page |
| Sv39Tree, Sv39 | page tables of kernel/vm.c as trees of pages, and the code that walks, maps, unmaps, grows and frees them |
| CowTrees | copy-on-write over those trees: the entries fork, fault, grow and unmap write, and what the hardware finds in them |
| Bitmap, FsTree, FsMap, FsWrite, Fs | the bitmap allocator, three-level block trees, `bmap`, `itrunc`, `readi`, `writei` of kernel/fs.c and the chunks of `filewrite` |
| FsImage, FsCrash | the blocks on disk that hold a file system; a crash anywhere in `filewrite`, its chunks being operations of the log |
| Wakeup, Waiters | `sleep`, `wakeup` and `kkill` of kernel/proc.c for any client; mailboxes, sleep locks, `begin_op`, pipes and `kwait` as clients |
| Procs, ProcTable | fork, exit, reparenting and wait interleaved; the loops over the process table as whole calls of it |
| Pipe, Mbox | kernel/pipe.c and kernel/mbox.c against unbounded queues |
| Virtio, VirtioTable | kernel/virtio_disk.c against a device that completes requests in any order; its loops |
| FreeList, Umalloc | user/umalloc.c: the coalescing free list as a value, and the code over headers in memory |
| Grep | the matcher of user/grep.c against the language of its patterns |

The machines all have the same shape: a `State`, an `Action` datatype with one
constructor per atomic step, `Enabled` and `Do`, an invariant `Inv` that every step keeps,
and theorems over every run. Spin locks are atomic; what happens under one lock is one
step. Classes carry the imperative code; their methods are proved to do the steps of the
machine or to meet a specification over their abstract state.

Where the code and its documentation or intent differ, the model follows the code:

- `log_write` looks for a full log before it looks for the block in the log
  (kernel/log.c:221-229). `LogFull.RepeatOnFullLogPanics` is a run in which an operation
  within its budget is refused; `LogMachine.RefusedExactly` says exactly when.
- The cache has as many buffers as the log has blocks (kernel/param.h:10-11), and
  `log_write` pins a buffer for each block. A full log leaves none for the commit, which
  panics in `bget` at its first log block: `CacheFull.FullLogCannotCommit` is such a run,
  `LogRuns.BgetPanicsIff` says exactly when, and the methods of `Log.RedoLog` return it.
- `mbox_create(-1)` returns a free box without taking it (kernel/mbox.c:33-36), so one
  key gets two ids (`Mbox.MinusOneGetsTwoIds`). Every other key has one id in every run
  (`Mbox.OneIdExactly`).
- `pipewrite` returns as soon as it finds itself killed, without the wakeup it owes for
  bytes it has put in (kernel/pipe.c:84-88). In every run nobody sleeps wrongly on a pipe
  if and only if no killed writer has returned while a reader slept over a byte
  (`Waiters.PipeLostExactly`); `Waiters.KilledWriterLosesWakeup` is a run in which one has.
- `kwait`, `piperead` and `pipewrite` test `killed` before `sleep` takes the process's
  lock, `pipewrite` with a whole wakeup scan in between (`Waiters.KilledDuringScan`). A
  kill after the test does not keep the process from sleeping (`Wakeup.LateKill`); one
  before it does (`Wakeup.KilledSleeper`).
- `morecore` passes an unsigned product to `sbrk(int)` (user/umalloc.c:54).
  `Umalloc.SbrkExact` gives the sizes for which the two agree. For others, unless a free
  block is large enough, `malloc` hands out memory beyond the break (`Umalloc.Overdrawn`).
- `piperead` takes a byte out of the pipe before it copies it out (kernel/pipe.c:122-124),
  so a byte that cannot be delivered is gone; `Pipe.PipeRing.Read` says so.

The model departs from the code in these places:

- Inodes in memory have the `NDIRECT + 2` slots of the inode on disk (kernel/fs.h:38).
  The in-memory struct has one fewer (kernel/file.h:29), although `bmap` and `itrunc` use it.
- `bmap` goes on to read block 0 after it fails to allocate a second-level block, and
  reads an entry after it has released the buffer (kernel/fs.c:458-467). Block 0 is assumed
  to be all zero, and the entry is the one before the release.
- `either_copyin` and `either_copyout` move a whole chunk or nothing.
- A buffer keeps the device 0 that `binit` gives it until `bget` assigns it, so the cache
  is used with other devices only. Each device has its own blocks; there is one disk.
- Operations of the log over the cache change only buffers they have locked, log them
  before they release them, and release them before `end_op`; nobody but the log reads the
  log area.
- Processes share no pages through kernel/shm.c, whose mappings are not counted.
- `sbrk` gives out heap at or above the last break, up to a limit.

## Model

| member | source | states |
|---|---|---|
| LogMachine.RecoverSpec | kernel/log.c:66-124 | what recovery leaves on disk is determined: the home blocks the header lists get their logged contents, all others keep theirs |
| LogMachine.RecoverWords | kernel/log.c:66-124 | the same in the words of the header block: word 0 is the count, word j names the block that gets log block j, every other home block is kept, and the count is 0 afterwards |
| LogMachine.InstalledSpec | kernel/log.c:66-84 | after installing k entries exactly the first k home blocks have their logged contents, wherever installation stops |
| LogMachine.LogBlockIsInvisible | kernel/log.c:179-191 | writing a log block under an empty header does not change what recovery would give |
| LogMachine.HeaderPublishes | kernel/log.c:103-114 | the header write alone switches what recovery gives from the old contents to all the new ones |
| LogMachine.InstallIsInvisible | kernel/log.c:66-84 | installing any entry, once or again, does not change what recovery would give |
| LogMachine.ClearIsInvisible | kernel/log.c:194-204 | erasing the header after installation does not change what recovery would give |
| LogMachine.InvStep | kernel/log.c:66-236 | every step of any interleaving of operations, commit, crash and recovery keeps the log invariant |
| LogMachine.RecoveredChangesOnlyAtHeader | kernel/log.c:194-204 | over all steps, crashes included, only a header write changes the recovered contents |
| LogMachine.CrashAtomicity | kernel/log.c:117-236 | in every run, a crash anywhere recovers the logical contents of a moment with no operation outstanding, no older than the last header write |
| LogMachine.AllOrNothing | kernel/log.c:127-236 | in every run the recovered disk is a replay of logged writes in which each operation is complete or absent |
| LogMachine.CommittedForever | kernel/log.c:194-204 | all that a committed operation logged is on the recovered disk of every later state, through any number of crashes |
| LogMachine.NeverSplit | kernel/log.c:147-204 | of any two header writes of a run at most one makes writes of an operation durable, and then all it ever logged |
| LogMachine.AppendFits | kernel/log.c:127-143 | an operation within its budget that logs a new block always finds room |
| LogMachine.FullLogMeansSpent | kernel/log.c:127-143 | a full log means every outstanding operation has used its whole reservation |
| LogMachine.RefusedExactly | kernel/log.c:215-236 | a write within budget is refused if and only if the log is full and already lists the block |
| LogMachine.IdleAdmits | kernel/log.c:127-176 | an idle log is empty and admits the next operation; no operation ends during a commit |
| LogMachine.RecoveryCompletes | kernel/log.c:117-124 | from any reachable disk recovery runs to completion and leaves exactly what Recover gives |
| Log.RedoLog.WriteHead | kernel/log.c:103-114 | cache and disk get the count in word 0 and the entries in words 1 to n of the header block, the words above kept |
| Log.RedoLog.ReadHead | kernel/log.c:87-98 | the count and the entries loaded are words 0 to n of the header on disk, as the machine's step |
| Log.RedoLog.WriteLog | kernel/log.c:179-191 | a run of log-block writes of the machine, so every intermediate disk is covered by its theorems; all n of them, or those before the first bread for which pinned and other referenced buffers make up the cache |
| Log.RedoLog.InstallTrans | kernel/log.c:66-84 | a run of installation steps, each unpinning its block, up to the first bread that finds no buffer; in recovery all n, and the disk becomes the installed one |
| Log.RedoLog.Commit | kernel/log.c:194-204 | the writes log blocks, header, home blocks, empty header, in that order, up to the first bread that finds no buffer, whatever others do to the cache in between |
| Log.RedoLog.BeginOp | kernel/log.c:127-143 | an operation is admitted if and only if no commit runs and its reservation fits |
| Log.RedoLog.LogWrite | kernel/log.c:215-236 | a repeated block is absorbed, a new one appended and pinned, a full log refused, as a step of the machine |
| Log.RedoLog.EndOp | kernel/log.c:147-176 | the last operation out, and only it, commits; the run it leaves is that of CommitActions, or its part before the first bread that finds no buffer |
| Log.RedoLog.RecoverFromLog | kernel/log.c:117-124 | the block that word j of the header names gets log block j, every other home block is kept, the header is empty; the disk is what Recover gives |
| Log.CommitIsAtomic | kernel/log.c:147-204 | a crash at any point of a committing end_op recovers the old contents up to the header write and the new ones after it |
| LogFull.RepeatOnFullLogPanics | kernel/log.c:215-236 | a reachable state in which a write within budget of a block already logged is refused |
| Bcache.InvStep | kernel/bio.c:36-151 | every step keeps the list a ring of all buffers, blocks cached once, valid contents current, and unwritten contents locked or pinned |
| Bcache.CacheAgrees | kernel/bio.c:58-151 | in every run a valid buffer holds the latest store to its block, an unreferenced one agrees with the disk, and no block has two buffers |
| Bcache.QuietDiskHasAll | kernel/bio.c:106-151 | in every run, with nothing locked or pinned, the disk holds every store made |
| Bcache.OneHolder | kernel/bio.c:58-137 | in every run a buffer's sleep lock is released between two acquisitions of it |
| Bcache.OrderOfRelease | kernel/bio.c:116-137 | in every run the list is in the order of the releases that freed its buffers, the last first |
| Bcache.RecyclesLru | kernel/bio.c:73-86 | in every run the buffer bget recycles is the free one whose last release is the longest ago |
| Bcache.ToFrontLinked | kernel/bio.c:116-137 | unlinking a buffer and linking it after the head keeps both directions of the ring and only reorders it |
| Bcache.UnlinkLinked | kernel/bio.c:126-131 | splicing out a buffer leaves the ring of the others |
| Bcache.PushLinked | kernel/bio.c:44-52 | linking a buffer after the head gives the ring with it in front |
| Bcache.BufferCache.constructor | kernel/bio.c:36-53 | binit builds the ring of all buffers, none assigned |
| Bcache.BufferCache.Bget | kernel/bio.c:58-89 | the block's buffer with one more reference if cached, else the least recently used free one, assigned to it with one reference; no other buffer changes; panics if and only if neither exists |
| Bcache.BufferCache.Bread | kernel/bio.c:92-103 | the buffer returned holds the latest contents of the block |
| Bcache.BufferCache.Bwrite | kernel/bio.c:106-112 | the disk gets the latest contents of the block |
| Bcache.BufferCache.Brelse | kernel/bio.c:116-137 | the reference is dropped, and the buffer goes to the front of the list exactly when it was the last; nothing but links changes otherwise |
| Bcache.BufferCache.Bpin | kernel/bio.c:139-144 | a pinned buffer cannot be recycled; the invariant is kept |
| Bcache.BufferCache.Bunpin | kernel/bio.c:146-151 | a pin is undone, and the cache stays in order if and only if another pin is left, the buffer is locked or the disk has its contents |
| LogCache.CacheAllows | kernel/log.c:66-236 | every release, pin, unpin, store and write the log and its operations cause is one the cache allows: nothing unwritten is released unpinned |
| LogCache.InvStep | kernel/log.c:66-236 | every step of operations, committer, cache, crash and recovery keeps both invariants, one disk, one latest contents of every block, and one pin for each logged block not yet installed |
| LogRuns.BreadIsLatest | kernel/bio.c:92-103 | in every run a filled buffer nobody is changing holds what the log machine has for its block: recycling loses no logged update |
| LogRuns.LoggedIsPinned | kernel/log.c:215-236 | in every run a logged block not yet installed is in a buffer with exactly one pin, which cannot be recycled |
| LogRuns.CrashOverCache | kernel/log.c:117-236 | in every run, a crash anywhere recovers for every home block what bread would have returned at a moment with no operation outstanding, no older than the last header write |
| LogRuns.FreeBufferIff | kernel/bio.c:58-89 | a buffer is unreferenced if and only if pinned blocks and buffers others refer to are fewer than NBUF |
| LogRuns.BgetPanicsIff | kernel/bio.c:58-89 | bget of a block nobody refers to panics if and only if pinned blocks and buffers others refer to make up the cache |
| CacheFull.FullLogCannotCommit | kernel/log.c:179-191 | a reachable state at the start of a commit of LOGBLOCKS blocks in which bget finds no buffer for the first log block |
| PagePool.InvStep | kernel/kalloc.c:69-193 | every critical section keeps counts equal to holders, the free list duplicate-free and unheld, and loses no page |
| PagePool.HeldKeepsContents | kernel/kalloc.c:69-136 | no allocator step changes the contents of a page somebody holds |
| KAlloc.Memory.constructor | kernel/kalloc.c:31-63 | after kinit every managed page is on the free list once, with count 0 |
| KAlloc.Memory.Pop | kernel/kalloc.c:111-119 | takes the first page of the list, nothing if and only if it is empty |
| KAlloc.Memory.SetNew | kernel/kalloc.c:121-136 | the page had count 0, so the unexpected case does not arise; the caller is its one holder |
| KAlloc.Memory.Dec | kernel/kalloc.c:80-94 | a holder's decrement never panics, and reaches 0 if and only if it was the last holder |
| KAlloc.Memory.Push | kernel/kalloc.c:93-102 | a page nobody holds goes back on the list, once |
| KAlloc.Memory.RefInc | kernel/kalloc.c:139-150 | a new holder is counted, and the pool stays in order if and only if somebody held the page before |
| KAlloc.Memory.RefGet | kernel/kalloc.c:183-193 | returns the number of holders |
| KAlloc.Memory.Kfree | kernel/kalloc.c:69-102 | the page becomes free, every byte of it 1, exactly when its last holder releases it; no other page changes |
| KAlloc.Memory.Kalloc | kernel/kalloc.c:107-136 | hands out the head of the free list, held once and with every byte 5; 0 if and only if the list is empty |
| Cow.InvStep | kernel/vm.c:195-331 | every step of fork, fault, store, grow, shrink and exit, interleaved at the count lock, keeps holders, tables and tasks consistent |
| CowRefines.Simulates | kernel/vm.c:298-331 | every copy-on-write step is one step or none of the kernel whose fork copies everything |
| CowRefines.RunRefines | kernel/vm.c:493-523 | in every run each process sees exactly the memory it would see if fork copied every page |
| CowRefines.MemoryIsHistory | kernel/vm.c:218-331 | in every run a process sees in each byte the last value stored there, by itself or by the ancestor it was forked from before the fork, and 0 where nothing was stored since the page was grown |
| CowRefines.LoadSeesView | kernel/vm.c:493-523 | what a running process reads through its page table is its memory in that model |
| CowRefines.LoadReadsLastStore | kernel/vm.c:493-523 | what a running process reads through its page table is that byte |
| CowRefines.WritableMeansOne | kernel/vm.c:505-519 | a page with a counted writable mapping has reference count 1, also while its process is inside fork or a fault |
| CowRefines.CountsAreHolders | kernel/vm.c:298-331 | each count is the number of holders, and every mapping is held but one in the middle of a step |
| CowRefines.NeverStuck | kernel/vm.c:493-523 | a process inside an operation can always take a step that brings it closer to the end of it; it gives up only where it asks for a page and none is free |
| CowRefines.Finishes | kernel/vm.c:195-331 | whatever a process is in the middle of, it can finish by a bounded number of steps of its own |
| CowRefines.FaultServes | kernel/vm.c:493-523 | after the last step of a fault the store that faulted goes through |
| CowTrees.ShownStep | kernel/vm.c:298-331 | every step of copy-on-write is the writing of the entry the code computes into one tree, and the trees go on showing its tables |
| CowTrees.CanWrite | kernel/vm.c:97-117 | given the tables walk makes, the code can always write that entry |
| CowTrees.EntryFlags | kernel/vm.c:218-331 | in every run every entry of a process has V, R and U set, W and X or not, and no other flag |
| CowTrees.HardwareSeesView | kernel/vm.c:493-523 | in every run, the tree of a process outside the kernel has an entry with V for a page number if and only if the process has that page in the kernel whose fork copies everything; it leads to the same contents, and to a page with count 1 if it has W |
| Sv39Tree.RootOnly | kernel/vm.c:180-189 | a zeroed root page is a tree that maps nothing |
| Sv39Tree.AttachTree | kernel/vm.c:97-117 | adding a table page keeps the pages an unshared tree |
| Sv39Tree.AttachLeaf | kernel/vm.c:97-117 | adding a table page changes no mapping |
| Sv39Tree.SetLeafSpec | kernel/vm.c:147-176 | writing one entry changes the map at one page number and keeps the tree |
| Sv39Tree.WalkWords | kernel/vm.c:97-117 | the entry of an address in the words of the tables: bits 38 to 30, 29 to 21 and 20 to 12 choose the entry of each level, bit 0 says whether it is set, and the bits from 10 on are the page of the next table |
| Sv39.Vm.constructor | kernel/vm.c:180-189 | an empty user page table: valid, its page taken from the pool, nothing mapped |
| Sv39.Vm.UvmCreate | kernel/vm.c:180-189 | such a table, or null if and only if no page is free |
| Sv39.Vm.Walk | kernel/vm.c:97-117 | finds or makes the table of a page number, changes no mapping, and fails with alloc only when memory is exhausted |
| Sv39.Vm.MapPages | kernel/vm.c:147-176 | each page number of its range, or on failure of a prefix of it, gets the entry of its page with the flags and V, no other entry changes; fails only when memory is exhausted |
| Sv39.Vm.Unmap | kernel/vm.c:195-215 | clears exactly the set entries of its range, keeps the tables, and with do_free takes one reference from a page for each entry that mapped it |
| Sv39.Vm.UvmAlloc | kernel/vm.c:218-242 | in bytes: success maps each page that begins at or above the old size and below the new one to its own formerly free page with V, R, U and the given flags, and changes no other entry; failure leaves every mapping and count as before and happens only when memory ran out |
| Sv39.Vm.UvmDealloc | kernel/vm.c:248-260 | in bytes: exactly the set entries of pages that begin at or above the new size and below the old one are cleared, one reference for each; returns the smaller size |
| Sv39.Vm.FreeWalk | kernel/vm.c:264-280 | every table page below, and no other page, is freed exactly once, and no leaf is met |
| Sv39.Vm.UvmFree | kernel/vm.c:284-290 | all tables are free again and each page has lost one reference for each mapping |
| Bitmap.BlockBit | kernel/fs.c:66-106 | the bit balloc and bfree test and set is the bit of the block number in the whole map |
| Bitmap.BitsNumbers | kernel/fs.c:66-106 | a block is in use if and only if its byte of the bitmap, divided by two to the power of its number modulo 8, is odd |
| Bitmap.BitsChange | kernel/fs.c:66-106 | changing one bit of one byte changes the map at one block number |
| FsTree.EmptyFiles | mkfs/mkfs.c:237-250 | empty inodes with exactly the blocks below some number in use are in order and hold no bytes |
| FsTree.GraftVal | kernel/fs.c:405-482 | filling an empty slot with a free block changes the value of that slot and of no other slot of any file |
| FsTree.GraftTree | kernel/fs.c:405-482 | a filled slot keeps every block marked used, reachable once over all files, and none leaked |
| FsTree.TruncatedTree | kernel/fs.c:518-567 | freeing one file's blocks keeps the trees of all others and conserves blocks |
| FsTree.ByteOnDisk | kernel/fs.c:405-482 | byte k of a file is byte k modulo 1024 of the block that the inode, the indirect block, or a block the doubly-indirect block names has for block k / 1024 |
| FsTree.WordDigits | kernel/fs.c:431-438 | a block number in a pointer block is four bytes, the lowest first |
| FsWrite.TruncatedFiles | kernel/fs.c:518-567 | itrunc empties its file and leaves the contents of every other |
| FsWrite.WritingPut | kernel/fs.c:620-654 | copying the next bytes into the mapped block extends what is written by exactly those bytes |
| FsWrite.WritingDone | kernel/fs.c:620-654 | the size update completes the write as a byte sequence: overwritten or extended by exactly the bytes reported, every other file untouched |
| FsWrite.ReadBack | kernel/fs.c:586-654 | what was written reads back and the rest of the file is as it was |
| FsWrite.WroteMore | kernel/file.c:149-172 | consecutive chunks are one longer write |
| FsWrite.NineBlocks | kernel/file.c:149-172 | a chunk logs at most 4 data, 3 pointer, 1 bitmap and 1 inode block, at any offset, also across the boundary from single to double indirect |
| FsImage.ImageCovered | kernel/fs.h:42-52 | the disk changes only at the data, bitmap and inode blocks a transaction has logged |
| FsImage.BitmapBytes | kernel/fs.h:48-52 | each word of the bitmap on disk is four bytes of the bitmap block, the lowest first |
| FsImage.InodeOnDisk | kernel/fs.h:32-48 | inodes are 16 to a block, with the size in word 2 and the block numbers from word 3 on |
| FsImage.DiskTellsFiles | kernel/fs.h:32-52 | two file systems in order with the same blocks outside the log area have the same files |
| FsCrash.RecoversWhole | kernel/log.c:117-236 | in every run of operations one after the other, a crash anywhere recovers what a whole number of them left, no fewer than had ended at the last header write |
| FsCrash.FileWriteCrash | kernel/file.c:149-172 | a crash anywhere in filewrite recovers the file overwritten by a whole number of chunks, every other file as it was |
| FsCrash.FileWriteFits | kernel/file.c:149-172 | no log_write of filewrite is refused on a disk with one bitmap block |
| FsCrash.RecoveredFile | kernel/log.c:117-124 | the disk recovery leaves determines the contents of every file |
| FileSys.FileSystem.constructor | mkfs/mkfs.c:237-250 | the disk mkfs starts from: valid, the blocks below the first data block in use, every file empty |
| FileSys.FileSystem.Balloc | kernel/fs.c:66-89 | the lowest free block, its bit added to its byte of the bitmap and no other byte changed, and zeroed; 0 if and only if there is none |
| FileSys.FileSystem.Bfree | kernel/fs.c:92-106 | exactly that block becomes free, its bit subtracted from its byte and no other byte changed; it was in use |
| FileSys.FileSystem.Bmap | kernel/fs.c:405-482 | the block of a file's block number, found or allocated along its path; 0 only on a full disk; data and other slots unchanged |
| FileSys.FileSystem.Itrunc | kernel/fs.c:518-567 | exactly the file's own blocks are freed, none of them free before, and the file is empty; all blocks it changes are logged |
| FileSys.FileSystem.Readi | kernel/fs.c:586-611 | returns the smaller of the bytes asked for and those up to the end of the file, or -1 if and only if that does not fit the destination; 0 beyond the end or where the end wraps; neither allocates nor logs |
| FileSys.FileSystem.Writei | kernel/fs.c:620-654 | refuses if and only if the offset or the end is out of range; else writes exactly the bytes reported, which stop short only at a block boundary, on a full disk or in the block the source ends in; logs all blocks it changes and only blocks on its path |
| FileSys.FileSystem.FileWrite | kernel/file.c:149-172 | all bytes or -1 with a written prefix, the offset moved past what was written; every transaction is within 9 of the 10 reserved blocks, logs all it changes and leaves the file with its chunk written |
| Wakeup.InvStep | kernel/proc.c:548-593 | every step of sleep, of the wakeup scan, of kkill and of their clients keeps this: a waiter whose condition holds has a wakeup still coming |
| Wakeup.NoLostWakeup | kernel/proc.c:548-593 | in every run of any honest client in which no killed thread leaves out a wakeup that somebody needs, while the condition lock is free nobody sleeps for a condition that holds |
| Wakeup.LostExactly | kernel/proc.c:548-593 | in every run of any honest client, nobody has been left asleep for a condition that holds if and only if every killed thread that returned owing a wakeup did so while nobody waited for a condition that held |
| Wakeup.WakesExactly | kernel/proc.c:579-617 | in every run a sleeper wakes exactly when it is killed or when another thread's scan for its channel looks at it |
| Wakeup.KilledSleeper | kernel/proc.c:548-617 | in every run a thread that tests killed before sleeping sleeps though killed if and only if the kill came between its last test and sleep's taking of its lock, wakeup scans in between included |
| Wakeup.LateKill | kernel/proc.c:548-617 | from any state after the test, a kill and the steps of sleep lead to a killed thread asleep |
| Waiters.MboxNoLostWakeup | kernel/mbox.c:48-77 | no sender sleeps on a box with room, no receiver on a box with a message |
| Waiters.SleeplockNoLostWakeup | kernel/sleeplock.c:21-41 | nobody sleeps on a sleep lock that is free |
| Waiters.BeginOpNoLostWakeup | kernel/log.c:127-176 | nobody sleeps in begin_op while the log would admit it, although commit empties the header without the lock |
| Waiters.PipeLostExactly | kernel/pipe.c:58-130 | in every run, no writer has slept with room or no reader and no reader with bytes or no writer, if and only if no killed writer has returned while a reader slept over a byte |
| Waiters.PipeNoLostWakeup | kernel/pipe.c:58-130 | in such a run a sleeping writer has a full pipe and a reader, a sleeping reader an empty pipe and a writer |
| Waiters.KilledDuringScan | kernel/pipe.c:84-92 | a run in which a writer of a full pipe is killed while it wakes the readers, and falls asleep |
| Waiters.KilledWriterLosesWakeup | kernel/pipe.c:76-103 | a run in which a writer is killed after putting a byte in, and a reader sleeps on over it |
| Waiters.FamilyAnnounced | kernel/proc.c:316-421 | whatever a step of Procs makes true for another process in kwait is announced to it, exit's before it happens |
| Waiters.FamilyInv | kernel/proc.c:316-421 | the processes kwait is about keep the invariant of Procs in every run from the first process on |
| Waiters.WaitNoLostWakeup | kernel/proc.c:376-421 | nobody sleeps in kwait with a zombie child or without children, or killed before kwait's test |
| Waiters.FreedNotKilled | kernel/proc.c:155-177 | a slot that reaping or a failed fork frees is no longer killed |
| Procs.InvStep | kernel/proc.c:112-421 | every step of fork, exit, reparent, wait, also one that cannot copy out, and slot reuse keeps the process table consistent |
| Procs.ParentsLive | kernel/proc.c:265-421 | in every run every started process but init has a parent, and every parent is alive |
| Procs.ZombieStays | kernel/proc.c:332-421 | a zombie stays one until its parent's kwait frees it |
| Procs.ReapedOnce | kernel/proc.c:376-421 | in every run no process is reaped twice, and none in the table has been reaped |
| Procs.ExitSteps | kernel/proc.c:316-372 | the steps of one uninterrupted exit give the table Exited, which is what ProcTable.Table.Exit leaves |
| Procs.WaitSteps | kernel/proc.c:376-421 | the steps of one uninterrupted kwait free the first zombie child, as ProcTable.Table.Wait does |
| ProcTable.Table.Wakeup | kernel/proc.c:579-593 | exactly the other processes sleeping on the channel become runnable, and nothing else changes |
| ProcTable.Table.Reparent | kernel/proc.c:316-327 | exactly the children of the process become init's, and init is woken exactly if there were any |
| ProcTable.Table.Exit | kernel/proc.c:332-372 | a zombie with the status and without children; exactly its parent and an init that got children wake from kwait; the table is that of the exit of Procs |
| ProcTable.Table.Wait | kernel/proc.c:376-421 | frees the first zombie child, every field of its slot reset, sleeps if and only if there are children, none a zombie, and no kill |
| ProcTable.Table.Kill | kernel/proc.c:598-617 | the first process with the pid is marked killed, is runnable if it slept, and keeps every other field; -1 if and only if there is none |
| Pipe.PutQueued | kernel/pipe.c:84-99 | storing at nwrite modulo the size appends to the queue, across 32-bit wrap |
| Pipe.TakeQueued | kernel/pipe.c:119-124 | reading at nread modulo the size takes the oldest byte, across 32-bit wrap |
| Pipe.PipeRing.WriteSome | kernel/pipe.c:76-103 | accepted bytes join the queue in order, as many as the request, the source, the room and the tests of killed allow; -1 if and only if the read end is closed or it is killed with bytes left, asleep if and only if neither and the pipe is full |
| Pipe.PipeRing.Read | kernel/pipe.c:105-130 | sleeps or, if killed, fails exactly on an empty pipe open for writing; else delivers the oldest bytes in order |
| Pipe.PipeRing.ReadSome | kernel/pipe.c:119-125 | the copy loop takes the oldest bytes, one more than it delivers where the destination ends; consumed then queued bytes are the accepted ones |
| Mbox.Put | kernel/mbox.c:48-62 | the message joins the end of the box's queue |
| Mbox.Take | kernel/mbox.c:63-76 | the oldest message leaves the box's queue |
| Mbox.LookInv | kernel/mbox.c:29-46 | each step of concurrent creators, whatever their keys, keeps keys distinct and handed out from the front |
| Mbox.OneIdPerKey | kernel/mbox.c:29-46 | in every interleaving of calls with any keys, two calls with one key other than -1 never get different ids |
| Mbox.MinusOneGetsTwoIds | kernel/mbox.c:29-46 | a run in which two calls with key -1 get different ids |
| Mbox.OneIdExactly | kernel/mbox.c:29-46 | a key has one id in every run if and only if it is not -1 |
| Mbox.Mailboxes.Create | kernel/mbox.c:29-46 | finds the key's box or makes an empty one; -1 if and only if all boxes have other keys |
| Mbox.Mailboxes.Send | kernel/mbox.c:48-62 | sent messages are those received followed by those in the box, in order; -1 for a bad id |
| Mbox.Mailboxes.Recv | kernel/mbox.c:63-76 | returns the oldest message; -1 for a bad id |
| Virtio.RingPut | kernel/virtio_disk.c:270-277 | an entry added to a ring that is not full overwrites none that is pending, across 16-bit wrap |
| Virtio.RingTake | kernel/virtio_disk.c:311-325 | the entry at the index is the oldest pending one, and the indices differ if and only if there is one |
| Virtio.RingsStep | kernel/virtio_disk.c:215-327 | no driver or device step overwrites a ring entry before it is consumed |
| Virtio.InvStep | kernel/virtio_disk.c:156-327 | every driver and device step keeps descriptors partitioned, rings intact and requests accounted for |
| Virtio.DescriptorsPartition | kernel/virtio_disk.c:156-213 | in every run each descriptor is free or in exactly one request |
| Virtio.CompletedOnce | kernel/virtio_disk.c:215-327 | in every run each request is completed at most once, is completed or in flight, and its buffer is released by its own completion |
| VirtioTable.Driver.AllocDesc | kernel/virtio_disk.c:156-166 | the lowest free descriptor; -1 if and only if none is free |
| VirtioTable.Driver.FreeDesc | kernel/virtio_disk.c:169-182 | exactly that descriptor becomes free and blank |
| VirtioTable.Driver.FreeChain | kernel/virtio_disk.c:185-197 | following the links frees exactly the three descriptors of the request |
| VirtioTable.Driver.Alloc3 | kernel/virtio_disk.c:201-213 | three different free descriptors, or none taken and fewer than three free |
| VirtioTable.Driver.Interrupt | kernel/virtio_disk.c:294-327 | releases the buffers of exactly the pending completions and consumes the ring; panics if and only if one has failed, after those before it |
| FreeList.InsertSorted | user/umalloc.c:24-44 | freeing keeps the list in address order with no two blocks touching |
| FreeList.InsertHas | user/umalloc.c:24-44 | freeing adds exactly the units of the block |
| FreeList.CarveHas | user/umalloc.c:76-84 | allocating takes exactly the carved units out of the list |
| Umalloc.RepInsert | user/umalloc.c:32-43 | the pointer updates of free make the circular list of the coalesced free list |
| Umalloc.RepCarve | user/umalloc.c:76-84 | the header updates of malloc make the circular list of what is left |
| Umalloc.SbrkExact | user/umalloc.c:46-61 | sbrk is asked for what morecore records if and only if the request is below 2^27 units |
| Umalloc.Overdrawn | user/umalloc.c:46-84 | for any larger request malloc hands out the units from the old break on, which reach beyond the new one |
| Umalloc.HugeMalloc | user/umalloc.c:46-84 | after malloc(0xffffffff) a live block of 2^28 + 1 units stands on one unit of memory |
| Umalloc.UnitsEnough | user/umalloc.c:63-69 | the units computed are the fewest that hold the payload asked for and the header |
| Umalloc.Heap.Search | user/umalloc.c:30-32 | ends, at the node after which the block belongs |
| Umalloc.Heap.Free | user/umalloc.c:24-44 | the block's units, and no others, become free, and no two free blocks touch; every heap unit stays in exactly one block |
| Umalloc.Heap.Morecore | user/umalloc.c:46-61 | the break moves by 4096 units or the request if larger and a block of at least the request joins the list, or 0 if and only if sbrk fails; overflows if and only if 2^27 units or more are asked for |
| Umalloc.Heap.Malloc | user/umalloc.c:63-90 | for every request, terminates with a block apart from all live ones, the end of a free block where one is large enough, or 0 only if nothing free is large enough and sbrk fails; overflows if and only if nothing free is large enough and more than 2^31 - 32 bytes are asked for |
| Grep.HereStar | user/grep.c:99-106 | a starred pattern matches if and only if the rest does after some run of the character |
| Grep.HereChar | user/grep.c:85-96 | a character pattern matches if and only if the first character does and the rest matches after it |
| Grep.MatchStar | user/grep.c:99-106 | true if and only if the rest matches after some run of the character |
| Grep.MatchHere | user/grep.c:85-96 | true if and only if some beginning of the text is in the language of the pattern |
| Grep.Match | user/grep.c:72-82 | true if and only if some substring, or some prefix after ^, is in the language of the pattern |

## Left out

- kernel/shm.c: its mappings are not in the reference counts.
- Permissions after a fault and the success of copyout: vmfault makes every shared page writable and copyout refuses copy-on-write pages, so contents are claimed and permissions are not.
- Waiting on a mailbox that was never created: mbox_create resets it without a wakeup.
- Freeing a pipe when both ends are closed.
- CowTrees.ShownStep: the pages of the trees themselves are not in the page pool of Cow.
- FsCrash.FileWriteCrash: while filewrite runs no other process makes an operation.
- KAlloc.Memory.Push: the link stored in a free page's first word is kept apart from the page's contents.
- Bcache.BufferCache.Bget: leaves out the wait for the buffer's sleep lock, which is the separate step Lock.
- Umalloc.Heap.Morecore: stops where the argument of sbrk overflows; what the code goes on to do is in Umalloc.Overdrawn.
- Umalloc.Heap.Malloc: stops there too.
- FileSys.FileSystem.Writei: the source supplies a prefix of the bytes, block by block, and nothing of a block it cannot supply completely.
- Pids, reference counts of buffers and request numbers are unbounded.
- Directories, path names, link counts, symbolic links, inode allocation and the inode cache in kernel/fs.c.
- The layout of the disk by mkfs/mkfs.c beyond the position of the log and the blocks in use.
- exec, system call arguments, console, UART, PLIC, timer, traps, memory fences and the TLB.
- The shell and the other user programs.
