# xv6-riscv in Dafny

A model of the parts of xv6 for RISC-V (with its lottery and stride schedulers) whose
correctness is hardest to see by reading: the crash-safe storage stack, memory, the
sleep/wakeup protocols, the disk driver, the two schedulers, the user heap and the shell's
parser. `dafny verify dfyconfig.toml` checks the whole project with Dafny 4.11.

How it is built:

- Code that works by changing state step by step is a class or a method with loops, proved
  against a function or predicate on values. `panic` is a result value, so that reaching it or
  not is part of the contract.
- Code whose point is interleaving (the log with its buffer cache, sleep and wakeup, wait and
  exit, pipes, the virtqueue, physical memory as a whole) is a state machine: a `Step` or `Op`
  datatype, a guard, a successor function, an inductive invariant, and theorems about every run
  (`Legal`, `After`). Any number of processes may take part.
- Besides safety, the machines with locks state that nobody is stuck (`NobodyStuck`: a process
  can take its next step unless it sleeps or needs a lock that is held), that a process has no
  choice but what others decide (`NextIsForced`), and that nobody keeps a lock (`LetsGo`: a
  measure that each step of the holder lowers, until it returns or sleeps).
- A spinlock's critical section is a sequence of steps of its owner; hardware fences and
  interrupt masking are not modelled.

| files | what they model |
|---|---|
| `common` | types that several modules share |
| `blocks`, `logformat`, `log` | blocks of bytes, the on-disk log header, `kernel/log.c` as a class, crash atomicity of one commit |
| `journal` | log and buffer cache under concurrency: operations, buffers, commit, crashes and recovery as one machine |
| `admission`, `logusers` | the log-space accounting of `begin_op` on every run, and the sleeping and waking of the log's users |
| `fs`, `volume`, `file`, `mkfs` | ownership of blocks, `bmap`, `readi`, `writei`, `itrunc`, `filewrite`, and the image that `mkfs` builds |
| `bio` | the LRU ring and contents of the buffer cache |
| `pagetable`, `vm`, `conservation`, `spaces` | Sv39 trees, the page allocator threaded through free pages, the `uvm*` functions, physical memory as a whole, and the address spaces of processes |
| `umalloc` | the K&R heap |
| `sleep`, `sleeplock`, `waitexit`, `pipe`, `pipeusers` | the sleep/wakeup protocol for the users of one lock, and three of its users |
| `virtio`, `virtqueue`, `diskusers` | descriptor chains, driver and device on the two rings, and the sleeping and waking of requests |
| `stride`, `lottery` | the two schedulers |
| `shell`, `shellgrammar`, `shellprint` | the parser, `nulterminate`, the grammar of command lines on its own, and that the parser reads exactly that |

Results that differ from what the code may be taken to promise, each with a concrete case and
an exact condition:

- `log_write` can panic ("too big a transaction") although every operation stays within
  `MAXOPBLOCKS`: with the log that `mkfs` lays out, it never does exactly if operations log
  fewer than `MAXOPBLOCKS` blocks (`Admission.JournalGuardIff`, `Admission.MkfsJournalGuard`, and
  the run of `Admission.JournalTooBig`). The chunks of `filewrite` log at most 7 there
  (`File.ChunkFitsOperation`, `File.ChunksNeverTooBig`).
- `mkfs` rounds the root directory's size up; the result has a hole exactly if the size was
  already a multiple of the block size (`Mkfs.RoundedHole`), as with 62 files
  (`Mkfs.FullDirectory`).
- A writer that is killed inside `pipewrite` leaves a reader asleep on a non-empty pipe exactly
  if it had stored bytes since its last wakeup and a reader was asleep
  (`PipeUsers.KilledWriterStrands`, `PipeUsers.StrandedRun`).
- `proc_pagetable` succeeds exactly if three pages are free, and the clean-up after its second
  `mappages` is never reached: the trapframe uses the tables of the trampoline
  (`Spaces.Kernel.ProcPagetable`).
- Stride shares follow tickets, for two processes that are always runnable, exactly if both have
  the same `stride * tickets`, that is if rounding `60 / tickets` down costs both the same
  (`Stride.TicketShareIff`). With 60 and 31 tickets both get the same share, which breaks it
  (`Stride.SameStride`, `Stride.SixtyAndThirtyOne`).
- The bound that a process is at most one stride ahead of an always runnable one holds on every
  run exactly if it holds at the start (`Stride.PassGapIff`); a process that joins with a fresh
  pass runs alone until it has caught up (`Stride.CatchesUpFirst`, `Stride.LatecomerRun`).
- A lottery draw matches somebody in every case exactly if no tickets are gone, that is if the
  processes freed since the last recalculation had none; a draw that matches nobody repeats the
  previous choice (`Lottery.AlwaysAWinnerIff`, `Lottery.FreedTicketsDrawn`).
- Negative tickets, which `sys_tickets` accepts, can make ranges overlap: two processes with
  positive tickets have disjoint ranges exactly if the tickets between them do not sum to a small
  negative number (`Lottery.ApartIff`, `Lottery.OverlappingRanges`).

## Model

| member | source | states |
|---|---|---|
| LogFormat.EncodeHeader | kernel/log.c:103-114 | what `write_head` leaves in the header block reads back as exactly the header written, for every list of at most LOGSIZE block numbers and whatever the block held before |
| LogFormat.InstallPointwise | kernel/log.c:69-83 | installing the first t log entries sets exactly the named home blocks to their log copies and changes no other block |
| LogFormat.RecoversTo | kernel/log.c:117-123 | a disk whose log holds the new contents of the logged blocks, and whose other home blocks are already right, is recovered to exactly the wanted home blocks |
| Log.CrashWhileCopying | kernel/log.c:179-191 | a crash during `write_log` loses nothing: recovery restores the home blocks as they were |
| Log.CrashWhileInstalling | kernel/log.c:69-83 | a crash after the header write and during `install_trans` recovers to the whole new contents |
| Log.CommitIsAtomic | kernel/log.c:194-203 | power failing after k of the 2n+2 block writes of a commit: recovery restores exactly the old home blocks for k <= n and exactly the whole new ones for k > n, write n+1 being the header write |
| Log.CommitTraceIsAtomic | kernel/log.c:194-203 | every disk that a crash during `commit` can leave recovers to the old or to the whole new home blocks |
| Log.CommitEnds | kernel/log.c:194-203 | after all of its writes a commit has left the new home blocks and an erased header |
| Log.RecoveryIsRestartable | kernel/log.c:117-123 | recovery cut short after any of its writes leaves a disk that recovers to the same home blocks |
| Log.FirstFinishedRecovery | kernel/log.c:117-123 | however many recoveries are interrupted, and wherever, the first that finishes leaves the same home blocks |
| Log.LogState.BeginOp | kernel/log.c:127-142 | admits an operation exactly if no commit is in progress and `lh.n + (outstanding+1)*MAXOPBLOCKS <= LOGSIZE` |
| Log.LogState.EndOp | kernel/log.c:147-175 | panics exactly if a commit is in progress; the last operation out commits, with what `Commit` states, any other only leaves; its wakeups are those of `LogUsers` |
| Log.LogState.LogWrite | kernel/log.c:215-235 | appends the block unless it is already logged, pins it exactly when it is appended, keeps logged numbers distinct, and panics exactly when the header is full or no operation is open |
| Log.LogState.WriteLog | kernel/log.c:179-191 | copies the cached contents of every logged block into the log area and touches nothing else; its writes are those of the trace |
| Log.LogState.WriteHead | kernel/log.c:103-114 | the header block on disk is the encoding of the in-memory header |
| Log.LogState.InstallTrans | kernel/log.c:69-83 | the disk becomes the installed disk, one block write at a time |
| Log.LogState.ReadHead | kernel/log.c:87-97 | the in-memory header is the decoding of the header block |
| Log.LogState.Commit | kernel/log.c:194-203 | the sequence of disks it goes through is exactly the commit trace that crash atomicity is proved of; at the end every home block has its new contents, the others are as before, and the header on disk reads back as empty |
| Log.LogState.RecoverFromLog | kernel/log.c:117-123 | the sequence of disks is the recovery trace, ending with every logged block installed and a header on disk that reads back as empty |
| Journal.RunKeeps | kernel/log.c:69-235 | every state reachable by any interleaving of operations, buffer-cache steps, commits, crashes and recoveries meets the invariant tying disk, log, cache and operations together |
| Journal.RecoveryRestores | kernel/log.c:117-123 | in any such state, a recovery left to finish gives every home block the contents of the committed writes |
| Journal.CrashAtomicity | kernel/log.c:194-203 | after any run with any crashes, finishing recovery yields exactly the committed `log_write`s replayed in order, and no operation has some writes committed and others lost |
| Journal.OnlyHeaderWriteCommits | kernel/log.c:194-203 | no step but the header write changes what recovery would restore |
| Journal.CrashGoesBackToQuiet | kernel/log.c:147-203 | what a crash restores is the state of an earlier moment of the run at which no operation was in progress |
| Journal.CrashPreserves | kernel/log.c:117-123 | any property of the home blocks that holds whenever no operation is in progress holds again after every crash and recovery |
| Journal.CommitsAreForever | kernel/log.c:194-203 | what is committed at one point of a run is a prefix of what is committed at every later point |
| Journal.GroupCommit | kernel/log.c:127-203 | on every run `committing` implies `outstanding == 0` and no operation open, so `end_op`'s panic is unreachable, and while the log is being written each logged block's cached contents are the latest logged ones |
| Journal.LoggedBlocksPinnedOnce | kernel/log.c:215-235 | each logged and not yet installed block is cached with exactly one pin |
| Journal.BufferLeftIff | kernel/bio.c:59-90 | with NBUF buffers, on every run and during commits: `bget` finds a buffer to recycle if and only if processes hold fewer buffers beyond those of logged blocks than these leave; always so if no process holds one and the log is no larger than the cache |
| Journal.SomeBufferRecycles | kernel/bio.c:59-90 | when as many buffers as there are hold blocks and fewer are busy, one can be recycled, which leaves the others |
| Journal.ReadsAreCurrent | kernel/bio.c:93-103 | a process that has locked a buffer it has not changed sees the latest logged contents of the block |
| Journal.ValidStays | kernel/bio.c:93-103 | on every run a block that is cached with valid contents stays so until its buffer is recycled, or the power fails; installing it does not make it stale |
| Journal.QuietMeansDurable | kernel/log.c:147-175 | with no operation and no commit in progress, everything logged and not lost in a crash is on the home blocks |
| Journal.RecoveryProgress | kernel/log.c:117-123 | before recovery has finished its next step is always possible |
| Journal.CrashRecovers | kernel/log.c:117-123 | the power can fail at any moment of any run, and recovery, left alone, then comes to its end, with the contents of the committed writes on every home block and an empty log |
| Journal.CommitProgress | kernel/log.c:147-203 | during a commit the next step is always possible, but for a block that a process has locked; a commit that writes has something to write |
| Journal.WriteReachesDisk | kernel/log.c:194-235 | for every device, home block and contents there is a run in which one operation logs the block and the finished commit leaves it there |
| Journal.SomeConfig | kernel/log.c:55-65 | there is a device with a log to which these theorems apply |
| Admission.LogBudget | kernel/log.c:127-142 | if no operation logs more than k <= MAXOPBLOCKS distinct blocks, admission keeps `lh.n` at most LOGSIZE - 2*MAXOPBLOCKS + 2k, hence at most LOGSIZE, on every run |
| Admission.AdmissionRoom | kernel/log.c:127-142 | the admission test leaves room for at most two other operations |
| Admission.PeakReached | kernel/log.c:127-142 | the bound is reached: every header length up to it occurs at a `log_write` call of an operation within its budget, before the first commit and with blocks from anywhere |
| Admission.GuardNeverFiresIff | kernel/log.c:215-235 | no run trips `log_write`'s guard if and only if the peak is below both LOGSIZE and size - 1 |
| Admission.MkfsGuard | mkfs/mkfs.c:25 | for the log size that `mkfs` writes, the guard never fires if and only if operations log fewer than MAXOPBLOCKS blocks |
| Admission.JournalNeverTooBig | kernel/log.c:215-235 | runs of the full journal machine project onto this accounting, so with operations below MAXOPBLOCKS blocks it never stops in `log_write` |
| Admission.Lift | kernel/log.c:127-235 | runs of the accounting up to the first commit, within the guard, are runs of the full journal machine |
| Admission.JournalGuardIff | kernel/log.c:215-235 | on the full journal machine, with crashes and commits: no process ever calls `log_write` with a header that makes it panic if and only if the peak is below both LOGSIZE and size - 1 |
| Admission.JournalTooBig | kernel/log.c:215-235 | where it is not, a run that ends in such a call |
| Admission.MkfsJournalGuard | mkfs/mkfs.c:25 | for a device as `mkfs` lays it out, that is so if and only if operations log fewer than MAXOPBLOCKS blocks |
| LogUsers.RunKeeps | kernel/log.c:127-235 | every run of any number of processes in `begin_op`, `log_write` and `end_op`, with the lock given up during the commit, keeps the invariant |
| LogUsers.SleepersHaveReason | kernel/log.c:127-142 | with `log.lock` free, a process sleeps in `begin_op` only if a commit is in progress or there is no room: the two wakeups of `end_op` lose none |
| LogUsers.CanGoOn | kernel/log.c:147-175 | so a process in `begin_op` that may begin can be run |
| LogUsers.NoPanics | kernel/log.c:147-175 | on every run `end_op` finds no commit in progress and `log_write` an operation outstanding; at most one process commits, and nobody is in an operation then |
| LogUsers.CommitHasCommitter | kernel/log.c:147-175 | on every run a commit in progress is some process's |
| LogUsers.NobodyStuck | kernel/log.c:127-175 | on every run a process in `begin_op`, `end_op` or an operation can take its next step, unless it sleeps, or a lock it needs is held, and it has no choice which, except to log blocks |
| LogUsers.LetsGo | kernel/log.c:127-235 | on every run each step that a process makes while it holds `log.lock` brings it closer to letting go of it, to return, to commit or to sleep |
| LogUsers.LeftKept | kernel/log.c:127-235 | what others do meanwhile does not take it further away |
| FileSystem.ExactlyOneOwner | kernel/fs.c:65-103 | in an owned file system every marked data block is held by exactly one direct slot, indirect entry or indirect pointer of one inode, and every unmarked one by none |
| FileSystem.AllocSlotKeeps | kernel/fs.c:378-405 | `bmap`'s allocation of a slot takes ownership of a free block, keeps every other slot, and changes no file's contents |
| FileSystem.UnownedWrite | kernel/fs.c:378-405 | writing only blocks that no inode owns changes no slot and no file |
| FileSystem.DataWriteKeeps | kernel/fs.c:487-517 | writing a file's data block keeps ownership and changes the contents of that file block only |
| Volume.Volume.Balloc | kernel/fs.c:65-86 | hands out the lowest free block, marked and zeroed, and panics exactly if every block is in use |
| Volume.Volume.Bfree | kernel/fs.c:90-103 | clears exactly one bit, and panics exactly if the block is already free |
| Volume.Volume.Bmap | kernel/fs.c:378-405 | returns the block of a file block, allocating direct, indirect and entry slots as needed, one free block for each that is empty; no file's contents change; it panics exactly past MAXFILE or if there are fewer free blocks than it needs; it logs every block it changes and at most the blocks needed |
| Volume.Volume.ReadI | kernel/fs.c:456-477 | returns exactly the bytes [off, off+n) of the file, cut at its size, or -1 exactly if they cannot all be copied out; from a file without holes it changes nothing; otherwise it takes one free block for each hole it reads, panics only if there are too few, and no file's contents change |
| Volume.Volume.WriteI | kernel/fs.c:487-517 | fails with -1 and no change exactly if off is past the end, off+n wraps or exceeds the largest file; otherwise it panics exactly if there are fewer free blocks than empty slots under the write; if not, it takes one block for each, the file is its old bytes with the new ones spliced in at off, every other file is the same, files without holes stay so, every block that has changed is logged, and the blocks logged are within a budget of data, indirect, inode and bit map blocks |
| Volume.TookWhatItNeeds | kernel/fs.c:378-405 | when slots of an inode have been filled for a write, the number of free blocks has gone down by exactly the number of these slots that were empty |
| Volume.MissingSplit | kernel/fs.c:378-405 | what two writes need together is what the first needs and what the second then still lacks |
| Volume.OverwriteIsSplice | kernel/fs.c:487-517 | bytes overwritten at off <= size with the size grown to cover them are the old byte sequence spliced |
| Volume.Volume.Itrunc | kernel/fs.c:410-437 | never panics, frees exactly the blocks the inode held, once each, leaves every other file alone, and logs every block that has changed |
| Volume.FreedAll | kernel/fs.c:410-437 | with all slots of an inode freed and cleared, ownership holds without them |
| File.ChunkFitsOperation | kernel/file.c:149-156 | one chunk of `filewrite`, however it is aligned, logs at most MAXOPBLOCKS distinct blocks, and at most 7 where one bit map block covers the device |
| File.ChunksNeverTooBig | kernel/file.c:149-156 | so on such a device, as `mkfs` builds it, runs of such operations never make `log_write` panic |
| File.OwnedAfterCrash | kernel/log.c:117-123 | if every block belongs to one place whenever no operation is in progress, it does again after every crash and recovery, however the file system is read off the blocks |
| File.FileHandle.FileWrite | kernel/file.c:135-181 | on success, which is exactly if all of it fits, the data is in the file at the old offset and the offset is past it; otherwise -1 after exactly the whole chunks that fit; it panics exactly if there are fewer free blocks than that needs; one operation for each chunk, which together log every block that has changed; on a file without holes none logs more than its budget |
| File.FileHandle.WriteChunk | kernel/file.c:158-173 | one chunk is written in one operation: it fails, with no change, exactly if it does not fit, and panics exactly if there are too few free blocks |
| Mkfs.Image.constructor | mkfs/mkfs.c:69-110 | the empty image satisfies the image invariant |
| Mkfs.Image.IAlloc | mkfs/mkfs.c:221-232 | the next inode, holding the empty file |
| Mkfs.Image.IAppend | mkfs/mkfs.c:253-294 | the file grows by exactly the data, no other file changes, and the invariant (no holes, every handed-out block in one slot) is kept |
| Mkfs.Image.RoundRoot | mkfs/mkfs.c:163-168 | the rounded root directory has no hole if and only if its size was not a multiple of BSIZE |
| Mkfs.RoundedHole | mkfs/mkfs.c:163-168 | the same as a fact about file systems |
| Mkfs.Image.WriteBitmap | mkfs/mkfs.c:235-248 | the bit map block has exactly the first used bits set; stops exactly if one block does not suffice |
| Mkfs.Image.Finish | mkfs/mkfs.c:163-173 | the finished image satisfies the ownership invariant of the kernel's file system |
| Mkfs.MakeDirectory | mkfs/mkfs.c:69-173 | with any entries for the root directory and empty files: the finished image is owned, and the root directory has a hole if and only if the entries fill whole blocks |
| Mkfs.FullDirectory | mkfs/mkfs.c:163-168 | with 64 entries it has a hole |
| Mkfs.BitmapDone | mkfs/mkfs.c:235-248 | marking exactly the blocks handed out makes the bit map agree with ownership |
| Bio.UnlinkKeeps | kernel/bio.c:117-137 | the two unlinking assignments turn a doubly linked ring into the ring without the buffer |
| Bio.PushFrontKeeps | kernel/bio.c:37-53 | the four linking assignments put a buffer right behind the head |
| Bio.MoveKeeps | kernel/bio.c:117-137 | `brelse`'s six assignments keep the ring a permutation of all buffers, with the released one first |
| Bio.MoveByAge | kernel/bio.c:117-137 | the ring stays ordered by time of last release |
| Bio.RecycleKeepsView | kernel/bio.c:59-89 | giving an unused buffer to another block changes what no client sees of any block |
| Bio.Cache.constructor | kernel/bio.c:37-53 | `binit` builds a ring of all buffers, unused |
| Bio.Cache.Bget | kernel/bio.c:59-89 | one more reference to the block's only buffer, or else the unused buffer whose last release is oldest, emptied; panics exactly if the block is not cached and no buffer is unused; no client sees a difference |
| Bio.Cache.Bread | kernel/bio.c:93-103 | the locked buffer holds the block as every client sees it, and no view changes |
| Bio.Cache.Bwrite | kernel/bio.c:107-112 | panics exactly without the lock; the disk block becomes what every client already saw |
| Bio.Cache.Brelse | kernel/bio.c:117-137 | panics exactly without the lock; the last reference moves the buffer to the front; no view changes |
| Bio.Cache.Bpin | kernel/bio.c:140-144 | one more reference and nothing else |
| Bio.Cache.Bunpin | kernel/bio.c:147-151 | one reference less and nothing else |
| PageTable.PteRoundTrip | kernel/riscv.h:338-352 | page number and flags survive the trip through an entry, and the valid bit is the flags' |
| PageTable.IndicesInjective | kernel/riscv.h:354-363 | below MAXVA the three 9-bit indices determine the page |
| PageTable.TranslateIsLookup | kernel/vm.c:81-98 | for a well-formed tree the hardware's three loads find exactly the tree's leaf entry |
| PageTable.AddMidKeeps | kernel/vm.c:81-98 | linking an empty middle table changes no translation |
| PageTable.AddLowKeeps | kernel/vm.c:81-98 | linking an empty last-level table changes no translation |
| PageTable.SetLeafKeeps | kernel/vm.c:138-187 | writing a leaf entry changes the translation of its page and of no other |
| Vm.Memory.constructor | kernel/kalloc.c:27-31 | after `kinit` exactly the pages from the end of the kernel on are free |
| Vm.Memory.Freerange | kernel/kalloc.c:34-40 | frees exactly those pages and writes no kernel page |
| Vm.Memory.Kalloc | kernel/kalloc.c:69-82 | takes the first page of the list threaded through the free pages and fills it with junk; 0 exactly if the list is empty |
| Vm.Memory.Kfree | kernel/kalloc.c:47-63 | panics exactly outside the managed range; otherwise the page, filled with junk, is first in the list, and no other page is written |
| Vm.Memory.Uvmcreate | kernel/vm.c:192-200 | an empty page table on a zeroed page, or 0 if there is no page |
| Vm.Memory.Walk | kernel/vm.c:81-98 | finds the leaf slot; with alloc it adds exactly the zeroed tables that the page lacks, and fails exactly if there are fewer free pages, all it took being owned by the tree even then; no translation changes; without alloc nothing changes; panics exactly from MAXVA on |
| Vm.Memory.MapPages | kernel/vm.c:138-160 | adds exactly the pages of [va, va+size), mapped to consecutive physical pages, and exactly the tables they lack; -1, with a prefix of them mapped, exactly if there are fewer free pages than these tables; every other translation is the same; panics exactly on size 0, a mapped page, or a page past MAXVA |
| Vm.NeedMore | kernel/vm.c:81-98 | the tables that n + 1 pages need are those that n pages need and those that the next page lacks once these are there |
| Vm.Memory.Uvmunmap | kernel/vm.c:166-187 | removes exactly the requested mappings and, if asked, frees exactly their pages once each; panics exactly if va is unaligned or a page is missing or not a leaf |
| Vm.Memory.Uvmdealloc | kernel/vm.c:251-262 | unmaps and frees exactly the pages between the two rounded sizes |
| Vm.Memory.Uvmalloc | kernel/vm.c:221-244 | succeeds if and only if there are free pages for the new pages and for the tables that the tree lacks for them, and takes exactly that many; on success exactly the new pages are mapped, each to a zeroed page of its own; on failure no translation has changed and every user page is free again |
| Vm.Memory.Uvmcopy | kernel/vm.c:301-328 | succeeds if and only if every page of the parent is mapped and there are free pages for the copies and for the tables that the child lacks, and takes exactly that many; on success the child maps pages of its own with the parent's flags and bytes; on failure it maps nothing new and gives its pages back; the parent's translations are the same |
| Vm.Memory.Freewalk | kernel/vm.c:267-282 | frees exactly the tables of the subtree, once each, writing no other page; panics exactly if a mapping is left below |
| Vm.Memory.Uvmfree | kernel/vm.c:287-292 | frees exactly the user pages below sz and the table pages; panics exactly if a page below sz is missing or not a leaf, or one at or above sz is mapped |
| Vm.UndoExtended | kernel/vm.c:325-327 | unmapping and freeing what was added restores every translation and every user page |
| Vm.NothingLeaks | kernel/vm.c:287-292 | whatever was built on a new root table and then destroyed, exactly the pages that were free before, and the root, are free again |
| Conservation.StepKeeps | kernel/vm.c:192-328 | creating, growing, copying, shrinking and destroying an address space, and mapping and unmapping trampoline and trapframe, keep each page in exactly one place and every address space mapped exactly as recorded |
| Conservation.RunKeeps | kernel/kalloc.c:27-82 | on every run of any number of processes each page is on the free list, in exactly one address space, or with another user of `kalloc` |
| Conservation.NothingLost | kernel/kalloc.c:27-82 | when the last address space and the last other user are gone, every page is free again |
| Conservation.Isolation | kernel/vm.c:192-328 | work on one address space changes no byte, no owner and no mapping of any other address space, and no page of another user of `kalloc` |
| Conservation.ComeAndGone | kernel/proc.c:213-251 | an address space that has come and gone leaves the free pages, the owners and the other address spaces as they were |
| Spaces.Kernel.constructor | kernel/kalloc.c:27-31 | after `kinit` the state of physical memory is the one that runs start from |
| Spaces.Kernel.Create | kernel/vm.c:192-200 | `uvmcreate` takes the creating step, or changes nothing, exactly if there is no free page |
| Spaces.Kernel.Grow | kernel/vm.c:221-244 | the invariant gives `uvmalloc` what it needs; it takes the growing step, and the space has pages for the new size exactly if there are free pages for the new pages and the tables they lack, and for the old size otherwise |
| Spaces.Kernel.Shrink | kernel/vm.c:251-262 | the invariant gives `uvmdealloc` what it needs; it never panics and takes the shrinking step |
| Spaces.Kernel.Copy | kernel/proc.c:327-331 | the same for `uvmcopy` into a new address space, with the same exact condition; on success with the parent's flags and bytes |
| Spaces.Kernel.MapHigh | kernel/proc.c:226-239 | mapping one page above the user memory never panics and takes the mapping step; it succeeds exactly if there are free pages for the tables that the page lacks |
| Spaces.Kernel.UnmapHigh | kernel/proc.c:248-249 | unmapping it never panics and takes the unmapping step |
| Spaces.Kernel.Destroy | kernel/vm.c:287-292 | with nothing left above the user memory `uvmfree` never panics and takes the destroying step |
| Spaces.Kernel.Take | kernel/kalloc.c:69-82 | `kalloc` for anything else takes the step that hands a page to another user, or changes nothing, exactly if there is no free page |
| Spaces.Kernel.Give | kernel/kalloc.c:47-63 | `kfree` of such a page never panics and takes the step that gives it back |
| Spaces.Kernel.GrowProc | kernel/proc.c:295-311 | the process ends up with pages for exactly its size; a request that leaves the range of unsigned int does nothing and is no failure; it fails exactly if it would grow and there are too few free pages, and then nothing changes; nothing outside the address space changes |
| Spaces.Kernel.ProcPagetable | kernel/proc.c:213-242 | an address space with exactly the trampoline and the trapframe mapped, or 0: it takes exactly three pages, and with fewer free exactly the same pages are free as before; its last clean-up is never reached |
| Spaces.Kernel.ProcFreePagetable | kernel/proc.c:246-251 | exactly the pages of the address space become free, and nothing outside it changes |
| Umalloc.InsertKeeps | user/umalloc.c:25-44 | inserting a freed block keeps the free list sorted and fully coalesced |
| Umalloc.InsertUnits | user/umalloc.c:25-44 | freeing a block adds exactly its units to the free ones |
| Umalloc.CarveUnits | user/umalloc.c:64-90 | allocating takes exactly n units from the end of one free block |
| Umalloc.SearchTest | user/umalloc.c:31-33 | `free`'s loop test succeeds exactly at the block's one place in the circular list |
| Umalloc.RelinkInserts | user/umalloc.c:34-43 | `free`'s field updates turn the linked list into the linked list with the block inserted |
| Umalloc.ExactlyOneBlock | user/umalloc.c:25-90 | every unit obtained from `sbrk` is in exactly one free or one live block |
| Umalloc.Heap.Free | user/umalloc.c:25-44 | the search ends, the block is free and merged with its neighbours, and no other live block changes |
| Umalloc.Heap.Morecore | user/umalloc.c:47-61 | exactly the larger of the units asked for and 4096 are obtained and free; 0 exactly if `sbrk` fails |
| Umalloc.Heap.Malloc | user/umalloc.c:64-90 | the search ends; it takes the end of the first block, from `freep` on, that is large enough; only if none is, it calls `morecore`, once; a block of enough units that was not live; fails only if `sbrk` does and no free block suffices |
| Umalloc.Units | user/umalloc.c:69 | the least number of header-sized units that hold the request and a header |
| Sleep.StepKeepsKernel | kernel/proc.c:655-699 | every step of sleep, wakeup, kill and the scheduler keeps locks, fields and the progress of a wakeup consistent |
| Sleep.StepWaits | kernel/proc.c:655-681 | no step makes a process wait except the one in which it lets go of the lock to sleep |
| Sleep.WakeNextPasses | kernel/proc.c:686-699 | a process that wakeup's loop has looked at does not wait on the channel |
| Sleep.StepKeepsNoLost | kernel/proc.c:655-699 | if sleep is only called with good reason, whoever waits has reason to or a wakeup is on its way |
| Sleep.WriteKeepsNoLost | kernel/proc.c:655-699 | the lock's holder may change the condition if it owes, or has just done, the wakeup |
| Sleep.FreeMeansNoLost | kernel/proc.c:655-699 | with the lock free everybody who waits has reason to |
| Sleep.GoesOn | kernel/proc.c:655-699 | a process inside sleep, wakeup or the end of exit can take its next step, unless nobody has made it runnable or a lock it needs is held |
| Sleep.HoldersGoOn | kernel/proc.c:655-699 | whoever holds a process's lock, or the users' lock outside of wakeup, is not held up itself |
| Sleep.ProtocolLetsGo | kernel/proc.c:655-699 | each step inside sleep, wakeup or the end of exit, with the users' lock held, brings the process closer to letting go of it; in particular wakeup comes to its end |
| Sleep.OthersUntouched | kernel/proc.c:655-699 | no step touches another process, except that wakeup makes those that sleep on its channel runnable |
| Sleep.WokenCanRun | kernel/proc.c:686-720 | a process that sleeps on the channel when wakeup comes by, or is killed whatever it sleeps on, can be run |
| SleepLock.RunKeeps | kernel/sleeplock.c:22-41 | every run of any number of processes keeps the lock's invariant |
| SleepLock.MutualExclusion | kernel/sleeplock.c:22-41 | at most one process holds the sleep-lock, and only while `locked` is set |
| SleepLock.NoLostWakeup | kernel/sleeplock.c:22-41 | with the inner lock free and `locked == 0`, no process sleeps on the lock or is committed to |
| SleepLock.WaiterCanProceed | kernel/sleeplock.c:22-31 | then every process in `acquiresleep` can be run or can take the inner lock |
| SleepLock.NobodyStuck | kernel/sleeplock.c:22-41 | on every run a process can take its next step, unless it sleeps, or the inner lock is held, and it has no choice which |
| SleepLock.LetsGo | kernel/sleeplock.c:22-41 | on every run each step that a process makes while it holds the inner lock brings it closer to letting go of it, to return or to sleep |
| SleepLock.HoldingSleepExact | kernel/sleeplock.c:44-52 | `holdingsleep` is true exactly for the holder |
| WaitExit.RunKeeps | kernel/proc.c:315-470 | every run of fork, exit, reparent and wait by any number of processes keeps the invariant |
| WaitExit.ParentsAreAlive | kernel/proc.c:366-421 | every parent pointer names a process that is neither UNUSED nor ZOMBIE, and every process but init has one |
| WaitExit.NoZombieUnseen | kernel/proc.c:426-470 | with `wait_lock` free, no process asleep in `wait`, or about to be, has a ZOMBIE child |
| WaitExit.ReapedOnce | kernel/proc.c:426-470 | no incarnation of a process is freed by `wait` twice |
| WaitExit.ReapedByParent | kernel/proc.c:426-470 | `wait` frees only a ZOMBIE child of its caller, after the child has left its kernel stack for good |
| WaitExit.WaitGivesUp | kernel/proc.c:426-470 | on every run a scan that found nothing to free ends with -1 if and only if the process was killed or no process has it as parent; otherwise the process goes to sleep on its own address |
| WaitExit.WaitReturns | kernel/proc.c:426-470 | on every run a process about to return from `wait` has in this call freed the ZOMBIE child whose pid it returns; or it returns -1 and has in this call failed to copy the status of a ZOMBIE child, or ended a scan killed, or ended a scan when it had no child |
| WaitExit.NobodyStuck | kernel/proc.c:315-470 | on every run a process in fork, exit or wait can take its next step, unless it sleeps, or a lock it needs is held |
| WaitExit.NextIsForced | kernel/proc.c:315-470 | it has no choice what to do next, but for whether a copy fails and whether it is killed |
| WaitExit.LetsGo | kernel/proc.c:366-470 | on every run each step that a process makes while it holds `wait_lock` brings it closer to letting go of it, to return, to exit or to sleep: no scan and no reparenting goes on for ever |
| WaitExit.LeftKept | kernel/proc.c:366-470 | what other processes do meanwhile does not take it further away |
| Pipe.Counters | kernel/pipe.c:77-130 | the wrapped 32-bit counters tell empty from full, for any number of bytes written |
| Pipe.SlotOfCounter | kernel/pipe.c:77-130 | because PIPESIZE divides 2^32 a wrapped counter finds the same slot |
| Pipe.PushKeeps | kernel/pipe.c:77-103 | a byte stored in a pipe that is not full joins the end of the bytes written |
| Pipe.PopKeeps | kernel/pipe.c:106-130 | the byte removed is the oldest one not taken |
| Pipe.Buffer.CopyIn | kernel/pipe.c:77-103 | stores, in order, as many bytes as fit and can be copied in |
| Pipe.Buffer.CopyOut | kernel/pipe.c:106-130 | removes and returns the oldest bytes, at most n; if copying out fails, exactly one more byte has left the pipe |
| PipeUsers.RunKeeps | kernel/pipe.c:59-130 | every run of any number of readers, writers and closers keeps the invariant |
| PipeUsers.Fifo | kernel/pipe.c:77-130 | on every run the bytes taken are a prefix of the bytes written, at most PIPESIZE lie in between, and without a failed copyout readers get exactly the bytes taken |
| PipeUsers.WriterSleeps | kernel/pipe.c:77-103 | with the lock free, a writer sleeps only if the pipe is full and its read end open |
| PipeUsers.ReaderSleeps | kernel/pipe.c:106-130 | with the lock free, a reader sleeps only if the pipe is empty and its write end open, or a killed writer left bytes without a wakeup |
| PipeUsers.WriterCall | kernel/pipe.c:77-103 | on every run a process in `pipewrite` has stored, in this call, exactly the first n bytes of what it was given, in order |
| PipeUsers.WriteReturns | kernel/pipe.c:77-103 | it returns how many it has stored: all of them, or fewer only with room in the pipe and its read end open, so after a failed copyin; with -1 it has stored fewer than all |
| PipeUsers.ReaderCall | kernel/pipe.c:106-130 | on every run a process in `piperead` has got, in this call, as many bytes as it counts, no more than it asked for, and they are the last that the pipe gave |
| PipeUsers.ReadReturns | kernel/pipe.c:106-130 | it returns that number: all it asked for, or the pipe is empty, or a copyout of this call failed; nothing only if the write end is closed |
| PipeUsers.NobodyStuck | kernel/pipe.c:59-130 | on every run a process in one of the three functions can take its next step, unless it sleeps, or a lock it needs is held |
| PipeUsers.NextIsForced | kernel/pipe.c:59-130 | it has no choice what to do next, but for whether a copy fails and whether it is killed |
| PipeUsers.LetsGo | kernel/pipe.c:59-130 | on every run each step that a process makes while it holds the pipe's lock brings it closer to letting go of it, to return or to sleep |
| PipeUsers.LeftKept | kernel/pipe.c:59-130 | what others do meanwhile does not take it further away |
| PipeUsers.DroppedOnlyByForget | kernel/pipe.c:84-87 | the second case arises if and only if a writer returned early while it owed the readers a wakeup, and none has woken them since |
| PipeUsers.KilledWriterStrands | kernel/pipe.c:84-87 | an early return leaves a reader asleep on a non-empty pipe if and only if bytes were stored since the last wakeup and a reader is asleep |
| PipeUsers.StrandedRun | kernel/pipe.c:84-87 | a run in which that happens |
| PipeUsers.FreedOnce | kernel/pipe.c:59-74 | the pipe is freed at most once, with both ends closed, and nobody uses it afterwards |
| Virtio.FirstFree | kernel/virtio_disk.c:145-154 | the lowest free descriptor, or none exactly if none is free |
| Virtio.Table.AllocDesc | kernel/virtio_disk.c:145-154 | takes the lowest free descriptor, or returns -1 and changes nothing |
| Virtio.Table.FreeDesc | kernel/virtio_disk.c:158-170 | panics exactly if the index is out of range or the descriptor is free; otherwise clears and frees it |
| Virtio.Table.FreeChain | kernel/virtio_disk.c:174-185 | frees exactly the descriptors of a chain, of any length, without reaching a panic |
| Virtio.Table.Alloc3Desc | kernel/virtio_disk.c:190-201 | three different free descriptors, or -1 with nothing taken exactly if fewer are free |
| Virtqueue.RunKeeps | kernel/virtio_disk.c:204-315 | every run of requests, device fetches and completions in any order, interrupts and returns keeps the invariant |
| Virtqueue.DescriptorsPartitioned | kernel/virtio_disk.c:204-280 | on every run each descriptor is free or one of the three of exactly one chain in flight |
| Virtqueue.DeviceReadsRequest | kernel/virtio_disk.c:215-259 | what the device reads at its avail index is the complete chain of the oldest request it has not fetched, with that request's header, buffer and direction |
| Virtqueue.CompletionClearsItsBuffer | kernel/virtio_disk.c:283-315 | each completion clears `disk` of exactly the buffer that posted the head, and the handler panics exactly if the device reported a failure |
| Virtqueue.FinishFreesChain | kernel/virtio_disk.c:268-279 | when its buffer is clear, a request's chain meets what `free_chain` needs, so its panics are unreachable; exactly its three descriptors are freed, and its entry names no buffer any more |
| Virtqueue.WrappedIndices | kernel/virtio_disk.c:283-315 | the wrapped 16-bit indices differ exactly if there is something to fetch or to look at |
| Virtqueue.AvailRoom | kernel/virtio_disk.c:249-259 | fewer than NUM requests are posted and not fetched, so a new head overwrites none |
| Virtqueue.NothingStuck | kernel/virtio_disk.c:204-315 | on every run each request in flight can be moved on when it is its turn: posted, fetched, completed with any status, looked at unless the device reported a failure, and given back |
| Virtqueue.CanPrepare | kernel/virtio_disk.c:204-259 | any three free descriptors will do for a buffer that has no request in flight |
| DiskUsers.RunKeeps | kernel/virtio_disk.c:204-315 | every run of any number of requests and interrupt handlers under `vdisk_lock`, with the device acting at any time, keeps the invariant; the queue takes only the steps of `Virtqueue` |
| DiskUsers.SleepersHaveReason | kernel/virtio_disk.c:204-280 | with the lock free, a process sleeps on `disk.free[0]` only if fewer than three descriptors are free, and on its buffer only if `b->disk` is set |
| DiskUsers.CanGoOn | kernel/virtio_disk.c:204-315 | so a process whose request has completed, or whose descriptors are free, can be run |
| DiskUsers.RequestServed | kernel/virtio_disk.c:204-280 | on every run, when `virtio_disk_rw` goes on to give its descriptors back, they are the chain of the buffer and request it was called for, and the device has completed that request, without failure, since the call |
| DiskUsers.NobodyStuck | kernel/virtio_disk.c:204-315 | on every run a process in the two functions can take its next step, unless it sleeps, a lock it needs is held, its buffer has another request in flight, or the device reported a failure; it goes to sleep only for lack of descriptors or while its request is in flight |
| DiskUsers.NextIsForced | kernel/virtio_disk.c:174-315 | it has no choice what to do next, but for which free descriptors it takes and how many it gives back when they are too few |
| DiskUsers.DeviceCanAct | kernel/virtio_disk.c:249-259 | the driver does not hold up the device: it can fetch the oldest posted request and complete any that it has fetched |
| DiskUsers.LetsGo | kernel/virtio_disk.c:174-315 | on every run each step that a process makes while it holds `vdisk_lock` brings it closer to letting go of it, to return or to sleep; the handler's loop ends although the device goes on completing requests |
| DiskUsers.LeftKept | kernel/virtio_disk.c:174-315 | what the device and other processes do meanwhile does not take it further away |
| Stride.Table.FindMinStride | kernel/proc.c:957-988 | none exactly if no process is RUNNABLE; otherwise the first with the smallest pass among the runnable processes with tickets and the first runnable one, whatever it has |
| Stride.MinIsUnique | kernel/proc.c:957-988 | that determines the process |
| Stride.Table.Schedule | kernel/proc.c:496-523 | the chosen process runs and its pass grows by its stride; with no process nothing changes; it divides by zero exactly if the chosen process has no tickets |
| Stride.PassCounts | kernel/proc.c:496-523 | on every run the pass of a process that keeps its tickets is its first one plus a stride for each of its rounds, which `schedCnt` counts |
| Stride.PassGap | kernel/proc.c:496-523 | from any start, on every run: `pass_i - pass_j` is at most `stride_i` or what it was at the start, for an always runnable j, whatever the other processes do |
| Stride.PassGapIff | kernel/proc.c:496-523 | the bound `stride_i` holds on every such run if and only if it holds at the start |
| Stride.FairShare | kernel/proc.c:496-523 | from any start: `n_i * stride_i <= n_j * stride_j` plus the head start that the first passes give |
| Stride.FreshShare | kernel/proc.c:872-888 | with both passes fresh: `n_i * stride_i <= (n_j + 1) * stride_j` |
| Stride.NoStarvation | kernel/proc.c:496-523 | if the processes that run keep 1 to 60 tickets, n rounds give an always runnable process at least about n / (60 * processes) of them, once the others' head start is used up |
| Stride.StarvedByResets | kernel/proc.c:872-888 | a process that sets its tickets again after each round starves one with a larger pass for any number of rounds |
| Stride.TicketShare | kernel/proc.c:872-888 | with fresh passes and `stride_j * tickets_j <= stride_i * tickets_i`: `n_i * tickets_j <= (n_j + 1) * tickets_i` on every run with j always runnable |
| Stride.ShareExceeded | kernel/proc.c:872-888 | otherwise a run with both always runnable breaks that |
| Stride.TicketShareIff | kernel/proc.c:872-888 | so it holds on every run if and only if that condition holds, and both ways if and only if the two products are equal |
| Stride.WeightOf | kernel/proc.c:872-888 | `stride * tickets` is 60 less the remainder of 60 by the tickets |
| Stride.SameStride | kernel/proc.c:872-888 | with 60 and with 31 tickets two processes get the same number of rounds, give or take one |
| Stride.SixtyAndThirtyOne | kernel/proc.c:872-888 | a run of two such processes that breaks the share by tickets |
| Stride.CatchesUpFirst | kernel/proc.c:872-888 | before j gets a round, an always runnable i has caught up with the pass that j started with |
| Stride.LatecomerRunsAlone | kernel/proc.c:872-888 | a process that joins while all others that run are k of its strides ahead gets all of the next k rounds |
| Stride.LatecomerRun | kernel/proc.c:872-888 | a run of 99 rounds that all go to the process that joined last |
| Lottery.Table.CalculateProcsTicket | kernel/proc.c:902-917 | consecutive ranges in table order, and the total |
| Lottery.Table.SetProcTickets | kernel/proc.c:872-888 | the tickets are set and all ranges made afresh |
| Lottery.Table.FindWinner | kernel/proc.c:524-547 | the first process whose range, as unsigned numbers, holds the draw; if there is none, the previous choice, or the null pointer if there was none either; the remainder by zero exactly if the total is zero |
| Lottery.Table.FreeProc | kernel/proc.c:189-208 | from a state that meets the invariant, the freed process's tickets count as gone: disjoint ranges and `total = live + gone` are kept |
| Lottery.RecalculationOk | kernel/proc.c:902-917 | after a recalculation live ranges are disjoint, as long as their tickets, within 1..total |
| Lottery.RunKeeps | kernel/proc.c:872-917 | on every run, with any tickets: the ranges are those of the last recalculation less the processes freed since, and `total_tickets` is live tickets plus those gone; unless tickets were negative then, live ranges are disjoint and within 1..total |
| Lottery.WinsItsTickets | kernel/proc.c:524-547 | a process with t tickets wins exactly t of the draws |
| Lottery.OneWinner | kernel/proc.c:524-547 | a draw has at most one winner |
| Lottery.EveryDrawWins | kernel/proc.c:902-917 | right after a recalculation every draw in 1..total has exactly one winner |
| Lottery.UnmatchedDraws | kernel/proc.c:524-547 | the draws that match nobody number exactly the tickets of processes freed since |
| Lottery.AlwaysAWinnerIff | kernel/proc.c:524-547 | every draw matches somebody if and only if no tickets are gone |
| Lottery.FreedTicketsDrawn | kernel/proc.c:189-208 | a run, two processes made and one freed, after which half of the draws match nobody |
| Lottery.ApartIff | kernel/proc.c:902-917 | after a recalculation with any tickets: two ranges of positive length are disjoint if and only if the tickets between them sum to no negative number, or to one that puts the second range below the first |
| Lottery.OverlappingRanges | kernel/proc.c:902-917 | 10, -5 and 10 tickets make overlapping ranges |
| Lottery.NegativeWins | kernel/proc.c:532-540 | a process whose negative tickets take the running total below zero wins every draw from the start of its range on, because the comparison is unsigned |
| Shell.Parser.GetToken | user/sh.c:266-308 | the next token's kind and place; the cursor moves to the tokens that follow |
| Shell.Parser.Peek | user/sh.c:311-320 | whether the next token starts with one of the symbols; only space is passed |
| Shell.Parser.ParseRedirs | user/sh.c:375-397 | wraps the command in the redirections that follow, and fails exactly on a missing file name |
| Shell.Parser.ParseExec | user/sh.c:416-446 | the words and redirections of a simple command, in any order, or a block; at most MAXARGS - 1 words |
| Shell.Parser.ParseBlock | user/sh.c:400-413 | a parenthesised line and its redirections, or a missing parenthesis |
| Shell.Parser.ParsePipe | user/sh.c:362-372 | agrees with the specification on the remaining tokens; terminates |
| Shell.Parser.ParseLine | user/sh.c:345-359 | agrees with the specification on the remaining tokens; terminates |
| Shell.Parser.ParseCmd | user/sh.c:328-342 | the whole text is used, or it fails with leftovers |
| Shell.NulTerminate | user/sh.c:450-493 | writes a NUL exactly where each word of the command ends |
| Shell.WordsOfCmd | user/sh.c:416-446 | every word of a parsed command is a whole word of the text |
| Shell.NoWriteInside | user/sh.c:450-493 | no NUL lands inside a word |
| Shell.ReadsBack | user/sh.c:450-493 | afterwards each stored word, read as a C string, is exactly its text |
| ShellGrammar.LexPrinted | user/sh.c:266-308 | words and symbols laid out with any space between them, none where they cannot run together, are read as exactly these tokens |
| ShellGrammar.LexLayout | user/sh.c:266-308 | every text is such a layout of its tokens |
| ShellPrint.FoldIs | user/sh.c:416-446 | the words and redirections of a simple command give the same tree in whatever order they come among each other |
| ShellPrint.LineIsAccepted | user/sh.c:328-446 | every text of a line of the grammar (words and redirections in any order, bars, ampersands, semicolons and parentheses with their precedences) is parsed to the tree of that line, and all of it is used |
| ShellPrint.AcceptedIsLine | user/sh.c:328-446 | every text that the parser accepts is the text of such a line, with that line's tree |
| ShellPrint.AcceptsIff | user/sh.c:328-446 | so a text is parsed to a tree if and only if it is the text of a line that stands for that tree |
| ShellPrint.RoundTrip | user/sh.c:328-446 | every well-formed command tree has a text with parentheses only where the tree needs them; parsing it, in any layout, uses all of it and returns the same tree |
| ShellPrint.AcceptedIsWellFormed | user/sh.c:328-446 | whatever text the parser accepts gives a well-formed tree, which printing and parsing again gives back |

## Left out

- Volume.Volume.WriteI: copies from a kernel buffer; a copyin that fails part-way leaves a partly changed block that is not logged, and is not modelled.
- File.FileHandle.FileWrite: inode files only; pipes are modelled in `pipeusers`, devices are not modelled.
- Mkfs.Image.IAppend: the caller must leave room on the image; `mkfs` itself does not look for the end of it.
- Bio.Cache.Bread: starts when the buffer is free to lock; waiting for its lock is `sleeplock`'s business.
- Bio.Cache.Brelse: a client must have written the buffer, or pinned it, before it gives up the last reference, which is what the log's clients do.
- Umalloc.Heap.Malloc: requests below 2^31 - 48 bytes, so that the size handed to `sbrk` does not wrap an int.
- PipeUsers.Fifo: a byte whose copyout fails is taken but not delivered, so delivery is stated for runs without such a failure.
- Vm.Memory.Freewalk: what is still mapped has some permission bit, as all callers of `mappages` see to; a mapping without one would be taken for a table.
- Vm.Memory.Uvmfree: the same for what is mapped at or above the size.
- Spaces.Kernel.Grow: the caller keeps below the trapframe, as `growproc` does with its unsigned int size.
- Virtqueue.RunKeeps: a device is assumed to complete only what it has fetched.
- DiskUsers.NobodyStuck: two requests for one buffer at a time are left to the buffer's sleep-lock, which rules them out.
- LogUsers.NobodyStuck: not about a process inside `log_write`, whose panics `Admission` treats of.
- Stride.PassGap: one CPU, and passes as mathematical integers. A round that divides by zero ends a run.
- Lottery.RunKeeps: sums of tickets stay within int, where the source would overflow.
- File.OwnedAfterCrash: takes as given that ownership holds whenever no operation is in progress; the methods of `Volume` show it for operations one after the other, and inode locks are not modelled.
- Journal.CrashAtomicity: block writes are atomic and happen in order; blocks of the log area are not cached in the model.
- Caches between memory and disk device, and device write reordering.
- The on-disk byte layout of inodes, directories and path names, link counts, `iget`/`ilock` and the inode table.
- Spinlocks, interrupts, traps, context switch, boot, console, UART and PLIC.
- `exec`, the system call layer, and user programs other than the shell's parser and the heap.
- `kill` other than as a wakeup at any time and as the early return of `pipewrite` and `piperead`.
- Physical memory above a 39-bit address, and the kernel's own page table.
- Fairness of wakeups: that a runnable process is eventually run.
