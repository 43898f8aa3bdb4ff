# xv6-riscv: a verified model

A Dafny model of the hard parts of xv6-riscv with its priority and aging scheduler, and proofs of what they
promise. Code that works in place is modelled in place: a class whose methods change its fields, loops with
their invariants. Code that runs concurrently is also modelled as steps, one per critical section, and the
results are about every run. `dafny verify dfyconfig.toml` checks everything.

| part | files | main results |
|---|---|---|
| Log and buffer cache | Recovery, Bio, Log, LogRuns, LogExample, LogFull | crash atomicity; group commit over whole runs; the cache reads as a plain memory; no operation meets a full log, yet a full header is reached and stops the commit |
| Files | FsLayout, FsMap, Fs, FsFile, FsTrunc, FsDir, FsUnlink, FsCrash | exact block ownership; files are byte strings and directories lists of entries; a write fits its log reservation; a crash inside any transaction of a write recovers to a sound file system |
| Names | Links, LinkCalls, Namex | link counts, unique names and one directory tree under the root over every call; path resolution |
| Scheduler | Sched, SchedRuns | dispatch refines its specification; aging exactly, bounded waiting and round robin; on many CPUs who changes which state and priority, and that a CPU's steps add up to a round |
| Blocking | Monitor, Waiters, ProcTable | no lost wakeup; sleep locks, the log's waiters, exit and wait and the pipe as its users |
| Memory | VmTable, VmSteps, Vm, VmUser, VmProc, VmSystem | page tables refine a map; every page is in one pair of hands under any sequence of fork, sbrk, faults, copies and exit; lazy memory and fork are transparent |
| User heap | Umalloc | the free list is one ordered cycle; blocks are disjoint and cover what sbrk gave |
| Disk queue | Virtq | descriptors are partitioned among free and in-flight; completions consumed once; a device that reads the descriptors leaves buffer and block equal |
| Pipe | Pipe | first in, first out, across counter wraparound |
| Shell parser | Shell, ShellGrammar, ShellText, ShellParser | the parser accepts exactly the shell's grammar, with its meaning, in any spacing; what each error means; tokens are cut exactly |
| Shared | Common | the few definitions several parts use |

How the pieces fit:

- `VmSystem.Machine.Valid` holds between any two calls in any order: every process is sound, and every page is free,
  a table, held by one table, or one process's trapframe. So proc_freepagetable finds its precondition after any history.
- `FsDir.Shows` says that the lists, kinds and link counts module Links works with are those on disk. `FsUnlink.Unlink`
  carries one system call through both.
- `FsFile.Filewrite` names its transactions, and `FsCrash` hands each to the log: the blocks it logged are the header's,
  and what recovery leaves is read back as a file system.
- A step machine and the class beside it share their functions. `Log.Logger.Commit` writes the disks of
  `CommitTrace`, and `Recovery.CommitTraceAtomic` is about that list. `ProcTable.SleepIsSteps`,
  `KillIsStep` and `WakeupIsStretch` say which steps of the protocol the methods of the process table are.
- Ghost state records who holds what: `owner` in `Fs.FileSystem`, `Hands` in `Vm.Kernel`, the chains in
  `Virtq.VirtDisk`. `Valid()` ties it to the real fields, so a leak or a double use breaks the invariant.
- A panic of the source is an error result where a caller can reach it, and a precondition where the invariant
  excludes it. The callers here meet those preconditions, which is the proof that the panic is not reached.
- Outside influences are parameters: how many bytes of a user buffer can be copied (`avail`), whether sbrk
  grants memory (`grant`), whether a directory can grow (`room`), which request the device completes.

## Where the code does not do what it promises

- The log holds LOGBLOCKS blocks and the cache has NBUF buffers, and the two are equal. A full header pins every
  buffer, so the commit's first read panics: `Log.Logger.CommitNeedsSpareBuffer` and `LogFull.CommitCanBegin` give the
  exact condition. Three operations within their budgets reach such a header (`LogFull.HeaderFills`), and no run gets
  past it (`LogFull.StuckForever`).
- pipewrite tests for a kill before every byte and returns without waking the readers. A reader sleeps on while the pipe
  holds bytes exactly if a writer was killed between a byte it put and its next wakeup:
  `PipeWaiters.ReaderMissesBytes` is one direction, `KillLosesWakeup` the other, `ByteWithoutWakeup` a run.
- sbrk does not clear the rest of the page that the old size lies in: up to its end the new bytes are what the page
  already held, from there on they read as zero (`VmProc.Sbrk`).
- virtio_disk_rw computes the sector in 32 bits. It is that of the block exactly for block numbers below 2^31
  (`Virtq.SectorFits`).
- malloc's byte count passes through an int parameter of sbrk. It survives exactly for requests up to 0x7fffffe0
  (`Umalloc.SbrkFitsUpTo`); for the largest request sbrk grants one unit while 2^28 + 1 are recorded
  (`Umalloc.HugeRequest`).
- kkill does not test that the slot is in use. It reaches a process exactly if the pid is not 0
  (`ProcTable.KillReachesProcess`); with pid 0 it marks a free slot, and the next process in that slot starts out
  killed (`ProcTable.KillZero`).
- sbrk by more than the process has, downwards, changes nothing and still returns the old size: `VmProc.Sbrk`.
- The comment in wakeup says that a sleeper becomes RUNNING. The code makes it RUNNABLE, and so does the model.

## Model

| member | source | states |
|---|---|---|
| `Recovery.CommitAtomic` | kernel/log.c:187-212 | a crash after any number of the commit's block writes recovers to the old home blocks before the header write and to all the new ones from it on |
| `Recovery.RecoveryRestart` | kernel/log.c:67-125 | a recovery cut short after any write changes nothing about what the next recovery yields |
| `Recovery.RecoveryRestarts` | kernel/log.c:67-125 | the same for any number of interrupted recoveries in a row |
| `Recovery.CrashAtomicity` | kernel/log.c:35-38 | crash anywhere in commit, then crash any number of times in recovery: the last recovery leaves the old home blocks or every new one, with an empty log |
| `Recovery.CommitTraceAtomic` | kernel/log.c:202-212 | the same for the list of disks that the running commit passes through |
| `Recovery.RecoveryTraceSafe` | kernel/log.c:118-125 | every disk that a running recovery passes through recovers to the same home blocks |
| `Blocks.HeaderWords` | kernel/log.c:104-116 | the header block: the count, the block numbers in order, every other word as it was |
| `Bio.BufferCache.constructor` | kernel/bio.c:35-52 | the linked list starts as one cycle over all buffers, no block cached, reads as the disk does |
| `Bio.BufferCache.FindCached` | kernel/bio.c:64-73 | the buffer tagged with the block, or none is |
| `Bio.BufferCache.FindFree` | kernel/bio.c:75-87 | the least recently used buffer without references, or all are referenced |
| `Bio.BufferCache.Bget` | kernel/bio.c:57-88 | finds or recycles exactly if there is room, keeps what every block reads as and every other handle; the panic is the case without room |
| `Bio.BufferCache.Bread` | kernel/bio.c:91-102 | the buffer returned holds what the block reads as, and one reference is added |
| `Bio.BufferCache.Fill` | kernel/bio.c:95-99 | reading from disk makes the buffer valid and changes what no block reads as |
| `Bio.BufferCache.SetData` | kernel/fs.c:52-61 | a holder's change is the change of that one block in the simple memory |
| `Bio.BufferCache.Bwrite` | kernel/bio.c:106-112 | one disk block gets the cached content; no reader sees a difference |
| `Bio.BufferCache.Brelse` | kernel/bio.c:116-137 | drops one reference; an unreferenced buffer moves to the front of the list and the others keep their order |
| `Bio.BufferCache.MoveToFront` | kernel/bio.c:127-135 | the pointer splice is removal and insertion at the front of the cyclic list |
| `Bio.BufferCache.Bpin` | kernel/bio.c:139-145 | one reference more, nothing else |
| `Bio.BufferCache.Bunpin` | kernel/bio.c:147-153 | one reference less, nothing else |
| `Bio.FreeBuffer` | kernel/bio.c:75-87 | fewer blocks in use than buffers leave a buffer free |
| `Bio.RecycleContent` | kernel/bio.c:75-83 | recycling an unreferenced buffer that agrees with the disk changes what no block reads as |
| `Log.Logger.CopyToLog` | kernel/log.c:191-199 | one turn of write_log: one block write, of the cached content to its log slot |
| `Log.Logger.WriteLog` | kernel/log.c:187-200 | the disk passes through exactly the log-writing trace and home blocks read as before |
| `Log.Logger.WriteHead` | kernel/log.c:104-116 | one block write puts the in-memory header on disk |
| `Log.Logger.InstallOne` | kernel/log.c:71-84 | one turn of install_trans: one log block goes home and its pin is dropped unless recovering |
| `Log.Logger.InstallTrans` | kernel/log.c:67-85 | the disk passes through exactly the installing trace; no pin remains |
| `Log.Logger.Commit` | kernel/log.c:202-212 | the disk writes made are exactly the trace that CommitTraceAtomic is about, and the header ends empty |
| `Log.Logger.ReadHead` | kernel/log.c:88-99 | the in-memory header is the one on disk |
| `Log.Logger.RecoverFromLog` | kernel/log.c:118-125 | the disk ends recovered, by exactly the trace that RecoveryTraceSafe is about |
| `Log.Logger.LogWrite` | kernel/log.c:223-244 | absorbs a repeated block, appends and pins a new one; succeeds exactly if the log is not full (tested before absorption) and an operation is active |
| `Log.Logger.BeginOp` | kernel/log.c:128-150 | enters exactly if no commit runs and the reservation test passes |
| `Log.Logger.EndOp` | kernel/log.c:154-184 | the last operation commits the whole group through the commit trace; any other only leaves |
| `Log.Logger.CommitNeedsSpareBuffer` | kernel/log.c:191-199 | finding: a header with NBUF blocks pins every buffer, so the commit's first bread finds room exactly if the header is shorter |
| `LogRuns.InvStep` | kernel/log.c:128-261 | every step of every process, the committer included, keeps the invariant of log, cache and history |
| `LogRuns.RunInv` | kernel/log.c:128-261 | the invariant holds in every state of every run |
| `LogRuns.CrashRecoversGroups` | kernel/log.c:154-212 | at any crash the recovered disk is the effect of the first k commit groups, k at least the finished commits, whatever crashes interrupt recovery |
| `LogRuns.OperationsAreWhole` | kernel/log.c:154-184 | two writes of one operation are in the same commit group, so no recovered disk splits an operation |
| `LogRuns.SyncMakesDurable` | kernel/log.c:246-261 | when sys_sync returns, every operation that had ended at its call is in a finished group |
| `LogRuns.LogNeverFull` | kernel/log.c:223-244 | under any interleaving an operation within its budget of MAXOPBLOCKS never meets a full log |
| `LogRuns.CacheIsTransparent` | kernel/bio.c:57-102 | in every reachable state the cache over the disk reads as a memory in which each write took effect at once, and no block has two buffers |
| `LogRuns.DirtyIsPinnedOrHeld` | kernel/log.c:223-244 | a buffer that differs from the disk is pinned or held, so recycling loses no write |
| `LogRuns.PointersStayGood` | kernel/bio.c:57-88 | a buffer a process got keeps naming its block until it is released |
| `LogExample.WriteReachesDisk` | kernel/log.c:128-244 | runs exist: from any recovered disk some run writes any data to any home block and ends the commit with the block on disk |
| `LogFull.HeaderFills` | kernel/log.c:128-244 | finding: any LOGBLOCKS distinct home blocks can be logged by three operations within their budgets, and the last end_op starts a commit with all of them |
| `LogFull.FullHeaderStuck` | kernel/log.c:187-200 | in such a state no step of the commit is possible |
| `LogFull.StuckForever` | kernel/log.c:187-200 | from such a state on no run ever continues the commit, so the group never becomes durable |
| `LogFull.CommitCanBegin` | kernel/log.c:187-200 | when nobody else has a buffer, a commit can begin exactly if its header has fewer than NBUF blocks |
| `Sched.Scheduler.constructor` | kernel/proc.c:47-61 | all slots unused at the default priority; next_index starts at the CPU number |
| `Sched.Scheduler.Scan` | kernel/proc.c:476-494 | every runnable process is aged and the least priority among them found |
| `Sched.Scheduler.Select` | kernel/proc.c:496-521 | the first process in cyclic order from next_index among those of least priority |
| `Sched.Scheduler.Round` | kernel/proc.c:459-540 | one round dispatches the pick of the aged table, which becomes RUNNING with its waiting time cleared while every other state and all pids stay; or nothing is runnable |
| `Sched.Scheduler.SetPriority` | kernel/proc.c:670-689 | exactly the first live process with the pid changes, or the arguments name none |
| `Sched.BoundedWaiting` | kernel/proc.c:442-533 | on one CPU a runnable process of priority p is dispatched within 50*p + 64 rounds, whatever the others do |
| `Sched.OneLevel` | kernel/proc.c:442-450 | a scan visit lowers the priority number by at most one, and exactly if the process is runnable, above 0 and has waited AGING_INTERVAL ticks; state and pid stay |
| `Sched.AgedExactly` | kernel/proc.c:442-494 | however often a process is passed over, its priority is a closed function of the rounds: one level after 51 ticks of waiting and every 50 from then on |
| `Sched.RoundRobin` | kernel/proc.c:496-521 | while dispatches stay at one level, no process of it runs twice before a peer that waits there from the first of the two on has run in between |
| `Sched.PeersAlternate` | kernel/proc.c:496-521 | such runs exist: two peers at any level that yield as soon as they have run take turns |
| `Sched.TopLevelRoundRobin` | kernel/proc.c:442-521 | at priority 0 nothing need be asked of the dispatches: nobody runs twice while a process waits there, whatever the others do |
| `SchedRuns.RunInv` | kernel/proc.c:459-540 | in every run on any number of CPUs: priorities in 0..31, waiting time 0 unless runnable, no process on two CPUs |
| `SchedRuns.StateGraph` | kernel/proc.c:111-736 | a process's state moves along the edges of its life cycle, each by one kind of step; a step changes no process but the one it is about |
| `SchedRuns.PriorityChanges` | kernel/proc.c:111-689 | a priority changes only by allocation, fork, ksetpriority and aging, and to what each of them promises |
| `SchedRuns.ForkInherits` | kernel/proc.c:264-323 | a child becomes runnable with the priority its parent had when it forked, unless it was given another in between |
| `SchedRuns.RoundIsStretch` | kernel/proc.c:459-540 | with nobody else at work, one CPU's steps add up to the round of Sched: same table, same process dispatched |
| `SchedRuns.AgedExactly` | kernel/proc.c:442-494 | with any number of CPUs the priority of a waiting process is the same closed function of the scan visits it got |
| `SchedRuns.AgedToTop` | kernel/proc.c:442-450 | a waiting process of priority p is at priority 0 exactly if it was there at first or has waited 50*p + 1 ticks, whichever CPUs visited it |
| `SchedRuns.AtMostNprocOthers` | kernel/proc.c:496-521 | once it is there, each CPU dispatches at most NPROC others before it runs |
| `Monitor.InvStep` | kernel/proc.c:617-666 | each critical section of the sleep protocol keeps: whoever waits has a reason, or is about to be visited by a wakeup |
| `Monitor.NoLostWakeup` | kernel/proc.c:617-666 | in every interleaving, whenever the condition's lock is free a sleeper still has its reason to sleep |
| `Monitor.VisitIsNotLost` | kernel/proc.c:646-666 | a wakeup that visits a registered process, asleep or not yet, makes its sleep return |
| `ProcTable.Processes.Allocproc` | kernel/proc.c:111-154 | the first free slot gets a pid nobody has; without a free slot nothing changes; a failure leaves processes in use alone |
| `ProcTable.Processes.Freeproc` | kernel/proc.c:159-177 | the slot is free again with pid, channel and killed flag cleared |
| `ProcTable.Processes.Sleep` | kernel/proc.c:632-643 | the process is SLEEPING exactly if its registration is still there, and nothing else changes |
| `ProcTable.Processes.Wakeup` | kernel/proc.c:646-666 | slot by slot: on the channel and asleep becomes RUNNABLE and deregistered, on the channel and awake is only deregistered, anyone else is unchanged; pid and killed flag stay |
| `ProcTable.Processes.Kkill` | kernel/proc.c:717-736 | exactly the first slot with the pid is marked killed, and made RUNNABLE if it slept, with its channel left; or no slot has the pid |
| `ProcTable.KillReachesProcess` | kernel/proc.c:717-736 | kkill reaches a process in use, the only one with that pid, exactly if the pid is not 0 |
| `ProcTable.KillZero` | kernel/proc.c:717-736 | finding: killing pid 0 marks a free slot, and the next process made there starts out killed |
| `ProcTable.SleepIsSteps` | kernel/proc.c:617-643 | sleep_prepare and sleep on the table are the protocol's steps Prepare and Sleep |
| `ProcTable.KillIsStep` | kernel/proc.c:717-736 | kkill of a sleeper is the protocol's step Kill; of anyone else it changes nothing the protocol sees |
| `ProcTable.WakeupIsStretch` | kernel/proc.c:646-666 | wakeup's loop is a stretch of a run of the protocol, one Visit per slot in order, and ends in the table the method leaves |
| `SleepLocks.NoSleeperOnFreeLock` | kernel/sleeplock.c:21-44 | in every run no process is asleep on a free sleep lock |
| `SleepLocks.MutualExclusion` | kernel/sleeplock.c:21-44 | whoever takes the lock after a process took it does so after that process has dropped it |
| `LogWaiters.SleepersFaceBusyLog` | kernel/log.c:128-184 | a sleeper in begin_op faces a commit or a failing reservation test, one in sys_sync the very next commit; the log is never idle then |
| `ExitWait.NoZombieOfSleeper` | kernel/proc.c:387-437 | whenever wait_lock is free, no process asleep in kwait has a zombie child |
| `ExitWait.ParentsAreAlive` | kernel/proc.c:327-383 | at any time every parent is alive and is the forker or init |
| `ExitWait.ReapedOnce` | kernel/proc.c:387-437 | over any run the reaps of a slot are its exits, less the zombie still there |
| `PipeWaiters.SleepersOnPipe` | kernel/pipe.c:76-143 | whenever pi->lock is free, a writer asleep faces a full pipe with a reader; a reader asleep faces an empty pipe with a writer, or a writer was cut off |
| `PipeWaiters.CutIs` | kernel/pipe.c:84-87 | cut off means: in this run a writer was killed between a byte it put and its wakeup, and no readers were woken since |
| `PipeWaiters.ReaderMissesBytes` | kernel/pipe.c:84-87 | finding: a reader asleep on a pipe that holds bytes, lock free, only after such a kill |
| `PipeWaiters.KillLosesWakeup` | kernel/pipe.c:84-87 | and after every such kill: each reader then asleep stays asleep with the byte in the pipe |
| `PipeWaiters.ByteWithoutWakeup` | kernel/pipe.c:76-143 | a run from the empty pipe that ends so |
| `FsLayout.SetBitEffect` | kernel/fs.c:67-90 | setting a block's bit by its byte and mask changes that block's bit and no other, and no block outside the map |
| `FsLayout.ClearBitEffect` | kernel/fs.c:93-107 | the same for clearing |
| `FsLayout.DinodeRoundTrip` | kernel/fs.c:227-243 | an inode written among its neighbours reads back whole and leaves them as they were |
| `FsLayout.BitmapFlat` | kernel/fs.h:47-51 | the free map is an array of bits from bmapstart on, eight to a byte |
| `FsLayout.InodePlace` | kernel/fs.h:41-45 | the inodes are an array of 64-byte records from inodestart on |
| `FsLayout.InodeRecord` | kernel/fs.h:31-39 | the record: four shorts, the size and thirteen block addresses, little-endian, in this order |
| `FsMap.OwnershipIsExclusive` | kernel/fs.c:410-459 | no block is reachable from two places, and the bits set outside metadata are exactly the reachable blocks |
| `FsMap.StoreEntry` | kernel/fs.c:445-455 | storing a word in an indirect block changes the one file block it stands for |
| `Fs.FileSystem.ScanBlock` | kernel/fs.c:76-85 | the first clear bit of a bitmap block |
| `Fs.FileSystem.Balloc` | kernel/fs.c:67-90 | the first free block, marked and zeroed, or 0 exactly if the disk is full |
| `Fs.FileSystem.Bfree` | kernel/fs.c:93-107 | clears the bit of a block whose bit is set |
| `Fs.FileSystem.Bmap` | kernel/fs.c:420-459 | the block of the file at that index, allocated if missing; ownership stays exact on every path, out-of-space included, and other files keep their blocks |
| `Fs.FileSystem.Iupdate` | kernel/fs.c:227-243 | the inode on disk is the one in memory, no other inode, block map or file content changed |
| `Fs.FileSystem.WriteChunk` | kernel/fs.c:554-569 | one turn of writei: the chunk lands in its block, or the disk is full; what it may log is counted |
| `FsFile.Writei` | kernel/fs.c:543-579 | the data are spliced into the file's bytes at off; a short count is 0 or ends at a block boundary, less than a block beyond it arrived, and the cause is a fault or a full disk past the old end; other files are unchanged; up to three blocks fit one log reservation at any offset |
| `FsFile.WriteBlocks` | kernel/fs.c:554-569 | the loop's progress: all done, at a source fault, or at a block boundary with the disk full |
| `FsFile.ChargeTotal` | kernel/file.c:149-172 | three blocks of data, at any offset, log fewer than MAXOPBLOCKS blocks before the inode block |
| `FsFile.Readi` | kernel/fs.c:509-534 | returns exactly the slice of the file's bytes and changes nothing: bmap never allocates |
| `FsFile.ReadBlocks` | kernel/fs.c:520-533 | the loop's pieces add up to that slice |
| `FsFile.ReadAt` | kernel/fs.c:509-534 | byte by byte: what is read at off are the file's bytes from there on, as many as were asked for, are there and fit; -1 exactly if they do not fit |
| `FsFile.ReadYourWrites` | kernel/fs.c:509-579 | reading where a write went yields the data written, and every stretch before or behind it reads as before |
| `FsFile.Filewrite` | kernel/file.c:134-179 | over all its transactions the file's bytes are the splice of what was written, each transaction within its reservation, starting from a sound disk and logging every block it changed; it fails only past the end, past the largest size, at a fault or on a full disk |
| `FsTrunc.Itrunc` | kernel/fs.c:463-491 | the file is empty, exactly its blocks are free again, other files are unchanged, and "freeing free block" is never met |
| `FsTrunc.DropDirects` | kernel/fs.c:470-475 | the direct blocks are freed and forgotten, ownership exact after each |
| `FsTrunc.DropEntries` | kernel/fs.c:478-484 | every block the indirect block lists is freed while its entries still stand |
| `FsTrunc.DropIndirect` | kernel/fs.c:477-487 | the indirect block goes after what it lists |
| `FsDir.EntRoundTrip` | kernel/fs.c:639-641 | an entry in its 16 bytes, inode number first and name padded with NULs, reads back as the entry |
| `FsDir.EntriesPut` | kernel/fs.c:629-645 | writing an entry's bytes at its place changes that entry of the list or adds it at the end |
| `FsDir.AllOrNothing` | kernel/fs.c:642-643 | an entry lies inside one block, so writei stores all of it or nothing |
| `FsDir.DirLookup` | kernel/fs.c:591-615 | over the directory's bytes: the first live entry with the name, or none; the read panic is not met |
| `FsDir.WriteEnt` | kernel/fs.c:639-645 | one entry of the list changes and no other file; it fails only for a new entry without room; fits one log reservation |
| `FsDir.DirLink` | kernel/fs.c:619-646 | on bytes what module Links does on lists: the entry in the first dead slot, or nothing changed and the reason holds; kinds and link counts stay |
| `FsDir.ClearEnt` | kernel/sysfile.c:235-237 | clearing an entry that exists never fails, so the panic is not met |
| `FsDir.IsDirEmpty` | kernel/sysfile.c:186-199 | true exactly if the list has no live entry after the first two |
| `FsUnlink.AddNlink` | kernel/sysfile.c:238-245 | a link count changed in memory and on disk is that count changed in the table of names, and nothing else |
| `FsUnlink.Unlink` | kernel/sysfile.c:201-256 | sys_unlink on the bytes on disk does what the table of names says, link counts included, and keeps its invariant; or nothing changed and the reason holds |
| `FsCrash.BytesRoundTrip` | kernel/buf.h:1-11 | a block's bytes survive being kept as the log's words |
| `FsCrash.CrashKeepsClean` | kernel/log.c:187-212 | crash after any block write of a transaction's commit, then in any number of recoveries: the disk read back is a sound file system with the contents of before the transaction or of after it |
| `FsCrash.CrashInFilewrite` | kernel/file.c:134-179 | a crash inside any transaction of filewrite: the recovered file holds exactly the chunks of the transactions before it, or also its own |
| `Links.LookupFindsLinked` | kernel/fs.c:591-615 | what a lookup in a linked directory finds is allocated and linked |
| `Links.LinkStep` | kernel/sysfile.c:123-183 | an entry that takes over a pending link keeps counts, names and tree |
| `Links.UnlinkStep` | kernel/sysfile.c:201-256 | an entry and its count removed together keep them |
| `Links.CreateStep` | kernel/sysfile.c:258-326 | a new file with its entry keeps them |
| `Links.MkdirStep` | kernel/sysfile.c:258-326 | a new directory with its two entries, its entry and its parent's count keeps them |
| `Links.OnlyPlace` | kernel/sysfile.c:186-256 | an empty directory has one name, in its parent, and count 1 |
| `Links.RmdirStep` | kernel/sysfile.c:201-256 | removing it keeps counts, names and tree and leaves it unlinked |
| `Links.FreeStep` | kernel/fs.c:349-378 | freeing an unlinked, unreferenced inode keeps them |
| `Links.RootedStep` | kernel/sysfile.c:186-326 | a call that keeps the parents of old directories and puts new ones below linked ones keeps every linked directory under the root |
| `LinkCalls.NameSpace.DirLookup` | kernel/fs.c:591-615 | the first entry with that name, or there is none |
| `LinkCalls.NameSpace.DirLink` | kernel/fs.c:619-646 | the name, new to the directory, in its first free slot and nothing else changed; otherwise nothing changes and the name is taken or no slot is left |
| `LinkCalls.NameSpace.IsDirEmpty` | kernel/sysfile.c:186-199 | true exactly if only the first two entries are live |
| `LinkCalls.NameSpace.Ialloc` | kernel/fs.c:200-221 | the first free inode, or 0 exactly if none is free |
| `LinkCalls.NameSpace.LinkBegin` | kernel/sysfile.c:137-154 | counts the link to come unless the inode is a directory or its count is full |
| `LinkCalls.NameSpace.LinkEnd` | kernel/sysfile.c:155-183 | the entry is made in the first free slot and nothing else changed; or the count is taken back, and then the path led nowhere, the directory is unlinked, the name taken or no slot left |
| `LinkCalls.NameSpace.Unlink` | kernel/sysfile.c:201-256 | the entry is cleared, the count of what it named is one less, the parent's too if that was a directory, and every other entry and inode is as before; or nothing changed and the reason holds |
| `LinkCalls.UnlinkedKeeps` | kernel/sysfile.c:201-256 | what sys_unlink does to the table, for a file or an empty directory, keeps counts, names and tree |
| `LinkCalls.NameSpace.Create` | kernel/sysfile.c:258-326 | a new inode of the kind asked, count 1, the first free one, a directory with exactly its two entries; its name in the first free slot; the parent's count one more exactly for a directory; every other entry and inode as before; or the file already there; or nothing changed and one of the five tests failed |
| `LinkCalls.NameSpace.Put` | kernel/fs.c:349-378 | drops a reference and frees the inode exactly if it was the last one of an unlinked inode |
| `LinkCalls.NameSpace.Ireclaim` | kernel/fs.c:388-408 | afterwards no allocated inode has count 0 and all others are as before |
| `Namex.Skipelem` | kernel/fs.c:662-685 | the next name, cut to DIRSIZ, and where the one after it starts; at the end exactly after the last name |
| `Namex.NamesSplit` | kernel/fs.c:662-685 | the names of a/b are those of a followed by those of b |
| `Namex.JoinNames` | kernel/fs.c:662-685 | names written with slashes are read back, cut to DIRSIZ |
| `Namex.ParentIs` | kernel/fs.c:691-741 | the parent of a path is what all its names but the last lead to, if that is a linked directory |
| `Namex.PathSplit` | kernel/fs.c:691-728 | a path may be followed in two stretches |
| `Namex.DotDot` | kernel/fs.c:691-728 | into a directory by its name and back by ".." is where one was |
| `Namex.UpToRoot` | kernel/fs.c:691-728 | from every linked directory enough ".." lead to the root |
| `Namex.Namex` | kernel/fs.c:691-728 | the inode the names lead to through linked directories, or its parent and the last name; one reference is taken on it, no other is kept and nothing is freed |
| `VmTable.SameEntry` | kernel/vm.c:98-116 | in a sound memory no two walks end at the same entry |
| `VmTable.PutEffect` | kernel/vm.c:146-175 | writing one entry changes what one walk finds and no other, in any table |
| `VmTable.LeafIsSv39` | kernel/vm.c:86-116 | what the three levels of a table lead to is what the Sv39 translation of the RISC-V privileged specification finds: nine bits of the page number at each level |
| `Vm.Kernel.constructor` | kernel/kalloc.c:26-40 | every page is on the free list and no table exists |
| `Vm.Kernel.Kalloc` | kernel/kalloc.c:68-82 | the first free page, or 0 exactly if none is free |
| `Vm.Kernel.Kfree` | kernel/kalloc.c:46-63 | pushes the page on the free list |
| `Vm.Kernel.Walk` | kernel/vm.c:98-116 | the table page of the last-level entry; without alloc 0 means unmapped; with alloc, 0 exactly if fewer pages are free than tables are missing, and otherwise just those are added; no mapping and no user page changes |
| `Vm.Kernel.MapPage` | kernel/vm.c:146-175 | insertion into the map of that table: one mapping added, all others and all user pages kept; it fails exactly if fewer pages are free than tables are missing |
| `Vm.Kernel.UnmapPage` | kernel/vm.c:202-212 | removal of one mapping, with its page if asked |
| `Vm.Kernel.Uvmunmap` | kernel/vm.c:193-213 | removal of a range from the map, nothing outside it touched |
| `VmUser.Vmfault` | kernel/vm.c:458-478 | a missing page below the size appears zeroed, for the user to read and write, exactly if a page is left besides the tables it needs; no process sees any difference |
| `VmUser.IsMapped` | kernel/vm.c:480-491 | true exactly if the page is mapped |
| `VmUser.Uvmalloc` | kernel/vm.c:217-242 | the new pages are zeroed, private, readable for the user and writable and executable exactly as asked; on failure every mapping is as before and fewer than three pages per new page were free |
| `VmUser.PagesHold` | kernel/riscv.h:392 | a size takes as few pages as hold it |
| `VmUser.Uvmdealloc` | kernel/vm.c:248-260 | exactly the pages above the new size are gone |
| `VmUser.WalkAddr` | kernel/vm.c:121-139 | the page of a mapped user address, else 0 |
| `VmUser.CopyIn` | kernel/vm.c:382-405 | the bytes delivered are those the process sees, across pages and lazy ones; it stops only at a fault or out of memory |
| `VmUser.CopyOut` | kernel/vm.c:344-377 | exactly the bytes that arrived change, in that process only; it stops only at a fault, a read-only page or out of memory |
| `VmProc.Uvmcopy` | kernel/vm.c:298-326 | the child sees what the parent sees, with the same flags on pages of its own; a failure leaves it no user page, and then fewer than three pages per page were free |
| `VmProc.Sbrk` | kernel/sysproc.c:39-65 | eager, lazy and negative growth: memory kept is seen unchanged, memory from the old size rounded up to a page on reads as zero and is mapped writable if eager and not at all if lazy, other processes see no difference; -1 only if the size would reach the trapframe or eager growth lacks pages |
| `VmProc.Freewalk` | kernel/vm.c:264-280 | the subtree's tables are free and nothing else changed but the entry its caller clears; the leaf panic is not met |
| `VmProc.ClearEntries` | kernel/vm.c:267-278 | after i entries exactly the branches before i are gone |
| `VmProc.Uvmfree` | kernel/vm.c:284-290 | exactly the pages the table held, and its own, are free again; others see and hold what they did |
| `VmProc.Uvmcreate` | kernel/vm.c:179-188 | an empty table on a page that was free, or 0 exactly if none is free |
| `VmProc.ProcPagetable` | kernel/proc.c:181-211 | the trampoline page is at TRAMPOLINE, for the kernel to read and run, the trapframe page at TRAPFRAME, for the kernel to read and write, and nothing else is mapped; at most five pages are used; on failure exactly the pages that were free are free, fewer than five |
| `VmProc.ProcFreepagetable` | kernel/proc.c:215-221 | every page the process used returns to the free list exactly once, without a panic |
| `VmSystem.Machine.constructor` | kernel/kalloc.c:26-40 | no process, every page free |
| `VmSystem.TrapPages` | kernel/proc.c:181-211 | at any time every process has the trampoline at TRAMPOLINE, code that users may not touch, and its own trapframe at TRAPFRAME, writable for the kernel alone |
| `VmSystem.Machine.Allocproc` | kernel/proc.c:111-154 | a process whose own trapframe page is at TRAPFRAME and the trampoline at TRAMPOLINE, with their flags, and nothing else mapped, on at most six pages; on failure exactly the pages that were free are free, fewer than six |
| `VmSystem.Machine.Freeproc` | kernel/proc.c:159-177 | exactly the process's table, memory and trapframe become free; no other process sees a difference or loses a page |
| `VmSystem.Machine.Fork` | kernel/proc.c:264-323 | the child sees exactly what the parent sees, on pages of its own, and nobody else a difference; on failure not one page is lost, and fewer were free than six and three per page of the parent |
| `VmSystem.Machine.Sbrk` | kernel/proc.c:241-260 | keeps every process sound; memory kept, and all other processes' memory, is seen unchanged; new pages read as zero, mapped writable or left for faults; a refusal has its reason |
| `VmSystem.Machine.Fault` | kernel/vm.c:458-478 | keeps every process sound and shows to no process; a page appears exactly if the address is below the size, unmapped, and a page is left besides its tables |
| `VmSystem.Machine.Read` | kernel/vm.c:382-405 | delivers what the process sees and shows to no process; it stops only at a fault or out of memory |
| `VmSystem.Machine.Write` | kernel/vm.c:344-377 | changes exactly the bytes that arrived, for that process only; it stops only at a fault, a read-only page or out of memory |
| `Umalloc.Heap.Free` | user/umalloc.c:24-44 | the freed block joins its free neighbours; the list stays one address-ordered cycle without contiguous members; no other live block changes |
| `Umalloc.Heap.Search` | user/umalloc.c:73-89 | the first block with room in list order after freep, or every block is too small |
| `Umalloc.Heap.Morecore` | user/umalloc.c:46-61 | sbrk is asked for the units or 4096 of them if that is more; what it grants joins the heap as free memory, or nothing changes |
| `Umalloc.Heap.Malloc` | user/umalloc.c:63-90 | a new live block of exactly the units asked, disjoint from all others, or NULL with no block large enough and sbrk refusing |
| `Umalloc.UnitsHold` | user/umalloc.c:69 | the units asked hold nbytes behind the header with less than a header to spare |
| `Umalloc.SbrkFitsUpTo` | user/umalloc.c:46-61 | the byte count survives the int parameter of sbrk exactly for requests up to 0x7fffffe0 |
| `Umalloc.HugeRequest` | user/umalloc.c:46-61 | finding: for the largest request sbrk is asked for one unit while 2^28 + 1 are recorded |
| `Virtq.Produce` | kernel/virtio_disk.c:274-280 | posting to a ring with room overwrites no entry still queued, across 16-bit wraparound |
| `Virtq.Consume` | kernel/virtio_disk.c:318-330 | taking from a ring takes the oldest entry |
| `Virtq.VirtDisk.constructor` | kernel/virtio_disk.c:144-146 | all descriptors free, no request in flight |
| `Virtq.VirtDisk.AllocDesc` | kernel/virtio_disk.c:156-166 | the first free descriptor, or -1 exactly if none is free |
| `Virtq.VirtDisk.FreeDesc` | kernel/virtio_disk.c:169-182 | the descriptor is cleared and free |
| `Virtq.VirtDisk.Alloc3Desc` | kernel/virtio_disk.c:199-213 | three distinct free descriptors exactly if three are free; otherwise none is kept |
| `Virtq.VirtDisk.FreeChain` | kernel/virtio_disk.c:185-197 | following the links frees exactly the three descriptors of the chain |
| `Virtq.VirtDisk.Submit` | kernel/virtio_disk.c:215-284 | a new chain, disjoint from all in flight, posted behind those queued; it records buffer, block and direction, and what both are to hold in the end: the buffer's data for a write, the block's for a read |
| `Virtq.VirtDisk.Describe` | kernel/virtio_disk.c:240-268 | the operation, and three descriptors: the head for the device to read, the data for it to write exactly if the disk is read, the status for it to write |
| `Virtq.SectorFits` | kernel/virtio_disk.c:218 | finding: the 32-bit sector is that of the block exactly for block numbers below 2^31 |
| `Virtq.VirtDisk.Perform` | kernel/virtio_disk.c:240-268 | a device that goes by the descriptors in memory alone transfers one block, from the buffer to the disk for a write and from the disk to the buffer for a read, and nothing else; no descriptor forbids what it has to do |
| `Virtq.VirtDisk.Fetch` | kernel/virtio_disk.c:274-284 | the device takes the oldest request posted |
| `Virtq.VirtDisk.Complete` | kernel/virtio_disk.c:300-333 | the device carries out any request it has fetched, in any order, and reports it |
| `Virtq.VirtDisk.See` | kernel/virtio_disk.c:318-330 | each completion is consumed once and releases its own buffer; the status panic is not met |
| `Virtq.VirtDisk.Intr` | kernel/virtio_disk.c:300-333 | exactly the requests with a completion are marked seen; no other request changes and none is added or lost |
| `Virtq.VirtDisk.Finish` | kernel/virtio_disk.c:286-298 | the request was completed: buffer and block both hold what was wanted when it was submitted; exactly its descriptors are free again |
| `Pipe.CounterTests` | kernel/pipe.c:76-143 | the comparisons of wrapped 32-bit counters tell full and empty correctly |
| `Pipe.PipeBuffer.Close` | kernel/pipe.c:58-74 | the end is closed; last exactly if both are |
| `Pipe.PipeBuffer.Write` | kernel/pipe.c:76-109 | appends a stretch of the source and stops only when done, full, without reader, at a fault, or at the byte before which a kill arrived, wherever in the stretch that is |
| `Pipe.PipeBuffer.Read` | kernel/pipe.c:111-143 | delivers the oldest bytes in transit: as many as asked, as fit or as there are |
| `ShellGrammar.ParseComplete` | user/sh.c:333-452 | a line whose tokens the grammar derives is parsed, and to the derivation's meaning: words and redirections in any order, the last redirection outermost; bars bind closest and to the right, then ampersands, then semicolons to the right |
| `ShellGrammar.ParseSound` | user/sh.c:333-452 | a line that is parsed has tokens the grammar derives, and the tree is their meaning |
| `ShellText.TextToks` | user/sh.c:271-314 | the tokens of a text are those it was written with, whatever blanks stand between them, and none where none is needed |
| `ShellText.ToksText` | user/sh.c:271-314 | every text is its own tokens with some blanks between them |
| `ShellText.LineReads` | user/sh.c:271-452 | a line of the grammar, written in any spacing, parses to its meaning |
| `ShellText.LineWritten` | user/sh.c:271-452 | every text that parses is a line of the grammar in some spacing, and its tree is the meaning |
| `ShellText.RoundTrip` | user/sh.c:333-452 | every command tree with at most 9 words per command is recovered from its parenthesised text in any spacing |
| `ShellText.ErrorMeans` | user/sh.c:333-452 | each error names what is wrong: an operator without a file name, a parenthesis behind a word, ten words, a line not closed, or tokens left over |
| `ShellParser.LineTokens` | user/sh.c:350-452 | every token of a parsed line is a whole word of it |
| `ShellParser.TokensReadExactly` | user/sh.c:455-499 | once nulterminate has cut the line, every token reads as exactly its text: no cut damages another token |
| `ShellParser.Parser.GetToken` | user/sh.c:271-314 | the cursor's token is the grammar's |
| `ShellParser.Parser.PeekFor` | user/sh.c:316-326 | skips blanks and tests the next character |
| `ShellParser.Parser.Redirects` | user/sh.c:380-403 | the loop yields the grammar's redirections, or the missing file |
| `ShellParser.Parser.Arguments` | user/sh.c:435-451 | the loop yields the grammar's arguments, or its error |
| `ShellParser.Parser.Execute` | user/sh.c:421-452 | a block or a simple command, as the grammar says |
| `ShellParser.Parser.Block` | user/sh.c:405-419 | a parenthesised line and its redirections |
| `ShellParser.Parser.Pipeline` | user/sh.c:367-378 | commands joined by bars, to the right |
| `ShellParser.Parser.Line` | user/sh.c:350-365 | pipelines with their ampersands and semicolons |
| `ShellParser.Parser.NulTerminate` | user/sh.c:455-499 | the buffer is cut behind exactly the tokens of the tree |
| `ShellParser.Parser.ParseCmd` | user/sh.c:333-348 | terminates on every line with the grammar's tree or error, its tokens cut off in place |

## Left out

- Bio.BufferCache.Bget: sleep locks on buffers are not part of the class; LogRuns has them as the holder of a block.
- Bio.BufferCache.Bread: asks that bget finds a buffer, and covers one device, ROOTDEV; buffers start tagged with device 0.
- Bio.BufferCache.Brelse: asks that a buffer given up for good agrees with the disk; a change released without log_write is not covered.
- Bio.BufferCache.Bunpin: asks the same of the last reference; install_trans has written the block before it unpins.
- Log.Logger.Commit: asks that the header leaves a spare buffer; LogFull has the case that it does not.
- Log.Logger.EndOp: asks the same of the header it may commit.
- LogRuns.InvStep: one turn of write_log or install_trans is one step, its two bread, its bwrite and its two brelse together; crashes are between block writes.
- LogFull.HeaderFills: in the model the commit that finds no buffer stops for ever, where the source panics.
- Fs.FileSystem.Bfree: asks that the block's bit is set; itrunc meets this, so the panic is not reached.
- Fs.FileSystem.Bmap: asks that the index is below MAXFILE; readi and writei meet this.
- FsFile.Format: assumes an image without files instead of modelling mkfs.
- FsTrunc.Itrunc: does not bound the blocks it logs, which depends on how many bitmap blocks the file is spread over.
- FsDir.DirLookup: the reference that iget takes on the inode found is not part of it; Namex counts references.
- FsUnlink.Unlink: unlink is the one call carried through bytes and names together; link, create and mkdir have their halves in FsDir and LinkCalls.
- FsCrash.CrashKeepsClean: one transaction per commit; groups of several operations are LogRuns' subject, over blocks without file structure.
- LinkCalls.NameSpace.LinkBegin: path lookups and the two halves of a link are separate critical sections; other calls may come between them, which the pending links account for.
- LinkCalls.NameSpace.Unlink: the last iput, which may free the inode, is Put, a call of its own.
- LinkCalls.NameSpace.Create: covers one device, so the test for a link across devices is not there.
- Namex.Namex: runs without other calls in between, so an inode unlinked during the walk is not covered.
- Vm.Kernel.MapPage: one page, not mapped yet, as every caller for user memory asks; kvmmap's longer ranges at boot and the remap panic are not modelled.
- Vm.Kernel.UnmapPage: frees exactly the pages below the trapframe, as every caller asks; the other two combinations of address and do_free are not covered.
- Vm.Kernel.Uvmunmap: the same over a range.
- VmUser.Uvmalloc: sizes up to TRAPFRAME, which growproc checks; exec's checks are not modelled. Three pages per page is what a failure proves to be missing at most, not the exact count.
- VmProc.ProcPagetable: five pages are a bound; the two mappings share their tables, so three are enough.
- VmProc.Freewalk: asks that no leaf is left below, which its caller uvmfree provides.
- VmProc.Uvmfree: asks that nothing is mapped above the size, which proc_freepagetable and VmSystem.Machine provide.
- VmSystem.Machine.Fork: trapframe contents, open files, names and priorities are not copied in this part.
- Umalloc.Heap.Morecore: asks that the byte count fits sbrk's int parameter (see above).
- Umalloc.Heap.Malloc: asks the same of the request.
- Virtq.VirtDisk.FreeDesc: asks for a descriptor in use; the callers meet this, so the panics are not reached.
- Virtq.VirtDisk.Perform: the device succeeds whenever the descriptors let it; an error of the medium, on which the source panics, is not modelled.
- Virtq.VirtDisk.Submit: asks that no request for the same block is under way, which the cache's one buffer per block provides, and for a block on a disk of fewer than 2^32 sectors.
- Pipe.PipeBuffer.Read: begins when the pipe has bytes or its write end is closed; the wait before is PipeWaiters' subject.
- PipeWaiters.SleepersOnPipe: counts bytes; their order is Pipe's subject.
- ShellParser.Parser.Execute: keeps arguments and redirections in lists of its own where the source fills one node that the redirections already point to.
- Sched.BoundedWaiting: counts rounds of one CPU; time spent inside a process is not modelled.
- Block writes are atomic and happen in order; a torn block is not modelled.
- Counters that only grow (ncommit, pids, refcnt) are unbounded.
- copyinstr, uvmclear, exec and ELF loading, system call argument fetching, device switch tables.
- Spin locks, context switch, traps, the interrupt controller, the UART and console, memory ordering: critical sections are atomic steps.
- The in-memory inode table's slots (iget's search, ilock's read) beyond their reference counts.
- runcmd, getcmd and main of the shell; all other user programs.
