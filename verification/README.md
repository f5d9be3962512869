# Verified core of xv6-riscv with the two-pass priority scheduler

The project models the parts of the kernel, of the shell, of grep and of the user-level allocator whose
correctness depends on whole histories rather than on single calls, and proves what they promise.

- **Crash-safe disk.** `BufferCache` is the LRU buffer cache, `RedoLog` the group-commit log on top of it,
  `Recovery` what a crash after any block write leaves on the disk, `LogRuns` the steps of all runs
  (operations interleaved in any way, commits that write one block at a time, crashes anywhere, recoveries
  that crash in turn) and `CrashSafety` what holds over whole runs. Cache and log together are one map from
  block number to contents (`view`), and what survives a crash is always a whole number of committed groups.
  `LogRefinement` shows that the log's code takes the steps of those runs, `FullLog` builds the runs that end
  in its two panics, and `FileTransactions` shows that a transaction of the file layer is an operation of the
  log.
- **Address spaces.** `PageTable` is the forest of Sv39 page tables with a ghost owner for every page,
  `Subtrees` the recursion of freewalk, `Ownership` the changes of ownership, `AddressSpace` the code of vm.c
  and kalloc.c, `ProcessMemory` fork, growth, page faults and reaping over the process table. `UserMemory` is
  the memory of a process as its system calls see it, through copyin and copyout; `UserAccess` is the same
  memory as the process's own loads and stores find it, page faults included.
- **Files.** `Bitmap`, `BlockMap`, `FileContents`, `Inodes` and `FileLayer` are the block allocator, the block
  map of an inode, files as byte sequences, inodes as they lie on the disk, and readi, writei, itrunc and
  filewrite. `InodeTable` is the life of an inode from ialloc to the iput that frees it, and `DiskFormat` says
  what all of it looks like in the raw bytes of the disk.
- **Processes.** `ExitWait` is fork, exit, wait, sleep and wakeup as a state machine over the regions their
  locks protect, `Kinship` whose child a process is and what each wait brings over whole runs, `WaitLock` why
  wait_lock is always given back; `Scheduler` is the two-pass scheduler on one CPU.
- **Devices and user code.** `Virtio`, `VirtioDisk` and `VirtioRuns` are the descriptor rings against a device,
  `Pipe` the ring buffer with 32-bit counters, `FreeRing` and `Umalloc` the K&R allocator, `Shell` the command
  parser, `ShellText` what the characters of a line say about its tree, and `Grep` the regular expression
  matcher.

Code that updates state in place is a class whose methods reassign its fields; contents that the source keeps
in arrays are `seq` and `map` fields. A method that the source can make panic returns a result that says so,
and its contract says exactly when, unless the panic is proved not to happen. Ghost fields hold what the
statements need: owners of pages, blocks and units, pins, histories of writes, bytes or requests.

Where the code does not do what its comments or callers suggest, the model follows the code. Each case has the
exact condition, for all inputs, and a failing input:

- Eager and lazy `sbrk` can be told apart, and so can a page before and after a page fault. `vmfault` compares
  the faulting address itself with the size, so an unmapped page that the size cuts through ends at the size,
  and a mapped one at the end of the page. They differ at exactly those addresses (`UserAccess.EagerVersusLazy`,
  `UserAccess.FaultChanges`), never for a size that is a whole number of pages
  (`UserAccess.EagerIsLazyForPages`), and for instance at address 200 of a process of 100 bytes
  (`UserAccess.GrowAndLoad`). System calls fault at the start of the page and see no difference
  (`UserMemory.EagerCopiesAsLazy`).
- `log_write` checks for room before it looks whether the block is already logged, so it panics on a full log
  even for a block it would absorb (`LogRuns.LogWriteRoom`, `FullLog.AbsorptionPanics`).
- `commit` needs an unreferenced buffer, so with NBUF blocks logged it panics before its first write; NBUF and
  LOGBLOCKS are equal (`RedoLog.Log.Commit`, `FullLog.CommitPanics`).
- `growproc` shrinking by more than the size wraps around in 64 bits and leaves the process as it is
  (`ProcessMemory.ShrinksAsAsked`).
- `morecore` passes a size through an `int`, so above 0x7fff_ffe0 bytes sbrk is not asked for what the header
  then claims (`Umalloc.GrantExact`, `Umalloc.GrantFallsShort`).
- `pipewrite` returns without waking readers when its process is killed after storing bytes, so a reader can
  stay asleep beside them (`Pipe.Ring.Write`, `Pipe.StrandedReader`).

## Model

| member | source | states |
|---|---|---|
| `BufferCache.RelinkMovesToFront` | code/kernel/bio.c:127-133 | the six pointer assignments of brelse, from any state of the doubly linked list, leave a doubly linked list of the same buffers with exactly that one moved to the front |
| `BufferCache.RelinkKeepsGood` | code/kernel/bio.c:127-133 | relinking keeps uniqueness, reference counts, coherence and durability |
| `BufferCache.TouchKeepsGood` | code/kernel/bio.c:66-151 | a change to one buffer, its references and its block keeps the cache invariant under local conditions on that buffer alone |
| `BufferCache.RecycleKeepsGood` | code/kernel/bio.c:77-86 | recycling an unreferenced buffer loses no contents and makes no second buffer for a block |
| `BufferCache.BCache.constructor` | code/kernel/bio.c:37-53 | binit threads all NBUF buffers on one list; map and disk agree |
| `BufferCache.BCache.LinkIn` | code/kernel/bio.c:46-52 | one round of binit links one more buffer in behind the head |
| `BufferCache.BCache.Bget` | code/kernel/bio.c:58-89 | returns the one buffer of the block with one more reference or recycles the least recently used unreferenced one; panics exactly if the block is not cached and every buffer is referenced |
| `BufferCache.BCache.FindCached` | code/kernel/bio.c:66-73 | the forward walk over the links finds the block's buffer if there is one |
| `BufferCache.BCache.FindUnused` | code/kernel/bio.c:77-87 | the backward walk finds the least recently used unreferenced buffer |
| `BufferCache.BCache.AcquireSleep` | code/kernel/bio.c:70-84 | taking the sleep lock turns a waiting reference into the holder's |
| `BufferCache.BCache.Fill` | code/kernel/bio.c:98-101 | a recycled buffer is read from the disk, a valid one is not |
| `BufferCache.BCache.Bread` | code/kernel/bio.c:92-103 | the locked buffer holds the current value of the map for the block |
| `BufferCache.BCache.SetData` | code/kernel/log.c:206-213 | the holder of a buffer may change its contents in place |
| `BufferCache.BCache.Bwrite` | code/kernel/bio.c:106-112 | map and disk both take the buffer's contents, as one block write |
| `BufferCache.BCache.ReleaseSleep` | code/kernel/bio.c:119-122 | releasing the sleep lock leaves the reference, and the buffer clean |
| `BufferCache.BCache.DropRef` | code/kernel/bio.c:124-137 | drops the reference, whoever holds the buffer by then; the last one moves it to the front |
| `BufferCache.BCache.Brelse` | code/kernel/bio.c:116-137 | both parts without interruption: the holder's lock and reference go, the last one moves the buffer to the front, and nothing else changes |
| `BufferCache.BCache.ToFront` | code/kernel/bio.c:126-134 | the list is the old one with this buffer in front |
| `BufferCache.BCache.Bpin` | code/kernel/bio.c:139-144 | one more pin; the logged contents become the map's while the disk keeps the old ones |
| `BufferCache.BCache.Bunpin` | code/kernel/bio.c:146-151 | one pin less; no block is lost when it was the last |
| `Recovery.HeadRoundTrip` | code/kernel/log.c:86-115 | the header that write_head stores for a list is read back by read_head as that list, whatever was in the block before |
| `Recovery.CommitChain` | code/kernel/log.c:194-204 | the four steps of commit, on map and disk together, amount to one list of block writes: copies, header, installs, empty header |
| `Recovery.CommitAdvances` | code/kernel/log.c:179-204 | each single write of a commit takes the disk to the next phase |
| `Recovery.CommitPhaseStands` | code/kernel/log.c:194-204 | up to the header write the disk stands for the state before the group, from then on for the state after it |
| `Recovery.CommitCrash` | code/kernel/log.c:179-204 | after any prefix of a commit's writes the disk stands for the state before or after the whole group, decided by the header write |
| `Recovery.RecoveryAdvances` | code/kernel/log.c:66-84 | each single write of a recovery takes the disk to the next phase |
| `Recovery.RecoveryPhaseStands` | code/kernel/log.c:117-124 | no write of a recovery changes what the disk stands for; at its end the home blocks are that state and the log is empty |
| `Recovery.RecoveryCrash` | code/kernel/log.c:117-124 | a crash after any prefix of a recovery leaves a disk that stands for the same state |
| `Recovery.RebootsRecover` | code/kernel/log.c:117-124 | any sequence of recoveries, each but the last cut off anywhere, ends with the state the first one found |
| `RedoLog.Log.constructor` | code/kernel/log.c:53-63 | initlog recovers: the disk is the old one with the recovery's writes applied, and the log is empty |
| `RedoLog.Log.WriteHead` | code/kernel/log.c:103-115 | issues one write of the header block with the in-memory list |
| `RedoLog.Log.FormatHead` | code/kernel/log.c:107-112 | the loop over the words builds exactly the header of the list |
| `RedoLog.Log.CopyToLog` | code/kernel/log.c:184-191 | one round of write_log issues one write, of the block's latest contents to its log block, and panics exactly if no buffer can be had |
| `RedoLog.Log.WriteLog` | code/kernel/log.c:179-192 | issues the copies of all logged blocks in order; panics, before any write, exactly when NBUF blocks are logged |
| `RedoLog.Log.RoomToCommit` | code/kernel/log.c:179-192 | some buffer is unreferenced if and only if fewer than NBUF blocks are logged |
| `RedoLog.Log.CopyHome` | code/kernel/log.c:71-83 | one round of install_trans writes the log block's contents home and drops the block's pin unless recovering |
| `RedoLog.Log.InstallTrans` | code/kernel/log.c:66-84 | issues the installs of all logged blocks in order and leaves no pin |
| `RedoLog.Log.Commit` | code/kernel/log.c:194-204 | succeeds if and only if fewer than NBUF blocks are logged; then it issues exactly the commit's writes, in order, and empties the log; otherwise nothing is written |
| `RedoLog.Log.ReadHead` | code/kernel/log.c:86-98 | loads the list that the header block holds |
| `RedoLog.Log.LoadHead` | code/kernel/log.c:93-96 | the loop over the words loads exactly the list of the header |
| `RedoLog.Log.RecoverFromLog` | code/kernel/log.c:117-124 | issues exactly the recovery's writes and leaves the log empty |
| `RedoLog.Log.LogWrite` | code/kernel/log.c:215-236 | records the block once, pins its buffer once, and makes its contents the map's; panics exactly if the log is full or no operation is outstanding |
| `RedoLog.Log.FindLogged` | code/kernel/log.c:226-229 | finds the block in the list if and only if it is logged |
| `RedoLog.Log.BeginOp` | code/kernel/log.c:126-143 | admits an operation if and only if no commit runs and the log has room for MAXOPBLOCKS more for everyone |
| `RedoLog.Log.EndOp` | code/kernel/log.c:145-176 | only the last operation commits, and then the whole group is written |
| `RedoLog.Log.OpRead` | code/kernel/log.c:206-214 | an operation that reads a block keeps the log's invariant: no pinned buffer is recycled |
| `RedoLog.Log.OpSet` | code/kernel/log.c:206-214 | so does changing a buffer it holds |
| `RedoLog.Log.OpRelease` | code/kernel/log.c:206-214 | and releasing one it has logged |
| `RedoLog.ReferencedKeepPins` | code/kernel/log.c:215-236 | logged blocks stay pinned while referenced buffers keep their blocks |
| `RedoLog.SteadyKeepsPins` | code/kernel/log.c:179-192 | while references stay, every logged block stays cached and pinned |
| `RedoLog.PinKeepsPins` | code/kernel/log.c:231-234 | logging one more block keeps exactly one pin on each logged block |
| `RedoLog.UnpinKeepsPins` | code/kernel/log.c:79-80 | unpinning the installed block keeps the later ones pinned |
| `LogRuns.EmptyLogStands` | code/mkfs/mkfs.c:93-115 | a disk with an empty log stands for its own home blocks, so a new image starts a run |
| `LogRuns.LogWriteRoom` | code/kernel/log.c:126-143 | in every reachable state a log_write of a new block within the operation's allowance finds room; one of a logged block panics exactly when the log is full |
| `LogRuns.NextKeepsInv` | code/kernel/log.c:66-236 | every step keeps the invariant: the disk stands for the committed groups, the cache for them and the current group, reservations fit in the log |
| `LogRuns.NextWhole` | code/kernel/log.c:126-204 | every step keeps all events of an operation in one group |
| `CrashSafety.RunInv` | code/kernel/log.c:66-236 | every state of every run satisfies both |
| `CrashSafety.CrashAtomicity` | code/kernel/log.c:66-204 | in every run, once recovery has returned the home blocks are the state after a whole number of committed groups, with every group committed earlier among them and every operation wholly in one group or absent |
| `CrashSafety.ReturnedIsCommitted` | code/kernel/log.c:167-175 | when a commit has returned, the home blocks are the state after all committed groups and nothing is pending |
| `CrashSafety.CommittedForever` | code/kernel/log.c:145-204 | a group whose committing end_op returned is among the committed groups in every later state of the run, through any crashes |
| `FullLog.LogFills` | code/kernel/log.c:126-236 | on every image with LOGBLOCKS home blocks, from every start, three operations can fill the log |
| `FullLog.AbsorptionPanics` | code/kernel/log.c:221-229 | such a run goes on to the panic of a log_write of a block that is already logged |
| `FullLog.CommitPanics` | code/kernel/log.c:179-204 | such a run goes on to the panic of the commit before its first write, and the group is lost |
| `FullLog.PanicsHappen` | code/kernel/log.c:179-236 | both happen on a disk of 100 blocks |
| `FullLog.ReachableInv` | code/kernel/log.c:66-236 | every reachable state satisfies the invariant of runs |
| `LogRefinement.RecoverySteps` | code/kernel/log.c:117-124 | the writes of recover_from_log are the steps of a recovery to its end |
| `LogRefinement.CommitSteps` | code/kernel/log.c:194-204 | the writes of commit are the steps of a commit to its end, and the group is then committed |
| `LogRefinement.LastEnd` | code/kernel/log.c:145-176 | the last end_op of a group is End and then those steps, or the panic |
| `LogRefinement.TracedLog.constructor` | code/kernel/log.c:53-63 | initlog ends in the state of a run that has booted and recovered |
| `LogRefinement.TracedLog.Begin` | code/kernel/log.c:126-143 | begin_op is the step Begin of the run, or none |
| `LogRefinement.TracedLog.Read` | code/kernel/log.c:206-214 | bread by an operation is no step: code and run still agree |
| `LogRefinement.TracedLog.Set` | code/kernel/log.c:206-214 | nor is changing a held buffer |
| `LogRefinement.TracedLog.Release` | code/kernel/log.c:206-214 | nor is brelse |
| `LogRefinement.TracedLog.Write` | code/kernel/log.c:215-236 | log_write is one event of the run, or its panic |
| `LogRefinement.TracedLog.End` | code/kernel/log.c:145-176 | end_op is the step End, with all steps of a commit for the last operation, or the run's panic |
| `LogRefinement.TracedLog.CrashNow` | code/kernel/log.c:66-204 | between calls the disk the code has written stands for the state after the committed groups of the run |
| `FileTransactions.OperationRuns` | code/kernel/log.c:126-236 | an operation on at most its allowance of home blocks runs to its end, unless it logs a block again while the log is full |
| `FileTransactions.ChunkRuns` | code/kernel/file.c:149-165 | so does every transaction of filewrite that begin_op admits, with the blocks it logs in any order and any number of times |
| `PageTable.SlotsDistinct` | code/kernel/vm.c:97-115 | two virtual pages below MAXVA never share a page-table entry |
| `PageTable.WalkRefinesMap` | code/kernel/vm.c:97-115 | the three-level walk over page-table pages finds exactly the entries of the finite map |
| `PageTable.IndexDigits` | code/kernel/riscv.h:370-374 | the three indexes of a walk are the 9-bit digits of the page number, the highest for level 2 |
| `PageTable.TakeKeepsWf` | code/kernel/kalloc.c:68-82 | taking a page off the free list keeps the forest and all maps |
| `PageTable.GiveKeepsWf` | code/kernel/kalloc.c:46-63 | giving a kernel page back keeps the forest and all maps |
| `PageTable.HangKeepsWf` | code/kernel/vm.c:108-111 | a new empty page-table page below an empty entry changes no map |
| `PageTable.MapKeepsWf` | code/kernel/vm.c:140-174 | storing a last-level entry adds exactly one binding to one map |
| `PageTable.UnmapKeepsWf` | code/kernel/vm.c:189-212 | clearing a last-level entry removes exactly one binding, and the page it mapped belonged to it alone |
| `PageTable.RootKeepsWf` | code/kernel/vm.c:176-187 | a new root page is an empty map beside the others |
| `PageTable.NoRootNoNodes` | code/kernel/vm.c:260-278 | no page-table page exists without its root |
| `Subtrees.RootBare` | code/kernel/vm.c:260-278 | a page table without mappings has no valid last-level entry, so freewalk does not panic on it |
| `Subtrees.WalkedDone` | code/kernel/vm.c:263-278 | freewalk's loop over the entries and its final kfree free exactly the pages of the subtree |
| `Subtrees.RootPruned` | code/kernel/vm.c:260-288 | freeing all of a page table gives its pages back and leaves every other map alone |
| `AddressSpace.Vm.constructor` | code/kernel/kalloc.c:26-40 | freerange puts every page of the range on the free list |
| `AddressSpace.Vm.Kalloc` | code/kernel/kalloc.c:65-82 | takes the first free page, fails exactly if there is none |
| `AddressSpace.Vm.Kfree` | code/kernel/kalloc.c:42-63 | puts a kernel page in front of the free list |
| `AddressSpace.Vm.Walk` | code/kernel/vm.c:85-115 | finds the page with the last-level entry, building missing levels if asked; changes no map, and fails only when memory is out |
| `AddressSpace.Vm.NewTable` | code/kernel/vm.c:107-112 | the new level is empty, and on failure nothing changed |
| `AddressSpace.Vm.Mappages` | code/kernel/vm.c:140-174 | adds exactly one binding or leaves all maps as they were; remap is reported exactly if the page is mapped |
| `AddressSpace.Vm.Uvmunmap` | code/kernel/vm.c:189-212 | removes exactly its range from one map and frees exactly the pages it mapped |
| `AddressSpace.Vm.UnmapOne` | code/kernel/vm.c:200-211 | the same for one page |
| `AddressSpace.Vm.Freewalk` | code/kernel/vm.c:260-278 | frees exactly the pages of a subtree without leaves and never panics on it |
| `AddressSpace.Vm.Uvmcreate` | code/kernel/vm.c:176-187 | a new empty map, or nothing changed |
| `AddressSpace.Vm.Uvmfree` | code/kernel/vm.c:280-288 | every page of the page table, tables and leaves, is free again and the other maps are untouched |
| `AddressSpace.Vm.MapFresh` | code/kernel/vm.c:226-237 | one page allocated, filled and mapped, or given back; mappages cannot find the page mapped |
| `AddressSpace.Vm.Uvmdealloc` | code/kernel/vm.c:242-258 | removes and frees exactly the pages between the two sizes |
| `AddressSpace.Vm.Uvmalloc` | code/kernel/vm.c:214-240 | adds exactly the zeroed pages between the two sizes, or, only if memory is short, restores the previous mappings |
| `AddressSpace.Vm.FindPte` | code/kernel/vm.c:475-486 | reads the entry of a page off the map |
| `AddressSpace.Vm.Uvmcopy` | code/kernel/vm.c:290-324 | the child gets every mapping of the parent with the same flags and contents on new pages, or, only if memory is short, loses what it got |
| `AddressSpace.Vm.ProcPagetable` | code/kernel/proc.c:177-209 | a page table in which the hardware walk finds, at the two top pages and nowhere else, the trampoline (readable and executable only) and the trapframe (readable and writable only), neither open to user mode; or every page given back |
| `AddressSpace.TopPagesFound` | code/kernel/proc.c:190-202 | the walk for TRAMPOLINE and TRAPFRAME ends at the right pages with exactly those permissions |
| `AddressSpace.Vm.BuildUndo` | code/kernel/proc.c:200-206 | when the second mapping fails every page taken is given back |
| `AddressSpace.Vm.ProcFreepagetable` | code/kernel/proc.c:211-219 | unmaps both kernel pages and frees everything else |
| `ProcessMemory.UseOwner` | code/kernel/vm.c:97-115 | what a page is used for, read off free list, page tables and process table, is what the ghost owner says |
| `ProcessMemory.SomeUse` | code/kernel/proc.c:110-219 | every page has a use |
| `ProcessMemory.OneUse` | code/kernel/proc.c:110-219 | no page has two |
| `ProcessMemory.PageConservation` | code/kernel/vm.c:216-324 | every page of the allocator is in exactly one place: the free list, a page table of one process, a user page of one process at one address, one trapframe, or another kernel owner |
| `ProcessMemory.Procs.constructor` | code/kernel/kalloc.c:26-40 | the empty process table with all pages free satisfies the invariant |
| `ProcessMemory.Procs.Allocproc` | code/kernel/proc.c:106-153 | a slot with a trapframe and a page table that maps the trampoline and that trapframe, with their permissions, and nothing else; or, only for want of slots or memory, everything as before |
| `ProcessMemory.Procs.FindUnused` | code/kernel/proc.c:115-123 | the first unused slot, if any |
| `ProcessMemory.Procs.Abandon` | code/kernel/proc.c:129-142 | freeproc on a half-made slot restores the state before allocproc |
| `ProcessMemory.Procs.Freeproc` | code/kernel/proc.c:155-175 | exactly the pages of the process are free again |
| `ProcessMemory.Procs.Kfork` | code/kernel/proc.c:260-309 | the child's memory equals the parent's on pages of its own, and the child's trampoline and own trapframe are in place; a failed fork returns every page it took, and fails only for want of slots or memory |
| `ProcessMemory.TopPagesKept` | code/kernel/proc.c:190-202 | in every state that the process operations lead to, every process in use has its trampoline and its own trapframe where the walk expects them, with their permissions |
| `ProcessMemory.Procs.Growproc` | code/kernel/proc.c:237-258 | grows by zeroed pages or shrinks by exactly the pages above, keeps sz at most TRAPFRAME and mappings below it; failure restores the mappings |
| `ProcessMemory.GrownZeroed` | code/kernel/vm.c:214-240 | after growth the walk finds, for every new page that starts inside the new size, a page of zeroes that user mode may read and write but not execute |
| `ProcessMemory.NothingAbove` | code/kernel/proc.c:237-258 | the walk opens nothing to user mode that starts at or beyond the size of a process |
| `ProcessMemory.ShrinksAsAsked` | code/kernel/proc.c:250-255 | shrinking gives the size asked for if and only if the process is that large; by 101 of 100 bytes it keeps all |
| `ProcessMemory.Procs.Sbrk` | code/kernel/sysproc.c:39-65 | the same for eager and lazy growth; lazy growth moves the size only |
| `ProcessMemory.Procs.Vmfault` | code/kernel/vm.c:448-473 | maps one zeroed page if the address is below the size and unmapped, else changes nothing; fails otherwise only if memory is short |
| `ProcessMemory.FaultedZeroed` | code/kernel/vm.c:448-473 | the page a fault brings in is such a page too |
| `ProcessMemory.Procs.Reap` | code/kernel/proc.c:373-418 | reaping gives back exactly the dead process's pages and keeps the invariant |
| `ProcessMemory.Procs.TakePage` | code/kernel/pipe.c:31-32 | a page for another part of the kernel keeps every page in exactly one place |
| `ProcessMemory.Procs.GivePage` | code/kernel/pipe.c:69-72 | so does giving it back |
| `UserMemory.FilledSeen` | code/kernel/vm.c:377-403 | zeroed pages that appear below the size, rounded up to a page, change nothing that copyin and copyout of any process find |
| `UserMemory.FaultCopied` | code/kernel/vm.c:352-357 | a page fault, served or not, changes nothing that copyin and copyout of any process find |
| `UserMemory.EagerCopiesAsLazy` | code/kernel/sysproc.c:39-65 | copyin and copyout find the same after eager growth and after lazy growth by the same amount |
| `UserMemory.ShrunkSeen` | code/kernel/proc.c:250-255 | after shrinking, copyin finds exactly the pages that begin below the new size, unchanged |
| `UserMemory.ForkSeen` | code/kernel/proc.c:260-309 | after a fork copyin and copyout find for the child at every address what they find for the parent |
| `UserMemory.PutSeen` | code/kernel/vm.c:339-375 | overwriting part of a mapped page changes what copyin finds for its process alone, at those addresses alone |
| `UserMemory.Walkaddr` | code/kernel/vm.c:117-138 | finds the page of a user mapping, exactly if there is one |
| `UserMemory.UserPage` | code/kernel/vm.c:352-357 | a page of the process for the address, faulted in if need be; fails only if the process has no access there or memory is short |
| `UserMemory.Copyin` | code/kernel/vm.c:377-403 | returns exactly the bytes of the process's memory as system calls see it, across pages; stops exactly at an address without access or for want of memory, and changes nothing that any system call finds |
| `UserMemory.PutChunk` | code/kernel/vm.c:348-373 | one round of copyout |
| `UserMemory.Copyout` | code/kernel/vm.c:339-375 | copyin then finds exactly the bytes copied, at those addresses, and nothing else changes for the system calls of anyone; stops exactly at an address it may not write or for want of memory |
| `UserAccess.LoadsAreCopied` | code/kernel/vm.c:377-403 | copyin finds every byte the process can load; the two views of an unmapped page differ exactly from the size to the end of its page |
| `UserAccess.FilledLoaded` | code/kernel/vm.c:448-473 | zeroed pages that appear are loaded as zeroes to their ends, and nothing else changes for any process |
| `UserAccess.EagerVersusLazy` | code/kernel/sysproc.c:39-65 | loads and stores after eager and after lazy growth differ if and only if the address is past the new size on a page that eager growth mapped; there eager loads 0 and lazy is killed |
| `UserAccess.EagerIsLazyForPages` | code/kernel/sysproc.c:39-65 | they never differ for a new size that is a whole number of pages |
| `UserAccess.EagerDiffersAt200` | code/kernel/vm.c:458-459 | they differ at address 200 for growth from 0 to 100 bytes |
| `UserAccess.GrowAndLoad` | code/kernel/sysproc.c:39-65 | the same through the code: a new process that grows to 100 bytes and loads from 200 survives if and only if it grew eagerly |
| `UserAccess.ShrunkLoaded` | code/kernel/proc.c:250-255 | after shrinking the process loads exactly what lies below the new size and the rest of a mapped last page |
| `UserAccess.ForkLoaded` | code/kernel/proc.c:260-309 | after a fork the child loads and stores exactly what the parent does |
| `UserAccess.FaultChanges` | code/kernel/trap.c:71-78 | a served page fault changes loads and stores of exactly one process at exactly the addresses past its size on that page; a fault not served changes nothing |
| `UserAccess.FaultUnseenForPages` | code/kernel/vm.c:458-460 | a process whose size is a whole number of pages has no such address |
| `UserAccess.Access` | code/kernel/trap.c:71-78 | an access reaches its page, after at most one fault; the process is killed exactly if it has no access there or memory is short for an unmapped page |
| `UserAccess.Load` | code/kernel/trap.c:71-78 | a load returns the byte that the view says, or kills the process where it says none |
| `UserAccess.Store` | code/kernel/trap.c:71-78 | a store is loaded back from its address, and nothing else changes but zeroes past the size on a page just served |
| `Bitmap.OrBit` | code/kernel/fs.c:76-79 | setting a clear bit by its weight changes no other bit |
| `Bitmap.AndNotBit` | code/kernel/fs.c:99-103 | clearing a set bit changes no other bit |
| `Bitmap.SetBit` | code/kernel/fs.c:76-79 | the byte update sets exactly one bit of the block |
| `Bitmap.ClearBit` | code/kernel/fs.c:99-103 | the byte update clears exactly one bit of the block |
| `BlockMap.BlockOwnership` | code/kernel/fs.c:405-476 | a block is referred to by at most one slot of one inode, and its bit is set exactly when it is referred to |
| `BlockMap.AllocKeeps` | code/kernel/fs.c:66-89 | balloc's block was nobody's, and the bitmap then marks it |
| `BlockMap.LinkKeeps` | code/kernel/fs.c:405-444 | storing the block in an empty slot changes that slot only and restores the correspondence |
| `BlockMap.InUse` | code/kernel/fs.c:92-106 | a block in use has its bit set, so "freeing free block" is unreachable |
| `BlockMap.FreeKeeps` | code/kernel/fs.c:92-106 | clearing a bit keeps the correspondence but for that slot |
| `BlockMap.UnsetKeeps` | code/kernel/fs.c:448-472 | zeroing the slots of freed blocks restores the correspondence |
| `FileContents.GrowsKeepsByte` | code/kernel/fs.c:405-444 | allocating blocks changes no byte of any file |
| `FileContents.WrittenByte` | code/kernel/fs.c:539-551 | writing into a block changes exactly the bytes of that file at those offsets |
| `FileContents.OverlaidContent` | code/kernel/fs.c:528-562 | bytes written and the size set make the file's content the old one spliced |
| `FileContents.OthersContent` | code/kernel/fs.c:528-562 | every other file keeps its content |
| `Inodes.WordOfStoreWords` | code/kernel/fs.c:226-242 | storing words at a place changes exactly those words |
| `Inodes.InodeRoundTrip` | code/kernel/fs.c:226-318 | what iupdate stores, ilock loads, and the other fifteen inodes of the block stay |
| `Inodes.LowWriteKeeps` | code/kernel/fs.c:226-242 | writing an inode block changes no slot and no bit |
| `Inodes.StoreKeepsOthers` | code/kernel/fs.c:226-242 | after iupdate every inode is on the disk as it is in memory |
| `FileLayer.Files.Balloc` | code/kernel/fs.c:66-89 | the first block whose bit is clear, zeroed and marked, and every block that changed is logged; 0 exactly if all bits are set |
| `FileLayer.Files.FindClear` | code/kernel/fs.c:73-85 | the inner loop finds the first clear bit of a bitmap block |
| `FileLayer.Files.TakeBlock` | code/kernel/fs.c:74-84 | marks and zeroes the block, logging both blocks |
| `FileLayer.Files.Bfree` | code/kernel/fs.c:92-106 | clears the bit; panics exactly if it was clear |
| `FileLayer.Files.Bmap` | code/kernel/fs.c:395-444 | the address of the n-th block, through direct and indirect slots, allocated if missing; fails only on a full disk, aliases no other slot, and logs every block it changes and no others |
| `FileLayer.Files.AllocSlot` | code/kernel/fs.c:411-428 | fills one direct or the indirect slot |
| `FileLayer.Files.AllocEntry` | code/kernel/fs.c:430-440 | fills one entry of the indirect block |
| `FileLayer.Files.FreeBlocks` | code/kernel/fs.c:446-476 | the loops of itrunc free exactly the file's blocks and never a free one |
| `FileLayer.Files.FreeDirect` | code/kernel/fs.c:455-460 | one round over the direct slots |
| `FileLayer.Files.FreeIndirect` | code/kernel/fs.c:462-472 | frees the listed blocks and then the indirect block |
| `FileLayer.Files.FreeEntry` | code/kernel/fs.c:465-468 | one round over the entries |
| `FileLayer.Files.Iupdate` | code/kernel/fs.c:222-242 | the inode goes to the disk and nothing but its block changes, which is logged |
| `FileLayer.Files.Ilock` | code/kernel/fs.c:291-318 | reading an inode finds what is in memory |
| `FileLayer.Files.Itrunc` | code/kernel/fs.c:446-476 | the file is empty, exactly its blocks are free, every other file is as it was, and every changed block is logged |
| `FileLayer.Files.Readi` | code/kernel/fs.c:490-519 | returns exactly the stored slice, cut at the end of the file; nothing changes |
| `FileLayer.Files.ReadRounds` | code/kernel/fs.c:505-517 | the loop collects the slice block by block |
| `FileLayer.Files.ReadOne` | code/kernel/fs.c:506-516 | one round reads one part of one block |
| `FileLayer.Files.Writei` | code/kernel/fs.c:521-562 | returning r, the content is the old one with exactly bytes off to off + r overwritten or appended; other files and fields stay; r falls short only on a full disk or a failed copy; every block that changed is logged, and the number logged is bounded |
| `FileLayer.Files.WriteRounds` | code/kernel/fs.c:539-551 | the loop of writei, with the blocks it logs |
| `FileLayer.Files.WriteRound` | code/kernel/fs.c:540-550 | one round of it |
| `FileLayer.Files.Filewrite` | code/kernel/file.c:134-179 | the chunks together splice the whole request as far as they got; they stop short of it only on a full disk, a failed copy or a request beyond the largest file, and otherwise there is one for every 3072 bytes; no transaction logs more than MAXOPBLOCKS blocks |
| `FileLayer.Files.WriteChunk` | code/kernel/file.c:149-173 | one chunk is one transaction of at most MAXOPBLOCKS blocks that logs every block it changes, and it stops short only for those reasons |
| `FileLayer.ChunkLogs` | code/kernel/file.c:149-157 | a chunk of at most 3072 bytes at any offset logs at most ten blocks |
| `FileLayer.LogsBounded` | code/kernel/file.c:149-165 | the distinct blocks logged are bounded by data, bitmap, indirect and inode blocks, for any bitmap layout |
| `FileLayer.LogsPast` | code/kernel/fs.c:528-562 | the blocks writei logs are inode, bitmap and data blocks, all behind the log |
| `FileLayer.SpliceMore` | code/kernel/file.c:155-173 | splicing chunk after chunk is splicing the whole |
| `InodeTable.NoLeak` | code/kernel/fs.c:330-363 | a data block's bit is set if and only if an inode in use refers to it |
| `InodeTable.UseKeepsSettled` | code/kernel/fs.c:446-562 | what writei and itrunc leave keeps that if the file is in use |
| `InodeTable.Itable.WriteFile` | code/kernel/fs.c:521-562 | writei on a file in use splices its content and keeps every invariant of the file layer |
| `InodeTable.Itable.Truncate` | code/kernel/fs.c:446-476 | itrunc on a file in use frees exactly its blocks and keeps every invariant |
| `InodeTable.BlankSettled` | code/mkfs/mkfs.c:93-115 | a new file system satisfies every invariant of the file layer |
| `InodeTable.Itable.Iget` | code/kernel/fs.c:244-278 | at most one entry for each inode; panics exactly if the inode is not in the table and every entry is referenced |
| `InodeTable.Itable.TakeInode` | code/kernel/fs.c:206-216 | the first free inode gets the type and nothing else; every other file is as it was |
| `InodeTable.Itable.Ialloc` | code/kernel/fs.c:195-220 | fails exactly if no inode is free; else the new inode is empty and referenced once more; every changed block is logged |
| `InodeTable.Itable.Iput` | code/kernel/fs.c:330-363 | frees the inode and exactly its blocks, logging every changed block, if this was the last reference to a valid inode without links; otherwise only the count changes |
| `InodeTable.Itable.Validate` | code/kernel/fs.c:303-316 | the entry becomes valid; panics exactly on a free inode |
| `InodeTable.Itable.ReclaimOne` | code/kernel/fs.c:379-391 | one orphan is freed and every other file is as it was |
| `InodeTable.Itable.Ireclaim` | code/kernel/fs.c:373-393 | after boot no inode is in use without links, and every other file is as it was |
| `DiskFormat.DinodeLoads` | code/kernel/fs.h:32-39 | what is loaded from a slot of an inode block is its 64 bytes read as a dinode: four 16-bit fields, the size and thirteen addresses, least significant byte first |
| `DiskFormat.InodeOnDisk` | code/kernel/fs.h:41-45 | inode i lies, as a dinode, 64 * (i % 16) bytes into block inodestart + i / 16 |
| `DiskFormat.FreeMapBit` | code/kernel/fs.h:47-51 | block b is in use exactly if bit b % 8 of byte b % 8192 / 8 of block bmapstart + b / 8192 is set |
| `DiskFormat.RawBlockIs` | code/kernel/fs.c:406-444 | the n-th block of a file is named by the n-th of the twelve direct addresses or by a word of the indirect block |
| `DiskFormat.RawContent` | code/kernel/fs.c:395-444 | a file's content, byte by byte, is what the raw disk says: its length is the dinode's size and each byte lies in the block of its place |
| `DiskFormat.LogHeader` | code/kernel/log.c:35-38 | the log header is a count and block numbers as 32-bit words; the i-th names the home block whose contents lie i + 1 blocks behind the header |
| `DiskFormat.NotInHeader` | code/kernel/log.c:66-84 | a block that the header does not name is its own home |
| `DiskFormat.LogHeaderWritten` | code/kernel/log.c:103-115 | the header that a commit writes has that form |
| `ExitWait.StepKeeps` | code/kernel/proc.c:262-418 | every step of fork, exit, reparent, wait, sleep, wakeup and kill keeps the invariant from which the statements below about runs follow |
| `ExitWait.HandsOver` | code/kernel/proc.c:313-324 | giving a child to init keeps it, zombie child and sleeping init included |
| `ExitWait.SleepsKeeps` | code/kernel/proc.c:540-560 | falling asleep after the lock hand-off keeps it |
| `ExitWait.TurnsZombieKeeps` | code/kernel/proc.c:356-364 | turning zombie after waking the parent keeps it |
| `ExitWait.WakeKeeps` | code/kernel/proc.c:571-585 | each round of wakeup keeps it |
| `ExitWait.ReapKeeps` | code/kernel/proc.c:385-403 | freeing a zombie child keeps it |
| `ExitWait.RunKeeps` | code/kernel/proc.c:262-418 | every state of every interleaving satisfies the invariant |
| `ExitWait.NoLostWakeup` | code/kernel/proc.c:313-418 | whenever wait_lock is free, no process asleep in kwait has a zombie child and no parent pointer names a zombie or unused slot |
| `ExitWait.FreedWhenGone` | code/kernel/proc.c:385-403 | a slot is freed only after its process has switched away for good |
| `Kinship.ParentChanges` | code/kernel/proc.c:300-324 | a parent pointer changes only by a fork's link, by the exit of the parent, which hands the child to init, or when the slot is freed |
| `Kinship.ForkedChild` | code/kernel/proc.c:300-302 | the slot that a process took in fork is its child once fork has linked it, whatever other processes do in between |
| `Kinship.ChildStays` | code/kernel/proc.c:300-324 | and stays its child until it is freed or its parent's own exit hands it to init |
| `Kinship.ForkedRuns` | code/kernel/proc.c:304-306 | the last step of fork makes a child of the caller runnable that nobody could run before |
| `Kinship.FailedForkFrees` | code/kernel/proc.c:275-279 | a fork that fails gives the slot it took back |
| `Kinship.RunKids` | code/kernel/proc.c:382-407 | at every place of the scan in kwait, the flag havekids says exactly whether a slot passed so far names the caller as parent |
| `Kinship.WaitEnds` | code/kernel/proc.c:373-418 | kwait ends by freeing a zombie child and bringing its status, or fails only because no slot names the caller as parent, the caller is killed, or the status of a zombie child could not be copied out |
| `Kinship.WaitDecides` | code/kernel/proc.c:409-416 | after a scan there is no zombie child, and kwait goes on to sleep exactly if there is a child and the caller is not killed |
| `Kinship.SleepsOwnChannel` | code/kernel/proc.c:415-416 | it falls asleep on its own channel and is not asleep there beside a zombie child when wait_lock is free |
| `Kinship.ZombieStays` | code/kernel/proc.c:356-364 | as long as an exited process is a zombie it has the status it exited with |
| `Kinship.StatusDelivered` | code/kernel/proc.c:356-403 | what ends a zombie is a kwait of its parent, which frees the slot and brings the parent the child and the status it exited with |
| `Kinship.KillSticks` | code/kernel/proc.c:588-609 | a kill marks the process, ends its sleep, and holds until the slot is freed |
| `WaitLock.LockComesFree` | code/kernel/proc.c:540-564 | a process lock taken by another than the holder of wait_lock is held on the way into the scheduler, and the step that gives it back is open |
| `WaitLock.HolderMoves` | code/kernel/proc.c:311-418 | no deadlock: in every state of every run the holder of wait_lock has a step, or needs exactly one process lock, whose holder can give it back |
| `WaitLock.GivenBack` | code/kernel/proc.c:311-418 | however other processes interleave, whoever holds wait_lock gives it back after at most 4 + NPROC + NPROC * (NPROC + 2) steps of its own |
| `Scheduler.BestBelow` | code/kernel/proc.c:440-446 | from a slot the first pass finds ready to the end of the round, the number kept is at most that slot's |
| `Scheduler.DispatchesBest` | code/kernel/proc.c:427-461 | a dispatched process's number is at most that of every process that the first pass of the same round came to while it was ready, whatever changes in between |
| `Scheduler.DispatchesSeen` | code/kernel/proc.c:427-461 | and it is the number of one of them |
| `Scheduler.CountsAgree` | code/kernel/proc.c:449-459 | two always-ready processes of one priority differ in dispatches only by where the second pass stands |
| `Scheduler.EqualShares` | code/kernel/proc.c:427-461 | over any stretch of a run their counts grow by the same amount, up to one |
| `Scheduler.WaitBounded` | code/kernel/proc.c:427-461 | every step brings a waiting process with the best priority, ties allowed, nearer to its dispatch |
| `Scheduler.MostUrgentRuns` | code/kernel/proc.c:427-461 | a process that stays ready while no other ready one has a smaller number is dispatched within four passes, after at most NPROC - 1 other dispatches if its number is strictly the smallest and after at most those and one for each lower slot if others may have the same |
| `Scheduler.ProcTable.SetPriority` | code/kernel/proc.c:725-745 | changes the priority of the first slot with the pid, exactly if the priority is in range and there is one |
| `Virtio.PostKeeps` | code/kernel/virtio_disk.c:215-276 | posting a chain keeps the ring protocol; no entry not yet read is overwritten |
| `Virtio.TakeKeeps` | code/kernel/virtio_disk.c:264-276 | the device reads the oldest posted chain, through 16-bit wrap |
| `Virtio.CompleteKeeps` | code/kernel/virtio_disk.c:294-327 | completing any taken chain keeps it |
| `Virtio.SeeKeeps` | code/kernel/virtio_disk.c:294-327 | the handler reads the next completed chain, with status 0 and its own busy buffer |
| `Virtio.FinishKeeps` | code/kernel/virtio_disk.c:278-292 | freeing the chain keeps it, and the request had been completed |
| `VirtioDisk.Disk.constructor` | code/kernel/virtio_disk.c:62-153 | the rings start empty with all descriptors free |
| `VirtioDisk.Disk.AllocDesc` | code/kernel/virtio_disk.c:155-166 | a free descriptor, or -1 exactly if there is none |
| `VirtioDisk.Disk.FreeDesc` | code/kernel/virtio_disk.c:168-182 | frees it; panics exactly on a bad or free index |
| `VirtioDisk.Disk.FreeChain` | code/kernel/virtio_disk.c:184-197 | following the links frees exactly the three descriptors |
| `VirtioDisk.Disk.Alloc3Desc` | code/kernel/virtio_disk.c:199-213 | three distinct free descriptors, or, exactly if fewer than three are free, none |
| `VirtioDisk.Disk.Rw` | code/kernel/virtio_disk.c:215-276 | posts one request for the buffer or sleeps for want of descriptors |
| `VirtioDisk.Disk.Finish` | code/kernel/virtio_disk.c:278-292 | returns only after its own request was completed |
| `VirtioDisk.Disk.Intr` | code/kernel/virtio_disk.c:294-327 | one round marks exactly the buffer of the completed request as no longer busy; the status panic does not happen |
| `VirtioDisk.Disk.DeviceTake` | code/kernel/virtio_disk.c:264-276 | the device takes posted chains in order |
| `VirtioDisk.Disk.DeviceComplete` | code/kernel/virtio_disk.c:226-262 | a device that checks length, direction and end of every descriptor accepts the chain and by following it moves exactly the request's buffer to or from the request's block |
| `VirtioRuns.RunKeeps` | code/kernel/virtio_disk.c:156-327 | every state of every interleaving keeps the ring protocol: descriptors split into free ones and disjoint triples |
| `VirtioRuns.RunTracks` | code/kernel/virtio_disk.c:215-327 | a posted request stays the one it was posted as, in flight or completed, through every interleaving |
| `VirtioRuns.ExactlyOnce` | code/kernel/virtio_disk.c:215-327 | a call that has returned was completed exactly once, against its own buffer |
| `Pipe.WrapIndex` | code/kernel/pipe.c:95-123 | 32-bit counters index the ring as unbounded ones do |
| `Pipe.WrapCompare` | code/kernel/pipe.c:88-121 | 32-bit counters tell empty and full apart as unbounded ones do |
| `Pipe.Ring.constructor` | code/kernel/pipe.c:22-56 | the pipe starts empty and open |
| `Pipe.Ring.Occupancy` | code/kernel/pipe.c:88-121 | the counters say empty exactly if all stored bytes were read, full exactly if 512 were not |
| `Pipe.Ring.Put` | code/kernel/pipe.c:95-96 | stores one byte behind the others |
| `Pipe.Ring.Take` | code/kernel/pipe.c:121-129 | reads the oldest byte not yet read |
| `Pipe.Ring.Write` | code/kernel/pipe.c:76-103 | stores exactly the bytes written so far in order; sleeps only on a full open pipe; keeps first-in-first-out in every state; a sleeper is still right to sleep afterwards if and only if it is not the case that readers slept and the kill comes after the first byte and before the last |
| `Pipe.Ring.Read` | code/kernel/pipe.c:105-134 | returns the next stored bytes in order, at most n of them and at most what can be copied out; sleeps exactly on an empty open pipe unless killed; if sleepers were right to sleep they still are |
| `Pipe.Ring.Close` | code/kernel/pipe.c:58-74 | closing an end wakes everyone asleep at the other and keeps first-in-first-out |
| `Pipe.StrandedReader` | code/kernel/pipe.c:84-87 | a reader asleep on an empty pipe stays asleep beside a byte when a write of two bytes is killed after one |
| `FreeRing.InsertKeeps` | code/user/umalloc.c:33-42 | linking a block in keeps the ring sorted, linked and every unit accounted for |
| `FreeRing.MergeKeeps` | code/user/umalloc.c:33-42 | joining two touching blocks keeps it |
| `FreeRing.ReturnKeeps` | code/user/umalloc.c:24-44 | insertion and both joins leave no two free blocks touching and lose no unit |
| `FreeRing.RemoveKeeps` | code/user/umalloc.c:76-78 | taking a whole block keeps it |
| `FreeRing.CarveKeeps` | code/user/umalloc.c:78-82 | carving the tail off a block keeps it, and the tail is no live block |
| `FreeRing.GrantKeeps` | code/user/umalloc.c:46-61 | a new stretch from sbrk adds exactly its units |
| `FreeRing.Disjoint` | code/user/umalloc.c:24-90 | any two blocks, free or live, are disjoint |
| `FreeRing.Follows` | code/user/umalloc.c:24-44 | free blocks lie in address order without overlap |
| `Umalloc.Units` | code/user/umalloc.c:69 | the units of a request hold its bytes behind one header unit, with less than a unit to spare |
| `Umalloc.CoreUnits` | code/user/umalloc.c:52-53 | the request, or 4096 units if it is smaller |
| `Umalloc.GrantExact` | code/user/umalloc.c:46-56 | sbrk is asked for what the header claims if and only if the request is at most 0x7fff_ffe0 bytes |
| `Umalloc.GrantFallsShort` | code/user/umalloc.c:46-56 | at 0x7fff_ffe1 bytes sbrk is asked to shrink by 2^31 |
| `Umalloc.Allocator.constructor` | code/user/umalloc.c:21-22 | before the first malloc there is no ring |
| `Umalloc.Allocator.Free` | code/user/umalloc.c:24-44 | the block is no longer live, a free block at least as large exists, and no unit is lost |
| `Umalloc.Allocator.FindPlace` | code/user/umalloc.c:30-32 | the loop stops at the one place in address order where the block belongs |
| `Umalloc.Allocator.Join` | code/user/umalloc.c:33-42 | the header assignments link the block in and join it with its neighbours |
| `Umalloc.Allocator.Morecore` | code/user/umalloc.c:46-61 | adds the stretch to the ring; fails exactly if sbrk fails |
| `Umalloc.Allocator.Malloc` | code/user/umalloc.c:63-90 | hands out a block of the right size that was not live, after at most one morecore, which it needs exactly if no free block is large enough; returns 0 exactly if that sbrk fails |
| `Umalloc.Allocator.Search` | code/user/umalloc.c:74-87 | one trip around the ring finds a large enough block if there is one |
| `Umalloc.Allocator.Start` | code/user/umalloc.c:70-73 | makes the ring of the degenerate block, once |
| `Umalloc.Allocator.TakeBlock` | code/user/umalloc.c:75-85 | takes all of a block or its tail |
| `Shell.TokenAt` | code/user/sh.c:271-314 | a token lies after the whitespace, within the line, and is a word exactly if it starts with a word character |
| `Shell.WordsAreRuns` | code/user/sh.c:271-314 | the word tokens of a line are exactly its maximal stretches of word characters, each once |
| `Shell.SkipSpace` | code/user/sh.c:278-279 | the loops over whitespace stop at the first other character |
| `Shell.SkipWord` | code/user/sh.c:303-305 | the loop over a word stops at its end |
| `Shell.Classify` | code/user/sh.c:282-307 | the switch on the first character finds kind and end of the token |
| `Shell.GetToken` | code/user/sh.c:271-314 | returns the next token and leaves the rest |
| `Shell.Peek` | code/user/sh.c:316-326 | skips whitespace and tells whether the next character is one of the given |
| `Shell.ParseLine` | code/user/sh.c:350-365 | reads from the line exactly what the parser on token lists reads from its tokens, and terminates |
| `Shell.ParsePipe` | code/user/sh.c:367-378 | reads from the line what the pipeline parser reads from its tokens, or panics where it does |
| `Shell.ParseRedirs` | code/user/sh.c:380-403 | wraps the command in the redirections that follow, the last outermost, or panics if a file name is missing; which text makes which redirection is in `ShellText.ParseCmd` |
| `Shell.ParseBlock` | code/user/sh.c:405-419 | reads a parenthesised line and its redirections, or panics if a parenthesis is missing |
| `Shell.ParseExec` | code/user/sh.c:421-452 | reads one command with arguments and redirections in any order, or panics on a bad token or too many arguments |
| `Shell.LineSound` | code/user/sh.c:350-452 | what the parser returns is a tree of the grammar for the tokens it read |
| `Shell.LineComplete` | code/user/sh.c:350-452 | every tree of the grammar with few enough arguments is what the parser returns for its tokens |
| `Shell.Accepts` | code/user/sh.c:333-348 | the parser accepts exactly the lines of the grammar with fewer than MAXARGS arguments a command, and no line has two trees |
| `Shell.LineWords` | code/user/sh.c:350-452 | a tree of the grammar points to each word of its line exactly once, as argument or file |
| `ShellText.ParseCmd` | code/user/sh.c:333-346 | a tree exactly for the accepted lines, a panic exactly for the others; the tree's redirections are exactly the words of the line behind an operator, each once: behind a lone '<' with mode 0 on descriptor 0, a lone '>' with 0x601 on 1, '>>' with 0x201 on 1; it has a pipe, list or background node for every bar, semicolon and ampersand |
| `Shell.NulTerminate` | code/user/sh.c:454-499 | writes NUL at exactly the ends of the tree's strings |
| `Shell.EndArgs` | code/user/sh.c:469-473 | the same for one argument list |
| `Shell.TerminatedWord` | code/user/sh.c:454-499 | a word followed by a written NUL is a C string equal to the word |
| `ShellText.ParseAndTerminate` | code/user/sh.c:333-348 | each maximal word of an accepted line appears exactly once in the tree, whose redirections and joins are those written, and after the pass each pointer is a C string equal to its word |
| `ShellText.TokenText` | code/user/sh.c:268-314 | the text of a token decides its kind: nothing, one of the seven symbols, '>>', or characters that are neither blanks nor symbols |
| `ShellText.LineMeans` | code/user/sh.c:350-452 | a tree of the grammar has exactly the redirections and joins of its tokens, and every operator has its file |
| `ShellText.TokensSay` | code/user/sh.c:380-403 | the redirections among the tokens from any place on are those whose operator is written there |
| `ShellText.RedirectionsAreWritten` | code/user/sh.c:389-400 | for every word, mode and descriptor: the tree has that redirection once if the text before the word, blanks left out, ends in the operator for it, and else not at all |
| `ShellText.JoinsAreWritten` | code/user/sh.c:350-378 | a pipe for every bar of the line, a list for every semicolon, a background command for every ampersand |
| `Grep.Match` | code/user/grep.c:72-82 | terminates and returns true exactly if the pattern occurs in the text, for every pattern and text |
| `Grep.MatchHere` | code/user/grep.c:84-96 | true exactly if the pattern matches at the beginning |
| `Grep.MatchStar` | code/user/grep.c:98-106 | true exactly if a starred item and the rest match at the beginning |
| `Grep.OneBegins` | code/user/grep.c:93-94 | a single item takes one fitting character |
| `Grep.ManyBegins` | code/user/grep.c:98-106 | any number of fitting characters may be skipped |
| `Grep.ManySplits` | code/user/grep.c:98-106 | every match of a starred item is such a skip |
| `Grep.NoMany` | code/user/grep.c:98-106 | where the loop gives up there is no match |

## Left out

- RedoLog.Log.Commit: stated for moments at which no other process holds a buffer; a reader outside any transaction may take the last one.
- RedoLog.Log.CopyToLog: likewise.
- RedoLog.Log.WriteLog: likewise.
- RedoLog.Log.CopyHome: likewise.
- RedoLog.Log.InstallTrans: likewise.
- RedoLog.Log.EndOp: likewise, for the last operation only.
- BufferCache.BCache.Bread: runs to its end without sleeping; what happens while a process waits for the sleep lock of a buffer is another process's call.
- Spinlocks and sleep locks themselves, memory ordering, interrupts, TLB flushes: regions under a lock are single steps.
- AddressSpace.Vm.Mappages: for one page at a time, which is how user memory is mapped; the kernel's own page table and multi-page mappings are not modelled, nor are the alignment panics and the junk that kalloc and kfree write.
- AddressSpace.Vm.Uvmunmap: frees only below the trapframe and drops mappings only from there on, as all its callers do.
- AddressSpace.Vm.UnmapOne: likewise.
- AddressSpace.Vm.Kfree: for a page the kernel holds; the panic on a foreign address is not reached by the modelled callers.
- Operations on address spaces are taken one at a time: another CPU's kalloc in the middle of one is not modelled.
- ProcessMemory.Procs.Kfork: the memory part only; pids, open files and the copied trapframe are not modelled.
- UserMemory.Copyout: for the calling process's own page table, not for the new image of exec; copyinstr is left out.
- kexec and loadseg, uvmclear, and the first process's image.
- FileLayer.Files.Writei: a copy from the caller succeeds for a whole part of a block or fails for it; a copy that fails part way leaves a changed buffer that is not logged.
- FileLayer.Files.WriteRounds: likewise.
- FileLayer.Files.WriteRound: likewise.
- FileLayer.Files.Filewrite: no other process writes to the file between its transactions.
- The file layer works on the map from block to data that cache and log are proved to implement; the calls in between (bread, log_write, brelse) are not repeated there.
- Directories, path names, link counts, file descriptors.
- InodeTable.Itable.Iput: runs without interruption; the sleep lock it takes cannot be held by another process, as its comment says.
- Scheduler: one CPU; context switches are steps of the environment.
- ExitWait: pids are slots; where in the caller's memory the status is copied.
- Virtio: device setup and notification registers.
- VirtioDisk.Disk.Rw: does not model that the product of block number and sectors per block is a 32-bit one.
- Pipe.Ring.Close: freeing the pipe's page once both ends are closed.
- Umalloc.Allocator.Morecore: sbrk returns memory above all it returned before.
- Umalloc.Allocator.Malloc: what happens after sbrk was asked for less than the header claims is not modelled.
- Shell: the tree is a value, not heap nodes; running commands, cd and reading lines.
- Grep: reading lines from files.
- console, printf, string functions, traps, start-up, getpinfo and get_runnable_procs, the other user programs.
