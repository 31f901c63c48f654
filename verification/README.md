# PKE kernel: a verified model

This project models the parts of the PKE teaching kernel (a small RISC-V proxy kernel)
whose correctness spans several functions, and proves what they promise over all inputs
and all runs. A panic, a failed assertion and a shutdown are outcomes of a call, so "never
panics" is a statement about reachable states.

## What is modelled

**File system** (`RfsLayout`, `RfsCompact`, `RfsFile`, `RfsVolume`, `VfsState`, `VfsSteps`,
`PathTokens`, `HashTable`, `VfsTables`, `FileSystem`, `FileCalls`, `FileRuns`, `FileLaws`). One RFS volume
mounted from a RAM disk: disk inodes, directory files of 32-byte entries, data blocks and the
free map, under a vinode cache, a dentry cache with their chained hash tables, link counts,
two kinds of reference count and the descriptor tables of all processes. `VfsState.StateOk`
ties the layers together. Lookup goes through strtok on a copy of the path and through the
hash tables. Open with create, opendir, mkdir, link, unlink, read, write, seek and close are
the methods of `FileCalls.Calls`. `FileCalls.Verdict` says of every call in every state how it
ends, and `FileCalls.Effect` what it leaves; each method is proved to do just that and to keep
the invariant, and `FileRuns` draws the conclusions over whole runs, from a formatted disk on:
what the counts and maps agree on, and that reads return what was written. `FileLaws` gives
the outcome and the result of each call by names, flags and offsets: a path is its components
followed through the map of names, and the access of a descriptor and the target of a seek are
spelled out.

Two promises turn out to hold only under a condition, and the exact condition is proved.
A write does not always splice its bytes into the file, because the last, partial block is
not read first (`RfsFile.WriteSplicesExactlyWhen`). Used blocks can exceed owned blocks,
because the last unlink frees the blocks that the disk inode lists, and the disk inode of a
file that has grown may be behind (`FileRuns.RunKeepsUsedOwned`); `FileRuns.BlockLost` is a run
of six successful calls that gets there. The check of open, mkdir and link that only the last
component is missing compares names only; `FileRuns.CreateResolves` says when the created name
is the one the path means.

**System call write** (`SysWrite`). The page-by-page loop over a user buffer, through the
process's page table, into the file system above.

**Memory** (`Sv39`, `PageTables`, `Paging`, `UserSpace`, `ProcMemory`, `ProcFork`, `VmRuns`).
Physical memory is raw: pages of 512 words, a free list threaded through the first word of
free pages, and three-level page tables that live in pages. A ghost map gives each page its
use; from it follow that the tables behave as finite maps, that they agree with the
hardware's walk (RISC-V Privileged Architecture, version 20211203, section 4.3.2), and that
pages of different uses never meet over runs of process creation, code loading, heap calls,
page faults, user stores and forks; a private page changes by its owner's doing only
(`VmRuns.PrivateForEver`). The calls have exact conditions: the number of pages that
each takes, page tables included, follows from the shape of the tables
(`PageTables.TablesFor`). Pages that several processes map are never writable for users. A
process is called clean while only its heap calls have mapped or unmapped pages of its heap
area; for clean processes the heap is exactly its mapped and its reclaimed pages, and every
address in a live page can be loaded from and stored to. What a mapping is good for is always
said by the hardware's walk: `PageTables.DataPage`, `CodePage` and `NoAccess`. The filter
array of fork is cleared in bytes but read as integers, so it is reliable for eight pages
only: `ProcFork.CopiesAllExactlyWhen`.

**Scheduler** (`Scheduler`). Ticks, yields, exits and forks as steps of a state machine, the
intrusive ready queue as a class that refines it, what each step does to the running process
and the queue, the round that yields go, no stall, and the bounded wait.

**ELF loader** (`ElfLoad`), over the same memory and page tables, with pages read as bytes
(`UserBytes`) and with the program headers as an encoder writes them, and **device tree scanner** (`FdtScan`), after section 5.4 of the Devicetree
Specification, v0.4.

Integers are unbounded in Dafny; words of 64 and 32 bits, wrap-around of address sums and
byte order are written out where the code depends on them.

## Model

| member | source | states |
|---|---|---|
| `Scheduler.StepSafe` | kernel/sched.c:13-73 | every tick, yield, exit and fork keeps the invariant: one RUNNING process, which is current; the queue holds each READY process once and nothing else; neither the READY assertion nor the unfinished-processes panic is reached |
| `Scheduler.RunSafe` | kernel/sched.c:45-73 | the same over every sequence of steps |
| `Scheduler.BootSafe` | kernel/process.c:76-84 | after the pool is set up and the first process is scheduled, slot 0 runs, the others are FREE and nobody waits; this satisfies the invariant, and so does every state reached from there |
| `Scheduler.ShutDownExactlyWhenDone` | kernel/sched.c:45-64 | a step shuts the machine down exactly when it is an exit that leaves every slot FREE or ZOMBIE |
| `Scheduler.StepBrings` | kernel/strap.c:76-84 | one step lets a queued process run (or is a fork without a free slot), moves it up by one place, or leaves it in place with the running process's tick count up by one on a tick; the last tick of a slice does one of the first two |
| `Scheduler.WaitBound` | kernel/sched.c:66-72 | a process at queue position k runs within a slice for each process ahead of it plus the ticks left in the current slice |
| `Scheduler.BoundedWait` | kernel/strap.c:76-84 | a process at queue position k has run within 2(k+1) ticks of any run of ticks, yields, exits and forks, unless a fork found no free slot |
| `Scheduler.YieldGivesWay` | kernel/syscall.c:88-94 | from every state of a run: with somebody waiting, a yield makes the head of the queue current and RUNNING and the one that yields READY at the end of the queue; with nobody waiting nothing changes; no other status and no tick count changes |
| `Scheduler.TickGivesWay` | kernel/strap.c:76-84 | a tick adds one to the count of the running process; the one that ends the slice does what a yield does, with the count back at 0 |
| `Scheduler.ExitLeaves` | kernel/syscall.c:35-41 | an exit makes the running process a ZOMBIE and the head of the queue current and RUNNING, and shuts down with nobody waiting |
| `Scheduler.ForkAdds` | kernel/process.c:247-256 | a fork makes the first FREE slot READY at the end of the queue and changes nothing else, and panics exactly if there is none |
| `Scheduler.YieldsGoRound` | kernel/sched.c:45-73 | round robin: under nothing but yields the processes run in the order of the queue, the n-th after n yields, and once all have run the state is what it was |
| `Scheduler.Kernel.InsertToReadyQueue` | kernel/sched.c:13-36 | on the intrusive list: the process is appended once, or nothing changes when it is already queued |
| `Scheduler.Kernel.ShouldShutdown` | kernel/sched.c:45-64 | the scan over the process slots decides whether all are finished |
| `Scheduler.Kernel.Schedule` | kernel/sched.c:45-73 | refines the dispatch of the state machine: the head runs, or the machine shuts down |
| `Scheduler.Kernel.Rrsched` | kernel/strap.c:76-84 | refines the tick step |
| `Scheduler.Kernel.SysUserYield` | kernel/syscall.c:88-94 | on the intrusive list, refines the yield step, which `Scheduler.YieldGivesWay` says in full |
| `Scheduler.Kernel.SysUserExit` | kernel/syscall.c:35-41 | refines the exit step |
| `Scheduler.Kernel.AllocProcess` | kernel/process.c:89-101 | the first FREE slot is found, or none is |
| `Scheduler.Kernel.DoFork` | kernel/process.c:247-256 | refines the fork step: the child is READY at the end of the queue |
| `RfsLayout.PutEntrySlot` | kernel/rfs.c:222-232 | an entry written into a block decodes to itself and leaves every other slot alone |
| `RfsLayout.PutEntryBytes` | kernel/rfs.h:46-49 | the bytes of an entry: the inode number in four, lowest first, then the name and a NUL; no other byte of the block changes |
| `RfsCompact.MemMove` | util/string.c:125-139 | in-place move in the direction that overlap asks for equals a copy taken first |
| `RfsCompact.Compact` | kernel/rfs.c:652-708 | the block loop of the compaction leaves the row of entry slots without the deleted one, over any number of blocks |
| `RfsCompact.CompactRemovesEntry` | kernel/rfs.c:652-708 | in terms of entry lists: exactly the deleted index is gone, order kept across blocks, and the last block is given back exactly when it is emptied and is not the only one |
| `RfsFile.AllocBlock` | kernel/rfs.c:183-197 | the first free block is taken; failure exactly if none is free |
| `RfsFile.Write` | kernel/rfs.c:364-429 | the three-phase write changes the flat file exactly as WriteFlat says, takes exactly the blocks that its end needs beyond those the file has, touches no foreign block, and sets size and offset; it panics exactly past the end of the file or with fewer free blocks than it needs |
| `RfsFile.WriteFlatPrefix` | kernel/rfs.c:380-421 | every write leaves the file right up to the byte where it ends |
| `RfsFile.WriteIsSplice` | kernel/rfs.c:364-429 | a write that reaches end of file, ends on a block boundary, or starts unaligned and stays in one block is a splice of the content |
| `RfsFile.WriteSplicesExactlyWhen` | kernel/rfs.c:412-421 | for every offset, length and size: the write is a splice for all contents if and only if one of those three conditions holds |
| `RfsFile.ReadFile` | kernel/rfs.c:306-359 | the read returns the slice of the content from the offset, cut at the size; it fails only past the end or at the end of a file that fills its blocks |
| `RfsFile.ReadSeesSlice` | kernel/rfs.c:353-354 | the string copy hands over the whole slice if and only if the slice has no NUL byte |
| `RfsVolume.CreatedOk` | kernel/rfs.c:468-517 | create and mkdir keep the volume invariant, add one name, leak nothing |
| `RfsVolume.LinkedOk` | kernel/rfs.c:576-593 | link keeps the volume invariant, adds one name, leaks nothing |
| `RfsVolume.DroppedLeaks` | kernel/rfs.c:637-647 | freeing the listed blocks of a dead inode leaks exactly its unlisted blocks |
| `RfsVolume.UnlinkedOk` | kernel/rfs.c:598-713 | unlink keeps the volume invariant, removes exactly one name, and leaks exactly the blocks that a final unlink did not find in the disk inode |
| `RfsVolume.RewrittenOk` | kernel/rfs.c:395-421 | growing a file by free blocks and rewriting its own blocks keeps the volume invariant and leaks nothing |
| `RfsVolume.RewrittenElsewhere` | kernel/rfs.c:364-429 | a write to one file changes neither the listing nor the content of any other inode |
| `RfsVolume.LiveInodesFitBlocks` | kernel/rfs.c:70-73 | there are no more inodes in force than the live ones that the search counts, and no more of those than data blocks, since each owns a first block of its own |
| `RfsVolume.SomeInodeFree` | kernel/rfs.c:472-486 | so some inode number below 320 is free in every volume that satisfies the invariant |
| `PathTokens.TokensAreFields` | util/string.c:77-99 | the tokens that repeated strtok calls give are the non-empty components between slashes |
| `PathTokens.Strtok.Next` | util/string.c:77-99 | one call on the shared buffer returns the next token, leaves the cursor at the rest and the earlier tokens as they are |
| `HashTable.HashGet` | util/hash_table.c:21-30 | the walk along a bucket chain finds what the finite map has for the key |
| `HashTable.HashPut` | util/hash_table.c:7-19 | a put at the chain's head updates the finite map at one key, or reports that the key is there |
| `HashTable.HashErase` | util/hash_table.c:32-44 | an erase removes one key, or reports that it is absent |
| `VfsTables.DentryHashFunc` | kernel/vfs.c:633-645 | the hash depends only on the C string and the parent, so equal keys share a bucket |
| `VfsTables.SameString` | kernel/vfs.c:623-631 | strcmp on the names is equality of the C strings |
| `VfsTables.DentryHashEqual` | kernel/vfs.c:623-631 | two dentry keys are equal exactly if parent and C string are |
| `VfsTables.HashGetDentry` | kernel/vfs.c:647-651 | the dentry table as a map from parent and name |
| `VfsTables.HashPutDentry` | kernel/vfs.c:653-662 | the same map with one key more |
| `VfsTables.HashEraseDentry` | kernel/vfs.c:664-667 | the same map with one key less |
| `VfsTables.HashGetVinode` | kernel/vfs.c:685-690 | the vinode table as a map from inode number |
| `VfsTables.HashPutVinode` | kernel/vfs.c:692-701 | the same map with one key more |
| `VfsTables.HashEraseVinode` | kernel/vfs.c:703-707 | the same map with one key less |
| `VfsSteps.WithVinodeOk` | kernel/vfs.c:542-552 | caching a vinode read from disk keeps the state invariant |
| `VfsSteps.WithDentryOk` | kernel/vfs.c:598-608 | a new dentry with its reference keeps the state invariant |
| `VfsSteps.WithoutDentryOk` | kernel/vfs.c:378-382 | forgetting a file's dentry that is not open keeps the state invariant |
| `VfsSteps.WrittenBackOk` | kernel/rfs.c:259-277 | writing back and dropping a vinode with no reference left keeps the state invariant |
| `VfsSteps.DeadHasNoRef` | kernel/vfs.c:343-346 | an inode whose last name is gone has no cached dentry, so its vinode's ref is 0 |
| `VfsSteps.UnlinkedStateOk` | kernel/vfs.c:332-352 | unlink with its cache updates keeps the state invariant; the assertion on the dead vinode's ref holds |
| `FileSystem.FormatInodes` | kernel/rfs.c:79-95 | every inode of a formatted disk is free |
| `FileSystem.Vfs.Format` | kernel/rfs.c:62-124 | formatting and mounting a disk with any contents gives a state that satisfies the invariant: an empty root directory, no other inode, no name, used blocks exactly the owned ones, 99 blocks free |
| `FileSystem.FindEntry` | kernel/rfs.c:437-462 | the directory scan returns the first entry of that name |
| `FileSystem.Vfs.Descend` | kernel/vfs.c:522-556 | one component, through the dentry table, the directory on disk and the vinode table: the child exists exactly when the disk directory has the name, and cache and disk lead to the same inode |
| `FileSystem.Vfs.LookupFinalDentry` | kernel/vfs.c:510-560 | lookup with strtok and through the hash tables ends where a walk of the directories on disk over the path's tokens ends: same inode, same last entry, or same missing component; nothing on the volume changes |
| `FileSystem.Vfs.FindFreeInode` | kernel/rfs.c:472-486 | the search returns the first free inode and always succeeds |
| `FileSystem.Vfs.AddDirentry` | kernel/rfs.c:210-245 | the directory lists what it listed and then the new entry; its inode is written back |
| `FileSystem.Vfs.RfsNew` | kernel/rfs.c:468-517 | a new, empty inode with one block and one name, on disk and in the parent's vinode; panics exactly if no block is free |
| `FileSystem.Vfs.CreateUnder` | kernel/vfs.c:134-142 | the new inode gets vinode and dentry; the name map changed at exactly one key; the bytes of no file and the entries of no other directory changed; done exactly if the directory's block and the name field have room and a block is free, a panic exactly if only the block is missing |
| `FileSystem.Vfs.RfsLink` | kernel/rfs.c:576-593 | one link more, in vinode and disk inode, and one entry more |
| `FileSystem.Vfs.LinkUnder` | kernel/vfs.c:296-305 | the name map changed at exactly one key, to the old file's inode, whose link count is one up; the bytes of no file changed; done exactly if the directory's block and the name field have room |
| `FileSystem.FreeBlocks` | kernel/rfs.c:640-643 | exactly the blocks listed in the disk inode are freed |
| `FileSystem.Vfs.ReleaseInode` | kernel/rfs.c:626-650 | one link less in vinode and disk inode; the last link frees the listed blocks and the disk inode |
| `FileSystem.Vfs.RemoveEntry` | kernel/rfs.c:652-710 | the directory without the entry, its emptied last block given back, its inode written |
| `FileSystem.Vfs.RfsUnlink` | kernel/rfs.c:598-713 | the state in which rfs_unlink returns, from any state that satisfies the invariant; the assertion that the two link counts agree holds |
| `FileSystem.Vfs.UnlinkDentry` | kernel/vfs.c:332-352 | the invariant is kept, the name map lost exactly one key, the dead-inode assertion holds, the nodes in force and on disk change at the file and its directory only, the bytes of every file that stays are kept, and the leak is exactly the unlisted blocks of a dead inode |
| `FileCalls.FindSlot` | kernel/proc_file.c:90-94 | the first free descriptor slot, and one exists while fewer than 128 are open |
| `FileCalls.GetBaseName` | kernel/vfs.c:565-577 | the last token of the path, read once strtok has gone over all of them |
| `FileCalls.HookOpendir` | kernel/rfs.c:718-744 | the directory's blocks are read in; the memory-discontinuity panic is exactly two pages out of row, which takes a directory of more than one block |
| `FileCalls.Calls.Resolve` | kernel/vfs.c:111-150 | the dentry to open: the path's inode, or a new file under the missing last component; how it ends, in every state |
| `FileCalls.Calls.DoOpen` | kernel/proc_file.c:82-101 | one descriptor more, in the first free slot, on the path's file, readable and writable as `FileLaws.OpenedFile` and `FileLaws.OpenedNew` say; a panic exactly if no block is free for a new file, the access mode is 3 or the process has opened 128 files; every open descriptor stays on its file |
| `FileCalls.Calls.DoOpenDir` | kernel/proc_file.c:168-186 | opens exactly existing directories; panics exactly when all slots are taken |
| `FileCalls.Calls.DoMkdir` | kernel/vfs.c:445-477 | one new directory inode and one new name; refused exactly when the path exists or misses more than its last component by name, a panic exactly if no block is free; when it is done and what it leaves, by names, in `FileLaws.MkdirMakes` and `FileLaws.MkdirMade` |
| `FileCalls.Calls.DoLink` | kernel/vfs.c:262-306 | one new name for an existing file and one link more; refused exactly in the cases with a message; no panic |
| `FileCalls.Calls.DoUnlink` | kernel/vfs.c:312-355 | the entry that the path ends in is removed; refused exactly for a missing path, a directory, or a file open under that very name; no panic |
| `FileCalls.Calls.Forget` | kernel/vfs.c:376-391 | the dentry and, with its last dentry, the vinode leave the cache; the disk inode is written exactly then, and the nodes in force and the names do not change |
| `FileCalls.Calls.DoClose` | kernel/vfs.c:360-396 | exactly one descriptor goes; the disk inode is written exactly if it was the last descriptor on the last cached dentry of the file; no name, no node in force and no block changes |
| `FileCalls.Calls.DoCloseDir` | kernel/vfs.c:482-503 | exactly one descriptor goes and no dentry leaves the cache |
| `FileCalls.Calls.DoLseek` | kernel/rfs.c:525-549 | the offset moves to the target exactly when the target lies in the file; the target is spelled out in `FileLaws.Seeks` and `FileLaws.Sought` |
| `FileCalls.Calls.DoRead` | kernel/vfs.c:191-202 | returns the content from the descriptor's offset and moves the offset to where it stopped; a panic exactly on a descriptor that is not readable, so never on the offset |
| `FileCalls.Calls.RfsWrite` | kernel/rfs.c:364-429 | a write to an open file keeps the state invariant and changes that file only; it fails exactly if fewer blocks are free than it needs |
| `FileCalls.Calls.DoWrite` | kernel/proc_file.c:123-130 | the write's effect on content, size, blocks, offset and nothing else; a panic exactly on a descriptor that is not writable or for lack of blocks, so never on the offset |
| `FileRuns.Execute` | kernel/proc_file.c:82-223 | every call in every state ends as its verdict says, and if it returns it keeps the invariant, has its effect, leaves every other descriptor on its file and, for a read, returns the bytes of the file at the offset |
| `FileRuns.Run` | kernel/proc_file.c:82-223 | any sequence of calls by any processes: the invariant at every point, every call with its verdict, its effect and the bytes it returned, and an early end only at a call whose verdict is a panic or out of scope |
| `FileRuns.ContentStays` | kernel/rfs.c:364-429 | in every run the bytes of a file change only by writes to it; no open, create, link, unlink, close or write of another file touches them |
| `FileRuns.ReadsBack` | kernel/proc_file.c:104-130 | in every run a read inside the range of an earlier write to the file, by any descriptor of any process, returns the bytes that were written, unless the file was written again in between |
| `FileRuns.Boot` | kernel/proc_file.c:21-35 | the same from a formatted disk, with the condition for used blocks to be the owned ones |
| `FileRuns.VinodesHold` | kernel/vfs.c:685-707 | under the invariant there is at most one cached vinode per inode number, holding the node in force |
| `FileRuns.CountsHold` | kernel/vfs.c:582-608 | under the invariant ref is the number of cached dentries on a vinode and d_ref the number of open descriptors on a dentry |
| `FileRuns.LinksHold` | kernel/rfs.c:626-650 | under the invariant the link count on disk equals the one in force and the number of entries, over all directory files on disk, that name the inode |
| `FileRuns.NamesHold` | kernel/rfs.c:437-462 | under the invariant a name is mapped exactly if the directory file on disk lists it, once, and to the inode number of that entry |
| `FileRuns.BlocksHold` | kernel/rfs.c:183-205 | under the invariant no block is owned twice and every owned block is marked used |
| `FileRuns.RunKeepsUsedOwned` | kernel/rfs.c:637-647 | used blocks equal owned blocks after a run if and only if no final unlink on the way found a disk inode listing fewer blocks than the file has |
| `FileRuns.BlockLost` | kernel/rfs.c:637-647 | after create, link, write of more than a block, close and two unlinks from a formatted disk, all of them done, a block is marked used that no inode has |
| `FileRuns.CreateResolves` | kernel/vfs.c:124-131 | after a create the path leads to the new inode if and only if the missing component was the last |
| `FileRuns.SameNameTwice` | kernel/vfs.c:124-131 | the callers' name check lets a/a through on a volume without a, and then the path does not lead to the new file |
| `FileLaws.WalkFollows` | kernel/vfs.c:510-560 | the walk over the directories on disk arrives exactly where the components of the path lead through the map of names, for every path |
| `FileLaws.MkdirMakes` | kernel/vfs.c:445-477 | mkdir is done where only the last component is missing, the directory and the name field have room and a block is free; a panic if just the block is missing; refused where the path leads somewhere |
| `FileLaws.MkdirMade` | kernel/vfs.c:461-477 | then the path leads to a new, empty directory, the names are the old ones and this one, one block less is free, and opendir of the path is done for every process with a slot left |
| `FileLaws.OpensDirs` | kernel/vfs.c:401-427 | opendir is done exactly for a path that leads to a directory and a process with a slot below 128 left; a file is refused |
| `FileLaws.OpenedDir` | kernel/proc_file.c:168-186 | then there is one descriptor more, of that process, on the directory |
| `FileLaws.OpensFile` | kernel/vfs.c:111-180 | open of a path that leads somewhere: refused for a directory, a panic for access bits 3 or a process that has opened 128 files, else done |
| `FileLaws.OpensNew` | kernel/vfs.c:119-145 | open where only the last component is missing: refused unless bit 6 of the flags is set, else done while there are room, a block, access bits below 3 and fewer than 128 opens |
| `FileLaws.OpenedFile` | kernel/vfs.c:153-172 | the new descriptor is at offset 0 of the path's file; it is readable exactly if flags mod 4 is 0 or 2, and writable exactly if it is 1 or 2; nothing on the volume and no other descriptor changes |
| `FileLaws.OpenedNew` | kernel/vfs.c:134-172 | the same for an open that creates: the file is new and empty, the path leads to it, and the names are the old ones and this one |
| `FileLaws.LinkAdds` | kernel/vfs.c:262-306 | link is done for a path to a file and a new name of which only the last component is missing and for which there is room; refused for a directory and for a new name that leads somewhere |
| `FileLaws.LinkAdded` | kernel/vfs.c:296-305 | then both paths lead to the file, which has one link more and is otherwise as it was; the names are the old ones and this one |
| `FileLaws.UnlinkTakes` | kernel/vfs.c:312-330 | unlink is done exactly if the last component names a file that no descriptor holds under that name; else it is refused |
| `FileLaws.UnlinkTook` | kernel/vfs.c:332-352 | then exactly that name is gone; the file has one link less, or is gone with its last |
| `FileLaws.Reads` | kernel/proc_file.c:104-118 | a read through a descriptor that is not readable panics, any other is done but for the end of a file that fills its blocks |
| `FileLaws.ReadMoves` | kernel/rfs.c:306-359 | a read gives as many bytes as were asked for, or as the file has from the offset on, and leaves the offset behind them; nothing else changes |
| `FileLaws.Writes` | kernel/proc_file.c:123-130 | a write below ten blocks is done exactly if the descriptor is writable and the blocks of the file with the free ones reach to its end; else it panics |
| `FileLaws.Seeks` | kernel/rfs.c:525-549 | whence 0 with an argument in the file, or whence 1 with an argument that leads from the offset to a place in the file, is done; everything else is refused |
| `FileLaws.Sought` | kernel/rfs.c:525-549 | whence 0 leaves the offset at the argument, whence 1 at the old offset plus the argument; no other descriptor and nothing on the volume changes |
| `FileLaws.Closes` | kernel/vfs.c:360-503 | close is done exactly for files and closedir for directories, and takes exactly that descriptor away |
| `FileLaws.DescriptorStays` | kernel/proc_file.c:82-223 | in every run a descriptor that is not closed stays open, on the same file and with the same access |
| `FileLaws.AccessOfOpen` | kernel/proc_file.c:104-130 | in every run, right after a successful open: a read panics exactly with access bits 1 and is done otherwise, a write panics with access bits 0, and is done with 1 and 2 while blocks are free for it |
| `FileLaws.ReadsAgain` | kernel/rfs.c:525-549 | in every run, a read, later a seek with whence 0 to where it began, and the same read again: the same bytes, if the descriptor was not closed and the file not written in between |
| `FileLaws.ReadsInPieces` | kernel/rfs.c:306-359 | in every run two reads in turn through a descriptor give together what one read of both lengths would have given, if the file was not written in between |
| `FileLaws.WrittenReadBack` | kernel/rfs.c:364-429 | in every run a write, later a seek with whence 0 to where it began and a read of the same length give back the bytes written, if the file was not written again in between |
| `FileLaws.OpenLimit` | kernel/proc_file.c:82-101 | in every run open of a file is done while the process has opened fewer than 128 and panics from then on, whatever it has closed |
| `FileLaws.DirectoriesStay` | kernel/vfs.c:445-477 | in every run a path that leads to a directory leads to it for ever, and can be opened as one while a slot is left |
| `FileLaws.MadeInside` | kernel/vfs.c:445-477 | from a formatted disk, mkdir of A and the creation of A/b are both done, and then A leads to a directory, A/b to a new, empty file in it, and there is no other name |
| `SysWrite.SysUserWrite` | kernel/syscall.c:123-134 | for any alignment of the buffer and any page table: the call succeeds exactly if every byte of the buffer can be read and the file takes them as one write; then the file has the bytes up to where they end, and is as after one write if that reaches its end; if it stops, it is at the first piece that cannot be read or written, and if the next page cannot be read the file has the bytes so far up to where they end |
| `SysWrite.PiecesMakeOne` | kernel/syscall.c:123-134 | pieces that each leave the file right up to where they end make the one splice once end of file is reached |
| `SysWrite.PieceVerdict` | kernel/syscall.c:123-134 | the next piece of a write ends as the write of all bytes up to it would have |
| `Sv39.MkPteFields` | kernel/riscv.h:193-203 | the fields of an entry built from an address and permissions |
| `Sv39.ProtBits` | kernel/vmm.c:36-44 | which bits prot_to_type sets |
| `PageTables.HardwareAgrees` | kernel/vmm.c:152-168 | on every table the code builds, the hardware walk translates a user access exactly when the code's walk finds a permitting entry that is not writable without readable, and to the same address |
| `PageTables.EntryUse` | kernel/vmm.c:36-44 | an entry whose bits allow user loads and stores is one through which every address of the page loads and stores, into its physical page, and cannot be fetched; the same for code, which cannot be stored to |
| `PageTables.LinkedOk` | kernel/vmm.c:69-76 | hanging a cleared table into an invalid entry changes no translation of any address space |
| `PageTables.WithEntryOk` | kernel/vmm.c:27-28 | writing one lowest-level entry changes exactly one page's translation in one address space |
| `PageTables.RootedOk` | kernel/process.c:107-109 | a cleared page as a new root maps nothing and leaves all other spaces alone |
| `Paging.Mmu.AllocPage` | kernel/pmm.c:52-57 | the head of the threaded list, or 0 exactly when it is empty |
| `Paging.Mmu.FreePage` | kernel/pmm.c:38-46 | the page becomes the head; the panic is exactly a bad address |
| `Paging.Mmu.CreateFreePageList` | kernel/pmm.c:29-33 | the list holds, each once and in order, exactly the pages that lie in the range with at least a byte behind them |
| `Paging.Mmu.PageWalk` | kernel/vmm.c:50-83 | the entry's place; an allocating walk changes no translation and no page in use, and fails exactly if fewer pages are free than tables are missing |
| `Paging.Mmu.MapPages` | kernel/vmm.c:19-31 | adds exactly the requested range, to consecutive pages: every address a of the range has the entry of physical page pa/4096 + a/4096 - va/4096, and no page without an address in the range changes; a remap panics at the first mapped page; lack of memory and bad addresses stop it under their exact conditions; other tables are untouched |
| `Paging.RangeByAddress` | kernel/vmm.c:19-31 | the range that the loop goes over, page by page, is by addresses the one that was asked for |
| `Paging.Mmu.LookupPa` | kernel/vmm.c:88-100 | the physical page of a readable or writable mapping, else 0 |
| `Paging.Mmu.UserVaToPa` | kernel/vmm.c:152-168 | the physical address, or 0 where nothing is mapped |
| `Paging.LookupSeesUser` | kernel/vmm.c:88-100 | where user code can load or store, lookup_pa gives the very page, and where it can do anything, user_va_to_pa gives the very address |
| `Paging.Mmu.UserVmUnmap` | kernel/vmm.c:183-201 | removes exactly one page's translation and frees its page if asked to |
| `Paging.MappedProt` | kernel/vmm.c:36-44 | a user page mapped with given protections can be used by the hardware for exactly what they ask, if and only if write was not asked for without read |
| `UserSpace.Disjoint` | kernel/pmm.c:29-57 | free pages, page tables and private pages are pairwise different, the free list has no duplicate, and a page mapped twice is one of those made to be shared |
| `UserSpace.MapUser` | kernel/vmm.c:173-177 | mapping one page keeps the ownership invariant, in which shared pages are not writable; it succeeds exactly if the page is not mapped and the missing tables can be had |
| `UserSpace.UnmapUser` | kernel/vmm.c:183-201 | freeing a private page keeps the ownership invariant |
| `ProcMemory.HeapFits` | kernel/syscall.c:46-65 | a heap of mapped pages is no longer than physical memory, so it stays inside its area |
| `ProcMemory.NextPageFree` | kernel/syscall.c:51-60 | the address that the next allocation returns is not mapped, for a heap that is exactly its mapped and reclaimed pages |
| `ProcMemory.FreeBreaks` | kernel/syscall.c:70-75 | freeing a page of a clean process that is not live leaves a heap that is not split |
| `ProcMemory.FaultBreaks` | kernel/strap.c:50-71 | a page faulted in from the heap area of a clean process leaves a heap that is not split |
| `ProcMemory.Procs.SysUserAllocatePage` | kernel/syscall.c:46-65 | the returned address was not mapped; after the call every address of its page can be loaded from and stored to, not fetched from, in a page of the process's own; the heap region counts a page more exactly if the heap grew; the outcome is given for every state, and for a process whose heap area only its heap calls touched only a lack of pages stops it |
| `ProcMemory.Procs.SysUserFreePage` | kernel/syscall.c:70-75 | one page's translation and the page go, and every access to it faults; after the call the heap is split exactly into mapped and reclaimed pages if and only if a live page was freed |
| `ProcMemory.Procs.StorePageFault` | kernel/strap.c:50-71 | maps one private page at the fault, which can then be loaded from and stored to; panics exactly without pages, out of range or on a mapped page; the heap stays split if and only if the fault was outside the heap area |
| `ProcMemory.Procs.UserStore` | kernel/riscv.h:181-221 | a user store through the hardware walk changes one word of a private page of the process itself, and nothing else in memory |
| `ProcFork.AllocProcess` | kernel/process.c:89-160 | a new address space maps exactly stack page, trap frame and trap vector, the trap frame being blank but for sp; user code can load and store in the stack page and reach neither of the others; the four regions are those of these pages and an empty heap; every page in use and every other space is as it was; it succeeds exactly if six pages and the page tables can be had |
| `ProcFork.BuildFilter` | kernel/process.c:206-213 | the filter is 1 for reclaimed pages, 0 for the others among the first eight, and whatever the array held beyond |
| `ProcFork.CopiesAllExactlyWhen` | kernel/process.c:206-222 | no live heap page is skipped, whatever the array held, if and only if every live page is among the first eight |
| `ProcFork.ForkedHeap` | kernel/process.c:200-233 | then each live heap page is mapped in the child at the same address to another page with equal contents, and each reclaimed page is not mapped |
| `ProcFork.ForkStack` | kernel/process.c:196-199 | the child's stack page holds what the parent's held |
| `ProcFork.ForkContext` | kernel/process.c:191-193 | the child's trap frame holds what the parent's held |
| `ProcFork.ForkHeap` | kernel/process.c:200-228 | each page the filter lets through is copied to a page of its own, with an entry for user data; the others stay unmapped |
| `ProcFork.ForkCode` | kernel/process.c:234-246 | the child maps the parent's own code page |
| `ProcFork.DoFork` | kernel/process.c:182-256 | all of it together; no page and no mapping of any other process changes; in the child every address of the stack page and of each copied heap page loads and stores into the copy, and every address of a code page loads and fetches but does not store; the child's regions are its own first four, the heap as long as the parent's, and the parent's code regions; the child's trap frame is the parent's with a0 zero; it succeeds exactly if the filter can describe the heap, the pages to copy are readable and different from each other, and memory lasts for all of them with their tables; the child's heap is split exactly if only reclaimed pages were skipped |
| `ProcFork.CodesAre` | kernel/process.c:240-245 | the regions that the child gets beyond its own are the code regions of the parent, each as often, and no other |
| `VmRuns.LoadCodePage` | kernel/elf.c:23-48 | a one-page code segment is mapped as a shared page with the given contents, from which user code can load and fetch and to which it cannot store; no other page becomes shareable; nothing but a mapped page or a lack of pages stops it |
| `VmRuns.Run` | kernel/syscall.c:46-83 | over any run of process creation, code loading, heap calls, store faults, user stores and forks: at every point pages are apart and every clean process's heap is split exactly; each call has its whole effect on processes, mappings, page contents and page uses; an early end only at a call whose condition does not hold |
| `VmRuns.Execute` | kernel/syscall.c:46-83 | each of these calls succeeds exactly under its condition and then has its whole effect: which mapping and which page changed and that all others did not, what is free and what is shared, and for a fork the copies, the child's registers and whether the child's heap is in order |
| `VmRuns.HeapStaysSplit` | kernel/syscall.c:46-75 | in every run, a clean process that frees live pages only and does not fault in its heap area has its heap split exactly into mapped pages and a duplicate-free reclaimed list at every point |
| `VmRuns.AllocationsAreNew` | kernel/syscall.c:46-65 | in every such run each address that an allocation returns was not live and not mapped, and only a lack of pages stops an allocation |
| `VmRuns.LiveIsUsable` | kernel/syscall.c:46-65 | in every such run every address in a live heap page is translated by the hardware for a load and for a store, into a page of the process's own |
| `VmRuns.AllocationOrder` | kernel/syscall.c:46-75 | in every run an allocation gives out the page that was reclaimed last, or else the one at the top, which goes up by a page; an allocation right after a free gives that page and undoes it |
| `VmRuns.StoresReadBack` | kernel/syscall.c:46-75 | in every run a word that was stored is what the process loads there, until it stores to the page again or gives it back |
| `VmRuns.ForkedChildSplit` | kernel/process.c:200-233 | in every such run the child of a fork has its heap split exactly, so that the same goes for it, if and only if the filter skipped no live page; always so if the live pages are among the first eight |
| `VmRuns.PrivateForEver` | kernel/process.c:182-256 | in every run a private page of a process stays mapped where it is, with its contents, until the process itself stores to it or gives it back |
| `VmRuns.SharedForEver` | kernel/process.c:234-246 | in every run the code pages that forks share, and the trap vector, keep their contents |
| `VmRuns.Boot` | kernel/pmm.c:63-89 | the same from the memory that pmm_init finds, where only the trap-vector page is shareable |
| `ElfLoad.Loader.AllocMb` | kernel/elf.c:23-48 | the segment's pages, zeroed, are added to the page table and nothing else; it panics exactly if one of them is mapped or out of range or pages run out, those for tables included |
| `ElfLoad.Loader.CopyIn` | kernel/elf.c:98-114 | the chunk loop ends with the whole file part in the pages, for any alignment and size |
| `ElfLoad.Loader.LoadSegment` | kernel/elf.c:84-135 | the status for every header and state; on success the segment is in place and recorded in the first free slot |
| `ElfLoad.Loader.Load` | kernel/elf.c:79-139 | succeeds exactly if the headers are there, each segment is in order, no two share a page or need a mapped one, and memory lasts; then every loadable segment is in memory, recorded, and earlier mappings are as they were; else the status is that of the first header that stops it, with the reason for each |
| `ElfLoad.HeaderDecodes` | kernel/elf.h:34-43 | every program header written as its eight little-endian fields reads back as the segment that it describes |
| `ElfLoad.TableDecodes` | kernel/elf.c:84-88 | a table of such headers anywhere in the file gives the loadable segments among them, in order |
| `ElfLoad.PagesByAddress` | kernel/elf.c:23-48 | the pages that a segment is given are those that hold an address of it |
| `ElfLoad.ReadyExactlyWhen` | kernel/elf.c:84-135 | the condition of a load by addresses, flags and sizes: each segment has no more bytes in the file than in memory, ends below 2^64, lies in the file and is read-execute or read-write; the table has a slot for each; the pages can be had |
| `ElfLoad.SegmentReads` | kernel/elf.c:79-114 | every byte of a loaded segment reads, through the kernel's walk and the hardware's, as the file byte below filesz and as zero up to memsz; a read-execute segment can be fetched from and not stored to, a read-write one stored to and not fetched from |
| `ElfLoad.CanExtendJoin` | kernel/elf.c:23-48 | segments can be given pages one after the other exactly if all their pages can be had together |
| `ElfLoad.RecordedInOrder` | kernel/elf.c:116-135 | the table of regions has as many entries as total_mapped_region says exactly if no segment lies at address 0, whose slot is taken again |
| `ElfLoad.RecordedIs` | kernel/elf.c:116-135 | then the k-th segment is in the k-th free slot, with its address, its number of pages, and code or data by its flags, and the other slots are as they were |
| `UserBytes.BytesBack` | kernel/elf.c:98-114 | bytes written to a page of words read back |
| `UserBytes.WordBytes` | kernel/elf.c:98-114 | the bytes of a page are those of its 64-bit words, each lowest first |
| `UserBytes.LeBack` | kernel/elf.h:34-43 | a number written in n bytes, lowest first, reads back |
| `FdtScan.BswapReverses` | spike_interface/dts_parse.c:11-15 | bswap reverses the bytes of a word and undoes itself |
| `FdtScan.StepsReport` | spike_interface/dts_parse.c:17-72 | for every well-formed node the events come in exact nested order, done once per node, and what is left is the tree without exactly the rejected nodes |
| `FdtScan.StepsLeft` | spike_interface/dts_parse.c:56-59 | what is left is well formed and takes up the same words |
| `FdtScan.StrLen` | util/string.c:41-45 | finds the word in which a name ends |
| `FdtScan.ScanHelper` | spike_interface/dts_parse.c:17-72 | the recursive loop over the words refines that walk: the events, the words left behind, and the position after the end token |
| `FdtScan.ScanTwice` | spike_interface/dts_parse.c:89-99 | a rescan reports the tree with exactly the deleted nodes removed |

## Left out

- hostfs, the spike file and console interfaces: host calls whose behaviour is not in the repository. File reads of the ELF loader are reads of a byte sequence, cut short at its end.
- Trap vectors, register save and restore, CSR access, the machine-mode part: `switch_to` is "current now runs", and the trap frame of a process is just a page that the kernel writes.
- Formatted output, and the C-string copies of the read system call: a read returns a byte sequence; `RfsFile.ReadSeesSlice` says what the copy keeps.
- File system, scope: paths of at most 29 bytes and names of at most 27, room in the existing blocks of a directory that gets an entry, directories for all but the last path component, and descriptors that are open. A call outside this overruns a buffer or follows a stray pointer in the code; its outcome is `OutOfScope`, which the verdicts give exactly for these, and nothing is claimed of the state after it.
- FileSystem.Vfs.LookupFinalDentry: paths of 30 bytes or more overrun path_copy and miss_name; they are excluded by a precondition and are `OutOfScope` for the calls.
- FileSystem.Vfs.Format: the root of the volume is the root of the paths; the mount point's parent, the root of the host file system, and relative paths are not modelled.
- FileCalls.Calls.DoRead: at the end of a file that fills all its blocks the code reads a block the file does not have; the outcome is `OutOfScope`.
- Page addresses of cached objects are any unused addresses; pages that the VFS does not give back (hash keys, file structures) are not accounted for.
- `nfiles` as the number of open descriptors: close does not decrease it, so it counts the opens (`FileLaws.OpenLimit`) and is at least that number.
- readdir and its cache, stat calls, several opens of one directory, changes between opendir and readdir.
- SysWrite.SysUserWrite: a write that stops short of the end of the file leaves the file right up to where its bytes end; what follows in the last block then depends on the pieces. A buffer page that is not mapped is `OutOfScope`.
- The kernel's own page table and `kern_vm_init`: `Paging.Mmu.MapPages` covers the ranges it maps, but the kernel's table is not one of the address spaces of `UserSpace`.
- ProcMemory.Procs.SysUserAllocatePage: when no physical page is left the code maps page 0; the outcome is `OutOfScope`.
- ProcMemory.Procs.SysUserFreePage: addresses outside the heap area, and a 33rd reclaimed page, are `OutOfScope`.
- ProcFork.DoFork: heaps of more than 32 pages overrun the filter array and are `OutOfScope`; DATA_SEGMENT regions, further code pages and stack pages mapped by faults have no case in the code and are not copied.
- VmRuns.LoadCodePage: code segments of one page, page-aligned, outside the heap area.
- ElfLoad.Loader.Load: header offsets are unbounded numbers, and the command line is not modelled.
- FdtScan.ScanHelper: properties of at most 2^31 - 4 bytes, since the code keeps the length in a signed 32-bit integer and adds 3; all four callbacks are present; the cell counts of nodes are not reported; the header check and the strings block are not modelled.
