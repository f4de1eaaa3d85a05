# Verified models of an xv6 kernel and its utilities

This project models, in Dafny 4.11, the parts of the repository whose correctness is hardest to see from the code, and
proves what they promise. `dafny verify dfyconfig.toml` checks all of it.

The code is modelled in its own form. Code that updates state becomes classes and methods with loops, proved against
functions on values. Code that runs concurrently becomes a state machine: its steps are the pieces of code between two
points where another process, a crash or the scheduler can intervene, and theorems quantify over all sequences of steps,
over any number of processes.

| files | subject |
|---|---|
| `LogDisk`, `LogRuns`, `Log` | the redo log: one commit, all runs with crashes, the code |
| `FreeBlocks`, `Umalloc` | the user-level allocator: free blocks as intervals, the linked headers |
| `Volume`, `Fs`, `Mkfs` | block ownership, file contents, transaction budgets, the initial image |
| `Bitmap`, `BitmapBlocks` | the bitmap as bytes of disk blocks |
| `DiskLayout` | a volume in the words of disk blocks |
| `CrashedFiles`, `MixedWrites` | the log and the file system together: transactions and files after crashes, room in the log, writers at work together |
| `BufferCache`, `Bio` | the buffer cache as a stand-in for the disk, and its ring of buffers |
| `SleepLock` | sleep locks and user mutexes, down to the two spin locks |
| `Proc`, `ProcTable` | the process tree and time accounting, and the scans of the table |
| `Pages`, `Vm` | page conservation and address spaces |
| `OpenFiles` | descriptor slots, file references and pipe pages |
| `Pipe`, `MsgQueue`, `Console` | blocking queues |
| `ShellSyntax`, `ShellGrammar`, `ShellRoundTrip`, `Shell` | the shell's parser, the grammar it decides, and a printer it inverts |
| `Grep`, `Tail` | the matcher and the line buffer |
| `Wrappers` | the optional value |

Conventions. A panic of the kernel is a result of its own (`None`, `false`, `Panic`) after which a run does not go on.
Memory returned by allocators, answers of `sbrk` and host files are parameters. Unsigned 32-bit arithmetic is written out
wherever it can wrap. A spin lock's critical section is one step, except in `SleepLock`, whose subject is the locks
themselves: there each test and each assignment of a field is a step.

Where a promise does not hold as one might state it, a lemma gives a concrete run or input, and another says exactly when
it does hold:

- the size guard of `log_write` can be reached within the reservation of ten blocks (`LogRuns.ReservedWritesCanPanic`),
  but not if operations add at most nine (`LogRuns.GuardUnreachableIff`), and file writes on the image `mkfs` makes add at
  most seven (`CrashedFiles.WritesNeverTooBig`);
- `msgsnd` accepts sizes that are negative or too large for a node: a receive can then return bytes nobody sent
  (`MsgQueue.NegativeSizeIsCopied`), or a send reach the next page (`MsgQueue.RunsOver`); exactly sizes from 0 to 4084 are
  safe (`MsgQueue.SizeIsSafeIff`), and the runs are of those;
- a write into a hole of a file may leave the inode on disk behind (`Fs.FileSystem.Writei` says exactly when), and the root
  directory `mkfs` builds has a hole exactly when its entries fill their blocks (`Mkfs.RootHole`,
  `Mkfs.ThirtyFilesImage`, `Mkfs.ThirtyFiles`);
- a reader can sleep on a full pipe after a killed writer gives up (`Pipe.ReaderCanSleepOnFullPipe`,
  `Pipe.ReadersFineIff`);
- `waitx` can report a waiting time of -1 (`Proc.WaitingTimeCanBeNegative`), exactly for a process allocated between a tick
  and its charge that then ran at every charge (`Proc.WaitingTime`);
- the allocator's size computations are exact within stated bounds (`Umalloc.UnitsSuffice`, `Umalloc.SbrkRequestExact`);
- `tail` prints the last lines unless one of them is too long for its buffer and something is dropped
  (`Tail.OverlongLineIsSplit`, `Tail.TailIsLastLines`).

Where comments and code disagree the model follows the code. `param.h` calls LOGSIZE the number of data blocks in the log;
the log region has that many blocks including its header, so that one less can be logged. The shell's `>>` is parsed with
the same mode as `>`, and so is one tree.

## Model

| member | source | states |
|---|---|---|
| `LogDisk.RecoveredIsLogical` | G19_Project1_xv6CustomizeSystemCalls/log.c:69-82 | installing the log gives each home block exactly what the header and slots say it holds |
| `LogDisk.HeadRoundTrip` | G19_Project1_xv6CustomizeSystemCalls/log.c:84-113 | the header that is read back is the header that was written |
| `LogDisk.HeadBlocksGood` | G19_Project1_xv6CustomizeSystemCalls/log.c:84-96 | the block numbers read from a well-formed header are distinct home blocks |
| `LogDisk.InstallPrefix` | G19_Project1_xv6CustomizeSystemCalls/log.c:69-82 | installing stopped after any number of block writes leaves the log, and what recovery will yield, unchanged |
| `LogDisk.RecoverPrefix` | G19_Project1_xv6CustomizeSystemCalls/log.c:115-122 | recovery stopped after any number of block writes leaves a disk that recovers to the same state; at its end the log is empty |
| `LogDisk.LoggedShape` | G19_Project1_xv6CustomizeSystemCalls/log.c:176-190 | copying to the log fills the slots and touches neither the header nor any home block |
| `LogDisk.CommittedMeaning` | G19_Project1_xv6CustomizeSystemCalls/log.c:98-113 | once the header is written the disk means the old file system with all updates of the transaction |
| `LogDisk.CommitTail` | G19_Project1_xv6CustomizeSystemCalls/log.c:192-202 | what a commit does after its header write is a recovery of the committed disk |
| `LogDisk.CommitEarly` | G19_Project1_xv6CustomizeSystemCalls/log.c:192-202 | a commit stopped before its header write has changed nothing that recovery shows |
| `LogDisk.CommitLate` | G19_Project1_xv6CustomizeSystemCalls/log.c:192-202 | a commit stopped after its header write has made all its updates |
| `LogDisk.CommitPrefix` | G19_Project1_xv6CustomizeSystemCalls/log.c:192-202 | atomicity of one commit: after any number of its block writes, recovery yields the state before or the state after, by whether the header write is among them |
| `LogRuns.CrashSafety` | G19_Project1_xv6CustomizeSystemCalls/log.c:69-202 | for every run of transactions with crashes between any two block writes, also inside recoveries, recovery yields exactly the state after a prefix of whole committed groups, containing every group whose commit returned |
| `LogRuns.CommittedOpsAreWhole` | G19_Project1_xv6CustomizeSystemCalls/log.c:124-174 | a committed group that has one write of an operation has all writes that operation made, and no other group has any |
| `LogRuns.Reservation` | G19_Project1_xv6CustomizeSystemCalls/log.c:124-174 | in every reachable state the entries made plus the unused reservations fit in LOGSIZE, logged blocks are distinct home blocks, and no operation is open while a commit runs |
| `LogRuns.ReservedWritesCanPanic` | G19_Project1_xv6CustomizeSystemCalls/log.c:213-219 | a run within the reservation of ten blocks an operation that reaches the size guard of log_write |
| `LogRuns.GuardUnreachableIff` | G19_Project1_xv6CustomizeSystemCalls/log.c:124-141 | no run in which each operation adds at most k blocks reaches the size guard exactly if k is at most 9: one less than begin_op reserves |
| `LogRuns.Progress` | G19_Project1_xv6CustomizeSystemCalls/log.c:144-202 | no reachable state is stuck inside a commit or a recovery |
| `LogRuns.BeginsAndCommits` | G19_Project1_xv6CustomizeSystemCalls/log.c:124-174 | in every reachable state a new operation may begin exactly if its ten blocks fit beside the entries made and ten for each operation open, and always if none is open; an operation that ends starts the commit exactly if it is the last |
| `LogRuns.CommittedForEver` | G19_Project1_xv6CustomizeSystemCalls/log.c:144-174 | what is committed, and what has returned, stays so in every later state |
| `LogRuns.GroupUpdates` | G19_Project1_xv6CustomizeSystemCalls/log.c:176-190 | the updates a commit makes are the writes of the group, the last one to each block |
| `Log.CommitScript` | G19_Project1_xv6CustomizeSystemCalls/log.c:192-202 | the writes of the four parts of commit, one after the other, are the commit whose prefixes are proved atomic |
| `Log.CommitMeaning` | G19_Project1_xv6CustomizeSystemCalls/log.c:192-202 | a finished commit leaves an empty header and every update in place |
| `Log.Log.Bwrite` | G19_Project1_xv6CustomizeSystemCalls/bio.c:108-116 | the block is written, recorded as the next write, and unpinned |
| `Log.Log.ReadHead` | G19_Project1_xv6CustomizeSystemCalls/log.c:84-96 | the in-memory header becomes the one on disk |
| `Log.Log.WriteHead` | G19_Project1_xv6CustomizeSystemCalls/log.c:98-113 | one block write of the encoded header |
| `Log.Log.WriteLog` | G19_Project1_xv6CustomizeSystemCalls/log.c:176-190 | exactly the log-slot writes, in order, with the pinned contents |
| `Log.Log.InstallTrans` | G19_Project1_xv6CustomizeSystemCalls/log.c:69-82 | exactly the home writes, in order |
| `Log.Log.RecoverFromLog` | G19_Project1_xv6CustomizeSystemCalls/log.c:115-122 | exactly the recovery writes; the header is empty at the end |
| `Log.Log.Commit` | G19_Project1_xv6CustomizeSystemCalls/log.c:192-202 | the whole sequence of writes of a commit, or none if nothing was logged, and the file system it leaves |
| `Log.Log.TryBeginOp` | G19_Project1_xv6CustomizeSystemCalls/log.c:124-141 | a reservation is taken exactly when no commit runs and ten blocks more for one more operation fit in the log |
| `Log.Log.LogWrite` | G19_Project1_xv6CustomizeSystemCalls/log.c:211-233 | the block is pinned and recorded once; panics exactly at the size guard or outside a transaction |
| `Log.Log.EndOp` | G19_Project1_xv6CustomizeSystemCalls/log.c:143-174 | the last operation to end commits everything logged; others only give their reservation back; either way no commit is left marked as under way |
| `Log.Log.EndThenBegin` | G19_Project1_xv6CustomizeSystemCalls/log.c:124-174 | after an operation has ended another is admitted exactly if it was the last one or there is room beside the others |
| `Log.BeginStep` | G19_Project1_xv6CustomizeSystemCalls/log.c:124-141 | begin_op goes through exactly when the runs let an operation begin, and is that step |
| `Log.WriteStep` | G19_Project1_xv6CustomizeSystemCalls/log.c:211-233 | log_write is the step of the runs, its panic included |
| `Log.CommitRun` | G19_Project1_xv6CustomizeSystemCalls/log.c:192-202 | a whole commit is a run, one block write after another, that ends with the group committed |
| `Log.EndStep` | G19_Project1_xv6CustomizeSystemCalls/log.c:143-174 | end_op is a run: the operation ends and, if it was the last, the whole commit |
| `FreeBlocks.InsertApart` | G19_Project1_xv6CustomizeSystemCalls/umalloc.c:24-44 | coalescing keeps free blocks in address order, disjoint, and with no two adjacent |
| `FreeBlocks.InsertCovers` | G19_Project1_xv6CustomizeSystemCalls/umalloc.c:24-44 | freeing a block frees its units and no others |
| `FreeBlocks.CarveApart` | G19_Project1_xv6CustomizeSystemCalls/umalloc.c:63-90 | taking units from a block keeps the order and the gaps |
| `FreeBlocks.CarveCovers` | G19_Project1_xv6CustomizeSystemCalls/umalloc.c:63-90 | the units handed out leave the free blocks, and no others do |
| `Umalloc.UnitsSuffice` | G19_Project1_xv6CustomizeSystemCalls/umalloc.c:63-69 | the unit count holds the request exactly when the 32-bit size computation did not wrap |
| `Umalloc.SbrkRequestExact` | G19_Project1_xv6CustomizeSystemCalls/umalloc.c:46-56 | sbrk is asked for the bytes wanted exactly when they fit in a signed int |
| `Umalloc.StopsAtGap` | G19_Project1_xv6CustomizeSystemCalls/umalloc.c:30-32 | the search of free can stop only at the block after which the new one belongs |
| `Umalloc.SpliceLinked` | G19_Project1_xv6CustomizeSystemCalls/umalloc.c:33-43 | after the conditional joins the headers form one cycle in address order again |
| `Umalloc.FreePartition` | G19_Project1_xv6CustomizeSystemCalls/umalloc.c:24-44 | free and allocated blocks still partition the units obtained |
| `Umalloc.MallocPartition` | G19_Project1_xv6CustomizeSystemCalls/umalloc.c:63-90 | the same after malloc takes units of a block |
| `Umalloc.AfterFree` | G19_Project1_xv6CustomizeSystemCalls/umalloc.c:24-44 | everything the allocator maintains holds again after free |
| `Umalloc.AfterMalloc` | G19_Project1_xv6CustomizeSystemCalls/umalloc.c:63-90 | everything the allocator maintains holds again after malloc |
| `Umalloc.Granted` | G19_Project1_xv6CustomizeSystemCalls/umalloc.c:46-61 | fresh memory above everything earlier enters as one more block |
| `Umalloc.UnitsConserved` | G19_Project1_xv6CustomizeSystemCalls/umalloc.c:24-90 | free units plus allocated units are the units obtained from sbrk |
| `Umalloc.Heap.FindPlace` | G19_Project1_xv6CustomizeSystemCalls/umalloc.c:30-32 | the pointer chase ends, at the place where the block belongs |
| `Umalloc.Heap.Free` | G19_Project1_xv6CustomizeSystemCalls/umalloc.c:24-44 | the block is free, joined with the free blocks it touches; every invariant holds |
| `Umalloc.Heap.Morecore` | G19_Project1_xv6CustomizeSystemCalls/umalloc.c:46-61 | the units asked for and at least 4096 become free, as or at the end of the last free block; or sbrk failed and nothing changed |
| `Umalloc.Heap.TakeFrom` | G19_Project1_xv6CustomizeSystemCalls/umalloc.c:75-85 | the units returned are the end of the block, or all of it, and the rest stays free |
| `Umalloc.Heap.FirstFit` | G19_Project1_xv6CustomizeSystemCalls/umalloc.c:74-89 | the search ends: if some block is large enough, what is returned is the end of the first such going round from freep; otherwise the heap grows once, and it is the end of the fresh memory |
| `Umalloc.Heap.Malloc` | G19_Project1_xv6CustomizeSystemCalls/umalloc.c:63-90 | a block apart from all allocated ones, cut from the first that fits, with the arena grown only if nothing fits; fails exactly if nothing fits and sbrk grants nothing, with every allocated block as it was |
| `Umalloc.UnitsExact` | G19_Project1_xv6CustomizeSystemCalls/umalloc.c:69 | a header and the fewest units that hold the bytes, or, if the computation wraps, a header alone |
| `Umalloc.CarveIs` | G19_Project1_xv6CustomizeSystemCalls/umalloc.c:76-83 | the units taken are the end of the block |
| `Umalloc.FreedLast` | G19_Project1_xv6CustomizeSystemCalls/umalloc.c:46-61 | fresh memory becomes, or extends, the last free block |
| `Volume.WordPutWord` | G19_Project1_xv6CustomizeSystemCalls/fs.c:390-394 | writing an entry of an indirect block changes that entry and no other |
| `Volume.TakeOwned` | G19_Project1_xv6CustomizeSystemCalls/fs.c:56-78 | a free block is named nowhere, and taking it changes no name |
| `Volume.PutAddrOwned` | G19_Project1_xv6CustomizeSystemCalls/fs.c:378-388 | filling an empty slot of an inode with an unnamed block keeps ownership |
| `Volume.PutWordOwned` | G19_Project1_xv6CustomizeSystemCalls/fs.c:389-396 | filling an empty entry of the indirect block keeps ownership |
| `Volume.PutDataOwned` | G19_Project1_xv6CustomizeSystemCalls/fs.c:498-504 | writing a data block names nothing new |
| `Volume.OthersContents` | G19_Project1_xv6CustomizeSystemCalls/fs.c:482-511 | a file none of whose blocks or names changed has the same contents, and no hole it did not have |
| `Fs.BmapBytes` | G19_Project1_xv6CustomizeSystemCalls/fs.c:372-400 | mapping a missing block changes no byte of the file, since a new block is clear |
| `Fs.WriteStep` | G19_Project1_xv6CustomizeSystemCalls/fs.c:498-504 | one chunk extends the written part by exactly the bytes of that chunk |
| `Fs.WrittenContents` | G19_Project1_xv6CustomizeSystemCalls/fs.c:498-510 | setting the size turns the written bytes into the old file with the new bytes spliced in |
| `Fs.ReadBack` | G19_Project1_xv6CustomizeSystemCalls/fs.c:452-511 | after a write, reads inside its range give the bytes written and reads outside it what was there before |
| `Fs.ChunkFitsReservation` | G19_Project1_xv6CustomizeSystemCalls/file.c:127-138 | a chunk of at most 1536 bytes at any offset logs at most MAXOPBLOCKS blocks in a file without holes, one more in one with holes, and at most 7 in any file if the bitmap is one block |
| `Fs.OneBlockLogged` | G19_Project1_xv6CustomizeSystemCalls/fs.c:372-400 | how many distinct blocks mapping and writing one block can add to the log, whatever bitmap blocks are involved |
| `Fs.OneMapLogged` | G19_Project1_xv6CustomizeSystemCalls/fs.c:372-400 | the same when the bitmap is one block: its bits cost one entry together |
| `Fs.CountedBound` | G19_Project1_xv6CustomizeSystemCalls/fs.c:498-509 | the count kept over all chunks stays within the bound for the whole write |
| `Fs.RangeOk` | G19_Project1_xv6CustomizeSystemCalls/fs.c:493-496 | the checks with 32-bit wrap-around refuse exactly the requests that start past the end or end past the largest file |
| `Fs.FreeNext` | G19_Project1_xv6CustomizeSystemCalls/fs.c:407-435 | the next block truncation frees is still marked in use: no block is freed twice |
| `Fs.TruncatedOwned` | G19_Project1_xv6CustomizeSystemCalls/fs.c:407-435 | after truncation exactly the blocks of the file are free again and ownership holds |
| `Fs.WroteEnd` | G19_Project1_xv6CustomizeSystemCalls/file.c:134-153 | where the chunk loop stops: at the end exactly if the range is good, else at the last whole chunk that fits, or at once |
| `Fs.SpliceSplice` | G19_Project1_xv6CustomizeSystemCalls/file.c:134-152 | consecutive chunks amount to one splice |
| `Fs.FileSystem.Balloc` | G19_Project1_xv6CustomizeSystemCalls/fs.c:55-78 | the first free block is marked, zeroed and logged; failure means every bit is set |
| `Fs.FileSystem.Bfree` | G19_Project1_xv6CustomizeSystemCalls/fs.c:80-95 | the bit is cleared, and the panic happens exactly if it was clear |
| `Fs.FileSystem.BmapDirect` | G19_Project1_xv6CustomizeSystemCalls/fs.c:378-382 | a direct block, allocated if absent; ownership and everything already in the file kept |
| `Fs.FileSystem.IndirectBlock` | G19_Project1_xv6CustomizeSystemCalls/fs.c:386-388 | the indirect block, allocated if absent, with no entry changed |
| `Fs.FileSystem.IndirectEntry` | G19_Project1_xv6CustomizeSystemCalls/fs.c:389-396 | an entry of the indirect block, allocated if absent |
| `Fs.FileSystem.Bmap` | G19_Project1_xv6CustomizeSystemCalls/fs.c:372-400 | the block of the file at an index, allocated and clear if absent; names stay unique and marked, nothing already there changes, exactly which blocks are logged, and nothing changes outside logged blocks |
| `Fs.FileSystem.WriteChunk` | G19_Project1_xv6CustomizeSystemCalls/fs.c:498-504 | one pass of the write loop |
| `Fs.FileSystem.WriteLoop` | G19_Project1_xv6CustomizeSystemCalls/fs.c:498-504 | all bytes written over the right blocks, with the number of logged blocks bounded |
| `Fs.FileSystem.Writei` | G19_Project1_xv6CustomizeSystemCalls/fs.c:481-511 | for any file: refusal exactly for bad ranges, a panic only if a block is missing and none is free; else the contents become the splice, nothing written is missing, no hole appears, no other file changes, every block taken is named, the log entries are bounded and cover every block changed; the inode on disk stays a true copy exactly if the file grows or the slots leading to the bytes written are all filled |
| `Fs.FileSystem.Readi` | G19_Project1_xv6CustomizeSystemCalls/fs.c:452-476 | for any file, exactly the requested slice of the contents: all bytes asked for, or all up to the end; a missing block is allocated, which changes no byte and leaves the inode on disk behind exactly if a slot was empty; outside a transaction a missing block is a panic, and otherwise nothing changes |
| `Fs.FileSystem.Itrunc` | G19_Project1_xv6CustomizeSystemCalls/fs.c:407-435 | never panics: each block is freed once; bits of other blocks, other files and ownership are kept; the inode is empty, also on disk; only logged blocks change |
| `Fs.FileSystem.FreeIndirect` | G19_Project1_xv6CustomizeSystemCalls/fs.c:421-431 | the blocks named by the indirect block, then the block itself, each freed once |
| `Fs.FileSystem.WriteOp` | G19_Project1_xv6CustomizeSystemCalls/file.c:140-145 | one transaction: within MAXOPBLOCKS blocks for a file without holes, within 7 on a volume with one bitmap block; it changes only blocks it logs, and leaves all inodes on disk true copies if they were |
| `Fs.FileSystem.Filewrite` | G19_Project1_xv6CustomizeSystemCalls/file.c:116-156 | for any file, the whole request is spliced in at the offset exactly if the range is good; else -1, with as many whole chunks of 1536 bytes as fit, or none if the offset is past the end; the offset moves past what was written; no block is lost; every transaction keeps to its bound |
| `Fs.FileSystem.Fileread` | G19_Project1_xv6CustomizeSystemCalls/file.c:95-113 | all bytes asked for at the offset, or all up to the end, and the offset moves past them; -1 exactly for unreadable files and bad ranges; outside a transaction a panic exactly if a block is missing |
| `Fs.WriteThenRead` | G19_Project1_xv6CustomizeSystemCalls/fs.c:452-511 | any part of what writei has just written is read back whole, with or without a transaction |
| `Fs.SpliceIs` | G19_Project1_xv6CustomizeSystemCalls/fs.c:481-511 | a spliced file byte by byte: as long as the longer of the two, new exactly where it was written |
| `Fs.GrownNoLeak` | G19_Project1_xv6CustomizeSystemCalls/fs.c:372-400 | if every block marked in use is named by a file, it is so after a file has grown |
| `Fs.TruncatedNoLeak` | G19_Project1_xv6CustomizeSystemCalls/fs.c:407-435 | and after one is truncated |
| `Fs.FileSystem.EndWrite` | G19_Project1_xv6CustomizeSystemCalls/fs.c:506-509 | a file that has grown gets its new size, here and on disk |
| `DiskLayout.LayoutInjective` | G19_Project1_xv6CustomizeSystemCalls/fs.h:29-47 | blocks of one kind with the same 128 words hold the same bits, inodes or data |
| `DiskLayout.LayoutFits` | G19_Project1_xv6CustomizeSystemCalls/fs.h:29-36 | every number laid out fits in 32 bits |
| `DiskLayout.FramedHeld` | G19_Project1_xv6CustomizeSystemCalls/fs.h:41-51 | what is in no block that changed is held by the disk as before |
| `DiskLayout.SameFiles` | G19_Project1_xv6CustomizeSystemCalls/fs.c:352-511 | a disk determines the files on it: two volumes with the same disk have the same inodes and contents |
| `DiskLayout.MkfsLaidOut` | G19_Project1_xv6CustomizeSystemCalls/mkfs.c:94-103 | on the disk mkfs lays out, inodes and data lie outside the log and apart from the bitmap |
| `CrashedFiles.RecoversWholeTransactions` | G19_Project1_xv6CustomizeSystemCalls/log.c:69-202 | for every run of transactions that change only blocks they log, with crashes and recoveries: the disk recovers to the volume after whole transactions, each from the volume the one before it left, among them all whose commit returned |
| `CrashedFiles.WritesNeverTooBig` | G19_Project1_xv6CustomizeSystemCalls/log.c:213-219 | on a volume whose bitmap is one block, as mkfs makes it, no run of filewrite transactions reaches the size guard of log_write, however they mix their block writes, with or without holes |
| `CrashedFiles.CarriedOut` | G19_Project1_xv6CustomizeSystemCalls/fs.c:481-511 | the log_writes of a transaction turn the disk of the volume it found into that of the volume it left |
| `CrashedFiles.WriteTxn` | G19_Project1_xv6CustomizeSystemCalls/file.c:140-145 | a transaction of filewrite, on any file, is such a transaction within its bound |
| `CrashedFiles.TruncateTxn` | G19_Project1_xv6CustomizeSystemCalls/fs.c:407-435 | truncating a file is one, of at most two blocks if the bitmap is one block |
| `CrashedFiles.ChainStep` | G19_Project1_xv6CustomizeSystemCalls/log.c:124-202 | every event of a run keeps the committed transactions, and the waiting ones, in one chain |
| `CrashedFiles.SpentStep` | G19_Project1_xv6CustomizeSystemCalls/log.c:211-233 | an operation adds no more entries than it logs blocks, in every step |
| `MixedWrites.RecoversWholeWrites` | G19_Project1_xv6CustomizeSystemCalls/log.c:69-202 | for every run in which processes writing different files mix their block writes in shared bitmap and inode blocks, with crashes and recoveries: the disk recovers to the volume after whole writes, one after another in the order they finished, among them all whose commit returned |
| `MixedWrites.RecoversFiles` | G19_Project1_xv6CustomizeSystemCalls/log.c:69-202 | the files read from the recovered disk, on whatever volume has it, are those after these writes |
| `MixedWrites.WriteMoves` | G19_Project1_xv6CustomizeSystemCalls/fs.c:481-511 | a write computed on one volume is the same write on any volume that shows its file alike and the blocks it takes as free |
| `MixedWrites.WriteFile` | G19_Project1_xv6CustomizeSystemCalls/file.c:140-145 | a transaction of filewrite on a file without holes is such a write |
| `MixedWrites.BeginsShows` | G19_Project1_xv6CustomizeSystemCalls/fs.c:481-511 | a write that starts among others sees its file as the finished writes left it |
| `MixedWrites.ShowsStill` | G19_Project1_xv6CustomizeSystemCalls/fs.c:56-78 | a write that finishes takes nothing from one still under way |
| `MixedWrites.SameNumbers` | G19_Project1_xv6CustomizeSystemCalls/fs.c:481-511 | writes make and lose no file and keep sizes within bounds |
| `MixedWrites.FinishWaits` | G19_Project1_xv6CustomizeSystemCalls/log.c:144-174 | when a write finishes it joins the serial order |
| `MixedWrites.CommitStep` | G19_Project1_xv6CustomizeSystemCalls/log.c:192-202 | a commit makes the finished writes of its group last |
| `Bitmap.SetIs` | G19_Project1_xv6CustomizeSystemCalls/fs.c:65-72 | setting a bit in its byte of a bitmap block sets that bit and no other |
| `Bitmap.ClearIs` | G19_Project1_xv6CustomizeSystemCalls/fs.c:88-93 | clearing one does the same |
| `Bitmap.TakeFirst` | G19_Project1_xv6CustomizeSystemCalls/fs.c:63-75 | the scan of one bitmap block finds and sets its first clear bit, or all are set |
| `Bitmap.GiveBack` | G19_Project1_xv6CustomizeSystemCalls/fs.c:86-94 | the bit is cleared; the panic happens exactly if it was clear |
| `Bitmap.MarkFirst` | G19_Project1_xv6CustomizeSystemCalls/mkfs.c:242-248 | the bytes mkfs writes have exactly the first bits set |
| `BitmapBlocks.BitPut` | G19_Project1_xv6CustomizeSystemCalls/fs.c:55-95 | changing a bit of one bitmap block changes that bit of the bitmap of the volume |
| `BitmapBlocks.Area.Balloc` | G19_Project1_xv6CustomizeSystemCalls/fs.c:62-75 | the scan of all bitmap blocks, as bytes, does to the bitmap of the volume what balloc is proved to do, and writes one block |
| `BitmapBlocks.Area.Bfree` | G19_Project1_xv6CustomizeSystemCalls/fs.c:86-94 | the same for bfree, on the byte of its block |
| `BitmapBlocks.MkfsBalloc` | G19_Project1_xv6CustomizeSystemCalls/mkfs.c:237-251 | the block of bytes mkfs writes is the bitmap of the image it builds |
| `Mkfs.HandOut` | G19_Project1_xv6CustomizeSystemCalls/mkfs.c:271-286 | the counter always points at a free, cleared, unnamed block |
| `Mkfs.RootHole` | G19_Project1_xv6CustomizeSystemCalls/mkfs.c:158-163 | rounding the root directory size up leaves a hole exactly when the size was already a multiple of the block size |
| `Mkfs.ThirtyFiles` | G19_Project1_xv6CustomizeSystemCalls/mkfs.c:158-163 | with 30 files the root directory gets a second block that does not exist, and an entry written there would leave its inode on disk behind |
| `Mkfs.ThirtyFilesImage` | G19_Project1_xv6CustomizeSystemCalls/mkfs.c:93-165 | such an image gets built |
| `Mkfs.InodesFit` | G19_Project1_xv6CustomizeSystemCalls/mkfs.c:183-235 | the inodes of an image lie before its bitmap exactly if it has at most 206 files |
| `Mkfs.RootThere` | G19_Project1_xv6CustomizeSystemCalls/mkfs.c:158-165 | from the files built, the finished image: ownership, contents, and the root directory |
| `Mkfs.Image.Ialloc` | G19_Project1_xv6CustomizeSystemCalls/mkfs.c:223-235 | a new empty inode under the next number |
| `Mkfs.Image.MapBlock` | G19_Project1_xv6CustomizeSystemCalls/mkfs.c:269-286 | the block for an index, from the counter if absent; fails exactly if the image is full |
| `Mkfs.Image.Iappend` | G19_Project1_xv6CustomizeSystemCalls/mkfs.c:254-297 | the bytes are appended; ownership, hole-freeness and all other files kept; succeeds exactly if the file is not too large and the blocks are there, and how many it takes |
| `Mkfs.Image.CopyFile` | G19_Project1_xv6CustomizeSystemCalls/mkfs.c:152-153 | the inode holds the bytes of the host file, exactly if they fit |
| `Mkfs.Image.AddFile` | G19_Project1_xv6CustomizeSystemCalls/mkfs.c:130-155 | one more file and its directory entry, earlier files unchanged |
| `Mkfs.Image.MakeRoot` | G19_Project1_xv6CustomizeSystemCalls/mkfs.c:117-128 | the root directory with its two own entries |
| `Mkfs.Image.Balloc` | G19_Project1_xv6CustomizeSystemCalls/mkfs.c:237-251 | exactly the first used blocks are marked |
| `Mkfs.Image.Build` | G19_Project1_xv6CustomizeSystemCalls/mkfs.c:93-165 | succeeds exactly if no file is too large and the blocks needed are there; then every named block is named once, the blocks marked are exactly the first ones up to that number, each named if it is a data block, every file has its bytes, and the root directory lists all |
| `Mkfs.FilledNoLeak` | G19_Project1_xv6CustomizeSystemCalls/mkfs.c:271-286 | every block handed out is named |
| `Mkfs.DirentIs` | G19_Project1_xv6CustomizeSystemCalls/mkfs.c:130-150 | a directory entry is read back as it was made: number, and name up to 14 characters |
| `Mkfs.EntryOf` | G19_Project1_xv6CustomizeSystemCalls/mkfs.c:117-150 | entry q + 2 of the root directory names file q and its inode, the first two the root itself |
| `Mkfs.CostIs` | G19_Project1_xv6CustomizeSystemCalls/mkfs.c:269-286 | a file takes the fewest blocks that hold it, and an indirect block exactly if it has more than 12 |
| `BufferCache.CacheRefinesDisk` | G19_Project1_xv6CustomizeSystemCalls/bio.c:58-141 | in every run of any number of callers, whoever has read a block sees what a plain disk would hold after the same changes |
| `BufferCache.RunsKeep` | G19_Project1_xv6CustomizeSystemCalls/bio.c:38-141 | in every reachable state: the order is a permutation, one buffer a block, counts exact, valid clean unchanged buffers equal to the disk, order by last release |
| `BufferCache.StepShows` | G19_Project1_xv6CustomizeSystemCalls/bio.c:58-141 | every step leaves the disk seen through the cache alone, but for a change of data by the holder |
| `BufferCache.NeverRecycled` | G19_Project1_xv6CustomizeSystemCalls/bio.c:77-91 | a dirty or referenced buffer is never taken over |
| `BufferCache.VictimIsOldest` | G19_Project1_xv6CustomizeSystemCalls/bio.c:80-91 | the buffer taken over is the idle one released longest ago |
| `BufferCache.IdleClean` | G19_Project1_xv6CustomizeSystemCalls/bio.c:80-91 | an idle valid buffer equals the disk, so that taking it over loses nothing |
| `BufferCache.WrittenThrough` | G19_Project1_xv6CustomizeSystemCalls/bio.c:108-116 | bwrite puts what the holder sees on the disk, and nothing else |
| `Bio.PushFront` | G19_Project1_xv6CustomizeSystemCalls/bio.c:49-55 | inserting behind the head keeps one ring through all buffers |
| `Bio.Unlink` | G19_Project1_xv6CustomizeSystemCalls/bio.c:130-137 | unlinking keeps one ring through the rest |
| `Bio.BinitFresh` | G19_Project1_xv6CustomizeSystemCalls/bio.c:38-56 | the cache after binit is an initial state of the runs |
| `Bio.Bcache.constructor` | G19_Project1_xv6CustomizeSystemCalls/bio.c:38-56 | the ring holds all buffers, last one first |
| `Bio.Bcache.Find` | G19_Project1_xv6CustomizeSystemCalls/bio.c:66-75 | the first buffer in order that caches the block, or none |
| `Bio.Bcache.Victim` | G19_Project1_xv6CustomizeSystemCalls/bio.c:80-91 | the last idle buffer in order, or none |
| `Bio.Bcache.Bget` | G19_Project1_xv6CustomizeSystemCalls/bio.c:58-93 | the buffer that caches the block, with one reference more; else the idle buffer released longest ago, taken over with one reference; panic exactly if there is neither |
| `Bio.Bcache.Iderw` | G19_Project1_xv6CustomizeSystemCalls/memide.c:39-60 | a dirty buffer is written to its block, any other read from it, and no other block or buffer changes; refused exactly where the panics are |
| `Bio.Bcache.Fill` | G19_Project1_xv6CustomizeSystemCalls/bio.c:95-106 | the buffer becomes valid; if it was not it holds its block of the disk |
| `Bio.Bcache.Bwrite` | G19_Project1_xv6CustomizeSystemCalls/bio.c:108-116 | the block of the disk holds what the buffer holds, and the buffer is clean |
| `Bio.Bcache.Brelse` | G19_Project1_xv6CustomizeSystemCalls/bio.c:118-141 | one reference less; the last one moves the buffer to the front of the ring |
| `SleepLock.MutualExclusion` | G19_Project1_xv6CustomizeSystemCalls/sleeplock.c:22-42 | with any number of processes, each test and each assignment of the lock a step of its own, at most one holds a sleep lock or mutex |
| `SleepLock.AnswersAreExact` | G19_Project1_xv6CustomizeSystemCalls/sleeplock.c:44-53 | in every run holdingsleep, which reads two fields in two steps, answers its caller exactly whether it holds the lock |
| `SleepLock.CallsReturn` | G19_Project1_xv6CustomizeSystemCalls/sysproc.c:386-429 | in every run whoever returns from acquiring is the one holder, whoever returns from releasing is not, and a release is refused only to one who is not |
| `SleepLock.Decides` | G19_Project1_xv6CustomizeSystemCalls/sleeplock.c:22-42 | the tests of the code decide exactly by who holds the lock, and a wakeup leaves nobody asleep |
| `SleepLock.NoLostWakeup` | G19_Project1_xv6CustomizeSystemCalls/proc.c:425-484 | once the lock is free and no wakeup is pending, nobody sleeps on it or is about to |
| `SleepLock.NoDeadlock` | G19_Project1_xv6CustomizeSystemCalls/proc.c:425-484 | whoever waits for a spin lock, some process or the scheduler can step |
| `SleepLock.KeepsSpin` | G19_Project1_xv6CustomizeSystemCalls/sleeplock.c:22-42 | each spin lock is held by exactly the process at a place that holds it |
| `SleepLock.KeepsHold` | G19_Project1_xv6CustomizeSystemCalls/sysproc.c:386-429 | the owner is unique, locked says whether there is one and pid which, but while they are being set; what a process has read of the lock stays so while it has the spin lock |
| `SleepLock.NoLkNoChange` | G19_Project1_xv6CustomizeSystemCalls/sleeplock.c:22-42 | without the spin lock no step changes the lock or its holder |
| `SleepLock.KeepsSleep` | G19_Project1_xv6CustomizeSystemCalls/proc.c:425-484 | a sleeper has a locked lock or a pending wakeup to look forward to |
| `SleepLock.PendingStays` | G19_Project1_xv6CustomizeSystemCalls/sysproc.c:421-428 | a pending wakeup stays pending until its owner has woken everyone |
| `Proc.ProcessTree` | G19_Project1_xv6CustomizeSystemCalls/proc.c:76-366 | in every reachable state live pids are distinct, every started process but init has a living older parent, no process asleep in a wait has a zombie it waits for, and running processes match CPUs |
| `Proc.ReapedOnce` | G19_Project1_xv6CustomizeSystemCalls/sysproc.c:169-267 | no pid is returned twice by wait, waitx or waitpid |
| `Proc.ExitKeeps` | G19_Project1_xv6CustomizeSystemCalls/proc.c:232-278 | exit keeps the tree: children pass to init, and parent and init are woken if they must be |
| `Proc.ExitWait` | G19_Project1_xv6CustomizeSystemCalls/proc.c:260-276 | no parent asleep in a wait misses the new zombie, nor init the zombies passed to it |
| `Proc.ScanKeeps` | G19_Project1_xv6CustomizeSystemCalls/proc.c:280-322 | one round of a wait keeps the tree, whether it reaps, gives up or sleeps |
| `Proc.AllocKeeps` | G19_Project1_xv6CustomizeSystemCalls/proc.c:76-100 | a new embryo has a fresh pid and a living forker |
| `Proc.EmbryoKeeps` | G19_Project1_xv6CustomizeSystemCalls/proc.c:186-230 | finishing or failing a fork keeps the tree |
| `Proc.ScheduleKeeps` | G19_Project1_xv6CustomizeSystemCalls/proc.c:333-361 | a CPU and a process start running together |
| `Proc.KillKeeps` | G19_Project1_xv6CustomizeSystemCalls/proc.c:486-507 | killing keeps the tree, whichever slot has the pid |
| `Proc.KilledIff` | G19_Project1_xv6CustomizeSystemCalls/proc.c:486-507 | in every step a slot is marked as killed exactly if it was, or a kill finds its pid, and it is not waited for |
| `Proc.StaysKilled` | G19_Project1_xv6CustomizeSystemCalls/proc.c:486-507 | once killed a process is so in every later state of every run, until it is waited for |
| `Proc.LifeCycle` | G19_Project1_xv6CustomizeSystemCalls/proc.c:76-507 | the state of every slot after every step, exactly: who is allocated, started, run, put to sleep, woken, made a zombie and reaped, and by what |
| `Proc.Identity` | G19_Project1_xv6CustomizeSystemCalls/proc.c:76-507 | a process keeps its pid and creation time, its parent but for the exit of that parent, and what it sleeps on |
| `Proc.ExitSlot` | G19_Project1_xv6CustomizeSystemCalls/proc.c:232-278 | what exit does to each slot of the table |
| `Proc.WaitingTime` | G19_Project1_xv6CustomizeSystemCalls/sysproc.c:190-198 | the waiting time of every zombie in every run, exactly: the charges it missed, less one if allocated between a tick and its charge, plus one if it exited between them; so -1 at least, and -1 exactly for such a process that ran at every charge |
| `Proc.WaitingTimeNotNegative` | G19_Project1_xv6CustomizeSystemCalls/sysproc.c:190-198 | waitx never reports a negative waiting time in a run in which no process is allocated between a tick and its charge |
| `Proc.WaitingTimeCanBeNegative` | G19_Project1_xv6CustomizeSystemCalls/trap.c:50-57 | a run in which waitx reports -1: a process created and scheduled between a tick and its charge |
| `Proc.TimeKeeps` | G19_Project1_xv6CustomizeSystemCalls/proc.c:598-608 | every step keeps, for every process, elapsed ticks equal to charges received and missed, up to the tick not yet charged |
| `ProcTable.Table.Wakeup1` | G19_Project1_xv6CustomizeSystemCalls/proc.c:464-476 | exactly the processes asleep on the channel become runnable |
| `ProcTable.Table.Allocproc` | G19_Project1_xv6CustomizeSystemCalls/proc.c:82-102 | the first unused slot becomes an embryo with the next pid, or nothing changes |
| `ProcTable.Table.PassChildren` | G19_Project1_xv6CustomizeSystemCalls/proc.c:263-270 | the scan that gives children to init and wakes it |
| `ProcTable.Table.Exit` | G19_Project1_xv6CustomizeSystemCalls/proc.c:258-276 | the process is a zombie, its children are those of init, and exactly those asleep on its parent, or on init if a zombie is passed to it, are woken |
| `ProcTable.Table.Scan` | G19_Project1_xv6CustomizeSystemCalls/proc.c:287-320 | the first waited-for zombie is reaped and its times reported; it goes to sleep exactly if there is no zombie but a child to wait for, and it is not killed |
| `ProcTable.Table.Kill` | G19_Project1_xv6CustomizeSystemCalls/proc.c:486-507 | 0 exactly if a slot has the pid; then the first such is marked as killed, and runnable if it was asleep, and nothing else changes |
| `ProcTable.Table.UpdateRtime` | G19_Project1_xv6CustomizeSystemCalls/proc.c:598-608 | exactly the running processes are charged a tick |
| `Pages.Popped` | G19_Project1_xv6CustomizeSystemCalls/kalloc.c:79-95 | the page leaves the free list for the caller, all pages still accounted for |
| `Pages.Pushed` | G19_Project1_xv6CustomizeSystemCalls/kalloc.c:55-77 | a page in hand goes back to the free list once |
| `Pages.TabAdded` | G19_Project1_xv6CustomizeSystemCalls/vm.c:42-54 | a page in hand becomes a page table |
| `Pages.PteAdded` | G19_Project1_xv6CustomizeSystemCalls/vm.c:62-81 | a page in hand becomes a user page; a kernel mapping takes nothing |
| `Pages.PteDropped` | G19_Project1_xv6CustomizeSystemCalls/vm.c:270-277 | a user page leaves the space for the caller |
| `Vm.Kernel.Kfree` | G19_Project1_xv6CustomizeSystemCalls/kalloc.c:55-77 | the page is the new head; no other page changes |
| `Vm.Kernel.Walkpgdir` | G19_Project1_xv6CustomizeSystemCalls/vm.c:33-56 | the table for the page exists, or is made of the first free page if asked; refused exactly if it is missing and not asked for, or no page is free |
| `Vm.Kernel.MapPage` | G19_Project1_xv6CustomizeSystemCalls/vm.c:62-81 | one entry added, or for want of memory none |
| `Vm.Kernel.Mappages` | G19_Project1_xv6CustomizeSystemCalls/vm.c:58-81 | the whole range mapped, or memory ran out; pages conserved |
| `Vm.Kernel.Setupkvm` | G19_Project1_xv6CustomizeSystemCalls/vm.c:118-137 | a space with exactly the kernel mappings, or the free pages as before |
| `Vm.Kernel.Deallocuvm` | G19_Project1_xv6CustomizeSystemCalls/vm.c:252-280 | exactly the user pages between the sizes are unmapped and freed, although missing tables are stepped over |
| `Vm.Kernel.Allocuvm` | G19_Project1_xv6CustomizeSystemCalls/vm.c:220-250 | zeroed pages for the new range, exactly if there are free pages for them and the tables missing and the size does not reach the kernel; else the user mapping exactly as before |
| `Vm.Kernel.GrowAll` | G19_Project1_xv6CustomizeSystemCalls/vm.c:231-248 | the loop goes to its end exactly if there are as many free pages as new pages and missing tables |
| `Vm.NextTable` | G19_Project1_xv6CustomizeSystemCalls/vm.c:33-56 | one page more takes one table more exactly if its own is not there yet |
| `Vm.Kernel.Ungrow` | G19_Project1_xv6CustomizeSystemCalls/vm.c:236-247 | the way out of a failed growth |
| `Vm.Kernel.Freevm` | G19_Project1_xv6CustomizeSystemCalls/vm.c:282-299 | every page the space owned is on the free list, once |
| `Vm.Kernel.CopyPage` | G19_Project1_xv6CustomizeSystemCalls/vm.c:331-338 | a copy of a page mapped at the same place, or nothing |
| `Vm.Kernel.Copyuvm` | G19_Project1_xv6CustomizeSystemCalls/vm.c:314-346 | a space with the same user pages by place, permission and contents, and exactly the kernel mappings above them; or the free pages as before |
| `Vm.SkipTable` | G19_Project1_xv6CustomizeSystemCalls/vm.c:266-269 | stepping over a missing table misses no page |
| `Vm.NewSpace` | G19_Project1_xv6CustomizeSystemCalls/vm.c:123-126 | a page just allocated makes an empty space |
| `OpenFiles.DropKeeps` | G19_Project1_xv6CustomizeSystemCalls/file.c:55-80 | giving up a reference keeps counts, pipe ends and the history of pipe pages consistent |
| `OpenFiles.PlaceKeeps` | G19_Project1_xv6CustomizeSystemCalls/sysfile.c:38-53 | putting a reference into a slot keeps every count |
| `OpenFiles.PullKeeps` | G19_Project1_xv6CustomizeSystemCalls/sysfile.c:93-104 | taking one out does, too |
| `OpenFiles.MakePipeKeeps` | G19_Project1_xv6CustomizeSystemCalls/pipe.c:22-57 | a new pipe has each end open through exactly one file |
| `OpenFiles.Table.Filealloc` | G19_Project1_xv6CustomizeSystemCalls/file.c:25-41 | the first file without references, with one now, or there is none |
| `OpenFiles.Table.Filedup` | G19_Project1_xv6CustomizeSystemCalls/file.c:43-53 | one more reference, the same file |
| `OpenFiles.Table.Fileclose` | G19_Project1_xv6CustomizeSystemCalls/file.c:55-80 | one reference less; the last one frees the file and closes its end of a pipe; every pipe ever made still has an end open or its page was freed once |
| `OpenFiles.LastPipeFreed` | G19_Project1_xv6CustomizeSystemCalls/pipe.c:59-75 | closing an open end keeps every pipe ever made either there or freed once, also when pages are used again |
| `OpenFiles.Table.Pipeclose` | G19_Project1_xv6CustomizeSystemCalls/pipe.c:59-75 | closing an open end frees the page exactly if the other end is closed, and keeps the history of pages: each pipe freed at most once, when both its ends are closed |
| `OpenFiles.Table.Fdalloc` | G19_Project1_xv6CustomizeSystemCalls/sysfile.c:38-53 | the lowest empty slot, or -1 and no change |
| `OpenFiles.Table.SysDup` | G19_Project1_xv6CustomizeSystemCalls/sysfile.c:55-67 | the lowest empty slot names the same file, which has one reference more; every count equals its slots again |
| `OpenFiles.Table.SysClose` | G19_Project1_xv6CustomizeSystemCalls/sysfile.c:93-104 | the slot is empty, the file has a reference less or is closed, and every count equals its slots again |
| `OpenFiles.Table.SysOpen` | G19_Project1_xv6CustomizeSystemCalls/sysfile.c:317-332 | a new file in the lowest empty slot; or, exactly if files or slots are exhausted, everything as before |
| `OpenFiles.Table.Pipealloc` | G19_Project1_xv6CustomizeSystemCalls/pipe.c:22-57 | two files that are the ends of a new pipe, in any page not now a pipe, or everything as before |
| `OpenFiles.Table.SysPipe` | G19_Project1_xv6CustomizeSystemCalls/sysfile.c:422-444 | both ends in the two lowest empty slots; or slots, files and pipes as before, and then for want of slots, files or memory |
| `OpenFiles.Table.Fork` | G19_Project1_xv6CustomizeSystemCalls/proc.c:214-216 | the child has the slots of its parent, every file is what it was, and every count equals its slots |
| `OpenFiles.Table.Exit` | G19_Project1_xv6CustomizeSystemCalls/proc.c:245-251 | the process has no slots left, every file still open is what it was, and every count equals its slots |
| `Pipe.Fifo` | G19_Project1_xv6CustomizeSystemCalls/pipe.c:77-121 | in every run the bytes delivered are the first bytes stored, and at most 512 are outstanding |
| `Pipe.NobodySleepsForNothing` | G19_Project1_xv6CustomizeSystemCalls/pipe.c:77-121 | no writer sleeps unless the pipe is full; nor a reader unless it is empty, if no killed writer gives up |
| `Pipe.ReadersFineIff` | G19_Project1_xv6CustomizeSystemCalls/pipe.c:84-97 | a step leaves a reader asleep on a non-empty pipe exactly if a killed writer fills the pipe in it and gives up |
| `Pipe.ReaderCanSleepOnFullPipe` | G19_Project1_xv6CustomizeSystemCalls/pipe.c:84-90 | a run that ends with a reader asleep on a full pipe |
| `Pipe.ZeroMeansClosed` | G19_Project1_xv6CustomizeSystemCalls/pipe.c:101-121 | a read of at least one byte returns none only from an empty pipe whose writers are closed |
| `Pipe.QueueAppend` | G19_Project1_xv6CustomizeSystemCalls/pipe.c:93-94 | storing appends to the queue, also across counter wrap-around |
| `Pipe.QueueRemove` | G19_Project1_xv6CustomizeSystemCalls/pipe.c:114-117 | reading removes the first byte, also across counter wrap-around |
| `Pipe.Ring.Write` | G19_Project1_xv6CustomizeSystemCalls/pipe.c:77-98 | all is appended, or as much as fills the ring; it returns, fails or sleeps exactly by what is left, the readers and a kill |
| `Pipe.Ring.Read` | G19_Project1_xv6CustomizeSystemCalls/pipe.c:100-121 | as many bytes as asked for, or all there are, from the front; or it fails or sleeps, exactly with an empty pipe that can be written |
| `Pipe.ReadIs` | G19_Project1_xv6CustomizeSystemCalls/pipe.c:100-121 | the same of a turn in the runs: what is delivered, what is left, and that no writer is left asleep |
| `Pipe.WriteIs` | G19_Project1_xv6CustomizeSystemCalls/pipe.c:77-98 | and of a writer: what is stored, whether it returns, gives up or sleeps, and that unless it gives up no reader is left asleep |
| `MsgQueue.EveryRun` | G19_Project1_xv6CustomizeSystemCalls/sysproc.c:520-658 | in every run of sends of safe size each message is queued in send order, delivered, or lost to a refused buffer, once; what is delivered was sent; nobody sleeps while a message it accepts is queued |
| `MsgQueue.TakesOldest` | G19_Project1_xv6CustomizeSystemCalls/sysproc.c:600-615 | what a receiver takes is the oldest message it accepts that nobody has taken |
| `MsgQueue.Appended` | G19_Project1_xv6CustomizeSystemCalls/sysproc.c:557-568 | linking a node behind the tail appends its message |
| `MsgQueue.Unlinked` | G19_Project1_xv6CustomizeSystemCalls/sysproc.c:605-615 | unlinking any node keeps head, tail and the order of the rest |
| `MsgQueue.Queue.Send` | G19_Project1_xv6CustomizeSystemCalls/sysproc.c:557-571 | the message is last in the queue |
| `MsgQueue.Queue.Msgsnd` | G19_Project1_xv6CustomizeSystemCalls/sysproc.c:520-574 | refused exactly for a bad pointer or size or want of memory; else the bytes given are last in the queue, unless they run over the page |
| `MsgQueue.Queue.Receive` | G19_Project1_xv6CustomizeSystemCalls/sysproc.c:600-617 | the first message of the type wanted, 0 being any, is taken out and the rest kept in order; none exactly if there is none |
| `MsgQueue.Queue.Msgrcv` | G19_Project1_xv6CustomizeSystemCalls/sysproc.c:600-642 | of the message found exactly the bytes asked for are copied, or all if those are fewer; it is lost exactly if the buffer has no room |
| `MsgQueue.SizeIsSafeIff` | G19_Project1_xv6CustomizeSystemCalls/sysproc.c:520-637 | a send that msgsnd accepts stays inside its node, and is received as nothing but bytes that were sent, exactly if its size is from 0 to 4084 |
| `MsgQueue.NegativeSizeIsCopied` | G19_Project1_xv6CustomizeSystemCalls/sysproc.c:619-623 | a send of size -1 is accepted, and a receive of 100 bytes then returns 100 bytes nobody sent |
| `MsgQueue.RunsOver` | G19_Project1_xv6CustomizeSystemCalls/sysproc.c:549-555 | a send of more bytes than the page has room for reaches the next page |
| `MsgQueue.SendAcceptedIff` | G19_Project1_xv6CustomizeSystemCalls/syscall.c:58-70 | the argument test with its wrap-around accepts sizes from -4 on |
| `MsgQueue.OnlySentIff` | G19_Project1_xv6CustomizeSystemCalls/sysproc.c:619-637 | whatever size is asked for, a receive is of bytes that were sent exactly if the size sent is not negative |
| `MsgQueue.CopyAtMost` | G19_Project1_xv6CustomizeSystemCalls/sysproc.c:619-623 | of a message of size 0 or more no more is copied than it has or was asked for |
| `MsgQueue.DeliverWhole` | G19_Project1_xv6CustomizeSystemCalls/sysproc.c:619-637 | with a size at least its length a message arrives whole exactly if the buffer has room for it |
| `MsgQueue.DeliverIs` | G19_Project1_xv6CustomizeSystemCalls/sysproc.c:619-637 | how many bytes a receive of a message of safe size copies, for every size asked for and every buffer |
| `MsgQueue.CopyOut` | G19_Project1_xv6CustomizeSystemCalls/sysproc.c:619-642 | the code that copies does that |
| `MsgQueue.TurnEnds` | G19_Project1_xv6CustomizeSystemCalls/sysproc.c:600-658 | a receiver goes to sleep exactly if nothing it wants is queued, it is ready to wait and it is not killed |
| `ShellSyntax.GetToken` | G19_Project1_xv6CustomizeSystemCalls/sh.c:265-308 | tokens lie in order in the line, progress is made, words are maximal, and which token it is by its first characters |
| `ShellRoundTrip.ParsePrinted` | G19_Project1_xv6CustomizeSystemCalls/sh.c:265-446 | for every tree of legal words with at most 9 arguments a command, parsing its printed form gives the tree |
| `ShellRoundTrip.PrintedLine` | G19_Project1_xv6CustomizeSystemCalls/sh.c:344-359 | the grammar derives every printed tree |
| `ShellRoundTrip.AppendIsWrite` | G19_Project1_xv6CustomizeSystemCalls/sh.c:374-397 | >> leads to the same tree as > |
| `ShellGrammar.ParsesIff` | G19_Project1_xv6CustomizeSystemCalls/sh.c:265-446 | the parser accepts exactly the lines that the grammar derives, redirections anywhere among the words, and its tree is the one derived |
| `ShellGrammar.OneTree` | G19_Project1_xv6CustomizeSystemCalls/sh.c:265-446 | no line has two trees |
| `ShellGrammar.LineDerived` | G19_Project1_xv6CustomizeSystemCalls/sh.c:344-359 | what parseline accepts is derived |
| `ShellGrammar.LineParses` | G19_Project1_xv6CustomizeSystemCalls/sh.c:344-359 | a derived line is accepted with its tree, in any context that can follow it |
| `ShellGrammar.BackReaches` | G19_Project1_xv6CustomizeSystemCalls/sh.c:349-353 | parsepipe and the loop for & reach the derived job |
| `ShellGrammar.PipeParses` | G19_Project1_xv6CustomizeSystemCalls/sh.c:361-372 | the same for a pipeline |
| `ShellGrammar.ExecParses` | G19_Project1_xv6CustomizeSystemCalls/sh.c:415-446 | the same for a simple command or a parenthesised one |
| `ShellGrammar.ArgsParse` | G19_Project1_xv6CustomizeSystemCalls/sh.c:431-442 | words and redirections, however mixed, are collected each in order |
| `ShellGrammar.RedirsParse` | G19_Project1_xv6CustomizeSystemCalls/sh.c:374-397 | redirections are collected in order |
| `ShellGrammar.ArgsDerived` | G19_Project1_xv6CustomizeSystemCalls/sh.c:431-442 | and what is collected is what is there, with at most 9 words |
| `ShellRoundTrip.RenderReads` | G19_Project1_xv6CustomizeSystemCalls/sh.c:265-308 | a rendered token list is cut into those tokens |
| `Shell.Parser.Gettoken` | G19_Project1_xv6CustomizeSystemCalls/sh.c:265-308 | the scanner loop computes the token |
| `Shell.Parser.PeekFor` | G19_Project1_xv6CustomizeSystemCalls/sh.c:310-320 | white space is skipped and the next character compared |
| `Shell.Parser.Parseredirs` | G19_Project1_xv6CustomizeSystemCalls/sh.c:374-397 | the loop parses as the grammar function |
| `Shell.Parser.Parseargs` | G19_Project1_xv6CustomizeSystemCalls/sh.c:429-445 | the loop parses as the grammar function, with the argument limit |
| `Shell.Parser.Parseexec` | G19_Project1_xv6CustomizeSystemCalls/sh.c:415-446 | parses as the grammar function |
| `Shell.Parser.Parseblock` | G19_Project1_xv6CustomizeSystemCalls/sh.c:399-413 | parses as the grammar function |
| `Shell.Parser.Parsepipe` | G19_Project1_xv6CustomizeSystemCalls/sh.c:361-372 | parses as the grammar function |
| `Shell.Parser.Parsebacks` | G19_Project1_xv6CustomizeSystemCalls/sh.c:350-353 | the loop parses as the grammar function |
| `Shell.Parser.Parseline` | G19_Project1_xv6CustomizeSystemCalls/sh.c:344-359 | parses as the grammar function, and ends |
| `Shell.Parser.Parsecmd` | G19_Project1_xv6CustomizeSystemCalls/sh.c:327-342 | the tree that the grammar derives for the line, or a panic exactly if it derives none |
| `Shell.LineWords` | G19_Project1_xv6CustomizeSystemCalls/sh.c:344-446 | every word in a parsed tree is a whole, maximal word of the line |
| `Shell.Nulterminate` | G19_Project1_xv6CustomizeSystemCalls/sh.c:448-493 | NUL behind every word of the tree, and no other change |
| `Shell.WordsSurvive` | G19_Project1_xv6CustomizeSystemCalls/sh.c:448-493 | after termination every argument and file name is exactly its token: none is cut by the terminator of another |
| `Shell.ParseAndTerminate` | G19_Project1_xv6CustomizeSystemCalls/sh.c:327-342 | parsecmd as a whole |
| `Shell.ParseTyped` | G19_Project1_xv6CustomizeSystemCalls/sh.c:327-493 | for every tree of legal words, parsecmd on its printed form in a buffer gives a tree whose words, read as C strings from the buffer, are that tree |
| `Grep.Match` | G19_Project1_xv6CustomizeSystemCalls/grep.c:72-82 | true exactly when some part of the text, placed as ^ and $ demand, is in the language of the pattern |
| `Grep.MatchHere` | G19_Project1_xv6CustomizeSystemCalls/grep.c:84-96 | the recursion decides whether a beginning of the text matches, and ends |
| `Grep.MatchStar` | G19_Project1_xv6CustomizeSystemCalls/grep.c:98-106 | the loop decides the same behind a star |
| `Grep.AcceptsIff` | G19_Project1_xv6CustomizeSystemCalls/grep.c:84-106 | matching from the left succeeds exactly for the beginnings in the language |
| `Grep.Sound` | G19_Project1_xv6CustomizeSystemCalls/grep.c:84-106 | a successful match yields one piece of text for each item |
| `Grep.Complete` | G19_Project1_xv6CustomizeSystemCalls/grep.c:84-106 | any division into pieces is found |
| `Grep.ParseShows` | G19_Project1_xv6CustomizeSystemCalls/grep.c:84-96 | a pattern is read in full: written out it is its text again, every * a repetition and a final $ the end |
| `Grep.ShowParses` | G19_Project1_xv6CustomizeSystemCalls/grep.c:84-96 | and there is one such reading |
| `Console.KeyKeeps` | G19_Project1_xv6CustomizeSystemCalls/console.c:191-233 | keys keep the bounds, never touch committed characters, and kill exactly the edited line |
| `Console.KeyTypes` | G19_Project1_xv6CustomizeSystemCalls/console.c:197-227 | the same of a key in the runs |
| `Console.ReadingTakes` | G19_Project1_xv6CustomizeSystemCalls/console.c:235-271 | a read takes the front of what is committed, up to a newline, never past an end-of-file mark; it returns only with all it asked for, a line, or at such a mark |
| `Console.RingDone` | G19_Project1_xv6CustomizeSystemCalls/console.c:217-219 | storing a key leaves the committed characters alone |
| `Console.StoreIs` | G19_Project1_xv6CustomizeSystemCalls/console.c:217-224 | counters stay in order within 128 across wrap-around, and the ring grows by the key |
| `Console.Device.Press` | G19_Project1_xv6CustomizeSystemCalls/console.c:197-227 | the key itself, newline for carriage return, is put behind the line if there is room, and commits it exactly at newline, end of file or a full ring; backspace and delete take the last character, control-U the line; nothing committed changes |
| `Console.Device.Store` | G19_Project1_xv6CustomizeSystemCalls/console.c:216-225 | the key is behind the line, which is committed if it ends there or the ring is full |
| `Console.Device.Back` | G19_Project1_xv6CustomizeSystemCalls/console.c:210-215 | the last character of the line is gone |
| `Console.Device.Read` | G19_Project1_xv6CustomizeSystemCalls/console.c:241-271 | what a turn takes is the front of what is committed; it returns with all it asked for, a line, or at an end-of-file mark, sleeps without input, or fails exactly if killed |
| `Console.EveryRun` | G19_Project1_xv6CustomizeSystemCalls/console.c:191-271 | in every run with any number of readers what is committed is taken in order, nothing twice or lost, each read answers with its own share of it, at most one line, and nobody sleeps while there is input |
| `Console.TurnShares` | G19_Project1_xv6CustomizeSystemCalls/console.c:244-266 | a turn adds to the share of its own call and to no other |
| `Console.TurnReads` | G19_Project1_xv6CustomizeSystemCalls/console.c:244-266 | a turn goes on with the line it has begun, and what it takes and leaves is what was committed |
| `Tail.DumpTail` | G19_Project2_1/src/custom_tail.c:41-95 | for every input, the last pieces it is cut into, each up to a NUL |
| `Tail.TailIsLastLines` | G19_Project2_1/src/custom_tail.c:41-95 | for NUL-free input that output is the last lines exactly if all pieces are printed or none of the last lines is longer than 4095 characters |
| `Tail.PiecesAreCutLines` | G19_Project2_1/src/custom_tail.c:50-61 | the pieces are the lines, each cut by itself |
| `Tail.LinesAre` | G19_Project2_1/src/custom_tail.c:41-95 | the lines are the whole input, each closed by its only newline |
| `Tail.CStrIs` | G19_Project2_1/src/custom_tail.c:54-60 | what is kept of a piece is its beginning up to a NUL |
| `Tail.OverlongLineIsSplit` | G19_Project2_1/src/custom_tail.c:50-61 | a longer line is cut, and then its last piece counts as a line |
| `Tail.PrintLast` | G19_Project2_1/src/custom_tail.c:79-95 | the circular buffer is printed from its oldest line |
| `Tail.Stored` | G19_Project2_1/src/custom_tail.c:54-60 | storing a line replaces the oldest one |

## Left out

- Fs.FileSystem.Writei: writes to devices, which the code passes on.
- Fs.FileSystem.Readi: reads of devices, which the code passes on.
- Fs.FileSystem.Filewrite: no other process writes the same file between two of its chunks.
- Fs.FileSystem.Balloc: works on one sequence of bits for the whole volume; `BitmapBlocks.Area.Balloc` is the same on the bytes of the bitmap blocks.
- Fs.FileSystem.Bfree: as for Balloc, with `BitmapBlocks.Area.Bfree`.
- Mkfs.Image.Balloc: as for Balloc, with `BitmapBlocks.MkfsBalloc`.
- Mkfs.Image.Build: at most 206 files, the number whose inodes fit (`Mkfs.InodesFit`); the code does not check this, and would write the next inode into the bitmap block.
- Mkfs.Image.AddFile: the program exits for a host file that cannot be opened or whose name has a slash.
- CrashedFiles.RecoversWholeTransactions: operations may be open together but do not mix their block writes; for file writes `MixedWrites.RecoversWholeWrites` lifts this.
- MixedWrites.RecoversWholeWrites: the operations that write are writes to files without holes; two under way at once are of different files and take different free blocks, as inode locks and the bitmap buffers' locks ensure.
- Umalloc.Heap.Malloc: requests for which sbrk's argument is negative are covered by the exactness lemmas only.
- Log.Log.Bwrite: the panics for a buffer that is not locked or not on the disk.
- LogRuns.CrashSafety: each block write is atomic and in order, as the code's comment assumes of the disk.
- BufferCache.CacheRefinesDisk: a caller that changes a buffer logs or writes it before releasing it, as all callers do.
- OpenFiles.Table.Fileclose: reference counts of in-memory inodes (iget, idup, iput) are not modelled; the same counting argument would be repeated on them.
- OpenFiles.Table.SysPipe: system calls of different processes do not overlap.
- Vm.Kernel.Kfree: the panics for an address that is not aligned or not memory, and the link kept inside a free page.
- Vm.Kernel.Walkpgdir: a page table's entries are part of its directory's value instead of words in the table's page.
- MsgQueue.EveryRun: sends of an unsafe size, after which memory the queue does not own is changed.
- DiskLayout.LayoutInjective: type, device numbers and link count of an inode; a word tells whether it is in use.
- MsgQueue.Queue.Receive: queue removal (msgctl) running at the same time.
- Proc.ProcessTree: wrap-around of the pid and tick counters.
- Tail.TailIsLastLines: input with NUL characters, for which `Tail.DumpTail` states the output, and read and write errors.
- SleepLock.NoLostWakeup: fairness, that is, that a woken process is eventually scheduled.
- Directories, path names, link counts and exec: they add no new kind of argument, and link counts are not exact for unlinked current directories.
- Inode cache and inode allocation (iget, ialloc), the second half of iput.
- Shared memory pages (shmget, shmem): their pages are not conserved by design.
- First-use initialisation of the mutex and message-queue tables, and msgget.
- Boot code, traps other than the timer, devices, interrupt controllers, the scheduler's context switch.
- The IDE driver; the memory disk stands for it.
- The read loop of grep, and the other utilities: input and output around library calls.
