# A verified model of a teaching kernel

This project models the parts of a small AArch64 kernel and its user programs where correctness is
hard to see from the code, and proves what they are for:

* the block cache and write-ahead log of the file system: group commit, log-space reservation, LRU
  eviction with pinning, and replay after a crash between any two device writes, over whole histories
  (`Wal.dfy`, `BlockCache.dfy`, `LogProtocol.dfy`), up to whole sessions of a cache that crashes and
  reboots, which refine a plain store of two maps (`Sessions.dfy`);
* the block bitmap, files on direct and indirect blocks, directories and path names: a flat byte
  sequence, a finite map, a split on slashes, exact block ownership, and the transaction budget of
  long writes (`Bitmap.dfy`, `Inodes.dfy`, `Files.dfy`, `Directories.dfy`, `Paths.dfy`);
* the red-black tree with parent pointers, insertion and erasure loops included (`RbShape.dfy`,
  `RbRotate.dfy`, `RbMemory.dfy`, `RbErase.dfy`, `RbTree.dfy`);
* semaphores and the scheduler of four CPUs as one step system with explicit locks (`Scheduler.dfy`,
  `Semaphores.dfy`), and the life of processes: exit, wait, reparenting and PID reuse (`ProcTree.dfy`);
* intrusive lists at the pointer level (`Rings.dfy`), the queues made of them (`LinkedQueues.dfy`), which
  the run queue and the semaphores use, and the order of sequences (`Lists.dfy`);
* the in-page heap, the page tables with `free_pgdir`, the copy made by `fork`, and `copyout`
  (`Heap.dfy`, `PageTable.dfy`, `UserMemory.dfy`);
* the shell's parser, from characters to trees to NUL-terminated words, against a grammar of derivation
  trees (`ShellGrammar.dfy`, `ShellDerivations.dfy`, `Shell.dfy`, `ShellText.dfy`);
* the virtqueue of the disk driver (`Virtqueue.dfy`).

Constants that several parts share are in `Common.dfy`.

`dafny verify dfyconfig.toml` checks everything.

## How to read it

Code that works on pointers keeps its pointers: a node is an address, memory is a map from addresses to
fields, and a ghost value says which tree or ring the memory holds. Methods follow the loops and the
branches of the source; pure lemmas carry the argument. Protocols that several CPUs run are step
systems: what happens between two lock operations is one step, `Next` is the step, and the main lemma
quantifies over every schedule. A failing `ASSERT` or `PANIC` is an outcome of a step, and is proved
unreachable or given its exact condition.

The layers meet in what they promise each other. `BlockCache.Cache` keeps a ghost `view`, the plain map
that every reader sees whatever is cached, evicted or logged; the file layer works on that view and
collects the blocks that it synchronises in one operation, which cover whatever it changes.
`LogProtocol.NeverPanicsExactly` turns a bound on that set into the absence of the panic, on every
schedule, and `Files.FileWrite` states it of each of its operations. The commits that the cache issues
are the ones whose crashes `Wal` studies: `Sessions.Serve` runs any session of calls, crashes and reboots
on the cache and ties it both to a history of `Wal.RunAtomic` and to the plain store, and
`Sessions.ChunksChain` makes the operations of `Files.FileWrite` operations of that store.

Where the code differs from what its comments say, the model follows the code:

* `cache.h` says that `end_op` waits until the operation's blocks are on disk. The code returns at once
  while other operations run (src/fs/cache.c:228-232); `BlockCache.Cache.EndOp` states which ender
  makes the group durable.
* The log is said to hold 63 blocks; mkfs reserves 63 including the header. `Wal.LogAreaExact` gives the
  exact condition and `Wal.MkfsLogTooSmall` the overlap.
* `inode_put` frees a file in one operation, whatever its size. On volumes of ten or more bitmap blocks
  this can exceed the operation's budget (`Files.SpreadFilePanics`); `Files.PutNeverPanics` has the exact
  condition.
* `cache.h` describes `rm` as counting down to 0; the code counts it up to the budget of 10
  (src/fs/cache.c:185, 212-216), and so does the model.
* `cache_free` subtracts the mask, which is right exactly for allocated blocks (`BlockAlloc.FreeIff`).
* `init_bcache` clears 63 bytes of the block numbers, not 63 numbers (src/fs/cache.c:292); the model
  does the same, and replay is right nevertheless.
* The comment of `inode_map` speaks of a byte offset; callers pass a block index, and so does the model.
* `>>` parses to the same tree as `>` (src/user/sh/main.c:399-401).
* The scheduler puts a process that gives up its CPU at the end of the queue, but one that is woken at
  its head (src/kernel/sched.c:100, 116). So the queue is round robin only between wake-ups, and a
  process can starve (`Scheduler.Starves`); `Scheduler.TurnExact` is the exact law.
* Three requests at once panic in the disk driver, because eight descriptors hold two chains of three
  (`Virtqueue.Disk.Submit`).
* `unalertable_wait_sem` is meant never to fail, and asserts so. It fails for a process that has been
  killed before it goes to sleep (`Semaphores.UnalertablePanics` is a schedule), and exactly then unless
  a post picks the process in time; one that is killed in its sleep sleeps on and succeeds
  (`Semaphores.UnalertableFails`).

## Model

| member | source | states |
|---|---|---|
| LogHeaders.HeaderRoundTrip | src/fs/defines.h:72-75 | the 512 bytes of the header block decode to the header they were made from |
| LogHeaders.ByteWeight | src/fs/defines.h:72-75 | least byte first: byte i of stored bytes is their number divided by 256^i, modulo 256 |
| LogHeaders.WordAt | src/fs/defines.h:72-75 | of the numbers that the header block stores, byte i of the k-th lies at 8k + i and is the number divided by 256^i, modulo 256 |
| Wal.RecoverInstalls | src/fs/cache.c:280-293 | replay of any recoverable disk installs exactly the logged group, touches nothing else outside the log, and leaves the log empty |
| Wal.BeforeHeader | src/fs/cache.c:234-245 | until the header write, any number of log-slot writes leaves the file system and the header as they were |
| Wal.AfterHeader | src/fs/cache.c:247-247 | the header write alone turns the disk into one whose replay gives the whole group |
| Wal.WhileInstalling | src/fs/cache.c:249-254 | after any number of home writes the log still describes the group, and replay completes it |
| Wal.CommitDone | src/fs/cache.c:221-263 | a finished commit has installed the group and emptied the log |
| Wal.CrashAtomic | src/fs/cache.c:221-294 | crash atomicity: after any prefix of the commit's device writes, replay gives the file system before the group or after it, never a mix, and the header write is the switch |
| Wal.ReplayIdempotent | src/fs/cache.c:281-293 | a crash after any prefix of a replay's writes and another replay give what one replay gives |
| Wal.RebootsRecover | src/fs/cache.c:281-293 | any number of interrupted replays followed by a complete one give what one replay gives |
| Wal.StepAtomic | src/fs/cache.c:221-294 | one commit, or one crash followed by any number of interrupted replays, applies the group as a whole or not at all |
| Wal.RunAtomic | src/fs/cache.c:221-294 | over any history of commits, crashes and interrupted replays the file system is a plain map to which whole groups have been applied |
| Wal.LogAreaExact | src/fs/cache.c:237-237 | until the header is written nothing outside an area of n log blocks changes, after any number of writes, if and only if the group has fewer than n blocks |
| Wal.CommitStraysExactly | src/fs/cache.c:234-254 | after the whole commit only blocks of the group differ outside that area if and only if every block that the log strayed into is one of them |
| Wal.MkfsLogTooSmall | src/user/mkfs/main.c:114-116 | with the 63 blocks that mkfs reserves, any full group of 63 overwrites the first inode block before anything is committed, and the empty log cannot repair it; unless the group holds that block it stays overwritten |
| LogProtocol.StepInv | src/fs/cache.c:182-263 | every step of beginning, synchronising, ending and committing keeps the reservation invariant and distinct header entries |
| LogProtocol.LogNeverOverflows | src/fs/cache.c:182-263 | in every reachable state entries plus what running operations may still log is at most 63, no operation runs during a commit, and the only reachable panic is an operation over its own budget of 10 |
| LogProtocol.FullGroupReachable | src/fs/cache.c:186-186 | a header with all 63 entries is reachable, so the bound is tight |
| LogProtocol.BudgetSuffices | src/fs/cache.c:205-216 | over every schedule: a synchronisation that keeps the operation within ten distinct blocks since it began does not panic |
| LogProtocol.NeverPanicsExactly | src/fs/cache.c:205-216 | an operation that synchronises only blocks of a given set never panics, whatever the other threads do, if and only if the set has at most ten blocks |
| BlockCache.Cache.constructor | src/fs/cache.c:266-294 | opening the cache replays the log: the disk becomes the recovered disk, by exactly the writes of a replay, and nothing is cached or logged |
| BlockCache.Cache.Evict | src/fs/cache.c:139-154 | exactly the idle blocks furthest back in the list go, until the cache is below its threshold or only busy blocks are left; all others stay, in order |
| BlockCache.Cache.Acquire | src/fs/cache.c:110-170 | the holder gets the current contents of the block, hit or miss, whatever was evicted, and no reader sees a change; the block is in front, the others that stay keep their order, only the idle blocks used longest ago go, and the cache holds at most the larger of its threshold and the busy blocks plus one |
| BlockCache.CutDropsOldest | src/fs/cache.c:139-154 | where the scan stops decides what goes: every block that went was idle and stood behind every idle block that stayed, and none goes from a cache below its threshold |
| BlockCache.Cache.Modify | src/fs/cache.h:118-128 | the holder changes what readers will see of that block, and only of that block |
| BlockCache.Cache.Release | src/fs/cache.c:173-179 | giving back a block, changed or not, leaves what readers see in force, after any eviction, if and only if the block is logged or the disk holds the same bytes |
| BlockCache.Cache.SyncDirect | src/fs/cache.c:200-203 | a synchronisation outside operations is one device write of that block |
| BlockCache.Cache.BeginOp | src/fs/cache.c:182-195 | an operation starts exactly when its budget fits beside what is logged and reserved |
| BlockCache.Cache.Sync | src/fs/cache.c:198-218 | the block is pinned and in the header; panics exactly when a block not yet logged exceeds the operation's own budget |
| BlockCache.Cache.WriteLog | src/fs/cache.c:234-245 | every logged block is written to its slot, in order, and nothing readers see changes |
| BlockCache.Cache.Install | src/fs/cache.c:249-254 | every logged block goes home, in order, and is unpinned |
| BlockCache.Cache.EndOp | src/fs/cache.c:221-263 | an operation that is not the last writes nothing; the last one issues exactly the writes of a commit of what readers see, and everything readers see is then durable; after any prefix of the writes, replay gives the data that was on the disk or the data that readers saw |
| BlockCache.AllCrashesSafe | src/fs/cache.c:221-294 | the same for the commit of any group: every crash point recovers to the data before or to the data readers saw |
| BlockCache.ReleaseExact | src/fs/cache.c:173-179 | coherence of cache and disk survives a release if and only if the block is logged or equal to the disk |
| BlockCache.AccountedBegin | src/fs/cache.c:186-193 | starting an operation keeps logged plus reserved within the log |
| BlockCache.AccountedSync | src/fs/cache.c:212-216 | logging one block moves one unit from reserved to logged |
| BlockCache.AccountedEnd | src/fs/cache.c:227-227 | ending an operation gives its reservation back |
| Sessions.Serve | src/fs/cache.c:110-294 | opening a disk and any session of reads, operations, commits, panics, crashes after any device write and reboots: every read answers what a plain store of two maps answers, what is seen and what is durable are its maps, and the device goes through a history of Wal.RunAtomic; throughout, the list of cached blocks is the order of last use and has at most 65 blocks |
| Sessions.Perform | src/fs/cache.c:110-294 | one call on the cache is one step of the plain store: admission, budget and panic, commit by the last ender, and which crashes keep the changes |
| Sessions.OperationsAtomic | src/fs/cache.c:182-294 | what is durable after any session is what was seen at a moment of it when no operation was running |
| Sessions.OperationSeen | src/fs/cache.c:182-218 | an operation on at most ten blocks that finds room runs through without a panic, readers then see exactly its changes, and nothing has become durable |
| Sessions.ProgramRuns | src/fs/file.c:127-158 | operations one after the other take the store from the first contents to the last |
| Sessions.ProgramCrash | src/fs/file.c:127-158 | wherever the machine stops in between, also inside a commit, it comes back to the contents after a whole number of operations |
| Sessions.ChunksChain | src/fs/file.c:127-158 | the operations of file_write, with the views and the blocks that Files.FileWrite states, are such a chain |
| RbShape.HeightBound | src/common/rbtree.c:48-259 | a red-black tree of n nodes has height at most 2 log2(n + 1) |
| RbShape.HeightLogarithmic | src/common/rbtree.c:48-259 | the same, as the bound that the contracts of the pointer tree use |
| RbShape.InorderPlug | src/common/rbtree.c:40-47 | a subtree replaced inside a tree leaves the order of all other nodes alone |
| RbShape.PlugExactly | src/common/rbtree.c:48-118 | a tree is red-black with a black root if and only if the subtree is red-black and its surroundings accept its height and its colour |
| RbRotate.RotateInorder | src/common/rbtree.c:81-87 | a rotation on either side keeps the order of the nodes |
| RbRotate.RotateAt | src/common/rbtree.c:81-87 | the pointers and colours after a rotation are those of the rotated tree, node by node |
| RbMemory.RotatedFits | src/common/rbtree.c:81-87 | the writes of a rotation take a memory that holds a tree to one that holds the rotated tree, anywhere in a larger tree |
| RbMemory.HalfLiftedSuffices | src/common/rbtree.c:72-86 | the pointers that the inner-child case leaves stale are overwritten by the rotation that follows, so together they are two proper rotations |
| RbMemory.UnclePlan | src/common/rbtree.c:62-69 | a red uncle: recolouring moves the only possible violation two levels up |
| RbMemory.OuterPlan | src/common/rbtree.c:81-87 | an outer grandchild: one rotation gives a red-black tree with the same contents |
| RbMemory.InnerPlan | src/common/rbtree.c:71-87 | an inner grandchild: two rotations give a red-black tree with the same contents |
| RbMemory.LeafSorted | src/common/rbtree.c:260-285 | hanging a node where the search ended keeps the search order |
| RbTree.RbRoot.InsertFix | src/common/rbtree.c:48-118 | from a red node that may hang below red, the loop reaches a red-black tree with the same contents; it climbs two levels a round |
| RbTree.RbRoot.Insert | src/common/rbtree.c:260-285 | -1 with the tree unchanged exactly when an equal key is present, otherwise exactly this node is added; order, colours, heights and all links stay right |
| RbTree.RbRoot.Lookup | src/common/rbtree.c:293-306 | a node with an equal key, or NULL exactly when there is none, after at most 2 log2(n + 1) rounds of the loop |
| RbTree.RbRoot.First | src/common/rbtree.c:307-316 | the node with the least key, or NULL exactly when the tree is empty |
| RbErase.SpliceFits | src/common/rbtree.c:124-137 | replacing a node by its only child gives the links of the smaller tree |
| RbErase.SinglePlan | src/common/rbtree.c:124-137 | a node with at most one child: afterwards the tree is red-black, or lacks one black node exactly where the fix-up starts |
| RbErase.SuccessorPlan | src/common/rbtree.c:138-168 | a node with two children: the successor takes its place and colour, and the tree is red-black or lacks one black node where the fix-up starts |
| RbErase.SiblingRedPlan | src/common/rbtree.c:177-183 | a red sibling is rotated up inside the round; the deficit stays where it is and the new sibling is black |
| RbErase.BlackNephewsPlan | src/common/rbtree.c:185-198 | black nephews: the deficit is repaid by a red parent or moves up one level |
| RbErase.FarRedPlan | src/common/rbtree.c:209-215 | a red far nephew: one rotation repays the deficit |
| RbErase.NearRedPlan | src/common/rbtree.c:199-215 | a red near nephew: two rotations repay the deficit |
| RbTree.RbRoot.EraseFix | src/common/rbtree.c:171-259 | from a subtree that lacks one black node, the loop reaches a red-black tree with the same contents; it ends because it climbs towards the root |
| RbTree.RbRoot.Unlink | src/common/rbtree.c:119-170 | the node leaves the links and the order; what may be wrong afterwards is one missing black node |
| RbTree.RbRoot.Erase | src/common/rbtree.c:286-292 | exactly this node is removed; search order, a black root, no red below red, equal black heights and all links stay right |
| RbTree.RbRoot.Replay | src/common/rbtree.c:260-292 | after any legal history of insertions and erasures the tree holds what a plain set holds, and its height is at most 2 log2(n + 1) |
| Bits.AddSets | src/fs/cache.c:307-307 | adding the mask sets exactly that bit when it was clear |
| Bits.SubClearsIff | src/fs/cache.c:333-333 | subtracting the mask clears exactly that bit if and only if it was set |
| BlockAlloc.Volume.FindFree | src/fs/cache.c:300-320 | the nested loops find the lowest free block, or report that there is none |
| BlockAlloc.Volume.Alloc | src/fs/cache.c:297-323 | the lowest free block is taken and zeroed, and no other block changes state or contents; it fails exactly when all are in use |
| BlockAlloc.Volume.Free | src/fs/cache.c:326-337 | an allocated block becomes free and nothing else changes |
| BlockAlloc.FreeIff | src/fs/cache.c:333-333 | freeing does what it should if and only if the block is allocated |
| Inodes.AddrOfWith | src/fs/inode.c:359-366 | writing one of the 128 little-endian numbers of an indirect block changes that one only |
| Inodes.Inode.Find | src/fs/inode.c:332-370 | without a context the block number of a file block, or 0, and nothing is changed |
| Inodes.Inode.Map | src/fs/inode.c:332-370 | inside an operation the file block is mapped, to a zeroed block if it was not, the lowest that was free; no other block of the file moves, other files keep theirs; it fails only with no free block left, and never for a block that is mapped |
| Inodes.Inode.Read | src/fs/inode.c:373-404 | exactly the slice of the flat file that was asked for, as far as the file goes, across direct, indirect and unaligned boundaries |
| Inodes.Inode.Write | src/fs/inode.c:407-439 | the flat file becomes the old one with the bytes laid over it at the offset, extended if need be; every block of every other file is kept; a chunk of at most 1536 bytes synchronises at most 10 distinct blocks |
| Inodes.SpentBudget | src/fs/inode.c:407-439 | a write synchronises at most a data and a bitmap block for each block it touches, two blocks for the indirect block and the inode block; the block of an unaligned offset costs no bitmap block |
| Inodes.ChunkFits | src/fs/file.c:135-135 | 4 data, 4 bitmap, 1 inode and 1 indirect block: a chunk of 1536 bytes at any offset fits the budget of 10 |
| Inodes.FirstMapped | src/fs/inode.c:419-430 | the block of an unaligned offset is mapped already, so it costs no bitmap block |
| Inodes.Inode.Clear | src/fs/inode.c:227-248 | exactly the blocks of the file are free again, each freed once, and the file is empty; exactly the bitmap blocks over them and the inode block are synchronised |
| Files.FileChanged | src/fs/inode.c:227-439 | a change that keeps what is foreign to its inode keeps the ownership invariant of the whole file system and the contents of every other file |
| Files.InodeAlloc | src/fs/inode.c:86-104 | the first free inode from 1 on becomes an empty file; it fails exactly when there is none |
| Files.InodePut | src/fs/inode.c:277-293 | the last reference to an unlinked file frees its inode and exactly its blocks; any other put changes nothing on disk; what is synchronised is exactly the bitmap blocks over the file and the inode block |
| Files.PutNeverPanics | src/fs/inode.c:277-293 | freeing a file in one operation cannot panic if and only if those are at most ten blocks |
| Files.SpreadFilePanics | src/fs/inode.c:277-293 | a file with one block under each of ten bitmap blocks is one whose freeing panics |
| Files.SmallVolumePut | src/fs/inode.c:277-293 | on a volume of at most nine bitmap blocks that holds of every file |
| Files.FileRead | src/fs/file.c:101-117 | the bytes from the offset on, and the offset moves by as many |
| Files.FileWrite | src/fs/file.c:127-158 | however many operations it takes, the file ends as one whole write would leave it, the offset moves by n, and no other file changes; each operation changes only blocks that it synchronises, at most ten, so that cache_sync panics in none of them on any schedule |
| Directories.CompareNames | src/fs/inode.c:450-450 | comparing as many bytes as the longer name has decides equality of names |
| Directories.MatchesIsEqual | src/fs/inode.c:450-450 | the comparison that both loops make with an entry, whatever follows the name in memory, is equality with the name in the entry |
| Directories.EntryReads | src/fs/inode.c:481-482 | an entry made from a number and a name shorter than 14 reads as that number and that name |
| Directories.InsertMap | src/fs/inode.c:481-484 | writing an entry for a new name in a free slot adds exactly that binding |
| Directories.RemoveMap | src/fs/inode.c:493-495 | clearing a live entry removes exactly its binding |
| Directories.InodeLookup | src/fs/inode.c:442-458 | the binding of the name, with its offset, or 0 exactly when the name is not bound |
| Directories.InodeInsert | src/fs/inode.c:461-486 | -1 exactly when the name is bound; otherwise one more binding, in the first free slot, and no other file touched; it fails only when the directory has to grow and no block is free; it synchronises at most five blocks, so an operation that does nothing else never panics |
| Directories.InodeRemove | src/fs/inode.c:489-496 | only the binding at the offset is removed, and this always succeeds; it synchronises at most one block |
| Paths.SkipElem | src/fs/inode.c:528-549 | the next piece of the path between slashes, cut at 14 characters, and the rest without leading slashes; nothing exactly when no piece is left |
| Paths.ElemsOf | src/fs/inode.c:523-526 | pieces set off by any number of slashes split back into those pieces |
| Paths.InodeTree.Namex | src/fs/inode.c:570-612 | over the directory files of the volume: the inode that the pieces of the path lead to, or the directory before the last piece; exactly one extra reference, on the result |
| Paths.EveryPathStays | src/fs/inode.c:570-612 | where every name leads to an inode that is linked or held, no path makes namex put back the last reference to an unlinked inode; free inodes do not matter |
| Rings.MergeRings | src/common/list.c:9-34 | merging two rings splices the second in behind the first node of the first |
| Rings.CutRing | src/common/list.c:36-47 | detaching closes the ring behind the node and leaves the node a ring of its own |
| Rings.Inserting | src/common/list.h:20-21 | inserting at the head puts a node in front of the list, inserting at the node before the head puts it at the back |
| Rings.Removing | src/common/list.c:36-47 | detaching removes the node from its list, wherever it stands |
| Rings.Joining | src/kernel/proc.c:192-194 | merging the children's ring behind the root's head and detaching the old head joins the two lists |
| Rings.Nodes.MergeList | src/common/list.c:9-34 | the four assignments give the merged ring; NULL on either side returns the other and changes nothing; every other ring survives |
| Rings.Nodes.Detach | src/common/list.c:36-47 | the node is alone, the rest is a ring, and the answer is its predecessor, or NULL when it was alone; every other ring survives |
| LinkedQueues.Queue.PushFront | src/common/list.h:20-21 | _insert_into_list at the head: the queue has the node in front, whatever its links were before |
| LinkedQueues.Queue.PushBack | src/kernel/sched.c:116-116 | _insert_into_list at the node before the head: the queue has it at the end |
| LinkedQueues.Queue.Remove | src/common/list.c:36-47 | the queue without that node, which is alone afterwards |
| LinkedQueues.Queue.TakeLast | src/common/sem.c:91-93 | the node before the head leaves the queue, and the rest stays in order |
| LinkedQueues.Queue.Absorb | src/kernel/proc.c:192-194 | the children of one queue come in front of those of the other, in order, and the first queue is empty and sound |
| Scheduler.ActivateKeeps | src/kernel/sched.c:98-101 | waking a process keeps the scheduler invariant |
| Scheduler.SwitchKeeps | src/kernel/sched.c:154-172 | both assertions of sched hold and the invariant is kept, for every CPU and every state a process may ask for |
| Scheduler.SwitchEffect | src/kernel/sched.c:106-166 | the caller gets its new state, at most one other process changes, and that one goes from RUNNABLE to RUNNING |
| Scheduler.Cpus.constructor | src/kernel/sched.c:23-42 | each CPU starts on its own idle process with an empty queue |
| Scheduler.Cpus.Activate | src/kernel/sched.c:86-104 | on the linked queue: the process becomes RUNNABLE at the head of the queue exactly when it sleeps or is unused, except a deep sleeper on an alert |
| Scheduler.Cpus.Pick | src/kernel/sched.c:121-138 | following the links: the first RUNNABLE process of the queue, or the idle process |
| Scheduler.Cpus.Sched | src/kernel/sched.c:154-172 | on the linked queue: a killed process that does not exit goes on as it was; otherwise round robin: the other queued processes keep their order, the caller is behind all of them if it stays RUNNABLE, and the RUNNABLE process at the lowest position runs, or the idle one exactly when there is none; each CPU runs a different RUNNING process, and the queue holds every RUNNABLE or RUNNING process that is not idle exactly once, before and after |
| Scheduler.SwitchRobin | src/kernel/sched.c:106-172 | the same law, of every switch that is not refused |
| Scheduler.SwitchNearer | src/kernel/sched.c:106-172 | a switch on a CPU that is not panicking runs a given RUNNABLE process or lowers the number of RUNNABLE processes in front of it, by exactly one |
| Scheduler.ActivationPushes | src/kernel/sched.c:98-101 | an activation raises that number by exactly one for everybody else |
| Scheduler.TurnExact | src/kernel/sched.c:86-172 | over any run of switches, wake-ups and kills on the four CPUs in which a RUNNABLE process is not run: its turn is as many places nearer as there were switches, less one for each activation |
| Scheduler.WaitBounded | src/kernel/sched.c:86-172 | so it waits for at most as many switches as RUNNABLE processes were in front of it and activations came in |
| Scheduler.Starves | src/kernel/sched.c:100-100 | and with activations at the head it can wait for ever: two processes that wake each other keep a third from running, over any number of switches |
| Semaphores.PostKeeps | src/common/sem.c:87-96 | a post to a semaphore with sleepers finds one, so its assertion holds, and keeps the invariant |
| Semaphores.WaitKeeps | src/common/sem.c:64-71 | queueing with the semaphore locked keeps the invariant |
| Semaphores.SleepKeeps | src/common/sem.c:74-74 | going to sleep after the semaphore lock is gone and before the scheduler lock is keeps the invariant; a killed process does not sleep |
| Semaphores.WakeKeeps | src/common/sem.c:94-94 | the activation that follows a post keeps the invariant |
| Semaphores.RecheckKeeps | src/common/sem.c:75-81 | a process woken by something else leaves the list, its assertion holds, and the count is restored |
| Semaphores.NextKeeps | src/common/sem.c:24-96 | every step of every CPU keeps: list length is max(0, -val), val is initial + posts - grants - sleepers, lists and locks match what processes are doing; no assertion of sem.c or sched.c fails |
| Semaphores.RunKeeps | src/common/sem.c:24-96 | the same over any schedule of the four CPUs |
| Semaphores.NoLostWakeup | src/common/sem.c:72-94 | once the poster has released the semaphore, nobody it granted is asleep |
| Semaphores.OldestFirst | src/common/sem.c:87-96 | a post to a semaphore with sleepers succeeds and grants the process whose ticket is the lowest of all sleepers; the others stay in order |
| Semaphores.LaterTicket | src/common/sem.c:64-71 | a wait that queues draws a higher ticket than every sleeper of that semaphore |
| Semaphores.NoOvertaking | src/common/sem.c:62-96 | first come, first served under every schedule: as long as a sleeper waits, nobody who came later to that semaphore is granted |
| Semaphores.NoUnitIdle | src/common/sem.c:24-96 | grants never exceed the initial units plus the posts, and they are equal while somebody sleeps: no unit is made, lost or left unused |
| Semaphores.HolderServed | src/common/sem.c:24-96 | in units: a get takes one if one is left, get-all takes all that are left, a post gives one to a sleeper if there is one, a wait takes one or queues in front; none of them blocks or panics |
| Semaphores.LocksFreed | src/common/sem.c:62-96 | no deadlock: from every reachable state the processes inside locks can go on until every semaphore lock and the scheduler lock are free |
| Semaphores.EverybodyMoves | src/common/sem.c:62-96 | and then every process on a CPU can take its next step |
| Semaphores.UnalertableFails | src/kernel/sched.c:158-161 | after any schedule from boot: an unalertable wait that had to queue fails if and only if the process was killed when it called sched, which refused to let it sleep, and no post picked it before it looked again |
| Semaphores.UnalertablePanics | src/common/sem.h:29-30 | a schedule of five steps after which the unalertable wait of a killed process fails its assertion |
| Semaphores.DeepKeeps | src/common/sem.c:62-85 | every step keeps: who waits unalertably sleeps on, has been granted, or was refused its sleep by sched |
| Semaphores.BootInv | src/common/sem.c:7-12 | the invariants hold when every semaphore is fresh |
| Semaphores.Semaphore.StartWait | src/common/sem.c:62-71 | on the linked list: a unit is taken, or the process is in front of the sleepers |
| Semaphores.Semaphore.StopWait | src/common/sem.c:75-81 | on the linked list: a process that was not granted leaves it, and the assertion on the value holds |
| Semaphores.Semaphore.PostSem | src/common/sem.c:87-96 | on the linked list: one more unit, or the oldest sleeper is taken off and woken |
| Semaphores.Semaphore.GetAllSem | src/common/sem.c:39-49 | takes everything available and nothing when there are sleepers |
| Semaphores.Semaphore.PostAllSem | src/common/sem.c:51-60 | wakes exactly the sleepers, oldest first, returns how many, and leaves max(val, 0) |
| ProcTree.WaitFinds | src/kernel/proc.c:138-163 | after a token has been taken, the scan under both locks finds a zombie child |
| ProcTree.NextKeeps | src/kernel/proc.c:24-208 | every step of creation, wait and exit keeps the tree, the token account, the locks and the PIDs, and no wait is lost |
| ProcTree.RunKeeps | src/kernel/proc.c:24-208 | the same over any interleaving of any processes |
| ProcTree.QuiescentTokens | src/kernel/proc.c:135-203 | whenever both locks are free, a live process has one token, taken or not, per zombie child |
| ProcTree.Finish | src/kernel/proc.c:168-208 | whoever is in exit can finish by its own steps: it becomes a zombie and gives back what it holds |
| ProcTree.LocksFreed | src/kernel/proc.c:85-208 | no deadlock: from every reachable state the holders of the process lock and the scheduler lock can go on until both are free |
| ProcTree.EverybodyMoves | src/kernel/proc.c:85-208 | and then everybody can go on: create, exit, place and start a child, reap; a wait takes a token if and only if a child has told its parent |
| ProcTree.HandOverKeeps | src/kernel/proc.c:177-200 | handing the children to the root keeps the account: the tokens owed to the root are exactly the zombies handed over |
| ProcTree.PostParentKeeps | src/kernel/proc.c:202-205 | the parent that is told is alive and in the tree; the token is posted before the process is a zombie, and the account still holds |
| ProcTree.ReapKeeps | src/kernel/proc.c:151-163 | reaping removes one zombie, its token and its place, and frees its PID |
| ProcTree.CreateKeeps | src/kernel/proc.c:24-36 | a new process gets a PID that is not in use; used and free PIDs stay a partition of 1 to max_pid |
| ProcTree.PidsReused | src/kernel/proc.c:24-43 | over any run from boot max_pid is the largest number of processes that existed at once: a new PID is made only when none is free |
| ProcTree.Rooted | src/kernel/proc.c:89-113 | following parent pointers from any placed process leads to the root |
| ProcTree.BootInv | src/kernel/proc.c:47-58 | the invariants hold with the root process alone |
| ProcTree.ScanZombie | src/kernel/proc.c:140-150 | the zombie at the lowest position of the list, or none exactly when there is none |
| ProcTree.ReparentAll | src/kernel/proc.c:181-191 | every child of the list gets the root as parent, and the count is the number of zombies |
| ProcTree.FindExact | src/kernel/proc.c:210-225 | the search from the root finds the process with that PID exactly when there is one that has been started |
| Heap.MergeKeeps | src/kernel/mem.c:56-62 | swallowing a free neighbour on the same page keeps the tiling and every live block |
| Heap.SplitKeeps | src/kernel/mem.c:93-101 | cutting a block behind its used part keeps the tiling and every live block |
| Heap.Merge | src/kernel/mem.c:56-69 | exactly the free blocks that follow on the page, up to the first that is live or on another page, are swallowed, by harmless header writes only |
| Heap.Walk | src/kernel/mem.c:87-127 | the walk ends where the list as it was first has room for the request, and finds nothing exactly when it has none: in a free block with the free ones behind it, or in the unused part of a live block; whatever it split and merged on the way, the live blocks are as they were |
| Heap.KernelHeap.Kalloc | src/kernel/mem.c:71-142 | if the list has room, the first room is used and no page is taken; otherwise exactly one page of the pool, and it fails exactly when there is none; one more live block, aligned to 8 or 4 by its size; no header write touches the payload of any live block of any CPU |
| Heap.SuitableHasRoom | src/kernel/mem.c:112-124 | a free block that suits the request as it stands is such room, whatever merging does to it on the way |
| Heap.KernelHeap.Kfree | src/kernel/mem.c:144-152 | the block is live no more, no other changes state, and no header write touches a live payload; there is room for whatever the block could hold, and for everything that had room before |
| Heap.PayloadsApart | src/kernel/mem.c:71-152 | any two live blocks of any CPUs have disjoint payloads and headers, inside one page each |
| Heap.PagesFull | src/kernel/mem.c:56-142 | headers and sizes of the blocks of every page sum to 4096 |
| Heap.InOrder | src/kernel/mem.c:56-142 | within a page, list order is address order |
| PageTable.SameSlot | src/aarch64/mmu.h:68-71 | two addresses walk to the same slot if and only if bits 12 to 47 agree |
| PageTable.GrowKeeps | src/kernel/pt.c:26-33 | a new table keeps the tree of tables, and no address translates differently |
| PageTable.Frames.GetPte | src/kernel/pt.c:11-54 | the slot of the address; missing tables are made only with alloc, no translation changes, and no page outside this page directory is written; with alloc it fails only when the pool has run dry |
| PageTable.StoreTranslate | src/kernel/pt.c:108-109 | writing the slot changes the translation of exactly the addresses on that page |
| PageTable.FreesTables | src/kernel/pt.c:66-89 | the pages freed are the table pages, each exactly once, and no mapped page |
| PageTable.FreePtPages | src/kernel/pt.c:66-79 | the recursion frees those pages, in that order, clears the entries whose tables it freed, and writes no other table |
| PageTable.FreePgdir | src/kernel/pt.c:81-89 | every table page is back in the pool, the directory is empty, and every other table is as it was |
| UserMemory.CopyPage | src/kernel/proc.c:282-293 | one page more is copied to a page of its own; the parent and what is copied already are undisturbed; it fails only when the pool has run dry |
| UserMemory.ForkPages | src/kernel/proc.c:269-300 | the child maps exactly the pages that the parent maps, with equal contents, on pages used by neither before, none of them twice; the parent is unchanged; it fails only when the pool has run dry |
| UserMemory.EnsurePage | src/kernel/pt.c:131-144 | the page of the address is mapped, to a page of the pool as user data if it was not, and nothing else moves; it fails only when the pool has run dry |
| UserMemory.CopyOut | src/kernel/pt.c:121-157 | the byte range shows the bytes afterwards and mapped memory elsewhere is unchanged, save where two of the addresses share a physical byte; pages newly mapped are user data under the range; -1 with nothing done when the range leaves user space, and otherwise only when the pool has run dry |
| UserMemory.WrittenAlone | src/kernel/pt.c:121-157 | where no physical page is mapped twice, exactly the byte range changes |
| ShellGrammar.LineRead | src/user/sh/main.c:355-452 | for every command tree with at most nine arguments each, parsing its printed tokens gives the tree back, before anything that may follow a line |
| ShellGrammar.LineLegal | src/user/sh/main.c:355-452 | every tree that the parser makes has at most nine arguments per command |
| ShellGrammar.Canonical | src/user/sh/main.c:355-452 | printing what was parsed and parsing again changes nothing |
| ShellDerivations.RedirsExact | src/user/sh/main.c:383-405 | the same of the redirections of a token sequence |
| ShellDerivations.LineExact | src/user/sh/main.c:355-452 | the parser is the grammar: it turns tokens into a command before a rest if and only if a derivation tree of the grammar, defined without the parser, has those tokens and means that command; redirections in order, descriptor 0 for < and 1 for > and >>, arguments the words that no redirection takes |
| ShellDerivations.Unambiguous | src/user/sh/main.c:355-452 | a line has at most one meaning: derivation trees of the same line mean the same command |
| Shell.Parser.GetToken | src/user/sh/main.c:279-321 | the next token of the line and the cursor behind it |
| Shell.Parser.Peek | src/user/sh/main.c:323-332 | whether the rest begins with one of the symbols; no token is consumed |
| Shell.Parser.ParseRedirs | src/user/sh/main.c:383-405 | a tree if and only if the front of the rest of the line is redirections, each an operator and a word, followed by none; it is the command with those around it in order, as descriptor 0 for < and 1 for > and >>; it panics where an operator has no word |
| Shell.Parser.ParseExec | src/user/sh/main.c:422-452 | the same for simple commands and their arguments |
| Shell.Parser.ParseBlock | src/user/sh/main.c:407-420 | the same for parentheses |
| Shell.Parser.ParsePipe | src/user/sh/main.c:371-381 | the same for pipes |
| Shell.Parser.ParseLine | src/user/sh/main.c:355-369 | the same for lists and background commands; the recursion ends because tokens are used up |
| Shell.Parser.ParseCmd | src/user/sh/main.c:339-350 | a tree if and only if the tokens of the whole line derive it |
| ShellText.LexExact | src/user/sh/main.c:279-332 | the lexer reads a line as a sequence of tokens if and only if the line is those tokens spelled out in order, with white space between them wherever two would run together |
| ShellText.RoundTrip | src/user/sh/main.c:339-452 | the line that a legal command prints to, parsed, gives a tree whose places in the line say exactly that command |
| ShellText.NulTerminate | src/user/sh/main.c:455-498 | NULs are written exactly at the ends of the tree's words |
| ShellText.PointersRead | src/user/sh/main.c:455-498 | whatever the line, after parsing and termination every argument and file pointer reads exactly its token |
| Virtqueue.SubmitTable | src/driver/virtio_blk.c:82-106 | taking three descriptors off the free list and linking them keeps free list and chains a partition of all descriptors, and every chain in flight as it must be |
| Virtqueue.ReleaseTable | src/driver/virtio_blk.c:42-58 | giving a chain back keeps the partition, also when the list was empty and the tail keeps a stale link |
| Virtqueue.RingPop | src/driver/virtio_blk.c:137-149 | the used ring is read in order, and the loop test is right, across the wrap of the 16-bit index |
| Virtqueue.Disk.constructor | src/driver/virtio_blk.c:17-25 | all eight descriptors are free, in order |
| Virtqueue.Disk.AllocDesc | src/driver/virtio_blk.c:27-40 | the head of the free list, or a panic exactly when it is empty |
| Virtqueue.Disk.Submit | src/driver/virtio_blk.c:80-111 | the request is queued if three descriptors are free, which is when at most one request is in flight, and it panics if and only if two are; its chain is the header with type and sector, which the device reads, the buffer, which the device writes if and only if the request reads the disk, and the status, which the device writes, with their lengths; every chain in flight keeps this form |
| Virtqueue.ThirdPanics | src/driver/virtio_blk.c:80-111 | from a fresh disk two requests are queued and the third panics |
| Virtqueue.Disk.Interrupt | src/driver/virtio_blk.c:137-150 | every returned request is posted once, to its own buffer, in the order of return, and no other |
| Virtqueue.Disk.FreeDesc | src/driver/virtio_blk.c:42-58 | the three descriptors are free again, in front |

## Left out

- Wal.RunAtomic: a device write is atomic for its 512 bytes; torn writes are not modelled. The 64 blocks that the code uses as header and log are reserved; `Wal.LogAreaExact` is about layouts where they are not.
- Sessions.Serve: calls are served one at a time; a block is acquired, changed, synchronised and released in one call, and blocks synchronised outside operations are not part of a session.
- Sessions.ChunksChain: the bytes of inode blocks are given, because the inode area is a map from inode numbers to entries in the file layer.
- BlockCache.Cache.Acquire: atomic per block number and without contention on one block, because the code drops its lock between miss and insertion and clears `acquired` while a waiter takes over.
- BlockCache.Cache.EndOp: the commit is one call; that no operation starts or logs while it runs is `LogProtocol.LogNeverOverflows`. The last ender holds no block and leaves none changed without synchronising it.
- BlockCache.Cache.BeginOp: says when an operation starts, not that it eventually does; a wake-up can be missed because the log lock is released before the wait.
- RbTree.RbRoot.Insert: the colour is a field of its own instead of a bit of the parent pointer, and the two mirrored halves of each loop are one, by side.
- Inodes.Inode.Read: not for device files, which call the console; the sum of offset and count does not wrap.
- Inodes.Inode.Write: not for device files; the inode area is a map from inode numbers to entries, so the byte layout of an inode is not modelled, only which block it lies in.
- Files.InodePut: the list of in-memory inodes and its lock; the inode itself, its count and its blocks are modelled.
- Directories.InodeInsert: names shorter than 14 bytes, which is what the comparison needs; a full directory of the maximum size is an assertion of `inode_write`, and is not asked to grow.
- Paths.InodeTree.Namex: path elements shorter than 14 characters. The inodes that this path comes to are linked or held by somebody, so that putting one back on the way frees nothing.
- Semaphores.NextKeeps: spinlocks are exclusive and nothing more; memory ordering and fairness are not modelled. Interrupt handlers act for the process they interrupt, outside locks.
- Scheduler.Cpus.Sched: the switch of contexts is the end of the step; timers and page-table registers are not modelled.
- ProcTree.NextKeeps: `childexit` is its number of tokens, which `Semaphores` justifies; open files, kernel stacks and page directories of a process are not part of the tree.
- Heap.KernelHeap.Kalloc: sizes up to 4080, as the code needs; with no fitting block and no page left the code has no answer, and the model stops there.
- Heap.KernelHeap.Kfree: the block is live; freeing anything else is not defined by the code.
- PageTable.Frames.GetPte: entries are zero or valid.
- UserMemory.ForkPages: after a failure it does not say what the child maps.
- UserMemory.CopyOut: copies bytes; the variant that writes zeros is the same with zeros. After a failure it does not say which bytes have been written.
- Virtqueue.Disk.Interrupt: the device returns each request it was given once, with a good status; a bad status is a panic.
- Page reference counts, `kalloc_page` and `kfree_page` beyond a pool of pages, and the lock-free free list under contention.
- Sharing of pages through `vmmap`, lazy allocation and sections, memory-mapped files.
- Pipes, the console, system-call arguments, ELF loading, and the other user programs: buffers and calls into the layers above.
- Registers, traps, timers, interrupt controllers and boot code.
- Running shell commands; only parsing is modelled. The shell's arena of 10000 bytes (src/user/sh/main.c:59-69) is not: when a command tree does not fit, the shell exits.
