# VantaraOS verification project

A Dafny model of the parts of the VantaraOS kernel where a mistake would be hard to see, with proofs about every
run of them. `dafny verify dfyconfig.toml` checks the whole project.

What is modelled, and the main results:

- **Two file systems, one meaning.** `FsSpec` says what create, mkdir, unlink, rmdir, rename, read and write mean
  for a volume, a map from paths to contents. `FsTree` ties a tree of inodes to such a volume. `RamFs` (the RAM
  store under /tmp) and `VantFs` (VANTFS on 512-byte disk blocks, with `VantRecord`, `VantDisk` and `VantMount`)
  are classes whose methods refine it, so that `FsBisim` can show that any run of corresponding operations has the
  same outcomes in both and leaves trees that are equal up to a bijection of inodes. `VantCrash` stops every
  operation after any number of its block writes and says what a later write then finds. `Normalize` and `Mounts`
  cover the way from a path text to a backend.
- **Threads.** `SchedModel` has the thread-level steps of the process table as functions on a value; `SchedInv`,
  `SchedSteps` and `SchedRuns` prove what every step and every run keeps; `SchedAnswers` says exactly when each call
  succeeds; `SchedFair` bounds how long a ready thread waits; `SchedSignals` follows a signal handler from interruption
  to return; `SchedWaits` says how a blocked thread leaves its wait; `SchedContexts` follows the registers of a thread
  from where it gives up the processor to where it goes on; `SchedStacks`, `SchedStackRuns` and `SchedSlots` tie stack
  slots to the threads that hold them; `SchedLimits` shows where the protocol stops and exactly when.
  `ProcessTable` is the table changed in place, method by method equal to the steps.
- **Private address spaces.** `PageTables` has physical memory as a map from frames to 512-entry tables and the
  processor's walk, `PageTrails` the entries on the way; `FrameAlloc`, `PrivateSpaces` and `SpaceSetup` build the pool
  of private spaces in it, and say how many spaces the frames allow.
- **Pipes, messages, events, descriptors.** `Rings`, `Descriptors`, `FileCalls`, `DescriptorUse`, `Events`,
  `EventStrays` and `EventCalls`.
- **Allocation and layout.** `LinkedListHeap`, `BlockHeap`, and the first stack of a program in `Arguments` and
  `InitialStack`.

How the code is represented:

- Strings and paths are byte sequences. Integers are unbounded; where a width matters it is written out (64-bit inode
  numbers, 32-bit TIDs that saturate, little-endian fields of a record, 64-bit addresses of an allocation).
- A `Vec` searched by key is a dictionary (`procs`, `threads`) when only the key matters, and a sequence (`nodes`,
  `queue`, thread lists, tables with slots) when the order does. Ghost fields of a class (`tree`, `paths`, `volume`,
  `trace`, `live`) exist for the proofs only.
- The disk is an array of blocks written atomically; a crash keeps a prefix of the block writes of one operation.
- A physical frame is named by its number. The general heap below the block allocator, the boot memory map and the
  kernel's page tables enter through their contracts.
- The pool of address spaces is a parameter of a run, shared by the process table and the address-space code.

Properties that turn out not to hold of the code are stated with the exact condition under which they do, and with a
concrete case:

- `FsBisim.TargetsAgree`: `FsBisim.DoubleSlashDiverges`.
- `FsBisim.WriteErrorsAgree`: `FsBisim.DirectoryWriteDiverges`.
- `VantCrash.TailAfterCrash`, `VantCrash.StaleGapIff`: `VantCrash.StaleByte`.
- `SchedLimits.JoinCycleIff`, `SchedLimits.RunAcyclicIff`: `SchedLimits.ThreeWayDeadlock`.
- `SchedLimits.SleepingIff`, `SchedLimits.WaitingIff`: `SchedLimits.SleepLosesSiblings`.
- `SchedWaits.JoinReturnsIff`, `Events.NoneLeftIff`, `Events.NoLostWakeup`: `EventStrays.StolenRun`.
- `LinkedListHeap.LossIff`: `LinkedListHeap.LossExample`.
- `InitialStack.CStringIff`: `InitialStack.NulCutsArgument`.

`InitialStack.PointerAligned` has no such case among the stacks the kernel hands out: `InitialStack.StackTopsAligned`.

## Model

| member | source | states |
|---|---|---|
| FsSpec.RenameMovesOneSubtree | kernel/src/fs/persistent.rs:214-251 | after a successful rename nothing is left at or below the old path, each path below the new one holds exactly what the old one held, and every path outside both is as before |
| FsSpec.NothingLeftBehind | kernel/src/fs/ramfs.rs:347-379 | no path at or below the old place survives the move |
| FsSpec.MoveValid | kernel/src/fs/ramfs.rs:347-379 | moving a subtree to a free place outside itself keeps the volume a tree within its limits |
| FsSpec.MoveSize | kernel/src/fs/ramfs.rs:347-379 | a move neither loses nor duplicates a node |
| FsSpec.Move | kernel/src/fs/persistent.rs:214-251 | each path of the result comes from exactly one path before, with its content, and each old path has its place in the result |
| FsSpec.Create | kernel/src/fs/persistent.rs:255-283 | create and mkdir keep the volume valid and change nothing when they fail |
| FsSpec.Remove | kernel/src/fs/persistent.rs:285-316 | unlink and rmdir keep the volume valid and change nothing when they fail |
| FsSpec.Rename | kernel/src/fs/persistent.rs:214-251 | rename keeps the volume valid and changes nothing when it fails |
| FsSpec.RenameUnfolds | kernel/src/fs/persistent.rs:214-251 | a rename with a good target fails exactly when the new parent lies at or below the old path |
| FsSpec.CreateIff | kernel/src/fs/persistent.rs:255-283 | create and mkdir succeed exactly below a directory, at a free name, while there is room; one empty node of the kind is added and every other path stays; which error comes when |
| FsSpec.RemoveIff | kernel/src/fs/persistent.rs:285-316 | unlink and rmdir succeed exactly on a node of their kind with nothing below it; that path goes and every other stays; which error comes when |
| FsSpec.RenameIff | kernel/src/fs/persistent.rs:214-251 | rename succeeds exactly from a node to a free name below a directory that does not lie at or below the node |
| FsSpec.Overlay | kernel/src/fs/persistent.rs:174-196 | a write on one flat sequence: zero-extended to the end of the write, overwritten there, unchanged elsewhere |
| FsSpec.ReadAt | kernel/src/fs/persistent.rs:157-172 | a read returns the bytes from the offset on, as many as lie before the end of file, at most the buffer |
| FsSpec.ReadAfterWrite | kernel/src/fs/persistent.rs:157-196 | reading where one has just written returns what was written, and reads below it are unchanged |
| FsSpec.CreateThenRemove | kernel/src/fs/persistent.rs:255-316 | removing what create or mkdir made succeeds and gives back the volume exactly |
| FsSpec.RenameBack | kernel/src/fs/persistent.rs:214-251 | after a successful rename the opposite rename succeeds and gives back the volume exactly, whole subtrees included |
| FsTree.TreeInvariant | kernel/src/fs/ramfs.rs:243-392 | siblings have different names, every parent is the root or a live directory, and every chain of parents reaches the root |
| FsTree.TreeGivesVolume | kernel/src/fs/persistent.rs:509-565 | every well-formed tree within the limits stands for a valid volume of its size |
| FsTree.ChainReachesRoot | kernel/src/fs/persistent.rs:550-565 | the number of parent steps to the root is the length of the path, which is what ends the ancestor walk |
| FsTree.NoAdoption | kernel/src/fs/persistent.rs:255-283 | a free inode number, reused or not, is nobody's parent, so a node that gets it adopts no children |
| FsTree.WalkStep | kernel/src/fs/persistent.rs:536-548 | one more lookup on the walk along a path either goes on or shows that the path leads nowhere |
| FsTree.ClimbStep | kernel/src/fs/persistent.rs:550-565 | one step of the climb to the root decides the ancestor question one component up |
| FsTree.MoveNode | kernel/src/fs/ramfs.rs:368-378 | giving one node a new parent outside its subtree and a new name moves exactly its subtree |
| FsTree.AddNode | kernel/src/fs/ramfs.rs:301-305 | adding a node at a free path adds that path to the volume and nothing else |
| FsTree.RemoveNode | kernel/src/fs/ramfs.rs:341-344 | removing a node that is nobody's parent keeps the tree well formed |
| FsTree.CreateNode | kernel/src/fs/persistent.rs:255-283 | the node added where the target says is what create and mkdir promise of the volume |
| FsTree.DeleteNode | kernel/src/fs/persistent.rs:285-316 | taking out a childless node of the expected kind is what unlink and rmdir promise |
| FsTree.DeleteRefused | kernel/src/fs/persistent.rs:285-316 | a node of the other kind or a directory with children is refused with the error of the code |
| FsTree.RelinkNode | kernel/src/fs/persistent.rs:214-251 | re-parenting and renaming a node is what rename promises, and is refused exactly when the new parent lies below it |
| FsTree.RewriteNode | kernel/src/fs/persistent.rs:174-196 | new bytes for one file change that path of the volume only |
| FsTree.Resolved | kernel/src/fs/persistent.rs:536-548 | an inode found for a path tells whether the path exists, is the root, is a directory, and what it holds |
| PathText.SplitSlashed | kernel/src/fs/persistent.rs:536-548 | splitting the text of plain components gives the components back |
| PathText.SplitAtLastSlash | kernel/src/fs/persistent.rs:509-523 | cutting at the last slash separates the last component from the rest |
| PathText.SlashedInjective | kernel/src/fs.rs:339-376 | different component lists have different texts |
| RamFs.CanonicalStorePath | kernel/src/fs/ramfs.rs:262-275 | a canonical path under the store's mount parses to its components, and splits into parent and name or is too long |
| RamFs.WritableStore.constructor | kernel/src/fs/ramfs.rs:249-254 | an empty store stands for an empty volume |
| RamFs.WritableStore.Child | kernel/src/fs/ramfs.rs:256-260 | the child of a directory by name, or none |
| RamFs.WritableStore.FindInode | kernel/src/fs/ramfs.rs:277-283 | the node of an inode number, or none |
| RamFs.WritableStore.ResolvePath | kernel/src/fs/ramfs.rs:262-275 | the walk down the components finds the inode of the path, or none when there is none |
| RamFs.WritableStore.Walk | kernel/src/fs/ramfs.rs:262-275 | the component loop itself: an empty component leads nowhere, other paths resolve as the tree says |
| RamFs.WritableStore.IsDescendant | kernel/src/fs/ramfs.rs:381-392 | the climb ends and answers whether the ancestor's path is a prefix of the candidate's |
| RamFs.WritableStore.FindTarget | kernel/src/fs/ramfs.rs:285-297 | parent and name of a free place, or the error the specification gives |
| RamFs.WritableStore.Create | kernel/src/fs/ramfs.rs:285-306 | create and mkdir refine the specification; the inode is new; a failed call changes nothing; inode numbers can run out |
| RamFs.WritableStore.Write | kernel/src/fs/ramfs.rs:308-322 | a write refines the flat overwrite, with the store's own order of errors |
| RamFs.WritableStore.Read | kernel/src/fs/ramfs.rs:132-148 | a read returns the flat slice or the error; the code stops exactly for a file read past its data array |
| RamFs.WritableStore.AnyChildOf | kernel/src/fs/ramfs.rs:341-343 | whether some node has this parent |
| RamFs.WritableStore.Remove | kernel/src/fs/ramfs.rs:324-345 | unlink and rmdir refine the specification and return the inode the path had |
| RamFs.WritableStore.Rename | kernel/src/fs/ramfs.rs:347-379 | rename refines the specification and keeps every inode with its moved path |
| VantRecord.NewEntry | kernel/src/fs/persistent.rs:331-343 | a fresh entry holds its name in the fixed field |
| VantRecord.RecordRoundTrip | kernel/src/fs/persistent.rs:374-434 | a record decodes to the entry it was written from exactly when every field fits its place |
| VantRecord.EncodedFields | kernel/src/fs/persistent.rs:414-434 | where each field lies in the 64 bytes, little-endian, and what of it fits |
| VantRecord.CorruptIff | kernel/src/fs/persistent.rs:374-412 | a record is empty exactly when its first byte is 0, and corrupt exactly when it is in use with a name length or type out of range |
| VantRecord.LegacyRecord | kernel/src/fs/persistent.rs:374-412 | a record with type 0 and parent 0 decodes to a file in the root |
| VantDisk.DataBlocksApart | kernel/src/fs/persistent.rs:505-507 | data blocks are different for different slots or positions and never the header or a directory block |
| VantDisk.RecordWriteEffect | kernel/src/fs/persistent.rs:414-446 | writing one record changes that record and no other record and no data |
| VantDisk.DataWritesEffect | kernel/src/fs/persistent.rs:454-503 | writes to the data of one slot leave every record and all other data alone |
| VantDisk.ClearEffect | kernel/src/fs/persistent.rs:496-503 | clearing zeroes both data blocks of the slot |
| VantDisk.ChunkEffect | kernel/src/fs/persistent.rs:454-476 | one round of the write loop overwrites exactly its chunk of the flat 1024 bytes |
| VantDisk.DataWritesContents | kernel/src/fs/persistent.rs:454-494 | the block-crossing write loop is one overwrite of the flat 1024 bytes |
| VantMount.FreeSlotIff | kernel/src/fs/persistent.rs:273-276 | a free slot exists exactly while the volume holds fewer nodes than the limit |
| VantMount.EntryPut | kernel/src/fs/persistent.rs:414-434 | writing the record of one entry puts that node, and nothing else, into the mounted tree |
| VantMount.EntryErased | kernel/src/fs/persistent.rs:436-446 | zeroing a record takes its node, and nothing else, out of the mounted tree |
| VantMount.DataTouchedMounts | kernel/src/fs/persistent.rs:496-503 | data writes to a free slot leave the mounted tree as it was |
| VantMount.CreateState | kernel/src/fs/persistent.rs:255-283 | the block writes of create and mkdir lead from a mounted volume to the specified one, and keep zero tails where there were |
| VantMount.RemoveState | kernel/src/fs/persistent.rs:285-316 | the block writes of unlink and rmdir do the same |
| VantMount.RenameState | kernel/src/fs/persistent.rs:214-251 | the one block write of rename does the same |
| VantMount.WriteState | kernel/src/fs/persistent.rs:174-196 | the block writes of a file write put the source over the slot's bytes, whatever lies past the end of file; that is the flat overwrite exactly when the gap is clear |
| VantMount.StoredIff | kernel/src/fs/persistent.rs:174-196 | bytes patched and cut at the new length are the flat overwrite exactly when the gap between old end and offset holds zeros only |
| VantFs.CanonicalVolumePath | kernel/src/fs/persistent.rs:509-548 | a canonical volume path parses to its components, and splits into parent and name or is too long |
| VantFs.ReadEntries | kernel/src/fs/persistent.rs:374-412 | the scan of the directory blocks decodes every record, and fails exactly when some record does not decode |
| VantFs.PersistentFilesystem.constructor | kernel/src/fs/persistent.rs:359-372 | a formatted disk mounts as an empty volume |
| VantFs.PersistentFilesystem.Mount | kernel/src/fs/persistent.rs:68-82 | any disk whose directory decodes to a well-formed tree mounts as the volume of that tree, whatever lies past the ends of its files |
| VantFs.PersistentFilesystem.WriteEntry | kernel/src/fs/persistent.rs:414-434 | the read, patch and write of the directory block is one write of the encoded record |
| VantFs.PersistentFilesystem.WriteEmptyEntry | kernel/src/fs/persistent.rs:436-446 | the same with a zero record |
| VantFs.PersistentFilesystem.ClearData | kernel/src/fs/persistent.rs:496-503 | two block writes, recorded in order |
| VantFs.PersistentFilesystem.ReadData | kernel/src/fs/persistent.rs:448-494 | the block-crossing read loop returns the slice of the flat 1024 bytes |
| VantFs.PersistentFilesystem.WriteData | kernel/src/fs/persistent.rs:454-476 | the block-crossing write loop makes exactly the specified block writes, in order |
| VantFs.PersistentFilesystem.ResolvePath | kernel/src/fs/persistent.rs:536-548 | the walk over the entries finds the inode of the path, or none |
| VantFs.PersistentFilesystem.IsDescendant | kernel/src/fs/persistent.rs:550-565 | the climb ends and answers the ancestor question |
| VantFs.PersistentFilesystem.FindTarget | kernel/src/fs/persistent.rs:257-272 | parent and name of a free place, or the error the specification gives |
| VantFs.PersistentFilesystem.FreeSlot | kernel/src/fs/persistent.rs:273-276 | the first free slot, none exactly when the volume is full |
| VantFs.PersistentFilesystem.Create | kernel/src/fs/persistent.rs:255-283 | create and mkdir refine the specification on any mounted volume and leave the specified trace of block writes |
| VantFs.PersistentFilesystem.Remove | kernel/src/fs/persistent.rs:285-316 | unlink and rmdir refine the specification on any mounted volume |
| VantFs.PersistentFilesystem.Rename | kernel/src/fs/persistent.rs:214-251 | rename refines the specification with one block write |
| VantFs.PersistentFilesystem.Write | kernel/src/fs/persistent.rs:174-196 | the exact bytes a write leaves on any mounted volume, with VANTFS's order of errors; it refines the flat overwrite exactly when no stale byte lies in the gap, so always with zero tails |
| VantFs.PersistentFilesystem.Read | kernel/src/fs/persistent.rs:157-172 | a read returns the flat slice at any offset |
| FsBisim.PathsAgree | kernel/src/fs/persistent.rs:536-548 | the two backends parse corresponding paths alike exactly when the path is not the bare root |
| FsBisim.TargetsAgree | kernel/src/fs/persistent.rs:509-523 | they parse corresponding targets alike exactly for targets that are not a lone name behind two slashes |
| FsBisim.DoubleSlashDiverges | kernel/src/fs/ramfs.rs:447-461 | the concrete case: creating //x succeeds in VANTFS and is not found in the RAM store |
| FsBisim.WriteErrorsAgree | kernel/src/fs/persistent.rs:174-184 | writes are refused alike exactly when the size is fine or the target is a file |
| FsBisim.DirectoryWriteDiverges | kernel/src/fs/ramfs.rs:308-315 | the concrete case: an oversized write to a directory names the directory in one backend and the size in the other |
| FsBisim.StepStore | kernel/src/fs/ramfs.rs:154-188 | every operation on the RAM store has the outcome and the volume of the specification with the store's own reading of paths |
| FsBisim.StepVolume | kernel/src/fs/persistent.rs:198-251 | every operation on VANTFS with zero tails has the outcome and the volume of the specification with VANTFS's own reading of paths |
| FsBisim.RunsAgree | kernel/src/fs/persistent.rs:509-548 | a run of operations whose paths both backends read alike is the same run for both |
| FsBisim.RunStore | kernel/src/fs/ramfs.rs:285-379 | a whole run on the RAM store refines the run of the specification |
| FsBisim.RunVolume | kernel/src/fs/persistent.rs:214-316 | a whole run on VANTFS refines the run of the specification |
| FsBisim.SideBySide | kernel/src/fs/persistent.rs:214-316 | from empty volumes every run of corresponding operations has the same outcomes in both backends, the same volume, and trees that match inode by inode both ways |
| FsBisim.SameVolumeSameTree | kernel/src/fs/ramfs.rs:285-379 | two trees that stand for the same volume are equal up to a bijection of inodes |
| VantCrash.CrashInCreate | kernel/src/fs/persistent.rs:255-283 | after any proper prefix of the block writes of create the disk mounts as the old tree with all contents, after all as the new one |
| VantCrash.CrashInRemove | kernel/src/fs/persistent.rs:285-316 | before the first block write of a removal the old tree mounts, from then on the new one |
| VantCrash.CrashInRename | kernel/src/fs/persistent.rs:214-251 | rename has nothing in between: old tree or new tree |
| VantCrash.CrashInWrite | kernel/src/fs/persistent.rs:174-196 | inside a write the old directory mounts, every other file is as before, and this file holds its old bytes with exactly what the completed block writes carried over them |
| VantCrash.PartialDataWrites | kernel/src/fs/persistent.rs:454-476 | after k block writes the slot holds exactly the bytes those writes carried |
| VantCrash.CreateStartsFromZero | kernel/src/fs/persistent.rs:255-283 | whatever a crash left in a slot, a file created there starts from zeroed data blocks |
| VantCrash.TailAfterCrash | kernel/src/fs/persistent.rs:174-196 | after a crash behind any number of data writes the zero tail is left exactly when the bytes they carried past the old end of file are all zero |
| VantCrash.StaleGapIff | kernel/src/fs/persistent.rs:174-196 | after such a crash a later write is the flat overwrite exactly when the bytes carried past the old end and before its offset are zero; otherwise the gap reads back the lost bytes |
| VantCrash.StaleByte | kernel/src/fs/persistent.rs:174-196 | the concrete case: a byte lost in a crash turns up in the gap of the next write |
| Normalize.NormalizeFrom | kernel/src/fs.rs:315-326 | the in-place buffer holds the text of the component stack, or the same error is returned |
| Normalize.NormalizedPath.PushComponent | kernel/src/fs.rs:344-364 | pushing refuses NUL and overlong results and otherwise appends one component |
| Normalize.NormalizedPath.PopComponent | kernel/src/fs.rs:366-376 | popping drops the last component and stays at the root |
| Normalize.NormalizedPath.PushPathComponents | kernel/src/fs.rs:328-337 | the loop over the split text does what feeding its components one by one does, with the same error; DotStays, DotDotUp, NameDown and SameThenRest say what each component means |
| Normalize.NormalizedIsCanonical | kernel/src/fs.rs:311-376 | a normalized path has no empty, dot or NUL component and at most 128 bytes |
| Normalize.NormalizeIdempotent | kernel/src/fs.rs:311-326 | normalizing a normalized path changes nothing |
| Normalize.RelativeIsJoined | kernel/src/fs.rs:315-326 | a relative path normalizes like the text of working directory, slash and path, errors included |
| Normalize.DotDotUp | kernel/src/fs.rs:328-337 | a text followed by /.. is the path without its last component; the root stays the root |
| Normalize.DotStays | kernel/src/fs.rs:328-337 | an empty component or a dot behind any text changes nothing, errors included |
| Normalize.NameDown | kernel/src/fs.rs:328-364 | any other component behind a text is appended while the result has at most 128 bytes, is too long otherwise, and is refused if it holds a NUL |
| Normalize.DownAndUp | kernel/src/fs.rs:328-376 | a kept component that fits and then .. lead back, whatever text came before |
| Normalize.SameThenRest | kernel/src/fs.rs:328-337 | texts of the same path, or of the same error, stay so whatever follows behind a slash |
| Normalize.OneStep | kernel/src/fs.rs:315-337 | from a working directory in normal form: .. leads up, a dot or nothing stays, a kept component that fits leads down |
| Mounts.Resolve | kernel/src/fs.rs:145-156 | the chosen mount serves the path and no longer one does; not found exactly when none serves it |
| Mounts.MatchesByComponent | kernel/src/fs.rs:378-394 | a mount matches exactly when its components are a prefix of the path's, and stripping leaves the rest |
| Mounts.ResolveIsRoute | kernel/src/fs.rs:145-156 | on the kernel's mount table resolution is routing by first components, and the backend path is canonical again |
| StackPool.SlotIndexIff | kernel/src/user/address_space.rs:334-350 | a stack top names a slot exactly when it is that slot's top |
| StackPool.MainStackCycle | kernel/src/user/ring3.rs:145-148 | the main stacks of successive PIDs go down slot by slot and start over after eight |
| StackPool.StacksApart | kernel/src/user/address_space.rs:334-338 | two slots lie at least a guard page apart and above the program area |
| StackPool.PrivateP4Pool.Push | kernel/src/user/address_space.rs:175-182 | any slot is added unless the pool is full, and the pool stays in order exactly when the slot fits in |
| StackPool.PrivateP4Pool.TakeFrame | kernel/src/user/address_space.rs:184-190 | the first unused space is handed out and marked |
| StackPool.TakeIff | kernel/src/user/address_space.rs:184-190 | a space is handed out exactly while one is unused, the first of them, and only its mark changes |
| StackPool.PrivateP4Pool.ReleaseFrame | kernel/src/user/address_space.rs:205-215 | the space and all its stacks become free |
| StackPool.ReleaseFrees | kernel/src/user/address_space.rs:205-215 | a space given back has all its stacks free, can be handed out again, and the others stay |
| StackPool.PrivateP4Pool.ReserveStackSlot | kernel/src/user/address_space.rs:217-226 | the main slot is marked and the first free slot reserved, marked main slot included when none is free |
| StackPool.PrivateP4Pool.ReleaseStackSlot | kernel/src/user/address_space.rs:228-240 | the slot's bit is cleared in the live space |
| SchedRuns.NoThreadIsLost | kernel/src/user/process.rs:891-1117 | in every state of every run a user thread is ready exactly when queued, once; ready and blocked threads have a context, running ones none; a live process shows the summary of its threads |
| SchedRuns.StepKeepsInv | kernel/src/user/process.rs:891-1117 | every allowed thread-level step keeps the invariant |
| SchedRuns.RunKeepsInv | kernel/src/user/process.rs:891-1117 | so every state of every run has it |
| SchedRuns.BootInv | kernel/src/user/process.rs:2182-2196 | the table starts with it |
| SchedRuns.CreatedStarts | kernel/src/user/process.rs:891-927 | a created thread has an unused TID, stands once at the end of the queue, resumes at its entry with its stack pointer and argument, overlaps no sibling's stack, and no other thread changes |
| SchedRuns.ManagedStarts | kernel/src/user/process.rs:929-961 | a managed thread likewise, with its stack pointer eight below the top of its slot, a multiple of sixteen |
| SchedRuns.JoinProtocol | kernel/src/user/process.rs:1007-1076 | in every run a thread waits only for a live sibling other than itself that does not wait for it |
| SchedRuns.ExitWakesJoiners | kernel/src/user/process.rs:963-1005 | on exit each joiner becomes ready and queued with return value 0, and the thread is reaped |
| SchedRuns.ExitWithoutJoiners | kernel/src/user/process.rs:963-1005 | without joiners the thread stays exited |
| SchedAnswers.SummaryLiveliest | kernel/src/user/process.rs:457-492 | the state a process shows is that of some thread, and no thread is livelier (running, ready, blocked, stopped, in that order) |
| SchedAnswers.GiveUpIff | kernel/src/user/process.rs:1598-1616 | a yield or a block takes effect exactly for a running thread and changes nothing otherwise |
| SchedAnswers.WakeIff | kernel/src/user/process.rs:1097-1117 | a wake takes effect exactly for a blocked thread and changes nothing otherwise |
| SchedAnswers.ExitIff | kernel/src/user/process.rs:963-1005 | a thread can leave on its own exactly when it is not the main thread; otherwise nothing changes |
| SchedAnswers.ActivateMainIff | kernel/src/user/process.rs:1394-1421 | a handler starts on a process exactly when its main thread is ready or blocked and has no handler active |
| SchedAnswers.NoLongerSleeps | kernel/src/user/process.rs:1394-1421 | a yield ends the sleep of its process, and a handler on the main thread ends sleep and waits, its own and the process's |
| SchedAnswers.ActivateRunningIff | kernel/src/user/process.rs:1443-1492 | a handler starts on a running thread exactly when none is active on it, and is left exactly when one is |
| SchedAnswers.DispatchIff | kernel/src/user/process.rs:1836-1879 | scheduling finds a thread exactly when a user thread is queued, and it is the first of those |
| SchedAnswers.JoinAnswers | kernel/src/user/process.rs:1007-1076 | which of the seven answers a join gets: reaped, exited, waiting for the caller or none of these, for a sibling, and when there is none; only a completed and a blocking join change the table |
| SchedAnswers.CreateIff | kernel/src/user/process.rs:891-927 | a thread is created exactly for a user process with fewer than sixteen threads on a range that touches none of their stacks; otherwise threads, processes and queue stay |
| SchedAnswers.ManagedIff | kernel/src/user/process.rs:929-961 | a thread with a kernel-assigned stack is created exactly when a slot other than the main one is free and the process has fewer than sixteen threads |
| SchedAnswers.ReserveIff | kernel/src/user/address_space.rs:217-226 | a slot is reserved exactly when one other than the main slot is free, and it is the first of those |
| SchedAnswers.ExecStarts | kernel/src/user/process.rs:2358-2440 | a program starts as a new process with one running thread under its parent, with a private space exactly while one is unused; nobody else changes |
| SchedAnswers.ProcessEnds | kernel/src/user/process.rs:1148-1161 | an ended process keeps its status, is a zombie exactly when it has a parent and exited otherwise, and takes all its threads with it out of the queue; nobody else changes |
| SchedRuns.PreemptNeverIdles | kernel/src/user/process.rs:1890-1900 | preemption changes nothing unless it returns a thread to run |
| SchedRuns.QueuedDispatches | kernel/src/user/process.rs:1836-1879 | while a user thread is queued, scheduling dispatches some thread |
| SchedSteps.ScheduleKeeps | kernel/src/user/process.rs:1836-1879 | dispatching keeps the invariant, dropping what cannot run |
| SchedSteps.YieldKeeps | kernel/src/user/process.rs:1598-1616 | yielding keeps the invariant |
| SchedSteps.BlockKeeps | kernel/src/user/process.rs:1078-1095 | blocking keeps the invariant |
| SchedSteps.WakeKeeps | kernel/src/user/process.rs:1097-1117 | waking keeps the invariant |
| SchedSteps.JoinKeeps | kernel/src/user/process.rs:1007-1076 | joining keeps the invariant in all seven outcomes |
| SchedSteps.ExitFacts | kernel/src/user/process.rs:963-1005 | what an exit does to each thread: itself, its joiners, everyone else, and the queue |
| SchedSteps.ExitThreadKeeps | kernel/src/user/process.rs:963-1005 | a thread's exit keeps the invariant |
| SchedSteps.ExitProcessKeeps | kernel/src/user/process.rs:1148-1161 | a process's exit keeps the invariant |
| SchedSteps.CreateThreadKeeps | kernel/src/user/process.rs:891-927 | creating a thread keeps the invariant |
| SchedSteps.CreateManagedKeeps | kernel/src/user/process.rs:929-961 | creating a managed thread keeps the invariant, failures included |
| SchedSteps.ActivateMainKeeps | kernel/src/user/process.rs:1394-1421 | starting a handler on the main thread keeps the invariant |
| SchedSteps.ActivateRunningKeeps | kernel/src/user/process.rs:1443-1471 | starting a handler on the running thread keeps the invariant |
| SchedSteps.RestoreKeeps | kernel/src/user/process.rs:1473-1492 | sigreturn keeps the invariant |
| SchedSteps.ExecKeeps | kernel/src/user/process.rs:2358-2440 | starting a program keeps the invariant |
| SchedFair.BoundedBypass | kernel/src/user/process.rs:1836-1900 | a ready thread at queue index k is dispatched by one of the next k + 1 scheduler calls unless it or its process ends |
| SchedFair.ScheduleAdvances | kernel/src/user/process.rs:1836-1879 | one scheduler call dispatches the thread or brings it forward |
| SchedFair.StepAdvances | kernel/src/user/process.rs:1890-1900 | no step moves a queued thread back |
| SchedSignals.SignalRoundTrip | kernel/src/user/process.rs:1394-1492 | from the interruption through any steps to the dispatch after sigreturn the thread resumes exactly where it was interrupted |
| SchedSignals.SavedContextKept | kernel/src/user/process.rs:1443-1471 | no step but sigreturn touches the saved context |
| SchedSignals.OneHandlerAtATime | kernel/src/user/process.rs:1394-1492 | in every run, from when a handler starts on a thread until its sigreturn, no other handler starts on it and the interrupted context stays saved |
| SchedContexts.DispatchIsOf | kernel/src/user/process.rs:1866-1872 | a dispatch names a queued ready thread, its process and the context saved for it; that thread runs from then on and no other changes |
| SchedContexts.AsideResumes | kernel/src/user/process.rs:1598-1616 | in every run a thread that yields or is preempted is next dispatched, in its own process, with exactly the registers it gave up with, unless a handler diverts it or it ends |
| SchedContexts.PreemptedAtOnce | kernel/src/user/process.rs:1890-1900 | a preemption that comes back to the same thread puts it back with the registers it was preempted with |
| SchedContexts.WaitResumes | kernel/src/user/process.rs:1078-1117 | in every run the next dispatch after a block or a blocking join comes after a wake, with the value of the wake in rax, or after the exit of the joined thread, with 0 in rax; every other register is as given up |
| SchedContexts.WakeResumes | kernel/src/user/process.rs:1097-1117 | a thread woken with a value is next dispatched with the registers it blocked with and that value in rax |
| SchedContexts.JoinedResumes | kernel/src/user/process.rs:963-1076 | a thread whose join target has exited is next dispatched with the registers it joined with and 0 in rax |
| SchedContexts.HandlerIsNext | kernel/src/user/process.rs:1394-1471 | in every run the first dispatch after a handler activation has the handler in rip, the signal in rdi, 0 in rax and all fifteen other registers as interrupted |
| SchedSlots.StackFate | kernel/src/user/process.rs:2117-2127 | a thread keeps its stack, or is reaped and gives up one it managed; it never gets to manage one |
| SchedSlots.ReleasedOnce | kernel/src/user/process.rs:2117-2127 | a bit that a step of a run clears belonged to one thread, which that step reaps and which manages no stack in any later state |
| SchedSlots.RunKeepsHolders | kernel/src/user/process.rs:963-1061 | in every run a thread that holds a managed stack has not been reaped |
| SchedSlots.MainMarkedIff | kernel/src/user/address_space.rs:217-240 | a step sets the bit of the main stack exactly when it asks for a managed thread, and none clears it |
| SchedSlots.MainMarkedThroughRun | kernel/src/user/address_space.rs:217-226 | in every run the bit of the main stack is set exactly from the first request for a managed thread on |
| SchedSlots.SlotTakenIffHeld | kernel/src/user/process.rs:929-1005 | in every run the main slot is taken exactly since the first request for a managed thread and is held by none, any other slot exactly while one thread that has not been reaped holds it, and no two live processes share a space |
| SchedStackRuns.ManagedStacksApart | kernel/src/user/address_space.rs:334-350 | in every run kernel-assigned stacks of one process are a guard page apart from each other and from the main stack |
| SchedStackRuns.StepKeepsStacks | kernel/src/user/process.rs:929-1005 | every allowed step keeps the ownership of stack slots |
| SchedStackRuns.RunKeepsStacks | kernel/src/user/process.rs:929-1005 | so every state of every run has it |
| SchedStackRuns.CreateManagedStacks | kernel/src/user/process.rs:929-961 | a managed thread gets a slot nobody holds, and a refused one gives it back |
| SchedStackRuns.JoinStacks | kernel/src/user/process.rs:1050-1060 | a completed join returns the slot of the reaped thread |
| SchedStackRuns.ExitThreadStacks | kernel/src/user/process.rs:985-1003 | an exit with joiners returns the slot |
| SchedStackRuns.ExecStacks | kernel/src/user/address_space.rs:184-190 | a new process gets a space no live process has, with no stack taken |
| SchedLimits.JoinCompletesOnce | kernel/src/user/process.rs:1034-1061 | after one join of a thread completes, no later join of it does |
| SchedLimits.ReapedThroughRun | kernel/src/user/process.rs:963-1060 | a reaped thread stays reaped while its process lives |
| SchedLimits.JoinCycleIff | kernel/src/user/process.rs:1038-1076 | a blocking join keeps the waits free of cycles exactly when its target does not already wait, through others, for the caller |
| SchedLimits.StepAcyclicIff | kernel/src/user/process.rs:1007-1076 | a step keeps waits free of cycles exactly when it is not such a join |
| SchedLimits.RunAcyclicIff | kernel/src/user/process.rs:1007-1076 | a run never shows a cycle exactly when none of its joins closes one |
| SchedLimits.ThreeWayDeadlock | kernel/src/user/process.rs:1038-1044 | a run from boot in which three joins, all accepted, leave three threads waiting in a ring |
| SchedLimits.WaitingIff | kernel/src/user/process.rs:1550-1567 | waiting for a child keeps the table consistent exactly when no thread but the main one is ready or running |
| SchedLimits.SleepingIff | kernel/src/user/process.rs:1569-1589 | sleeping keeps the table consistent exactly when no thread of the process is ready and none but the main one runs |
| SchedLimits.SleepLosesSiblings | kernel/src/user/process.rs:2095-2102 | the concrete case: the main thread of three sleeps or waits for a child, and a ready sibling is no longer queued |
| SchedLimits.SuspendedIsLost | kernel/src/user/process.rs:1550-1589 | every ready sibling of a process put to sleep or made to wait is lost |
| SchedLimits.LostStaysLost | kernel/src/user/process.rs:2089-2102 | through any run a ready thread that is not queued stays so and is never dispatched, until it or its process ends |
| SchedWaits.LeavesIff | kernel/src/user/process.rs:963-1117 | a blocked thread stays exactly as it is unless the step wakes it, ends it, its process or the thread it joins, or diverts it as main thread with no handler active |
| SchedWaits.BlocksItself | kernel/src/user/process.rs:1007-1095 | a thread becomes blocked only by a join or a wait of its own |
| SchedWaits.JoinReturnsIff | kernel/src/user/process.rs:963-1117 | in every run, when a thread blocked in a join becomes ready, its target has ended exactly when the step is the target's exit, and then it returns 0; otherwise it was woken from outside or diverted by a handler |
| ProcessTable.Processes.constructor | kernel/src/user/process.rs:2182-2196 | the table as booted, with the invariant |
| ProcessTable.Processes.EnqueueReady | kernel/src/user/process.rs:2089-2093 | appends unless queued |
| ProcessTable.Processes.Retain | kernel/src/user/process.rs:2095-2102 | the loop keeps the others in order |
| ProcessTable.Processes.RefreshState | kernel/src/user/process.rs:457-492 | the loops compute the summary of the threads unless the process has ended |
| ProcessTable.Processes.MarkThreadYielded | kernel/src/user/process.rs:1598-1616 | does what the yield step does: the thread is ready and queued with the given context, which SchedContexts.AsideResumes follows to its next dispatch |
| ProcessTable.Processes.BlockThread | kernel/src/user/process.rs:1078-1095 | does what the block step does |
| ProcessTable.Processes.WakeThread | kernel/src/user/process.rs:1097-1117 | does what the wake step does |
| ProcessTable.Processes.ScheduleNextReadyUser | kernel/src/user/process.rs:1836-1879 | the popping loop does what the schedule step does |
| ProcessTable.Processes.HasReadyThreadExcept | kernel/src/user/process.rs:1933-1942 | the scan answers whether another queued thread is ready |
| ProcessTable.Processes.PreemptRunningThread | kernel/src/user/process.rs:1890-1900 | does what the preempt step does |
| ProcessTable.Processes.ReapThread | kernel/src/user/process.rs:2117-2127 | marks the thread reaped and returns its managed stack once |
| ProcessTable.Processes.JoinThread | kernel/src/user/process.rs:1007-1076 | does what the join step does, with the same status |
| ProcessTable.Processes.WakeJoiners | kernel/src/user/process.rs:974-984 | the loop wakes exactly the joiners, in order |
| ProcessTable.Processes.MarkThreadExited | kernel/src/user/process.rs:963-1005 | does what the exit step does |
| ProcessTable.Processes.MarkExited | kernel/src/user/process.rs:1148-1161 | does what the process-exit step does |
| ProcessTable.Processes.EndThreads | kernel/src/user/process.rs:440-455 | the loop ends every thread of the process and no other |
| ProcessTable.Processes.ActivateSignalHandler | kernel/src/user/process.rs:1394-1421 | does what the main-thread activation step does, which SchedContexts.HandlerIsNext follows to the handler, register by register |
| ProcessTable.Processes.ActivateRunningSignalHandler | kernel/src/user/process.rs:1443-1471 | does what the running-thread activation step does, which SchedContexts.HandlerIsNext follows to the handler, register by register |
| ProcessTable.Processes.RestoreSignalContext | kernel/src/user/process.rs:1473-1492 | does what the sigreturn step does |
| ProcessTable.Processes.InsertThread | kernel/src/user/thread.rs:108-117 | reserves a TID and inserts the thread unless the process is full |
| ProcessTable.Processes.StackFree | kernel/src/user/thread.rs:119-129 | the scan answers whether the range overlaps no stack of the process |
| ProcessTable.Processes.CreateUserThread | kernel/src/user/process.rs:891-927 | does what the create step does |
| ProcessTable.Processes.CreateManagedUserThread | kernel/src/user/process.rs:929-961 | does what the managed create step does, with the pool in place |
| ProcessTable.Processes.RegisterExec | kernel/src/user/process.rs:2358-2440 | does what the exec step does, with the pool in place |
| ProcessTable.Processes.ReleasePreparedSpace | kernel/src/user/address_space.rs:288-294 | returns the space of an ended process |
| FrameAlloc.DistinctIff | kernel/src/memory.rs:44-54 | no frame is listed twice exactly when the usable regions do not overlap |
| FrameAlloc.UsableIff | kernel/src/memory.rs:44-54 | a frame is listed exactly when a usable region holds it |
| FrameAlloc.BootInfoFrameAllocator.AllocateFrame | kernel/src/memory.rs:81-89 | hands out the next listed frame, never one again, and fails exactly when none is left |
| PageTables.MapAtWalk | kernel/src/user/address_space.rs:1062-1096 | after the path is cloned and the entry set, exactly one page is remapped and every other page leads where it led |
| PageTables.MapAtWrites | kernel/src/user/address_space.rs:1062-1153 | only the root and the fresh frames used are written, errors included |
| PageTrails.MapAtOutcome | kernel/src/user/address_space.rs:1062-1153 | mapping a page takes one fresh frame for each entry above it that leads on, and fails where one does not, or before that where the frames run out |
| PageTrails.MapAtTrails | kernel/src/user/address_space.rs:1149-1151 | mapping a page makes the entries above it writable and changes no other flag on the way of any page |
| PageTrails.MappedTrail | kernel/src/user/address_space.rs:1128-1153 | a page is mapped only through entries that are all present and not huge |
| PageTables.WalkSame | kernel/src/user/address_space.rs:1128-1153 | walks that avoid the changed frames go where they went |
| PageTables.CopySame | kernel/src/user/address_space.rs:987-997 | a copy of a table sends every page where the original does |
| PrivateSpaces.PathInjective | kernel/src/user/address_space.rs:1062-1096 | different pages of a 48-bit address space have different index paths |
| PrivateSpaces.SlotPagesOk | kernel/src/user/address_space.rs:1009-1050 | program pages and stack pages of a slot are all different |
| PrivateSpaces.PagesCover | kernel/src/user/address_space.rs:1009-1050 | an address lies in a page of the slot exactly when it is in the program area or in one of the eight stacks |
| PrivateSpaces.BuildingStarts | kernel/src/user/address_space.rs:987-997 | the copied root translates every page as the kernel's |
| PrivateSpaces.BuildingStep | kernel/src/user/address_space.rs:1010-1050 | one more page: mapped to its own fresh frame, the rest as before; on an error only spare frames were written |
| PrivateSpaces.StepOutcome | kernel/src/user/address_space.rs:1015-1049 | one more page is mapped exactly when four frames are left and the kernel's three entries above it lead on; otherwise which error comes |
| SpaceSetup.Paging.CloneChildTable | kernel/src/user/address_space.rs:1128-1153 | the child is copied to a fresh frame and the parent entry redirected, or one of two errors and no change |
| SpaceSetup.Paging.MapPrivateUserPage | kernel/src/user/address_space.rs:1062-1096 | the three clones and the last entry are the specified mapping |
| SpaceSetup.Paging.MapFresh | kernel/src/user/address_space.rs:1015-1029 | a data frame is allocated and the page mapped to it, or the page is the first that cannot be mapped, with the error for that |
| SpaceSetup.Paging.MapProgram | kernel/src/user/address_space.rs:1009-1030 | the loop maps every program page to its own frame |
| SpaceSetup.Paging.MapStack | kernel/src/user/address_space.rs:1034-1049 | the inner loop maps the four pages of one stack |
| SpaceSetup.Paging.MapStacks | kernel/src/user/address_space.rs:1032-1050 | the outer loop maps all eight stacks |
| SpaceSetup.Paging.PreparePrivateP4Slot | kernel/src/user/address_space.rs:999-1060 | a space is prepared exactly when four frames are left for each page and the kernel's three entries above every page lead on, and takes just those frames; it sends its pages to its own frames and all others where the kernel's go; otherwise which error comes; on any outcome only fresh frames were written |
| SpaceSetup.Paging.AddSpace | kernel/src/user/address_space.rs:263-279 | one round of the pool's preparation keeps every earlier space in order, and adds one exactly when its root and its pages can be had |
| SpaceSetup.Paging.InitPrivateP4Pool | kernel/src/user/address_space.rs:248-282 | the filled pool: as many spaces as the frames allow, at most eight, none if an entry of the kernel's does not lead on; every space in order, no frame shared, the kernel's tables untouched |
| SpaceSetup.StopsOnce | kernel/src/user/address_space.rs:999-1060 | a preparation that fails has one page to fail at and one error to fail with |
| SpaceSetup.FailsShort | kernel/src/user/address_space.rs:999-1060 | it fails only when frames are short or an entry above some page does not lead on |
| SpaceSetup.PageRights | kernel/src/user/address_space.rs:1092-1093 | a private page is present, writable, open to user code and not executable; the three entries above it are writable, and open to user code exactly where the kernel's are |
| SpaceSetup.SpaceTrail | kernel/src/user/address_space.rs:1149-1151 | on the way of every page the entries shared with a private page become writable, and nothing else changes |
| SpaceSetup.KernelKept | kernel/src/user/address_space.rs:987-1153 | the kernel's pages lead where they led, whatever was prepared |
| SpaceSetup.SpaceMeaning | kernel/src/user/address_space.rs:999-1060 | program page i leads to program frame i, stack pages to their stack frames, every other page where it leads for the kernel |
| SpaceSetup.SpacesApart | kernel/src/user/address_space.rs:248-282 | no two private pages, of one space or of two, lead to the same frame |
| LinkedListHeap.AlignUp | kernel/src/allocator.rs:123-125 | the least multiple of the alignment at or above the address |
| LinkedListHeap.SizeAlign | kernel/src/allocator/linked_list.rs:92-99 | sizes have room for a list node and are multiples of its alignment; the alignment is a multiple of the one asked for |
| LinkedListHeap.AllocFrom | kernel/src/allocator/linked_list.rs:75-90 | the block lies in the region, aligned, and leaves nothing or enough for a node; FitsIff says exactly when there is one |
| LinkedListHeap.FitsIff | kernel/src/allocator/linked_list.rs:75-90 | a region serves a request exactly when the request, at the first multiple of the alignment in the region, ends within 64 bits and leaves nothing or room for a node; that multiple is then the address |
| LinkedListHeap.SizeAlignLeast | kernel/src/allocator/linked_list.rs:92-99 | the adjusted size is the least multiple of the alignment that holds the request and a node, or a node itself |
| LinkedListHeap.FreeThenAlloc | kernel/src/allocator/linked_list.rs:103-127 | a block freed is the next one handed out for its layout, and the heap is then as before |
| LinkedListHeap.NextBehind | kernel/src/allocator/linked_list.rs:103-121 | what is left behind an allocation serves the next one of the same layout, directly behind it |
| LinkedListHeap.FirstFit | kernel/src/allocator/linked_list.rs:57-73 | the first region that fits, none exactly when none does |
| LinkedListHeap.RunKeepsHeap | kernel/src/allocator/linked_list.rs:42-128 | over every run each byte of the heap is in exactly one free region, live block or alignment gap, and the sizes add up to the heap |
| LinkedListHeap.AllocKeeps | kernel/src/allocator/linked_list.rs:103-121 | an allocation keeps that |
| LinkedListHeap.DeallocKeeps | kernel/src/allocator/linked_list.rs:123-127 | a deallocation keeps that |
| LinkedListHeap.AllocNodes | kernel/src/allocator/linked_list.rs:42-45 | what goes back to the list is aligned and large enough, so the two checks never fail |
| LinkedListHeap.LiveApart | kernel/src/allocator/linked_list.rs:42-128 | live blocks overlap neither each other nor a free region and lie inside the heap |
| LinkedListHeap.AllocFailsIff | kernel/src/allocator/linked_list.rs:103-121 | an allocation fails exactly when no free region fits, and then changes nothing |
| LinkedListHeap.LossIff | kernel/src/allocator/linked_list.rs:75-121 | bytes are lost exactly when the chosen region does not start at a multiple of the alignment |
| LinkedListHeap.LossExample | kernel/src/allocator/linked_list.rs:75-121 | the concrete case: on the kernel's heap a small allocation and then one at a multiple of 64 lose 48 bytes |
| LinkedListHeap.LinkedListAllocator.constructor | kernel/src/allocator/linked_list.rs:36-40 | the whole heap is one free region |
| LinkedListHeap.LinkedListAllocator.AddFreeRegion | kernel/src/allocator/linked_list.rs:42-55 | the region goes to the front; both checks hold |
| LinkedListHeap.LinkedListAllocator.FindRegion | kernel/src/allocator/linked_list.rs:57-73 | the loop unlinks the first region that fits |
| LinkedListHeap.LinkedListAllocator.Allocate | kernel/src/allocator/linked_list.rs:103-121 | does what the specified allocation does; the block is aligned and large enough |
| LinkedListHeap.LinkedListAllocator.Deallocate | kernel/src/allocator/linked_list.rs:123-127 | does what the specified deallocation does |
| BlockHeap.ClassFor | kernel/src/allocator/fixed_size_block.rs:40-43 | the smallest size class that is large enough |
| BlockHeap.RunKeepsBlocks | kernel/src/allocator/fixed_size_block.rs:45-92 | over any general heap with its contract, in every run no byte is owned twice and class blocks lie at multiples of their size |
| BlockHeap.TakeServes | kernel/src/allocator/fixed_size_block.rs:46-65 | every allocation is aligned and large enough, from a list or from the general heap |
| BlockHeap.TakeFailsIff | kernel/src/allocator/fixed_size_block.rs:46-65 | a request fails exactly when the list of its smallest class is empty, or it has no class, and the general heap refuses; then nothing changes |
| BlockHeap.AskedIsServed | kernel/src/allocator/fixed_size_block.rs:46-65 | what is asked of the general heap is exactly the block the request is served with: a class block at a multiple of its size, or the layout itself |
| BlockHeap.LiveChanges | kernel/src/allocator/fixed_size_block.rs:45-92 | an allocation adds one live block with its layout, a deallocation takes just that one away |
| BlockHeap.TakeKeeps | kernel/src/allocator/fixed_size_block.rs:46-65 | an allocation keeps blocks apart |
| BlockHeap.ReturnKeeps | kernel/src/allocator/fixed_size_block.rs:67-92 | a deallocation keeps blocks apart |
| BlockHeap.ReturnThenTake | kernel/src/allocator/fixed_size_block.rs:45-92 | a returned block is the next one handed out for its class, and the lists are then as before |
| BlockHeap.LiveBlocksApart | kernel/src/allocator/fixed_size_block.rs:45-92 | live blocks never overlap |
| BlockHeap.FixedSizeBlockAllocator.Allocate | kernel/src/allocator/fixed_size_block.rs:46-65 | does what the specified allocation does; failures are counted |
| BlockHeap.FixedSizeBlockAllocator.Deallocate | kernel/src/allocator/fixed_size_block.rs:67-92 | does what the specified deallocation does; the byte counter stays the sum of live sizes |
| Rings.Pipe.constructor | kernel/src/user/syscall.rs:137-147 | an empty pipe with one reader and one writer |
| Rings.Pipe.Write | kernel/src/user/syscall.rs:149-164 | the ring does what putting bytes into a pipe means: as much as fits, in order, or why not |
| Rings.Pipe.Read | kernel/src/user/syscall.rs:166-182 | the ring does what taking bytes from a pipe means, and copies them to the front of the destination |
| Rings.Put | kernel/src/user/syscall.rs:149-164 | a pipe takes as much as fits, behind what it has accepted, or says why not; accepted bytes stay delivered bytes followed by buffered ones |
| Rings.Get | kernel/src/user/syscall.rs:166-182 | a pipe delivers as much as is there and wanted, behind what it has delivered; empty it is at its end exactly without writers; accepted bytes stay delivered bytes followed by buffered ones |
| Rings.PutThenGet | kernel/src/user/syscall.rs:149-182 | a read after a write returns what was buffered and then what the write took |
| Rings.RingPush | kernel/src/user/syscall.rs:158-162 | storing behind the last element of a ring appends, across the wrap |
| Rings.RingPop | kernel/src/user/syscall.rs:176-180 | advancing the read index drops the first element, across the wrap |
| Rings.MessageQueue.Send | kernel/src/user/syscall.rs:274-287 | a message is queued whole behind the others, or refused |
| Rings.MessageQueue.Receive | kernel/src/user/syscall.rs:289-304 | the first message is delivered whole; a buffer too small is refused and the message stays |
| Descriptors.NextFd | kernel/src/user/syscall.rs:2184-2224 | the least free descriptor number, none exactly when all sixteen are taken or excluded |
| Descriptors.FreeSlotFreeFd | kernel/src/user/syscall.rs:2184-2202 | while a table entry is free, some number is free for every process |
| Descriptors.TwoSlotsTwoFds | kernel/src/user/syscall.rs:2204-2224 | while two are free, a second number is free besides any first |
| Descriptors.CreatePipeIff | kernel/src/user/syscall.rs:1337-1387 | a pipe can be made exactly when two entries and a pipe slot are free |
| Descriptors.OpenIff | kernel/src/user/syscall.rs:1180-1202 | a file can be opened exactly while an entry is free |
| Descriptors.RunKeepsFds | kernel/src/user/syscall.rs:1280-1424 | in every run of opening, reading, writing, closing and exits descriptor numbers are unique per process, pipes count their open ends and lose no byte, every open end has its pipe, and no file offset passes 1024 |
| Descriptors.CreatePipeKeeps | kernel/src/user/syscall.rs:1337-1387 | making a pipe keeps that, failures included |
| Descriptors.OpenKeeps | kernel/src/user/syscall.rs:1180-1202 | opening a file keeps that |
| Descriptors.ReadKeeps | kernel/src/user/syscall.rs:1280-1325 | reading a file or a pipe keeps that, whatever the file holds at that moment |
| Descriptors.WriteKeeps | kernel/src/user/syscall.rs:1389-1440 | writing a file or a pipe keeps that |
| Descriptors.CloseKeeps | kernel/src/user/syscall.rs:2111-2182 | closing keeps that |
| Descriptors.ClosePipeEnd | kernel/src/user/syscall.rs:2148-2182 | a closed end is counted off, and the pipe is freed exactly when no end is left |
| Descriptors.CloseProcessFacts | kernel/src/user/syscall.rs:2123-2130 | an ending process loses exactly its own descriptors, and pipes of others are untouched |
| Descriptors.NoPipeSurvives | kernel/src/user/syscall.rs:2123-2130 | no pipe of an ended process is left |
| Descriptors.DescriptorTable.ChooseFd | kernel/src/user/syscall.rs:2184-2224 | the loop finds the least free number |
| Descriptors.DescriptorTable.OpenTarget | kernel/src/user/syscall.rs:1180-1202 | does what the open step does |
| Descriptors.DescriptorTable.MakePipe | kernel/src/user/syscall.rs:1337-1387 | does what the pipe step does |
| Descriptors.DescriptorTable.ReadPipe | kernel/src/user/syscall.rs:1280-1325 | does what the read step does to pipe and table |
| Descriptors.DescriptorTable.WritePipe | kernel/src/user/syscall.rs:1389-1440 | does what the write step does to pipe and table |
| Descriptors.DescriptorTable.CloseDescriptor | kernel/src/user/syscall.rs:2148-2182 | does what closing an end does to the pipe table |
| Descriptors.DescriptorTable.CloseOne | kernel/src/user/syscall.rs:2111-2121 | does what the close step does |
| Descriptors.DescriptorTable.CloseProcessFiles | kernel/src/user/syscall.rs:2123-2130 | does what the exit step does; nothing of the process is left |
| FileCalls.ReadFile | kernel/src/user/syscall.rs:1280-1305 | reading a file of the RAM store through a descriptor does what the read step does, and the store's read never stops the kernel |
| FileCalls.WriteFile | kernel/src/user/syscall.rs:1411-1428 | writing through a descriptor moves offset and file together or neither |
| DescriptorUse.OpenedIs | kernel/src/user/syscall.rs:1180-1202 | what is opened is found again under the least number the process did not use; other descriptors stay |
| DescriptorUse.ReadMoves | kernel/src/user/syscall.rs:1302-1305 | a read returns the file from the position on and moves the position behind it; other descriptors stay |
| DescriptorUse.ReadsInARow | kernel/src/user/syscall.rs:1302-1305 | two reads in a row return what one read of both sizes returns |
| DescriptorUse.WriteMoves | kernel/src/user/syscall.rs:1423-1427 | a write moves the position behind what it wrote, and one past the size limit leaves everything |
| DescriptorUse.WritesInARow | kernel/src/user/syscall.rs:1423-1427 | two writes in a row leave what one write of both sources leaves, in the file and in the table |
| DescriptorUse.MadePipe | kernel/src/user/syscall.rs:1337-1387 | a pipe just made has its two ends under two numbers new to the process, and is empty |
| DescriptorUse.WriteToPipe | kernel/src/user/syscall.rs:1389-1440 | a write to the writing end takes what fits and never fails for want of a reader while the reading end is open |
| DescriptorUse.PipeEndToEnd | kernel/src/user/syscall.rs:1280-1440 | what is written to one end is read from the other, behind what was there, in order |
| DescriptorUse.EndOfPipeIff | kernel/src/user/syscall.rs:166-172 | an empty pipe reads as ended exactly when no writing end is open |
| DescriptorUse.CloseIff | kernel/src/user/syscall.rs:2111-2121 | closing succeeds exactly on an open descriptor, which is then gone, and no other is |
| Events.Event.Enqueue | kernel/src/user/syscall.rs:205-214 | appends unless full or already queued |
| Events.Event.Dequeue | kernel/src/user/syscall.rs:216-224 | takes the first and moves the others forward |
| Events.Event.Remove | kernel/src/user/syscall.rs:226-239 | takes one out and closes the gap |
| Events.NoLostWakeup | kernel/src/user/syscall.rs:1467-1524 | in every run, while a thread is parked no signal is latched and the next signal makes a queued thread ready with return value 0; that thread is a parked one exactly when no queued thread blocked elsewhere stands before them all |
| Events.RunKeepsWorld | kernel/src/user/syscall.rs:1467-1524 | a signal is latched only with an empty queue, and parked threads are queued, in every run |
| Events.BoundedWaiting | kernel/src/user/syscall.rs:1500-1524 | a thread parked at place p is no longer parked after p + 1 signals; a signal woke it, unless a step took it out by other means |
| Events.SignalFinds | kernel/src/user/syscall.rs:1500-1524 | a signal wakes the first queued thread that is blocked, drops those before it, or latches |
| Events.WaitIff | kernel/src/user/syscall.rs:1467-1498 | a wait passes exactly on a latched signal, parks exactly a running thread for which there is room, with its context, and changes nothing otherwise |
| Events.PassNeedsLatch | kernel/src/user/syscall.rs:1476-1479 | in every run, between two waits that pass a signal was latched: one signal lets at most one wait pass |
| Events.LatchKept | kernel/src/user/syscall.rs:1467-1524 | a latched signal stays until the next wait, and that wait passes |
| Events.SignalIsFifo | kernel/src/user/syscall.rs:1500-1524 | with no waiter made ready behind the event's back a signal wakes exactly the longest waiting one |
| Events.NoneLeftIff | kernel/src/user/syscall.rs:1467-1524 | a step leaves parked threads only in the queue exactly when it is no wake from elsewhere, no exit of a parked thread or its process, and no handler that diverts a parked main thread |
| Events.RunNoneLeftIff | kernel/src/user/syscall.rs:1467-1524 | in a whole run the queue holds parked threads only exactly when no step is one of those |
| Events.LeftBehind | kernel/src/user/syscall.rs:1467-1524 | a queued thread that is not parked was taken out of its wait by one of those steps and has stood in the queue since |
| EventStrays.StolenSignal | kernel/src/user/syscall.rs:1500-1524 | when a signal wakes a thread that is not parked, it was taken out of its wait before and then blocked itself elsewhere; it returns 0 from there though a thread it joins goes on, the parked thread stays parked and nothing is latched |
| EventStrays.StolenRun | kernel/src/user/process.rs:1394-1421 | a run from boot in which this happens after a handler has diverted the main thread |
| EventCalls.WaitEvent | kernel/src/user/syscall.rs:1467-1498 | does what the wait step does to event and table |
| EventCalls.SignalEvent | kernel/src/user/syscall.rs:1500-1524 | the loop does what the signal step does |
| Arguments.WordsAre | userland/native/src/abi.rs:480-497 | the words are non-empty, hold no separator, and together are the bytes without separators |
| Arguments.WordPlace | userland/native/src/abi.rs:480-497 | each word is a whole run between separators: it starts and ends at one, or at an end of the bytes |
| Arguments.Argv.NextArg | userland/native/src/abi.rs:480-497 | the two loops yield the words one after the other |
| InitialStack.CollectArgv | kernel/src/user/ring3.rs:296-312 | the loops collect the path and the first seven words |
| InitialStack.PlaceStrings | kernel/src/user/ring3.rs:314-327 | the strings lie one behind the other below the top, each with its NUL, exactly when there is room |
| InitialStack.WriteStackWord | kernel/src/user/ring3.rs:385-396 | eight little-endian bytes, or an error past the end |
| InitialStack.WriteWords | kernel/src/user/ring3.rs:343-351 | argc, pointers and four nulls, with the strings left alone |
| InitialStack.ChooseStart | kernel/src/user/ring3.rs:329-341 | the start of the words, none exactly when the image does not fit |
| InitialStack.BuildUserInitialStack | kernel/src/user/ring3.rs:275-363 | which error, and on success the finished image at the front of the buffer with zeros behind it |
| InitialStack.ReadBack | kernel/src/user/ring3.rs:275-363 | read back: argc, for each argument a pointer to its bytes and NUL, the nulls, and no overlap |
| InitialStack.PointerAligned | kernel/src/user/ring3.rs:329-341 | the stack pointer is a multiple of sixteen exactly when the stack top is a multiple of eight |
| InitialStack.CStringIff | kernel/src/user/ring3.rs:314-327 | reading up to the NUL gives the whole argument exactly when it holds no NUL itself |
| InitialStack.ProgramSees | kernel/src/user/ring3.rs:275-363 | for every path and arguments: argc, and pointers that lead to the path and the words, read up to the NUL exactly when they hold none; the stack pointer is a multiple of sixteen exactly when the top is one of eight |
| InitialStack.SeenByProgram | userland/native/src/abi.rs:480-497 | from building the stack to reading it: the C strings behind the pointers are the path and the words the program's own iterator yields, up to eight |
| InitialStack.NulCutsArgument | kernel/src/user/ring3.rs:314-327 | the concrete case: an argument with a NUL inside fits on every stack and is read only up to it |
| InitialStack.StackTopsAligned | kernel/src/user/address_space.rs:334-340 | the tops of all stack slots are multiples of eight, so the misaligned case does not arise for them |

## Left out

- UTF-8: paths and names are bytes, and no operation here looks inside a character.
- Disk errors and an unavailable disk: every block read and write succeeds, up to the point where a crash stops them.
- The read-only files of the RAM file system, list and stat, and the device file system: single lookups.
- Formatting a volume: the model starts from a formatted one; the header is written before the directory blocks.
- FsBisim.SideBySide: bounds the number of operations by the RAM store's supply of inode numbers, which are never reused.
- FsBisim.StepStore: asks for an inode number that is left, of the 64-bit supply that the store never reuses.
- FsBisim.RunStore: the same for a whole run.
- FsBisim.StepVolume: asks for zero tails; what a write does without them is in the contract of VantFs.PersistentFilesystem.Write.
- FsBisim.RunVolume: the same for a whole run.
- TIDs: steps that create threads are allowed while the counter has not saturated; at saturation the code hands out the same TID again.
- SchedRuns.StepKeepsInv: joins are made by running threads and exits by threads that have not ended, as the system calls do.
- Sleeping, waiting for a child, and stop and continue, in processes with several ready threads: SleepingIff and WaitingIff say when the table stays consistent; stop and continue are not modelled.
- SchedStackRuns.ManagedStacksApart: speaks of kernel-assigned stacks; a stack a program brings itself may lie over a slot that is assigned later.
- The reservation of PIDs: they are parameters, and a program is started under a PID without a process.
- SpaceSetup.Paging.PreparePrivateP4Slot: asks that the kernel's tables lie outside the frames still to be handed out, which the memory map provides.
- Failure to clear a reserved thread stack: the reservation is then undone at once.
- Process groups, sessions, credentials, pending and blocked signals: no part of the thread protocol reads them.
- Run-time statistics other than the allocator's counters.
- The rights of a page as the processor combines them: the flags on the way are stated entry by entry, not their conjunction.
- Loading a program into its prepared pages, page protection, TLB flushes and switching page tables.
- The recycling of message queues and events when a process ends, and the keyboard.
- LinkedListHeap.AlignUp: the mask expression of the code is modelled by division, which gives the same value for powers of two; an overflow of the addition is not modelled.
- The linked nodes inside free memory: a free list is a sequence, not a chain of pointers through the blocks.
- The kernel's own task scheduler, hardware drivers, interrupts, the shell and userland programs.
