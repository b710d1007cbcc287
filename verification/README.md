# pgzero, verified

pgzero is a small POSIX kernel in Go, with a guest C library, that runs Postgres as many wasm
processes. This project models the parts of it whose correctness depends on many operations
working together, and proves what they keep over every run:

- **The in-memory filesystem** (`MemFsGraph`, `MemFsOps`, `MemFsResults`, `MemFsTheorems`, `MemFsClone`, `MemFsPaths`,
  `MemFsWorld`, `MemFs`, `FileData`): a graph of nodes with parent pointers. The values of `MemFsOps` say what
  each operation does to the graph, `MemFsResults` says when each succeeds and with which error it fails otherwise,
  the theorems say what holds of all of them, of names with `..` and of several filesystems in one memory, and the
  class `FS` carries the operations out in place.
- **Shared memory** (`ShmState`, `ShmOps`, `ShmResults`, `ShmTheorems`, `ShmPages`, `ShmTable`): segments counted by
  attachments and by open files, mapped over each other page by page, and freed when unused.
- **Descriptors and pipes** (`Pipes`, `Files`, `FileResults`, `FdTables`): reference counts over all processes, with
  closing, unreferencing and releasing as separate steps.
- **Blocking** (`Wakeup`, `WakeupResults`, `WakeupObjects`, `Socket`, `SocketResults`, `SocketObject`): waiters,
  notifiers, semaphores, poll, and the two pumps of a socket, as interleaved steps.
- **Processes and signals** (`Lifecycle`, `Processes`, `Pids`, `PidReuse`, `HostSignals`, `GuestSignals`,
  `SignalResults`): pids, spawn, exit and waitpid; signals from the sender's bit to the nested handlers of the guest.
- **The wasm object patcher** (`WasmObj`, `WasmEncode`, `WasmRoundTrip`, `WasmReadOnce`, `WasmLocalize`, `WasmOverrun`,
  `WasmTool`): a parser, proved to read back every object that `WasmEncode` writes, and an in-place edit of what it
  parses.

Steps of the concurrent parts are the sections under a mutex; whatever the code does outside one is a step
of its own. `IsRun` in each module is a finite run from the initial state, and the theorems hold at every index of it.

Six promises turn out to hold only under a condition; each has a counterexample and the condition:

- Resolving `file/..` dereferences a missing parent (`MemFsOps.FileDotDotCrashes`; `MemFsOps.ClimbCrash` says exactly when).
- `remove` of a shared-memory id that has a name leaves the name leading to a freed segment
  (`ShmTheorems.RemoveInvExactly`, `ShmTheorems.RemoveOfNamedReopens`).
- A removed segment is freed once nothing is attached to it, not once nothing maps it: an attachment unmapped piece by
  piece outlives its pages (`ShmPages.UnmappedByHalves`). `ShmPages.UnmapShows` and `ShmPages.MapShows` say exactly which
  calls leave such attachments, and `ShmPages.FreedWhenNothingMaps` that without them the promise holds.
- An exiting process gives back its pid by number. When its parent has given it back already and the number
  has a new owner, the new owner loses it (`Lifecycle.RobbedExactly` says exactly when). `PidReuse.PidLost` is such a run,
  with the allocator's own cursor. `PidReuse.PromptLifecycles` shows that it takes an orphan whose pid was given back and
  which does not reach its section within a round of the cursor since it got that pid.
- The object reader bounds slices by their capacity, so a subsection may run past its section and be read again as
  sections, and then patching may break the object (`WasmOverrun.OverrunBreaksLocalizing`). It never does if every patched
  byte is read once (`WasmReadOnce.ReadOnceCommutes`), as in every object whose parts stay within their bounds
  (`WasmLocalize.WithinBoundsIsReadOnce`).
- `kill` accepts signal number 64, which has no bit and is never seen (`HostSignals.BitsExact`, `HostSignals.OnlyBitsInterrupt`).

`dafny verify dfyconfig.toml` checks the whole project.

## Model

| member | source | states |
|---|---|---|
| `MemFsGraph.DirectoryHasOneEntry` | internal/memfs/memfs.go:36-46 | two entries that hold one directory are the same entry, in its parent; the root is in none |
| `MemFsGraph.NotAboveParent` | internal/memfs/memfs.go:512-523 | parent chains have no cycle |
| `MemFsOps.JoinSplit` | internal/memfs/memfs.go:77-119 | splitting a name at slashes loses nothing |
| `MemFsOps.ResolveStays` | internal/memfs/memfs.go:77-119 | a resolved place is a node of the filesystem; a resolved parent is a directory and its base a real name |
| `MemFsOps.ClimbCrash` | internal/memfs/memfs.go:92-112 | resolving crashes if and only if some `..` is asked of something that is not a directory |
| `MemFsOps.FileDotDotCrashes` | internal/memfs/memfs.go:92-112 | in a filesystem of one file, resolving the name `f/..` of it crashes |
| `MemFsOps.ClimbIsWalk` | internal/memfs/memfs.go:92-112 | without `..`, resolving is the walk down the entries, and fails exactly when the walk does |
| `MemFsResults.EscapesRefused` | internal/memfs/memfs.go:77-112 | a name that starts with a slash, and one that would leave by `..` of the root, are EPERM |
| `MemFsResults.DownAndUp` | internal/memfs/memfs.go:92-112 | an entry that is a directory, followed by `..`, leads back to where it was looked up |
| `MemFsResults.DotsDoNotMatter` | internal/memfs/memfs.go:92-112 | empty and single-dot components can be left out of any name |
| `MemFsResults.TrailingSlash` | internal/memfs/memfs.go:77-119 | after a slash a file is ENOTDIR and a directory is found; for an entry to make or remove the slash does not count |
| `MemFsResults.BaseMustBeNamed` | internal/memfs/memfs.go:77-119 | an entry to make or remove cannot be called nothing, `.` or `..`: EINVAL |
| `MemFsResults.OpenResult` | internal/memfs/memfs.go:156-201 | opening gives the node of a name that is there, cuts its contents exactly when truncating a file open for writing, makes the file exactly when it is not there and asked for; EEXIST, EISDIR and ENOENT exactly when they apply; every other node as it was |
| `MemFsResults.MkdirResult` | internal/memfs/memfs.go:404-419 | mkdir succeeds exactly when the parent resolves and has no such entry, EEXIST exactly when it has; afterwards the entry leads to a new, empty directory and nothing else differs |
| `MemFsResults.RmdirResult` | internal/memfs/memfs.go:421-440 | rmdir succeeds exactly on an empty directory; ENOENT, ENOTDIR and ENOTEMPTY exactly when they apply; afterwards that entry is gone and nothing else differs |
| `MemFsResults.UnlinkResult` | internal/memfs/memfs.go:442-459 | unlink succeeds exactly on a file; ENOENT and EISDIR exactly when they apply; afterwards that entry is gone and nothing else differs |
| `MemFsResults.RenameNames` | internal/memfs/memfs.go:479-497 | EXDEV, then a new directory that is none, then the old name, then the new name: the first that fails decides a rename |
| `MemFsResults.RenameResult` | internal/memfs/memfs.go:479-529 | once both names resolve, a rename succeeds if and only if the old entry is there and either both entries hold its node, or the new entry is free or holds something of the same kind, and if a directory then an empty one, and a directory does not go below itself; ENOENT, ENOTDIR, EISDIR, ENOTEMPTY and EINVAL each exactly when it applies and none before it does |
| `MemFsResults.LinkResult` | internal/memfs/memfs.go:532-557 | link succeeds exactly on a file and a free new name, EPERM exactly on a directory, EEXIST exactly when the new name is taken; afterwards the new entry leads to the same file and nothing else differs |
| `MemFsTheorems.OpenWF` | internal/memfs/memfs.go:156-201 | opening or creating keeps the tree well-formed and adds at most one node |
| `MemFsTheorems.OpenFrame` | internal/memfs/memfs.go:156-201 | opening touches no node of another filesystem and opens one of this one |
| `MemFsTheorems.MkdirWF` | internal/memfs/memfs.go:404-419 | mkdir keeps the tree well-formed, also below a removed directory |
| `MemFsTheorems.RmdirWF` | internal/memfs/memfs.go:421-440 | rmdir keeps the tree well-formed |
| `MemFsTheorems.UnlinkWF` | internal/memfs/memfs.go:442-459 | unlink keeps the tree well-formed |
| `MemFsTheorems.LinkWF` | internal/memfs/memfs.go:532-557 | link keeps the tree well-formed |
| `MemFsTheorems.MovedWF` | internal/memfs/memfs.go:479-529 | moving a subtree out of reach of itself leaves every directory with one entry and a finite chain to the root |
| `MemFsTheorems.RenameWF` | internal/memfs/memfs.go:479-529 | rename keeps the tree well-formed, whatever it returns |
| `MemFsTheorems.RenameOutcome` | internal/memfs/memfs.go:479-529 | a rename succeeds if and only if both entries hold the node already, and then nothing changes, or it can move, and then exactly the moved heap results; one that fails changes nothing. When it can move is said by the entries and their kinds alone |
| `MemFsTheorems.StepInv` | internal/memfs/memfs.go:156-557 | every operation, through handles to live or removed directories, keeps the invariant |
| `MemFsTheorems.RunInv` | internal/memfs/memfs.go:156-557 | the invariant holds in every state of every run |
| `MemFsTheorems.RunTree` | internal/memfs/memfs.go:404-557 | in every run each directory is in at most one entry, in its parent, the root in none, and every parent chain reaches the root |
| `MemFsPaths.ClimbUnmoved` | internal/memfs/memfs.go:92-112 | a climb that looks up neither entry of a rename and does not take `..` at the moved node is as before, errors and crashes included |
| `MemFsPaths.RenameMovesClimbs` | internal/memfs/memfs.go:479-529 | every path under the new name, with `..` or not, leads where the matching path under the old name led, or fails alike, as long as it does not leave the moved node; every path under the old name is ENOENT |
| `MemFsPaths.RenameMovesNames` | internal/memfs/memfs.go:77-119 | the same of whole names as resolve takes them |
| `MemFsPaths.RenameKeepsTheRest` | internal/memfs/memfs.go:479-529 | every name that avoids what the rename changes resolves as before or fails as before; contents, kinds and all other parents stay |
| `MemFsPaths.RenameOfAnyClimb` | internal/memfs/memfs.go:479-529 | what a rename does to any path whatever: as before up to where it first meets the change, and then the old entry is missing, the new one leads to the moved node, and its `..` to the new parent |
| `MemFsPaths.PlainAvoids` | internal/memfs/memfs.go:479-529 | a path without `..` to either directory meets nothing the rename changes |
| `MemFsClone.CopyWF` | internal/memfs/memfs.go:582-610 | the copy is a well-formed filesystem of its own nodes |
| `MemFsPaths.CopyClimb` | internal/memfs/memfs.go:582-610 | every climb, with `..` or not, leads in the copy to the copy of where it leads in the original, or fails with the same error or crash |
| `MemFsPaths.CopyResolve` | internal/memfs/memfs.go:582-610 | the same of whole names, with equal kind and contents |
| `MemFsPaths.CopyKeepsHardLinks` | internal/memfs/memfs.go:582-610 | two names lead to one node in the copy if and only if they do in the original |
| `MemFsWorld.StepUntouched` | internal/memfs/memfs.go:156-610 | an operation on one filesystem, a write or a clone touches no node of any other in the same memory |
| `MemFsWorld.RunInv` | internal/memfs/memfs.go:156-610 | through any interleaving of operations on any number of filesystems, clones included, all stay well-formed and share no node |
| `MemFsWorld.Isolation` | internal/memfs/memfs.go:582-610 | whatever is done on other filesystems, every name resolves as before through every handle of this one, and every node of it is what it was |
| `MemFsWorld.Snapshot` | internal/memfs/memfs.go:582-610 | until something is done on a copy itself, every name resolves in it, with kind and contents, as it did in the original when it was copied |
| `MemFs.FS.Resolve` | internal/memfs/memfs.go:77-119 | the loop computes the recursive definition, error and crash cases included |
| `MemFs.FS.OpenAt` | internal/memfs/memfs.go:156-201 | the in-place operation has exactly the specified outcome and touches only its own filesystem |
| `MemFs.FS.MkdirAt` | internal/memfs/memfs.go:404-419 | likewise for mkdir |
| `MemFs.FS.RmdirAt` | internal/memfs/memfs.go:421-440 | likewise for rmdir |
| `MemFs.FS.UnlinkAt` | internal/memfs/memfs.go:442-459 | likewise for unlink |
| `MemFs.FS.IsAbove` | internal/memfs/memfs.go:512-523 | the ancestor walk ends from every directory, and finds n exactly when n is an ancestor |
| `MemFs.FS.RenameAt` | internal/memfs/memfs.go:479-529 | the in-place rename has exactly the outcome that `MemFsResults.RenameResult` describes |
| `MemFs.FS.LinkAt` | internal/memfs/memfs.go:532-557 | the in-place link has exactly the specified outcome |
| `MemFs.FS.CloneNode` | internal/memfs/memfs.go:586-608 | the memoised recursion extends a partial copy by n and all below it, and leaves the directories being filled alone |
| `MemFs.FS.Clone` | internal/memfs/memfs.go:582-610 | the result is isomorphic to the original, valid, and made of nodes that did not exist before; the original is unchanged |
| `MemFs.OthersStay` | internal/memfs/memfs.go:582-610 | a call on one filesystem object leaves every other in the memory valid, apart from it, and resolving all names as before |
| `MemFs.FS.WriteAt` | internal/memfs/memfs.go:268-288 | a write through a handle changes that node only, to the bytes of a plain zero-extended sequence, with the error cases exact, and a panic exactly when the end overflows or the file would need memory it cannot get |
| `MemFs.FS.Truncate` | internal/memfs/memfs.go:325-342 | a truncate through a handle changes that node only, with the error cases exact, and a panic exactly when the file would need memory it cannot get |
| `FileData.CutBytesStayZero` | internal/memfs/memfs.go:268-342 | after any writes and truncates, a byte that was cut off or never written is zero until it is written |
| `FileData.OtherBytesStay` | internal/memfs/memfs.go:268-342 | a byte neither overwritten nor cut off stays |
| `FileData.ReadBack` | internal/memfs/memfs.go:236-288 | what was written is read back, also after a write elsewhere |
| `FileData.ReadGives` | internal/memfs/memfs.go:236-253 | a read gives the bytes from its offset on, as many as are asked for and there |
| `FileData.Contents.Grow` | internal/memfs/memfs.go:291-302 | growing a slice with stale spare capacity equals extending a plain sequence by zeros, and is refused exactly when it takes a slice too large to be made |
| `FileData.Contents.WriteAt` | internal/memfs/memfs.go:268-288 | writing equals writing to a plain zero-extended sequence; the error cases, directories included, the overflow of the end and slices too large to be made are exact |
| `FileData.Contents.ReadAt` | internal/memfs/memfs.go:236-253 | reading returns the bytes of that sequence, with end of file exactly on a short read, and the error cases exact |
| `FileData.Contents.Truncate` | internal/memfs/memfs.go:325-342 | truncating equals cutting or zero-extending that sequence, with the error cases and slices too large to be made exact |
| `ShmState.FreedExactlyWhenUnused` | internal/kernel/shm.go:213-221 | a segment is freed if and only if it is removed, unattached and not open; a mapped or open one is not freed |
| `ShmOps.KeptExact` | internal/kernel/shm.go:97-108 | the filter keeps exactly the attachments that are not within the range |
| `ShmOps.DropWithinOk` | internal/kernel/shm.go:97-108 | dropping attachments keeps all counts exact and frees what becomes unused, at every point of the pass |
| `ShmOps.DetachAllOk` | internal/kernel/shm.go:203-211 | detaching a process leaves it without attachments and all counts exact |
| `ShmTheorems.MapCovers` | internal/vmem/vmem.go:132-151 | after mapping over older mappings every mapped page is covered by a kept attachment or the new one, and shows the page of its segment that lies there |
| `ShmTheorems.MapLockedInv` | internal/kernel/shm.go:84-94 | mapLocked keeps the invariant under what its callers guarantee |
| `ShmTheorems.FreedMidway` | internal/kernel/shm.go:84-108 | the segment being mapped is freed midway if and only if it is removed, not open, and attached nowhere outside the range |
| `ShmTheorems.UnmapInv` | internal/kernel/shm.go:192-200 | a partial unmap keeps the invariant |
| `ShmResults.MapResult` | internal/kernel/shm.go:84-94 | a map succeeds exactly if the range is aligned, not empty, within the segment and within the committed memory, and the host maps it; then each page of the range shows the page of the segment at the same distance from the start, every other page what it showed, and the attachments are those not within the range and the new one |
| `ShmResults.SharedView` | internal/vmem/vmem.go:132-151 | two processes that map a segment, at whatever addresses and lengths, see the same page of it at the same distance from where each mapped it |
| `ShmResults.UnmapResult` | internal/kernel/shm.go:192-200 | an unmap succeeds exactly on an aligned, not empty, committed range; then no page of it shows anything, every other page what it showed, and the attachments within it are gone |
| `ShmResults.AttachResult` | internal/kernel/shm.go:74-82 | attach maps the whole segment, and is ENOENT exactly if it is not in the table, removed, or without memory |
| `ShmResults.MapFdResult` | internal/kernel/shm.go:183-190 | mapping a file maps its segment, removed or not, and is EINVAL if that has no memory |
| `ShmResults.OpenResult` | internal/kernel/shm.go:124-139 | open is EEXIST exactly for a name that is there and was to be made new, ENOENT exactly for one that is not and was not to be made; otherwise the new file is on the segment the name leads to, the one it led to before if any |
| `ShmResults.UnlinkResult` | internal/kernel/shm.go:141-152 | unlink takes that name away and no other, and its segment is removed, and freed exactly if nothing uses it |
| `ShmResults.RemoveResult` | internal/kernel/shm.go:111-121 | remove is ENOENT exactly for an id that is not there or removed already; otherwise its segment is removed, and freed exactly if nothing uses it, and names stay |
| `ShmResults.CreateResult` | internal/kernel/shm.go:49-62 | create makes a segment that was not there, of the fewest whole pages that hold the size; EINVAL exactly for size zero, ENOMEM exactly when the host has no memory |
| `ShmResults.TruncateResult` | internal/kernel/shm.go:154-172 | the first size makes the memory, in whole pages; after that exactly sizes that fit are accepted, and change nothing |
| `ShmTheorems.PageWithin` | internal/kernel/shm.go:84-108 | every mapped page shows a page within its segment, the one at its distance from the start of an attachment that covers it |
| `ShmTheorems.OpenInv` | internal/kernel/shm.go:124-139 | opening or creating a name keeps the invariant |
| `ShmTheorems.UnlinkInv` | internal/kernel/shm.go:141-152 | unlinking a name keeps the invariant |
| `ShmTheorems.TruncateInv` | internal/kernel/shm.go:154-172 | sizing a segment once keeps the invariant |
| `ShmTheorems.CreateInv` | internal/kernel/shm.go:49-62 | creating a segment keeps the invariant, also when memory runs out |
| `ShmTheorems.ReleaseInv` | internal/kernel/shm.go:246-251 | releasing a file keeps the invariant |
| `ShmTheorems.RemoveInvExactly` | internal/kernel/shm.go:111-121 | remove keeps the invariant if and only if no name leads to the id |
| `ShmTheorems.RemoveOfNamedReopens` | internal/kernel/shm.go:111-139 | removing an unused named id frees it, and opening the name then hands out the freed segment |
| `ShmTheorems.StepInv` | internal/kernel/shm.go:42-251 | every operation keeps the invariant |
| `ShmTheorems.RunSafe` | internal/kernel/shm.go:42-251 | in every run counts equal the true numbers, a segment is freed exactly when removed, unattached and not open, its memory is given back exactly once if it ever had any, at that moment, and every mapped page is covered by an attachment of its process to an unfreed segment and shows the page of it at its distance from the start of the attachment, within its size |
| `ShmTheorems.OpenedExactly` | internal/kernel/shm.go:154-172 | memory was made for a segment exactly once if it was ever sized, and never otherwise |
| `ShmTheorems.FreedForGood` | internal/kernel/shm.go:213-221 | in every run a freed segment stays freed |
| `ShmPages.UnmapShows` | internal/kernel/shm.go:192-200 | an unmap leaves every attachment with a page that shows its segment if and only if each that is not within the range is shown outside it |
| `ShmPages.MapShows` | internal/kernel/shm.go:84-94 | a map does if and only if each attachment that is not within the range is shown outside it, or is to the mapped segment and overlaps the range |
| `ShmPages.FreedWhenNothingMaps` | internal/kernel/shm.go:97-221 | in every run of such maps and unmaps a segment is freed exactly when it is removed, no page of any process shows it, and no file is open on it, whenever no process is between losing its memory and being detached |
| `ShmPages.UnmappedByHalves` | internal/kernel/shm.go:97-108 | a run that ends with a removed segment that no page shows and that is not freed |
| `ShmTable.Table.DropAttachments` | internal/kernel/shm.go:97-108 | the in-place filtering loop equals its definition |
| `ShmTable.Table.MapSegment` | internal/kernel/shm.go:84-94 | the in-place operation has the outcome that `ShmResults.MapResult` describes and keeps the invariant |
| `ShmTable.Table.AttachSegment` | internal/kernel/shm.go:74-82 | likewise for attach, which refuses removed segments |
| `ShmTable.Table.MapFile` | internal/kernel/shm.go:183-190 | likewise for mapping an open file |
| `ShmTable.Table.UnmapRangeOf` | internal/kernel/shm.go:192-200 | likewise for unmap |
| `ShmTable.Table.CreateSegment` | internal/kernel/shm.go:49-62 | likewise for create |
| `ShmTable.Table.RemoveSegment` | internal/kernel/shm.go:111-121 | remove has the specified outcome, and leaves the table valid exactly when no name leads to the id |
| `ShmTable.Table.OpenName` | internal/kernel/shm.go:124-139 | open has the specified outcome and keeps the invariant |
| `ShmTable.Table.UnlinkName` | internal/kernel/shm.go:141-152 | likewise for unlink |
| `ShmTable.Table.ReleaseFile` | internal/kernel/shm.go:246-251 | likewise for release |
| `ShmTable.Table.TruncateFile` | internal/kernel/shm.go:154-172 | likewise for truncate |
| `Pipes.RunFifo` | internal/kernel/pipe.go:32-102 | after any reads and writes, the bytes accepted are the bytes delivered followed by the buffer, which never exceeds its capacity |
| `Pipes.SmallWriteIsAtomic` | internal/kernel/pipe.go:84-102 | a write of at most PIPE_BUF bytes goes in whole or not at all |
| `Pipes.ReadTakes` | internal/kernel/pipe.go:32-52 | a read takes from the front of the buffer as many bytes as are asked for and there, and adds them to those delivered; of an empty buffer it is end of file exactly without writers, EAGAIN exactly with some |
| `Pipes.WritePuts` | internal/kernel/pipe.go:84-102 | a write adds as many bytes as fit at the back; EPIPE exactly without readers, EAGAIN exactly when nothing fits or when at most 4096 bytes do not all fit |
| `Pipes.Buffer.Read` | internal/kernel/pipe.go:32-52 | the in-place read returns and leaves what `Takes` says: the front of the buffer, as much as is asked for and there |
| `Pipes.Buffer.Write` | internal/kernel/pipe.go:84-102 | the in-place write returns and leaves what `Puts` says: as much as fits, at the back |
| `Files.StepInv` | internal/kernel/fdtable.go:46-166 | every step of every process keeps the counts exact |
| `Files.RefsExact` | internal/kernel/fdtable.go:46-55 | in every run refs is the number of descriptors of all processes and of references being given up, and release happens once, when that is zero |
| `Files.EofAndEpipeExact` | internal/kernel/pipe.go:32-125 | a read reports end of file exactly when the pipe is drained and the write end is gone everywhere, a write EPIPE exactly when the read end is |
| `Files.GoneExact` | internal/kernel/fdtable.go:51-55 | a file is released exactly when no descriptor refers to it and nothing about it is pending |
| `FileResults.SlotResult` | internal/kernel/fdtable.go:72-151 | no step changes a descriptor it does not name; new files and duplicates have the flag asked for, add takes the lowest free number from 0x100000 on, pipe ends and inherited descriptors are not close-on-exec |
| `FileResults.PipeResult` | internal/kernel/pipe.go:32-125 | a pipe changes only by a read or a write of it, as `Takes` and `Puts` say, or by the release of one of its ends, which counts that end down |
| `FdTables.Descriptors.GiveUp` | internal/kernel/fdtable.go:51-55 | unref releases the file exactly at the last reference |
| `FdTables.Descriptors.FindFree` | internal/kernel/fdtable.go:85-94 | the search finds the lowest free number from the base up |
| `FdTables.Descriptors.AddFd` | internal/kernel/fdtable.go:85-94 | add keeps the counts exact and changes only the lowest free slot |
| `FdTables.Descriptors.InstallFd` | internal/kernel/fdtable.go:74-82 | install replaces the slot and gives up what was there |
| `FdTables.Descriptors.CloseFd` | internal/kernel/fdtable.go:106-116 | close empties the slot and gives up its file, or refuses |
| `FdTables.Descriptors.CloneForExec` | internal/kernel/fdtable.go:141-151 | the child has exactly the descriptors not marked close-on-exec, with all counts exact |
| `FdTables.Descriptors.CloseAll` | internal/kernel/fdtable.go:153-166 | the process is left without descriptors, with all counts exact |
| `Wakeup.TriedHeard` | internal/kernel/pipe.go:32-102 | a call that succeeds without notifying makes nothing ready that was not |
| `Wakeup.StepHeard` | internal/kernel/notify.go:13-29 | no step can make something ready unheard: it closes the channel, or owes a notification |
| `Wakeup.StepInv` | internal/kernel/fdtable.go:170-187 | every step keeps what waiters rely on and what semaphores conserve |
| `Wakeup.NotifyWakes` | internal/kernel/notify.go:22-29 | a notification wakes whoever is parked on the resource |
| `Wakeup.NoLostWakeup` | internal/kernel/process.go:363-399 | in every run, when something a parked waiter waits for is ready, the waiter can wake or a notification that wakes it is on its way |
| `Wakeup.RestingWaitersAreRight` | internal/kernel/poll.go:30-67 | with no notification on its way, a waiter that cannot wake waits for nothing that is ready |
| `Wakeup.UnitsKept` | internal/kernel/sema.go:43-73 | locks taken equal the initial count plus unlocks minus the count, in every run without a reset |
| `WakeupResults.ChildrenExactly` | internal/kernel/process.go:403-451 | in every run the children that can be waited for are those spawned and not reaped since, and one is done exactly if it has ended since |
| `WakeupResults.SemaResult` | internal/kernel/sema.go:43-79 | the count goes up by one with each unlock, down by one with each lock, which finds it positive, and to zero with a reset, and changes with nothing else |
| `WakeupResults.WaitersResult` | internal/kernel/process.go:363-399 | a waiter leaves when it succeeds or gives up, starts over with the same wants when woken, and no step of another changes it |
| `WakeupObjects.Resource.TakeChannel` | internal/kernel/notify.go:13-20 | wait returns the open channel, making one only if there is none |
| `WakeupObjects.Resource.CloseChannel` | internal/kernel/notify.go:22-29 | after notify no channel handed out is open |
| `WakeupObjects.Resource.TryLock` | internal/kernel/sema.go:43-51 | a unit is taken exactly when there is one, so that no more are locked than there are |
| `WakeupObjects.Resource.GiveBack` | internal/kernel/sema.go:68-73 | unlock adds a unit, leaves no channel open, and conserves units |
| `WakeupObjects.Resource.Clear` | internal/kernel/sema.go:75-79 | reset empties the semaphore and accounts for what it throws away |
| `WakeupObjects.AnswerIsReady` | internal/kernel/poll.go:41-59 | poll answers for the end of a pipe exactly when waiting for it would end |
| `WakeupObjects.PollFlags` | internal/kernel/poll.go:41-59 | each flag poll stores, exactly: data and space only if asked for, hang-up and error always, POLLNVAL exactly for a descriptor that is not open, nothing for a negative one |
| `WakeupObjects.PollPromises` | internal/kernel/pipe.go:56-68 | POLLIN is promised exactly when a read would not block, POLLOUT exactly when a write of PIPE_BUF bytes would not |
| `WakeupObjects.PollRound` | internal/kernel/poll.go:41-59 | a round stores every entry's answer, changes nothing else, counts the entries answered, and answers none exactly when waiting for none of the files would end at once |
| `Socket.OutputStep` | internal/kernel/socket.go:368-453 | every step keeps the output stream faithful and the write loop awake while it has work |
| `Socket.InputStep` | internal/kernel/socket.go:341-431 | every step keeps the input stream faithful and bounded |
| `Socket.CloserStep` | internal/kernel/socket.go:503-527 | every step keeps exactly one of write loop and release responsible for closing |
| `Socket.StepInv` | internal/kernel/socket.go:341-527 | every step keeps all of this and what refused users rely on |
| `Socket.OutputIsFaithful` | internal/kernel/socket.go:368-453 | in every run the bytes accepted are the bytes written followed by the bounded buffer, a write under way is a prefix of it, and the loop ends without error only when everything is written |
| `Socket.OneCloser` | internal/kernel/socket.go:392-401 | in every run the connection is closed at most once, exactly once when the loop has ended and the socket is released, and never with unwritten output unless writing failed |
| `Socket.InputIsFaithful` | internal/kernel/socket.go:341-431 | in every run the bytes received are the bytes delivered followed by the buffer, which stays below 256 KiB + 64 KiB; end of file comes only after everything |
| `Socket.StrandedExactly` | internal/kernel/socket.go:341-366 | a receiver and the pump can both sleep for ever if and only if one read may bring as much as the read-ahead |
| `Socket.NoLostWakeup` | internal/kernel/socket.go:341-453 | in every run a user who was refused and would not be now has a closed channel, or the pump is on its way to closing it |
| `SocketResults.RecvGives` | internal/kernel/socket.go:404-431 | a receive gives the next bytes of the stream received, as many as are asked for and there; end of file, reset and EAGAIN exactly when there are none, by how the stream has ended |
| `SocketResults.SendTakes` | internal/kernel/socket.go:433-453 | a send adds to the stream accepted as many bytes as 256 KiB of unwritten output leave space for; EPIPE exactly after an error or shutdown, EAGAIN exactly without space |
| `SocketResults.Sticks` | internal/kernel/socket.go:341-527 | errors, shutdown, release and the end of input are set by the step that brings them about and by no other, and stay |
| `SocketObject.Connection.Send` | internal/kernel/socket.go:433-453 | what send reports as sent is accepted, in order, and is as much as there is space for; EPIPE exactly after shutdown, error or release; EAGAIN exactly with a full buffer and bytes to send |
| `SocketObject.Connection.Receive` | internal/kernel/socket.go:404-431 | recv returns what the connection brought next, as many bytes as are asked for and there, taken unless peeked at; end of file, a reset or EAGAIN exactly once everything received is delivered, by how the stream has ended |
| `SocketObject.Connection.Release` | internal/kernel/socket.go:503-527 | release closes the connection exactly if the write loop is over |
| `SocketObject.Connection.NextWrite` | internal/kernel/socket.go:371-391 | the head of the loop waits exactly if there is nothing to write, no error and no shutdown, ends exactly after an error or with nothing to write after shutdown, and otherwise writes all that is accepted and not written |
| `SocketObject.Connection.WriteLoop` | internal/kernel/socket.go:368-402 | over a connection that takes short writes and fails, with users calling meanwhile, the loop ends only after an error or once everything accepted is written and output is shut down, and then the connection has been closed, once, exactly if the socket is released; left alone with a connection that takes everything, it writes all that was accepted and ends exactly if output is shut down |
| `SocketObject.Connection.ReadLoop` | internal/kernel/socket.go:341-366 | all the connection brings is received in order, into a buffer below 256 KiB + 64 KiB, how the stream ended is what the last read that ended it said, and the loop stops only at that end or after release |
| `Lifecycle.SectionTable` | internal/kernel/process.go:253-272 | the exit section takes out of the table exactly the process, if an orphan, and its finished children |
| `Lifecycle.StepInv` | internal/kernel/process.go:235-451 | every step that meets no reused pid keeps the invariant |
| `Lifecycle.RunInv` | internal/kernel/process.go:235-451 | the invariant holds in every state of every such run |
| `Lifecycle.Lifecycles` | internal/kernel/process.go:235-451 | in every such run waitpid returns a child at most once and with its final status; its pid is registered while its parent lives and has not reaped it; a finished child of an idle parent can be reaped; none remains once both have finished |
| `Lifecycle.ReapedStatus` | internal/kernel/process.go:235-451 | in every such run waitpid has returned a child with a status if and only if a step reaped it and exactly one step ended it, with that status |
| `Lifecycle.ChildrenByPid` | internal/kernel/process.go:403-415 | the children of a process have different pids |
| `Lifecycle.RobbedExactly` | internal/kernel/kernel.go:352-363 | an exit section unregisters a process it has nothing to do with if and only if its own pid has a new owner |
| `Processes.Table.Finish` | internal/kernel/process.go:253-272 | the loop over the children carries out the exit section |
| `Processes.Table.Wait` | internal/kernel/process.go:418-451 | one round of waitpid reaps a finished child that is asked for, and reports ECHILD exactly when none is |
| `Pids.PidFits` | internal/kernel/kernel.go:282-298 | a slot's pid is a positive int32 that gives back the host pid modulo 2^20 |
| `Pids.HostsNeverShare` | internal/kernel/kernel.go:282-298 | hosts that differ modulo 2^20 never share a pid |
| `Pids.CursorReaches` | internal/kernel/kernel.go:308-315 | from any cursor the search meets every slot |
| `Pids.Registry.Allocate` | internal/kernel/kernel.go:300-317 | allocation fails if and only if all 2047 slots are taken, and otherwise takes the first free one from the cursor on and moves the cursor past it |
| `PidReuse.AfterOk` | internal/kernel/kernel.go:300-317 | every step of every kernel of the host keeps what ties pids to the cursor |
| `PidReuse.SamePidRoundsApart` | internal/kernel/kernel.go:300-317 | two processes that got one pid got it at least a whole round of the cursor apart |
| `PidReuse.OneRoundIsSafe` | internal/kernel/kernel.go:300-317 | within a round of the cursor after a process got its pid, nobody else has it |
| `PidReuse.PromptLifecycles` | internal/kernel/process.go:251-272 | the lifecycle holds in every run in which an exiting orphan whose pid its parent has given back reaches its section within a round of the cursor since it got that pid |
| `PidReuse.OwnRun` | internal/kernel/process.go:251-272 | such a run is, for one kernel, a run of its own steps that meet no reused pid, so that all that holds of those holds of it |
| `PidReuse.PromptStatus` | internal/kernel/process.go:418-451 | in such a run waitpid has returned a child with a status if and only if a step reaped it and exactly one step ended it, with that status |
| `PidReuse.KernelsApart` | internal/kernel/kernel.go:300-323 | in every run no slot is in use by two kernels of the host |
| `PidReuse.OthersExactly` | internal/kernel/kernel.go:300-323 | in every run the slots of other kernels are those they have taken and not freed since |
| `PidReuse.PidLost` | internal/kernel/process.go:251-272 | a run of the allocator's own, one round long, that ends with a running process whose pid is not registered |
| `HostSignals.NoSignalMissed` | internal/kernel/process.go:294-399 | in every run, when block is at its select and a signal interrupts it, the wake channel holds a token or a sender is about to place one |
| `HostSignals.WaitEnds` | internal/kernel/process.go:363-399 | once the senders are done the waiting call returns, and a killed one at once |
| `HostSignals.BitsExact` | internal/kernel/process.go:294-335 | in every run a bit is set, before or after registration, exactly when its signal was sent and not taken since, for signals below 64 other than SIGKILL; others never have one |
| `HostSignals.EarlyBitsArrive` | internal/kernel/process.go:321-335 | what was sent before registration and not taken is pending after it |
| `HostSignals.OnlyBitsInterrupt` | internal/kernel/process.go:294-310 | runs in which only signals without a bit are sent never interrupt a call, and kill exactly if SIGKILL is sent; 64 is never seen |
| `HostSignals.CheckDecides` | internal/kernel/process.go:363-399 | in every run block goes to sleep exactly if SIGKILL was never sent and no outstanding signal is to interrupt it: any before registration, those neither blocked nor ignored after it |
| `HostSignals.ComesBack` | internal/kernel/process.go:363-399 | in every run block returns exactly at a check that finds such a signal or a kill, and from its sleep for a kill or another reason than the token |
| `HostSignals.RegisteredExactly` | internal/kernel/process.go:312-335 | in every run the control block is in use from the last registration on until the process stops |
| `HostSignals.MasksAreTheLast` | wasm/libpgzero/src/signal.c:53-82 | in every run the masks the host consults are those the guest has last set |
| `HostSignals.Signals.Raise` | internal/kernel/process.go:294-310 | a signal below 64 joins those outstanding and leaves a token, SIGKILL kills instead, 64 leaves a token only |
| `HostSignals.Signals.Attach` | internal/kernel/process.go:321-335 | registering loses no outstanding signal and puts all where the guest looks |
| `HostSignals.Signals.Block` | internal/kernel/process.go:363-399 | block returns at the first arrival that ends the wait, for its reason, sleeps through all others, and returns at once for what was there before |
| `GuestSignals.StepInv` | wasm/libpgzero/src/signal.c:53-229 | every step of the guest and the host keeps the invariant |
| `GuestSignals.MasksAgree` | wasm/libpgzero/src/signal.c:53-66 | in every run the ignored mask is the one the dispositions imply, and SIGKILL and SIGSTOP are never blocked |
| `GuestSignals.HandlerStarts` | wasm/libpgzero/src/signal.c:84-119 | a handler starts only for a pending signal that is not blocked, with its mask and, unless SA_NODEFER, its own signal blocked, and nothing else added |
| `GuestSignals.FramesStay` | wasm/libpgzero/src/signal.c:84-136 | what a handler interrupts stays as it was, through any nesting |
| `GuestSignals.DispatchIsTransparent` | wasm/libpgzero/src/signal.c:121-136 | through any nesting of handlers that return, dispatch leaves the blocked mask as on entry and ends with nothing deliverable |
| `GuestSignals.DispatchReturns` | wasm/libpgzero/src/signal.c:121-136 | dispatch returns only after observing nothing deliverable |
| `GuestSignals.InterruptedCallDispatches` | wasm/libpgzero/src/internal.h:33-43 | a host call that returns EINTR begins a dispatch |
| `GuestSignals.InterruptedCallRunsHandler` | wasm/libpgzero/src/internal.h:33-43 | an interrupted blocking call that is back in the program has run at least one handler |
| `GuestSignals.SuspendIsTransparent` | wasm/libpgzero/src/signal.c:216-229 | sigsuspend leaves the mask it found |
| `SignalResults.MaskResult` | wasm/libpgzero/src/signal.c:172-201 | SIG_BLOCK adds the set, SIG_UNBLOCK takes it away, SIG_SETMASK replaces the mask, signal by signal; 9 and 19 are never blocked, and nothing else changes |
| `SignalResults.MaskDispatches` | wasm/libpgzero/src/signal.c:172-201 | a dispatch begins exactly if a pending signal is not blocked under the new mask |
| `SignalResults.ActionResult` | wasm/libpgzero/src/signal.c:138-157 | a new action is that of its signal alone; a pending signal is discarded exactly if its new action ignores it; signals without an action change nothing |
| `SignalResults.PickResult` | wasm/libpgzero/src/signal.c:121-136 | dispatch picks the lowest signal that is pending and not blocked, and returns exactly when there is none |
| `SignalResults.TakeResult` | wasm/libpgzero/src/signal.c:84-119 | a picked signal does nothing if ignored, or if default and 17, 23 or 28; ends the process if default otherwise; else its handler is called under exactly the saved mask, its own and, unless SA_NODEFER, its signal, and SA_RESETHAND makes it default |
| `SignalResults.NotLost` | wasm/libpgzero/src/signal.c:121-157 | in every run a signal that was sent is still pending unless it has been delivered, or discarded by an action that ignores it, since |
| `SignalResults.NotInvented` | wasm/libpgzero/src/signal.c:121-157 | in every run a pending signal was sent, and neither delivered nor discarded since |
| `GuestSignals.SigBlock.UpdateIgnored` | wasm/libpgzero/src/signal.c:53-66 | the loop computes the mask the dispositions imply |
| `GuestSignals.SigBlock.SetAction` | wasm/libpgzero/src/signal.c:138-157 | sigaction in place is the machine's step, refused exactly for signals without an action |
| `GuestSignals.SigBlock.ChangeMask` | wasm/libpgzero/src/signal.c:172-201 | sigprocmask in place sets the mask the machine has, returns the old one, and is refused exactly for an unknown way to change it |
| `GuestSignals.SigBlock.StartHandler` | wasm/libpgzero/src/signal.c:84-119 | run_handler up to the call is the machine's step |
| `WasmReadOnce.ReadOnceCommutes` | wasm/cmd/wasmlocalize/main.go:58-72 | if every byte to be patched is read once, the patched object parses to the same symbols with the local flag added on exactly the defined, global, named function and data symbols not kept |
| `WasmRoundTrip.RoundTrip` | wasm/internal/wasmobj/wasmobj.go:109-221 | of every object written, with sections and subsections in any order and numbers in any width, the reader returns exactly the symbols the object means, or fails as it means: an error for an unknown type form, kind or function index or without a linking section, a panic for a type index out of range |
| `WasmRoundTrip.ObjectSymbols` | wasm/internal/wasmobj/wasmobj.go:109-221 | an object of types, imports, functions and a symbol table is read if and only if all its symbols resolve; then there is one symbol for each, in order, with its kind, flags and name, the offset at which its flags are written, and, if it defines a function, the signature of the function its index names after the imported ones |
| `WasmRoundTrip.ReadImports` | wasm/internal/wasmobj/wasmobj.go:135-156 | the imports of every kind are skipped field by field, and exactly the functions among them are counted |
| `WasmLocalize.WithinBoundsIsReadOnce` | wasm/internal/wasmobj/wasmobj.go:78-98 | in an object whose parts stay within their bounds every byte to be patched is read once, whatever is kept |
| `WasmLocalize.LocalizingCommutes` | wasm/cmd/wasmlocalize/main.go:58-72 | the law on every object whose parts stay within their bounds, whichever bounds the patched one is read with |
| `WasmLocalize.LocalizedSymbols` | wasm/cmd/wasmlocalize/main.go:58-72 | afterwards a symbol is local exactly if it was or is a defined, named function or data symbol that is not kept; no other flag changes, nor its kind, name, place or signature |
| `WasmLocalize.BoundsMakeNoDifference` | wasm/internal/wasmobj/wasmobj.go:78-98 | on objects whose parts stay within their bounds the reader's looser bounds make no difference |
| `WasmOverrun.OverrunBreaksLocalizing` | wasm/internal/wasmobj/wasmobj.go:94-98 | an object the reader accepts, in which a patched byte is read twice, and whose patched form makes the reader panic |
| `WasmTool.Reader.ReadUleb` | wasm/internal/wasmobj/wasmobj.go:65-76 | the loop computes the value modulo 2^64 and moves past the varint |
| `WasmTool.Reader.ReadTypes` | wasm/internal/wasmobj/wasmobj.go:124-134 | the loop over types computes its definition |
| `WasmTool.Reader.ReadImports` | wasm/internal/wasmobj/wasmobj.go:135-156 | the loop over imports computes the count that `WasmRoundTrip.ReadImports` shows to be that of the functions |
| `WasmTool.Reader.ReadFuncs` | wasm/internal/wasmobj/wasmobj.go:157-161 | the loop over functions computes its definition |
| `WasmTool.Reader.ReadSymbols` | wasm/internal/wasmobj/wasmobj.go:174-213 | the loop over symbols computes its definition |
| `WasmTool.Reader.ReadLinking` | wasm/internal/wasmobj/wasmobj.go:162-214 | the loop over subsections computes its definition |
| `WasmTool.ReadAll` | wasm/internal/wasmobj/wasmobj.go:109-221 | the nested loops compute the symbols that `WasmRoundTrip.RoundTrip` shows to be those of the object |
| `WasmTool.Localize` | wasm/cmd/wasmlocalize/main.go:58-72 | the in-place loop patches exactly the selected flags and counts them, and if every patched byte is read once the result parses to the relabelled symbols |

## Left out

- ReadOnceCommutes: goes one way only. When a patched byte is read a second time, patching may be harmless all the same, as when it lies in the name of an import; what the second reading makes of it decides.
- OpenAt: permission bits and modification times are not modelled.
- WriteAt: what is written and what is there fit in memory together, as Go's slices guarantee; the largest slice that can be made is a parameter.
- NoLostWakeup: timeouts, signals and kills are a step that may leave the wait at any time; fairness of scheduling is not modelled, so the statements say which step is enabled.
- Finish: the steps of finish before the section (closing descriptors, detaching memory) are in the other modules; SIGCHLD and the notification after it are in HostSignals and Wakeup.
- Send: buffers are values, so the sharing of a backing array between the buffer and a write under way is not modelled.
- WriteLoop: what users call while the loop is without the lock, and what the connection does, are parameters, so a call of a user is not split; every interleaving is in Socket.
- RoundTrip: objects whose parts run past their bounds, or whose numbers do not fit in 64 bits, are not written by `WasmEncode`; the reader of them is in WasmOverrun and WasmReadOnce.
- Raise: masks are sets of numbers below 64.
- StartHandler: handlers that leave by longjmp are not modelled, nor is bit 64 in the guest's masks, which C leaves undefined.
- TruncateFile: whether the host has memory, and whether mmap succeeds, are parameters; page contents and file-backed segments are not modelled.
- PollRound: files other than pipes report what a parameter says; entry counts that overflow 32 bits are excluded.
- Overflow of counters and ids (segment ids, reference counts, semaphore counts).
- Host networking: bind, listen, connect, the accept queue, addresses, options and error numbers.
- Stdio pumps, host-backed files, the terminal and the log.
- Shutdown of a whole kernel and the forced teardown of a killed process.
- Growing guest memory and bounds of guest pointers.
- The shell's command parser and the redirections of spawn_command, which are sequences of dup2 and close over the tables of FdTables.
- The WASI world, the wasm engine, generated bindings, start-up, archives and build tools.
