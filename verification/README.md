# hf-mount in Dafny

hf-mount mounts a remote object store as a filesystem, with optional client-side encryption. This project
models its hard logic and proves what it is for. `dafny verify dfyconfig.toml` checks everything.

The model follows the program's parts:

- **Inode tree** (`Inodes`, `InodeOps`, `InodeMove`, `InodeWalk`, `InodeDirWalk`, `InodeEvict`, `InodeLru`,
  `InodeTable`, `InodeFrames`). The table keeps an inode map, a path index, child lists with name indexes, and link
  counts. One invariant says that they describe the same tree. The class `InodeTable` updates the maps in place; each
  method is proved equal to an operation on values, and the invariant is proved about those. Paths are sequences
  of components; `PathText` shows that '/'-joined strings behave in the same way.
- **Rename** (`Rename`, `VirtualFs`, `RenameAfter`, `Namesakes`). Checks, remote batch and local apply as one atomic step
  on table and Hub; what a later flush, removal, unlink or poll does to the renamed file and to the names it leaves.
- **Streaming commit** (`StagingLocks`, `Streaming`, `StreamInv`, `StreamSteps`, `StreamCommit`, `StreamReopen`,
  `StreamEffects`, `StreamTheorems`, `StreamFate`, `StreamGenerations`, `StreamPaths`, `StreamProgress`, `StreamRaces`,
  `StreamReuse`, `StreamRevert`, `StreamRevertRaces`, `StreamWait`). One inode, any number of channels and tasks, one step
  per mutex-protected section, every interleaving.
  Steps are functions on a state value; runs are sequences of states.
  Outcomes of the Hub, of uploads and of early returns are choices. Object hashes are represented by the content they
  name.
- **Background flush** (`Flush`, `FlushOps`). Writers, reopen, truncation, poll, collection of staging files and the single flusher
  as steps; the batch construction as loops.
- **Codecs and listings** (`Bits`, `Base91`, `Utf8`, `PathCipher`, `Listing`, `Content`). HCTR2 is a parameter: per
  tweak a length-preserving function with an inverse. The AEGIS random-access format is a parameter: a size read
  from the header and the decryption of a slot. UTF-8 is modelled as in section 4 of RFC 3629.
- **Caches** (`ReconCache`, `FileCache`, `HandlePool`) and the **event parser** (`Sse`), whose lossy decoding of a
  line is a parameter. `Prelude` holds the shared `Option` and `Byte`.

Clocks, the Hub's answers, file existence and downloads are parameters. Where the source iterates over a hash map
or a hash set, the model leaves the order open.

## What does not hold of the code, and when

- `unlink_one` breaks link counts on a directory (`InodeOps.UnlinkInvIff`), and two of its three callers can give it one.
  `unlink` checks the kind before it waits for the Hub, not when it removes the name (`Namesakes.UnlinkTakesSuccessor`).
  The poll removes an open file by name although the file may be an orphan and the name another's (src/virtual_fs/poll.rs:92;
  `InodeOps.PollRemovedIff`, `Namesakes.PollExample`).
- `remove` on an unlinked entry takes the path of a live file that reuses it (`InodeOps.RemoveUnlinkedIff`).
  `remove_orphan` avoids that; among the callers that do not are `revert_inode`, when the commit of a file fails that
  a rename has replaced meanwhile (src/virtual_fs/mod.rs:3591-3595), `revalidate_file` on a 404 (src/virtual_fs/mod.rs:863),
  and the poll, on an orphan that is closed but not yet reaped (src/virtual_fs/poll.rs:95). `RenameAfter.LateRemoveTakesPath`
  shows it for every rename over an open file, `RenameAfter.LateRemoveExample` on one table, and
  `InodeOps.PollRemovedIff` says when the poll does it.
- The comment in `streaming_commit` says that its owner check cannot go stale before the Hub call
  (src/virtual_fs/mod.rs:3615-3621). It can, because these take no lock or another inode's: a rename over the file
  (`StreamRaces.RenameOverRace`); a lookup that removes the inode after a late 404 (`StreamRaces.LateNotFoundRace`), or a
  `create` that removes it when it fails; an unlink that found another inode under the name, or a poll that drops an
  orphan of that name (`StreamRaces.NameTakenRace`; on the table, `Namesakes.UnlinkTakesRenamed` and
  `Namesakes.PollTakesNamesake`). The AddFile is sent for a linked file exactly when none of these has happened
  (`StreamTheorems.AddFileOwned`), and its result is applied to one exactly then (`StreamTheorems.CommitApplies`).
- The same comment says that a superseded channel does not commit. It does when its generation has been set back and
  given out again (`StreamReuse.ReusedGenerationRace`), and exactly then (`StreamGenerations.SupersededIff`).
- The comments at the snapshot and at `revert_inode` say that a failed commit goes back to the last committed state
  (src/virtual_fs/mod.rs:2205-2212, 3590). It does when the channel's snapshot is that state and nothing has reset the
  generation since the marking (`StreamRevert.RevertRestoresIff`), and the snapshot is that state in the cases that
  `StreamRevert.GoodMarkIff` lists exactly, over any chain of reopens (`StreamRevert.OrderlyRevertRestores`). It fails
  when a poll comes between snapshot and marking (`StreamRevertRaces.PolledSnapshotRace`), when a dirty file is reopened
  while its writer is being released, so that no active writer is found (`StreamRevertRaces.ParkedSnapshotRace`), and when
  the generation was reused (`StreamRevertRaces.ReusedRevertRace`).
- The AddFile goes to the path that the file had when the commit read it (`StreamPaths.AddPathRead`). A rename after that
  leaves the file clean under a path that the Hub does not have (`StreamRaces.RenamedMeanwhileRace`).
- A staging file can end up wrong and flagged as current in two ways: a reopen fails between truncating it and marking
  the inode, while a flush is between upload and apply (`FlushProtocol.FailedReopenRace`); or a truncation fails after it
  has made a new file in place of a collected one (`FlushProtocol.FailedResizeRace`). The flag is right exactly when
  neither has happened since the inode was last marked (`FlushProtocol.CleanIsCommitted`, `FlushProtocol.WrongIff`).
- A reopen decides under the staging lock and then downloads over the staging file, while a writer takes no lock: a write
  that is marked in between is lost, with every flag right (`FlushProtocol.OverwrittenWriteRace`,
  `FlushProtocol.OverwritesIff`).
- A rename checks again, when it is applied, that the source is in the table, not that its old name still leads to it.
  If it was unlinked or renamed meanwhile, the table breaks (`Namesakes.StaleMoveBreaks`).
- A rename whose batch is applied but reported as failed leaves table and Hub apart (`Rename.LostAnswer`).
- A flushed file is on the Hub exactly when no file of the batch names its path for deletion (`FlushOps.FlushedIff`).
  It fails for a file recreated under the old name of a renamed dirty file (`RenameAfter.RecreatedIsLost`,
  `RenameAfter.RecreatedExample`).
- The start-up scan of the file cache counts a file twice when its name appears in two shard directories
  (`FileCache.ScanTwice`); the total is right exactly when nothing with bytes is shadowed (`FileCache.ScanIff`). The
  surplus stays for good and takes its part of the capacity (`FileCache.FileCache.Publish`).
- The event parser drops empty `data` lines in front of the first non-empty one; the lines after it are joined in full
  (`Sse.EventBlock`).
- The comment on `update_subtree_paths` says that hard-linked inodes are skipped
  (src/virtual_fs/inode.rs:880-883). The code skips nothing; the model follows the code. An inode has one path.

## Model

| member | source | states |
|---|---|---|
| `Inodes.WalkIsIndex` | src/virtual_fs/inode.rs:570-579 | under the invariant the path index is exactly resolution of a path from inode 1, component by component: the attached inodes are a tree, and a path names at most one of them |
| `Inodes.PathsUnique` | src/virtual_fs/inode.rs:570-572 | two attached inodes never share a full path |
| `Inodes.WithoutInoAgrees` | src/virtual_fs/inode.rs:169-190 | removing a child by name or by inode takes the same edge out of the child list and the name index, and both still agree |
| `InodeOps.NewTableInv` | src/virtual_fs/inode.rs:277-320 | the fresh table holds the root alone, an empty directory that is its own parent, and satisfies the global invariant |
| `InodeOps.InsertInv` | src/virtual_fs/inode.rs:583-678 | inserting under a directory keeps the invariant. A path that is taken changes nothing and gives its inode. Otherwise the new inode has the given parent, name, path, kind and hash, two links as a directory and one otherwise, and nothing else; its parent gets the edge at the end of its list; every other inode is as it was |
| `InodeOps.RemoveInv` | src/virtual_fs/inode.rs:910-950 | removing an attached inode other than the root keeps the invariant and deletes exactly its subtree |
| `InodeOps.RemoveUnlinkedIff` | src/virtual_fs/inode.rs:932-950 | `remove` on an entry that is already unlinked keeps the invariant if and only if no live file has its path: the path mapping is dropped without asking whose it is |
| `RenameAfter.LateRemoveTakesPath` | src/virtual_fs/mod.rs:3591-3595 | for every rename over an open file: removing the replaced inode afterwards, as the revert of a failed commit does, takes the path of the live file and breaks the invariant |
| `RenameAfter.LateRemoveExample` | src/virtual_fs/inode.rs:932-950 | the same on a concrete table built by inserts |
| `InodeOps.UnlinkInvIff` | src/virtual_fs/inode.rs:952-979 | unlinking an edge keeps the invariant if and only if its target is not a directory |
| `InodeOps.PollRemovedIff` | src/virtual_fs/poll.rs:78-98 | dropping a file that is gone from the Hub keeps the invariant if and only if the file is dirty or still linked, or it is an open orphan whose name no directory has now, or a closed one whose path nobody has now |
| `Namesakes.PollTakesNamesake` | src/virtual_fs/poll.rs:86-93 | for every open orphan whose name another file has now: the poll takes that file's link and path, whatever its generation, and leaves its entry |
| `Namesakes.PollExample` | src/virtual_fs/poll.rs:78-98 | a concrete failing input: open `a`, unlink it while it is open, make a directory `a`; the next poll breaks the directory's link count |
| `Namesakes.UnlinkTakesRenamed` | src/virtual_fs/mod.rs:4305-4321 | for every rename of a file: an unlink that found the name's former owner takes the renamed file's link and path, whatever its generation, and leaves its entry |
| `Namesakes.UnlinkTakesSuccessor` | src/virtual_fs/mod.rs:4236-4308 | for every rename of a file and a directory made at its old name: an unlink that found the file breaks the directory's link count, since the kind is checked before the wait only |
| `InodeOps.RemoveOrphanInv` | src/virtual_fs/inode.rs:1026-1046 | removing an orphan keeps the invariant and never drops a path that a recreated file owns |
| `InodeOps.SubtreeChild` | src/virtual_fs/inode.rs:932-950 | a child belongs to a subtree exactly when its parent does or it is the top: child lists and path prefixes describe the same set |
| `InodeMove.MoveInv` | src/virtual_fs/inode.rs:985-1017 | cutting a subtree off and hanging it elsewhere with rebased paths keeps the invariant, provided the new parent is outside it and the name is free |
| `InodeMove.PrefixIndexed` | src/virtual_fs/inode.rs:570-572 | every prefix of an indexed path is indexed |
| `InodeWalk.PopPush` | src/virtual_fs/inode.rs:937-947 | popping an inode and pushing its children takes exactly that inode out of what a stack walk still covers; this is why the walks end and what they visit |
| `InodeDirWalk.DirPop` | src/virtual_fs/mod.rs:4699-4727 | the same for the walks that push directories only and deal with leaves on the spot |
| `InodeTable.InodeTable.constructor` | src/virtual_fs/inode.rs:277-320 | builds the fresh table, which satisfies the invariant |
| `InodeTable.InodeTable.InsertEntry` | src/virtual_fs/inode.rs:583-678 | the same of the in-place insert, field by field |
| `InodeTable.InodeTable.RemoveEntry` | src/virtual_fs/inode.rs:932-950 | the stack loop deletes from both maps exactly the inode and what is below it, returns the entry, and keeps the invariant for an attached inode other than the root |
| `InodeTable.InodeTable.UnlinkEntry` | src/virtual_fs/inode.rs:955-979 | one edge, one link and one path mapping go; the entry stays; missing parent and missing name are handled |
| `InodeTable.InodeTable.RemoveRemoteFile` | src/virtual_fs/poll.rs:78-98 | dirty and missing entries stay, an open file loses its name, another one its entry; with the exact condition for the invariant |
| `InodeTable.InodeTable.MoveEntry` | src/virtual_fs/inode.rs:985-1017 | rewrites the edge and the link counts of both parents |
| `InodeTable.InodeTable.UpdateSubtreePaths` | src/virtual_fs/inode.rs:884-904 | the recursion replaces the old prefix by the new one on exactly the attached subtree, in both maps, touches nothing else, and terminates because the tree has no cycle |
| `InodeTable.PartsCompose` | src/virtual_fs/inode.rs:899-903 | rebasing one child's subtree and then another's rebases both |
| `InodeTable.InodeTable.HasDirtyOrOpenDescendants` | src/virtual_fs/inode.rs:773-786 | true if and only if the inode or something below it has a dirty generation or open handles |
| `InodeTable.InodeTable.RemoveOrphanEntry` | src/virtual_fs/inode.rs:1028-1046 | removes an entry without links and keeps the invariant |
| `InodeFrames.RemoveFrame` | src/virtual_fs/inode.rs:932-950 | `remove` deletes what is at or below the path, and these paths; the parent loses one edge, and the link of a directory; every other entry and path is as it was |
| `InodeFrames.UnlinkFrame` | src/virtual_fs/inode.rs:955-979 | `unlink_one` takes one edge of the directory, one link of the target and its path; nothing else changes; the answer is the entry left and whether that was its last link |
| `InodeFrames.UnlinkNothing` | src/virtual_fs/inode.rs:955-979 | without such an edge it changes nothing and gives no answer |
| `InodeFrames.OrphanFrame` | src/virtual_fs/inode.rs:1028-1046 | `remove_orphan` removes an entry if and only if it has no links, and under the invariant no path |
| `InodeFrames.EvictFrame` | src/virtual_fs/inode.rs:497-522 | `evict_if_safe` evicts if and only if the inode is a linked, clean file that the kernel has forgotten, without pending deletes; then entry, edge and path go and the parent must list again; every other entry is as it was |
| `InodeTable.InodeTable.EvictEntry` | src/virtual_fs/inode.rs:497-522 | evicts only a clean, unreferenced, linked file without pending deletes, and keeps the invariant |
| `InodeEvict.EvictInv` | src/virtual_fs/inode.rs:497-522 | single eviction keeps the invariant |
| `InodeEvict.EvictEachIsSet` | src/virtual_fs/inode.rs:530-568 | evicting the eligible inodes one after the other gives the table that evicting them as a set gives, child order included |
| `InodeEvict.EvictedExactly` | src/virtual_fs/inode.rs:530-568 | an inode leaves the table if and only if it is among those tried and is a clean, closed, linked file that the kernel has forgotten, without pending deletes |
| `InodeTable.InodeTable.EvictBatchIfSafe` | src/virtual_fs/inode.rs:530-568 | the batch, in any iteration order of its hash maps, equals folding single eviction over the inodes without open handles, and returns exactly the evicted inodes, each once |
| `InodeLru.LruCandidates` | src/virtual_fs/inode.rs:432-462 | every pick is a linked, clean, closed file without pending deletes, oldest first; and where such a file is not picked, `max` others are, none touched later: what sorting all of them and truncating would return |
| `InodeLru.PushPop` | src/virtual_fs/inode.rs:440-453 | push, and pop of the newest on overflow, keeps the heap equal to the `max` least picks seen |
| `PathText.ChildPathAgrees` | src/virtual_fs/inode.rs:9-15 | `child_path` on '/'-joined text is appending a component |
| `PathText.JoinInjective` | src/virtual_fs/inode.rs:9-15 | a path of non-empty, slash-free components is determined by its text |
| `PathText.RebaseAgrees` | src/virtual_fs/mod.rs:4768-4771 | replacing the raw text prefix of a path below the renamed directory replaces its component prefix |
| `PathText.DescendantIff` | src/hub_api.rs:60-64 | on text, `strict_descendant_rel` succeeds exactly when the directory's components are a proper prefix of the path's, and returns the rest |
| `VirtualFs.VirtualFs.Rename` | src/virtual_fs/mod.rs:4484-4641 | the whole rename as one step. EINVAL, EEXIST, EISDIR, ENOTDIR, ENOTEMPTY and ENOENT each if and only if kinds, children, cycle and `noReplace` call for it, in the order of the code, with table and Hub unchanged; with `noReplace` another entry at the destination is never replaced; the same location changes nothing; otherwise the table is the moved one and the Hub has the moved files. The global invariant is kept, and so is the agreement of clean files with the Hub. A batch that the Hub reports as failed leaves the table alone; if it was applied all the same, the files have moved on the Hub and agreement holds for all other files but one at the new name |
| `VirtualFs.RefusalsMean` | src/virtual_fs/mod.rs:4644-4688 | which error the checks find, for every table and destination, over kinds, children and the place of the destination |
| `VirtualFs.VirtualFs.RenameEffects` | src/virtual_fs/mod.rs:4580-4641 | the same for the part after the checks |
| `VirtualFs.VirtualFs.RenameValidate` | src/virtual_fs/mod.rs:4644-4727 | each error if and only if its condition on kinds, children, cycle and `noReplace` holds and no earlier one does; otherwise describes source, destination and exactly the clean committed files below the source |
| `VirtualFs.VirtualFs.IsBelow` | src/virtual_fs/mod.rs:4660-4672 | the ancestor walk ends and answers whether the new parent lies in the subtree of the source |
| `VirtualFs.VirtualFs.DestinationConflict` | src/virtual_fs/mod.rs:4674-4688 | EEXIST if and only if there is a destination and `noReplace`; otherwise EISDIR, ENOTDIR and ENOTEMPTY if and only if the kinds differ that way or the directory to be replaced has children; nothing without a destination |
| `VirtualFs.VirtualFs.DescendantFiles` | src/virtual_fs/mod.rs:4690-4727 | the scan lists the path and hash of every clean committed file of the subtree exactly once, and nothing else |
| `VirtualFs.VirtualFs.RenameRemote` | src/virtual_fs/mod.rs:4743-4800 | all adds at rebased paths followed by all deletes of the old paths; for a single file an add and a delete if it is clean and committed, and nothing otherwise |
| `VirtualFs.VirtualFs.RenameApplyLocal` | src/virtual_fs/mod.rs:4805-4920 | checks source and destination again, with each error if and only if its condition holds and no change on any; otherwise clears the target, notes old paths of dirty committed files, and moves the subtree; returns the replaced orphan |
| `VirtualFs.VirtualFs.NoteOldPaths` | src/virtual_fs/mod.rs:4869-4900 | exactly the dirty committed files of the subtree get their old path appended to their pending deletes |
| `VirtualFs.VirtualFs.ReplaceTarget` | src/virtual_fs/mod.rs:4855-4867 | an empty directory is removed; another target loses its link and is dropped at once when it has no open handle |
| `VirtualFs.VirtualFs.MoveSubtree` | src/virtual_fs/mod.rs:4902-4906 | `remove_path`, `move_child` and `update_subtree_paths` together are the abstract move |
| `Rename.RenamedInv` | src/virtual_fs/mod.rs:4824-4905 | validate followed by apply keeps the global invariant |
| `InodeFrames.RenameFrame` | src/virtual_fs/mod.rs:4855-4906 | the local rename, entry by entry: the replaced target goes, or stays without links if it is open; what is below the source gets rebased paths, and its dirty committed files note the old one behind those they had; the two parents change in edges and link counts only, the new edge last; all other entries stay |
| `Rename.ClearedReady` | src/virtual_fs/mod.rs:4831-4866 | clearing the target leaves the source, its subtree and the new parent's path as they were: the target is never an ancestor of the source |
| `Rename.NewTopFree` | src/virtual_fs/mod.rs:4831-4851 | after the checks no indexed path starts with the new path: old and new prefixes cannot meet |
| `Rename.MoveChildShape` | src/virtual_fs/inode.rs:985-1017 | outside the subtree `move_child` does what detaching and adopting does, for equal and for different parents |
| `Rename.BatchMoves` | src/virtual_fs/mod.rs:4754-4776 | adds then deletes move the listed files and change no other Hub path |
| `Rename.RenameAgrees` | src/virtual_fs/mod.rs:4743-4785 | if every attached clean file with a hash is on the Hub under its path and hash before, the same holds after the batch and the local apply |
| `Rename.LostAnswer` | src/virtual_fs/mod.rs:4743-4798 | a batch that was applied although it is reported as failed keeps agreement if and only if there was no file to move, and in any case for every file outside the subtree but one at the new name |
| `Namesakes.StaleMoveBreaks` | src/virtual_fs/mod.rs:4826-4829 | if the source's old name does not lead to it any more when the rename is applied, because it was unlinked or renamed meanwhile, the move breaks the invariant, whatever the paths; the code checks only that the inode is in the table |
| `StagingLocks.OpsKeep` | src/virtual_fs/staging.rs:37-59 | getting, taking, releasing, dropping and forgetting locks keeps every reference equal to the registry entry, although the entry may be evicted and recreated |
| `StagingLocks.Exclusive` | src/virtual_fs/staging.rs:46-59 | two tasks never hold locks of one inode at the same time, be they the same or different lock objects |
| `StreamInv.InitInv` | src/virtual_fs/mod.rs:3830-3860 | the protocol invariant holds for a committed file and for a file just created with its first channel |
| `StreamInv.OthersKeep` | src/virtual_fs/mod.rs:4013-4055 | rely and guarantee: a task's assertions survive the steps of the others |
| `StreamCommit.CommitStepInv` | src/virtual_fs/mod.rs:3612-3728 | every section of `streaming_commit` keeps the protocol invariant |
| `StreamCommit.ReleaseInv` | src/virtual_fs/mod.rs:3416-3550 | every section of `release`, with its retry, revert, close and lock eviction, keeps it; what the revert leaves is in `StreamRevert` |
| `StreamCommit.CommitNowInv` | src/virtual_fs/mod.rs:4032-4055 | every section of the commit driven by flush and link keeps it |
| `StreamSteps.DeferInv` | src/virtual_fs/mod.rs:4013-4019 | every section of a deferral, which takes no lock, keeps it |
| `StreamReopen.ReopenInv` | src/virtual_fs/mod.rs:2198-2262 | every section of the O_TRUNC reopen and its supersede keeps it |
| `StreamReopen.UnlinkInv` | src/virtual_fs/mod.rs:4199-4330 | every section of unlink in streaming mode, on the inode whose lock it holds, keeps it |
| `StreamReopen.ActInv` | src/virtual_fs/mod.rs:846-863 | so does every other step: writes, the upload worker, polling, eviction, renames of the file and over it; and, at any generation and without the lock, lookup's removal after a late 404, the removal of the file's name by an unlink that holds another inode's lock or by a poll that drops an orphan of that name, and a reader's last close |
| `StreamReopen.RunInv` | src/virtual_fs/mod.rs:1299-1338 | the protocol invariant holds in every state of every run |
| `StreamTheorems.OneCommitter` | src/virtual_fs/staging.rs:37-59 | in every run at most one task is between taking and releasing the inode's lock |
| `StreamTheorems.HooksServed` | src/virtual_fs/mod.rs:1299-1338 | a receiver in `pending_commits` always belongs to a hook still set; with no task under way a terminal channel has no hook; with all handles closed as well nothing is pending |
| `StreamTheorems.NoLostWaiter` | src/virtual_fs/mod.rs:1342-1364 | if no task and no worker can move, every open that still waits does so for a channel that is not terminal and whose handle is still open |
| `StreamProgress.PathBounded` | src/virtual_fs/mod.rs:3612-3728 | every step of a task or a worker lowers a measure of the state, so that without new arrivals only boundedly many steps are left, whatever the schedule |
| `StreamProgress.ReleasedWaitEnds` | src/virtual_fs/mod.rs:1342-1364 | from any reachable state in which a channel's handle is released, every schedule of tasks and workers comes within that bound to a state in which none can move, and there no open waits for that channel |
| `StreamTheorems.RunSettles` | src/virtual_fs/mod.rs:5205-5220 | over any run terminal channel states never change, accepted writes are only appended to, and none is accepted once the commit has begun |
| `StreamTheorems.UploadComplete` | src/virtual_fs/mod.rs:5362-5399 | no data message follows a finish message; a successful answer and a parked upload are the in-order concatenation of exactly the accepted writes |
| `StreamTheorems.AddFileOwned` | src/virtual_fs/mod.rs:3622-3699 | an AddFile is sent under the lock with the accepted writes, and not past a newer generation; the file is then linked if and only if nothing has dropped it without the lock: no rename over it, no removal of its name for another inode's sake, no removal after a 404 or a failed create |
| `StreamTheorems.CommitApplies` | src/virtual_fs/mod.rs:3706-3714 | after the Hub has accepted, the generation check succeeds whenever the inode is still in the table, which then is clean and has the committed content; it is there and linked if and only if nothing has dropped it |
| `StreamPaths.AddPathRead` | src/virtual_fs/mod.rs:3677-3699 | an AddFile carries the path that the inode had in the state in which the commit read it, after which the commit has only waited: so it goes to the file's path exactly when the renames since led back to it |
| `StreamPaths.AddPathKept` | src/virtual_fs/mod.rs:3677-3699 | it goes to the path that the file has, or a rename has come in between |
| `StreamFate.CommittedFate` | src/virtual_fs/mod.rs:3612-3728 | in every run a channel that ends committed has either had an AddFile with exactly its accepted writes, in order, accepted by the Hub in some step, or its commit was given up in some step whose owner check found the file gone, unlinked, or not dirty with the channel's generation; never both, and no AddFile with other content was accepted for it |
| `StreamFate.AcceptedOnce` | src/virtual_fs/mod.rs:3699-3728 | over retries and several drivers, the Hub accepts at most one AddFile of a channel |
| `StreamGenerations.CheckIsExact` | src/virtual_fs/mod.rs:3622-3628 | in every run: as long as no commit and no revert has set the generation back since the channel was marked, the generation check tells exactly whether a newer writer has marked the inode since; and for the newest writer it tells exactly whether that has happened |
| `StreamGenerations.SupersededIff` | src/virtual_fs/mod.rs:3615-3628 | so a superseded channel sends an AddFile if and only if a commit or revert has set the generation back since it was marked |
| `StreamGenerations.RaisedBy` | src/virtual_fs/mod.rs:2244-2255 | the generation is raised only by the marking of a reopen, for its own channel |
| `StreamGenerations.LoweredBy` | src/virtual_fs/inode.rs:205-241 | it is lowered only by a commit that has it or by a revert, and then to zero |
| `StreamReuse.ReusedGenerationRace` | src/virtual_fs/mod.rs:3622-3714 | a concrete run from create to end: a release is held up; a second writer reopens and flushes, a third one reopens with the reused generation and writes; the old release then passes the owner check, its content replaces the second writer's on the Hub, and the third channel ends committed without its acknowledged bytes |
| `StreamRevert.RevertLeaves` | src/virtual_fs/mod.rs:3591-3607 | a revert removes a file that did not exist before, and otherwise leaves it clean with the hash of the channel's snapshot, at the same path and as linked |
| `StreamRevert.RevertRestoresIff` | src/virtual_fs/mod.rs:3591-3607 | in every run: if no commit and no other revert has come in since the channel was marked, its revert leaves the file as it was when it last was clean if and only if the snapshot of the marking was that |
| `StreamRevert.GoodMarkIff` | src/virtual_fs/mod.rs:2207-2255 | when that is so. A snapshot of a clean inode is that if and only if no poll has changed the hash up to the marking; of a dirty inode without an active writer, if and only if the last clean state had no hash; one inherited from an active writer whose generation was not reset, if and only if the writer's own was |
| `StreamRevert.OrderlyRevertRestores` | src/virtual_fs/mod.rs:2207-2255 | so over any chain of reopens and supersedes a revert restores the last clean state, if no poll came into a reopen's set-up, none found a dirty inode without an active writer, and no active generation was reset |
| `StreamRevertRaces.PolledSnapshotRace` | src/virtual_fs/mod.rs:2207-2255 | a concrete run: the poll changes the hash between snapshot and marking, and the revert brings the old hash back |
| `StreamRevertRaces.ParkedSnapshotRace` | src/virtual_fs/mod.rs:2207-2226 | a concrete run: a committed file's writer is being released when the file is reopened; no active writer is found and the dirty inode has no hash, so the second writer's revert leaves the file clean without its hash, which the Hub still has |
| `StreamRevertRaces.ReusedRevertRace` | src/virtual_fs/mod.rs:3591-3595 | a concrete run: a held-up release of a created file passes the owner check with a reused generation and fails; its revert removes a file that another writer has committed meanwhile |
| `StreamWait.ReopenWaits` | src/virtual_fs/mod.rs:1342-1364 | in every run: a reopen that finds a commit pending goes on only when that commit's channel is committed or failed |
| `StreamWait.UnlinkSpares` | src/virtual_fs/mod.rs:4265-4293 | in every run: an unlink that has passed its guard finds the file clean or without writing handles up to the removal of the name |
| `StreamWait.RevertsLast` | src/virtual_fs/mod.rs:3474-3516 | a release reverts only after a second attempt, or when the first has left no upload to retry with |
| `StreamRaces.RenameOverRace` | src/virtual_fs/mod.rs:4855-4867 | a concrete run in which the AddFile is sent for a file that rename has just unlinked: rename-over takes no lock |
| `StreamRaces.LateNotFoundRace` | src/virtual_fs/mod.rs:846-863 | a concrete run: a file is reopened for writing while lookup awaits its HEAD; the 404 removes the dirty inode between the commit's path read and its AddFile, which goes out for a file no longer in the table, with nothing renamed over it |
| `StreamRaces.NameTakenRace` | src/virtual_fs/mod.rs:4305-4321 | a concrete run: just before the AddFile the file's name is removed on behalf of the inode that had it before; nothing was renamed over the file and nothing removed it from the table |
| `StreamRaces.RenamedMeanwhileRace` | src/virtual_fs/mod.rs:3677-3714 | a concrete run: the file is renamed between path read and AddFile; it ends clean and linked under the new path, and the Hub has it under the old one only |
| `FlushProtocol.StepInv` | src/virtual_fs/flush.rs:337-416 | every step of writers, reopen, truncation, poll, collection and the flusher keeps the generation invariant, with the staging file read block by block while it changes |
| `FlushProtocol.RunInv` | src/virtual_fs/flush.rs:465-518 | the generation invariant holds in every state of every run |
| `FlushProtocol.CleanIsCommitted` | src/virtual_fs/inode.rs:205-241 | in every state of every run: a clean inode whose staging file is there and flagged current, with nobody between changing it and marking the inode, has a committed hash naming exactly the staging file, if and only if no failed reopen or truncation has spoiled it since the inode was last marked |
| `FlushProtocol.WrongIff` | src/virtual_fs/mod.rs:2119-2180 | from an unspoiled state a step ends in a wrong file that is trusted if and only if a reopen fails under which a commit was applied that the staging file does not match, or a truncation fails whose new staging file does not match the hash |
| `FlushProtocol.FailedReopenRace` | src/virtual_fs/mod.rs:2119-2180 | a concrete run: a reopen truncates the staging file and fails before it marks the inode, while a flush is between upload and apply; the file ends clean, flagged current, and wrong |
| `FlushProtocol.FailedResizeRace` | src/virtual_fs/mod.rs:4995-5036 | a concrete run without any flush: a staging file is collected, which leaves the flag, and a truncation makes an empty one and fails before it marks the inode; the file ends clean, flagged current, and wrong |
| `FlushProtocol.OverwritesIff` | src/virtual_fs/mod.rs:2097-2145 | while a reopen that found the inode clean prepares the staging file, what it is about to replace holds marked writes if and only if a writer, who takes no lock, has marked the inode since |
| `FlushProtocol.OverwrittenWriteRace` | src/virtual_fs/mod.rs:2097-2145 | a concrete run: a write is acknowledged and marked between the reopen's decision and its download, which takes its place; the file ends trusted with the old content and nothing has failed |
| `FlushProtocol.ReusedIsRight` | src/virtual_fs/mod.rs:2097-2118 | in every run: a reopen that keeps the staging file of a clean inode, with nothing spoiled and no write under way, does not truncate and starts from exactly what the committed hash names |
| `FlushOps.Dedup` | src/virtual_fs/flush.rs:320-323 | each requested inode once, ordered by the last request of each |
| `FlushOps.BuildOps` | src/virtual_fs/flush.rs:431-481 | an item is skipped if and only if its previous hash is the new one and it has no old path; each other item's path and hash are added, and nothing else; exactly the old paths are deleted; all adds before all deletes |
| `FlushOps.FlushedIff` | src/virtual_fs/flush.rs:429-491 | after the batch a flushed file is on the Hub under its path and new hash if and only if no file of the batch lists that path among its old ones, provided that the Hub had it under its previous hash, if it had one |
| `RenameAfter.RecreatedIsLost` | src/virtual_fs/mod.rs:4869-4900 | after a rename of a dirty committed file, the batch that flushes it leaves nothing at its old path, whatever else the batch adds there |
| `RenameAfter.RecreatedExample` | src/virtual_fs/flush.rs:431-481 | a concrete failing input: a dirty committed `f` becomes `g`, `f` is created again, both are flushed in one batch; `f` is added and then deleted |
| `FlushOps.FlushFrame` | src/virtual_fs/flush.rs:429-491 | other Hub paths are untouched |
| `Base91.Encode` | src/base91.rs:59-90 | the encoder loop, with its shifts and ors, writes the specified text, which decodes to the source and stays within the length bound |
| `Base91.Decode` | src/base91.rs:93-134 | the decoder loop computes the specified result; it reports an invalid character if and only if there is one |
| `Base91.WordFits` | src/base91.rs:65-78 | the encoder's bit buffer never overflows 32 bits |
| `Base91.PairFitsWord` | src/base91.rs:104-116 | nor does the decoder's |
| `Base91.RoundTrip` | src/base91.rs:59-134 | decoding an encoding gives the bytes back, for every byte string |
| `Base91.Simulation` | src/base91.rs:65-126 | both bit accumulators hold the same bit stream after every byte |
| `Base91.TailCompletes` | src/base91.rs:80-132 | the tail of 1 to 13 left-over bits is completed exactly, for one and for two symbols |
| `Base91.EncodeInjective` | src/base91.rs:59-90 | different byte strings have different encodings |
| `Base91.EncodedLength` | src/base91.rs:47-56 | the encoding is never longer than the upper bound, and not empty for non-empty input |
| `Base91.EncodedIsComponent` | src/base91.rs:59-90 | the encoding consists of alphabet characters: no slash, no NUL, ASCII only |
| `Base91.BlockWidest` | src/base91.rs:68-76 | a block takes 14 bits if and only if two symbols can hold it with the 14th bit set: the threshold 88 wastes nothing |
| `Base91.KnownText` | src/base91.rs:59-90 | `test` is encoded as `fPNKd`, as in standard basE91: alphabet and order of symbols |
| `PathCipher.FitsIff` | src/encryption/path.rs:158-172 | exactly names of at most 194 bytes fit; the padded input covers a block and twelve zero bytes |
| `PathCipher.PaddingIs` | src/encryption/path.rs:158-172 | the input is padded to the next multiple of 32 if that still fits a file name, and to exactly twelve bytes more than the name otherwise |
| `PathCipher.CheckNameLen` | src/encryption/path.rs:76-79 | accepts exactly the names of 1 to 194 bytes without NUL and slash; InvalidName and NameTooLong each if and only if the name is that |
| `PathCipher.EncryptComponent` | src/encryption/path.rs:112-123 | the base91 text of the encryption, under the parent path, of at least twelve zero bytes and the name, as many as the padding has; each error if and only if the name calls for it |
| `PathCipher.DecryptComponent` | src/encryption/path.rs:124-144 | gives a name if and only if the text decodes to at least 32 bytes that decrypt, under the parent path, to at least twelve zero bytes and that name, and the name is valid UTF-8 without NUL and slash |
| `PathCipher.OpensIff` | src/encryption/path.rs:124-144 | the same of the specification, for every cipher that keeps lengths |
| `PathCipher.StripLeadingNuls` | src/encryption/path.rs:174-180 | drops exactly the leading NULs |
| `PathCipher.ComponentRoundTrip` | src/encryption/path.rs:112-144 | a component decrypts to the name, for padded and for exact lengths |
| `PathCipher.StoredComponent` | src/encryption/path.rs:112-123 | a stored component is non-empty, slash-free, NUL-free and at most 255 bytes |
| `PathCipher.EncryptPath` | src/encryption/path.rs:83-94 | accepts exactly the paths whose components are all accepted, and reports the error of the first other one; every component is encrypted under the plaintext path above it |
| `PathCipher.TweaksAre` | src/encryption/path.rs:83-94 | component by component: the tweak is the plaintext path above, joined by slashes |
| `PathCipher.DecryptPath` | src/encryption/path.rs:98-110 | every component under the plaintext path decrypted so far; one failure drops the path |
| `PathCipher.DecryptsUnder` | src/encryption/path.rs:98-110 | a path decrypts to names if and only if each component decrypts to its name under the names above it |
| `PathCipher.PathRoundTrip` | src/encryption/path.rs:83-110 | decryption undoes encryption for every accepted path |
| `PathCipher.CipherRoundTrip` | src/encryption/path.rs:83-144 | the same for the cipher over any length-preserving tweakable permutation |
| `PathCipher.PrefixIff` | src/encryption/path.rs:83-94 | encryption is a hierarchy-preserving injection: a stored directory is a prefix of a stored path exactly when the directory is a prefix of the path |
| `Utf8.CutAtAscii` | src/encryption/path.rs:139-142 | cutting well-formed UTF-8 at an ASCII byte leaves well-formed pieces |
| `Listing.PrefixedPath` | src/hub_api.rs:712-744 | the mount prefix in front of the path, encrypted, below `.enc`; without a cipher the joined path itself; fails exactly on paths that cannot be encrypted |
| `Listing.DecryptListing` | src/hub_api.rs:749-775 | keeps, in order, the entries below `.enc` that decrypt, under their plaintext path |
| `Listing.ListTree` | src/hub_api.rs:936-974 | the three passes together; a missing root of an unscoped encrypted mount is an empty listing |
| `Listing.PassesCompose` | src/hub_api.rs:947-972 | the three passes are one pass with the three rewritings in turn |
| `Listing.BelowAgrees` | src/hub_api.rs:949-953 | strictly below the query means the same in stored and in plaintext coordinates |
| `Listing.EncryptedListingAgrees` | src/hub_api.rs:947-974 | an encrypting client lists exactly what a plaintext client would list for the same objects, in the same order, and never a foreign object |
| `Listing.ListedIff` | src/hub_api.rs:60-64 | a plaintext object is listed exactly when it is strictly below the query, under its path relative to the mount |
| `Content.ChunkCountIff` | src/encryption/content.rs:88-91 | a size is valid with n chunks exactly when it is the header length plus n slots |
| `Content.SizeTellsChunks` | src/encryption/content.rs:79-91 | the container size tells the number of chunks, and so bounds the plaintext to one chunk |
| `Content.PlanExact` | src/encryption/content.rs:112-139 | a plan exists exactly for valid sizes, lies inside the object, is a whole number of slots, and holds exactly the slots that the read meets; the saturating end never matters |
| `Content.ReadIo.ReadAt` | src/encryption/content.rs:168-186 | answers from header or slice, and fails without touching the buffer otherwise |
| `Content.RangedReadAgrees` | src/encryption/content.rs:112-186 | decrypting a ranged read through the fetched bytes gives what decrypting through the whole container gives, errors included; `ReadMeans` and `ReadFailsIff` say what that is |
| `Content.ReadMeans` | src/encryption/content.rs:168-186 | if the slots of a container decrypt to `p`, in order, and its header gives a size within it, a read gives the bytes of `p` between `offset` and `offset + len`, both cut at the size |
| `Content.ReadFailsIff` | src/encryption/content.rs:168-186 | a read fails if and only if the header does, or a slot that holds a byte of the range is missing or does not decrypt |
| `Content.EncReadState.EncryptedRead` | src/virtual_fs/mod.rs:2504-2553 | if the slots decrypt to `p` and the header gives `size`: the bytes of `p` in the range, cut at `size`, and the mark of a short read; fails if and only if the container's size, the header or a slot of the range does; also when the header comes from the handle's cache |
| `ReconCache.DeriveRangeResponse` | src/cached_xet_client.rs:105-143 | keeps exactly the overlapping terms and their xorbs, with the offset of the range in the first one |
| `ReconCache.DerivedRebuilds` | src/cached_xet_client.rs:105-143 | a derived plan rebuilds exactly the bytes of the range that the file has |
| `ReconCache.XorbsKept` | src/cached_xet_client.rs:131-137 | every kept term finds its xorb as the full plan has it |
| `ReconCache.DerivedEmptyIff` | src/cached_xet_client.rs:111-128 | a derived plan is empty exactly when the range starts past the end |
| `ReconCache.DerivedGood` | src/cached_xet_client.rs:216-226 | the past-the-end answer is given exactly past the end of the file, and every other derived answer is right |
| `ReconCache.CachedXetClient.TryGet` | src/cached_xet_client.rs:176-191 | a valid entry is touched and returned, an expired one dropped |
| `ReconCache.CachedXetClient.Check` | src/cached_xet_client.rs:172-231 | whatever the cache answers agrees with the backend; a fresh exact plan is given as it is, and otherwise a derived one is cut from the full plan; a miss means that neither is fresh |
| `ReconCache.CachedXetClient.Store` | src/cached_xet_client.rs:256-281 | keeps the cache within 4096 entries and in agreement with the backend; the new plan is in it and no other entry is new or changed; a full plan drops the range entries of its file and, below the limit, nothing else goes |
| `ReconCache.FullPlansLast` | src/cached_xet_client.rs:264-278 | a full plan is dropped on overflow only when no range entry is left, and then only the least recently used one |
| `ReconCache.CachedXetClient.LeadOrWait` | src/cached_xet_client.rs:235-244 | a caller leads exactly when no fetch of the key is under way, and one is afterwards; in the history of fetches no key is led twice without the first lead having ended |
| `ReconCache.CachedXetClient.FinishFetch` | src/cached_xet_client.rs:250-287 | the leader's fetch ends whether the backend answered or not; a plan it got is stored, otherwise the cache is unchanged; the fetch history stays single-flight |
| `ReconCache.LeadKeeps` | src/cached_xet_client.rs:235-244 | leading a key that is not in flight keeps the history single-flight and changes no other key's status |
| `ReconCache.EndKeeps` | src/cached_xet_client.rs:283-285 | so does ending a fetch |
| `Sse.SseParser.Push` | src/follow.rs:106-149 | one push returns the events and leaves the state that feeding the chunk byte by byte does |
| `Sse.EventBlock` | src/follow.rs:117-143 | an event line, data lines and a blank line dispatch exactly one event, with that name and the data values joined by newlines, counted from the first non-empty one, and leave nothing behind |
| `Sse.DataCollected` | src/follow.rs:135-140 | what the data lines of a block accumulate |
| `Sse.OnlyRelevant` | src/follow.rs:127-142 | wherever comments and other fields stand, events and fields are those of the lines without them |
| `Sse.BareLines` | src/follow.rs:130-144 | exactly one space after the colon is framing: without it the value is the same; a line that is only a field's name has an empty value |
| `Sse.LinesFeed` | src/follow.rs:106-149 | feeding a byte stream of complete lines is taking their decoded text line by line |
| `Sse.FeedPrefix` | src/follow.rs:106-149 | earlier events do not influence later ones |
| `Sse.ChunkingIrrelevant` | src/follow.rs:106-149 | for any cut of a stream into chunks, the concatenated results and the final state are those of one push of the whole stream |
| `FileCache.ScanExisting` | src/file_cache.rs:96-142 | one item per name, a total over all files, the largest tick |
| `FileCache.ScanIff` | src/file_cache.rs:96-142 | the scanned total is the sum of the items' sizes if and only if no file with bytes has a namesake found later |
| `FileCache.ScanTwice` | src/file_cache.rs:96-142 | a concrete failing input: one name in two shard directories, of 5 and 7 bytes, gives a total of 12 for an item of 7 |
| `FileCache.FileCache.constructor` | src/file_cache.rs:61-91 | the total is the sum of sizes and the bytes of shadowed files, a surplus that no operation changes; it is zero exactly under that condition; the clock is past every tick |
| `FileCache.FileCache.TryOpen` | src/file_cache.rs:167-184 | a hit becomes the strictly newest item; a vanished file is forgotten |
| `FileCache.FileCache.Forget` | src/file_cache.rs:187-195 | total and items stay in step, whatever the surplus |
| `FileCache.FileCache.Publish` | src/file_cache.rs:326-345 | also on re-insert the total stays the sum of sizes and the surplus; it ends within capacity or the cache ends empty; the new item is kept if and only if it fits beside the surplus, and otherwise everything goes |
| `FileCache.FileCache.FinishDownload` | src/file_cache.rs:299-345 | a wrong size is an error, a file over capacity is skipped, both without a change; anything else is published |
| `FileCache.FileCache.EvictLocked` | src/file_cache.rs:351-379 | the victims are the shortest prefix of the order of last access that brings items and surplus within capacity, or all items if none does |
| `FileCache.NewestStays` | src/file_cache.rs:351-379 | the strictly newest item stays if and only if it fits beside the surplus, and otherwise it is the last to go |
| `HandlePool.HandlePool.Insert` | src/nfs.rs:789-824 | the order stays a duplicate-free listing of the pool; the evicted are the first ones of the order, unpinned every one, and go only while the pool is full; at most 64 entries remain unless the least recently used one is pinned; every handle is pooled or handed back once |
| `HandlePool.HandlePool.AcquireShared` | src/nfs.rs:745-752 | counts one more user and moves the entry to the end of the order, the others keeping theirs |
| `HandlePool.HandlePool.Pin` | src/nfs.rs:731-735 | counts one more user; order unchanged |
| `HandlePool.HandlePool.Unpin` | src/nfs.rs:737-741 | counts one user fewer, never below zero |
| `HandlePool.HandlePool.Remove` | src/nfs.rs:761-765 | hands the handle back exactly once and takes the entry out of the order, the others keeping theirs |
| `HandlePool.HandlePool.Drain` | src/nfs.rs:768-774 | hands everything back exactly once and empties the pool |

## Left out

- HTTP, retries, tokens, mounting, the command line and the sidecar: plumbing with little state.
- The ciphers, key derivation and the AEGIS-RAF format: foreign code, taken as parameters; nothing is said about forged names.
- Loading directories from the Hub during rename, read-only mounts, overlay mode, filtered names, timestamps, modes and owners.
- VirtualFs.VirtualFs.Rename: validate and apply are one atomic step, because neither the cycle check nor the source's name is checked again under the write lock.
- VirtualFs.VirtualFs.RenameApplyLocal: takes as preconditions that the old name still leads to the source and that the move makes no cycle; for the first, `Namesakes.StaleMoveBreaks` shows that the invariant needs it.
- The window inside `create` between inserting the inode and registering its first channel: the protocol starts with that channel registered. Its removal of the inode on failure is covered as a removal without the lock.
- StreamTheorems.AddFileOwned: ownership is equality of generations; `StreamGenerations.SupersededIff` says what that is worth.
- StreamRevert.RevertRestoresIff: makes no promise when the generation was reset since the marking; `StreamRevertRaces.ReusedRevertRace` is such a run. Of a snapshot the model has the hash and whether the file existed, not size, times and pending deletes.
- StreamProgress.ReleasedWaitEnds: the bound is for the tasks already under way; new opens, the bound of the write queue and task cancellation are not part of it.
- The offset check and the worker's error slot in streaming writes: writes are accepted in more cases here than in the code.
- The disk budget that triggers the collection of staging files, and unlink during a background flush.
- FlushProtocol.CleanIsCommitted: says that the staging file is what was committed, not that every acknowledged write is in it; one file and one flusher; the encrypted staging container is not modelled.
- FlushOps.FlushedIff: for a batch that the Hub accepts; rename between a flush's snapshot and its apply is not modelled.
- StreamRaces.RenamedMeanwhileRace: the batch of a rename and its effect on the table are one step in the streaming protocol.
- The queued remote deletes of the flush loop, which are best effort.
- Saturation of the dirty generation, wrap-around of ticks: integers are unbounded there.
- ReconCache.CachedXetClient.Check: ranges with start at or past their end get no promise, and waiting for a leader is not modelled.
- The download half of the file cache and its single-flight map.
- HandlePool.HandlePool.Insert: pin counts are not tied to readers, since replacing a handle resets them.
- `parse_follow_event`, the prefetch buffer and the poll loop; polling appears as an update of a clean inode.
- The other direction of base91: `encode(decode(s))` need not be `s`.
