/** The rename operation on the live filesystem state: the inode table and the
    Hub's objects (src/virtual_fs/mod.rs). */
module VirtualFs {
  import opened Prelude
  import opened Inodes
  import opened InodeOps
  import opened InodeMove
  import opened InodeWalk
  import opened InodeEvict
  import opened InodeDirWalk
  import opened InodeTable
  import opened Rename

  class VirtualFs {
    const table: InodeTable
    var remote: Remote

    constructor ()
      ensures fresh(table) && Inv(table.View()) && remote == map[] && Agrees(table.View(), remote)
    {
      table := new InodeTable();
      remote := map[];
    }

    /** Rename `op/on` to `np/nn`.  `hub` is the Hub's answer to the batch, if one is sent; a batch may have been
        `applied` although the answer is an error. */
    method Rename(op: Ino, on: Name, np: Ino, nn: Name, noReplace: bool, hub: Option<Errno>, applied: bool)
      returns (r: Result<()>)
      requires Inv(table.View())
      modifies this`remote, table
      ensures Inv(table.View())
      ensures op == np && on == nn ==> r == Ok(()) && table.View() == old(table.View()) && remote == old(remote)
      ensures old(RenameError(table.View(), op, on, np, nn, noReplace)).Some? && !(op == np && on == nn) ==>
                && r == Err(old(RenameError(table.View(), op, on, np, nn, noReplace).value))
                && table.View() == old(table.View()) && remote == old(remote)
      ensures old(RenameError(table.View(), op, on, np, nn, noReplace)).None? && !(op == np && on == nn) ==>
                && old(LookupChild(table.View(), op, on)).Some? && old(IsDir(table.View(), np))
                && Outcome(old(table.View()), table.View(), old(LookupChild(table.View(), op, on)).value, np, nn, hub, applied,
                           old(remote), remote, r)
      ensures old(Agrees(table.View(), remote)) && (r.Ok? || remote == old(remote)) ==> Agrees(table.View(), remote)
      ensures forall s, x :: noReplace && s != x && old(LookupChild(table.View(), op, on)) == Some(s)
                             && old(LookupChild(table.View(), np, nn)) == Some(x) ==>
                !r.Ok? && table.View() == old(table.View()) && remote == old(remote)
      ensures forall s :: !(op == np && on == nn) && old(IsDir(table.View(), op) && IsDir(table.View(), np))
                          && old(LookupChild(table.View(), op, on)) == Some(s) ==>
                var cycle := old(table.inodes[s].kind == Directory && np in Subtree(table.View(), s));
                var x := old(LookupChild(table.View(), np, nn));
                var sourceDir := old(table.inodes)[s].kind == Directory;
                var targetDir := x.Some? && old(table.inodes)[x.value].kind == Directory;
                && (hub != Some(EINVAL) ==> (r == Err(EINVAL) <==> cycle))
                && (hub != Some(EEXIST) ==> (r == Err(EEXIST) <==> !cycle && x.Some? && noReplace))
                && (hub != Some(EISDIR) ==> (r == Err(EISDIR) <==> !cycle && x.Some? && !noReplace && !sourceDir && targetDir))
                && (hub != Some(ENOTDIR) ==> (r == Err(ENOTDIR) <==> !cycle && x.Some? && !noReplace && sourceDir && !targetDir))
                && (hub != Some(ENOTEMPTY) ==> (r == Err(ENOTEMPTY) <==>
                      !cycle && !noReplace && sourceDir && targetDir && old(table.inodes)[x.value].children != []))
                && (hub != Some(ENOENT) ==> r != Err(ENOENT))
      ensures !(op == np && on == nn) && old(!IsDir(table.View(), op) || !IsDir(table.View(), np)) ==>
                r == Err(if op !in old(table.inodes) then ENOENT
                         else if old(table.inodes)[op].kind != Directory then ENOTDIR
                         else if np !in old(table.inodes) then ENOENT else ENOTDIR)
      ensures (!(op == np && on == nn) && old(IsDir(table.View(), op) && IsDir(table.View(), np)
                                              && LookupChild(table.View(), op, on).None?)) ==> r == Err(ENOENT)
    {
      ghost var t := table.View();
      RefusalsMean(t, op, on, np, nn, noReplace);
      if op == np && on == nn {
        return Ok(());
      }
      var e := CheckDirectory(op);
      if e.Some? {
        return Err(e.value);
      }
      if op != np {
        e := CheckDirectory(np);
        if e.Some? {
          return Err(e.value);
        }
      }
      var v := RenameValidate(op, on, np, nn, noReplace);
      if v.Err? {
        return Err(v.error);
      }
      ValidatedOk(t, op, on, np, nn, noReplace);
      r := RenameEffects(v.value, op, on, np, nn, noReplace, hub, applied);
    }

    /** The Hub's part of a valid rename, and then the table's. */
    method RenameEffects(info: RenameInfo, op: Ino, on: Name, np: Ino, nn: Name, noReplace: bool, hub: Option<Errno>,
                         applied: bool)
      returns (r: Result<()>)
      requires Inv(table.View()) && RenameOk(table.View(), info.ino, np, nn) && Describes(table.View(), info, np, nn)
      requires LookupChild(table.View(), op, on) == Some(info.ino)
      requires Conflict(table.View(), info.kind, np, nn, noReplace).None?
      modifies this`remote, table
      ensures Inv(table.View())
      ensures Outcome(old(table.View()), table.View(), info.ino, np, nn, hub, applied, old(remote), remote, r)
      ensures old(Agrees(table.View(), remote)) && (r.Ok? || remote == old(remote)) ==> Agrees(table.View(), remote)
    {
      ghost var t := table.View();
      MovedFilesListed(t, info, np, nn);
      var ops := RenameRemote(info);
      assert ops != [] <==> MovedFiles(info) != [];
      if ops != [] {
        if hub.None? || applied {
          remote := ApplyBatch(remote, ops);
        }
        if hub.Some? {
          FailedBatch(t, info, np, nn, old(remote), remote, applied);
          return Err(hub.value);
        }
      }
      var _ := RenameApplyLocal(info, op, on, np, nn, noReplace);
      r := Ok(());
      RenamedInv(t, table.View(), info.ino, np, nn);
      RenameAgrees(t, table.View(), info.ino, np, nn, MovedFiles(info), old(remote));
    }

    /** The error half of `ensure_children_loaded`. */
    method CheckDirectory(d: Ino) returns (e: Option<Errno>)
      ensures e == DirError(table.View(), d)
    {
      if d !in table.inodes {
        return Some(ENOENT);
      } else if table.inodes[d].kind != Directory {
        return Some(ENOTDIR);
      }
      return None;
    }

    method RenameValidate(op: Ino, on: Name, np: Ino, nn: Name, noReplace: bool) returns (r: Result<RenameInfo>)
      requires Inv(table.View()) && IsDir(table.View(), np)
      ensures match ValidateError(table.View(), op, on, np, nn, noReplace)
              case Some(e) => r == Err(e)
              case None => r.Ok? && LookupChild(table.View(), op, on) == Some(r.value.ino)
                           && Describes(table.View(), r.value, np, nn)
      ensures r == Err(ENOENT) <==> LookupChild(table.View(), op, on).None?
      ensures forall s :: LookupChild(table.View(), op, on) == Some(s) ==>
                var cycle := table.inodes[s].kind == Directory && np in Subtree(table.View(), s);
                var x := LookupChild(table.View(), np, nn);
                && (r == Err(EINVAL) <==> cycle)
                && (r == Err(EEXIST) <==> !cycle && x.Some? && noReplace)
                && (r == Err(EISDIR) <==> !cycle && x.Some? && !noReplace
                                          && table.inodes[s].kind != Directory && table.inodes[x.value].kind == Directory)
                && (r == Err(ENOTDIR) <==> !cycle && x.Some? && !noReplace
                                           && table.inodes[s].kind == Directory && table.inodes[x.value].kind != Directory)
                && (r == Err(ENOTEMPTY) <==> !cycle && x.Some? && !noReplace && table.inodes[s].kind == Directory
                                             && table.inodes[x.value].kind == Directory && table.inodes[x.value].children != [])
                && (r.Err? ==> r.error in {EINVAL, EEXIST, EISDIR, ENOTDIR, ENOTEMPTY})
    {
      ghost var t := table.View();
      if op !in table.inodes || on !in table.inodes[op].childIndex || table.inodes[op].childIndex[on] !in table.inodes {
        return Err(ENOENT);
      }
      var i := table.inodes[op].childIndex[on];
      var src := table.inodes[i];
      EdgePath(t, op, on);
      var newFullPath := ChildPath(table.inodes[np].fullPath, nn);
      if src.kind == Directory {
        var cycle := IsBelow(np, i);
        if cycle {
          return Err(EINVAL);
        }
      }
      var e := DestinationConflict(src.kind, np, nn, noReplace);
      if e.Some? {
        return Err(e.value);
      }
      var files := [];
      if src.kind == Directory {
        files := DescendantFiles(i);
      }
      r := Ok(RenameInfo(i, src.fullPath, src.kind, src.hash, src.IsDirty(), newFullPath, files));
    }

    /** The ancestor walk: is `i` on the way from `np` to the root? */
    method IsBelow(np: Ino, i: Ino) returns (r: bool)
      requires Inv(table.View()) && IsDir(table.View(), np) && Attached(table.View(), i) && i != ROOT
      ensures r <==> np in Subtree(table.View(), i)
    {
      ghost var t := table.View();
      assert NodeOk(t, np);
      var ancestor := np;
      while ancestor != ROOT
        invariant Attached(t, ancestor)
        invariant np in Subtree(t, i) <==> ancestor in Subtree(t, i)
        decreases |t.inodes[ancestor].fullPath|
      {
        if ancestor == i {
          return true;
        }
        assert NodeOk(t, ancestor);
        SubtreeChild(t, i, t.inodes[ancestor].parent, t.inodes[ancestor].name);
        assert NodeOk(t, t.inodes[ancestor].parent);
        if ancestor in table.inodes {
          ancestor := table.inodes[ancestor].parent;
        } else {
          break;
        }
      }
      RootOutside(t, i);
      return false;
    }

    method DestinationConflict(kind: Kind, np: Ino, nn: Name, noReplace: bool) returns (e: Option<Errno>)
      ensures e == Conflict(table.View(), kind, np, nn, noReplace)
      ensures e.Some? ==> e.value in {EEXIST, EISDIR, ENOTDIR, ENOTEMPTY}
      ensures e == Some(EEXIST) <==> noReplace && LookupChild(table.View(), np, nn).Some?
      ensures forall x :: LookupChild(table.View(), np, nn) == Some(x) && !noReplace ==>
                && (e == Some(EISDIR) <==> kind != Directory && table.inodes[x].kind == Directory)
                && (e == Some(ENOTDIR) <==> kind == Directory && table.inodes[x].kind != Directory)
                && (e == Some(ENOTEMPTY) <==> kind == Directory && table.inodes[x].kind == Directory
                                              && table.inodes[x].children != [])
      ensures LookupChild(table.View(), np, nn).None? ==> e == None
    {
      if np !in table.inodes || nn !in table.inodes[np].childIndex || table.inodes[np].childIndex[nn] !in table.inodes {
        return None;
      }
      var existing := table.inodes[table.inodes[np].childIndex[nn]];
      if noReplace {
        return Some(EEXIST);
      }
      match (kind, existing.kind) {
        case (File, Directory) => return Some(EISDIR);
        case (Symlink, Directory) => return Some(EISDIR);
        case (Directory, File) => return Some(ENOTDIR);
        case (Directory, Symlink) => return Some(ENOTDIR);
        case (Directory, Directory) =>
          if existing.children != [] {
            return Some(ENOTEMPTY);
          }
        case _ =>
      }
      return None;
    }

    /** The clean committed files below `i`, collected with a stack of directories. */
    method DescendantFiles(i: Ino) returns (files: seq<(Path, Hash)>)
      requires Inv(table.View()) && Attached(table.View(), i) && IsDir(table.View(), i)
      ensures FilesListed(table.View(), Subtree(table.View(), i), files)
      ensures forall p, h :: (p, h) in files <==> (exists j :: (
                && j in table.inodes && j in Subtree(table.View(), i) && table.inodes[j].fullPath == p
                && table.inodes[j].kind == File && table.inodes[j].dirtyGeneration == 0 && table.inodes[j].hash == Some(h)))
    {
      ghost var t := table.View();
      files := [];
      var stack := [i];
      SingleCover(t, i);
      ghost var seen: set<Ino> := {};
      while stack != []
        invariant Known(t, stack) && Apart(t, stack) && AllDirs(t, stack)
        invariant seen + Cover(t, stack) == Subtree(t, i) && seen !! Cover(t, stack)
        invariant FilesListed(t, seen, files)
        decreases Cover(t, stack)
      {
        DirPop(t, stack);
        var d := stack[|stack| - 1];
        stack := stack[..|stack| - 1];
        if d in table.inodes {
          DirectoryListsNothing(t, seen, d, files);
          seen := seen + {d};
          ghost var kids := Inos(t.inodes[d].children);
          files, stack := ListChildren(d, files, stack, seen);
          seen := seen + Leaves(t, kids);
        }
      }
      ListedMeans(t, i, files);
    }

    /** One directory of the scan: its clean files are listed, its directories pushed. */
    method ListChildren(d: Ino, files0: seq<(Path, Hash)>, stack0: seq<Ino>, ghost seen: set<Ino>)
      returns (files: seq<(Path, Hash)>, stack: seq<Ino>)
      requires Inv(table.View()) && d in table.inodes && FilesListed(table.View(), seen, files0)
      requires seen !! Leaves(table.View(), Inos(table.inodes[d].children))
      ensures var kids := Inos(table.inodes[d].children);
              && stack == stack0 + Dirs(table.View(), kids)
              && FilesListed(table.View(), seen + Leaves(table.View(), kids), files)
    {
      ghost var t := table.View();
      files, stack := files0, stack0;
      var children := table.inodes[d].children;
      ghost var kids := Inos(children);
      assert seen + Leaves(t, kids[..0]) == seen;
      for k := 0 to |children|
        invariant stack == stack0 + Dirs(t, kids[..k])
        invariant FilesListed(t, seen + Leaves(t, kids[..k]), files)
      {
        assert kids[..k + 1][..k] == kids[..k];
        LeafNext(t, d, k, seen, files);
        var c := children[k].ino;
        if c in table.inodes {
          var child := table.inodes[c];
          if child.kind == File && !child.IsDirty() && child.hash.Some? {
            files := files + [(child.fullPath, child.hash.value)];
          } else if child.kind == Directory {
            stack := stack + [c];
          }
        }
      }
      assert kids[..|kids|] == kids;
    }

    /** The batch: all adds, then all deletes. */
    method RenameRemote(info: RenameInfo) returns (ops: seq<BatchOp>)
      ensures ops == AddOps(MovedFiles(info), info.oldPath, info.newFullPath) + DeleteOps(MovedFiles(info))
      ensures info.kind != Directory ==>
                ops == if info.kind == File && !info.isDirty && info.hash.Some?
                       then [AddFile(info.newFullPath, info.hash.value), DeleteFile(info.oldPath)] else []
    {
      if info.kind == File && !info.isDirty && info.hash.Some? {
        ops := [AddFile(info.newFullPath, info.hash.value), DeleteFile(info.oldPath)];
        assert info.oldPath[|info.oldPath|..] == [];
        assert MovedPath(info.oldPath, info.oldPath, info.newFullPath) == info.newFullPath;
      } else if info.kind == Directory && info.descendantFiles != [] {
        ops := [];
        var deletes := [];
        var files := info.descendantFiles;
        for k := 0 to |files|
          invariant ops == AddOps(files[..k], info.oldPath, info.newFullPath)
          invariant deletes == DeleteOps(files[..k])
        {
          assert files[..k + 1][..k] == files[..k];
          var suffix := if info.oldPath <= files[k].0 then files[k].0[|info.oldPath|..] else files[k].0;
          ops := ops + [AddFile(info.newFullPath + suffix, files[k].1)];
          deletes := deletes + [DeleteFile(files[k].0)];
        }
        assert files[..|files|] == files;
        ops := ops + deletes;
      } else {
        ops := [];
      }
    }
  
    /** Rewrites the table.  The source and the destination are checked once more; that the destination
        is not below the source is not, so the caller must know it. */
    method RenameApplyLocal(info: RenameInfo, op: Ino, on: Name, np: Ino, nn: Name, noReplace: bool)
      returns (r: Result<Option<Ino>>)
      requires Inv(table.View())
      requires info.ino in table.inodes ==> StillValid(table.View(), info, op, on, np, nn)
      modifies table
      ensures var t := old(table.View());
              if info.ino !in t.inodes then r == Err(ENOENT) && table.View() == t
              else if LookupChild(t, np, nn) == Some(info.ino) then r == Ok(None) && table.View() == t
              else if Conflict(t, info.kind, np, nn, noReplace).Some? then
                r == Err(Conflict(t, info.kind, np, nn, noReplace).value) && table.View() == t
              else
                r == Ok(ReplacedOrphan(t, np, nn)) && RenameOk(t, info.ino, np, nn)
                && Renamed(t, table.View(), info.ino, np, nn)
      ensures r.Err? ==> table.View() == old(table.View())
      ensures r == Err(ENOENT) <==> info.ino !in old(table.inodes)
      ensures forall x :: old(LookupChild(table.View(), np, nn)) == Some(x) && x != info.ino && info.ino in old(table.inodes) ==>
                && (r == Err(EEXIST) <==> noReplace)
                && (r == Err(EISDIR) <==> !noReplace && info.kind != Directory && old(table.inodes)[x].kind == Directory)
                && (r == Err(ENOTDIR) <==> !noReplace && info.kind == Directory && old(table.inodes)[x].kind != Directory)
                && (r == Err(ENOTEMPTY) <==> !noReplace && info.kind == Directory && old(table.inodes)[x].kind == Directory
                                             && old(table.inodes)[x].children != [])
                && (r.Err? ==> r.error in {EEXIST, EISDIR, ENOTDIR, ENOTEMPTY})
      ensures old(LookupChild(table.View(), np, nn)).None? && info.ino in old(table.inodes) ==> r.Ok?
    {
      ghost var t := table.View();
      var i := info.ino;
      if i !in table.inodes {
        return Err(ENOENT);
      }
      SourceAttached(t, op, on, i);
      var replaced := None;
      if np in table.inodes && nn in table.inodes[np].childIndex && table.inodes[np].childIndex[nn] in table.inodes {
        var existing := table.inodes[np].childIndex[nn];
        if existing == i {
          return Ok(None);
        }
        var e := DestinationConflict(info.kind, np, nn, noReplace);
        if e.Some? {
          return Err(e.value);
        }
        replaced := ReplaceTarget(existing, np, nn, i);
      }
      PreparedReady(t, i, np, nn);
      NoteOldPaths(info);
      MoveSubtree(i, info.oldPath, info.newFullPath, op, on, np, nn);
      return Ok(replaced);
    }

    method MoveSubtree(i: Ino, oldPath: Path, newFullPath: Path, op: Ino, on: Name, np: Ino, nn: Name)
      requires Inv(table.View()) && MoveOk(table.View(), i, np, nn)
      requires oldPath == table.inodes[i].fullPath && newFullPath == NewTop(table.View(), np, nn)
      requires op == table.inodes[i].parent && on == table.inodes[i].name
      modifies table
      ensures MovedTo(old(table.View()), table.View(), i, np, nn)
    {
      ghost var t := table.View();
      MoveEdge(i, oldPath, op, on, np, nn);
      ghost var m := table.inodes;
      NewPathsAreFree(t, i, np, nn);
      table.UpdateSubtreePaths(i, newFullPath, t, i, newFullPath);
      MoveComplete(t, i, np, nn, m, table.View());
    }

    method MoveEdge(i: Ino, oldPath: Path, op: Ino, on: Name, np: Ino, nn: Name)
      requires Inv(table.View()) && MoveOk(table.View(), i, np, nn)
      requires oldPath == table.inodes[i].fullPath && op == table.inodes[i].parent && on == table.inodes[i].name
      modifies table
      ensures old(EdgeMoved(table.View(), Remove(table.View(), i), MoveChild(table.inodes, i, op, on, np, nn), i, np, nn))
      ensures table.inodes == old(MoveChild(table.inodes, i, op, on, np, nn))
      ensures table.paths == old(table.paths) - {oldPath} && table.next == old(table.next)
      ensures StillOld(old(table.View()), i, table.inodes)
    {
      ghost var t := table.View();
      table.paths := table.paths - {oldPath};
      table.MoveEntry(i, op, on, np, nn);
      MoveStarts(t, i, np, nn);
    }

    method ReplaceTarget(x: Ino, np: Ino, nn: Name, ghost i: Ino) returns (replaced: Option<Ino>)
      requires RenameOk(table.View(), i, np, nn) && LookupChild(table.View(), np, nn) == Some(x)
      modifies table
      ensures table.View() == Replaced(old(table.View()), np, nn)
      ensures replaced == ReplacedOrphan(old(table.View()), np, nn)
    {
      ghost var t := table.View();
      replaced := None;
      if table.inodes[x].kind == Directory {
        var _ := table.RemoveEntry(x);
      } else {
        ClearsFile(t, np, nn, x);
        var _ := table.UnlinkEntry(np, nn);
        if x !in table.inodes || table.inodes[x].openHandles == 0 {
          var removed := table.RemoveOrphanEntry(x);
          if removed {
            replaced := Some(x);
          }
        }
      }
    }

    /** Dirty committed files that move note their old path, to be deleted when they are flushed. */
    method NoteOldPaths(info: RenameInfo)
      requires Inv(table.View()) && Attached(table.View(), info.ino)
      requires var e := table.inodes[info.ino];
               info.kind == e.kind && info.hash == e.hash && info.isDirty == e.IsDirty() && info.oldPath == e.fullPath
      modifies table`inodes
      ensures table.View() == Noted(old(table.View()), info.ino)
    {
      ghost var t := table.View();
      var i := info.ino;
      if info.kind != Directory { FileIsLeaf(t, i); }
      if info.isDirty && info.kind == File && info.hash.Some? && i in table.inodes {
        table.inodes := table.inodes[i := table.inodes[i].(pendingDeletes := table.inodes[i].pendingDeletes + [info.oldPath])];
      }
      if info.kind == Directory {
        NoteDescendants(i);
      }
      assert table.inodes == NotedBy(t, Subtree(t, i));
    }

    method NoteDescendants(i: Ino)
      requires Inv(table.View()) && Attached(table.View(), i) && IsDir(table.View(), i)
      modifies table`inodes
      ensures table.inodes == NotedBy(old(table.View()), old(Subtree(table.View(), i)))
    {
      ghost var t := table.View();
      var stack := [i];
      SingleCover(t, i);
      ghost var seen: set<Ino> := {};
      assert table.inodes == NotedBy(t, seen);
      while stack != []
        invariant Known(t, stack) && Apart(t, stack) && AllDirs(t, stack)
        invariant seen + Cover(t, stack) == Subtree(t, i) && seen !! Cover(t, stack)
        invariant table.inodes == NotedBy(t, seen)
        decreases Cover(t, stack)
      {
        DirPop(t, stack);
        var d := stack[|stack| - 1];
        stack := stack[..|stack| - 1];
        seen := seen + {d};
        assert table.inodes == NotedBy(t, seen);
        ghost var kids := Inos(t.inodes[d].children);
        stack := NoteChildren(d, stack, t, seen);
        seen := seen + Leaves(t, kids);
      }
    }

    method NoteChildren(d: Ino, stack0: seq<Ino>, ghost t: Table, ghost seen: set<Ino>) returns (stack: seq<Ino>)
      requires Inv(t) && d in t.inodes && table.inodes == NotedBy(t, seen)
      requires seen !! Leaves(t, Inos(t.inodes[d].children))
      modifies table`inodes
      ensures var kids := Inos(t.inodes[d].children);
              stack == stack0 + Dirs(t, kids) && table.inodes == NotedBy(t, seen + Leaves(t, kids))
    {
      stack := stack0;
      var children := if d in table.inodes then table.inodes[d].children else [];
      ghost var kids := Inos(children);
      assert seen + Leaves(t, kids[..0]) == seen;
      for k := 0 to |children|
        invariant stack == stack0 + Dirs(t, kids[..k])
        invariant table.inodes == NotedBy(t, seen + Leaves(t, kids[..k]))
      {
        ghost var noted := NoteNext(t, d, k, seen, table.inodes);
        ghost var pushed := DirsNext(t, d, k, stack0);
        stack := NoteChild(children[k].ino, stack, t, noted, pushed);
      }
      assert kids[..|kids|] == kids;
    }

    /** `noted` and `pushed` are what one child must lead to. */
    method NoteChild(c: Ino, stack0: seq<Ino>, ghost t: Table, ghost noted: map<Ino, Entry>, ghost pushed: seq<Ino>)
      returns (stack: seq<Ino>)
      requires c in t.inodes && c in table.inodes && table.inodes[c].kind == t.inodes[c].kind
      requires !IsDir(t, c) ==> table.inodes[c] == t.inodes[c]
      requires noted == if DirtyRemote(t.inodes[c]) then table.inodes[c := PushOldPath(t.inodes[c])] else table.inodes
      requires pushed == stack0 + if IsDir(t, c) then [c] else []
      modifies table`inodes
      ensures table.inodes == noted && stack == pushed
    {
      stack := stack0;
      if c in table.inodes {
        var child := table.inodes[c];
        if child.kind == File && child.IsDirty() && child.hash.Some? {
          table.inodes := table.inodes[c := PushOldPath(child)];
        } else if child.kind == Directory {
          stack := stack + [c];
        }
      }
    }
  }

  /** Listed are the clean committed files, under their paths. */
  lemma ListedMeans(t: Table, i: Ino, files: seq<(Path, Hash)>)
    requires Inv(t) && i in t.inodes && FilesListed(t, Subtree(t, i), files)
    ensures forall p, h :: (p, h) in files <==> (exists j :: (
              && j in t.inodes && j in Subtree(t, i) && t.inodes[j].fullPath == p
              && t.inodes[j].kind == File && t.inodes[j].dirtyGeneration == 0 && t.inodes[j].hash == Some(h)))
  {
    forall p, h | Listed(t, Subtree(t, i), p, h)
      ensures exists j :: (
                && j in t.inodes && j in Subtree(t, i) && t.inodes[j].fullPath == p
                && t.inodes[j].kind == File && t.inodes[j].dirtyGeneration == 0 && t.inodes[j].hash == Some(h))
    {
      assert PathOk(t, p);
    }
    forall j | j in t.inodes && j in Subtree(t, i) && t.inodes[j].kind == File && t.inodes[j].dirtyGeneration == 0
               && t.inodes[j].hash.Some?
      ensures Listed(t, Subtree(t, i), t.inodes[j].fullPath, t.inodes[j].hash.value)
    {
      assert NodeOk(t, j);
    }
  }

  /** The errors over kinds, children and the place of the destination. */
  lemma RefusalsMean(t: Table, op: Ino, on: Name, np: Ino, nn: Name, noReplace: bool)
    requires Inv(t)
    ensures forall s :: IsDir(t, op) && IsDir(t, np) && LookupChild(t, op, on) == Some(s) ==>
              var cycle := t.inodes[s].kind == Directory && np in Subtree(t, s);
              var x, e := LookupChild(t, np, nn), RenameError(t, op, on, np, nn, noReplace);
              var sourceDir, targetDir := t.inodes[s].kind == Directory, x.Some? && t.inodes[x.value].kind == Directory;
              && (e == Some(EINVAL) <==> cycle)
              && (e == Some(EEXIST) <==> !cycle && x.Some? && noReplace)
              && (e == Some(EISDIR) <==> !cycle && x.Some? && !noReplace && !sourceDir && targetDir)
              && (e == Some(ENOTDIR) <==> !cycle && x.Some? && !noReplace && sourceDir && !targetDir)
              && (e == Some(ENOTEMPTY) <==> !cycle && !noReplace && sourceDir && targetDir && t.inodes[x.value].children != [])
              && e != Some(ENOENT)
    ensures !IsDir(t, op) || !IsDir(t, np) ==>
              RenameError(t, op, on, np, nn, noReplace) ==
              Some(if op !in t.inodes then ENOENT else if t.inodes[op].kind != Directory then ENOTDIR
                   else if np !in t.inodes then ENOENT else ENOTDIR)
    ensures IsDir(t, op) && IsDir(t, np) && LookupChild(t, op, on).None? ==>
              RenameError(t, op, on, np, nn, noReplace) == Some(ENOENT)
    ensures LookupChild(t, op, on).Some? ==> IsDir(t, op)
    ensures LookupChild(t, np, nn).Some? ==> IsDir(t, np)
  {
    if op in t.inodes { assert NodeOk(t, op); }
    if np in t.inodes { assert NodeOk(t, np); }
  }

  /** What `RenameValidate` found out about the source and the destination. */
  ghost predicate Describes(t: Table, info: RenameInfo, np: Ino, nn: Name) {
    && info.ino in t.inodes && np in t.inodes
    && info.oldPath == t.inodes[info.ino].fullPath && info.newFullPath == NewTop(t, np, nn)
    && info.kind == t.inodes[info.ino].kind && info.hash == t.inodes[info.ino].hash
    && info.isDirty == t.inodes[info.ino].IsDirty()
    && (info.kind == Directory ==> FilesListed(t, Subtree(t, info.ino), info.descendantFiles))
  }

  ghost predicate StillValid(t: Table, info: RenameInfo, op: Ino, on: Name, np: Ino, nn: Name) {
    && info.ino in t.inodes && np in t.inodes
    && info.oldPath == t.inodes[info.ino].fullPath && info.newFullPath == NewTop(t, np, nn)
    && info.kind == t.inodes[info.ino].kind && info.hash == t.inodes[info.ino].hash
    && info.isDirty == t.inodes[info.ino].IsDirty()
    && LookupChild(t, op, on) == Some(info.ino) && IsDir(t, np) && np !in Subtree(t, info.ino)
  }

  /** The inode that a rename replaces and drops at once. */
  function ReplacedOrphan(t: Table, np: Ino, nn: Name): (r: Option<Ino>) {
    match LookupChild(t, np, nn)
    case None => None
    case Some(x) => if t.inodes[x].kind != Directory && t.inodes[x].openHandles == 0 then Some(x) else None
  }

  /** The whole effect of a rename on the table and the Hub. */
  ghost predicate Moved(t: Table, t': Table, i: Ino, np: Ino, nn: Name, r: Remote, r': Remote)
    requires i in t.inodes && np in t.inodes
  {
    Renamed(t, t', i, np, nn) && RemotelyMoved(t, i, np, nn, r, r')
  }

  /** The clean files of the subtree have moved on the Hub, and nothing else. */
  ghost predicate RemotelyMoved(t: Table, i: Ino, np: Ino, nn: Name, r: Remote, r': Remote)
    requires i in t.inodes && np in t.inodes
  {
    exists files :: FilesListed(t, Subtree(t, i), files)
                    && RemoteMoved(r, r', files, t.inodes[i].fullPath, NewTop(t, np, nn))
  }

  /** What a rename that passed its checks comes to.  If the Hub reports a failure of the batch, nothing changes when the
      batch was not applied; when it was, the files have moved on the Hub alone. */
  ghost predicate Outcome(t: Table, t': Table, i: Ino, np: Ino, nn: Name, hub: Option<Errno>, applied: bool,
                          r: Remote, r': Remote, result: Result<()>)
    requires i in t.inodes && np in t.inodes
  {
    if hub.Some? && MovesClean(t, i)
    then result == Err(hub.value) && t' == t && if applied then AnswerLost(t, i, np, nn, r, r') else r' == r
    else result == Ok(()) && Moved(t, t', i, np, nn, r, r')
  }

  /** Agreement is gone then; but only files of the subtree, and a file at the new name, can differ. */
  ghost predicate AnswerLost(t: Table, i: Ino, np: Ino, nn: Name, r: Remote, r': Remote)
    requires i in t.inodes && np in t.inodes
  {
    && RemotelyMoved(t, i, np, nn, r, r')
    && (Agrees(t, r) ==> !Agrees(t, r') && AgreesElsewhere(t, r', i, np, nn))
  }

  lemma FailedBatch(t: Table, info: RenameInfo, np: Ino, nn: Name, r: Remote, r': Remote, applied: bool)
    requires Inv(t) && Describes(t, info, np, nn) && RenameOk(t, info.ino, np, nn)
    requires MovedFiles(info) != [] && FilesListed(t, Subtree(t, info.ino), MovedFiles(info))
    requires var ops := AddOps(MovedFiles(info), info.oldPath, info.newFullPath) + DeleteOps(MovedFiles(info));
             r' == if applied then ApplyBatch(r, ops) else r
    ensures applied ==> AnswerLost(t, info.ino, np, nn, r, r')
  {
    if applied {
      LostAnswer(t, info.ino, np, nn, MovedFiles(info), r);
    }
  }

  lemma ValidatedOk(t: Table, op: Ino, on: Name, np: Ino, nn: Name, noReplace: bool)
    requires Inv(t) && IsDir(t, np) && ValidateError(t, op, on, np, nn, noReplace).None? && !(op == np && on == nn)
    ensures var i := LookupChild(t, op, on).value;
            RenameOk(t, i, np, nn)
  {
    var i := LookupChild(t, op, on).value;
    EdgePath(t, op, on);
    assert NodeOk(t, op) && EdgeOk(t, op, on);
    if t.inodes[i].kind != Directory { FileIsLeaf(t, i); }
    if LookupChild(t, np, nn) == Some(i) { OneEdge(t, op, on, np, nn); }
  }

  lemma OneEdge(t: Table, op: Ino, on: Name, np: Ino, nn: Name)
    requires Inv(t) && LookupChild(t, op, on).Some? && LookupChild(t, op, on) == LookupChild(t, np, nn)
    ensures op == np && on == nn
  {
    assert NodeOk(t, op) && EdgeOk(t, op, on);
    assert NodeOk(t, np) && EdgeOk(t, np, nn);
  }

  lemma SourceAttached(t: Table, op: Ino, on: Name, i: Ino)
    requires Inv(t) && LookupChild(t, op, on) == Some(i)
    ensures Attached(t, i) && i != ROOT && t.inodes[i].parent == op && t.inodes[i].name == on
  {
    assert NodeOk(t, op) && EdgeOk(t, op, on);
  }

  lemma MoveStarts(t: Table, i: Ino, np: Ino, nn: Name)
    requires Inv(t) && MoveOk(t, i, np, nn)
    ensures var m := MoveChild(t.inodes, i, t.inodes[i].parent, t.inodes[i].name, np, nn);
            EdgeMoved(t, Remove(t, i), m, i, np, nn) && StillOld(t, i, m)
  {
    MoveChildShape(t, i, np, nn);
  }

  lemma MovedFilesListed(t: Table, info: RenameInfo, np: Ino, nn: Name)
    requires Inv(t) && Describes(t, info, np, nn) && Attached(t, info.ino)
    ensures FilesListed(t, Subtree(t, info.ino), MovedFiles(info))
    ensures MovedFiles(info) != [] <==> exists p, h :: Listed(t, Subtree(t, info.ino), p, h)
  {
    var i := info.ino;
    if info.kind != Directory {
      FileIsLeaf(t, i);
      assert NodeOk(t, i);
      forall p, h | Listed(t, Subtree(t, i), p, h)
        ensures (p, h) in MovedFiles(info)
      {
        assert PathOk(t, p);
      }
    }
    if MovedFiles(info) != [] {
      var f := MovedFiles(info)[0];
      assert (f.0, f.1) in MovedFiles(info);
    }
  }

  /** Something on the Hub moves with `op/on`. */
  ghost predicate MovesClean(t: Table, i: Ino)
    requires i in t.inodes
  {
    exists p, h :: Listed(t, Subtree(t, i), p, h)
  }

  lemma DirectoryListsNothing(t: Table, s: set<Ino>, d: Ino, files: seq<(Path, Hash)>)
    requires IsDir(t, d) && FilesListed(t, s, files)
    ensures FilesListed(t, s + {d}, files)
  {
  }

  /** The next child, if it is a leaf, has not been seen, and is listed if it is clean. */
  lemma LeafNext(t: Table, d: Ino, k: nat, seen: set<Ino>, files: seq<(Path, Hash)>)
    requires Inv(t) && d in t.inodes && k < |t.inodes[d].children|
    requires var kids := Inos(t.inodes[d].children);
             seen !! Leaves(t, kids) && FilesListed(t, seen + Leaves(t, kids[..k]), files)
    ensures var kids := Inos(t.inodes[d].children);
            && kids[k] in t.inodes
            && var e := t.inodes[kids[k]];
               FilesListed(t, seen + Leaves(t, kids[..k + 1]),
                           if IsClean(e) then files + [(e.fullPath, e.hash.value)] else files)
  {
    var kids := Inos(t.inodes[d].children);
    KidKnown(t, d, k);
    var c := kids[k];
    var s, s' := seen + Leaves(t, kids[..k]), seen + Leaves(t, kids[..k + 1]);
    assert kids[..k + 1] == kids[..k] + [c];
    KidsDistinct(t, d, k);
    if IsDir(t, c) {
      assert s' == s;
    } else {
      assert s' == s + {c};
      assert c in Leaves(t, kids);
      assert NodeOk(t, c);
      OneMoreListed(t, s, c, files);
    }
  }

  lemma OneMoreListed(t: Table, s: set<Ino>, c: Ino, files: seq<(Path, Hash)>)
    requires Inv(t) && Attached(t, c) && c !in s && FilesListed(t, s, files)
    ensures var e := t.inodes[c];
            FilesListed(t, s + {c}, if IsClean(e) then files + [(e.fullPath, e.hash.value)] else files)
  {
    assert NodeOk(t, c);
    var e := t.inodes[c];
    var files' := if IsClean(e) then files + [(e.fullPath, e.hash.value)] else files;
    forall p, h
      ensures (p, h) in files' <==> Listed(t, s + {c}, p, h)
    {
      if p in t.paths { assert PathOk(t, p); }
    }
    forall a | 0 <= a < |files|
      ensures files[a].0 != e.fullPath
    {
      assert (files[a].0, files[a].1) in files;
    }
  }

  lemma NoteNext(t: Table, d: Ino, k: nat, seen: set<Ino>, m: map<Ino, Entry>) returns (m': map<Ino, Entry>)
    requires Inv(t) && d in t.inodes && k < |t.inodes[d].children|
    requires var kids := Inos(t.inodes[d].children);
             seen !! Leaves(t, kids) && m == NotedBy(t, seen + Leaves(t, kids[..k]))
    ensures var kids := Inos(t.inodes[d].children);
            && kids[k] in t.inodes && kids[k] in m && m[kids[k]].kind == t.inodes[kids[k]].kind
            && (!IsDir(t, kids[k]) ==> m[kids[k]] == t.inodes[kids[k]])
            && m' == NotedBy(t, seen + Leaves(t, kids[..k + 1]))
            && m' == (if DirtyRemote(t.inodes[kids[k]]) then m[kids[k] := PushOldPath(t.inodes[kids[k]])] else m)
  {
    var kids := Inos(t.inodes[d].children);
    KidKnown(t, d, k);
    var c := kids[k];
    assert kids[..k + 1] == kids[..k] + [c];
    assert kids[..k + 1][..k] == kids[..k];
    KidsDistinct(t, d, k);
    if IsDir(t, c) {
      assert Leaves(t, kids[..k + 1]) == Leaves(t, kids[..k]);
    } else {
      assert Leaves(t, kids[..k + 1]) == Leaves(t, kids[..k]) + {c};
      assert c in Leaves(t, kids);
    }
    m' := NotedBy(t, seen + Leaves(t, kids[..k + 1]));
  }

  lemma DirsNext(t: Table, d: Ino, k: nat, stack0: seq<Ino>) returns (stack: seq<Ino>)
    requires d in t.inodes && k < |t.inodes[d].children|
    ensures var kids := Inos(t.inodes[d].children);
            && stack == stack0 + Dirs(t, kids[..k + 1])
            && stack == stack0 + Dirs(t, kids[..k]) + if IsDir(t, kids[k]) then [kids[k]] else []
  {
    var kids := Inos(t.inodes[d].children);
    assert kids[..k + 1][..k] == kids[..k];
    stack := stack0 + Dirs(t, kids[..k + 1]);
  }
}
