/** Operations that remove by name what they have found by number: between the two, or while an orphan keeps its old
    name, the name can come to another inode.  `unlink` waits for the Hub with the lock of the inode it found; the poll
    drops an open file by the parent and name in its entry, also when the file has been unlinked before. */
module Namesakes {
  import opened Prelude
  import opened Inodes
  import opened InodeOps
  import opened InodeMove
  import opened InodeEvict
  import opened InodeTable
  import opened Rename
  import opened RenameAfter

  // ---- The poll ----

  /** The file that has an open orphan's name now loses its link and its path, whatever its generation; the orphan stays
      as it is. */
  lemma PollTakesNamesake(t: Table, x: Ino, y: Ino)
    requires Inv(t) && x in t.inodes && t.inodes[x].nlink == 0 && !t.inodes[x].IsDirty() && t.inodes[x].openHandles > 0
    requires LookupChild(t, t.inodes[x].parent, t.inodes[x].name) == Some(y) && t.inodes[y].kind != Directory
    ensures var t' := PollRemoved(t, x);
            && Inv(t') && y in t'.inodes && t'.inodes[y] == t.inodes[y].(nlink := 0)
            && t.inodes[y].fullPath !in t'.paths && x in t'.inodes && t'.inodes[x] == t.inodes[x]
  {
    var d, n := t.inodes[x].parent, t.inodes[x].name;
    assert NodeOk(t, x) && NodeOk(t, d);
    UnlinkTakes(t, d, n, y);
    assert d != x;
  }

  // ---- Unlink after the name has changed hands ----

  /** Unlinking a name takes the file that has it now, whatever its generation, and leaves its entry. */
  lemma UnlinkTakes(t: Table, d: Ino, n: Name, y: Ino)
    requires Inv(t) && LookupChild(t, d, n) == Some(y) && t.inodes[y].kind != Directory
    ensures var t' := UnlinkOne(t, d, n).0;
            && Inv(t') && y in t'.inodes && t'.inodes[y] == t.inodes[y].(nlink := 0) && t.inodes[y].fullPath !in t'.paths
  {
    EdgePath(t, d, n);
    assert NodeOk(t, d) && EdgeOk(t, d, n) && NodeOk(t, y);
    UnlinkInvIff(t, d, n);
  }

  /** After any rename of a file, an unlink that found the name's former owner takes the renamed file. */
  lemma UnlinkTakesRenamed(t: Table, t': Table, i: Ino, np: Ino, nn: Name)
    requires RenameOk(t, i, np, nn) && t.inodes[i].kind == File && Renamed(t, t', i, np, nn)
    ensures LookupChild(t', np, nn) == Some(i) && t'.inodes[i].dirtyGeneration == t.inodes[i].dirtyGeneration
    ensures var t'' := UnlinkOne(t', np, nn).0;
            Inv(t'') && i in t''.inodes && t''.inodes[i] == t'.inodes[i].(nlink := 0) && NewTop(t, np, nn) !in t''.paths
  {
    PreparedReady(t, i, np, nn);
    var t2 := Prepared(t, i, np, nn);
    assert i in Subtree(t2, i);
    RenamedInv(t, t', i, np, nn);
    RenamedEntry(t, t', i, np, nn);
    UnlinkTakes(t', np, nn, i);
  }

  lemma RenamedEntry(t: Table, t': Table, i: Ino, np: Ino, nn: Name)
    requires RenameOk(t, i, np, nn) && Renamed(t, t', i, np, nn)
    ensures i in t'.inodes && t'.inodes[i].fullPath == NewTop(t, np, nn) && t'.inodes[i].kind == t.inodes[i].kind
    ensures t'.inodes[i].dirtyGeneration == t.inodes[i].dirtyGeneration
  {
    PreparedReady(t, i, np, nn);
    var t2 := Prepared(t, i, np, nn);
    assert i in Subtree(t2, i);
    var from := t2.inodes[i].fullPath;
    assert from[|from|..] == [];
  }

  /** A directory made where a file was: an unlink that still means the file breaks the link count. */
  lemma UnlinkTakesDirectory(t: Table, d: Ino, n: Name)
    requires Inv(t) && IsDir(t, d) && ChildPath(t.inodes[d].fullPath, n) !in t.paths
    ensures var t' := Insert(t, d, n, ChildPath(t.inodes[d].fullPath, n), Directory, None).0;
            Inv(t') && !Inv(UnlinkOne(t', d, n).0)
  {
    var p := ChildPath(t.inodes[d].fullPath, n);
    InsertInv(t, d, n, p, Directory, None);
    UnlinkInvIff(Insert(t, d, n, p, Directory, None).0, d, n);
  }

  /** So it is after every rename of a file: its old name is free for the directory. */
  lemma UnlinkTakesSuccessor(t: Table, t': Table, i: Ino, np: Ino, nn: Name)
    requires RenameOk(t, i, np, nn) && t.inodes[i].kind == File && Renamed(t, t', i, np, nn)
    ensures var d, n := t.inodes[i].parent, t.inodes[i].name;
            && IsDir(t', d) && ChildPath(t'.inodes[d].fullPath, n) == t.inodes[i].fullPath
            && var t'' := Insert(t', d, n, t.inodes[i].fullPath, Directory, None).0;
               Inv(t'') && !Inv(UnlinkOne(t'', d, n).0)
  {
    RenamedInv(t, t', i, np, nn);
    OldPathFree(t, t', i, np, nn);
    OldParentKept(t, t', i, np, nn);
    UnlinkTakesDirectory(t', t.inodes[i].parent, t.inodes[i].name);
  }

  lemma OldParentKept(t: Table, t': Table, i: Ino, np: Ino, nn: Name)
    requires RenameOk(t, i, np, nn) && t.inodes[i].kind == File && Renamed(t, t', i, np, nn)
    ensures var d := t.inodes[i].parent;
            IsDir(t', d) && ChildPath(t'.inodes[d].fullPath, t.inodes[i].name) == t.inodes[i].fullPath
  {
    PreparedReady(t, i, np, nn);
    var t2 := Prepared(t, i, np, nn);
    assert i in Subtree(t2, i) && NodeOk(t2, i);
    var d := t2.inodes[i].parent;
    FileIsLeaf(t2, i);
    RemoveInv(t2, i);
    RemoveShape(t2, i);
    KeptOutside(t2, Remove(t2, i), t', i, np, nn, d);
  }

  // ---- A rename applied to a source that has gone from its name ----

  /** `t'` has the edges and links that `move_child` gives; paths may be anything. */
  ghost predicate EdgesMoved(t: Table, t': Table, x: Ino, op: Ino, on: Name, np: Ino, nn: Name) {
    var m := MoveChild(t.inodes, x, op, on, np, nn);
    && t'.inodes.Keys == m.Keys
    && forall j :: j in m ==> t'.inodes[j] == m[j].(fullPath := t'.inodes[j].fullPath)
  }

  /** `rename_apply_local` checks again that the source is in the table, not that its old name still leads to it.  If it
      was unlinked meanwhile and is open, or was renamed meanwhile, the move breaks the invariant. */
  lemma StaleMoveBreaks(t: Table, t': Table, x: Ino, op: Ino, on: Name, np: Ino, nn: Name)
    requires Inv(t) && x in t.inodes && x != ROOT && x != np && np in t.inodes && nn !in t.inodes[np].childIndex
    requires LookupChild(t, op, on) != Some(x) && EdgesMoved(t, t', x, op, on, np, nn)
    ensures !Inv(t')
  {
    assert nn in t'.inodes[np].childIndex && t'.inodes[np].childIndex[nn] == x;
    if t'.inodes[x].nlink == 0 {
      assert !EdgeOk(t', np, nn);
      assert !NodeOk(t', np);
    } else {
      OldEdgeStays(t, t', x, op, on, np, nn);
    }
  }

  lemma OldEdgeStays(t: Table, t': Table, x: Ino, op: Ino, on: Name, np: Ino, nn: Name)
    requires Inv(t) && Attached(t, x) && x != ROOT && x != np && np in t.inodes && nn !in t.inodes[np].childIndex
    requires LookupChild(t, op, on) != Some(x) && EdgesMoved(t, t', x, op, on, np, nn)
    ensures !Inv(t')
  {
    var d, n := t.inodes[x].parent, t.inodes[x].name;
    assert NodeOk(t, x) && NodeOk(t, d);
    assert (d, n) != (op, on) && (d, n) != (np, nn);
    assert n in t'.inodes[d].childIndex && t'.inodes[d].childIndex[n] == x;
    assert !EdgeOk(t', d, n);
    assert !NodeOk(t', d);
  }

  // ---- It happens ----

  /** "a" is opened, unlinked, and a directory "a" is made; the next poll, which does not find "a" on the Hub, takes the
      directory's link. */
  lemma PollExample() returns (t: Table)
    ensures Inv(t) && 2 in t.inodes && t.inodes[2].kind == File && !t.inodes[2].IsDirty() && t.inodes[2].nlink == 0
    ensures t.inodes[2].openHandles > 0
    ensures LookupChild(t, ROOT, "a") == Some(3) && IsDir(t, 3) && !Inv(PollRemoved(t, 2))
  {
    var t0 := Insert(NewTable(), ROOT, "a", ["a"], File, Some("h")).0;
    OneFile("a", t0);
    var t1 := t0.(inodes := t0.inodes[2 := t0.inodes[2].(openHandles := 1)]);
    ShapeInv(t0, t1);
    assert LookupChild(t1, ROOT, "a") == Some(2);
    UnlinkTakes(t1, ROOT, "a", 2);
    t := MadeDirectory(UnlinkOne(t1, ROOT, "a").0);
    PollRemovedIff(t, 2);
  }

  lemma MadeDirectory(t: Table) returns (t': Table)
    requires Inv(t) && ["a"] !in t.paths && t.next == 3 && 2 in t.inodes && t.inodes[ROOT].fullPath == []
    ensures t' == Insert(t, ROOT, "a", ["a"], Directory, None).0
    ensures Inv(t') && LookupChild(t', ROOT, "a") == Some(3) && IsDir(t', 3) && 2 in t'.inodes && t'.inodes[2] == t.inodes[2]
  {
    assert NodeOk(t, ROOT);
    InsertInv(t, ROOT, "a", ["a"], Directory, None);
    t' := Insert(t, ROOT, "a", ["a"], Directory, None).0;
  }
}
