/** What a rename leaves behind for later operations that do not know about it. */
module RenameAfter {
  import opened Prelude
  import opened Inodes
  import opened InodeOps
  import opened InodeMove
  import opened InodeEvict
  import opened Rename
  import opened FlushOps

  // ---- The old path is created again before the flush ----

  /** The flush item of an inode. */
  ghost function ItemOf(t: Table, i: Ino): (f: FlushItem)
    requires i in t.inodes
  {
    var e := t.inodes[i];
    FlushItem(i, e.fullPath, e.pendingDeletes, e.dirtyGeneration, e.hash)
  }

  /** A renamed dirty committed file remembers its old path. */
  lemma RenamedRemembers(t: Table, t': Table, i: Ino, np: Ino, nn: Name)
    requires RenameOk(t, i, np, nn) && DirtyRemote(t.inodes[i]) && Renamed(t, t', i, np, nn)
    ensures i in t'.inodes && t'.inodes[i].fullPath == NewTop(t, np, nn)
    ensures t.inodes[i].fullPath in t'.inodes[i].pendingDeletes
  {
    PreparedReady(t, i, np, nn);
    var t2 := Prepared(t, i, np, nn);
    assert i in Subtree(t, i) && i in Subtree(t2, i);
    assert t2.inodes[i] == PushOldPath(Replaced(t, np, nn).inodes[i]);
    var from := t2.inodes[i].fullPath;
    assert from[|from|..] == [];
  }

  /** The old path is free after the rename. */
  lemma OldPathFree(t: Table, t': Table, i: Ino, np: Ino, nn: Name)
    requires RenameOk(t, i, np, nn) && Renamed(t, t', i, np, nn)
    ensures t.inodes[i].fullPath !in t'.paths
  {
    PreparedReady(t, i, np, nn);
    var t2 := Prepared(t, i, np, nn);
    var p := t.inodes[i].fullPath;
    assert i in Subtree(t, i) && NodeOk(t2, i);
    if p in t'.paths {
      if t'.paths[p] in Subtree(t2, i) { NewTopFree(t2, i, np, nn, p); }
    }
  }

  /** The batch that flushes a renamed dirty committed file leaves nothing at its old path: a file created there and
      flushed in the same batch is deleted right after its own add. */
  lemma RecreatedIsLost(t: Table, t': Table, i: Ino, np: Ino, nn: Name, items: seq<FlushItem>, hashes: seq<Hash>, r: Remote)
    requires RenameOk(t, i, np, nn) && DirtyRemote(t.inodes[i]) && Renamed(t, t', i, np, nn)
    requires |items| == |hashes| && ItemOf(t', i) in items
    ensures t.inodes[i].fullPath !in ApplyBatch(r, Adds(items, hashes) + DeletesOf(OldPathsOf(items)))
  {
    RenamedRemembers(t, t', i, np, nn);
    var p := t.inodes[i].fullPath;
    var k :| 0 <= k < |items| && items[k] == ItemOf(t', i);
    OldPathListed(items, k, p);
    BatchAppend(r, Adds(items, hashes), DeletesOf(OldPathsOf(items)));
    DeletesReach(ApplyBatch(r, Adds(items, hashes)), OldPathsOf(items));
  }

  lemma {:induction false} OldPathListed(items: seq<FlushItem>, k: nat, p: Path)
    requires k < |items| && p in items[k].pendingDeletes
    ensures p in OldPathsOf(items)
  {
    var n := |items| - 1;
    if k < n {
      OldPathListed(items[..n], k, p);
    }
  }

  // ---- The replaced file is removed late ----

  /** A rename replaces a file that is still open: the file stays in the table without links, under the path that
      now belongs to the renamed one.  `remove` on it then takes the path of the live file. */
  lemma LateRemoveTakesPath(t: Table, t': Table, i: Ino, np: Ino, nn: Name, x: Ino)
    requires RenameOk(t, i, np, nn) && Renamed(t, t', i, np, nn)
    requires LookupChild(t, np, nn) == Some(x) && t.inodes[x].kind != Directory && t.inodes[x].openHandles > 0
    ensures Inv(t') && InPaths(t'.paths, NewTop(t, np, nn), i)
    ensures x in t'.inodes && NewTop(t, np, nn) !in Remove(t', x).paths && !Inv(Remove(t', x))
  {
    PreparedReady(t, i, np, nn);
    var t2 := Prepared(t, i, np, nn);
    ReplacedStays(t, i, np, nn, x);
    RenamedInv(t, t', i, np, nn);
    UnlinkedKept(t2, t', i, np, nn, x);
    TopIndexed(t2, t', i, np, nn);
    TakesPath(t', x, i);
  }

  lemma TopIndexed(t: Table, t': Table, i: Ino, np: Ino, nn: Name)
    requires Inv(t) && MoveOk(t, i, np, nn) && MovedTo(t, t', i, np, nn)
    ensures InPaths(t'.paths, NewTop(t, np, nn), i)
  {
    assert i in Subtree(t, i);
    var from := t.inodes[i].fullPath;
    assert from[|from|..] == [];
    assert MovedEntry(t, i, np, nn, i).fullPath == NewTop(t, np, nn);
    assert InPaths(t'.paths, MovedEntry(t, i, np, nn, i).fullPath, i);
  }

  lemma TakesPath(t: Table, x: Ino, i: Ino)
    requires Inv(t) && x in t.inodes && t.inodes[x].nlink == 0 && InPaths(t.paths, t.inodes[x].fullPath, i)
    ensures t.inodes[x].fullPath !in Remove(t, x).paths && !Inv(Remove(t, x))
  {
    RemoveUnlinkedIff(t, x);
    assert x in Doomed(t, x);
  }

  /** The replaced file keeps its entry, without links, and its path. */
  lemma ReplacedStays(t: Table, i: Ino, np: Ino, nn: Name, x: Ino)
    requires RenameOk(t, i, np, nn) && i in Replaced(t, np, nn).inodes
    requires LookupChild(t, np, nn) == Some(x) && t.inodes[x].kind != Directory && t.inodes[x].openHandles > 0
    ensures var t2 := Prepared(t, i, np, nn);
            && x in t2.inodes && t2.inodes[x].nlink == 0 && t2.inodes[x].fullPath == NewTop(t, np, nn) && x != np
            && x !in Subtree(t2, i)
  {
    EdgePath(t, np, nn);
    assert NodeOk(t, np) && EdgeOk(t, np, nn);
    ClearsFile(t, np, nn, x);
    UnlinkKeepsPath(t, np, nn, x);
  }

  lemma UnlinkKeepsPath(t: Table, np: Ino, nn: Name, x: Ino)
    requires LookupChild(t, np, nn) == Some(x) && x != np
    ensures x in UnlinkOne(t, np, nn).0.inodes && UnlinkOne(t, np, nn).0.inodes[x].fullPath == t.inodes[x].fullPath
  {
  }

  /** A move leaves an unlinked entry alone. */
  lemma UnlinkedKept(t: Table, t': Table, i: Ino, np: Ino, nn: Name, x: Ino)
    requires Inv(t) && MoveOk(t, i, np, nn) && MovedTo(t, t', i, np, nn)
    requires x in t.inodes && t.inodes[x].nlink == 0 && x != np
    ensures x in t'.inodes && t'.inodes[x].nlink == 0 && t'.inodes[x].fullPath == t.inodes[x].fullPath
  {
    var cut := Remove(t, i);
    RemoveInv(t, i);
    RemoveShape(t, i);
    assert x !in Subtree(t, i);
    KeptOutside(t, cut, t', i, np, nn, x);
  }

  // ---- Both happen ----

  /** A leaf gets another name in its directory. */
  ghost function LeafRenamed(t: Table, i: Ino, d: Ino, nn: Name): (t': Table)
    requires i in t.inodes && d in t.inodes
  {
    var e, top := t.inodes[i], NewTop(t, d, nn);
    Table(t.inodes[i := e.(name := nn, fullPath := top)][d := AddChild(RemoveChildByIno(t.inodes[d], i), i, nn)],
          (t.paths - {e.fullPath})[top := i], t.next)
  }

  lemma LeafMoved(t: Table, i: Ino, d: Ino, nn: Name)
    requires Inv(t) && MoveOk(t, i, d, nn) && Subtree(t, i) == {i} && t.inodes[i].parent == d && t.inodes[i].kind != Directory
    ensures MovedTo(t, LeafRenamed(t, i, d, nn), i, d, nn)
  {
    var t', e, cut := LeafRenamed(t, i, d, nn), t.inodes[i], Remove(t, i);
    assert NodeOk(t, i) && i != d;
    var from := e.fullPath;
    assert from[|from|..] == [];
    assert cut.inodes == (t.inodes - {i})[d := RemoveChildByIno(t.inodes[d], i)];
    NewTopFree(t, i, d, nn, NewTop(t, d, nn));
    forall p | p in t.paths && t.paths[p] != i
      ensures InPaths(t'.paths, p, t.paths[p])
    {
      assert PathOk(t, p);
    }
    forall p | p in t'.paths && t'.paths[p] == i
      ensures p == NewTop(t, d, nn)
    {
      assert p in t.paths ==> PathOk(t, p);
    }
  }

  /** There is a rename of a leaf within its directory. */
  lemma LeafRenames(t: Table, i: Ino, d: Ino, nn: Name) returns (t': Table)
    requires RenameOk(t, i, d, nn) && t.inodes[i].kind != Directory && t.inodes[i].parent == d
    ensures Renamed(t, t', i, d, nn) && t'.next == t.next
  {
    PreparedReady(t, i, d, nn);
    var t2 := Prepared(t, i, d, nn);
    FileIsLeaf(t, i);
    assert i in Subtree(t, i);
    LeafMoved(t2, i, d, nn);
    t' := LeafRenamed(t2, i, d, nn);
    NextKept(t, i, d, nn);
  }

  lemma NextKept(t: Table, i: Ino, d: Ino, nn: Name)
    requires i in Replaced(t, d, nn).inodes
    ensures Prepared(t, i, d, nn).next == t.next
  {
  }

  /** The table of one root directory that `NewTable` and `Insert` make. */
  lemma OneFile(name: Name, t: Table)
    requires t == Insert(NewTable(), ROOT, name, [name], File, Some("h")).0
    ensures Inv(t) && Attached(t, 2) && t.inodes[2].fullPath == [name] && t.inodes[2].name == name
    ensures t.inodes[2] == EmptyEntry(ROOT, name, [name], File, Some("h")) && t.next == 3
    ensures IsDir(t, ROOT) && t.inodes[ROOT].fullPath == [] && t.inodes[ROOT].childIndex == map[name := 2]
  {
    NewTableInv();
    InsertInv(NewTable(), ROOT, name, [name], File, Some("h"));
  }

  /** A committed "f", written to, can be renamed to "g". */
  lemma WrittenFile() returns (t: Table)
    ensures RenameOk(t, 2, ROOT, "g") && DirtyRemote(t.inodes[2]) && t.next == 3
    ensures t.inodes[2].parent == ROOT && t.inodes[2].fullPath == ["f"] && t.inodes[ROOT].fullPath == []
  {
    var t0 := Insert(NewTable(), ROOT, "f", ["f"], File, Some("h")).0;
    OneFile("f", t0);
    t := t0.(inodes := t0.inodes[2 := t0.inodes[2].(dirtyGeneration := 1)]);
    ShapeInv(t0, t);
    FileIsLeaf(t, 2);
    assert "f"[0] != "g"[0];
  }

  /** A dirty committed "f" is renamed to "g" and created again; both are flushed in one batch; then the new "f" is not
      on the Hub, although its add was in the batch. */
  lemma RecreatedExample(r: Remote) returns (t: Table, t': Table, items: seq<FlushItem>)
    ensures RenameOk(t, 2, ROOT, "g") && Renamed(t, t', 2, ROOT, "g")
    ensures var t'' := Insert(t', ROOT, "f", ["f"], File, None).0;
            && Inv(t'') && 2 in t''.inodes && 3 in t''.inodes && items == [ItemOf(t'', 2), ItemOf(t'', 3)]
    ensures items[1].fullPath == ["f"] && ["f"] !in ApplyBatch(r, Adds(items, ["h2", "h3"]) + DeletesOf(OldPathsOf(items)))
  {
    t := WrittenFile();
    t' := LeafRenames(t, 2, ROOT, "g");
    items := RecreatedFlush(t, t', r);
  }

  lemma RecreatedFlush(t: Table, t': Table, r: Remote) returns (items: seq<FlushItem>)
    requires RenameOk(t, 2, ROOT, "g") && Renamed(t, t', 2, ROOT, "g") && DirtyRemote(t.inodes[2]) && t'.next == 3
    requires t.inodes[2].fullPath == ["f"] && t.inodes[ROOT].fullPath == []
    ensures var t'' := Insert(t', ROOT, "f", ["f"], File, None).0;
            && Inv(t'') && 2 in t''.inodes && 3 in t''.inodes && items == [ItemOf(t'', 2), ItemOf(t'', 3)]
    ensures items[1].fullPath == ["f"] && ["f"] !in ApplyBatch(r, Adds(items, ["h2", "h3"]) + DeletesOf(OldPathsOf(items)))
  {
    OldPathFree(t, t', 2, ROOT, "g");
    RenamedInv(t, t', 2, ROOT, "g");
    RenamedRemembers(t, t', 2, ROOT, "g");
    items := RecreatedItems(t');
    assert items[0] in items;
    RecreatedIsLost(t, t', 2, ROOT, "g", items, ["h2", "h3"], r);
  }

  /** Creating "f" gives inode 3 and leaves inode 2 alone. */
  lemma RecreatedItems(t: Table) returns (items: seq<FlushItem>)
    requires Inv(t) && ["f"] !in t.paths && t.next == 3 && 2 in t.inodes
    ensures var t' := Insert(t, ROOT, "f", ["f"], File, None).0;
            && Inv(t') && 2 in t'.inodes && 3 in t'.inodes && items == [ItemOf(t', 2), ItemOf(t', 3)]
    ensures items[0] == ItemOf(t, 2) && items[1].fullPath == ["f"]
  {
    assert NodeOk(t, ROOT);
    InsertInv(t, ROOT, "f", ["f"], File, None);
    var t' := Insert(t, ROOT, "f", ["f"], File, None).0;
    items := [ItemOf(t', 2), ItemOf(t', 3)];
  }

  /** "b" can be renamed over the open "a". */
  lemma OpenTarget() returns (t: Table)
    ensures RenameOk(t, 3, ROOT, "a") && t.inodes[3].kind == File && t.inodes[3].parent == ROOT
    ensures LookupChild(t, ROOT, "a") == Some(2) && t.inodes[2].kind == File && t.inodes[2].openHandles > 0
    ensures t.inodes[ROOT].fullPath == []
  {
    var t0 := Insert(NewTable(), ROOT, "a", ["a"], File, Some("h")).0;
    OneFile("a", t0);
    assert "a"[0] != "b"[0];
    var t1 := t0.(inodes := t0.inodes[2 := t0.inodes[2].(openHandles := 1)]);
    ShapeInv(t0, t1);
    t := SecondFile(t1);
    FileIsLeaf(t, 3);
  }

  lemma SecondFile(t1: Table) returns (t: Table)
    requires Inv(t1) && t1.next == 3 && ["b"] !in t1.paths && t1.inodes[ROOT].childIndex == map["a" := 2] && "a" != "b"
    requires Attached(t1, 2) && t1.inodes[2].kind == File && t1.inodes[2].openHandles > 0
    ensures Inv(t) && Attached(t, 3) && t.inodes[3].kind == File && t.inodes[3].parent == ROOT && IsDir(t, ROOT)
    ensures LookupChild(t, ROOT, "a") == Some(2) && t.inodes[2].kind == File && t.inodes[2].openHandles > 0
    ensures t.inodes[ROOT].fullPath == []
  {
    assert NodeOk(t1, ROOT);
    InsertInv(t1, ROOT, "b", ["b"], File, Some("h"));
    t := Insert(t1, ROOT, "b", ["b"], File, Some("h")).0;
  }

  /** "b" is renamed over the open "a"; removing the old inode then, as a failed commit's revert does, takes the path of
      the live file. */
  lemma LateRemoveExample() returns (t: Table, t': Table)
    ensures RenameOk(t, 3, ROOT, "a") && Renamed(t, t', 3, ROOT, "a") && Inv(t') && InPaths(t'.paths, ["a"], 3)
    ensures 2 in t'.inodes && ["a"] !in Remove(t', 2).paths && !Inv(Remove(t', 2))
  {
    t := OpenTarget();
    t' := LeafRenames(t, 3, ROOT, "a");
    LateRemoveTakesPath(t, t', 3, ROOT, "a", 2);
    assert NewTop(t, ROOT, "a") == ["a"];
  }
}
