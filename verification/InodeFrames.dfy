/** What each operation of the inode table does to every entry, field by field, beside keeping the invariant. */
module InodeFrames {
  import opened Prelude
  import opened Inodes
  import opened InodeOps
  import opened InodeMove
  import opened InodeWalk
  import opened InodeEvict
  import opened Rename

  /** `b` is `a` without one occurrence of `c`, in the same order. */
  ghost predicate Cut(a: seq<DirChild>, b: seq<DirChild>, c: DirChild) {
    exists k :: 0 <= k < |a| && a[k] == c && b == a[..k] + a[k + 1..]
  }

  lemma WithoutInoCuts(children: seq<DirChild>, c: DirChild)
    requires c in children && OneEdgePerIno(children)
    ensures Cut(children, WithoutIno(children, c.ino), c)
  {
    var k :| 0 <= k < |children| && children[k] == c;
    WithoutInoAt(children, c.ino, k);
  }

  lemma {:induction false} WithoutInoAt(children: seq<DirChild>, ino: Ino, k: nat)
    requires k < |children| && children[k].ino == ino && forall j :: 0 <= j < k ==> children[j].ino != ino
    ensures WithoutIno(children, ino) == children[..k] + children[k + 1..]
  {
    if k > 0 {
      var rest := children[1..];
      WithoutInoAt(rest, ino, k - 1);
      assert children[..k] == [children[0]] + rest[..k - 1];
      assert children[k + 1..] == rest[k..];
    }
  }

  /** `j` is attached, and `i`'s path starts its own. */
  ghost predicate Below(t: Table, i: Ino, j: Ino) {
    i in t.inodes && j in t.inodes && t.inodes[j].nlink > 0 && t.inodes[i].fullPath <= t.inodes[j].fullPath
  }

  /** The directory `d` lost the edge `n` to `c`, a directory or not, and is otherwise as it was. */
  ghost predicate EdgeGone(t: Table, t': Table, d: Ino, n: Name, c: Ino, isDir: bool) {
    && d in t.inodes && d in t'.inodes && Cut(t.inodes[d].children, t'.inodes[d].children, DirChild(c, n))
    && t'.inodes[d] == t.inodes[d].(children := t'.inodes[d].children, childIndex := t.inodes[d].childIndex - {n},
                                    nlink := t.inodes[d].nlink - if isDir && t.inodes[d].nlink > 0 then 1 else 0)
  }

  // ---- Remove, unlink, evict ----

  /** `remove` deletes the inode and what is below it, and their paths.  The parent loses the edge, and the link of a
      directory; nothing else changes. */
  lemma RemoveFrame(t: Table, i: Ino)
    requires Inv(t) && Attached(t, i) && i != ROOT
    ensures var t' := Remove(t, i);
            && t'.next == t.next && (forall j :: j in t'.inodes <==> j in t.inodes && !Below(t, i, j))
            && (forall p :: p in t'.paths <==> p in t.paths && !(t.inodes[i].fullPath <= p))
            && (forall p :: p in t'.paths ==> t'.paths[p] == t.paths[p])
    ensures var t' := Remove(t, i);
            && EdgeGone(t, t', t.inodes[i].parent, t.inodes[i].name, i, t.inodes[i].kind == Directory)
            && forall j :: j in t'.inodes && j != t.inodes[i].parent ==> t'.inodes[j] == t.inodes[j]
  {
    var t', d, n := Remove(t, i), t.inodes[i].parent, t.inodes[i].name;
    RemoveShape(t, i);
    assert NodeOk(t, i) && NodeOk(t, d);
    ChildrenOneEdge(t, d);
    WithoutInoAgrees(t.inodes[d].children, t.inodes[d].childIndex, n);
    WithoutInoCuts(t.inodes[d].children, DirChild(i, n));
    forall p | p in t.paths
      ensures t.paths[p] in Subtree(t, i) <==> t.inodes[i].fullPath <= p
    {
      assert PathOk(t, p);
    }
  }

  /** `unlink_one` takes an edge, its path and a link, and returns the entry it leaves. */
  lemma UnlinkFrame(t: Table, d: Ino, n: Name, c: Ino)
    requires Inv(t) && LookupChild(t, d, n) == Some(c)
    ensures var (t', r) := UnlinkOne(t, d, n);
            && t'.next == t.next && t'.inodes.Keys == t.inodes.Keys && t'.paths == t.paths - {t.inodes[c].fullPath}
            && EdgeGone(t, t', d, n, c, false)
            && t.inodes[c].nlink > 0 && t'.inodes[c] == t.inodes[c].(nlink := t.inodes[c].nlink - 1)
            && (forall j :: j in t.inodes && j != d && j != c ==> t'.inodes[j] == t.inodes[j])
            && r == Some((t.inodes[c].nlink == 1, t'.inodes[c]))
  {
    EdgePath(t, d, n);
    assert NodeOk(t, d) && EdgeOk(t, d, n) && NodeOk(t, c);
    ChildrenOneEdge(t, d);
    WithoutInoCuts(t.inodes[d].children, DirChild(c, n));
    assert c != d;
  }

  /** Without such an edge it does nothing. */
  lemma UnlinkNothing(t: Table, d: Ino, n: Name)
    requires Inv(t) && LookupChild(t, d, n).None?
    ensures UnlinkOne(t, d, n) == (t, None)
  {
    if d in t.inodes && n in t.inodes[d].childIndex { EdgePath(t, d, n); }
  }

  /** `remove_orphan` deletes an entry without links, and no path of a live file. */
  lemma OrphanFrame(t: Table, i: Ino)
    requires Inv(t)
    ensures var (t', removed) := RemoveOrphan(t, i);
            && (removed <==> i in t.inodes && t.inodes[i].nlink == 0)
            && t' == Table(if removed then t.inodes - {i} else t.inodes, t.paths, t.next)
  {
    RemoveOrphanInv(t, i);
    if i in t.inodes && t.inodes[i].nlink == 0 {
      assert NodeOk(t, i);
    } else {
      assert RemoveOrphan(t, i).0 == t;
    }
  }

  /** `evict_if_safe` evicts exactly these files, whose parents must list again. */
  lemma EvictFrame(t: Table, i: Ino)
    requires Inv(t)
    ensures EvictIfSafe(t, i).1 <==>
              && i in t.inodes && t.inodes[i].kind == File && t.inodes[i].nlookup == 0 && t.inodes[i].dirtyGeneration == 0
              && t.inodes[i].pendingDeletes == [] && t.inodes[i].nlink > 0
    ensures !EvictIfSafe(t, i).1 ==> EvictIfSafe(t, i).0 == t
    ensures EvictIfSafe(t, i).1 ==>
              var t', d := EvictIfSafe(t, i).0, t.inodes[i].parent;
              && d in t.inodes && d != i && t'.inodes.Keys == t.inodes.Keys - {i} && t'.paths == t.paths - {t.inodes[i].fullPath}
              && t'.next == t.next && (forall j :: j in t'.inodes && j != d ==> t'.inodes[j] == t.inodes[j])
              && Cut(t.inodes[d].children, t'.inodes[d].children, DirChild(i, t.inodes[i].name))
              && t'.inodes[d] == t.inodes[d].(children := t'.inodes[d].children, childrenLoaded := false,
                                              childIndex := t.inodes[d].childIndex - {t.inodes[i].name})
  {
    if EvictIfSafe(t, i).1 {
      var d := t.inodes[i].parent;
      assert NodeOk(t, i) && NodeOk(t, d);
      ChildrenOneEdge(t, d);
      WithoutInoAgrees(t.inodes[d].children, t.inodes[d].childIndex, t.inodes[i].name);
      WithoutInoCuts(t.inodes[d].children, DirChild(i, t.inodes[i].name));
    }
  }

  // ---- Rename ----

  /** What clearing the target does. */
  ghost predicate TargetGone(t: Table, t1: Table, np: Ino, nn: Name)
    requires np in t.inodes
  {
    match LookupChild(t, np, nn)
    case None => t1 == t
    case Some(x) =>
      && t1.next == t.next && np in t1.inodes && x in t.inodes && x != np
      && (forall j :: j in t1.inodes <==>
            j in t.inodes && !(j == x && (t.inodes[x].kind == Directory || t.inodes[x].openHandles == 0)))
      && (x in t1.inodes ==> t1.inodes[x] == t.inodes[x].(nlink := 0))
      && (forall j :: j in t1.inodes && j != x && j != np ==> t1.inodes[j] == t.inodes[j])
      && t1.inodes[np] == t.inodes[np].(children := t1.inodes[np].children, nlink := t1.inodes[np].nlink,
                                        childIndex := t.inodes[np].childIndex - {nn})
  }

  lemma ReplacedFrame(t: Table, i: Ino, np: Ino, nn: Name)
    requires RenameOk(t, i, np, nn)
    ensures TargetGone(t, Replaced(t, np, nn), np, nn)
  {
    if LookupChild(t, np, nn).Some? {
      var x := LookupChild(t, np, nn).value;
      EdgePath(t, np, nn);
      assert NodeOk(t, np) && EdgeOk(t, np, nn) && NodeOk(t, x);
      if t.inodes[x].kind == Directory {
        DirectoryGone(t, np, nn, x);
      } else {
        UnlinkFrame(t, np, nn, x);
        UnlinkInvIff(t, np, nn);
        OrphanFrame(UnlinkOne(t, np, nn).0, x);
      }
    }
  }

  lemma DirectoryGone(t: Table, np: Ino, nn: Name, x: Ino)
    requires Inv(t) && IsDir(t, np) && LookupChild(t, np, nn) == Some(x) && IsDir(t, x) && t.inodes[x].children == []
    ensures TargetGone(t, Remove(t, x), np, nn)
  {
    EdgePath(t, np, nn);
    assert NodeOk(t, np) && EdgeOk(t, np, nn) && NodeOk(t, x);
    RemoveFrame(t, x);
    ClearsDirectory(t, np, nn, x);
    forall j | j in Subtree(t, x)
      ensures j == x
    {
      if j != x { var k := KidTowards(t, x, j); }
    }
    assert forall j :: Below(t, x, j) ==> j in Subtree(t, x);
    assert x in Subtree(t, x);
  }

  /** The entry of `j` after the rename of `i`, which `j` is or is below. */
  ghost predicate Carried(e: Entry, e': Entry, from: Path, to: Path, top: bool, np: Ino, nn: Name) {
    && from <= e.fullPath && e'.fullPath == to + e.fullPath[|from|..]
    && e'.parent == (if top then np else e.parent) && e'.name == (if top then nn else e.name)
    && e'.pendingDeletes == e.pendingDeletes
         + (if e.kind == File && e.dirtyGeneration > 0 && e.hash.Some? then [e.fullPath] else [])
    && e' == e.(fullPath := e'.fullPath, parent := e'.parent, name := e'.name, pendingDeletes := e'.pendingDeletes)
  }

  /** The rename, entry by entry.  The replaced target goes, or stays without links if it is open.  What is below the
      source gets rebased paths, and its dirty committed files note the old one, after those they had.  The two parents
      change edges and link counts only; the new edge comes last.  All others stay as they are. */
  lemma RenameFrame(t: Table, t': Table, i: Ino, np: Ino, nn: Name)
    requires RenameOk(t, i, np, nn) && Renamed(t, t', i, np, nn)
    ensures t'.next == t.next && TargetLeft(t, t', np, nn)
    ensures forall j :: j in t'.inodes && Below(t, i, j) ==>
              Carried(t.inodes[j], t'.inodes[j], t.inodes[i].fullPath, t.inodes[np].fullPath + [nn], j == i, np, nn)
    ensures forall j :: (j in t'.inodes && !Below(t, i, j) && LookupChild(t, np, nn) != Some(j)
                         && j != np && j != t.inodes[i].parent) ==> t'.inodes[j] == t.inodes[j]
    ensures EdgeMovedOnly(t, t', i, np, nn)
  {
    PreparedReady(t, i, np, nn);
    ReplacedFrame(t, i, np, nn);
    var t2 := Prepared(t, i, np, nn);
    MoveFrame(t2, t', i, np, nn);
    SourceParent(t, i, np, nn);
    forall j | j in t'.inodes && Below(t, i, j)
      ensures Carried(t.inodes[j], t'.inodes[j], t.inodes[i].fullPath, t.inodes[np].fullPath + [nn], j == i, np, nn)
    {
      assert j in Subtree(t, i);
      CarriedEntry(t, t', i, np, nn, j);
    }
    RestStays(t, t', i, np, nn);
    ParentsOnly(t, t', i, np, nn);
  }

  /** The replaced target is gone, or stays without links if it is a file with open handles.  Nothing else is gone. */
  ghost predicate TargetLeft(t: Table, t': Table, np: Ino, nn: Name) {
    var x := LookupChild(t, np, nn);
    && (forall j :: j in t'.inodes <==>
          (j in t.inodes && !(x == Some(j) && (t.inodes[j].kind == Directory || t.inodes[j].openHandles == 0))))
    && (x.Some? && x.value in t'.inodes ==> t'.inodes[x.value] == t.inodes[x.value].(nlink := 0))
  }

  /** The two parents change in their edges and link counts only; the new edge comes last. */
  ghost predicate EdgeMovedOnly(t: Table, t': Table, i: Ino, np: Ino, nn: Name)
    requires i in t.inodes
  {
    var d, n := t.inodes[i].parent, t.inodes[i].name;
    && d in t.inodes && np in t.inodes && d in t'.inodes && np in t'.inodes
    && t'.inodes[d] == t.inodes[d].(children := t'.inodes[d].children, childIndex := t'.inodes[d].childIndex,
                                    nlink := t'.inodes[d].nlink)
    && t'.inodes[np] == t.inodes[np].(children := t'.inodes[np].children, childIndex := t'.inodes[np].childIndex,
                                      nlink := t'.inodes[np].nlink)
    && t'.inodes[np].childIndex == (if d == np then t.inodes[np].childIndex - {n} else t.inodes[np].childIndex)[nn := i]
    && (d != np ==> t'.inodes[d].childIndex == t.inodes[d].childIndex - {n})
    && t'.inodes[np].children != [] && t'.inodes[np].children[|t'.inodes[np].children| - 1] == DirChild(i, nn)
  }

  lemma RestStays(t: Table, t': Table, i: Ino, np: Ino, nn: Name)
    requires RenameOk(t, i, np, nn) && Renamed(t, t', i, np, nn)
    ensures t'.next == t.next && TargetLeft(t, t', np, nn)
    ensures forall j :: (j in t'.inodes && !Below(t, i, j) && LookupChild(t, np, nn) != Some(j)
                         && j != np && j != t.inodes[i].parent) ==> t'.inodes[j] == t.inodes[j]
  {
    PreparedReady(t, i, np, nn);
    ReplacedFrame(t, i, np, nn);
    TargetOutside(t, i, np, nn);
    SourceParent(t, i, np, nn);
    var t1, t2 := Replaced(t, np, nn), Prepared(t, i, np, nn);
    assert i in Subtree(t, i);
    MoveFrame(t2, t', i, np, nn);
    forall j | j in t2.inodes && !Below(t, i, j)
      ensures t2.inodes[j] == t1.inodes[j] && !Below(t2, i, j)
    {
      assert j !in Subtree(t, i) && j !in Subtree(t1, i) && j !in Subtree(t2, i);
    }
    if LookupChild(t, np, nn).Some? { EdgePath(t, np, nn); }
    assert t2.inodes[i].parent == t.inodes[i].parent;
  }

  lemma ParentsOnly(t: Table, t': Table, i: Ino, np: Ino, nn: Name)
    requires RenameOk(t, i, np, nn) && Renamed(t, t', i, np, nn)
    ensures EdgeMovedOnly(t, t', i, np, nn)
  {
    PreparedReady(t, i, np, nn);
    ReplacedFrame(t, i, np, nn);
    SourceParent(t, i, np, nn);
    var t1, t2, d, n := Replaced(t, np, nn), Prepared(t, i, np, nn), t.inodes[i].parent, t.inodes[i].name;
    assert i in Subtree(t, i);
    MoveFrame(t2, t', i, np, nn);
    assert d !in Subtree(t1, i) && np !in Subtree(t1, i);
    assert t2.inodes[d] == t1.inodes[d] && t2.inodes[np] == t1.inodes[np];
    IndexesSame(t.inodes[np].childIndex, n, nn, i);
  }

  lemma IndexesSame(index: map<Name, Ino>, n: Name, nn: Name, i: Ino)
    ensures (index - {nn} - {n})[nn := i] == (index - {n})[nn := i]
    ensures (index - {nn})[nn := i] == index[nn := i]
  {
  }

  lemma CarriedEntry(t: Table, t': Table, i: Ino, np: Ino, nn: Name, j: Ino)
    requires RenameOk(t, i, np, nn) && Renamed(t, t', i, np, nn) && j in Subtree(t, i)
    ensures j in t'.inodes
    ensures Carried(t.inodes[j], t'.inodes[j], t.inodes[i].fullPath, t.inodes[np].fullPath + [nn], j == i, np, nn)
  {
    var t2 := NotedEntry(t, i, np, nn, j);
    var own := NotedEntry(t, i, np, nn, i);
    assert t'.inodes[j] == MovedEntry(t2, i, np, nn, j);
  }

  /** Before the move: a dirty committed file has noted its path. */
  lemma NotedEntry(t: Table, i: Ino, np: Ino, nn: Name, j: Ino) returns (t2: Table)
    requires RenameOk(t, i, np, nn) && j in Subtree(t, i)
    ensures i in Replaced(t, np, nn).inodes && t2 == Prepared(t, i, np, nn) && i in t2.inodes && np in t2.inodes
    ensures i in Subtree(t, i) && Subtree(t2, i) == Subtree(t, i) && t2.inodes[np].fullPath == t.inodes[np].fullPath
    ensures t2.inodes[j] == t.inodes[j].(
              pendingDeletes := t.inodes[j].pendingDeletes
                + (if t.inodes[j].kind == File && t.inodes[j].dirtyGeneration > 0 && t.inodes[j].hash.Some?
                   then [t.inodes[j].fullPath] else []))
  {
    PreparedReady(t, i, np, nn);
    ReplacedFrame(t, i, np, nn);
    TargetOutside(t, i, np, nn);
    t2 := Prepared(t, i, np, nn);
    assert i in Subtree(t, i);
    assert Replaced(t, np, nn).inodes[j] == t.inodes[j];
  }

  /** The replaced target is not below the source. */
  lemma TargetOutside(t: Table, i: Ino, np: Ino, nn: Name)
    requires RenameOk(t, i, np, nn)
    ensures LookupChild(t, np, nn).Some? ==> LookupChild(t, np, nn).value !in Subtree(t, i)
  {
    if LookupChild(t, np, nn).Some? {
      SubtreeChild(t, i, np, nn);
    }
  }

  /** The parent of the source is neither below it nor replaced. */
  lemma SourceParent(t: Table, i: Ino, np: Ino, nn: Name)
    requires RenameOk(t, i, np, nn)
    ensures var d := t.inodes[i].parent;
            && IsDir(t, d) && d !in Subtree(t, i) && LookupChild(t, np, nn) != Some(d)
            && t.inodes[i].name in t.inodes[d].childIndex && t.inodes[d].childIndex[t.inodes[i].name] == i
            && (d == np ==> t.inodes[i].name != nn)
  {
    var d := t.inodes[i].parent;
    assert NodeOk(t, i) && NodeOk(t, d);
    assert DirChild(i, t.inodes[i].name) in t.inodes[d].children;
  }

  /** The move itself, for every entry. */
  lemma MoveFrame(t: Table, t': Table, i: Ino, np: Ino, nn: Name)
    requires Inv(t) && MoveOk(t, i, np, nn) && MovedTo(t, t', i, np, nn)
    ensures t'.next == t.next && t'.inodes.Keys == t.inodes.Keys
    ensures forall j :: j in Subtree(t, i) ==> t'.inodes[j] == MovedEntry(t, i, np, nn, j)
    ensures forall j :: j in t.inodes && !Below(t, i, j) && j != np && j != t.inodes[i].parent ==> t'.inodes[j] == t.inodes[j]
    ensures var d, n := t.inodes[i].parent, t.inodes[i].name;
            && d in t.inodes && np in t.inodes && d !in Subtree(t, i)
            && t'.inodes[d] == t.inodes[d].(children := t'.inodes[d].children, childIndex := t'.inodes[d].childIndex,
                                            nlink := t'.inodes[d].nlink)
            && t'.inodes[np] == t.inodes[np].(children := t'.inodes[np].children, childIndex := t'.inodes[np].childIndex,
                                              nlink := t'.inodes[np].nlink)
            && t'.inodes[np].childIndex == (if d == np then t.inodes[np].childIndex - {n} else t.inodes[np].childIndex)[nn := i]
            && (d != np ==> t'.inodes[d].childIndex == t.inodes[d].childIndex - {n})
            && t'.inodes[np].children != [] && t'.inodes[np].children[|t'.inodes[np].children| - 1] == DirChild(i, nn)
  {
    RemoveFrame(t, i);
    RemoveShape(t, i);
    assert forall j :: j in t.inodes ==> (Below(t, i, j) <==> j in Subtree(t, i));
    assert NodeOk(t, i);
  }
}
