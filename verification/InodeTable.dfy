/** The mutable inode table of src/virtual_fs/inode.rs.  Each method updates the
    maps in place as the source does, and is proved against the value-level
    operations, whose invariant preservation is proved beside them. */
module InodeTable {
  import opened Prelude
  import opened Inodes
  import opened InodeOps
  import opened InodeMove
  import opened InodeWalk
  import opened InodeEvict

  ghost function NewPathOf(t: Table, i: Ino, top: Path, j: Ino): (p: Path)
    requires i in t.inodes && j in Subtree(t, i)
  {
    Rebased(t.inodes[j].fullPath, t.inodes[i].fullPath, top)
  }

  /** The rebased paths of `part`, a piece of the subtree of `i` in `t`. */
  ghost function NewPaths(t: Table, i: Ino, top: Path, part: set<Ino>): (s: set<Path>)
    requires i in t.inodes && part <= Subtree(t, i)
  {
    set j | j in part :: NewPathOf(t, i, top, j)
  }

  ghost function OldPaths(t: Table, part: set<Ino>): (s: set<Path>)
    requires part <= t.inodes.Keys
  {
    set j | j in part :: t.inodes[j].fullPath
  }

  /** The entries with the paths of `part` rebased, and nothing else changed. */
  ghost predicate EntriesRebased(t: Table, i: Ino, top: Path, part: set<Ino>,
                                 inodes0: map<Ino, Entry>, inodes1: map<Ino, Entry>)
    requires i in t.inodes && part <= Subtree(t, i)
  {
    && inodes1.Keys == inodes0.Keys
    && (forall j :: j in inodes0 ==>
          inodes1[j] == if j in part then inodes0[j].(fullPath := NewPathOf(t, i, top, j)) else inodes0[j])
  }

  /** The path index with the paths of `part` rebased, and nothing else changed. */
  ghost predicate PathsRebased(t: Table, i: Ino, top: Path, part: set<Ino>,
                               paths0: map<Path, Ino>, paths1: map<Path, Ino>)
    requires i in t.inodes && part <= Subtree(t, i)
  {
    && paths1.Keys == paths0.Keys - OldPaths(t, part) + NewPaths(t, i, top, part)
    && (forall j :: j in part ==> InPaths(paths1, NewPathOf(t, i, top, j), j))
    && (forall p :: p in paths1 && p !in NewPaths(t, i, top, part) ==> paths1[p] == paths0[p])
  }

  /** The new paths of the subtree are not the old path of any member. */
  ghost predicate NewPathsFree(t: Table, i: Ino, top: Path)
    requires i in t.inodes
  {
    NewPaths(t, i, top, Subtree(t, i)) !! OldPaths(t, Subtree(t, i))
  }

  /** Rebasing one part and then another, disjoint from it, rebases both. */
  lemma PartsCompose(t: Table, i: Ino, top: Path, a: set<Ino>, b: set<Ino>,
                     inodes0: map<Ino, Entry>, paths0: map<Path, Ino>,
                     inodes1: map<Ino, Entry>, paths1: map<Path, Ino>,
                     inodes2: map<Ino, Entry>, paths2: map<Path, Ino>)
    requires Inv(t) && i in t.inodes && a <= Subtree(t, i) && b <= Subtree(t, i) && a !! b && NewPathsFree(t, i, top)
    requires EntriesRebased(t, i, top, a, inodes0, inodes1) && PathsRebased(t, i, top, a, paths0, paths1)
    requires EntriesRebased(t, i, top, b, inodes1, inodes2) && PathsRebased(t, i, top, b, paths1, paths2)
    ensures EntriesRebased(t, i, top, a + b, inodes0, inodes2) && PathsRebased(t, i, top, a + b, paths0, paths2)
  {
    PathsCompose(t, i, top, a, b, paths0, paths1, paths2);
  }

  lemma PathsCompose(t: Table, i: Ino, top: Path, a: set<Ino>, b: set<Ino>,
                     paths0: map<Path, Ino>, paths1: map<Path, Ino>, paths2: map<Path, Ino>)
    requires Inv(t) && i in t.inodes && a <= Subtree(t, i) && b <= Subtree(t, i) && a !! b && NewPathsFree(t, i, top)
    requires PathsRebased(t, i, top, a, paths0, paths1) && PathsRebased(t, i, top, b, paths1, paths2)
    ensures PathsRebased(t, i, top, a + b, paths0, paths2)
  {
    NewPathsDisjoint(t, i, top, a, b);
    var na, nb := NewPaths(t, i, top, a), NewPaths(t, i, top, b);
    var oa, ob := OldPaths(t, a), OldPaths(t, b);
    assert NewPaths(t, i, top, a + b) == na + nb;
    assert OldPaths(t, a + b) == oa + ob;
    assert na !! ob by {
      assert na <= NewPaths(t, i, top, Subtree(t, i));
      assert ob <= OldPaths(t, Subtree(t, i));
    }
    assert (paths0.Keys - oa + na) - ob + nb == paths0.Keys - (oa + ob) + (na + nb);
    forall j | j in a + b
      ensures InPaths(paths2, NewPathOf(t, i, top, j), j)
    {
      if j in a {
        assert NewPathOf(t, i, top, j) in na;
      }
    }
  }

  lemma NewPathsDisjoint(t: Table, i: Ino, top: Path, a: set<Ino>, b: set<Ino>)
    requires Inv(t) && i in t.inodes && a <= Subtree(t, i) && b <= Subtree(t, i) && a !! b
    ensures NewPaths(t, i, top, a) !! NewPaths(t, i, top, b)
  {
    forall p | p in NewPaths(t, i, top, a) && p in NewPaths(t, i, top, b)
      ensures false
    {
      var from := t.inodes[i].fullPath;
      var j :| j in a && p == NewPathOf(t, i, top, j);
      var k :| k in b && p == NewPathOf(t, i, top, k);
      RebasedInjective(t.inodes[j].fullPath, t.inodes[k].fullPath, from, top);
      PathsUnique(t, j, k);
    }
  }

  class InodeTable {
    var inodes: map<Ino, Entry>
    var paths: map<Path, Ino>
    var next: Ino

    ghost function View(): (t: Table)
      reads this
    {
      Table(inodes, paths, next)
    }

    constructor ()
      ensures View() == NewTable() && Inv(View())
    {
      inodes := map[ROOT := EmptyEntry(ROOT, "", [], Directory, None)];
      paths := map[[] := ROOT];
      next := 2;
      NewTableInv();
    }

    method InsertEntry(parent: Ino, name: Name, path: Path, kind: Kind, hash: Option<Hash>) returns (ino: Ino)
      modifies this
      ensures (View(), ino) == Insert(old(View()), parent, name, path, kind, hash)
      ensures old(Inv(View()) && IsDir(View(), parent) && path == ChildPath(inodes[parent].fullPath, name)) ==>
                Inv(View()) && GetByPath(View(), path) == Some(ino)
      ensures path in old(paths) ==> View() == old(View()) && ino == old(paths)[path]
      ensures old(Inv(View()) && IsDir(View(), parent) && path == ChildPath(inodes[parent].fullPath, name) && path !in paths) ==>
                && ino == old(next) && ino !in old(inodes) && next == old(next) + 1
                && inodes.Keys == old(inodes).Keys + {ino} && paths == old(paths)[path := ino]
                && inodes[ino].parent == parent && inodes[ino].name == name && inodes[ino].fullPath == path
                && inodes[ino].kind == kind && inodes[ino].hash == hash
                && inodes[ino].nlink == (if kind == Directory then 2 else 1)
                && inodes[ino].dirtyGeneration == 0 && !inodes[ino].childrenLoaded
                && inodes[ino].children == [] && inodes[ino].childIndex == map[]
                && inodes[ino].pendingDeletes == [] && inodes[ino].nlookup == 0 && inodes[ino].openHandles == 0
                && (forall j :: j in old(inodes) && j != parent ==> inodes[j] == old(inodes)[j])
                && inodes[parent] == old(inodes)[parent].(
                     children := old(inodes)[parent].children + [DirChild(ino, name)],
                     childIndex := old(inodes)[parent].childIndex[name := ino],
                     nlink := old(inodes)[parent].nlink + if kind == Directory then 1 else 0)
    {
      ghost var t := View();
      if path in paths {
        ino := paths[path];
      } else {
        ino := next;
        next := next + 1;
        inodes := inodes[ino := EmptyEntry(parent, name, path, kind, hash)];
        paths := paths[path := ino];
        if parent in inodes {
          var p := AddChild(inodes[parent], ino, name);
          if kind == Directory {
            p := p.(nlink := p.nlink + 1);
          }
          inodes := inodes[parent := p];
        }
      }
      assert View() == Insert(t, parent, name, path, kind, hash).0;
      if Inv(t) && IsDir(t, parent) && path == ChildPath(t.inodes[parent].fullPath, name) {
        InsertInv(t, parent, name, path, kind, hash);
      }
    }

    /** Deletes `ino` and everything below it, with a stack. */
    method RemoveEntry(ino: Ino) returns (r: Option<Entry>)
      requires Inv(View())
      modifies this
      ensures ino !in old(inodes) ==> r == None && View() == old(View())
      ensures ino in old(inodes) ==> r == Some(old(inodes)[ino]) && View() == Remove(old(View()), ino)
      ensures old(Attached(View(), ino)) && ino != ROOT ==> Inv(View())
    {
      if ino !in inodes {
        return None;
      }
      ghost var t := View();
      var entry := inodes[ino];
      r := Some(entry);
      inodes := inodes - {ino};
      paths := paths - {entry.fullPath};
      inodes := DetachFromParent(inodes, entry.parent, ino, entry.kind);
      var stack := Inos(entry.children);
      ghost var gone := {ino};
      RemovalStarts(t, ino);
      while stack != []
        invariant Removing(t, ino, gone, stack, inodes, paths) && next == t.next
        decreases Cover(t, stack)
      {
        RemovalStep(t, ino, gone, stack, inodes, paths);
        var child := stack[|stack| - 1];
        stack := stack[..|stack| - 1];
        if child in inodes {
          var e := inodes[child];
          inodes := inodes - {child};
          paths := paths - {e.fullPath};
          stack := stack + Inos(e.children);
          gone := gone + {child};
        }
      }
      assert stack == [];
      RemovalEnds(t, ino, gone, View());
      if Attached(t, ino) && ino != ROOT {
        RemoveInv(t, ino);
      }
    }

    /** True if `ino` or something below it is dirty or has an open handle. */
    method HasDirtyOrOpenDescendants(ino: Ino) returns (r: bool)
      requires Inv(View())
      ensures r <==> ino in inodes && exists j :: j in Doomed(View(), ino) && Busy(View(), j)
      ensures r <==> (ino in inodes && exists j :: (
                        && j in inodes && j in Doomed(View(), ino)
                        && (inodes[j].dirtyGeneration > 0 || inodes[j].openHandles > 0)))
    {
      ghost var t := View();
      if ino !in inodes {
        return false;
      }
      var stack := [ino];
      SingleCover(t, ino);
      ghost var seen: set<Ino> := {};
      while stack != []
        invariant Known(t, stack) && Apart(t, stack)
        invariant seen + Cover(t, stack) == Doomed(t, ino)
        invariant forall j :: j in seen ==> !Busy(t, j)
        decreases Cover(t, stack)
      {
        PopPush(t, stack);
        var current := stack[|stack| - 1];
        assert current in Doomed(t, ino);
        stack := stack[..|stack| - 1];
        if current in inodes {
          var entry := inodes[current];
          if entry.IsDirty() || entry.openHandles > 0 {
            assert View() == t && Busy(t, current);
            return true;
          }
          seen := seen + {current};
          stack := stack + Inos(entry.children);
        }
      }
      return false;
    }

    /** Evicts the eligible inodes of `inos` together: they are grouped by parent, taken out of the maps and
        of their parents' name indexes, and then each touched parent's list is filtered once.  The source
        iterates over hash maps and hash sets; here the order of both iterations is left open. */
    method EvictBatchIfSafe(inos: seq<Ino>) returns (evicted: seq<Ino>)
      requires Inv(View())
      modifies this`inodes, this`paths
      ensures View() == EvictEach(old(View()), inos) && Inv(View())
      ensures Lists(evicted, Eligible(old(View()), inos))
    {
      ghost var t := View();
      var byParent: map<Ino, set<Ino>> := map[];
      for k := 0 to |inos|
        invariant Grouped(t, Eligible(t, inos[..k]), byParent)
      {
        assert inos[..k + 1] == inos[..k] + [inos[k]];
        var i := inos[k];
        if i in inodes && Evictable(inodes[i]) && inodes[i].openHandles == 0 {
          var p := inodes[i].parent;
          byParent := byParent[p := (if p in byParent then byParent[p] else {}) + {i}];
          assert Eligible(t, inos[..k + 1]) == Eligible(t, inos[..k]) + {i};
        } else {
          assert Eligible(t, inos[..k + 1]) == Eligible(t, inos[..k]);
        }
      }
      assert inos[..|inos|] == inos;
      ghost var all := Eligible(t, inos);
      evicted := TakeOut(byParent, t, all);
      FilterParents(byParent, t, all);
      EvictEachIsSet(t, inos);
    }

    /** The second pass: one filtering of each touched parent's list. */
    method FilterParents(byParent: map<Ino, set<Ino>>, ghost t: Table, ghost all: set<Ino>)
      requires Inv(t) && View() == Partial(t, all, all, {}) && AllEvictable(t, all) && Grouped(t, all, byParent)
      modifies this`inodes
      ensures View() == EvictSet(t, all)
    {
      var todo := byParent.Keys;
      assert byParent.Keys - todo == {};
      while todo != {}
        invariant todo <= byParent.Keys
        invariant View() == Partial(t, all, all, byParent.Keys - todo)
      {
        var p :| p in todo;
        FilterParent(t, all, byParent, byParent.Keys - todo, p);
        if p in inodes {
          inodes := inodes[p := inodes[p].(children := Retain(inodes[p].children, byParent[p]), childrenLoaded := false)];
        }
        assert byParent.Keys - (todo - {p}) == (byParent.Keys - todo) + {p};
        todo := todo - {p};
      }
      assert byParent.Keys - {} == Parents(t, all);
    }

    /** The first pass of the batch: inodes, paths and name indexes, parent by parent. */
    method TakeOut(byParent: map<Ino, set<Ino>>, ghost t: Table, ghost all: set<Ino>) returns (evicted: seq<Ino>)
      requires Inv(t) && View() == t && AllEvictable(t, all) && Grouped(t, all, byParent)
      modifies this`inodes, this`paths
      ensures View() == Partial(t, all, all, {})
      ensures Lists(evicted, all)
    {
      evicted := [];
      PartialNone(t, all);
      var todo := byParent.Keys;
      assert GroupsOf(t, all, byParent.Keys - todo) == {};
      while todo != {}
        invariant todo <= byParent.Keys
        invariant View() == Partial(t, GroupsOf(t, all, byParent.Keys - todo), all, {})
        invariant Lists(evicted, GroupsOf(t, all, byParent.Keys - todo))
      {
        var p :| p in todo;
        ghost var done := byParent.Keys - todo;
        OneMoreGroup(t, all, byParent, done, p);
        evicted := TakeGroup(p, byParent[p], evicted, t, all, GroupsOf(t, all, done));
        todo := todo - {p};
        assert byParent.Keys - todo == done + {p};
      }
      assert GroupsOf(t, all, byParent.Keys - {}) == all;
    }

    method TakeGroup(p: Ino, members: set<Ino>, evicted0: seq<Ino>, ghost t: Table, ghost all: set<Ino>, ghost gone: set<Ino>)
      returns (evicted: seq<Ino>)
      requires Inv(t) && AllEvictable(t, all) && gone <= all && members <= all - gone && Lists(evicted0, gone)
      requires forall c :: c in members ==> c in t.inodes && t.inodes[c].parent == p
      requires View() == Partial(t, gone, all, {})
      modifies this`inodes, this`paths
      ensures View() == Partial(t, gone + members, all, {})
      ensures Lists(evicted, gone + members)
    {
      evicted := evicted0;
      var group := members;
      ghost var out := gone;
      while group != {}
        invariant out + group == gone + members && out !! group && out <= all && group <= members
        invariant View() == Partial(t, out, all, {})
        invariant Lists(evicted, out)
        decreases group
      {
        var i :| i in group;
        TakeOne(t, out, all, i);
        var found := TakeInode(i, p, t, Partial(t, out + {i}, all, {}));
        if found {
          ListsMore(evicted, out, i);
          evicted := evicted + [i];
        }
        group := group - {i};
        out := out + {i};
      }
      assert out == gone + members;
    }

    method TakeInode(i: Ino, p: Ino, ghost t: Table, ghost after: Table) returns (found: bool)
      requires i in t.inodes && t.inodes[i].parent == p && TakenOne(t, View(), after, i)
      modifies this`inodes, this`paths
      ensures View() == after && found
    {
      found := i in inodes;
      if found {
        var entry := inodes[i];
        inodes := inodes - {i};
        paths := paths - {entry.fullPath};
        if p in inodes {
          inodes := inodes[p := inodes[p].(childIndex := inodes[p].childIndex - {entry.name})];
        }
      }
    }

    /** Removes one directory entry; the inode stays, with one link fewer. */
    method UnlinkEntry(parent: Ino, name: Name) returns (r: Option<(bool, Entry)>)
      modifies this
      ensures (View(), r) == UnlinkOne(old(View()), parent, name)
      ensures old(Inv(View()) && LookupChild(View(), parent, name).Some?) ==>
                (Inv(View()) <==>
                 old(inodes)[LookupChild(old(View()), parent, name).value].kind != Directory)
    {
      ghost var t := View();
      if Inv(t) && LookupChild(t, parent, name).Some? {
        UnlinkInvIff(t, parent, name);
      }
      if parent !in inodes || name !in inodes[parent].childIndex {
        return None;
      }
      var child := inodes[parent].childIndex[name];
      var fullPath := ChildPath(inodes[parent].fullPath, name);
      inodes := inodes[parent := RemoveChildByName(inodes[parent], name)];
      paths := paths - {fullPath};
      if child !in inodes {
        return None;
      }
      var e := inodes[child];
      e := e.(nlink := if e.nlink > 0 then e.nlink - 1 else 0);
      inodes := inodes[child := e];
      r := Some((e.nlink == 0, e));
    }

    /** Rewrites the edge to `ino` from `oldParent/oldName` to `newParent/newName`; paths are not touched. */
    method MoveEntry(ino: Ino, oldParent: Ino, oldName: Name, newParent: Ino, newName: Name)
      modifies this`inodes
      ensures inodes == MoveChild(old(inodes), ino, oldParent, oldName, newParent, newName)
    {
      var isDir := ino in inodes && inodes[ino].kind == Directory;
      if oldParent in inodes {
        inodes := inodes[oldParent := RemoveChildByName(inodes[oldParent], oldName)];
      }
      if newParent in inodes {
        inodes := inodes[newParent := AddChild(inodes[newParent], ino, newName)];
      }
      if isDir && oldParent != newParent {
        if oldParent in inodes {
          var p := inodes[oldParent];
          inodes := inodes[oldParent := p.(nlink := if p.nlink > 0 then p.nlink - 1 else 0)];
        }
        if newParent in inodes {
          inodes := inodes[newParent := inodes[newParent].(nlink := inodes[newParent].nlink + 1)];
        }
      }
      if ino in inodes {
        inodes := inodes[ino := inodes[ino].(parent := newParent, name := newName)];
      }
    }

    /** Rebases `ino` and everything below it, in both maps, by recursion over the child lists.
        `t` is a consistent table with the same child lists below `ino`; its paths are the old ones,
        and `top`, going to `topPath`, is where the rebasing started. */
    method UpdateSubtreePaths(ino: Ino, newFullPath: Path, ghost t: Table, ghost top: Ino, ghost topPath: Path)
      requires ino in inodes ==>
                 && Inv(t) && Attached(t, top) && ino in Subtree(t, top) && NewPathsFree(t, top, topPath)
                 && newFullPath == NewPathOf(t, top, topPath, ino) && StillOld(t, ino, inodes)
      modifies this`inodes, this`paths
      ensures ino !in old(inodes) ==> View() == old(View())
      ensures ino in old(inodes) ==>
                && Subtree(t, ino) <= Subtree(t, top)
                && EntriesRebased(t, top, topPath, Subtree(t, ino), old(inodes), inodes)
                && PathsRebased(t, top, topPath, Subtree(t, ino), old(paths), paths)
      decreases if ino in inodes then |Subtree(t, ino)| else 0
    {
      if ino !in inodes {
        return;
      }
      ghost var inodes0, paths0 := inodes, paths;
      paths := paths - {inodes[ino].fullPath};
      inodes := inodes[ino := inodes[ino].(fullPath := newFullPath)];
      paths := paths[newFullPath := ino];
      var children := inodes[ino].children;
      ghost var part := {ino};
      RebaseStarts(t, top, topPath, ino, inodes0, paths0, inodes, paths);
      for k := 0 to |children|
        invariant Rebasing(t, top, ino, k, part)
        invariant EntriesRebased(t, top, topPath, part, inodes0, inodes)
        invariant PathsRebased(t, top, topPath, part, paths0, paths)
      {
        ghost var inodes1, paths1 := inodes, paths;
        ghost var child := RebaseChildReady(t, top, topPath, ino, k, part);
        StillOldBelow(t, top, topPath, ino, children[k].ino, part, inodes0, inodes);
        UpdateSubtreePaths(children[k].ino, ChildPath(newFullPath, children[k].name), t, top, topPath);
        PartsCompose(t, top, topPath, part, child, inodes0, paths0, inodes1, paths1, inodes, paths);
        part := part + child;
      }
      RebaseEnds(t, top, ino, part);
    }

    /** `remove_remote_file` of the poll. */
    method RemoveRemoteFile(ino: Ino) returns (removed: bool)
      requires Inv(View())
      modifies this
      ensures View() == PollRemoved(old(View()), ino)
      ensures removed <==> ino in old(inodes) && !old(inodes)[ino].IsDirty()
      ensures ino in old(inodes) && old(inodes)[ino].kind == File ==> (Inv(View()) <==> PollSafe(old(View()), ino))
    {
      if ino !in inodes || inodes[ino].IsDirty() {
        return false;
      }
      ghost var t := View();
      if inodes[ino].kind == File { PollRemovedIff(t, ino); }
      if inodes[ino].openHandles > 0 {
        var r := UnlinkEntry(inodes[ino].parent, inodes[ino].name);
      } else {
        var r := RemoveEntry(ino);
      }
      removed := true;
    }

    method RemoveOrphanEntry(ino: Ino) returns (removed: bool)
      modifies this
      ensures (View(), removed) == RemoveOrphan(old(View()), ino)
      ensures old(Inv(View())) ==> Inv(View())
    {
      ghost var t := View();
      if Inv(t) {
        RemoveOrphanInv(t, ino);
      }
      if ino in inodes && inodes[ino].nlink == 0 {
        var path := inodes[ino].fullPath;
        inodes := inodes - {ino};
        if path in paths && paths[path] == ino {
          paths := paths - {path};
        }
        return true;
      }
      return false;
    }

    method EvictEntry(ino: Ino) returns (evicted: bool)
      modifies this
      ensures (View(), evicted) == EvictIfSafe(old(View()), ino)
      ensures old(Inv(View())) ==> Inv(View())
    {
      ghost var t := View();
      if Inv(t) {
        EvictInv(t, ino);
      }
      if ino !in inodes || !Evictable(inodes[ino]) {
        return false;
      }
      var entry := inodes[ino];
      inodes := inodes - {ino};
      paths := paths - {entry.fullPath};
      if entry.parent in inodes {
        inodes := inodes[entry.parent := RemoveChildByIno(inodes[entry.parent], ino).(childrenLoaded := false)];
      }
      return true;
    }
  }

  ghost predicate Busy(t: Table, j: Ino) {
    j in t.inodes && (t.inodes[j].IsDirty() || t.inodes[j].openHandles > 0)
  }

  // ---- Proof steps of RemoveEntry ----

  /** Half-way through: `gone` is out of both maps, and the stack covers what is still to go. */
  ghost predicate Removing(t: Table, i: Ino, gone: set<Ino>, stack: seq<Ino>,
                           inodes: map<Ino, Entry>, paths: map<Path, Ino>)
    requires i in t.inodes
  {
    && Known(t, stack) && Apart(t, stack)
    && gone + Cover(t, stack) == Doomed(t, i) && gone !! Cover(t, stack)
    && i in gone && gone <= t.inodes.Keys
    && inodes == Detached(t, i) - (gone - {i})
    && paths == t.paths - OldPaths(t, gone)
  }

  ghost function Detached(t: Table, i: Ino): (m: map<Ino, Entry>)
    requires i in t.inodes
  {
    DetachFromParent(t.inodes - {i}, t.inodes[i].parent, i, t.inodes[i].kind)
  }

  lemma RemovalStarts(t: Table, i: Ino)
    requires Inv(t) && i in t.inodes
    ensures Removing(t, i, {i}, Inos(t.inodes[i].children), Detached(t, i), t.paths - {t.inodes[i].fullPath})
  {
    KidsCover(t, i);
    assert OldPaths(t, {i}) == {t.inodes[i].fullPath};
    assert {i} - {i} == {};
    assert Detached(t, i) - {} == Detached(t, i);
  }

  lemma RemovalStep(t: Table, i: Ino, gone: set<Ino>, stack: seq<Ino>,
                    inodes: map<Ino, Entry>, paths: map<Path, Ino>)
    requires Inv(t) && i in t.inodes && Removing(t, i, gone, stack, inodes, paths) && stack != []
    ensures var c := stack[|stack| - 1];
            && c in inodes
            && var stack' := stack[..|stack| - 1] + Inos(inodes[c].children);
               && Removing(t, i, gone + {c}, stack', inodes - {c}, paths - {inodes[c].fullPath})
               && Cover(t, stack') < Cover(t, stack)
  {
    var c := stack[|stack| - 1];
    PopPush(t, stack);
    DetachKeeps(t, i, c);
    assert OldPaths(t, gone + {c}) == OldPaths(t, gone) + {t.inodes[c].fullPath};
    assert gone + {c} - {i} == (gone - {i}) + {c};
    assert Detached(t, i) - ((gone - {i}) + {c}) == (Detached(t, i) - (gone - {i})) - {c};
  }

  /** Detaching `i` from its parent leaves every entry below `i` as it was. */
  lemma DetachKeeps(t: Table, i: Ino, j: Ino)
    requires Inv(t) && i in t.inodes && j in Doomed(t, i)
    ensures j != i ==> j in Detached(t, i) && Detached(t, i)[j] == t.inodes[j]
  {
    assert NodeOk(t, i);
    if j != i && i != ROOT {
      assert t.inodes[i].parent !in Doomed(t, i);
    }
  }

  lemma RemovalEnds(t: Table, i: Ino, gone: set<Ino>, t': Table)
    requires Inv(t) && i in t.inodes && t'.next == t.next && Removing(t, i, gone, [], t'.inodes, t'.paths)
    ensures t' == Remove(t, i)
  {
    var doomed := Doomed(t, i);
    assert gone == doomed;
    DetachCommutes(t, i);
    assert OldPaths(t, doomed) == set j | j in doomed && j in t.inodes :: t.inodes[j].fullPath;
  }

  /** The parent is outside the doomed set, so it does not matter when `i` is detached from it. */
  lemma DetachCommutes(t: Table, i: Ino)
    requires Inv(t) && i in t.inodes
    ensures Detached(t, i) - (Doomed(t, i) - {i})
         == DetachFromParent(t.inodes - Doomed(t, i), t.inodes[i].parent, i, t.inodes[i].kind)
  {
    var doomed, d := Doomed(t, i), t.inodes[i].parent;
    assert NodeOk(t, i);
    assert i in doomed;
    assert d in doomed ==> d == i;
    assert t.inodes - doomed == (t.inodes - {i}) - (doomed - {i});
  }

  // ---- Moving an edge ----

  function MoveChild(inodes: map<Ino, Entry>, ino: Ino, op: Ino, on: Name, np: Ino, nn: Name): (r: map<Ino, Entry>) {
    var isDir := ino in inodes && inodes[ino].kind == Directory;
    var a := if op in inodes then inodes[op := RemoveChildByName(inodes[op], on)] else inodes;
    var b := if np in a then a[np := AddChild(a[np], ino, nn)] else a;
    var c := if isDir && op != np && op in b
             then b[op := b[op].(nlink := if b[op].nlink > 0 then b[op].nlink - 1 else 0)] else b;
    var d := if isDir && op != np && np in c then c[np := c[np].(nlink := c[np].nlink + 1)] else c;
    if ino in d then d[ino := d[ino].(parent := np, name := nn)] else d
  }

  // ---- Proof steps of UpdateSubtreePaths ----

  /** Below `ino`, the entries still have the paths and children they have in `t`. */
  ghost predicate StillOld(t: Table, ino: Ino, inodes: map<Ino, Entry>)
    requires ino in t.inodes
  {
    forall j :: j in Subtree(t, ino) ==>
      j in inodes && inodes[j].fullPath == t.inodes[j].fullPath && inodes[j].children == t.inodes[j].children
  }

  /** `part` is `ino` and the subtrees of its first `k` children. */
  ghost predicate Rebasing(t: Table, top: Ino, ino: Ino, k: nat, part: set<Ino>)
  {
    && Inv(t) && Attached(t, top) && ino in Subtree(t, top)
    && k <= |t.inodes[ino].children|
    && Known(t, Inos(t.inodes[ino].children))
    && part == {ino} + Cover(t, Inos(t.inodes[ino].children)[..k])
    && part <= Subtree(t, ino) <= Subtree(t, top)
  }

  lemma SubtreeInside(t: Table, top: Ino, ino: Ino)
    requires Inv(t) && Attached(t, top) && ino in Subtree(t, top)
    ensures Attached(t, ino) && ino in Subtree(t, ino) && Subtree(t, ino) <= Subtree(t, top)
  {
  }

  lemma RebaseStarts(t: Table, top: Ino, topPath: Path, ino: Ino,
                     inodes0: map<Ino, Entry>, paths0: map<Path, Ino>, inodes: map<Ino, Entry>, paths: map<Path, Ino>)
    requires Inv(t) && Attached(t, top) && ino in Subtree(t, top) && NewPathsFree(t, top, topPath)
    requires StillOld(t, ino, inodes0) && ino in inodes0
    requires var p := NewPathOf(t, top, topPath, ino);
             && inodes == inodes0[ino := inodes0[ino].(fullPath := p)]
             && paths == (paths0 - {inodes0[ino].fullPath})[p := ino]
    ensures Rebasing(t, top, ino, 0, {ino})
    ensures EntriesRebased(t, top, topPath, {ino}, inodes0, inodes)
    ensures PathsRebased(t, top, topPath, {ino}, paths0, paths)
    ensures inodes[ino].children == t.inodes[ino].children
  {
    SubtreeInside(t, top, ino);
    KidsKnown(t, ino);
    var kids := Inos(t.inodes[ino].children);
    assert kids[..0] == [];
    assert NewPaths(t, top, topPath, {ino}) == {NewPathOf(t, top, topPath, ino)};
    assert OldPaths(t, {ino}) == {t.inodes[ino].fullPath};
  }

  /** The next child's subtree, which no earlier child shares. */
  lemma RebaseChildReady(t: Table, top: Ino, topPath: Path, ino: Ino, k: nat, part: set<Ino>)
    returns (child: set<Ino>)
    requires Rebasing(t, top, ino, k, part) && k < |t.inodes[ino].children|
    ensures var c := t.inodes[ino].children[k];
            && Attached(t, c.ino) && c.ino in Subtree(t, top) && child == Subtree(t, c.ino)
            && part !! child && child <= Subtree(t, top) && |child| < |Subtree(t, ino)|
            && ChildPath(NewPathOf(t, top, topPath, ino), c.name) == NewPathOf(t, top, topPath, c.ino)
    ensures Rebasing(t, top, ino, k + 1, part + child)
  {
    var c := t.inodes[ino].children[k];
    KidKnown(t, ino, k);
    child := Subtree(t, c.ino);
    SubtreeInside(t, top, ino);
    ChildInside(t, ino, ino, c.name);
    SubtreeInside(t, ino, c.ino);
    RebasedChild(t.inodes[ino].fullPath, t.inodes[top].fullPath, topPath, c.name);
    NextKid(t, ino, k);
    ProperSubsetSmaller(child, Subtree(t, ino));
  }

  lemma NextKid(t: Table, ino: Ino, k: nat)
    requires Inv(t) && Attached(t, ino) && k < |t.inodes[ino].children| && Known(t, Inos(t.inodes[ino].children))
    ensures var kids := Inos(t.inodes[ino].children);
            && Attached(t, kids[k])
            && Cover(t, kids[..k]) !! Subtree(t, kids[k]) && ino !in Subtree(t, kids[k])
            && Cover(t, kids[..k + 1]) == Cover(t, kids[..k]) + Subtree(t, kids[k])
  {
    var kids := Inos(t.inodes[ino].children);
    KidKnown(t, ino, k);
    KidsApart(t, ino, k + 1);
    assert kids[..k + 1][..k] == kids[..k];
  }

  lemma ProperSubsetSmaller(a: set<Ino>, b: set<Ino>)
    requires a < b
    ensures |a| < |b|
  {
    assert |b| == |a| + |b - a| by {
      assert b == a + (b - a);
    }
    assert b - a != {};
  }

  lemma StillOldBelow(t: Table, top: Ino, topPath: Path, ino: Ino, c: Ino, part: set<Ino>,
                      inodes0: map<Ino, Entry>, inodes: map<Ino, Entry>)
    requires top in t.inodes && ino in t.inodes && c in t.inodes && part <= Subtree(t, top)
    requires StillOld(t, ino, inodes0) && part !! Subtree(t, c) && t.inodes[ino].fullPath <= t.inodes[c].fullPath
    requires EntriesRebased(t, top, topPath, part, inodes0, inodes)
    ensures StillOld(t, c, inodes)
  {
  }

  lemma RebaseEnds(t: Table, top: Ino, ino: Ino, part: set<Ino>)
    requires ino in t.inodes && Rebasing(t, top, ino, |t.inodes[ino].children|, part)
    ensures part == Subtree(t, ino)
  {
    var kids := Inos(t.inodes[ino].children);
    assert kids[..|kids|] == kids;
    forall j | j in Subtree(t, ino)
      ensures j in part
    {
      BelowIsKids(t, ino, j);
    }
  }

  // ---- Proof steps of EvictBatchIfSafe ----

  /** `byParent` is `all`, grouped by parent directory. */
  ghost predicate Grouped(t: Table, all: set<Ino>, byParent: map<Ino, set<Ino>>) {
    && all <= t.inodes.Keys
    && (forall p :: p in byParent ==> byParent[p] == set c | c in all && t.inodes[c].parent == p)
    && byParent.Keys == Parents(t, all)
  }

  /** `s` enumerates `all` without repetition. */
  ghost predicate Lists(s: seq<Ino>, all: set<Ino>) {
    (forall x :: x in s <==> x in all) && |s| == |all|
  }

  lemma ListsMore(s: seq<Ino>, all: set<Ino>, x: Ino)
    requires Lists(s, all) && x !in all
    ensures Lists(s + [x], all + {x})
  {
  }

  lemma PartialNone(t: Table, all: set<Ino>)
    ensures Partial(t, {}, all, {}) == t
  {
    forall j | j in t.inodes
      ensures Stripped(t, {}, all, false, j) == t.inodes[j]
    {
      assert NamesUnder(t, {}, j) == {};
      assert t.inodes[j].childIndex - {} == t.inodes[j].childIndex;
    }
    assert Partial(t, {}, all, {}).inodes == t.inodes;
    assert Partial(t, {}, all, {}).paths == t.paths;
  }

  /** The members of `all` whose parent is in `done`. */
  ghost function GroupsOf(t: Table, all: set<Ino>, done: set<Ino>): (s: set<Ino>) {
    set c | c in all && c in t.inodes && t.inodes[c].parent in done
  }

  lemma OneMoreGroup(t: Table, all: set<Ino>, byParent: map<Ino, set<Ino>>, done: set<Ino>, p: Ino)
    requires Grouped(t, all, byParent) && p in byParent && p !in done
    ensures GroupsOf(t, all, done + {p}) == GroupsOf(t, all, done) + byParent[p]
    ensures byParent[p] <= all - GroupsOf(t, all, done)
  {
  }

  lemma MinusUnion<K, V>(m: map<K, V>, a: set<K>, b: set<K>)
    ensures m - (a + b) == (m - a) - b
  {
  }

  /** Taking one more inode out of the maps and out of its parent's name index. */
  lemma TakeOne(t: Table, gone: set<Ino>, all: set<Ino>, i: Ino)
    requires Inv(t) && AllEvictable(t, all) && gone <= all && i in all && i !in gone
    ensures i in t.inodes && t.inodes[i].parent in t.inodes
    ensures TakenOne(t, Partial(t, gone, all, {}), Partial(t, gone + {i}, all, {}), i)
  {
    assert EvictableNow(t, i) && NodeOk(t, i);
    var d := t.inodes[i].parent;
    assert !EvictableNow(t, d);
    var a, b := Partial(t, gone, all, {}), Partial(t, gone + {i}, all, {});
    forall j | j in t.inodes && j !in gone && j != i
      ensures j in a.inodes && j in b.inodes
      ensures b.inodes[j] == if j == d then a.inodes[d].(childIndex := a.inodes[d].childIndex - {t.inodes[i].name})
                             else a.inodes[j]
    {
      TakenEntry(t, gone, i, all, j);
    }
    TakenPaths(t, gone, i);
  }

  /** `b` is `a` without the file `i`, in the inode map, the path index and its parent's name index. */
  ghost predicate TakenOne(t: Table, a: Table, b: Table, i: Ino)
    requires i in t.inodes
  {
    var d := t.inodes[i].parent;
    && i in a.inodes && d in a.inodes && d != i && b.next == a.next
    && a.inodes[i].name == t.inodes[i].name && a.inodes[i].fullPath == t.inodes[i].fullPath
    && b.inodes == (a.inodes - {i})[d := a.inodes[d].(childIndex := a.inodes[d].childIndex - {t.inodes[i].name})]
    && b.paths == a.paths - {t.inodes[i].fullPath}
  }

  lemma TakenEntry(t: Table, gone: set<Ino>, i: Ino, all: set<Ino>, j: Ino)
    requires i in t.inodes && j in t.inodes && i !in gone
    ensures var a, b := Stripped(t, gone, all, false, j), Stripped(t, gone + {i}, all, false, j);
            b == if j == t.inodes[i].parent then a.(childIndex := a.childIndex - {t.inodes[i].name}) else a
  {
    var name := t.inodes[i].name;
    if j == t.inodes[i].parent {
      assert NamesUnder(t, gone + {i}, j) == NamesUnder(t, gone, j) + {name};
      MinusUnion(t.inodes[j].childIndex, NamesUnder(t, gone, j), {name});
    } else {
      assert NamesUnder(t, gone + {i}, j) == NamesUnder(t, gone, j);
    }
  }

  lemma TakenPaths(t: Table, gone: set<Ino>, i: Ino)
    requires i in t.inodes
    ensures t.paths - (set c | c in gone + {i} && c in t.inodes :: t.inodes[c].fullPath)
         == (t.paths - (set c | c in gone && c in t.inodes :: t.inodes[c].fullPath)) - {t.inodes[i].fullPath}
  {
    var before := set c | c in gone && c in t.inodes :: t.inodes[c].fullPath;
    var after := set c | c in gone + {i} && c in t.inodes :: t.inodes[c].fullPath;
    assert after == before + {t.inodes[i].fullPath};
    MinusUnion(t.paths, before, {t.inodes[i].fullPath});
  }

  /** Filtering the list of one more touched parent. */
  lemma FilterParent(t: Table, all: set<Ino>, byParent: map<Ino, set<Ino>>, done: set<Ino>, p: Ino)
    requires Inv(t) && AllEvictable(t, all) && Grouped(t, all, byParent) && p in byParent && p !in done
    ensures var a, b := Partial(t, all, all, done), Partial(t, all, all, done + {p});
            && p in a.inodes && b.paths == a.paths
            && b.inodes == a.inodes[p := a.inodes[p].(children := Retain(a.inodes[p].children, byParent[p]),
                                                      childrenLoaded := false)]
  {
    var c :| c in all && t.inodes[c].parent == p;
    assert EvictableNow(t, c) && NodeOk(t, c);
    assert !EvictableNow(t, p);
    assert NodeOk(t, p);
    forall k | k in t.inodes[p].children
      ensures k.ino in byParent[p] <==> k.ino in all
    {
      assert EdgeOk(t, p, k.name);
    }
    RetainSame(t.inodes[p].children, byParent[p], all);
    var a, b := Partial(t, all, all, done), Partial(t, all, all, done + {p});
    var want := a.inodes[p := a.inodes[p].(children := Retain(a.inodes[p].children, byParent[p]), childrenLoaded := false)];
    assert b.inodes.Keys == want.Keys;
    assert b.inodes == want;
  }
}
