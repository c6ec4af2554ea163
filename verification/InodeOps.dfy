/** The operations of the inode table on values, and the proof that each keeps
    the global invariant (or exactly when it does). */
module InodeOps {
  import opened Prelude
  import opened Inodes

  // ---- Framing ----

  /** `j`'s entry and everything `NodeOk` says about its neighbours are as before. */
  ghost predicate Framed(t: Table, t': Table, j: Ino) {
    && j in t.inodes && j in t'.inodes && t.next <= t'.next
    && SameShape(t.inodes[j], t'.inodes[j])
    && (j != ROOT && t.inodes[j].nlink > 0 ==> UpKept(t, t', j))
    && (forall n {:trigger EdgeOk(t', j, n)} :: n in t.inodes[j].childIndex ==>
          EdgeKept(t, t', t.inodes[j].childIndex[n]))
    && (t.inodes[j].nlink > 0 && t.inodes[j].fullPath in t.paths ==>
          t.inodes[j].fullPath in t'.paths && t'.paths[t.inodes[j].fullPath] == t.paths[t.inodes[j].fullPath])
  }

  ghost predicate SameShape(a: Entry, b: Entry) {
    && a.parent == b.parent && a.name == b.name && a.fullPath == b.fullPath && a.kind == b.kind
    && a.nlink == b.nlink && a.children == b.children && a.childIndex == b.childIndex
  }

  ghost predicate UpKept(t: Table, t': Table, j: Ino)
    requires j in t.inodes
  {
    var p := t.inodes[j].parent;
    IsDir(t, p) && t.inodes[j].name in t.inodes[p].childIndex ==>
      && IsDir(t', p) && t'.inodes[p].fullPath == t.inodes[p].fullPath
      && t.inodes[j].name in t'.inodes[p].childIndex
      && t'.inodes[p].childIndex[t.inodes[j].name] == t.inodes[p].childIndex[t.inodes[j].name]
  }

  ghost predicate EdgeKept(t: Table, t': Table, c: Ino) {
    c in t.inodes ==>
      && c in t'.inodes && t'.inodes[c].parent == t.inodes[c].parent && t'.inodes[c].name == t.inodes[c].name
      && t'.inodes[c].kind == t.inodes[c].kind && (t.inodes[c].nlink > 0 ==> t'.inodes[c].nlink > 0)
  }

  lemma FramedNode(t: Table, t': Table, j: Ino)
    requires Framed(t, t', j) && NodeOk(t, j)
    ensures NodeOk(t', j)
  {
    forall n | n in t'.inodes[j].childIndex
      ensures EdgeOk(t', j, n)
    {
      assert EdgeOk(t, j, n);
    }
    if t.inodes[j].kind == Directory {
      assert Subdirs(t', j) == Subdirs(t, j) by {
        forall n | n in t.inodes[j].childIndex
          ensures IsDir(t, t.inodes[j].childIndex[n]) <==> IsDir(t', t.inodes[j].childIndex[n])
        {
          assert EdgeOk(t, j, n) && EdgeOk(t', j, n);
        }
      }
    }
  }

  // ---- New table ----

  function EmptyEntry(parent: Ino, name: Name, path: Path, kind: Kind, hash: Option<Hash>): (e: Entry) {
    Entry(parent, name, path, kind, if kind == Directory then 2 else 1, hash, 0, false, [], map[], [], 0, 0)
  }

  function NewTable(): (t: Table) {
    Table(map[ROOT := EmptyEntry(ROOT, "", [], Directory, None)], map[[] := ROOT], 2)
  }

  lemma NewTableInv()
    ensures Inv(NewTable())
    ensures NewTable().inodes.Keys == {1} && NewTable().paths == map[[] := 1] && NewTable().next == 2
    ensures var e := NewTable().inodes[1];
            && e.parent == 1 && e.name == "" && e.fullPath == [] && e.kind == Directory && e.nlink == 2 && e.hash == None
            && e.dirtyGeneration == 0 && !e.childrenLoaded && e.children == [] && e.childIndex == map[]
            && e.pendingDeletes == [] && e.nlookup == 0 && e.openHandles == 0
  {
    var t := NewTable();
    assert Subdirs(t, ROOT) == {};
    assert NodeOk(t, ROOT);
    assert PathOk(t, []);
  }

  // ---- Insert ----

  function Insert(t: Table, parent: Ino, name: Name, path: Path, kind: Kind, hash: Option<Hash>): (r: (Table, Ino))
  {
    if path in t.paths then (t, t.paths[path])
    else
      var i := t.next;
      var inodes := t.inodes[i := EmptyEntry(parent, name, path, kind, hash)];
      var inodes' :=
        if parent in inodes then
          var p := AddChild(inodes[parent], i, name);
          inodes[parent := p.(nlink := p.nlink + if kind == Directory then 1 else 0)]
        else inodes;
      (Table(inodes', t.paths[path := i], i + 1), i)
  }

  /** Inserting under a directory with the path that parent and name give keeps the invariant; the returned inode is then
      the one the path resolves to.  A path that is taken changes nothing.  Otherwise the new inode holds what it is
      given and nothing else, its parent gets an edge at the end of its list, and all others stay as they are. */
  lemma InsertInv(t: Table, parent: Ino, name: Name, path: Path, kind: Kind, hash: Option<Hash>)
    requires Inv(t) && IsDir(t, parent) && path == ChildPath(t.inodes[parent].fullPath, name)
    ensures var (t', i) := Insert(t, parent, name, path, kind, hash);
            Inv(t') && GetByPath(t', path) == Some(i) && LookupChild(t', parent, name) == Some(i)
    ensures var (t', i) := Insert(t, parent, name, path, kind, hash);
            path in t.paths ==> t' == t && i == t.paths[path]
    ensures var (t', i) := Insert(t, parent, name, path, kind, hash);
            path !in t.paths ==>
              && i == t.next && i !in t.inodes && t'.next == t.next + 1
              && t'.inodes.Keys == t.inodes.Keys + {i} && t'.paths == t.paths[path := i]
              && t'.inodes[i].parent == parent && t'.inodes[i].name == name && t'.inodes[i].fullPath == path
              && t'.inodes[i].kind == kind && t'.inodes[i].hash == hash
              && t'.inodes[i].nlink == (if kind == Directory then 2 else 1)
              && t'.inodes[i].dirtyGeneration == 0 && !t'.inodes[i].childrenLoaded
              && t'.inodes[i].children == [] && t'.inodes[i].childIndex == map[]
              && t'.inodes[i].pendingDeletes == [] && t'.inodes[i].nlookup == 0 && t'.inodes[i].openHandles == 0
              && (forall j :: j in t.inodes && j != parent ==> t'.inodes[j] == t.inodes[j])
              && t'.inodes[parent] == t.inodes[parent].(
                   children := t.inodes[parent].children + [DirChild(i, name)],
                   childIndex := t.inodes[parent].childIndex[name := i],
                   nlink := t.inodes[parent].nlink + if kind == Directory then 1 else 0)
  {
    InsertedFields(t, parent, name, path, kind, hash);
    InsertedInv(t, parent, name, path, kind, hash);
  }

  lemma InsertedInv(t: Table, parent: Ino, name: Name, path: Path, kind: Kind, hash: Option<Hash>)
    requires Inv(t) && IsDir(t, parent) && path == ChildPath(t.inodes[parent].fullPath, name)
    ensures var (t', i) := Insert(t, parent, name, path, kind, hash);
            Inv(t') && GetByPath(t', path) == Some(i) && LookupChild(t', parent, name) == Some(i)
  {
    if path in t.paths {
      TakenResolves(t, parent, name, path);
    } else {
      FreshInv(t, parent, name, path, kind, hash);
    }
  }

  lemma TakenResolves(t: Table, parent: Ino, name: Name, path: Path)
    requires Inv(t) && IsDir(t, parent) && path == ChildPath(t.inodes[parent].fullPath, name) && path in t.paths
    ensures GetByPath(t, path) == Some(t.paths[path]) && LookupChild(t, parent, name) == Some(t.paths[path])
  {
    assert NodeOk(t, parent);
    WalkIsIndex(t, path);
    assert path[..|path| - 1] == t.inodes[parent].fullPath && path[|path| - 1] == name;
    WalkIsIndex(t, t.inodes[parent].fullPath);
    assert PathOk(t, path);
  }

  lemma FreshInv(t: Table, parent: Ino, name: Name, path: Path, kind: Kind, hash: Option<Hash>)
    requires Inv(t) && IsDir(t, parent) && path == ChildPath(t.inodes[parent].fullPath, name) && path !in t.paths
    ensures var (t', i) := Insert(t, parent, name, path, kind, hash);
            Inv(t') && GetByPath(t', path) == Some(i) && LookupChild(t', parent, name) == Some(i)
  {
    var (t', i) := Insert(t, parent, name, path, kind, hash);
    NameFree(t, parent, name);
    InsertedNodes(t, parent, name, path, kind, hash);
    InsertedPaths(t, parent, name, path, kind, hash);
    assert NodeOk(t, ROOT) && NodeOk(t, parent);
  }

  lemma NameFree(t: Table, parent: Ino, name: Name)
    requires Inv(t) && IsDir(t, parent) && ChildPath(t.inodes[parent].fullPath, name) !in t.paths
    ensures t.next !in t.inodes && name !in t.inodes[parent].childIndex
  {
    if t.next in t.inodes { NodeOkOf(t, t.next); }
    if name in t.inodes[parent].childIndex { EdgePath(t, parent, name); }
  }

  lemma InsertedPaths(t: Table, parent: Ino, name: Name, path: Path, kind: Kind, hash: Option<Hash>)
    requires Inv(t) && IsDir(t, parent) && path !in t.paths && t.next !in t.inodes
    ensures var t' := Insert(t, parent, name, path, kind, hash).0;
            forall p {:trigger PathOk(t', p)} :: p in t'.paths ==> PathOk(t', p)
  {
    var t' := Insert(t, parent, name, path, kind, hash).0;
    forall p | p in t'.paths
      ensures PathOk(t', p)
    {
      if p != path { assert PathOk(t, p); }
    }
  }

  lemma InsertedFields(t: Table, parent: Ino, name: Name, path: Path, kind: Kind, hash: Option<Hash>)
    requires Inv(t) && IsDir(t, parent) && path == ChildPath(t.inodes[parent].fullPath, name)
    ensures var (t', i) := Insert(t, parent, name, path, kind, hash);
            path in t.paths ==> t' == t && i == t.paths[path]
    ensures var (t', i) := Insert(t, parent, name, path, kind, hash);
            path !in t.paths ==>
              && i == t.next && i !in t.inodes && t'.next == t.next + 1
              && t'.inodes.Keys == t.inodes.Keys + {i} && t'.paths == t.paths[path := i]
              && t'.inodes[i].parent == parent && t'.inodes[i].name == name && t'.inodes[i].fullPath == path
              && t'.inodes[i].kind == kind && t'.inodes[i].hash == hash
              && t'.inodes[i].nlink == (if kind == Directory then 2 else 1)
              && t'.inodes[i].dirtyGeneration == 0 && !t'.inodes[i].childrenLoaded
              && t'.inodes[i].children == [] && t'.inodes[i].childIndex == map[]
              && t'.inodes[i].pendingDeletes == [] && t'.inodes[i].nlookup == 0 && t'.inodes[i].openHandles == 0
              && (forall j :: j in t.inodes && j != parent ==> t'.inodes[j] == t.inodes[j])
              && t'.inodes[parent] == t.inodes[parent].(
                   children := t.inodes[parent].children + [DirChild(i, name)],
                   childIndex := t.inodes[parent].childIndex[name := i],
                   nlink := t.inodes[parent].nlink + if kind == Directory then 1 else 0)
  {
    assert NodeOk(t, parent);
    if t.next in t.inodes { NodeOkOf(t, t.next); }
  }

  lemma InsertedNodes(t: Table, parent: Ino, name: Name, path: Path, kind: Kind, hash: Option<Hash>)
    requires Inv(t) && IsDir(t, parent) && path == ChildPath(t.inodes[parent].fullPath, name)
    requires path !in t.paths && t.next !in t.inodes && name !in t.inodes[parent].childIndex
    ensures var t' := Insert(t, parent, name, path, kind, hash).0;
            forall j {:trigger NodeOk(t', j)} :: j in t'.inodes ==> NodeOk(t', j)
  {
    var (t', i) := Insert(t, parent, name, path, kind, hash);
    forall j | j in t'.inodes
      ensures NodeOk(t', j)
    {
      if j == i {
        assert Subdirs(t', i) == {};
      } else if j == parent {
        assert NodeOk(t, parent);
        forall n | n in t.inodes[parent].childIndex
          ensures t.inodes[parent].childIndex[n] != i
        {
          assert EdgeOk(t, parent, n);
        }
        ParentGains(t, t', parent, i, name);
      } else {
        assert NodeOk(t, j);
        forall n | n in t.inodes[j].childIndex
          ensures EdgeKept(t, t', t.inodes[j].childIndex[n])
        {
          assert EdgeOk(t, j, n);
        }
        FramedNode(t, t', j);
      }
    }
  }

  /** `t'` is `t` except at `d` and `i`, and `d` gained the edge `name` to `i` with its link count. */
  ghost predicate Gained(t: Table, t': Table, d: Ino, i: Ino, name: Name) {
    && IsDir(t, d) && name !in t.inodes[d].childIndex
    && d in t'.inodes && i in t'.inodes && i != d && i != ROOT
    && (forall j :: j in t.inodes && j != d && j != i ==> j in t'.inodes && t'.inodes[j] == t.inodes[j])
    && t'.inodes[i].parent == d && t'.inodes[i].name == name && t'.inodes[i].nlink > 0
    && var e, e' := t.inodes[d], t'.inodes[d];
       && e'.childIndex == e.childIndex[name := i] && e'.children == e.children + [DirChild(i, name)]
       && e'.nlink == e.nlink + (if t'.inodes[i].kind == Directory then 1 else 0)
       && e'.parent == e.parent && e'.name == e.name && e'.fullPath == e.fullPath && e'.kind == e.kind
  }

  lemma ParentGains(t: Table, t': Table, d: Ino, i: Ino, name: Name)
    requires Inv(t) && Gained(t, t', d, i, name) && t.next <= t'.next
    requires forall n :: n in t.inodes[d].childIndex ==> t.inodes[d].childIndex[n] != i
    requires d != ROOT ==> t.inodes[d].parent != i
    requires t.inodes[d].fullPath in t'.paths && t'.paths[t.inodes[d].fullPath] == d
    ensures NodeOk(t', d)
  {
    assert NodeOk(t, d);
    GainedEdges(t, t', d, i, name);
    AppendAgrees(t.inodes[d].children, t.inodes[d].childIndex, i, name);
    assert UpOk(t', d);
  }

  lemma GainedEdges(t: Table, t': Table, d: Ino, i: Ino, name: Name)
    requires Inv(t) && Gained(t, t', d, i, name)
    requires forall n :: n in t.inodes[d].childIndex ==> t.inodes[d].childIndex[n] != i
    ensures CountOk(t', d)
    ensures forall n {:trigger EdgeOk(t', d, n)} :: n in t'.inodes[d].childIndex ==> EdgeOk(t', d, n)
  {
    assert NodeOk(t, d);
    var ix := t.inodes[d].childIndex;
    forall n | n in ix
      ensures EdgeOk(t', d, n) && (IsDir(t', ix[n]) <==> IsDir(t, ix[n]))
    {
      EdgePath(t, d, n);
      assert EdgeOk(t, d, n);
    }
    assert EdgeOk(t', d, name);
    var grown := if t'.inodes[i].kind == Directory then Subdirs(t, d) + {name} else Subdirs(t, d);
    assert Subdirs(t', d) == grown;
  }

  lemma AppendAgrees(children: seq<DirChild>, index: map<Name, Ino>, i: Ino, name: Name)
    requires ListAgrees(children, index) && name !in index
    ensures ListAgrees(children + [DirChild(i, name)], index[name := i])
  {
    var cs := children + [DirChild(i, name)];
    assert forall c :: c in cs <==> c in children || c == DirChild(i, name);
    assert forall k :: 0 <= k < |children| ==> cs[k] == children[k] && cs[k] in children;
  }

  // ---- Losing an edge ----

  /** `t'` agrees with `t` on what both have, except at `d` and at the end of `d`'s edge `name`,
      and `d` lost that edge with its link count. */
  ghost predicate Lost(t: Table, t': Table, d: Ino, name: Name) {
    && IsDir(t, d) && d in t'.inodes && name in t.inodes[d].childIndex
    && var i := t.inodes[d].childIndex[name];
       var e, e' := t.inodes[d], t'.inodes[d];
       && i != d
       && (forall j :: j in t'.inodes && j != d && j != i ==> j in t.inodes && t'.inodes[j] == t.inodes[j])
       && e'.childIndex == e.childIndex - {name} && e'.children == WithoutIno(e.children, i)
       && e'.nlink == (if IsDir(t, i) && e.nlink > 0 then e.nlink - 1 else e.nlink)
       && e'.parent == e.parent && e'.name == e.name && e'.fullPath == e.fullPath && e'.kind == e.kind
  }

  lemma LostEdges(t: Table, t': Table, d: Ino, name: Name)
    requires Inv(t) && Lost(t, t', d, name)
    requires forall n :: n in t.inodes[d].childIndex && n != name ==> t.inodes[d].childIndex[n] in t'.inodes
    ensures CountOk(t', d)
    ensures forall n {:trigger EdgeOk(t', d, n)} :: n in t'.inodes[d].childIndex ==> EdgeOk(t', d, n)
  {
    assert NodeOk(t, d) && EdgeOk(t, d, name);
    var ix := t.inodes[d].childIndex;
    forall n | n in ix && n != name
      ensures EdgeOk(t', d, n) && (IsDir(t', ix[n]) <==> IsDir(t, ix[n]))
    {
      EdgePath(t, d, n);
      assert EdgeOk(t, d, n);
    }
    assert Subdirs(t', d) == Subdirs(t, d) - {name};
  }

  lemma ParentLoses(t: Table, t': Table, d: Ino, name: Name)
    requires Inv(t) && Lost(t, t', d, name) && t.next <= t'.next
    requires forall n :: n in t.inodes[d].childIndex && n != name ==> t.inodes[d].childIndex[n] in t'.inodes
    requires d != ROOT ==> t.inodes[d].parent in t'.inodes && t.inodes[d].parent != t.inodes[d].childIndex[name]
    requires t.inodes[d].fullPath in t'.paths && t'.paths[t.inodes[d].fullPath] == d
    ensures NodeOk(t', d)
  {
    assert NodeOk(t, d);
    LostEdges(t, t', d, name);
    ChildrenOneEdge(t, d);
    WithoutInoAgrees(t.inodes[d].children, t.inodes[d].childIndex, name);
    assert UpOk(t', d);
  }

  // ---- Subtrees ----

  /** The attached inodes whose path starts with `i`'s. */
  ghost function Subtree(t: Table, i: Ino): (s: set<Ino>)
    requires i in t.inodes
  {
    set j | j in t.inodes && t.inodes[j].nlink > 0 && t.inodes[i].fullPath <= t.inodes[j].fullPath
  }

  /** A subtree is closed upwards to its top: the parent of any other member is a member. */
  lemma SubtreeParent(t: Table, i: Ino, j: Ino)
    requires Inv(t) && Attached(t, i) && j in Subtree(t, i) && j != i
    ensures j != ROOT && t.inodes[j].parent in Subtree(t, i)
  {
    assert NodeOk(t, j) && NodeOk(t, i);
    var a, b := t.inodes[i].fullPath, t.inodes[j].fullPath;
    assert a != b by {
      if a == b { PathsUnique(t, i, j); }
    }
    assert |a| < |b|;
    var p := t.inodes[j].parent;
    assert NodeOk(t, p);
    assert b[..|b| - 1] == t.inodes[p].fullPath;
    assert a <= b[..|b| - 1];
  }

  /** Downwards: every child of a member is a member. */
  lemma SubtreeChild(t: Table, i: Ino, d: Ino, n: Name)
    requires Inv(t) && Attached(t, i) && d in t.inodes && n in t.inodes[d].childIndex
    ensures var c := t.inodes[d].childIndex[n];
            c in Subtree(t, i) <==> d in Subtree(t, i) || c == i
  {
    var c := t.inodes[d].childIndex[n];
    EdgePath(t, d, n);
    assert NodeOk(t, d) && EdgeOk(t, d, n);
    if c in Subtree(t, i) && c != i {
      SubtreeParent(t, i, c);
    }
    if d in Subtree(t, i) {
      assert t.inodes[d].fullPath <= t.inodes[c].fullPath;
    }
  }

  // ---- Remove ----

  function DetachFromParent(inodes: map<Ino, Entry>, parent: Ino, child: Ino, kind: Kind): (r: map<Ino, Entry>) {
    if parent in inodes then
      var p := RemoveChildByIno(inodes[parent], child);
      inodes[parent := p.(nlink := if kind == Directory && p.nlink > 0 then p.nlink - 1 else p.nlink)]
    else inodes
  }

  /** `i` and, if it is attached, everything below it. */
  ghost function Doomed(t: Table, i: Ino): (s: set<Ino>)
    requires i in t.inodes
  {
    if t.inodes[i].nlink > 0 then Subtree(t, i) else {i}
  }

  /** Deletes `i`'s doomed set from both maps and detaches `i` from its parent. */
  ghost function Remove(t: Table, i: Ino): (t': Table)
    requires i in t.inodes
  {
    var doomed := Doomed(t, i);
    var e := t.inodes[i];
    Table(DetachFromParent(t.inodes - doomed, e.parent, i, e.kind),
          t.paths - (set j | j in doomed && j in t.inodes :: t.inodes[j].fullPath),
          t.next)
  }

  lemma RemoveInv(t: Table, i: Ino)
    requires Inv(t) && Attached(t, i) && i != ROOT
    ensures Inv(Remove(t, i))
    ensures Remove(t, i).inodes.Keys == t.inodes.Keys - Subtree(t, i)
  {
    var t' := Remove(t, i);
    var e := t.inodes[i];
    assert NodeOk(t, i);
    assert NodeOk(t, e.parent) && EdgeOk(t, e.parent, e.name);
    RemoveShape(t, i);
    forall j | j in t'.inodes
      ensures NodeOk(t', j)
    {
      RemovedNode(t, t', i, j);
    }
    forall p | p in t'.paths
      ensures PathOk(t', p)
    {
      RemovedPath(t, t', i, p);
    }
    assert NodeOk(t, ROOT);
  }

  /** What removal leaves, in the terms the framing lemmas use. */
  ghost predicate RemovedFrom(t: Table, t': Table, i: Ino)
    requires i in t.inodes
  {
    && t'.next == t.next
    && t'.inodes.Keys == t.inodes.Keys - Subtree(t, i)
    && t.inodes[i].parent !in Subtree(t, i)
    && Lost(t, t', t.inodes[i].parent, t.inodes[i].name)
    && t.inodes[t.inodes[i].parent].childIndex[t.inodes[i].name] == i
    && (forall p :: p in t'.paths <==> p in t.paths && t.paths[p] !in Subtree(t, i))
    && (forall p :: p in t'.paths ==> t'.paths[p] == t.paths[p])
  }

  lemma RemoveShape(t: Table, i: Ino)
    requires Inv(t) && Attached(t, i) && i != ROOT
    ensures RemovedFrom(t, Remove(t, i), i)
  {
    var t' := Remove(t, i);
    var e := t.inodes[i];
    var doomed := Subtree(t, i);
    assert NodeOk(t, i);
    assert e.parent !in doomed;
    assert NodeOk(t, e.parent) && EdgeOk(t, e.parent, e.name);
    ChildrenOneEdge(t, e.parent);
    WithoutInoAgrees(t.inodes[e.parent].children, t.inodes[e.parent].childIndex, e.name);
    forall p | p in t.paths
      ensures p in t'.paths <==> t.paths[p] !in doomed
    {
      assert PathOk(t, p);
      if p !in t'.paths {
        var j :| j in doomed && t.inodes[j].fullPath == p;
        PathsUnique(t, j, t.paths[p]);
      }
    }
  }

  lemma RemovedPath(t: Table, t': Table, i: Ino, p: Path)
    requires Inv(t) && Attached(t, i) && i != ROOT && RemovedFrom(t, t', i) && p in t'.paths
    ensures PathOk(t', p)
  {
    assert PathOk(t, p);
    assert NodeOk(t, t.paths[p]);
    assert NodeOk(t, i);
    assert i in Subtree(t, i);
    var d := t.inodes[i].parent;
    assert NodeOk(t, d);
    LostLinks(t, t', i);
  }

  /** The directory that loses the edge stays attached. */
  lemma LostLinks(t: Table, t': Table, i: Ino)
    requires Inv(t) && Attached(t, i) && i != ROOT && RemovedFrom(t, t', i)
    ensures t'.inodes[t.inodes[i].parent].nlink > 0
  {
    var d := t.inodes[i].parent;
    assert NodeOk(t, i);
    assert NodeOk(t, d);
  }

  lemma RemovedNode(t: Table, t': Table, i: Ino, j: Ino)
    requires Inv(t) && Attached(t, i) && i != ROOT && RemovedFrom(t, t', i) && j in t'.inodes
    ensures NodeOk(t', j)
  {
    var d, name := t.inodes[i].parent, t.inodes[i].name;
    assert NodeOk(t, i) && NodeOk(t, j);
    assert i in Subtree(t, i);
    forall n | n in t.inodes[j].childIndex && (j != d || n != name)
      ensures t.inodes[j].childIndex[n] in t'.inodes && t.inodes[j].childIndex[n] != i
    {
      SubtreeChild(t, i, j, n);
      assert EdgeOk(t, j, n);
    }
    if j != ROOT && t.inodes[j].nlink > 0 {
      ParentSurvives(t, t', i, j);
    }
    if j == d {
      ParentLoses(t, t', d, name);
    } else {
      LostLinks(t, t', i);
      forall n | n in t.inodes[j].childIndex
        ensures EdgeKept(t, t', t.inodes[j].childIndex[n])
      {
        assert EdgeOk(t, j, n);
      }
      FramedNode(t, t', j);
    }
  }

  lemma ParentSurvives(t: Table, t': Table, i: Ino, j: Ino)
    requires Inv(t) && Attached(t, i) && i != ROOT && RemovedFrom(t, t', i) && j in t'.inodes
    requires j != ROOT && t.inodes[j].nlink > 0
    ensures t.inodes[j].parent in t'.inodes && t.inodes[j].parent != i
    ensures j != t.inodes[i].parent ==> UpKept(t, t', j)
  {
    assert NodeOk(t, j);
    assert i in Subtree(t, i);
    var p := t.inodes[j].parent;
    SubtreeChild(t, i, p, t.inodes[j].name);
  }

  // ---- Unlink ----

  /** Removes the edge `name` and one link of its target; the entry itself stays. */
  function UnlinkOne(t: Table, parent: Ino, name: Name): (r: (Table, Option<(bool, Entry)>)) {
    if parent !in t.inodes || name !in t.inodes[parent].childIndex then (t, None)
    else
      var p := t.inodes[parent];
      var child := p.childIndex[name];
      var inodes := t.inodes[parent := RemoveChildByName(p, name)];
      var paths := t.paths - {ChildPath(p.fullPath, name)};
      if child !in inodes then (Table(inodes, paths, t.next), None)
      else
        var e := inodes[child].(nlink := if inodes[child].nlink > 0 then inodes[child].nlink - 1 else 0);
        (Table(inodes[child := e], paths, t.next), Some((e.nlink == 0, e)))
  }

  /** Unlinking keeps the invariant exactly when the target is not a directory.  A directory would
      keep a link count that no longer matches its subdirectories.  Callers that look at the kind do so before they
      wait, or not at all; see `Namesakes`. */
  lemma UnlinkInvIff(t: Table, parent: Ino, name: Name)
    requires Inv(t) && LookupChild(t, parent, name).Some?
    ensures var i := LookupChild(t, parent, name).value;
            Inv(UnlinkOne(t, parent, name).0) <==> t.inodes[i].kind != Directory
  {
    var i := LookupChild(t, parent, name).value;
    var t' := UnlinkOne(t, parent, name).0;
    assert NodeOk(t, parent);
    EdgePath(t, parent, name);
    assert EdgeOk(t, parent, name) && NodeOk(t, i);
    assert i != parent;
    if t.inodes[i].kind != Directory {
      UnlinkFileInv(t, t', parent, name, i);
    } else {
      UnlinkedDirBreaks(t, t', parent, name, i);
    }
  }

  lemma UnlinkedDirBreaks(t: Table, t': Table, parent: Ino, name: Name, i: Ino)
    requires Inv(t) && LookupChild(t, parent, name) == Some(i) && t' == UnlinkOne(t, parent, name).0
    requires t.inodes[i].kind == Directory && i != parent
    ensures !Inv(t')
  {
    assert NodeOk(t, i);
    assert Subdirs(t', i) == Subdirs(t, i) by {
      forall n | n in t.inodes[i].childIndex
        ensures IsDir(t, t.inodes[i].childIndex[n]) <==> IsDir(t', t.inodes[i].childIndex[n])
      {
        assert EdgeOk(t, i, n);
      }
    }
    assert !NodeOk(t', i);
  }

  /** `t'` is `t` with the leaf `i` unlinked: no edge, no path, no link. */
  ghost predicate LeafUnlinked(t: Table, t': Table, i: Ino)
    requires i in t.inodes
  {
    var d, name := t.inodes[i].parent, t.inodes[i].name;
    && t'.next == t.next && t'.inodes.Keys == t.inodes.Keys && i != ROOT
    && Lost(t, t', d, name) && t.inodes[d].childIndex[name] == i
    && t.inodes[i].kind != Directory
    && t'.inodes[i] == t.inodes[i].(nlink := 0)
    && t'.paths == t.paths - {t.inodes[i].fullPath}
  }

  lemma UnlinkFileInv(t: Table, t': Table, parent: Ino, name: Name, i: Ino)
    requires Inv(t) && LookupChild(t, parent, name) == Some(i) && t' == UnlinkOne(t, parent, name).0
    requires t.inodes[i].kind != Directory && Attached(t, i) && i != parent && i != ROOT
    requires t.inodes[i].fullPath == ChildPath(t.inodes[parent].fullPath, name)
    requires t.inodes[i].parent == parent && t.inodes[i].name == name
    ensures Inv(t') && LeafUnlinked(t, t', i)
  {
    assert NodeOk(t, i) && NodeOk(t, ROOT);
    assert LeafUnlinked(t, t', i);
    forall j | j in t'.inodes
      ensures NodeOk(t', j)
    {
      LeafUnlinkedNode(t, t', i, j);
    }
    assert NodeOk(t, parent);
    forall p | p in t'.paths
      ensures PathOk(t', p)
    {
      assert PathOk(t, p);
    }
  }

  lemma LeafUnlinkedNode(t: Table, t': Table, i: Ino, j: Ino)
    requires Inv(t) && Attached(t, i) && LeafUnlinked(t, t', i) && j in t.inodes
    ensures NodeOk(t', j)
  {
    var d := t.inodes[i].parent;
    assert NodeOk(t, i) && NodeOk(t, j);
    if j != i {
      if t.inodes[j].nlink > 0 {
        PathsDiffer(t, i, j);
      }
      forall n | n in t.inodes[j].childIndex
        ensures t.inodes[j].childIndex[n] in t'.inodes
        ensures j != d ==> EdgeKept(t, t', t.inodes[j].childIndex[n])
      {
        assert EdgeOk(t, j, n);
      }
      if j == d {
        ParentLoses(t, t', d, t.inodes[i].name);
      } else {
        FramedNode(t, t', j);
      }
    }
  }

  lemma PathsDiffer(t: Table, i: Ino, j: Ino)
    requires Inv(t) && Attached(t, i) && Attached(t, j) && i != j
    ensures t.inodes[i].fullPath != t.inodes[j].fullPath
  {
    assert NodeOk(t, i) && NodeOk(t, j);
  }

  // ---- Orphans ----

  /** Deletes an entry whose last link is gone, and its path only while the path is still its own. */
  function RemoveOrphan(t: Table, i: Ino): (r: (Table, bool)) {
    if i in t.inodes && t.inodes[i].nlink == 0 then
      var p := t.inodes[i].fullPath;
      (Table(t.inodes - {i}, if p in t.paths && t.paths[p] == i then t.paths - {p} else t.paths, t.next), true)
    else (t, false)
  }

  lemma RemoveOrphanInv(t: Table, i: Ino)
    requires Inv(t)
    ensures Inv(RemoveOrphan(t, i).0)
    ensures RemoveOrphan(t, i).0.paths == t.paths
  {
    var t' := RemoveOrphan(t, i).0;
    if t' != t {
      assert NodeOk(t, i);
      var p := t.inodes[i].fullPath;
      if p in t.paths { assert PathOk(t, p); }
      WithoutOrphanInv(t, t', i);
    }
  }

  lemma WithoutOrphanInv(t: Table, t': Table, i: Ino)
    requires Inv(t) && i in t.inodes && t.inodes[i].nlink == 0
    requires t'.inodes == t.inodes - {i} && t'.paths == t.paths && t'.next == t.next
    ensures Inv(t')
  {
    assert NodeOk(t, ROOT);
    forall j | j in t'.inodes
      ensures NodeOk(t', j)
    {
      assert NodeOk(t, j);
      if j != ROOT && t.inodes[j].nlink > 0 {
        assert NodeOk(t, t.inodes[j].parent);
      }
      forall n | n in t.inodes[j].childIndex
        ensures EdgeKept(t, t', t.inodes[j].childIndex[n])
      {
        assert EdgeOk(t, j, n);
      }
      FramedNode(t, t', j);
    }
    forall p | p in t'.paths
      ensures PathOk(t', p)
    {
      assert PathOk(t, p);
    }
  }

  /** `Remove` on an entry already unlinked: it drops the path mapping without asking whose it is,
      so the invariant survives exactly when no live file has been created at that path since. */
  lemma RemoveUnlinkedIff(t: Table, i: Ino)
    requires Inv(t) && i in t.inodes && t.inodes[i].nlink == 0
    ensures Inv(Remove(t, i)) <==> t.inodes[i].fullPath !in t.paths
  {
    var t' := Remove(t, i);
    var p := t.inodes[i].fullPath;
    assert NodeOk(t, i);
    assert Doomed(t, i) == {i};
    assert t'.inodes == t.inodes - {i} by {
      var d := t.inodes[i].parent;
      if d in t.inodes && d != i {
        assert NodeOk(t, d);
        forall c | c in t.inodes[d].children
          ensures c.ino != i
        {
          assert EdgeOk(t, d, c.name);
        }
      }
    }
    assert t'.paths == t.paths - {p};
    if p !in t.paths {
      WithoutOrphanInv(t, t', i);
    } else {
      assert PathOk(t, p);
      if Inv(t') {
        NodeOkOf(t', t.paths[p]);
      }
    }
  }

  // ---- Files that are gone from the Hub ----

  /** `remove_remote_file`: an open file loses its name, another one its entry. */
  ghost function PollRemoved(t: Table, x: Ino): (t': Table) {
    if x !in t.inodes || t.inodes[x].IsDirty() then t
    else if t.inodes[x].openHandles > 0 then UnlinkOne(t, t.inodes[x].parent, t.inodes[x].name).0
    else Remove(t, x)
  }

  /** Nobody else has what the poll takes from `x`: for an open orphan no directory has its name, and for one that is
      closed but not yet reaped nothing has its path. */
  ghost predicate PollSafe(t: Table, x: Ino)
    requires x in t.inodes
  {
    var e := t.inodes[x];
    || e.IsDirty()
    || e.nlink > 0
    || if e.openHandles > 0
       then LookupChild(t, e.parent, e.name).Some? ==> t.inodes[LookupChild(t, e.parent, e.name).value].kind != Directory
       else e.fullPath !in t.paths
  }

  /** Dropping a file that is gone from the Hub keeps the invariant exactly when this is so. */
  lemma PollRemovedIff(t: Table, x: Ino)
    requires Inv(t) && x in t.inodes && t.inodes[x].kind == File
    ensures Inv(PollRemoved(t, x)) <==> PollSafe(t, x)
  {
    var e := t.inodes[x];
    assert NodeOk(t, x) && RootOk(t);
    if !e.IsDirty() {
      if e.openHandles > 0 {
        OpenPollIff(t, x);
      } else if e.nlink > 0 {
        RemoveInv(t, x);
      } else {
        RemoveUnlinkedIff(t, x);
      }
    }
  }

  lemma OpenPollIff(t: Table, x: Ino)
    requires Inv(t) && x in t.inodes && t.inodes[x].kind == File && !t.inodes[x].IsDirty() && t.inodes[x].openHandles > 0
    ensures Inv(PollRemoved(t, x)) <==> PollSafe(t, x)
  {
    var d, n := t.inodes[x].parent, t.inodes[x].name;
    assert NodeOk(t, x);
    if LookupChild(t, d, n).Some? {
      UnlinkInvIff(t, d, n);
    } else if d in t.inodes && n in t.inodes[d].childIndex {
      EdgePath(t, d, n);
    }
  }

  // ---- Updates that leave the tree alone ----

  lemma ShapeInv(t: Table, t': Table)
    requires Inv(t) && t'.inodes.Keys == t.inodes.Keys && t'.paths == t.paths && t.next <= t'.next
    requires forall i :: i in t.inodes ==> SameShape(t.inodes[i], t'.inodes[i])
    ensures Inv(t')
  {
    assert NodeOk(t, ROOT);
    forall j | j in t'.inodes
      ensures NodeOk(t', j)
    {
      assert NodeOk(t, j);
      forall n | n in t.inodes[j].childIndex
        ensures EdgeKept(t, t', t.inodes[j].childIndex[n])
      {
        assert EdgeOk(t, j, n);
      }
      FramedNode(t, t', j);
    }
    forall p | p in t'.paths
      ensures PathOk(t', p)
    {
      assert PathOk(t, p);
    }
  }
}
