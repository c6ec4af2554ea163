/** The inode table of src/virtual_fs/inode.rs as a value, its global invariant,
    and the single-entry operations.

    A table has four views of one tree: the inode map, the path index, each
    directory's child list with its name index, and link counts.  `Inv` says
    that they agree.  Paths are sequences of components; module `PathText` shows
    that the source's '/'-joined strings behave in the same way. */
module Inodes {
  import opened Prelude

  type Ino = nat
  type Name = string
  type Path = seq<Name>
  type Hash = string

  const ROOT: Ino := 1

  datatype Kind = File | Directory | Symlink
  datatype DirChild = DirChild(ino: Ino, name: Name)

  datatype Entry = Entry(
    parent: Ino,
    name: Name,
    fullPath: Path,
    kind: Kind,
    nlink: nat,
    hash: Option<Hash>,
    dirtyGeneration: nat,
    childrenLoaded: bool,
    children: seq<DirChild>,
    childIndex: map<Name, Ino>,
    pendingDeletes: seq<Path>,
    nlookup: nat,
    openHandles: nat
  ) {
    predicate IsDirty() {
      dirtyGeneration > 0
    }
  }

  datatype Table = Table(inodes: map<Ino, Entry>, paths: map<Path, Ino>, next: Ino)

  function ChildPath(parent: Path, name: Name): (p: Path) {
    parent + [name]
  }

  // ---- Child lists ----

  /** `children` without its first entry for `ino`. */
  function WithoutIno(children: seq<DirChild>, ino: Ino): (r: seq<DirChild>)
    ensures forall c :: c in r ==> c in children
  {
    if children == [] then []
    else if children[0].ino == ino then children[1..]
    else [children[0]] + WithoutIno(children[1..], ino)
  }

  function AddChild(e: Entry, ino: Ino, name: Name): (r: Entry) {
    e.(childIndex := e.childIndex[name := ino], children := e.children + [DirChild(ino, name)])
  }

  /** The name on the first edge to `ino`, if there is one. */
  function EdgeName(children: seq<DirChild>, ino: Ino): (r: Option<Name>)
    ensures r.None? <==> forall c :: c in children ==> c.ino != ino
    ensures r.Some? ==> DirChild(ino, r.value) in children
  {
    if children == [] then None
    else if children[0].ino == ino then Some(children[0].name)
    else EdgeName(children[1..], ino)
  }

  function RemoveChildByIno(e: Entry, ino: Ino): (r: Entry) {
    match EdgeName(e.children, ino)
    case None => e
    case Some(name) => e.(children := WithoutIno(e.children, ino), childIndex := e.childIndex - {name})
  }

  function RemoveChildByName(e: Entry, name: Name): (r: Entry) {
    if name in e.childIndex then
      e.(childIndex := e.childIndex - {name}, children := WithoutIno(e.children, e.childIndex[name]))
    else e
  }

  /** The list and the name index hold the same edges, one per name. */
  ghost predicate ListAgrees(children: seq<DirChild>, index: map<Name, Ino>) {
    && (forall c :: c in children ==> c.name in index && index[c.name] == c.ino)
    && (forall n :: n in index ==> DirChild(index[n], n) in children)
    && DistinctNames(children)
  }

  ghost predicate OneEdgePerIno(children: seq<DirChild>) {
    forall i, j :: 0 <= i < j < |children| ==> children[i].ino != children[j].ino
  }

  ghost predicate DistinctNames(children: seq<DirChild>) {
    forall i, j :: 0 <= i < j < |children| ==> children[i].name != children[j].name
  }

  lemma Cons(c: DirChild, r: seq<DirChild>)
    ensures DistinctNames(r) && (forall x :: x in r ==> x.name != c.name) ==> DistinctNames([c] + r)
    ensures OneEdgePerIno(r) && (forall x :: x in r ==> x.ino != c.ino) ==> OneEdgePerIno([c] + r)
  {
    var s := [c] + r;
    assert forall j :: 1 <= j < |s| ==> s[j] == r[j - 1] && s[j] in r;
  }

  lemma Uncons(children: seq<DirChild>)
    requires children != []
    ensures DistinctNames(children) ==>
              DistinctNames(children[1..]) && forall x :: x in children[1..] ==> x.name != children[0].name
    ensures OneEdgePerIno(children) ==>
              OneEdgePerIno(children[1..]) && forall x :: x in children[1..] ==> x.ino != children[0].ino
    ensures forall x :: x in children <==> x == children[0] || x in children[1..]
  {
    var r := children[1..];
    assert forall j :: 0 <= j < |r| ==> r[j] == children[j + 1];
  }

  lemma {:induction false} WithoutInoMembers(children: seq<DirChild>, ino: Ino)
    requires OneEdgePerIno(children)
    ensures forall c :: c in WithoutIno(children, ino) <==> c in children && c.ino != ino
    ensures OneEdgePerIno(WithoutIno(children, ino))
    ensures DistinctNames(children) ==> DistinctNames(WithoutIno(children, ino))
  {
    if children != [] {
      Uncons(children);
      if children[0].ino != ino {
        WithoutInoMembers(children[1..], ino);
        Cons(children[0], WithoutIno(children[1..], ino));
      }
    }
  }

  lemma WithoutInoAgrees(children: seq<DirChild>, index: map<Name, Ino>, name: Name)
    requires ListAgrees(children, index) && OneEdgePerIno(children) && name in index
    ensures ListAgrees(WithoutIno(children, index[name]), index - {name})
    ensures EdgeName(children, index[name]) == Some(name)
  {
    var ino := index[name];
    WithoutInoMembers(children, ino);
    var e := EdgeName(children, ino);
    assert DirChild(ino, name) in children;
    var i :| 0 <= i < |children| && children[i] == DirChild(ino, name);
    var j :| 0 <= j < |children| && children[j] == DirChild(ino, e.value);
    assert i == j;
    forall n | n in index - {name}
      ensures DirChild(index[n], n) in WithoutIno(children, ino)
    {
      var k :| 0 <= k < |children| && children[k] == DirChild(index[n], n);
      assert k != i;
    }
  }

  // ---- The invariant ----

  ghost function Subdirs(t: Table, i: Ino): (s: set<Name>)
    requires i in t.inodes
  {
    set n | n in t.inodes[i].childIndex && IsDir(t, t.inodes[i].childIndex[n])
  }

  ghost predicate IsDir(t: Table, i: Ino) {
    i in t.inodes && t.inodes[i].kind == Directory
  }

  ghost predicate Attached(t: Table, i: Ino) {
    i in t.inodes && t.inodes[i].nlink > 0
  }

  /** An attached entry hangs from its parent by its name, and its path says so. */
  ghost predicate UpOk(t: Table, i: Ino)
    requires i in t.inodes
  {
    var e := t.inodes[i];
    i != ROOT && e.nlink > 0 ==>
      && IsDir(t, e.parent)
      && e.name in t.inodes[e.parent].childIndex
      && t.inodes[e.parent].childIndex[e.name] == i
      && e.fullPath == ChildPath(t.inodes[e.parent].fullPath, e.name)
  }

  /** Every edge leads to an attached entry that agrees about it. */
  ghost predicate EdgeOk(t: Table, i: Ino, n: Name)
    requires i in t.inodes && n in t.inodes[i].childIndex
  {
    var c := t.inodes[i].childIndex[n];
    c != ROOT && Attached(t, c) && t.inodes[c].parent == i && t.inodes[c].name == n
  }

  ghost predicate CountOk(t: Table, i: Ino)
    requires i in t.inodes
  {
    var e := t.inodes[i];
    if e.kind == Directory then e.nlink == 2 + |Subdirs(t, i)|
    else e.nlink <= 1 && e.children == [] && e.childIndex == map[]
  }

  ghost predicate NodeOk(t: Table, i: Ino)
    requires i in t.inodes
  {
    && i < t.next
    && UpOk(t, i)
    && ListAgrees(t.inodes[i].children, t.inodes[i].childIndex)
    && (forall n {:trigger EdgeOk(t, i, n)} :: n in t.inodes[i].childIndex ==> EdgeOk(t, i, n))
    && CountOk(t, i)
    && (t.inodes[i].nlink > 0 ==> t.inodes[i].fullPath in t.paths && t.paths[t.inodes[i].fullPath] == i)
  }

  ghost predicate PathOk(t: Table, p: Path)
    requires p in t.paths
  {
    Attached(t, t.paths[p]) && t.inodes[t.paths[p]].fullPath == p
  }

  ghost predicate RootOk(t: Table) {
    IsDir(t, ROOT) && t.inodes[ROOT].fullPath == [] && t.inodes[ROOT].parent == ROOT
  }

  ghost predicate Inv(t: Table) {
    && RootOk(t)
    && (forall i {:trigger NodeOk(t, i)} :: i in t.inodes ==> NodeOk(t, i))
    && (forall p {:trigger PathOk(t, p)} :: p in t.paths ==> PathOk(t, p))
  }

  // ---- What the invariant means ----

  /** Path resolution from the root, one name-index lookup per component. */
  ghost function Walk(t: Table, p: Path): (r: Option<Ino>)
  {
    if p == [] then Some(ROOT)
    else
      match Walk(t, p[..|p| - 1])
      case None => None
      case Some(d) => LookupChild(t, d, p[|p| - 1])
  }

  function LookupChild(t: Table, parent: Ino, name: Name): (r: Option<Ino>)
    ensures r.Some? ==> r.value in t.inodes
  {
    if parent in t.inodes && name in t.inodes[parent].childIndex
       && t.inodes[parent].childIndex[name] in t.inodes
    then Some(t.inodes[parent].childIndex[name])
    else None
  }

  function GetByPath(t: Table, p: Path): (r: Option<Ino>) {
    if p in t.paths && t.paths[p] in t.inodes then Some(t.paths[p]) else None
  }

  /** The child at the end of an edge is indexed under the parent's path and the edge's name. */
  lemma EdgePath(t: Table, d: Ino, n: Name)
    requires Inv(t) && d in t.inodes && n in t.inodes[d].childIndex
    ensures var c := t.inodes[d].childIndex[n];
            && Attached(t, c) && t.inodes[c].fullPath == ChildPath(t.inodes[d].fullPath, n)
            && t.inodes[c].fullPath in t.paths && t.paths[t.inodes[c].fullPath] == c
  {
    assert NodeOk(t, d) && EdgeOk(t, d, n);
    assert NodeOk(t, t.inodes[d].childIndex[n]);
  }

  /** The one-step path index and the walk from the root are the same partial function:
      the attached inodes are a tree rooted at inode 1, and a path names at most one of them. */
  lemma {:induction false} WalkIsIndex(t: Table, p: Path)
    requires Inv(t)
    ensures Walk(t, p) == GetByPath(t, p)
  {
    if p == [] {
      assert NodeOk(t, ROOT);
    } else {
      var front, last := p[..|p| - 1], p[|p| - 1];
      assert p == ChildPath(front, last);
      WalkIsIndex(t, front);
      if p in t.paths {
        var i := t.paths[p];
        assert PathOk(t, p) && NodeOk(t, i);
        assert i != ROOT;
        var d := t.inodes[i].parent;
        assert NodeOk(t, d);
        assert t.inodes[d].fullPath == front;
      } else if Walk(t, front).Some? {
        var d := Walk(t, front).value;
        assert PathOk(t, front) && NodeOk(t, d);
        if last in t.inodes[d].childIndex {
          EdgePath(t, d, last);
        }
      }
    }
  }

  /** Distinct attached inodes have distinct paths. */
  lemma PathsUnique(t: Table, i: Ino, j: Ino)
    requires Inv(t) && Attached(t, i) && Attached(t, j) && t.inodes[i].fullPath == t.inodes[j].fullPath
    ensures i == j
  {
    assert NodeOk(t, i) && NodeOk(t, j);
  }

  lemma NodeOkOf(t: Table, i: Ino)
    requires Inv(t) && i in t.inodes
    ensures NodeOk(t, i)
  {
  }

  lemma ChildrenOneEdge(t: Table, i: Ino)
    requires Inv(t) && i in t.inodes
    ensures OneEdgePerIno(t.inodes[i].children)
  {
    assert NodeOk(t, i);
    var cs := t.inodes[i].children;
    forall a, b | 0 <= a < b < |cs|
      ensures cs[a].ino != cs[b].ino
    {
      assert cs[a] in cs && cs[b] in cs;
      assert EdgeOk(t, i, cs[a].name) && EdgeOk(t, i, cs[b].name);
    }
  }
}
