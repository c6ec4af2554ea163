/** Rename as one atomic step (src/virtual_fs/mod.rs: rename, rename_validate,
    rename_remote, rename_apply_local): what it checks, what it does to the
    table, what it sends to the Hub, and why both stay consistent. */
module Rename {
  import opened Prelude
  import opened Inodes
  import opened InodeOps
  import opened InodeMove
  import opened InodeWalk
  import opened InodeTable

  datatype Errno = ENOENT | ENOTDIR | EISDIR | EEXIST | EINVAL | ENOTEMPTY | EIO
  datatype Result<+T> = Ok(value: T) | Err(error: Errno)
  datatype BatchOp = AddFile(path: Path, hash: Hash) | DeleteFile(path: Path)
  datatype RenameInfo = RenameInfo(
    ino: Ino,
    oldPath: Path,
    kind: Kind,
    hash: Option<Hash>,
    isDirty: bool,
    newFullPath: Path,
    descendantFiles: seq<(Path, Hash)>
  )

  // ---- Checks ----

  /** What stands in the way at the destination. */
  function Conflict(t: Table, kind: Kind, np: Ino, nn: Name, noReplace: bool): (r: Option<Errno>) {
    match LookupChild(t, np, nn)
    case None => None
    case Some(x) =>
      if noReplace then Some(EEXIST)
      else if kind != Directory && t.inodes[x].kind == Directory then Some(EISDIR)
      else if kind == Directory && t.inodes[x].kind != Directory then Some(ENOTDIR)
      else if kind == Directory && t.inodes[x].children != [] then Some(ENOTEMPTY)
      else None
  }

  function DirError(t: Table, d: Ino): (r: Option<Errno>) {
    if d !in t.inodes then Some(ENOENT)
    else if t.inodes[d].kind != Directory then Some(ENOTDIR)
    else None
  }

  /** The checks on source and destination, in order.  A directory must not go below itself:
      the destination's directory must not be in the subtree that moves. */
  ghost function ValidateError(t: Table, op: Ino, on: Name, np: Ino, nn: Name, noReplace: bool): (r: Option<Errno>) {
    match LookupChild(t, op, on)
    case None => Some(ENOENT)
    case Some(i) =>
      if t.inodes[i].kind == Directory && np in Subtree(t, i) then Some(EINVAL)
      else Conflict(t, t.inodes[i].kind, np, nn, noReplace)
  }

  ghost function RenameError(t: Table, op: Ino, on: Name, np: Ino, nn: Name, noReplace: bool): (r: Option<Errno>) {
    if DirError(t, op).Some? then DirError(t, op)
    else if DirError(t, np).Some? then DirError(t, np)
    else ValidateError(t, op, on, np, nn, noReplace)
  }

  // ---- The table after a rename ----

  /** The table once the entry that the rename replaces, if any, is out of the way. */
  ghost function Replaced(t: Table, np: Ino, nn: Name): (t': Table) {
    match LookupChild(t, np, nn)
    case None => t
    case Some(x) =>
      if t.inodes[x].kind == Directory then Remove(t, x)
      else if t.inodes[x].openHandles > 0 then UnlinkOne(t, np, nn).0
      else RemoveOrphan(UnlinkOne(t, np, nn).0, x).0
  }

  predicate DirtyRemote(e: Entry) {
    e.kind == File && e.IsDirty() && e.hash.Some?
  }

  function PushOldPath(e: Entry): (r: Entry) {
    e.(pendingDeletes := e.pendingDeletes + [e.fullPath])
  }

  /** The entries after the dirty committed files of `s` have noted their old path for deletion. */
  ghost function NotedBy(t: Table, s: set<Ino>): (m: map<Ino, Entry>) {
    map j | j in t.inodes ::
      if j in s && DirtyRemote(t.inodes[j]) then PushOldPath(t.inodes[j]) else t.inodes[j]
  }

  ghost function Noted(t: Table, i: Ino): (t': Table)
    requires i in t.inodes
  {
    t.(inodes := NotedBy(t, Subtree(t, i)))
  }

  /** The table just before the subtree of `i` moves. */
  ghost function Prepared(t: Table, i: Ino, np: Ino, nn: Name): (t': Table)
    requires i in Replaced(t, np, nn).inodes
  {
    Noted(Replaced(t, np, nn), i)
  }

  /** The checks that `rename_apply_local` relies on. */
  ghost predicate RenameOk(t: Table, i: Ino, np: Ino, nn: Name) {
    && Inv(t) && Attached(t, i) && i != ROOT && IsDir(t, np) && np !in Subtree(t, i)
    && LookupChild(t, np, nn) != Some(i)
    && Conflict(t, t.inodes[i].kind, np, nn, false).None?
  }

  /** The whole effect on the table. */
  ghost predicate Renamed(t: Table, t': Table, i: Ino, np: Ino, nn: Name) {
    && i in Replaced(t, np, nn).inodes && np in Replaced(t, np, nn).inodes
    && MovedTo(Prepared(t, i, np, nn), t', i, np, nn)
  }

  // ---- Clearing the target ----

  /** `t1` is `t` with the leaf `x`, the child `nn` of `np`, no longer attached. */
  ghost predicate Cleared(t: Table, t1: Table, x: Ino, np: Ino, nn: Name)
    requires x in t.inodes && np in t.inodes
  {
    && t1.next == t.next
    && np in t1.inodes && x != np
    && (forall j :: j in t.inodes && j != x && j != np ==> j in t1.inodes && t1.inodes[j] == t.inodes[j])
    && (forall j :: j in t1.inodes ==> j in t.inodes)
    && nn !in t1.inodes[np].childIndex
    && t1.inodes[np].fullPath == t.inodes[np].fullPath && t1.inodes[np].kind == t.inodes[np].kind
    && !Attached(t1, x)
  }

  lemma ClearsDirectory(t: Table, np: Ino, nn: Name, x: Ino)
    requires Inv(t) && IsDir(t, np) && LookupChild(t, np, nn) == Some(x)
    requires t.inodes[x].kind == Directory && t.inodes[x].children == []
    ensures Inv(Remove(t, x)) && Cleared(t, Remove(t, x), x, np, nn)
  {
    assert NodeOk(t, np) && EdgeOk(t, np, nn);
    RemoveInv(t, x);
    RemoveShape(t, x);
    forall j | j in Subtree(t, x)
      ensures j == x
    {
      if j != x { var k := KidTowards(t, x, j); }
    }
    assert x in Subtree(t, x);
  }

  lemma ClearsFile(t: Table, np: Ino, nn: Name, x: Ino)
    requires Inv(t) && IsDir(t, np) && LookupChild(t, np, nn) == Some(x) && t.inodes[x].kind != Directory
    ensures var u := UnlinkOne(t, np, nn).0;
            Inv(u) && Cleared(t, u, x, np, nn) && u.inodes[x].nlink == 0
    ensures UnlinkOne(t, np, nn).1 == Some((true, UnlinkOne(t, np, nn).0.inodes[x]))
  {
    EdgePath(t, np, nn);
    assert NodeOk(t, np) && EdgeOk(t, np, nn) && NodeOk(t, x);
    UnlinkInvIff(t, np, nn);
  }

  lemma Clears(t: Table, i: Ino, np: Ino, nn: Name)
    requires RenameOk(t, i, np, nn)
    ensures Inv(Replaced(t, np, nn))
    ensures LookupChild(t, np, nn).Some? ==> Cleared(t, Replaced(t, np, nn), LookupChild(t, np, nn).value, np, nn)
  {
    match LookupChild(t, np, nn)
    case None =>
    case Some(x) =>
      if t.inodes[x].kind == Directory {
        ClearsDirectory(t, np, nn, x);
      } else {
        ClearsFile(t, np, nn, x);
        RemoveOrphanInv(UnlinkOne(t, np, nn).0, x);
      }
  }

  // ---- What the preparation leaves alone ----

  /** Two entries that a rename's preparation does not tell apart. */
  ghost predicate SameBut(a: Entry, b: Entry) {
    SameShape(a, b) && a.hash == b.hash && a.dirtyGeneration == b.dirtyGeneration
  }

  ghost predicate Ready(t: Table, t2: Table, i: Ino, np: Ino, nn: Name) {
    && i in t.inodes && np in t.inodes && i in t2.inodes && Inv(t2) && MoveOk(t2, i, np, nn)
    && t2.inodes[np].fullPath == t.inodes[np].fullPath
    && Subtree(t2, i) == Subtree(t, i)
    && (forall j :: j in Subtree(t, i) ==> SameBut(t.inodes[j], t2.inodes[j]))
    && (forall j :: Attached(t2, j) && t2.inodes[j].kind == File ==>
          Attached(t, j) && SameBut(t.inodes[j], t2.inodes[j]))
  }

  lemma NotedInv(t: Table, i: Ino)
    requires Inv(t) && i in t.inodes
    ensures Inv(Noted(t, i)) && Subtree(Noted(t, i), i) == Subtree(t, i)
    ensures forall j :: j in t.inodes ==> SameBut(t.inodes[j], Noted(t, i).inodes[j])
  {
    ShapeInv(t, Noted(t, i));
  }

  lemma ClearedReady(t: Table, t1: Table, i: Ino, np: Ino, nn: Name, x: Ino)
    requires RenameOk(t, i, np, nn) && LookupChild(t, np, nn) == Some(x) && Inv(t1) && Cleared(t, t1, x, np, nn)
    ensures Ready(t, t1, i, np, nn)
  {
    EdgePath(t, np, nn);
    assert NodeOk(t1, np);
    assert i != np;
    assert x !in Subtree(t, i) by {
      SubtreeChild(t, i, np, nn);
    }
    assert t1.inodes[i] == t.inodes[i];
  }

  lemma ReplacedReady(t: Table, i: Ino, np: Ino, nn: Name)
    requires RenameOk(t, i, np, nn)
    ensures i in Replaced(t, np, nn).inodes && Ready(t, Replaced(t, np, nn), i, np, nn)
  {
    Clears(t, i, np, nn);
    match LookupChild(t, np, nn) {
      case None =>
        assert NodeOk(t, np);
        if nn in t.inodes[np].childIndex { EdgePath(t, np, nn); }
      case Some(x) =>
        ClearedReady(t, Replaced(t, np, nn), i, np, nn, x);
    }
  }

  lemma NotedReady(t: Table, t1: Table, i: Ino, np: Ino, nn: Name)
    requires Ready(t, t1, i, np, nn)
    ensures Ready(t, Noted(t1, i), i, np, nn)
  {
    NotedInv(t1, i);
  }

  lemma PreparedReady(t: Table, i: Ino, np: Ino, nn: Name)
    requires RenameOk(t, i, np, nn)
    ensures i in Replaced(t, np, nn).inodes && Ready(t, Replaced(t, np, nn), i, np, nn)
    ensures Ready(t, Prepared(t, i, np, nn), i, np, nn)
  {
    ReplacedReady(t, i, np, nn);
    NotedReady(t, Replaced(t, np, nn), i, np, nn);
  }

  // ---- The move itself ----

  /** The new top path is free, so no path that the subtree gets is in use. */
  lemma NewTopFree(t: Table, i: Ino, np: Ino, nn: Name, q: Path)
    requires Inv(t) && MoveOk(t, i, np, nn) && NewTop(t, np, nn) <= q
    ensures q !in t.paths
  {
    var top := NewTop(t, np, nn);
    if q in t.paths {
      PrefixIndexed(t, q, top);
      WalkIsIndex(t, top);
      assert PathOk(t, top);
      assert top[..|top| - 1] == t.inodes[np].fullPath;
      assert NodeOk(t, np);
      WalkIsIndex(t, t.inodes[np].fullPath);
    }
  }

  lemma NewPathsAreFree(t: Table, i: Ino, np: Ino, nn: Name)
    requires Inv(t) && MoveOk(t, i, np, nn)
    ensures NewPathsFree(t, i, NewTop(t, np, nn))
    ensures NewPathOf(t, i, NewTop(t, np, nn), i) == NewTop(t, np, nn)
  {
    var top := NewTop(t, np, nn);
    forall p | p in NewPaths(t, i, top, Subtree(t, i)) && p in OldPaths(t, Subtree(t, i))
      ensures false
    {
      var j :| j in Subtree(t, i) && p == t.inodes[j].fullPath;
      assert NodeOk(t, j);
      NewTopFree(t, i, np, nn, p);
    }
    var from := t.inodes[i].fullPath;
    assert from[|from|..] == [];
  }

  /** The edge to `i` has moved, and no path has changed yet: outside the subtree the entries are
      those of the table with the subtree cut off, and `np` has adopted `i`. */
  ghost predicate EdgeMoved(t: Table, cut: Table, m: map<Ino, Entry>, i: Ino, np: Ino, nn: Name)
    requires i in t.inodes && np in t.inodes
  {
    && m.Keys == t.inodes.Keys && np in cut.inodes
    && (forall j :: j in Subtree(t, i) ==>
          m[j] == if j == i then t.inodes[i].(parent := np, name := nn) else t.inodes[j])
    && (forall j :: j in cut.inodes && j != np ==> j in m && m[j] == cut.inodes[j])
    && m[np] == Adopted(cut.inodes[np], i, nn, t.inodes[i].kind)
  }

  lemma MoveChildShape(t: Table, i: Ino, np: Ino, nn: Name)
    requires Inv(t) && MoveOk(t, i, np, nn)
    ensures EdgeMoved(t, Remove(t, i), MoveChild(t.inodes, i, t.inodes[i].parent, t.inodes[i].name, np, nn), i, np, nn)
  {
    EdgeToTop(t, i, np);
    var e := t.inodes[i];
    MoveChildEntries(t.inodes, i, e.parent, e.name, np, nn);
    CutEntries(t, i);
  }

  lemma CutEntries(t: Table, i: Ino)
    requires Attached(t, i) && t.inodes[i].parent in t.inodes && t.inodes[i].parent !in Subtree(t, i)
    requires EdgeName(t.inodes[t.inodes[i].parent].children, i) == Some(t.inodes[i].name)
    requires t.inodes[i].name in t.inodes[t.inodes[i].parent].childIndex
    requires t.inodes[t.inodes[i].parent].childIndex[t.inodes[i].name] == i && t.inodes[t.inodes[i].parent].nlink > 0
    ensures var e, m := t.inodes[i], Remove(t, i).inodes;
            && m.Keys == t.inodes.Keys - Subtree(t, i)
            && (forall j :: j in m && j != e.parent ==> m[j] == t.inodes[j])
            && m[e.parent] == LosesChild(t.inodes[e.parent], e.name, e.kind)
  {
  }

  /** A directory entry with one child fewer. */
  function LosesChild(e: Entry, name: Name, kind: Kind): (r: Entry)
    requires e.nlink > 0
  {
    RemoveChildByName(e, name).(nlink := e.nlink - if kind == Directory then 1 else 0)
  }

  lemma MoveChildEntries(inodes: map<Ino, Entry>, i: Ino, op: Ino, on: Name, np: Ino, nn: Name)
    requires i in inodes && op in inodes && np in inodes && i != op && i != np
    requires inodes[op].nlink > 0
    ensures var m, kind := MoveChild(inodes, i, op, on, np, nn), inodes[i].kind;
            && m.Keys == inodes.Keys
            && m[i] == inodes[i].(parent := np, name := nn)
            && (forall j :: j in inodes && j != i && j != op && j != np ==> m[j] == inodes[j])
            && (op != np ==> m[op] == LosesChild(inodes[op], on, kind) && m[np] == Adopted(inodes[np], i, nn, kind))
            && (op == np ==> m[np] == Adopted(LosesChild(inodes[np], on, kind), i, nn, kind))
  {
    if op == np {
      MoveWithin(inodes, i, op, on, nn);
    } else {
      MoveAcross(inodes, i, op, on, np, nn);
    }
  }

  lemma MoveWithin(inodes: map<Ino, Entry>, i: Ino, d: Ino, on: Name, nn: Name)
    requires i in inodes && d in inodes && i != d && inodes[d].nlink > 0
    ensures var m, kind := MoveChild(inodes, i, d, on, d, nn), inodes[i].kind;
            m == inodes[d := Adopted(LosesChild(inodes[d], on, kind), i, nn, kind)][i := inodes[i].(parent := d, name := nn)]
  {
  }

  lemma MoveAcross(inodes: map<Ino, Entry>, i: Ino, op: Ino, on: Name, np: Ino, nn: Name)
    requires i in inodes && op in inodes && np in inodes && i != op && i != np && op != np && inodes[op].nlink > 0
    ensures var m, kind := MoveChild(inodes, i, op, on, np, nn), inodes[i].kind;
            m == inodes[op := LosesChild(inodes[op], on, kind)][np := Adopted(inodes[np], i, nn, kind)]
                       [i := inodes[i].(parent := np, name := nn)]
  {
  }

  lemma EdgeToTop(t: Table, i: Ino, np: Ino)
    requires Inv(t) && Attached(t, i) && i != ROOT && IsDir(t, np)
    ensures var e := t.inodes[i];
            && e.parent in t.inodes && e.parent !in Subtree(t, i) && i in Subtree(t, i)
            && e.name in t.inodes[e.parent].childIndex && t.inodes[e.parent].childIndex[e.name] == i
            && EdgeName(t.inodes[e.parent].children, i) == Some(e.name)
            && t.inodes[e.parent].nlink > 0 && t.inodes[np].nlink > 0
  {
    var e := t.inodes[i];
    assert NodeOk(t, i);
    assert NodeOk(t, e.parent) && NodeOk(t, np);
    ChildrenOneEdge(t, e.parent);
    WithoutInoAgrees(t.inodes[e.parent].children, t.inodes[e.parent].childIndex, e.name);
  }

  /** `move_child` and `update_subtree_paths` together are the move. */
  lemma MoveComplete(t: Table, i: Ino, np: Ino, nn: Name, m: map<Ino, Entry>, t': Table)
    requires Inv(t) && MoveOk(t, i, np, nn) && t'.next == t.next
    requires EdgeMoved(t, Remove(t, i), m, i, np, nn)
    requires EntriesRebased(t, i, NewTop(t, np, nn), Subtree(t, i), m, t'.inodes)
    requires PathsRebased(t, i, NewTop(t, np, nn), Subtree(t, i), t.paths - {t.inodes[i].fullPath}, t'.paths)
    ensures MovedTo(t, t', i, np, nn)
  {
    MovePathsComplete(t, i, np, nn, t');
    RemoveInv(t, i);
    EntriesComplete(t, Remove(t, i), i, np, nn, m, t');
  }

  lemma EntriesComplete(t: Table, cut: Table, i: Ino, np: Ino, nn: Name, m: map<Ino, Entry>, t': Table)
    requires i in t.inodes && np in t.inodes && t'.next == t.next && cut.inodes.Keys == t.inodes.Keys - Subtree(t, i)
    requires EdgeMoved(t, cut, m, i, np, nn)
    requires EntriesRebased(t, i, NewTop(t, np, nn), Subtree(t, i), m, t'.inodes)
    ensures Rehung(t, cut, t', i, np, nn)
  {
  }

  lemma MovePathsComplete(t: Table, i: Ino, np: Ino, nn: Name, t': Table)
    requires Inv(t) && MoveOk(t, i, np, nn)
    requires PathsRebased(t, i, NewTop(t, np, nn), Subtree(t, i), t.paths - {t.inodes[i].fullPath}, t'.paths)
    ensures PathsMoved(t, t', i, np, nn)
  {
    var sub, top := Subtree(t, i), NewTop(t, np, nn);
    var taken := NewPaths(t, i, top, sub);
    assert i in sub;
    forall p | p in t.paths && t.paths[p] !in sub
      ensures InPaths(t'.paths, p, t.paths[p])
    {
      assert PathOk(t, p);
      if p in taken { NewTopFree(t, i, np, nn, p); }
    }
    forall p | p in t'.paths && p !in taken
      ensures t'.paths[p] !in sub && InPaths(t.paths, p, t'.paths[p])
    {
      assert PathOk(t, p);
    }
  }

  lemma RenamedInv(t: Table, t': Table, i: Ino, np: Ino, nn: Name)
    requires RenameOk(t, i, np, nn) && Renamed(t, t', i, np, nn)
    ensures Inv(t')
  {
    PreparedReady(t, i, np, nn);
    MoveInv(Prepared(t, i, np, nn), t', i, np, nn);
  }

  // ---- The Hub ----

  type Remote = map<Path, Hash>

  ghost predicate InRemote(r: Remote, p: Path, h: Hash) {
    p in r && r[p] == h
  }

  /** Every attached clean file with a hash is at its path on the Hub, with that hash. */
  ghost predicate Agrees(t: Table, r: Remote) {
    forall j :: Attached(t, j) && IsClean(t.inodes[j]) ==> InRemote(r, t.inodes[j].fullPath, t.inodes[j].hash.value)
  }

  predicate IsClean(e: Entry) {
    e.kind == File && !e.IsDirty() && e.hash.Some?
  }

  function ApplyOp(r: Remote, op: BatchOp): (r': Remote) {
    match op
    case AddFile(p, h) => r[p := h]
    case DeleteFile(p) => r - {p}
  }

  function ApplyBatch(r: Remote, ops: seq<BatchOp>): (r': Remote) {
    if ops == [] then r else ApplyOp(ApplyBatch(r, ops[..|ops| - 1]), ops[|ops| - 1])
  }

  lemma {:induction false} BatchAppend(r: Remote, a: seq<BatchOp>, b: seq<BatchOp>)
    ensures ApplyBatch(r, a + b) == ApplyBatch(ApplyBatch(r, a), b)
  {
    if b == [] {
      assert a + b == a;
    } else {
      BatchAppend(r, a, b[..|b| - 1]);
      assert (a + b)[..|a + b| - 1] == a + b[..|b| - 1];
    }
  }

  /** The part of `p` after the old prefix, put after the new one. */
  function MovedPath(p: Path, from: Path, to: Path): (q: Path)
    ensures to <= q
  {
    to + if from <= p then p[|from|..] else p
  }

  function AddOps(files: seq<(Path, Hash)>, from: Path, to: Path): (ops: seq<BatchOp>) {
    seq(|files|, k requires 0 <= k < |files| => AddFile(MovedPath(files[k].0, from, to), files[k].1))
  }

  function DeleteOps(files: seq<(Path, Hash)>): (ops: seq<BatchOp>) {
    seq(|files|, k requires 0 <= k < |files| => DeleteFile(files[k].0))
  }

  /** The committed clean files that go with the rename. */
  function MovedFiles(info: RenameInfo): (files: seq<(Path, Hash)>) {
    if info.kind == File && !info.isDirty && info.hash.Some? then [(info.oldPath, info.hash.value)]
    else if info.kind == Directory then info.descendantFiles
    else []
  }

  ghost predicate NoMovedPath(files: seq<(Path, Hash)>, from: Path, to: Path, p: Path) {
    forall k :: 0 <= k < |files| ==> MovedPath(files[k].0, from, to) != p
  }

  ghost predicate NoOldPath(files: seq<(Path, Hash)>, p: Path) {
    forall k :: 0 <= k < |files| ==> files[k].0 != p
  }

  ghost predicate Same(r: Remote, r': Remote, p: Path) {
    (p in r <==> p in r') && (p in r ==> r[p] == r'[p])
  }

  /** The files moved, and nothing else changed. */
  ghost predicate RemoteMoved(r: Remote, r': Remote, files: seq<(Path, Hash)>, from: Path, to: Path) {
    && (forall k :: 0 <= k < |files| ==> InRemote(r', MovedPath(files[k].0, from, to), files[k].1))
    && (forall k :: 0 <= k < |files| ==> files[k].0 !in r')
    && (forall p :: NoMovedPath(files, from, to, p) && NoOldPath(files, p) ==> Same(r, r', p))
  }

  ghost predicate DistinctTargets(files: seq<(Path, Hash)>, from: Path, to: Path) {
    forall a, b :: 0 <= a < b < |files| ==> MovedPath(files[a].0, from, to) != MovedPath(files[b].0, from, to)
  }

  lemma {:induction false} AddsEffect(r: Remote, files: seq<(Path, Hash)>, from: Path, to: Path)
    requires DistinctTargets(files, from, to)
    ensures var r' := ApplyBatch(r, AddOps(files, from, to));
            && (forall k :: 0 <= k < |files| ==> InRemote(r', MovedPath(files[k].0, from, to), files[k].1))
            && (forall p :: NoMovedPath(files, from, to, p) ==> Same(r, r', p))
  {
    if files != [] {
      var front := files[..|files| - 1];
      var ops := AddOps(files, from, to);
      assert ops[..|ops| - 1] == AddOps(front, from, to);
      AddsEffect(r, front, from, to);
      var r1 := ApplyBatch(r, AddOps(front, from, to));
      forall p | NoMovedPath(files, from, to, p)
        ensures Same(r, ApplyBatch(r, ops), p)
      {
        assert NoMovedPath(front, from, to, p);
        assert MovedPath(files[|files| - 1].0, from, to) != p;
      }
      forall k | 0 <= k < |front|
        ensures InRemote(r1, MovedPath(files[k].0, from, to), files[k].1)
      {
        assert front[k] == files[k];
      }
    }
  }

  lemma {:induction false} DeletesEffect(r: Remote, files: seq<(Path, Hash)>)
    ensures var r' := ApplyBatch(r, DeleteOps(files));
            && (forall k :: 0 <= k < |files| ==> files[k].0 !in r')
            && (forall p :: NoOldPath(files, p) ==> Same(r, r', p))
  {
    if files != [] {
      var front := files[..|files| - 1];
      var ops := DeleteOps(files);
      assert ops[..|ops| - 1] == DeleteOps(front);
      DeletesEffect(r, front);
      forall p | NoOldPath(files, p)
        ensures Same(r, ApplyBatch(r, ops), p)
      {
        assert NoOldPath(front, p);
        assert files[|files| - 1].0 != p;
      }
      forall k | 0 <= k < |front|
        ensures files[k].0 !in ApplyBatch(r, DeleteOps(front))
      {
        assert front[k] == files[k];
      }
    }
  }

  /** All adds, then all deletes, move the files: no new path may be one of the old ones. */
  lemma BatchMoves(r: Remote, files: seq<(Path, Hash)>, from: Path, to: Path)
    requires DistinctTargets(files, from, to)
    requires forall k :: 0 <= k < |files| ==> NoOldPath(files, MovedPath(files[k].0, from, to))
    ensures RemoteMoved(r, ApplyBatch(r, AddOps(files, from, to) + DeleteOps(files)), files, from, to)
  {
    BatchAppend(r, AddOps(files, from, to), DeleteOps(files));
    AddsEffect(r, files, from, to);
    DeletesEffect(ApplyBatch(r, AddOps(files, from, to)), files);
  }

  // ---- Remote and local agree ----

  /** `(p, h)` is a clean file of `s`. */
  ghost predicate Listed(t: Table, s: set<Ino>, p: Path, h: Hash) {
    && p in t.paths && t.paths[p] in s && t.paths[p] in t.inodes
    && IsClean(t.inodes[t.paths[p]]) && t.inodes[t.paths[p]].hash.value == h
  }

  /** `files` lists the clean files of `s`, each once. */
  ghost predicate FilesListed(t: Table, s: set<Ino>, files: seq<(Path, Hash)>) {
    && (forall p, h :: (p, h) in files <==> Listed(t, s, p, h))
    && (forall a, b :: 0 <= a < b < |files| ==> files[a].0 != files[b].0)
  }

  /** Old and new paths cannot meet: the new prefix is free, so it covers no indexed path. */
  lemma TargetsApart(t: Table, i: Ino, np: Ino, nn: Name, files: seq<(Path, Hash)>)
    requires Inv(t) && MoveOk(t, i, np, nn) && FilesListed(t, Subtree(t, i), files)
    ensures var from, to := t.inodes[i].fullPath, NewTop(t, np, nn);
            && DistinctTargets(files, from, to)
            && (forall k :: 0 <= k < |files| ==> NoOldPath(files, MovedPath(files[k].0, from, to)))
  {
    var from, to := t.inodes[i].fullPath, NewTop(t, np, nn);
    forall k | 0 <= k < |files|
      ensures from <= files[k].0 && files[k].0 in t.paths
    {
      assert (files[k].0, files[k].1) in files;
      assert PathOk(t, files[k].0);
    }
    forall a, b | 0 <= a < b < |files|
      ensures MovedPath(files[a].0, from, to) != MovedPath(files[b].0, from, to)
    {
      if MovedPath(files[a].0, from, to) == MovedPath(files[b].0, from, to) {
        RebasedInjective(files[a].0, files[b].0, from, to);
      }
    }
    forall k | 0 <= k < |files|
      ensures NoOldPath(files, MovedPath(files[k].0, from, to))
    {
      NewTopFree(t, i, np, nn, MovedPath(files[k].0, from, to));
    }
  }

  /** The same files are clean before and after the preparation. */
  lemma ReadyListed(t: Table, t2: Table, i: Ino, np: Ino, nn: Name, files: seq<(Path, Hash)>)
    requires Inv(t) && Attached(t, i) && Ready(t, t2, i, np, nn) && FilesListed(t, Subtree(t, i), files)
    ensures FilesListed(t2, Subtree(t2, i), files)
  {
    forall p, h
      ensures Listed(t, Subtree(t, i), p, h) <==> Listed(t2, Subtree(t, i), p, h)
    {
      if Listed(t, Subtree(t, i), p, h) {
        assert PathOk(t, p);
        assert NodeOk(t2, t.paths[p]);
      }
      if Listed(t2, Subtree(t, i), p, h) {
        assert PathOk(t2, p);
        assert NodeOk(t, t2.paths[p]);
      }
    }
  }

  /** Moving a subtree locally and its clean files on the Hub keeps the two in agreement. */
  lemma MoveAgrees(t: Table, t': Table, i: Ino, np: Ino, nn: Name, files: seq<(Path, Hash)>, r: Remote, r': Remote)
    requires Inv(t) && MoveOk(t, i, np, nn) && MovedTo(t, t', i, np, nn) && FilesListed(t, Subtree(t, i), files)
    requires Agrees(t, r) && RemoteMoved(r, r', files, t.inodes[i].fullPath, NewTop(t, np, nn))
    ensures Agrees(t', r')
  {
    var from, to := t.inodes[i].fullPath, NewTop(t, np, nn);
    forall j | Attached(t', j) && IsClean(t'.inodes[j])
      ensures InRemote(r', t'.inodes[j].fullPath, t'.inodes[j].hash.value)
    {
      if j in Subtree(t, i) {
        MovedFileAgrees(t, i, np, nn, files, r', j);
      } else {
        UnmovedFile(t, t', i, np, nn, j);
        UnmovedFileAgrees(t, i, np, nn, files, r, r', j);
      }
    }
  }

  lemma MovedFileAgrees(t: Table, i: Ino, np: Ino, nn: Name, files: seq<(Path, Hash)>, r': Remote, j: Ino)
    requires Inv(t) && MoveOk(t, i, np, nn) && j in Subtree(t, i) && IsClean(t.inodes[j])
    requires FilesListed(t, Subtree(t, i), files)
    requires forall k :: 0 <= k < |files| ==>
               InRemote(r', MovedPath(files[k].0, t.inodes[i].fullPath, NewTop(t, np, nn)), files[k].1)
    ensures InRemote(r', MovedEntry(t, i, np, nn, j).fullPath, t.inodes[j].hash.value)
  {
    assert NodeOk(t, j);
    var p, h := t.inodes[j].fullPath, t.inodes[j].hash.value;
    assert Listed(t, Subtree(t, i), p, h);
    assert (p, h) in files;
    var k :| 0 <= k < |files| && files[k] == (p, h);
  }

  /** A file outside the subtree is untouched. */
  lemma UnmovedFile(t: Table, t': Table, i: Ino, np: Ino, nn: Name, j: Ino)
    requires Inv(t) && MoveOk(t, i, np, nn) && MovedTo(t, t', i, np, nn)
    requires Attached(t', j) && IsClean(t'.inodes[j]) && j !in Subtree(t, i)
    ensures Attached(t, j) && t'.inodes[j] == t.inodes[j]
  {
    var cut := Remove(t, i);
    RemoveInv(t, i);
    RemoveShape(t, i);
    KeptOutside(t, cut, t', i, np, nn, j);
    assert i in Subtree(t, i);
  }

  lemma UnmovedFileAgrees(t: Table, i: Ino, np: Ino, nn: Name, files: seq<(Path, Hash)>, r: Remote, r': Remote, j: Ino)
    requires Inv(t) && MoveOk(t, i, np, nn) && FilesListed(t, Subtree(t, i), files)
    requires Attached(t, j) && j !in Subtree(t, i) && t.inodes[j].hash.Some?
    requires InRemote(r, t.inodes[j].fullPath, t.inodes[j].hash.value)
    requires RemoteMoved(r, r', files, t.inodes[i].fullPath, NewTop(t, np, nn))
    ensures InRemote(r', t.inodes[j].fullPath, t.inodes[j].hash.value)
  {
    var from, to, p := t.inodes[i].fullPath, NewTop(t, np, nn), t.inodes[j].fullPath;
    assert NodeOk(t, j);
    forall k | 0 <= k < |files|
      ensures files[k].0 != p && MovedPath(files[k].0, from, to) != p
    {
      assert (files[k].0, files[k].1) in files;
      if to <= p { NewTopFree(t, i, np, nn, p); }
    }
    assert NoMovedPath(files, from, to, p) && NoOldPath(files, p);
  }

  /** Rename keeps remote and local in agreement. */
  lemma RenameAgrees(t: Table, t': Table, i: Ino, np: Ino, nn: Name, files: seq<(Path, Hash)>, r: Remote)
    requires RenameOk(t, i, np, nn) && Renamed(t, t', i, np, nn) && FilesListed(t, Subtree(t, i), files)
    ensures var from, to := t.inodes[i].fullPath, NewTop(t, np, nn);
            var r' := ApplyBatch(r, AddOps(files, from, to) + DeleteOps(files));
            RemoteMoved(r, r', files, from, to) && (Agrees(t, r) ==> Agrees(t', r'))
  {
    PreparedReady(t, i, np, nn);
    var t2 := Prepared(t, i, np, nn);
    var from, to := t.inodes[i].fullPath, NewTop(t, np, nn);
    assert t2.inodes[i].fullPath == from by { assert i in Subtree(t, i); }
    ReadyListed(t, t2, i, np, nn, files);
    TargetsApart(t2, i, np, nn, files);
    BatchMoves(r, files, from, to);
    if Agrees(t, r) {
      assert Agrees(t2, r);
      MoveAgrees(t2, t', i, np, nn, files, r, ApplyBatch(r, AddOps(files, from, to) + DeleteOps(files)));
    }
  }

  // ---- A batch that took effect although the Hub reported a failure ----

  /** Agreement, except for the files of the subtree and the file at the new name. */
  ghost predicate AgreesElsewhere(t: Table, r: Remote, i: Ino, np: Ino, nn: Name)
    requires i in t.inodes
  {
    forall j :: Attached(t, j) && IsClean(t.inodes[j]) && j !in Subtree(t, i) && LookupChild(t, np, nn) != Some(j) ==>
      InRemote(r, t.inodes[j].fullPath, t.inodes[j].hash.value)
  }

  /** The table stays as it was, but the files have moved on the Hub.  Agreement survives exactly when there was no file
      to move; and in any case for the files outside the subtree, but for one at the new name. */
  lemma LostAnswer(t: Table, i: Ino, np: Ino, nn: Name, files: seq<(Path, Hash)>, r: Remote)
    requires RenameOk(t, i, np, nn) && FilesListed(t, Subtree(t, i), files)
    ensures var from, to := t.inodes[i].fullPath, NewTop(t, np, nn);
            var r' := ApplyBatch(r, AddOps(files, from, to) + DeleteOps(files));
            && RemoteMoved(r, r', files, from, to)
            && (Agrees(t, r) ==> (Agrees(t, r') <==> files == []) && AgreesElsewhere(t, r', i, np, nn))
  {
    PreparedReady(t, i, np, nn);
    var t2 := Prepared(t, i, np, nn);
    var from, to := t.inodes[i].fullPath, NewTop(t, np, nn);
    assert t2.inodes[i].fullPath == from by { assert i in Subtree(t, i); }
    ReadyListed(t, t2, i, np, nn, files);
    TargetsApart(t2, i, np, nn, files);
    BatchMoves(r, files, from, to);
    var r' := ApplyBatch(r, AddOps(files, from, to) + DeleteOps(files));
    if files != [] {
      OldPathLost(t, i, files, r');
    }
    forall j | Agrees(t, r) && Attached(t, j) && IsClean(t.inodes[j]) && j !in Subtree(t, i) && LookupChild(t, np, nn) != Some(j)
      ensures InRemote(r', t.inodes[j].fullPath, t.inodes[j].hash.value)
    {
      BystanderStays(t, i, np, nn, j);
      UnmovedFileAgrees(t2, i, np, nn, files, r, r', j);
    }
  }

  lemma OldPathLost(t: Table, i: Ino, files: seq<(Path, Hash)>, r': Remote)
    requires Inv(t) && i in t.inodes && FilesListed(t, Subtree(t, i), files) && files != [] && files[0].0 !in r'
    ensures !Agrees(t, r')
  {
    var (p, h) := files[0];
    assert (p, h) in files;
    assert Listed(t, Subtree(t, i), p, h) && PathOk(t, p);
    assert !InRemote(r', p, h);
  }

  /** Clearing the target and noting old paths leave every other file as it was. */
  lemma BystanderStays(t: Table, i: Ino, np: Ino, nn: Name, j: Ino)
    requires RenameOk(t, i, np, nn) && i in Replaced(t, np, nn).inodes
    requires Attached(t, j) && t.inodes[j].kind == File && LookupChild(t, np, nn) != Some(j)
    ensures Attached(Prepared(t, i, np, nn), j) && SameBut(t.inodes[j], Prepared(t, i, np, nn).inodes[j])
  {
    Clears(t, i, np, nn);
    NotedInv(Replaced(t, np, nn), i);
    assert j != np;
  }
}
