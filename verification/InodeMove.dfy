/** Moving a subtree: `move_child` followed by `update_subtree_paths`
    (src/virtual_fs/inode.rs), and the proof that the move keeps the invariant. */
module InodeMove {
  import opened Inodes
  import opened InodeOps

  /** `p` with its prefix `from` replaced by `to`. */
  function Rebased(p: Path, from: Path, to: Path): (r: Path)
    requires from <= p
    ensures to <= r
  {
    to + p[|from|..]
  }

  lemma RebasedChild(p: Path, from: Path, to: Path, n: Name)
    requires from <= p
    ensures from <= ChildPath(p, n) && Rebased(ChildPath(p, n), from, to) == ChildPath(Rebased(p, from, to), n)
  {
    assert ChildPath(p, n)[|from|..] == p[|from|..] + [n];
  }

  lemma RebasedInjective(p: Path, q: Path, from: Path, to: Path)
    requires from <= p && from <= q && Rebased(p, from, to) == Rebased(q, from, to)
    ensures p == q
  {
    assert p == from + p[|from|..] && q == from + q[|from|..];
    assert Rebased(p, from, to)[|to|..] == p[|from|..] && Rebased(q, from, to)[|to|..] == q[|from|..];
  }

  /** Every prefix of an indexed path is indexed. */
  lemma {:induction false} PrefixIndexed(t: Table, p: Path, q: Path)
    requires Inv(t) && p in t.paths && q <= p
    ensures q in t.paths
    decreases |p|
  {
    if q != p {
      var i := t.paths[p];
      assert PathOk(t, p);
      assert NodeOk(t, i);
      assert i != ROOT;
      var d := t.inodes[i].parent;
      assert NodeOk(t, d);
      var front := t.inodes[d].fullPath;
      assert p == ChildPath(front, t.inodes[i].name);
      assert q <= front;
      PrefixIndexed(t, front, q);
    }
  }

  // ---- The result of a move ----

  ghost function NewTop(t: Table, np: Ino, nn: Name): (p: Path)
    requires np in t.inodes
  {
    ChildPath(t.inodes[np].fullPath, nn)
  }

  /** The entry of `j`, a member of `i`'s subtree, after the move. */
  ghost function MovedEntry(t: Table, i: Ino, np: Ino, nn: Name, j: Ino): (e: Entry)
    requires i in t.inodes && np in t.inodes && j in Subtree(t, i)
  {
    var e := t.inodes[j].(fullPath := Rebased(t.inodes[j].fullPath, t.inodes[i].fullPath, NewTop(t, np, nn)));
    if j == i then e.(parent := np, name := nn) else e
  }

  /** `t'` is `t` with the subtree of `i` cut off (`Remove`) and hung under `np` as `nn`,
      its paths rebased, in both maps and nowhere else. */
  ghost predicate MovedTo(t: Table, t': Table, i: Ino, np: Ino, nn: Name)
    requires i in t.inodes && np in t.inodes
  {
    Rehung(t, Remove(t, i), t', i, np, nn) && PathsMoved(t, t', i, np, nn)
  }

  ghost predicate Rehung(t: Table, cut: Table, t': Table, i: Ino, np: Ino, nn: Name)
    requires i in t.inodes && np in t.inodes
  {
    && t'.next == t.next && t'.inodes.Keys == t.inodes.Keys && np in cut.inodes
    && (forall j :: j in Subtree(t, i) ==> t'.inodes[j] == MovedEntry(t, i, np, nn, j))
    && (forall j :: j in cut.inodes && j != np ==> j in t'.inodes && t'.inodes[j] == cut.inodes[j])
    && t'.inodes[np] == Adopted(cut.inodes[np], i, nn, t.inodes[i].kind)
  }

  /** A directory entry with one more child. */
  function Adopted(e: Entry, i: Ino, name: Name, kind: Kind): (r: Entry) {
    AddChild(e, i, name).(nlink := e.nlink + if kind == Directory then 1 else 0)
  }

  ghost predicate PathsMoved(t: Table, t': Table, i: Ino, np: Ino, nn: Name)
    requires i in t.inodes && np in t.inodes
  {
    var sub := Subtree(t, i);
    && (forall j :: j in sub ==> InPaths(t'.paths, MovedEntry(t, i, np, nn, j).fullPath, j))
    && (forall p :: p in t.paths && t.paths[p] !in sub ==> InPaths(t'.paths, p, t.paths[p]))
    && (forall p :: p in t'.paths ==>
          || (t'.paths[p] in sub && MovedEntry(t, i, np, nn, t'.paths[p]).fullPath == p)
          || (t'.paths[p] !in sub && InPaths(t.paths, p, t'.paths[p])))
  }

  ghost predicate InPaths(paths: map<Path, Ino>, p: Path, i: Ino) {
    p in paths && paths[p] == i
  }

  ghost predicate MoveOk(t: Table, i: Ino, np: Ino, nn: Name) {
    && Attached(t, i) && i != ROOT && IsDir(t, np) && np !in Subtree(t, i)
    && nn !in t.inodes[np].childIndex
  }

  lemma MoveInv(t: Table, t': Table, i: Ino, np: Ino, nn: Name)
    requires Inv(t) && MoveOk(t, i, np, nn) && MovedTo(t, t', i, np, nn)
    ensures Inv(t')
  {
    var cut := Remove(t, i);
    RemoveInv(t, i);
    RemoveShape(t, i);
    forall j | j in t'.inodes
      ensures NodeOk(t', j)
    {
      if j in Subtree(t, i) {
        MovedInside(t, t', i, np, nn, j);
      } else if j == np {
        MovedNewParent(t, cut, t', i, np, nn);
      } else {
        MovedElsewhere(t, cut, t', i, np, nn, j);
      }
    }
    forall p | p in t'.paths
      ensures PathOk(t', p)
    {
      MovedIndex(t, cut, t', i, np, nn, p);
    }
    RootOutside(t, i);
    KeptOutside(t, cut, t', i, np, nn, ROOT);
  }

  lemma RootOutside(t: Table, i: Ino)
    requires Inv(t) && Attached(t, i) && i != ROOT
    ensures ROOT in t.inodes && ROOT !in Subtree(t, i)
  {
    if ROOT in Subtree(t, i) {
      SubtreeParent(t, i, ROOT);
    }
  }

  /** The cut table and the moved one, as the lemmas below take them. */
  ghost predicate Moving(t: Table, cut: Table, t': Table, i: Ino, np: Ino, nn: Name) {
    && Inv(t) && MoveOk(t, i, np, nn) && Inv(cut) && RemovedFrom(t, cut, i)
    && Rehung(t, cut, t', i, np, nn) && PathsMoved(t, t', i, np, nn)
  }

  lemma MovedIndex(t: Table, cut: Table, t': Table, i: Ino, np: Ino, nn: Name, p: Path)
    requires Moving(t, cut, t', i, np, nn) && p in t'.paths
    ensures PathOk(t', p)
  {
    if t'.paths[p] !in Subtree(t, i) {
      assert PathOk(t, p);
      KeptOutside(t, cut, t', i, np, nn, t'.paths[p]);
    }
  }

  /** Outside the subtree only child lists and link counts change. */
  lemma KeptOutside(t: Table, cut: Table, t': Table, i: Ino, np: Ino, nn: Name, j: Ino)
    requires Moving(t, cut, t', i, np, nn) && j in t.inodes && j !in Subtree(t, i)
    ensures j in cut.inodes
    ensures var e, e' := t.inodes[j], t'.inodes[j];
            && e'.fullPath == e.fullPath && e'.kind == e.kind && e'.parent == e.parent && e'.name == e.name
            && (e.nlink > 0 <==> e'.nlink > 0)
  {
    assert NodeOk(t, j) && NodeOk(cut, j);
    assert i in Subtree(t, i);
  }

  lemma MovedNewParent(t: Table, cut: Table, t': Table, i: Ino, np: Ino, nn: Name)
    requires Moving(t, cut, t', i, np, nn)
    ensures NodeOk(t', np)
  {
    assert i in Subtree(t, i);
    assert NodeOk(t, np) && NodeOk(cut, np);
    forall n | n in cut.inodes[np].childIndex
      ensures cut.inodes[np].childIndex[n] != i
    {
      assert EdgeOk(cut, np, n);
    }
    KeptOutside(t, cut, t', i, np, nn, np);
    assert nn !in cut.inodes[np].childIndex;
    assert Gained(cut, t', np, i, nn);
    ParentGains(cut, t', np, i, nn);
  }

  lemma MovedElsewhere(t: Table, cut: Table, t': Table, i: Ino, np: Ino, nn: Name, j: Ino)
    requires Moving(t, cut, t', i, np, nn) && j in t.inodes && j !in Subtree(t, i) && j != np
    ensures NodeOk(t', j)
  {
    assert NodeOk(cut, j);
    forall n | n in cut.inodes[j].childIndex
      ensures EdgeKept(cut, t', cut.inodes[j].childIndex[n])
    {
      assert EdgeOk(cut, j, n);
      ElsewhereKept(t, cut, t', i, np, nn, cut.inodes[j].childIndex[n]);
    }
    if cut.inodes[j].nlink > 0 {
      ElsewhereIndexed(t, cut, t', i, np, nn, j);
    }
    FramedNode(cut, t', j);
  }

  lemma ElsewhereKept(t: Table, cut: Table, t': Table, i: Ino, np: Ino, nn: Name, c: Ino)
    requires Moving(t, cut, t', i, np, nn) && c in cut.inodes
    ensures c in t'.inodes && EdgeKept(cut, t', c)
  {
  }

  lemma ElsewhereIndexed(t: Table, cut: Table, t': Table, i: Ino, np: Ino, nn: Name, j: Ino)
    requires Moving(t, cut, t', i, np, nn) && j in cut.inodes && cut.inodes[j].nlink > 0
    ensures InPaths(t'.paths, cut.inodes[j].fullPath, j)
    ensures j != ROOT ==> UpKept(cut, t', j)
  {
    KeptOutside(t, cut, t', i, np, nn, j);
    assert NodeOk(t, j) && NodeOk(cut, j);
    assert InPaths(t'.paths, t.inodes[j].fullPath, t.paths[t.inodes[j].fullPath]);
    NewNameFree(t, cut, t', i, np, nn);
  }

  lemma NewNameFree(t: Table, cut: Table, t': Table, i: Ino, np: Ino, nn: Name)
    requires Moving(t, cut, t', i, np, nn)
    ensures nn !in cut.inodes[np].childIndex
  {
    assert NodeOk(t, np);
  }

  lemma MovedInside(t: Table, t': Table, i: Ino, np: Ino, nn: Name, j: Ino)
    requires Inv(t) && MoveOk(t, i, np, nn) && MovedTo(t, t', i, np, nn) && j in Subtree(t, i)
    ensures NodeOk(t', j)
  {
    assert NodeOk(t, j);
    MovedUp(t, t', i, np, nn, j);
    MovedDown(t, t', i, np, nn, j);
  }

  lemma MovedUp(t: Table, t': Table, i: Ino, np: Ino, nn: Name, j: Ino)
    requires Inv(t) && MoveOk(t, i, np, nn) && MovedTo(t, t', i, np, nn) && j in Subtree(t, i)
    ensures UpOk(t', j)
  {
    var from, top := t.inodes[i].fullPath, NewTop(t, np, nn);
    if j == i {
      MovedTopUp(t, t', i, np, nn);
    } else {
      SubtreeParent(t, i, j);
      assert NodeOk(t, j);
      var p := t.inodes[j].parent;
      RebasedChild(t.inodes[p].fullPath, from, top, t.inodes[j].name);
    }
  }

  lemma MovedTopUp(t: Table, t': Table, i: Ino, np: Ino, nn: Name)
    requires Inv(t) && MoveOk(t, i, np, nn) && MovedTo(t, t', i, np, nn)
    ensures UpOk(t', i)
  {
    RemoveInv(t, i);
    RemoveShape(t, i);
    KeptOutside(t, Remove(t, i), t', i, np, nn, np);
    assert i in Subtree(t, i);
    var from := t.inodes[i].fullPath;
    assert from[|from|..] == [];
  }

  lemma MovedDown(t: Table, t': Table, i: Ino, np: Ino, nn: Name, j: Ino)
    requires Inv(t) && MoveOk(t, i, np, nn) && MovedTo(t, t', i, np, nn) && j in Subtree(t, i)
    ensures CountOk(t', j)
    ensures forall n {:trigger EdgeOk(t', j, n)} :: n in t'.inodes[j].childIndex ==> EdgeOk(t', j, n)
  {
    assert NodeOk(t, j);
    var ix := t.inodes[j].childIndex;
    forall n | n in ix
      ensures EdgeOk(t', j, n) && (IsDir(t', ix[n]) <==> IsDir(t, ix[n]))
    {
      ChildInside(t, i, j, n);
    }
    assert Subdirs(t', j) == Subdirs(t, j);
  }

  /** A child of a member of the subtree is a member other than the top. */
  lemma ChildInside(t: Table, i: Ino, j: Ino, n: Name)
    requires Inv(t) && Attached(t, i) && j in Subtree(t, i) && n in t.inodes[j].childIndex
    ensures var c := t.inodes[j].childIndex[n]; c in Subtree(t, i) && c != i && EdgeOk(t, j, n)
  {
    SubtreeChild(t, i, j, n);
    assert NodeOk(t, j) && EdgeOk(t, j, n);
    EdgePath(t, j, n);
  }
}
