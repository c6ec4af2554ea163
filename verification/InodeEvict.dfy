/** Eviction of clean file inodes (src/virtual_fs/inode.rs), one at a time and in
    batches.  The batch is described by `EvictSet`, which is proved equal to
    evicting the same inodes one after the other, in any order. */
module InodeEvict {
  import opened Inodes
  import opened InodeOps
  import opened InodeWalk

  predicate Evictable(e: Entry) {
    e.kind == File && e.nlookup == 0 && !e.IsDirty() && e.pendingDeletes == [] && e.nlink > 0
  }

  function EvictIfSafe(t: Table, i: Ino): (r: (Table, bool)) {
    if i in t.inodes && Evictable(t.inodes[i]) then (Evict(t, i), true) else (t, false)
  }

  function Evict(t: Table, i: Ino): (t': Table)
    requires i in t.inodes
  {
    var e := t.inodes[i];
    var rest := t.inodes - {i};
    Table(if e.parent in rest
          then rest[e.parent := RemoveChildByIno(rest[e.parent], i).(childrenLoaded := false)] else rest,
          t.paths - {e.fullPath}, t.next)
  }

  lemma FileIsLeaf(t: Table, i: Ino)
    requires Inv(t) && Attached(t, i) && t.inodes[i].kind != Directory
    ensures Subtree(t, i) == {i}
  {
    assert NodeOk(t, i);
    forall j | j in Subtree(t, i)
      ensures j == i
    {
      if j != i {
        var k := KidTowards(t, i, j);
      }
    }
  }

  lemma EvictInv(t: Table, i: Ino)
    requires Inv(t)
    ensures Inv(EvictIfSafe(t, i).0)
  {
    if i in t.inodes && Evictable(t.inodes[i]) {
      assert NodeOk(t, i);
      FileIsLeaf(t, i);
      RemoveInv(t, i);
      ShapeInv(Remove(t, i), Evict(t, i));
    }
  }

  // ---- Batches ----

  predicate EvictableNow(t: Table, i: Ino) {
    i in t.inodes && Evictable(t.inodes[i]) && t.inodes[i].openHandles == 0
  }

  /** The reference: `EvictIfSafe` on each inode without open handles, in order. */
  function EvictEach(t: Table, inos: seq<Ino>): (t': Table)
    decreases inos
  {
    if inos == [] then t
    else EvictEach(if EvictableNow(t, inos[0]) then EvictIfSafe(t, inos[0]).0 else t, inos[1..])
  }

  ghost function Eligible(t: Table, inos: seq<Ino>): (s: set<Ino>) {
    set i | i in inos && EvictableNow(t, i)
  }

  /** The names under which `j` holds members of `gone`. */
  ghost function NamesUnder(t: Table, gone: set<Ino>, j: Ino): (s: set<Name>) {
    set c | c in gone && c in t.inodes && t.inodes[c].parent == j :: t.inodes[c].name
  }

  ghost function Parents(t: Table, gone: set<Ino>): (s: set<Ino>) {
    set c | c in gone && c in t.inodes :: t.inodes[c].parent
  }

  function Retain(children: seq<DirChild>, gone: set<Ino>): (r: seq<DirChild>) {
    if children == [] then []
    else (if children[0].ino in gone then [] else [children[0]]) + Retain(children[1..], gone)
  }

  /** `j`'s entry once `gone` is out of its name index and, if `retained`, out of its list too. */
  ghost function Stripped(t: Table, gone: set<Ino>, all: set<Ino>, retained: bool, j: Ino): (e: Entry)
    requires j in t.inodes
  {
    var e := t.inodes[j].(childIndex := t.inodes[j].childIndex - NamesUnder(t, gone, j));
    if retained then e.(children := Retain(e.children, all), childrenLoaded := false) else e
  }

  /** `t` without `gone`, where the lists of `done` have been filtered. */
  ghost function Partial(t: Table, gone: set<Ino>, all: set<Ino>, done: set<Ino>): (t': Table) {
    Table(map j | j in t.inodes && j !in gone :: Stripped(t, gone, all, j in done, j),
          t.paths - (set c | c in gone && c in t.inodes :: t.inodes[c].fullPath),
          t.next)
  }

  ghost function EvictSet(t: Table, gone: set<Ino>): (t': Table) {
    Partial(t, gone, gone, Parents(t, gone))
  }

  lemma {:induction false} RetainOne(children: seq<DirChild>, i: Ino, gone: set<Ino>)
    requires OneEdgePerIno(children)
    ensures Retain(WithoutIno(children, i), gone - {i}) == Retain(children, gone + {i})
  {
    if children != [] {
      Uncons(children);
      if children[0].ino == i {
        RetainSame(children[1..], gone - {i}, gone + {i});
      } else {
        RetainOne(children[1..], i, gone);
        var w := WithoutIno(children[1..], i);
        assert ([children[0]] + w)[1..] == w;
      }
    }
  }

  lemma {:induction false} RetainSame(children: seq<DirChild>, a: set<Ino>, b: set<Ino>)
    requires forall c :: c in children ==> (c.ino in a <==> c.ino in b)
    ensures Retain(children, a) == Retain(children, b)
  {
    if children != [] {
      RetainSame(children[1..], a, b);
    }
  }

  lemma {:induction false} RetainNone(children: seq<DirChild>, gone: set<Ino>)
    requires forall c :: c in children ==> c.ino !in gone
    ensures Retain(children, gone) == children
  {
    if children != [] {
      RetainNone(children[1..], gone);
    }
  }

  /** What evicting the attached file `i` leaves. */
  ghost predicate EvictedOne(t: Table, t1: Table, i: Ino)
    requires i in t.inodes
  {
    var d, name := t.inodes[i].parent, t.inodes[i].name;
    && IsDir(t, d) && d != i && i != ROOT
    && name in t.inodes[d].childIndex && t.inodes[d].childIndex[name] == i
    && t1.next == t.next && t1.paths == t.paths - {t.inodes[i].fullPath}
    && t1.inodes.Keys == t.inodes.Keys - {i}
    && (forall j :: j in t1.inodes && j != d ==> t1.inodes[j] == t.inodes[j])
    && t1.inodes[d] == t.inodes[d].(children := WithoutIno(t.inodes[d].children, i),
                                    childIndex := t.inodes[d].childIndex - {name}, childrenLoaded := false)
  }

  lemma EvictShape(t: Table, i: Ino)
    requires Inv(t) && i in t.inodes && Evictable(t.inodes[i])
    ensures EvictedOne(t, Evict(t, i), i)
  {
    assert NodeOk(t, i) && NodeOk(t, ROOT);
    var d := t.inodes[i].parent;
    assert NodeOk(t, d) && EdgeOk(t, d, t.inodes[i].name);
    ChildrenOneEdge(t, d);
    WithoutInoAgrees(t.inodes[d].children, t.inodes[d].childIndex, t.inodes[i].name);
  }

  ghost predicate AllEvictable(t: Table, gone: set<Ino>) {
    forall c {:trigger EvictableNow(t, c)} :: c in gone ==> EvictableNow(t, c)
  }

  /** Evicting one member first and the rest after is evicting them all. */
  lemma EvictFirst(t: Table, i: Ino, gone: set<Ino>)
    requires Inv(t) && i in gone && EvictableNow(t, i) && AllEvictable(t, gone)
    ensures EvictSet(Evict(t, i), gone - {i}) == EvictSet(t, gone)
  {
    var t1 := Evict(t, i);
    EvictShape(t, i);
    EvictFirstMaps(t, t1, i, gone);
  }

  lemma EvictFirstMaps(t: Table, t1: Table, i: Ino, gone: set<Ino>)
    requires Inv(t) && i in gone && EvictableNow(t, i) && AllEvictable(t, gone) && EvictedOne(t, t1, i)
    ensures EvictSet(t1, gone - {i}) == EvictSet(t, gone)
  {
    var rest := gone - {i};
    var a, b := EvictSet(t1, rest), EvictSet(t, gone);
    assert a.inodes.Keys == b.inodes.Keys;
    forall j | j in b.inodes
      ensures a.inodes[j] == b.inodes[j]
    {
      EvictFirstEntry(t, t1, i, gone, j);
    }
    EvictFirstPaths(t, t1, i, gone);
  }

  lemma EvictFirstEntry(t: Table, t1: Table, i: Ino, gone: set<Ino>, j: Ino)
    requires Inv(t) && i in gone && EvictableNow(t, i) && AllEvictable(t, gone) && EvictedOne(t, t1, i)
    requires j in t.inodes && j !in gone
    ensures var rest := gone - {i};
            Stripped(t1, rest, rest, j in Parents(t1, rest), j) == Stripped(t, gone, gone, j in Parents(t, gone), j)
  {
    if j == t.inodes[i].parent {
      EvictFirstParent(t, t1, i, gone);
    } else {
      EvictFirstOther(t, t1, i, gone, j);
    }
  }

  lemma EvictFirstPaths(t: Table, t1: Table, i: Ino, gone: set<Ino>)
    requires Inv(t) && i in gone && EvictableNow(t, i) && AllEvictable(t, gone) && EvictedOne(t, t1, i)
    ensures EvictSet(t1, gone - {i}).paths == EvictSet(t, gone).paths
  {
    var rest := gone - {i};
    RestSame(t, t1, i, gone);
    var a := set c | c in rest && c in t1.inodes :: t1.inodes[c].fullPath;
    var b := set c | c in gone && c in t.inodes :: t.inodes[c].fullPath;
    assert b == a + {t.inodes[i].fullPath};
  }

  lemma RestSame(t: Table, t1: Table, i: Ino, gone: set<Ino>)
    requires Inv(t) && i in gone && AllEvictable(t, gone) && i in t.inodes && EvictedOne(t, t1, i)
    ensures forall c :: c in gone - {i} ==> c in t1.inodes && t1.inodes[c] == t.inodes[c] && c in t.inodes
    ensures forall j :: NamesUnder(t1, gone - {i}, j) == NamesUnder(t, gone - {i}, j)
    ensures Parents(t1, gone - {i}) == Parents(t, gone - {i})
  {
    forall c | c in gone - {i}
      ensures c in t1.inodes && t1.inodes[c] == t.inodes[c]
    {
      assert EvictableNow(t, c);
    }
  }

  lemma EvictFirstParent(t: Table, t1: Table, i: Ino, gone: set<Ino>)
    requires Inv(t) && i in gone && EvictableNow(t, i) && AllEvictable(t, gone) && EvictedOne(t, t1, i)
    ensures var d, rest := t.inodes[i].parent, gone - {i};
            Stripped(t1, rest, rest, d in Parents(t1, rest), d) == Stripped(t, gone, gone, d in Parents(t, gone), d)
  {
    var d, rest := t.inodes[i].parent, gone - {i};
    RestSame(t, t1, i, gone);
    assert NamesUnder(t, gone, d) == NamesUnder(t, rest, d) + {t.inodes[i].name};
    ChildrenOneEdge(t, d);
    RetainOne(t.inodes[d].children, i, gone);
    assert gone + {i} == gone;
    if d !in Parents(t, rest) {
      OthersKept(t, rest, d, WithoutIno(t.inodes[d].children, i));
    }
    assert d in Parents(t, gone);
  }

  lemma EvictFirstOther(t: Table, t1: Table, i: Ino, gone: set<Ino>, j: Ino)
    requires Inv(t) && i in gone && EvictableNow(t, i) && AllEvictable(t, gone) && EvictedOne(t, t1, i)
    requires j in t.inodes && j !in gone && j != t.inodes[i].parent
    ensures var rest := gone - {i};
            Stripped(t1, rest, rest, j in Parents(t1, rest), j) == Stripped(t, gone, gone, j in Parents(t, gone), j)
  {
    var rest := gone - {i};
    RestSame(t, t1, i, gone);
    assert NamesUnder(t, gone, j) == NamesUnder(t, rest, j);
    assert j in Parents(t, rest) <==> j in Parents(t, gone);
    assert NodeOk(t, j);
    forall c | c in t.inodes[j].children
      ensures c.ino != i
    {
      assert EdgeOk(t, j, c.name);
    }
    RetainSame(t.inodes[j].children, rest, gone);
  }

  /** If no child of `d` is evicted, retaining the others of a sublist changes nothing. */
  lemma OthersKept(t: Table, rest: set<Ino>, d: Ino, list: seq<DirChild>)
    requires Inv(t) && d in t.inodes && (forall c :: c in list ==> c in t.inodes[d].children)
    requires forall c :: c in rest && c in t.inodes ==> t.inodes[c].parent != d
    ensures Retain(list, rest) == list
    ensures NamesUnder(t, rest, d) == {}
  {
    assert NodeOk(t, d);
    forall c | c in list
      ensures c.ino !in rest
    {
      assert EdgeOk(t, d, c.name);
    }
    RetainNone(list, rest);
  }

  /** The batch result is the one-at-a-time result: same entries, same child order, same index. */
  lemma {:induction false} EvictEachIsSet(t: Table, inos: seq<Ino>)
    requires Inv(t)
    ensures EvictEach(t, inos) == EvictSet(t, Eligible(t, inos))
    ensures Inv(EvictEach(t, inos))
    decreases inos
  {
    if inos == [] {
      assert Eligible(t, inos) == {};
      EvictNone(t);
    } else {
      var i, rest := inos[0], inos[1..];
      if EvictableNow(t, i) {
        var t1 := Evict(t, i);
        EvictInv(t, i);
        EvictEachIsSet(t1, rest);
        EvictFirst(t, i, Eligible(t, inos));
        assert Eligible(t1, rest) == Eligible(t, inos) - {i} by {
          StillEligible(t, i);
        }
      } else {
        EvictEachIsSet(t, rest);
        assert Eligible(t, rest) == Eligible(t, inos);
      }
    }
  }

  lemma StillEligible(t: Table, i: Ino)
    requires Inv(t) && EvictableNow(t, i)
    ensures forall j :: EvictableNow(Evict(t, i), j) <==> j != i && EvictableNow(t, j)
  {
    EvictShape(t, i);
    assert NodeOk(t, t.inodes[i].parent);
  }

  lemma EvictNone(t: Table)
    ensures EvictSet(t, {}) == t
  {
    assert Parents(t, {}) == {};
    forall j | j in t.inodes
      ensures Stripped(t, {}, {}, false, j) == t.inodes[j]
    {
      assert NamesUnder(t, {}, j) == {};
      assert t.inodes[j].childIndex - {} == t.inodes[j].childIndex;
    }
    assert EvictSet(t, {}).inodes == t.inodes;
    assert EvictSet(t, {}).paths == t.paths;
  }

  /** Nothing but clean, closed, kernel-forgotten regular files is ever evicted,
      and every eligible one is. */
  lemma EvictedExactly(t: Table, inos: seq<Ino>)
    requires Inv(t)
    ensures EvictEach(t, inos).inodes.Keys == t.inodes.Keys - Eligible(t, inos)
    ensures forall i :: i in t.inodes ==>
              var e := t.inodes[i];
              (i !in EvictEach(t, inos).inodes <==>
                && i in inos && e.kind == File && e.dirtyGeneration == 0 && e.nlookup == 0 && e.openHandles == 0
                && e.pendingDeletes == [] && e.nlink > 0)
  {
    EvictEachIsSet(t, inos);
  }
}
