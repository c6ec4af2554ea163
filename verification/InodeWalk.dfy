/** Stack walks over the child lists.

    The table's walks (`remove`, `has_dirty_or_open_descendants`, the rename
    scans) keep a stack of inodes still to visit.  `Cover` is everything those
    inodes stand for; popping one and pushing its children takes exactly that one
    out, which gives both what a walk visits and why it ends. */
module InodeWalk {
  import opened Inodes
  import opened InodeOps
  import opened InodeMove

  function Inos(children: seq<DirChild>): (s: seq<Ino>)
    ensures |s| == |children| && forall k :: 0 <= k < |s| ==> s[k] == children[k].ino
  {
    seq(|children|, k requires 0 <= k < |children| => children[k].ino)
  }

  ghost predicate Known(t: Table, stack: seq<Ino>) {
    forall k :: 0 <= k < |stack| ==> stack[k] in t.inodes
  }

  /** All inodes at or below some member of the stack. */
  ghost function Cover(t: Table, stack: seq<Ino>): (s: set<Ino>)
    requires Known(t, stack)
  {
    if stack == [] then {} else Cover(t, stack[..|stack| - 1]) + Doomed(t, stack[|stack| - 1])
  }

  /** The members of the stack stand for disjoint sets. */
  ghost predicate Apart(t: Table, stack: seq<Ino>)
    requires Known(t, stack)
  {
    stack != [] ==>
      && Apart(t, stack[..|stack| - 1])
      && Cover(t, stack[..|stack| - 1]) !! Doomed(t, stack[|stack| - 1])
  }

  lemma {:induction false} CoverMember(t: Table, stack: seq<Ino>, j: Ino)
    requires Known(t, stack)
    ensures j in Cover(t, stack) <==> exists k :: 0 <= k < |stack| && j in Doomed(t, stack[k])
  {
    if stack != [] {
      var front := stack[..|stack| - 1];
      CoverMember(t, front, j);
      assert forall k :: 0 <= k < |front| ==> front[k] == stack[k];
    }
  }

  lemma {:induction false} CoverAppend(t: Table, a: seq<Ino>, b: seq<Ino>)
    requires Known(t, a) && Known(t, b)
    ensures Known(t, a + b) && Cover(t, a + b) == Cover(t, a) + Cover(t, b)
    ensures Apart(t, a) && Apart(t, b) && Cover(t, a) !! Cover(t, b) ==> Apart(t, a + b)
  {
    if b == [] {
      assert a + b == a;
    } else {
      var front := b[..|b| - 1];
      CoverAppend(t, a, front);
      assert (a + b)[..|a + b| - 1] == a + front;
    }
  }

  // ---- Children partition what is below their parent ----

  lemma KidKnown(t: Table, c: Ino, k: nat)
    requires Inv(t) && c in t.inodes && k < |t.inodes[c].children|
    ensures var d := t.inodes[c].children[k];
            && Attached(t, d.ino) && d.name in t.inodes[c].childIndex && t.inodes[c].childIndex[d.name] == d.ino
            && t.inodes[d.ino].fullPath == ChildPath(t.inodes[c].fullPath, d.name)
  {
    assert NodeOk(t, c);
    assert t.inodes[c].children[k] in t.inodes[c].children;
    EdgePath(t, c, t.inodes[c].children[k].name);
  }

  lemma KidsKnown(t: Table, c: Ino)
    requires Inv(t) && c in t.inodes
    ensures Known(t, Inos(t.inodes[c].children))
  {
    forall k | 0 <= k < |t.inodes[c].children|
      ensures Inos(t.inodes[c].children)[k] in t.inodes
    {
      KidKnown(t, c, k);
    }
  }

  lemma BelowKid(t: Table, c: Ino, k: nat, j: Ino)
    requires Inv(t) && c in t.inodes && k < |t.inodes[c].children|
    requires var kid := t.inodes[c].children[k].ino; kid in t.inodes && j in Doomed(t, kid)
    ensures j in Doomed(t, c) && j != c
  {
    assert NodeOk(t, c);
    KidKnown(t, c, k);
    var p, q := t.inodes[c].fullPath, t.inodes[t.inodes[c].children[k].ino].fullPath;
    assert q <= t.inodes[j].fullPath && q[..|p|] == p;
    assert t.inodes[j].fullPath[..|p|] == q[..|p|];
  }

  /** Below `c` is `c` itself and what is below each child. */
  lemma BelowIsKids(t: Table, c: Ino, j: Ino)
    requires Inv(t) && c in t.inodes && Known(t, Inos(t.inodes[c].children))
    ensures j in Cover(t, Inos(t.inodes[c].children)) <==> j in Doomed(t, c) && j != c
  {
    var kids := Inos(t.inodes[c].children);
    CoverMember(t, kids, j);
    assert NodeOk(t, c);
    if j in Cover(t, kids) {
      var k :| 0 <= k < |kids| && j in Doomed(t, kids[k]);
      BelowKid(t, c, k, j);
    }
    if j in Doomed(t, c) && j != c {
      var k := KidTowards(t, c, j);
      assert kids[k] == t.inodes[c].children[k].ino;
    }
  }

  /** The child of `c` on the way to a strict descendant. */
  lemma KidTowards(t: Table, c: Ino, j: Ino) returns (k: nat)
    requires Inv(t) && Attached(t, c) && j in Subtree(t, c) && j != c
    ensures k < |t.inodes[c].children|
    ensures var kid := t.inodes[c].children[k].ino; Attached(t, kid) && j in Doomed(t, kid)
  {
    var p, q := t.inodes[c].fullPath, t.inodes[j].fullPath;
    PathsDiffer(t, c, j);
    var n := q[|p|];
    var kidPath := ChildPath(p, n);
    assert kidPath <= q;
    assert NodeOk(t, j);
    PrefixIndexed(t, q, kidPath);
    var kid := t.paths[kidPath];
    assert PathOk(t, kidPath) && NodeOk(t, kid);
    var d := t.inodes[kid].parent;
    assert NodeOk(t, d);
    assert t.inodes[d].fullPath == p by {
      assert kidPath == ChildPath(t.inodes[d].fullPath, t.inodes[kid].name);
      assert kidPath[..|kidPath| - 1] == p;
    }
    PathsUnique(t, c, d);
    assert NodeOk(t, c);
    k :| 0 <= k < |t.inodes[c].children| && t.inodes[c].children[k] == DirChild(kid, t.inodes[kid].name);
  }

  lemma {:induction false} KidsApart(t: Table, c: Ino, m: nat)
    requires Inv(t) && c in t.inodes && m <= |t.inodes[c].children|
    ensures Known(t, Inos(t.inodes[c].children)[..m]) && Apart(t, Inos(t.inodes[c].children)[..m])
  {
    KidsKnown(t, c);
    var kids := Inos(t.inodes[c].children);
    if m > 0 {
      KidsApart(t, c, m - 1);
      var front := kids[..m - 1];
      assert kids[..m][..m - 1] == front;
      forall j | j in Cover(t, front)
        ensures j !in Doomed(t, kids[m - 1])
      {
        CoverMember(t, front, j);
        var k :| 0 <= k < m - 1 && j in Doomed(t, kids[k]);
        SiblingsApart(t, c, k, m - 1, j);
      }
    }
  }

  lemma SiblingsApart(t: Table, c: Ino, k: nat, m: nat, j: Ino)
    requires Inv(t) && c in t.inodes && k < m < |t.inodes[c].children|
    requires var a := t.inodes[c].children[k].ino; a in t.inodes && j in Doomed(t, a)
    ensures var b := t.inodes[c].children[m].ino; b in t.inodes && j !in Doomed(t, b)
  {
    KidKnown(t, c, k);
    KidKnown(t, c, m);
    assert NodeOk(t, c);
    var p := t.inodes[c].fullPath;
    var a, b := t.inodes[c].children[k], t.inodes[c].children[m];
    assert a.name != b.name;
    assert t.inodes[a.ino].fullPath[|p|] == a.name && t.inodes[b.ino].fullPath[|p|] == b.name;
  }

  lemma KidsCover(t: Table, c: Ino)
    requires Inv(t) && c in t.inodes
    ensures var kids := Inos(t.inodes[c].children);
            Known(t, kids) && Apart(t, kids) && Cover(t, kids) == Doomed(t, c) - {c}
    ensures c in Doomed(t, c) && Doomed(t, c) <= t.inodes.Keys
  {
    var kids := Inos(t.inodes[c].children);
    KidsKnown(t, c);
    KidsApart(t, c, |kids|);
    assert kids[..|kids|] == kids;
    forall j
      ensures j in Cover(t, kids) <==> j in Doomed(t, c) && j != c
    {
      BelowIsKids(t, c, j);
    }
  }

  /** Popping `c` and pushing its children removes exactly `c` from what is left to visit. */
  lemma PopPush(t: Table, stack: seq<Ino>)
    requires Inv(t) && stack != [] && Known(t, stack) && Apart(t, stack)
    ensures var c, rest := stack[|stack| - 1], stack[..|stack| - 1];
            var next := rest + Inos(t.inodes[c].children);
            && c in Cover(t, stack)
            && Known(t, next) && Apart(t, next) && Cover(t, next) == Cover(t, stack) - {c}
  {
    var c, rest := stack[|stack| - 1], stack[..|stack| - 1];
    KidsCover(t, c);
    CoverAppend(t, rest, Inos(t.inodes[c].children));
  }

  lemma SingleCover(t: Table, i: Ino)
    requires i in t.inodes
    ensures Known(t, [i]) && Apart(t, [i]) && Cover(t, [i]) == Doomed(t, i)
  {
    assert [i][..0] == [];
  }
}
