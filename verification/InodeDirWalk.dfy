/** Stack walks that push directories only, as the two rename scans do
    (src/virtual_fs/mod.rs): files and symlinks are dealt with where they are listed. */
module InodeDirWalk {
  import opened Inodes
  import opened InodeOps
  import opened InodeWalk
  import opened InodeEvict

  /** The directories among `s`, in order. */
  ghost function Dirs(t: Table, s: seq<Ino>): (r: seq<Ino>) {
    if s == [] then []
    else Dirs(t, s[..|s| - 1]) + if IsDir(t, s[|s| - 1]) then [s[|s| - 1]] else []
  }

  ghost function Leaves(t: Table, s: seq<Ino>): (r: set<Ino>) {
    set j | j in s && !IsDir(t, j)
  }

  ghost predicate AllDirs(t: Table, s: seq<Ino>) {
    forall k :: 0 <= k < |s| ==> IsDir(t, s[k])
  }

  lemma {:induction false} DirsAppend(t: Table, a: seq<Ino>, b: seq<Ino>)
    ensures Dirs(t, a + b) == Dirs(t, a) + Dirs(t, b)
  {
    if b == [] {
      assert a + b == a;
    } else {
      DirsAppend(t, a, b[..|b| - 1]);
      assert (a + b)[..|a + b| - 1] == a + b[..|b| - 1];
    }
  }

  lemma {:induction false} DirsOfDirs(t: Table, s: seq<Ino>)
    requires AllDirs(t, s)
    ensures Dirs(t, s) == s
  {
    if s != [] {
      DirsOfDirs(t, s[..|s| - 1]);
    }
  }

  lemma {:induction false} DirsAreDirs(t: Table, s: seq<Ino>)
    ensures AllDirs(t, Dirs(t, s)) && Known(t, Dirs(t, s))
  {
    if s != [] {
      DirsAreDirs(t, s[..|s| - 1]);
    }
  }

  lemma LeafAlone(t: Table, i: Ino)
    requires Inv(t) && i in t.inodes && !IsDir(t, i)
    ensures Doomed(t, i) == {i}
  {
    if t.inodes[i].nlink > 0 {
      FileIsLeaf(t, i);
    }
  }

  /** Dropping the leaves from a stack drops exactly the leaves from its cover. */
  lemma {:induction false} DirsCover(t: Table, s: seq<Ino>)
    requires Inv(t) && Known(t, s) && Apart(t, s) && Known(t, Dirs(t, s))
    ensures Apart(t, Dirs(t, s))
    ensures Cover(t, s) == Cover(t, Dirs(t, s)) + Leaves(t, s) && Cover(t, Dirs(t, s)) !! Leaves(t, s)
  {
    if s != [] {
      var front, last := s[..|s| - 1], s[|s| - 1];
      DirsAreDirs(t, front);
      DirsCover(t, front);
      assert forall j :: j in s <==> j in front || j == last;
      if IsDir(t, last) {
        assert Dirs(t, s)[..|Dirs(t, s)| - 1] == Dirs(t, front);
        assert Leaves(t, s) == Leaves(t, front);
      } else {
        LeafAlone(t, last);
        assert Dirs(t, s) == Dirs(t, front);
        assert last !in Cover(t, front);
        assert Leaves(t, s) == Leaves(t, front) + {last};
      }
    }
  }

  /** Popping the directory `c`, seeing to its leaves and pushing its directories. */
  lemma DirPop(t: Table, stack: seq<Ino>)
    requires Inv(t) && stack != [] && Known(t, stack) && Apart(t, stack) && AllDirs(t, stack)
    ensures var c, rest := stack[|stack| - 1], stack[..|stack| - 1];
            var kids := Inos(t.inodes[c].children);
            var next := rest + Dirs(t, kids);
            && Known(t, next) && Apart(t, next) && AllDirs(t, next)
            && Cover(t, stack) == {c} + Leaves(t, kids) + Cover(t, next)
            && c !in Cover(t, next) && c !in Leaves(t, kids) && Leaves(t, kids) !! Cover(t, next)
  {
    var c, rest := stack[|stack| - 1], stack[..|stack| - 1];
    var kids := Inos(t.inodes[c].children);
    PopPush(t, stack);
    DirsAppend(t, rest, kids);
    DirsOfDirs(t, rest);
    DirsAreDirs(t, rest + kids);
    DirsCover(t, rest + kids);
    assert Leaves(t, rest + kids) == Leaves(t, kids);
  }

  lemma KidsDistinct(t: Table, c: Ino, k: nat)
    requires Inv(t) && c in t.inodes && k < |t.inodes[c].children|
    ensures var kids := Inos(t.inodes[c].children); kids[k] !in kids[..k]
  {
    ChildrenOneEdge(t, c);
  }
}
