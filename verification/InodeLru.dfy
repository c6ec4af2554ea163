/** Choosing eviction candidates (src/virtual_fs/inode.rs): a heap bounded to `max` picks, filled in one
    pass over the table, holds what sorting all eligible files and cutting off after `max` would give. */
module InodeLru {
  import opened Inodes

  /** Ordered by time of last touch, then by inode, as the heap compares them. */
  datatype Pick = Pick(touched: nat, ino: Ino)

  predicate Before(a: Pick, b: Pick) {
    a.touched < b.touched || (a.touched == b.touched && a.ino < b.ino)
  }

  predicate Candidate(e: Entry) {
    e.kind == File && e.nlink > 0 && !e.IsDirty() && e.pendingDeletes == [] && e.openHandles == 0
  }

  /** The picks of the eligible inodes of `inos`. */
  ghost function Picks(inodes: map<Ino, Entry>, touched: Ino -> nat, inos: set<Ino>): (s: set<Pick>) {
    set i | i in inos && i in inodes && Candidate(inodes[i]) :: Pick(touched(i), i)
  }

  /** `kept` are the `max` least of `all`, or all of them. */
  ghost predicate Least(all: set<Pick>, kept: set<Pick>, max: nat) {
    && kept <= all && |kept| == (if |all| < max then |all| else max)
    && forall a, b :: a in kept && b in all - kept ==> Before(a, b)
  }

  /** Sorting and truncating in one definition: `s` lists the `max` least of `all`, oldest first. */
  ghost predicate OldestFirst(all: set<Pick>, s: seq<Pick>, max: nat) {
    && Least(all, (set p | p in s), max)
    && (forall i, j :: 0 <= i < j < |s| ==> s[i] != s[j] && s[i].touched <= s[j].touched)
  }

  lemma PicksMore(inodes: map<Ino, Entry>, touched: Ino -> nat, seen: set<Ino>, i: Ino)
    requires i in inodes && i !in seen
    ensures Picks(inodes, touched, seen + {i}) ==
            Picks(inodes, touched, seen) + if Candidate(inodes[i]) then {Pick(touched(i), i)} else {}
    ensures Pick(touched(i), i) !in Picks(inodes, touched, seen)
  {
  }

  method PopMax(heap: set<Pick>) returns (top: Pick)
    requires heap != {}
    ensures top in heap && forall p :: p in heap && p != top ==> Before(p, top)
  {
    top :| top in heap;
    var todo := heap - {top};
    while todo != {}
      invariant todo <= heap && top in heap
      invariant forall p :: p in heap && p !in todo && p != top ==> Before(p, top)
    {
      var p :| p in todo;
      if Before(top, p) {
        top := p;
      }
      todo := todo - {p};
    }
  }

  /** Pushing one pick and, on overflow, popping the newest keeps the heap right. */
  lemma PushPop(all: set<Pick>, heap: set<Pick>, max: nat, p: Pick, top: Pick)
    requires Least(all, heap, max) && p !in all && max > 0
    requires top in heap + {p} && forall q :: q in heap + {p} && q != top ==> Before(q, top)
    ensures Least(all + {p}, if |heap + {p}| > max then heap + {p} - {top} else heap + {p}, max)
  {
    assert |all + {p}| == |all| + 1 && |heap + {p}| == |heap| + 1;
    if |heap + {p}| > max {
      var kept := heap + {p} - {top};
      assert |kept| == max;
      forall a, b | a in kept && b in all + {p} - kept
        ensures Before(a, b)
      {
        if b != top { assert b in all - heap; }
      }
    } else {
      Full(all, heap, max);
    }
  }

  lemma Full(all: set<Pick>, heap: set<Pick>, max: nat)
    requires Least(all, heap, max) && |heap| < max
    ensures heap == all
  {
    if heap != all {
      var x :| x in all && x !in heap;
      SubsetSize(heap + {x}, all);
    }
  }

  lemma {:induction false} SubsetSize(a: set<Pick>, b: set<Pick>)
    requires a <= b
    ensures |a| + |b - a| == |b|
  {
    assert b == a + (b - a);
  }

  method LruCandidates(inodes: map<Ino, Entry>, touched: Ino -> nat, max: nat) returns (r: seq<Pick>)
    ensures OldestFirst(Picks(inodes, touched, inodes.Keys), r, max)
    ensures forall k :: 0 <= k < |r| ==>
              && r[k].ino in inodes && r[k].touched == touched(r[k].ino)
              && var e := inodes[r[k].ino];
                 e.kind == File && e.nlink > 0 && e.dirtyGeneration == 0 && e.pendingDeletes == [] && e.openHandles == 0
    ensures forall i :: i in inodes && inodes[i].kind == File && inodes[i].nlink > 0 && inodes[i].dirtyGeneration == 0
                        && inodes[i].pendingDeletes == [] && inodes[i].openHandles == 0 && Pick(touched(i), i) !in r ==>
              |r| == max && forall k :: 0 <= k < |r| ==> r[k].touched <= touched(i)
  {
    PicksMean(inodes, touched, max);
    if max == 0 {
      return [];
    }
    var heap := FillHeap(inodes, touched, max);
    r := SortByTouch(heap);
    assert (set p | p in r) == heap;
  }

  /** Which files are listed, and which are not. */
  lemma PicksMean(inodes: map<Ino, Entry>, touched: Ino -> nat, max: nat)
    ensures forall r: seq<Pick> :: OldestFirst(Picks(inodes, touched, inodes.Keys), r, max) ==>
              (forall k :: 0 <= k < |r| ==> r[k] in Picks(inodes, touched, inodes.Keys))
    ensures forall r: seq<Pick>, p :: (OldestFirst(Picks(inodes, touched, inodes.Keys), r, max)
                                       && p in Picks(inodes, touched, inodes.Keys) && p !in r) ==>
              |r| == max && forall k :: 0 <= k < |r| ==> r[k].touched <= p.touched
  {
    var all := Picks(inodes, touched, inodes.Keys);
    forall r: seq<Pick> | OldestFirst(all, r, max)
      ensures forall k :: 0 <= k < |r| ==> r[k] in all
      ensures forall p :: p in all && p !in r ==> |r| == max && forall k :: 0 <= k < |r| ==> r[k].touched <= p.touched
    {
      PicksOf(all, r, max);
    }
  }

  lemma PicksOf(all: set<Pick>, r: seq<Pick>, max: nat)
    requires OldestFirst(all, r, max)
    ensures forall k :: 0 <= k < |r| ==> r[k] in all
    ensures forall p :: p in all && p !in r ==> |r| == max && forall k :: 0 <= k < |r| ==> r[k].touched <= p.touched
  {
    var kept := set p | p in r;
    assert forall k :: 0 <= k < |r| ==> r[k] in kept;
    SetSize(r, kept);
    forall p | p in all && p !in r
      ensures |r| == max && forall k :: 0 <= k < |r| ==> r[k].touched <= p.touched
    {
      assert p in all - kept;
      SubsetSize(kept, all);
      assert forall k :: 0 <= k < |r| ==> Before(r[k], p);
    }
  }

  lemma {:induction false} SetSize(r: seq<Pick>, kept: set<Pick>)
    requires kept == (set p | p in r) && forall i, j :: 0 <= i < j < |r| ==> r[i] != r[j]
    ensures |kept| == |r|
  {
    if r == [] {
      assert kept == {};
    } else {
      var n := |r| - 1;
      assert r == r[..n] + [r[n]] && r[n] in kept;
      SetSize(r[..n], kept - {r[n]});
    }
  }

  method FillHeap(inodes: map<Ino, Entry>, touched: Ino -> nat, max: nat) returns (heap: set<Pick>)
    requires max > 0
    ensures Least(Picks(inodes, touched, inodes.Keys), heap, max)
  {
    heap := {};
    var todo := inodes.Keys;
    ghost var seen: set<Ino>, all: set<Pick> := {}, {};
    while todo != {}
      invariant todo <= inodes.Keys && seen == inodes.Keys - todo
      invariant all == Picks(inodes, touched, seen)
      invariant Least(all, heap, max)
      decreases todo
    {
      var i :| i in todo;
      PicksMore(inodes, touched, seen, i);
      if Candidate(inodes[i]) {
        var p := Pick(touched(i), i);
        heap := PushBounded(heap, max, p, all);
        all := all + {p};
      }
      assert all == Picks(inodes, touched, seen + {i});
      seen := seen + {i};
      todo := todo - {i};
    }
    assert seen == inodes.Keys;
  }

  method PushBounded(heap0: set<Pick>, max: nat, p: Pick, ghost all: set<Pick>) returns (heap: set<Pick>)
    requires Least(all, heap0, max) && p !in all && max > 0
    ensures Least(all + {p}, heap, max)
  {
    heap := heap0 + {p};
    var top := PopMax(heap);
    PushPop(all, heap0, max, p, top);
    if |heap| > max {
      heap := heap - {top};
    }
  }

  lemma Prepended(top: Pick, s: seq<Pick>)
    ensures var r := [top] + s;
            && r[0] == top && (forall i :: 1 <= i < |r| ==> r[i] == s[i - 1] && r[i] in s)
            && (forall p :: p in r <==> p == top || p in s)
  {
  }

  method SortByTouch(heap: set<Pick>) returns (s: seq<Pick>)
    ensures forall p :: p in s <==> p in heap
    ensures forall i, j :: 0 <= i < j < |s| ==> s[i] != s[j] && s[i].touched <= s[j].touched
  {
    s := [];
    var todo := heap;
    while todo != {}
      invariant todo <= heap && forall p :: p in s <==> p in heap - todo
      invariant forall i, j :: 0 <= i < j < |s| ==> s[i] != s[j] && s[i].touched <= s[j].touched
      invariant forall q, p :: q in s && p in todo ==> q.touched >= p.touched
      decreases todo
    {
      var top := PopMax(todo);
      Prepended(top, s);
      s := [top] + s;
      todo := todo - {top};
    }
  }
}
