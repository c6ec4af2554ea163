/** The batch that a flush sends to the Hub (src/virtual_fs/flush.rs): which requests it serves,
    which files it commits, and what the Hub holds afterwards. */
module FlushOps {
  import opened Prelude
  import opened Inodes
  import opened Rename

  datatype FlushItem = FlushItem(
    ino: Ino,
    fullPath: Path,
    pendingDeletes: seq<Path>,
    dirtyGeneration: nat,
    prevHash: Option<Hash>
  )

  // ---- Requests ----

  predicate Distinct(s: seq<Ino>) {
    forall i, j :: 0 <= i < j < |s| ==> s[i] != s[j]
  }

  /** The requests without those that come again later. */
  function LastOnly(pending: seq<Ino>): (r: seq<Ino>)
    ensures forall x :: x in r <==> x in pending
    ensures Distinct(r)
  {
    if pending == [] then []
    else
      var r := LastOnly(pending[1..]);
      if pending[0] in pending[1..] then r else [pending[0]] + r
  }

  function Reverse(s: seq<Ino>): (r: seq<Ino>) {
    if s == [] then [] else Reverse(s[1..]) + [s[0]]
  }

  lemma {:induction false} ReverseAppend(s: seq<Ino>, x: Ino)
    ensures Reverse(s + [x]) == [x] + Reverse(s)
  {
    if s == [] {
      assert s + [x] == [x];
    } else {
      assert (s + [x])[1..] == s[1..] + [x];
      ReverseAppend(s[1..], x);
    }
  }

  /** Of two inodes the one whose last request came first comes first: after each request of it the other is asked for
      again. */
  ghost predicate ByLast(pending: seq<Ino>, r: seq<Ino>) {
    forall i, j, p :: 0 <= i < j < |r| && 0 <= p < |pending| && pending[p] == r[i] ==> AskedAfter(pending, p, r[j])
  }

  ghost predicate AskedAfter(pending: seq<Ino>, p: nat, x: Ino) {
    exists q :: p < q < |pending| && pending[q] == x
  }

  lemma {:induction false} LastOnlyOrder(pending: seq<Ino>)
    ensures ByLast(pending, LastOnly(pending))
  {
    if pending != [] {
      var front := LastOnly(pending[1..]);
      LastOnlyOrder(pending[1..]);
      if pending[0] in pending[1..] {
        RepeatedOrder(pending, front);
      } else {
        LoneOrder(pending, front);
      }
    }
  }

  lemma RepeatedOrder(pending: seq<Ino>, front: seq<Ino>)
    requires pending != [] && ByLast(pending[1..], front) && (forall x :: x in front ==> x in pending[1..])
    ensures ByLast(pending, front)
  {
    forall i, j, p | 0 <= i < j < |front| && 0 <= p < |pending| && pending[p] == front[i]
      ensures AskedAfter(pending, p, front[j])
    {
      AskedLater(pending, front, i, j, p);
    }
  }

  lemma LoneOrder(pending: seq<Ino>, front: seq<Ino>)
    requires pending != [] && ByLast(pending[1..], front) && (forall x :: x in front ==> x in pending[1..])
    requires pending[0] !in pending[1..]
    ensures ByLast(pending, [pending[0]] + front)
  {
    var r := [pending[0]] + front;
    forall i, j, p | 0 <= i < j < |r| && 0 <= p < |pending| && pending[p] == r[i]
      ensures AskedAfter(pending, p, r[j])
    {
      assert r[j] == front[j - 1] && front[j - 1] in front;
      if p == 0 {
        AskedAtAll(pending, front[j - 1]);
      } else {
        assert pending[1..][p - 1] == pending[p];
        assert i > 0 && r[i] == front[i - 1];
        AskedLater(pending, front, i - 1, j - 1, p);
      }
    }
  }

  lemma AskedAtAll(pending: seq<Ino>, x: Ino)
    requires pending != [] && x in pending[1..]
    ensures AskedAfter(pending, 0, x)
  {
    var q :| 0 <= q < |pending| - 1 && pending[1..][q] == x;
    assert pending[q + 1] == x;
  }

  lemma AskedLater(pending: seq<Ino>, front: seq<Ino>, i: int, j: int, p: nat)
    requires pending != [] && ByLast(pending[1..], front) && (forall x :: x in front ==> x in pending[1..])
    requires 0 <= i < j < |front| && p < |pending| && pending[p] == front[i]
    ensures AskedAfter(pending, p, front[j])
  {
    var rest := pending[1..];
    if p == 0 {
      assert front[j] in front;
      AskedAtAll(pending, front[j]);
    } else {
      assert rest[p - 1] == front[i];
      assert AskedAfter(rest, p - 1, front[j]);
      var q :| p - 1 < q < |rest| && rest[q] == front[j];
      assert pending[q + 1] == front[j];
    }
  }

  /** Walks backwards so that the last request of each inode wins, then reverses. */
  method Dedup(pending: seq<Ino>) returns (deduped: seq<Ino>)
    ensures deduped == LastOnly(pending)
    ensures (forall x :: x in deduped <==> x in pending) && Distinct(deduped) && ByLast(pending, deduped)
  {
    LastOnlyOrder(pending);
    var seen: set<Ino> := {};
    var back: seq<Ino> := [];
    var k := |pending|;
    while k > 0
      invariant 0 <= k <= |pending|
      invariant forall x :: x in seen <==> x in pending[k..]
      invariant Reverse(back) == LastOnly(pending[k..])
    {
      k := k - 1;
      assert pending[k..] == [pending[k]] + pending[k + 1..];
      if pending[k] !in seen {
        seen := seen + {pending[k]};
        ReverseAppend(back, pending[k]);
        back := back + [pending[k]];
      }
    }
    assert pending[0..] == pending;
    deduped := ReverseInPlace(back);
  }

  method ReverseInPlace(s: seq<Ino>) returns (r: seq<Ino>)
    ensures r == Reverse(s)
  {
    r := s;
    var i, j := 0, |s|;
    ReverseIndex(s);
    while i + 1 < j
      invariant 0 <= i && j == |s| - i && j >= i && |r| == |s|
      invariant forall k :: 0 <= k < i || j <= k < |s| ==> r[k] == s[|s| - 1 - k]
      invariant forall k :: i <= k < j ==> r[k] == s[k]
    {
      j := j - 1;
      r := r[i := r[j]][j := r[i]];
      i := i + 1;
    }
    assert r == Reverse(s);
  }

  lemma {:induction false} ReverseIndex(s: seq<Ino>)
    ensures |Reverse(s)| == |s| && forall k :: 0 <= k < |s| ==> Reverse(s)[k] == s[|s| - 1 - k]
  {
    if s != [] {
      ReverseIndex(s[1..]);
    }
  }

  // ---- Operations ----

  predicate IsUnchanged(item: FlushItem, hash: Hash) {
    item.pendingDeletes == [] && item.prevHash == Some(hash)
  }

  function Adds(items: seq<FlushItem>, hashes: seq<Hash>): (ops: seq<BatchOp>)
    requires |items| == |hashes|
  {
    if items == [] then []
    else
      var n := |items| - 1;
      Adds(items[..n], hashes[..n])
      + if IsUnchanged(items[n], hashes[n]) then [] else [AddFile(items[n].fullPath, hashes[n])]
  }

  function DeletesOf(paths: seq<Path>): (ops: seq<BatchOp>) {
    seq(|paths|, k requires 0 <= k < |paths| => DeleteFile(paths[k]))
  }

  /** All pending deletes, in order.  An unchanged file has none. */
  function OldPathsOf(items: seq<FlushItem>): (paths: seq<Path>) {
    if items == [] then [] else OldPathsOf(items[..|items| - 1]) + items[|items| - 1].pendingDeletes
  }

  lemma DeletesAppend(a: seq<Path>, b: seq<Path>)
    ensures DeletesOf(a + b) == DeletesOf(a) + DeletesOf(b)
  {
  }

  lemma OneMore(items: seq<FlushItem>, hashes: seq<Hash>, i: nat)
    requires |items| == |hashes| && i < |items|
    ensures Adds(items[..i + 1], hashes[..i + 1]) ==
            Adds(items[..i], hashes[..i])
            + if IsUnchanged(items[i], hashes[i]) then [] else [AddFile(items[i].fullPath, hashes[i])]
    ensures DeletesOf(OldPathsOf(items[..i + 1])) ==
            DeletesOf(OldPathsOf(items[..i])) + DeletesOf(items[i].pendingDeletes)
    ensures items[i].pendingDeletes == [] ==> DeletesOf(items[i].pendingDeletes) == []
  {
    assert items[..i + 1][..i] == items[..i] && hashes[..i + 1][..i] == hashes[..i];
    DeletesAppend(OldPathsOf(items[..i]), items[i].pendingDeletes);
  }

  method BuildOps(items: seq<FlushItem>, hashes: seq<Hash>) returns (ops: seq<BatchOp>, skipped: seq<bool>)
    requires |items| == |hashes|
    ensures ops == Adds(items, hashes) + DeletesOf(OldPathsOf(items))
    ensures |skipped| == |items|
    ensures forall i :: 0 <= i < |items| ==>
              (skipped[i] <==> items[i].prevHash == Some(hashes[i]) && items[i].pendingDeletes == [])
    ensures forall i :: 0 <= i < |items| && !skipped[i] ==> AddFile(items[i].fullPath, hashes[i]) in ops
    ensures forall p, h :: AddFile(p, h) in ops ==>
              exists i :: 0 <= i < |items| && !skipped[i] && items[i].fullPath == p && hashes[i] == h
    ensures forall p :: DeleteFile(p) in ops <==> exists i :: 0 <= i < |items| && p in items[i].pendingDeletes
    ensures forall i, j :: 0 <= i < j < |ops| && ops[i].DeleteFile? ==> ops[j].DeleteFile?
  {
    ops := [];
    var deleteOps: seq<BatchOp> := [];
    skipped := seq(|items|, _ => false);
    for i := 0 to |items|
      invariant |skipped| == |items|
      invariant forall k :: 0 <= k < i ==> skipped[k] == IsUnchanged(items[k], hashes[k])
      invariant forall k :: i <= k < |items| ==> !skipped[k]
      invariant ops == Adds(items[..i], hashes[..i])
      invariant deleteOps == DeletesOf(OldPathsOf(items[..i]))
    {
      var item, hash := items[i], hashes[i];
      OneMore(items, hashes, i);
      if item.pendingDeletes == [] && item.prevHash == Some(hash) {
        skipped := skipped[i := true];
      } else {
        ops := ops + [AddFile(item.fullPath, hash)];
        deleteOps := deleteOps + DeletesOf(item.pendingDeletes);
      }
    }
    assert items[..|items|] == items && hashes[..|hashes|] == hashes;
    ops := ops + deleteOps;
    OpsMean(items, hashes, ops, skipped);
  }

  lemma OpsMean(items: seq<FlushItem>, hashes: seq<Hash>, ops: seq<BatchOp>, skipped: seq<bool>)
    requires |items| == |hashes| == |skipped| && ops == Adds(items, hashes) + DeletesOf(OldPathsOf(items))
    requires forall i :: 0 <= i < |items| ==> skipped[i] == IsUnchanged(items[i], hashes[i])
    ensures forall i :: 0 <= i < |items| ==>
              (skipped[i] <==> items[i].prevHash == Some(hashes[i]) && items[i].pendingDeletes == [])
    ensures forall i :: 0 <= i < |items| && !skipped[i] ==> AddFile(items[i].fullPath, hashes[i]) in ops
    ensures forall p, h :: AddFile(p, h) in ops ==>
              exists i :: 0 <= i < |items| && !skipped[i] && items[i].fullPath == p && hashes[i] == h
    ensures forall p :: DeleteFile(p) in ops <==> exists i :: 0 <= i < |items| && p in items[i].pendingDeletes
    ensures forall i, j :: 0 <= i < j < |ops| && ops[i].DeleteFile? ==> ops[j].DeleteFile?
  {
    var adds, deletes := Adds(items, hashes), DeletesOf(OldPathsOf(items));
    AddsMean(items, hashes);
    OldPathsMean(items);
    assert forall op :: op in ops <==> op in adds || op in deletes;
    assert forall k :: 0 <= k < |adds| ==> ops[k] == adds[k] && adds[k] in adds;
  }

  /** The adds are those of the items that have changed or moved, and adds alone. */
  lemma {:induction false} AddsMean(items: seq<FlushItem>, hashes: seq<Hash>)
    requires |items| == |hashes|
    ensures forall op :: op in Adds(items, hashes) ==> op.AddFile?
    ensures forall p, h :: AddFile(p, h) in Adds(items, hashes) <==>
              exists i :: 0 <= i < |items| && items[i].fullPath == p && hashes[i] == h
                          && !(items[i].prevHash == Some(h) && items[i].pendingDeletes == [])
  {
    if items != [] {
      var n := |items| - 1;
      AddsMean(items[..n], hashes[..n]);
      forall p, h | exists i :: 0 <= i < |items| && items[i].fullPath == p && hashes[i] == h
                                && !(items[i].prevHash == Some(h) && items[i].pendingDeletes == [])
        ensures AddFile(p, h) in Adds(items, hashes)
      {
        var i :| 0 <= i < |items| && items[i].fullPath == p && hashes[i] == h
                 && !(items[i].prevHash == Some(h) && items[i].pendingDeletes == []);
        if i < n { assert items[..n][i] == items[i] && hashes[..n][i] == h; }
      }
      forall p, h | AddFile(p, h) in Adds(items[..n], hashes[..n])
        ensures exists i :: 0 <= i < |items| && items[i].fullPath == p && hashes[i] == h
                            && !(items[i].prevHash == Some(h) && items[i].pendingDeletes == [])
      {
        var i :| 0 <= i < n && items[..n][i].fullPath == p && hashes[..n][i] == h
                 && !(items[..n][i].prevHash == Some(h) && items[..n][i].pendingDeletes == []);
        assert items[i].fullPath == p;
      }
    }
  }

  lemma {:induction false} OldPathsMean(items: seq<FlushItem>)
    ensures forall p :: p in OldPathsOf(items) <==> exists i :: 0 <= i < |items| && p in items[i].pendingDeletes
    ensures forall p :: DeleteFile(p) in DeletesOf(OldPathsOf(items)) <==> p in OldPathsOf(items)
  {
    if items != [] {
      var n := |items| - 1;
      OldPathsMean(items[..n]);
      forall p | exists i :: 0 <= i < |items| && p in items[i].pendingDeletes
        ensures p in OldPathsOf(items)
      {
        var i :| 0 <= i < |items| && p in items[i].pendingDeletes;
        if i < n { assert p in items[..n][i].pendingDeletes; }
      }
    }
    var paths := OldPathsOf(items);
    forall p | p in paths
      ensures DeleteFile(p) in DeletesOf(paths)
    {
      var k :| 0 <= k < |paths| && paths[k] == p;
      assert DeletesOf(paths)[k] == DeleteFile(p);
    }
  }

  // ---- The Hub afterwards ----

  predicate DistinctPaths(items: seq<FlushItem>) {
    forall i, j :: 0 <= i < j < |items| ==> items[i].fullPath != items[j].fullPath
  }

  ghost predicate NoneAt(items: seq<FlushItem>, p: Path) {
    forall i :: 0 <= i < |items| ==> items[i].fullPath != p
  }

  /** The hash that the adds leave at `p`, if they add it at all. */
  function AddedAt(items: seq<FlushItem>, hashes: seq<Hash>, p: Path): (h: Option<Hash>)
    requires |items| == |hashes|
  {
    if items == [] then None
    else
      var n := |items| - 1;
      if items[n].fullPath == p && !IsUnchanged(items[n], hashes[n]) then Some(hashes[n])
      else AddedAt(items[..n], hashes[..n], p)
  }

  lemma {:induction false} AddsReach(r: Remote, items: seq<FlushItem>, hashes: seq<Hash>, p: Path)
    requires |items| == |hashes|
    ensures var r' := ApplyBatch(r, Adds(items, hashes));
            match AddedAt(items, hashes, p)
            case None => Same(r, r', p)
            case Some(h) => InRemote(r', p, h)
  {
    if items != [] {
      var n := |items| - 1;
      LastAdd(r, items, hashes);
      AddsReach(r, items[..n], hashes[..n], p);
      var r1, r' := ApplyBatch(r, Adds(items[..n], hashes[..n])), ApplyBatch(r, Adds(items, hashes));
      if items[n].fullPath == p && !IsUnchanged(items[n], hashes[n]) {
        assert InRemote(r', p, hashes[n]);
      } else {
        assert AddedAt(items, hashes, p) == AddedAt(items[..n], hashes[..n], p);
        assert Same(r1, r', p);
      }
    }
  }

  lemma {:induction false} AddedNowhere(items: seq<FlushItem>, hashes: seq<Hash>, p: Path)
    requires |items| == |hashes| && NoneAt(items, p)
    ensures AddedAt(items, hashes, p).None?
  {
    if items != [] {
      var n := |items| - 1;
      assert NoneAt(items[..n], p) && items[n].fullPath != p;
      AddedNowhere(items[..n], hashes[..n], p);
    }
  }

  lemma {:induction false} AddedOnce(items: seq<FlushItem>, hashes: seq<Hash>, i: nat)
    requires |items| == |hashes| && DistinctPaths(items) && i < |items|
    ensures AddedAt(items, hashes, items[i].fullPath) ==
            if IsUnchanged(items[i], hashes[i]) then None else Some(hashes[i])
  {
    var n := |items| - 1;
    if i == n {
      AddedNowhere(items[..n], hashes[..n], items[n].fullPath);
    } else {
      assert items[i].fullPath != items[n].fullPath;
      AddedOnce(items[..n], hashes[..n], i);
    }
  }

  lemma LastAdd(r: Remote, items: seq<FlushItem>, hashes: seq<Hash>)
    requires |items| == |hashes| > 0
    ensures var n := |items| - 1;
            var r1, r' := ApplyBatch(r, Adds(items[..n], hashes[..n])), ApplyBatch(r, Adds(items, hashes));
            r' == if IsUnchanged(items[n], hashes[n]) then r1 else r1[items[n].fullPath := hashes[n]]
  {
    var n := |items| - 1;
    var before := Adds(items[..n], hashes[..n]);
    if IsUnchanged(items[n], hashes[n]) {
      assert Adds(items, hashes) == before;
    } else {
      assert Adds(items, hashes)[..|before|] == before;
    }
  }

  lemma {:induction false} DeletesReach(r: Remote, paths: seq<Path>)
    ensures var r' := ApplyBatch(r, DeletesOf(paths));
            forall p :: if p in paths then p !in r' else Same(r, r', p)
  {
    if paths != [] {
      var n := |paths| - 1;
      DeletesReach(r, paths[..n]);
      assert DeletesOf(paths)[..n] == DeletesOf(paths[..n]);
      assert forall p :: p in paths <==> p in paths[..n] || p == paths[n];
    }
  }

  /** After the batch every committed file is on the Hub under its path with its hash, exactly when no
      file of the batch lists that path among its old ones: deletes come after all adds. */
  lemma FlushedIff(r: Remote, items: seq<FlushItem>, hashes: seq<Hash>, i: nat)
    requires |items| == |hashes| && DistinctPaths(items) && i < |items|
    requires items[i].prevHash.Some? ==> InRemote(r, items[i].fullPath, items[i].prevHash.value)
    ensures var r' := ApplyBatch(r, Adds(items, hashes) + DeletesOf(OldPathsOf(items)));
            InRemote(r', items[i].fullPath, hashes[i]) <==> items[i].fullPath !in OldPathsOf(items)
  {
    BatchAppend(r, Adds(items, hashes), DeletesOf(OldPathsOf(items)));
    AddedOnce(items, hashes, i);
    AddsReach(r, items, hashes, items[i].fullPath);
    DeletesReach(ApplyBatch(r, Adds(items, hashes)), OldPathsOf(items));
  }

  /** The batch touches no other path than those it adds and the old ones it deletes. */
  lemma FlushFrame(r: Remote, items: seq<FlushItem>, hashes: seq<Hash>, p: Path)
    requires |items| == |hashes| && p !in OldPathsOf(items)
    requires NoneAt(items, p)
    ensures Same(r, ApplyBatch(r, Adds(items, hashes) + DeletesOf(OldPathsOf(items))), p)
  {
    BatchAppend(r, Adds(items, hashes), DeletesOf(OldPathsOf(items)));
    AddedNowhere(items, hashes, p);
    AddsReach(r, items, hashes, p);
    DeletesReach(ApplyBatch(r, Adds(items, hashes)), OldPathsOf(items));
  }
}
