/** The pool of open file handles behind the stateless NFS adapter (src/nfs.rs). */
module HandlePool {
  import opened Prelude

  type Ino = nat
  type Handle = nat

  datatype HandleEntry = HandleEntry(fileHandle: Handle, pinCount: nat)
  datatype InsertResult = InsertResult(evicted: seq<(Ino, Handle)>, replaced: Option<Handle>)

  type Handles = map<Ino, HandleEntry>

  const HANDLE_POOL_CAPACITY: nat := 64

  // ---- Orders ----

  /** `order` lists the pooled inodes, each once. */
  ghost predicate Lists(order: seq<Ino>, keys: set<Ino>) {
    (forall x :: x in order <==> x in keys) && forall i, j :: 0 <= i < j < |order| ==> order[i] != order[j]
  }

  function Without(order: seq<Ino>, ino: Ino): (r: seq<Ino>) {
    if order == [] then []
    else if order[0] == ino then order[1..]
    else [order[0]] + Without(order[1..], ino)
  }

  lemma {:induction false} WithoutLists(order: seq<Ino>, keys: set<Ino>, ino: Ino)
    requires Lists(order, keys)
    ensures Lists(Without(order, ino), keys - {ino})
  {
    if order != [] {
      var rest := order[1..];
      RestLists(order, keys);
      if order[0] != ino {
        WithoutLists(rest, keys - {order[0]}, ino);
        var r := [order[0]] + Without(rest, ino);
        assert forall k :: 1 <= k < |r| ==> r[k] == Without(rest, ino)[k - 1] && r[k] in Without(rest, ino);
      }
    }
  }

  lemma RestLists(order: seq<Ino>, keys: set<Ino>)
    requires Lists(order, keys) && order != []
    ensures Lists(order[1..], keys - {order[0]}) && order[0] in keys
  {
    assert forall x :: x in order <==> x == order[0] || x in order[1..];
    assert forall k :: 1 <= k < |order| ==> order[k] == order[1..][k - 1];
  }

  lemma AppendLists(order: seq<Ino>, keys: set<Ino>, ino: Ino)
    requires Lists(order, keys) && ino !in keys
    ensures Lists(order + [ino], keys + {ino})
  {
  }

  // ---- What is in the pool ----

  ghost function Pooled(handles: Handles): (s: set<(Ino, Handle)>) {
    set i | i in handles :: (i, handles[i].fileHandle)
  }

  lemma InPooled(handles: Handles, y: (Ino, Handle))
    ensures y in Pooled(handles) <==> y.0 in handles && handles[y.0].fileHandle == y.1
  {
  }

  lemma PooledRemove(handles: Handles, i: Ino)
    requires i in handles
    ensures multiset(Pooled(handles)) == multiset(Pooled(handles - {i})) + multiset{(i, handles[i].fileHandle)}
  {
    var x := (i, handles[i].fileHandle);
    forall y
      ensures y in Pooled(handles - {i}) <==> y in Pooled(handles) && y != x
    {
      InPooled(handles, y);
      InPooled(handles - {i}, y);
    }
    assert Pooled(handles - {i}) == Pooled(handles) - {x};
    assert x in Pooled(handles);
  }

  lemma PooledInsert(handles: Handles, i: Ino, e: HandleEntry)
    requires i !in handles
    ensures multiset(Pooled(handles[i := e])) == multiset(Pooled(handles)) + multiset{(i, e.fileHandle)}
  {
    PooledRemove(handles[i := e], i);
    assert handles[i := e] - {i} == handles;
  }

  lemma PooledRepin(handles: Handles, i: Ino, pins: nat)
    requires i in handles
    ensures Pooled(handles[i := handles[i].(pinCount := pins)]) == Pooled(handles)
  {
    var h := handles[i := handles[i].(pinCount := pins)];
    assert forall j :: j in handles ==> h[j].fileHandle == handles[j].fileHandle;
  }

  function OneOrNone(i: Ino, h: Option<Handle>): (m: multiset<(Ino, Handle)>) {
    if h.Some? then multiset{(i, h.value)} else multiset{}
  }

  lemma BagAppend(m: multiset<(Ino, Handle)>, s: seq<(Ino, Handle)>, x: (Ino, Handle))
    ensures m + multiset(s + [x]) == m + multiset(s) + multiset{x}
  {
  }

  /** Handing one entry back while draining. */
  lemma Drained(r: seq<(Ino, Handle)>, handles: Handles, i: Ino)
    requires i in handles
    ensures multiset(r + [(i, handles[i].fileHandle)]) + multiset(Pooled(handles - {i}))
         == multiset(r) + multiset(Pooled(handles))
    ensures |handles - {i}| < |handles|
  {
    PooledRemove(handles, i);
    BagAppend(multiset(Pooled(handles - {i})), r, (i, handles[i].fileHandle));
    assert (handles - {i}).Keys == handles.Keys - {i};
  }

  lemma DrainEnds(r: seq<(Ino, Handle)>, returned: multiset<(Ino, Handle)>, inserted: multiset<(Ino, Handle)>)
    requires inserted == multiset(r) + returned
    ensures inserted == multiset(Pooled(map[])) + (returned + multiset(r))
  {
    assert Pooled(map[]) == {};
  }

  // ---- Eviction ----

  /** The pool may drop its least recently used entry: it is over the limit, and that entry is not pinned. */
  predicate CanEvict(handles: Handles, order: seq<Ino>) {
    |handles| >= HANDLE_POOL_CAPACITY && order != [] && order[0] in handles && handles[order[0]].pinCount == 0
  }

  /** The handles and the order after `n` evictions from the front. */
  ghost function After(handles: Handles, order: seq<Ino>, n: nat): (r: Handles)
    requires n <= |order|
  {
    handles - (set x | x in order[..n])
  }

  /** `evicted` is what `n` evictions of the strict least recently used entry hand back, each of them
      allowed when it happened, and no further one is. */
  ghost predicate EvictedExactly(handles: Handles, order: seq<Ino>, evicted: seq<(Ino, Handle)>, n: nat) {
    && n == |evicted| && EvictedSoFar(handles, order, evicted)
    && !CanEvict(After(handles, order, n), order[n..])
  }

  lemma AfterNext(handles: Handles, order: seq<Ino>, n: nat)
    requires Lists(order, handles.Keys) && n < |order|
    ensures order[n] in After(handles, order, n) && order[n..][0] == order[n]
    ensures After(handles, order, n) - {order[n]} == After(handles, order, n + 1) && order[n..][1..] == order[n + 1..]
    ensures After(handles, order, n)[order[n]] == handles[order[n]]
  {
    assert forall x :: x in order[..n + 1] <==> x in order[..n] || x == order[n];
  }

  class HandlePool {
    var handles: Handles
    var order: seq<Ino>
    /** Every handle ever inserted, and every handle handed back. */
    ghost var inserted: multiset<(Ino, Handle)>
    ghost var returned: multiset<(Ino, Handle)>

    ghost predicate Valid()
      reads this
    {
      && Lists(order, handles.Keys)
      && inserted == multiset(Pooled(handles)) + returned
    }

    constructor ()
      ensures Valid() && handles == map[] && order == [] && inserted == multiset{} && returned == multiset{}
    {
      handles, order := map[], [];
      inserted, returned := multiset{}, multiset{};
    }

    method Pin(ino: Ino) returns (r: Option<Handle>)
      requires Valid()
      modifies this`handles
      ensures Valid()
      ensures r == if ino in old(handles) then Some(old(handles)[ino].fileHandle) else None
      ensures handles == if ino in old(handles)
                         then old(handles)[ino := old(handles)[ino].(pinCount := old(handles)[ino].pinCount + 1)]
                         else old(handles)
    {
      if ino !in handles {
        return None;
      }
      var e := handles[ino];
      PooledRepin(handles, ino, e.pinCount + 1);
      handles := handles[ino := e.(pinCount := e.pinCount + 1)];
      return Some(e.fileHandle);
    }

    method Unpin(ino: Ino)
      requires Valid()
      modifies this`handles
      ensures Valid()
      ensures handles == if ino in old(handles)
                         then old(handles)[ino := old(handles)[ino].(pinCount := Pred(old(handles)[ino].pinCount))]
                         else old(handles)
    {
      if ino in handles {
        PooledRepin(handles, ino, Pred(handles[ino].pinCount));
        handles := handles[ino := handles[ino].(pinCount := Pred(handles[ino].pinCount))];
      }
    }

    /** Pins the entry and makes it the most recently used one. */
    method AcquireShared(ino: Ino) returns (r: Option<Handle>)
      requires Valid()
      modifies this`handles, this`order
      ensures Valid()
      ensures r == if ino in old(handles) then Some(old(handles)[ino].fileHandle) else None
      ensures ino in old(handles) ==>
                order == Without(old(order), ino) + [ino]
                && MovedToEnd(old(order), order, ino)
                && handles == old(handles)[ino := old(handles)[ino].(pinCount := old(handles)[ino].pinCount + 1)]
      ensures ino !in old(handles) ==> order == old(order) && handles == old(handles)
    {
      r := Pin(ino);
      if r.None? {
        return;
      }
      WithoutMoves(order, handles.Keys, ino);
      if order != [] && order[|order| - 1] == ino {
        LastAlready(order, handles.Keys, ino);
      } else {
        WithoutLists(order, handles.Keys, ino);
        AppendLists(Without(order, ino), handles.Keys - {ino}, ino);
        assert handles.Keys - {ino} + {ino} == handles.Keys;
        OrderRemove(ino);
        order := order + [ino];
      }
    }

    method OrderRemove(ino: Ino)
      modifies this`order
      ensures order == Without(old(order), ino)
    {
      var pos := 0;
      while pos < |order| && order[pos] != ino
        invariant 0 <= pos <= |order| && ino !in order[..pos]
      {
        pos := pos + 1;
      }
      if pos < |order| {
        WithoutAt(order, pos);
        order := order[..pos] + order[pos + 1..];
      } else {
        assert order[..pos] == order;
        WithoutAbsent(order, ino);
      }
    }

    method Remove(ino: Ino) returns (r: Option<Handle>)
      requires Valid()
      modifies this
      ensures Valid() && inserted == old(inserted)
      ensures r == if ino in old(handles) then Some(old(handles)[ino].fileHandle) else None
      ensures handles == old(handles) - {ino}
      ensures order == if ino in old(handles) then Without(old(order), ino) else old(order)
      ensures returned == old(returned) + OneOrNone(ino, r)
      ensures ino in old(handles) ==> MovedToEnd(old(order), order + [ino], ino)
    {
      if ino !in handles {
        assert handles - {ino} == handles;
        return None;
      }
      var e := handles[ino];
      PooledRemove(handles, ino);
      WithoutLists(order, handles.Keys, ino);
      WithoutMoves(order, handles.Keys, ino);
      assert (handles - {ino}).Keys == handles.Keys - {ino};
      handles := handles - {ino};
      OrderRemove(ino);
      returned := returned + multiset{(ino, e.fileHandle)};
      return Some(e.fileHandle);
    }

    /** Empties the pool and hands everything back, in no particular order. */
    method Drain() returns (r: seq<(Ino, Handle)>)
      requires Valid()
      modifies this
      ensures Valid() && handles == map[] && order == [] && inserted == old(inserted)
      ensures multiset(r) == multiset(Pooled(old(handles))) && returned == old(returned) + multiset(r)
    {
      order := [];
      r := TakeAll();
      DrainEnds(r, returned, inserted);
      returned := returned + multiset(r);
    }

    method TakeAll() returns (r: seq<(Ino, Handle)>)
      modifies this`handles
      ensures handles == map[] && multiset(r) == multiset(Pooled(old(handles)))
    {
      r := [];
      ghost var all := multiset(Pooled(handles));
      while |handles| > 0
        invariant multiset(r) + multiset(Pooled(handles)) == all
        decreases |handles|
      {
        assert handles.Keys != {};
        var i :| i in handles;
        Drained(r, handles, i);
        r := r + [(i, handles[i].fileHandle)];
        handles := handles - {i};
      }
      assert handles == map[];
    }

    /** Inserts a handle.  An old handle of the same inode is replaced; then entries are evicted strictly
        from the least recently used end, as long as the pool is full and that entry is not pinned. */
    method Insert(ino: Ino, fileHandle: Handle) returns (r: InsertResult)
      requires Valid()
      modifies this
      ensures Valid() && inserted == old(inserted) + multiset{(ino, fileHandle)}
      ensures r.replaced == if ino in old(handles) then Some(old(handles)[ino].fileHandle) else None
      ensures var handles0, order0 := old(handles) - {ino}, Without(old(order), ino);
              EvictedExactly(handles0, order0, r.evicted, |r.evicted|)
              && handles == After(handles0, order0, |r.evicted|)[ino := HandleEntry(fileHandle, 0)]
              && order == order0[|r.evicted|..] + [ino]
      ensures returned == old(returned) + OneOrNone(ino, r.replaced) + multiset(r.evicted)
      ensures |handles| <= HANDLE_POOL_CAPACITY || handles[order[0]].pinCount > 0
      ensures UnpinnedFromFront(old(handles) - {ino}, Without(old(order), ino), r.evicted)
    {
      var replaced := Remove(ino);
      if replaced.None? {
        WithoutAbsent(order, ino);
      }
      EvictionsMean(handles, order);
      var evicted := EvictUnpinned();
      PushNew(ino, fileHandle);
      return InsertResult(evicted, replaced);
    }

    method PushNew(ino: Ino, fileHandle: Handle)
      requires Valid() && ino !in handles
      modifies this
      ensures Valid() && inserted == old(inserted) + multiset{(ino, fileHandle)} && returned == old(returned)
      ensures handles == old(handles)[ino := HandleEntry(fileHandle, 0)] && order == old(order) + [ino]
      ensures |handles| <= |old(handles)| + 1
    {
      var e := HandleEntry(fileHandle, 0);
      PooledInsert(handles, ino, e);
      AppendLists(order, handles.Keys, ino);
      AtMost(handles, ino, e);
      assert handles[ino := e].Keys == handles.Keys + {ino};
      handles := handles[ino := e];
      order := order + [ino];
      inserted := inserted + multiset{(ino, fileHandle)};
    }

    /** The eviction loop of `Insert`. */
    method EvictUnpinned() returns (evicted: seq<(Ino, Handle)>)
      requires Valid()
      modifies this
      ensures Valid() && inserted == old(inserted)
      ensures EvictedExactly(old(handles), old(order), evicted, |evicted|)
      ensures handles == After(old(handles), old(order), |evicted|) && order == old(order)[|evicted|..]
      ensures returned == old(returned) + multiset(evicted)
      ensures |handles| < HANDLE_POOL_CAPACITY || (order != [] && order[0] in handles && handles[order[0]].pinCount > 0)
    {
      evicted := [];
      ghost var h0, o0 := handles, order;
      assert After(h0, o0, 0) == h0;
      while |handles| >= HANDLE_POOL_CAPACITY
        invariant Valid() && inserted == old(inserted) && returned == old(returned) + multiset(evicted)
        invariant Progress(h0, o0, evicted, handles, order)
        decreases |order|
      {
        NotEmpty(order, handles);
        var lru := order[0];
        if lru in handles && handles[lru].pinCount != 0 {
          break;
        }
        OneMoreEvicted(h0, o0, evicted, handles, order);
        BagAppend(old(returned), evicted, (lru, handles[lru].fileHandle));
        var fh := PopLru();
        evicted := evicted + [(lru, fh)];
      }
    }

    method PopLru() returns (fh: Handle)
      requires Valid() && order != []
      modifies this
      ensures Valid() && inserted == old(inserted)
      ensures old(order[0]) in old(handles) && fh == old(handles)[old(order[0])].fileHandle
      ensures handles == old(handles) - {old(order[0])} && order == old(order)[1..]
      ensures returned == old(returned) + multiset{(old(order[0]), fh)}
    {
      var lru := order[0];
      RestLists(order, handles.Keys);
      PooledRemove(handles, lru);
      assert (handles - {lru}).Keys == handles.Keys - {lru};
      fh := handles[lru].fileHandle;
      order := order[1..];
      handles := handles - {lru};
      returned := returned + multiset{(lru, fh)};
    }
  }

  /** `b` is `a` with its entry `ino` at the end, the others in their order. */
  ghost predicate MovedToEnd(a: seq<Ino>, b: seq<Ino>, ino: Ino) {
    exists k :: 0 <= k < |a| && a[k] == ino && b == a[..k] + a[k + 1..] + [ino]
  }

  lemma WithoutMoves(order: seq<Ino>, keys: set<Ino>, ino: Ino)
    requires Lists(order, keys) && ino in keys
    ensures MovedToEnd(order, Without(order, ino) + [ino], ino)
  {
    var k :| 0 <= k < |order| && order[k] == ino;
    WithoutAt(order, k);
  }

  /** What was evicted came from the front of the order and had no pins; the last of it went while the pool had at least
      64 entries; and what is left has fewer, or a pinned entry in front. */
  ghost predicate UnpinnedFromFront(h0: Handles, o0: seq<Ino>, evicted: seq<(Ino, Handle)>) {
    var n := |evicted|;
    && n <= |o0|
    && (forall k :: 0 <= k < n ==>
          o0[k] in h0 && h0[o0[k]].pinCount == 0 && evicted[k] == (o0[k], h0[o0[k]].fileHandle))
    && (n > 0 ==> |h0| - n >= 63)
    && (|h0| - n < 64 || (n < |o0| && o0[n] in h0 && h0[o0[n]].pinCount > 0))
  }

  lemma EvictionsMean(h0: Handles, o0: seq<Ino>)
    requires Lists(o0, h0.Keys)
    ensures forall evicted: seq<(Ino, Handle)> ::
              EvictedExactly(h0, o0, evicted, |evicted|) ==> UnpinnedFromFront(h0, o0, evicted)
  {
    forall evicted: seq<(Ino, Handle)> | EvictedExactly(h0, o0, evicted, |evicted|)
      ensures UnpinnedFromFront(h0, o0, evicted)
    {
      EvictionMeans(h0, o0, evicted);
    }
  }

  lemma EvictionMeans(h0: Handles, o0: seq<Ino>, evicted: seq<(Ino, Handle)>)
    requires Lists(o0, h0.Keys) && EvictedExactly(h0, o0, evicted, |evicted|)
    ensures UnpinnedFromFront(h0, o0, evicted)
  {
    var n := |evicted|;
    forall k | 0 <= k < n
      ensures o0[k] in h0 && h0[o0[k]].pinCount == 0 && evicted[k] == (o0[k], h0[o0[k]].fileHandle)
    {
      StepAllowed(h0, o0, evicted, k);
    }
    if n > 0 { StepAllowed(h0, o0, evicted, n - 1); }
    EndMeans(h0, o0, n);
  }

  lemma StepAllowed(h0: Handles, o0: seq<Ino>, evicted: seq<(Ino, Handle)>, k: nat)
    requires Lists(o0, h0.Keys) && EvictedSoFar(h0, o0, evicted) && k < |evicted|
    ensures o0[k] in h0 && h0[o0[k]].pinCount == 0 && evicted[k] == (o0[k], h0[o0[k]].fileHandle) && |h0| - k >= 64
  {
    assert EvictStep(h0, o0, k, evicted[k]);
    StepMeans(h0, o0, k, evicted[k]);
  }

  lemma StepMeans(h0: Handles, o0: seq<Ino>, k: nat, x: (Ino, Handle))
    requires Lists(o0, h0.Keys) && EvictStep(h0, o0, k, x)
    ensures o0[k] in h0 && h0[o0[k]].pinCount == 0 && x == (o0[k], h0[o0[k]].fileHandle) && |h0| - k >= 64
  {
    AfterNext(h0, o0, k);
    AfterSize(h0, o0, k);
  }

  lemma EndMeans(h0: Handles, o0: seq<Ino>, n: nat)
    requires Lists(o0, h0.Keys) && n <= |o0| && !CanEvict(After(h0, o0, n), o0[n..])
    ensures |h0| - n < 64 || (n < |o0| && o0[n] in h0 && h0[o0[n]].pinCount > 0)
  {
    AfterSize(h0, o0, n);
    ListsSize(o0, h0.Keys);
    if n < |o0| { AfterNext(h0, o0, n); }
  }

  lemma {:induction false} AfterSize(h0: Handles, o0: seq<Ino>, n: nat)
    requires Lists(o0, h0.Keys) && n <= |o0|
    ensures |After(h0, o0, n)| == |h0| - n
  {
    if n == 0 {
      assert After(h0, o0, 0) == h0;
    } else {
      AfterSize(h0, o0, n - 1);
      AfterNext(h0, o0, n - 1);
      assert After(h0, o0, n).Keys == After(h0, o0, n - 1).Keys - {o0[n - 1]};
    }
  }

  lemma {:induction false} ListsSize(order: seq<Ino>, keys: set<Ino>)
    requires Lists(order, keys)
    ensures |order| == |keys|
  {
    if order == [] {
      assert keys == {};
    } else {
      RestLists(order, keys);
      ListsSize(order[1..], keys - {order[0]});
    }
  }

  /** The `k`-th eviction was allowed and handed back `x`. */
  ghost predicate EvictStep(h0: Handles, o0: seq<Ino>, k: nat, x: (Ino, Handle)) {
    k < |o0| && CanEvict(After(h0, o0, k), o0[k..]) && o0[k] in h0 && x == (o0[k], h0[o0[k]].fileHandle)
  }

  ghost predicate EvictedSoFar(h0: Handles, o0: seq<Ino>, evicted: seq<(Ino, Handle)>) {
    |evicted| <= |o0| && forall k :: 0 <= k < |evicted| ==> EvictStep(h0, o0, k, evicted[k])
  }

  ghost predicate Progress(h0: Handles, o0: seq<Ino>, evicted: seq<(Ino, Handle)>, handles: Handles, order: seq<Ino>) {
    && EvictedSoFar(h0, o0, evicted)
    && handles == After(h0, o0, |evicted|) && order == o0[|evicted|..]
  }

  lemma OneMoreEvicted(h0: Handles, o0: seq<Ino>, evicted: seq<(Ino, Handle)>, handles: Handles, order: seq<Ino>)
    requires Lists(o0, h0.Keys) && Progress(h0, o0, evicted, handles, order) && CanEvict(handles, order)
    ensures Progress(h0, o0, evicted + [(order[0], handles[order[0]].fileHandle)], handles - {order[0]}, order[1..])
  {
    AfterNext(h0, o0, |evicted|);
    assert EvictStep(h0, o0, |evicted|, (order[0], handles[order[0]].fileHandle));
  }

  function Pred(n: nat): (r: nat) {
    if n > 0 then n - 1 else 0
  }

  lemma NotEmpty(order: seq<Ino>, handles: Handles)
    requires Lists(order, handles.Keys) && |handles| > 0
    ensures order != []
  {
    assert handles.Keys != {};
    var i :| i in handles;
    assert i in order;
  }

  lemma AtMost(handles: Handles, i: Ino, e: HandleEntry)
    ensures |handles[i := e]| <= |handles| + 1
  {
    assert handles[i := e].Keys == handles.Keys + {i};
  }

  lemma {:induction false} WithoutAt(order: seq<Ino>, pos: nat)
    requires pos < |order| && order[pos] !in order[..pos]
    ensures Without(order, order[pos]) == order[..pos] + order[pos + 1..]
  {
    if pos > 0 {
      assert order[0] == order[..pos][0];
      assert order[1..][..pos - 1] == order[..pos][1..];
      WithoutAt(order[1..], pos - 1);
    }
  }

  lemma {:induction false} WithoutAbsent(order: seq<Ino>, ino: Ino)
    requires ino !in order
    ensures Without(order, ino) == order
  {
    if order != [] {
      WithoutAbsent(order[1..], ino);
    }
  }

  /** The most recently used entry stays where it is. */
  lemma {:induction false} LastAlready(order: seq<Ino>, keys: set<Ino>, ino: Ino)
    requires Lists(order, keys) && order != [] && order[|order| - 1] == ino
    ensures Without(order, ino) + [ino] == order
  {
    if |order| > 1 {
      RestLists(order, keys);
      LastAlready(order[1..], keys - {order[0]}, ino);
    }
  }
}
