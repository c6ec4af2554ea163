/** Byte accounting and least-recently-used eviction of the whole-file cache (src/file_cache.rs). */
module FileCache {
  import opened Prelude

  type Hash = string
  type Tick = nat

  datatype CacheItem = CacheItem(size: nat, lastAccess: Tick)
  datatype Outcome = SizeMismatch | TooLarge | Published(victims: seq<Hash>)

  type Items = map<Hash, CacheItem>

  // ---- Sums ----

  /** The bytes of the items of `keys`. */
  ghost function Sum(items: Items, keys: set<Hash>): (n: nat)
    requires keys <= items.Keys
  {
    if keys == {} then 0
    else
      var k :| k in keys;
      items[k].size + Sum(items, keys - {k})
  }

  lemma {:induction false} SumTake(items: Items, keys: set<Hash>, k: Hash)
    requires keys <= items.Keys && k in keys
    ensures Sum(items, keys) == items[k].size + Sum(items, keys - {k})
    decreases keys
  {
    var j :| j in keys && Sum(items, keys) == items[j].size + Sum(items, keys - {j});
    if j != k {
      SumTake(items, keys - {j}, k);
      SumTake(items, keys - {k}, j);
      assert keys - {j} - {k} == keys - {k} - {j};
    }
  }

  lemma {:induction false} SumSame(a: Items, b: Items, keys: set<Hash>)
    requires keys <= a.Keys && keys <= b.Keys && forall k :: k in keys ==> a[k].size == b[k].size
    ensures Sum(a, keys) == Sum(b, keys)
    decreases keys
  {
    if keys != {} {
      var k :| k in keys;
      SumTake(a, keys, k);
      SumTake(b, keys, k);
      SumSame(a, b, keys - {k});
    }
  }

  ghost function Total(items: Items): (n: nat) {
    Sum(items, items.Keys)
  }

  lemma TotalRemove(items: Items, k: Hash)
    requires k in items
    ensures Total(items) == items[k].size + Total(items - {k})
  {
    SumTake(items, items.Keys, k);
    assert (items - {k}).Keys == items.Keys - {k};
    SumSame(items, items - {k}, items.Keys - {k});
  }

  lemma TotalInsert(items: Items, k: Hash, item: CacheItem)
    ensures Total(items[k := item]) == item.size + Total(items - {k})
  {
    TotalRemove(items[k := item], k);
    assert items[k := item] - {k} == items - {k};
  }

  lemma TotalTouch(items: Items, k: Hash, tick: Tick)
    requires k in items
    ensures Total(items[k := items[k].(lastAccess := tick)]) == Total(items)
  {
    TotalRemove(items, k);
    TotalInsert(items, k, items[k].(lastAccess := tick));
  }

  function SaturatingSub(a: nat, b: nat): (r: nat) {
    if a >= b then a - b else 0
  }

  // ---- The start-up scan ----

  datatype Found = Found(name: Hash, size: nat, tick: Tick)
  datatype Scan = Scan(items: Items, total: nat, maxTick: Tick)

  ghost function Scanned(files: seq<Found>): (s: Scan) {
    if files == [] then Scan(map[], 0, 0)
    else
      var s, f := Scanned(files[..|files| - 1]), files[|files| - 1];
      Scan(s.items[f.name := CacheItem(f.size, f.tick)], s.total + f.size, if f.tick > s.maxTick then f.tick else s.maxTick)
  }

  method ScanExisting(files: seq<Found>) returns (s: Scan)
    ensures s == Scanned(files)
  {
    s := Scan(map[], 0, 0);
    for i := 0 to |files|
      invariant s == Scanned(files[..i])
    {
      assert files[..i + 1][..i] == files[..i];
      var f := files[i];
      var maxTick := s.maxTick;
      if f.tick > maxTick {
        maxTick := f.tick;
      }
      s := Scan(s.items[f.name := CacheItem(f.size, f.tick)], s.total + f.size, maxTick);
    }
    assert files[..|files|] == files;
  }

  /** The files whose name is found again later, so that the later entry replaces theirs. */
  ghost predicate Shadowed(files: seq<Found>, i: nat) {
    i < |files| && exists j :: i < j < |files| && files[j].name == files[i].name
  }

  ghost function ShadowedBytes(files: seq<Found>): (n: nat) {
    if files == [] then 0
    else
      var s, f := Scanned(files[..|files| - 1]), files[|files| - 1];
      ShadowedBytes(files[..|files| - 1]) + if f.name in s.items then s.items[f.name].size else 0
  }

  lemma {:induction false} ScanTotal(files: seq<Found>)
    ensures Scanned(files).total == Total(Scanned(files).items) + ShadowedBytes(files)
  {
    if files != [] {
      var front, f := files[..|files| - 1], files[|files| - 1];
      ScanTotal(front);
      var items := Scanned(front).items;
      TotalInsert(items, f.name, CacheItem(f.size, f.tick));
      if f.name in items {
        TotalRemove(items, f.name);
      } else {
        assert items - {f.name} == items;
      }
    }
  }

  lemma {:induction false} ScanTicks(files: seq<Found>, h: Hash)
    requires h in Scanned(files).items
    ensures Scanned(files).items[h].lastAccess <= Scanned(files).maxTick
  {
    var front, f := files[..|files| - 1], files[|files| - 1];
    if f.name != h {
      ScanTicks(front, h);
    }
  }

  ghost predicate LastOf(files: seq<Found>, h: Hash, i: nat) {
    i < |files| && files[i].name == h && forall j :: i < j < |files| ==> files[j].name != h
  }

  /** An item of the scan is the last file of its name. */
  lemma {:induction false} ScanHolds(files: seq<Found>, h: Hash)
    ensures forall i: nat :: LastOf(files, h, i) ==> h in Scanned(files).items && Scanned(files).items[h].size == files[i].size
    ensures h in Scanned(files).items ==> exists i: nat :: LastOf(files, h, i)
  {
    if files != [] {
      var n := |files| - 1;
      var front := files[..n];
      ScanHolds(front, h);
      if files[n].name == h {
        assert LastOf(files, h, n);
      } else {
        forall i: nat
          ensures LastOf(files, h, i) <==> LastOf(front, h, i)
        {
          LastOfFront(files, h, i);
        }
      }
    }
  }

  lemma LastOfFront(files: seq<Found>, h: Hash, i: nat)
    requires files != [] && files[|files| - 1].name != h
    ensures LastOf(files, h, i) <==> LastOf(files[..|files| - 1], h, i)
  {
    var front := files[..|files| - 1];
    assert forall j :: 0 <= j < |front| ==> front[j] == files[j];
  }

  ghost predicate NothingLost(files: seq<Found>) {
    forall i: nat :: Shadowed(files, i) ==> files[i].size == 0
  }

  lemma ShadowedNext(files: seq<Found>, i: nat)
    requires files != [] && i < |files| - 1
    ensures var n := |files| - 1;
            Shadowed(files, i) <==> Shadowed(files[..n], i) || files[i].name == files[n].name
  {
    var n := |files| - 1;
    var front := files[..n];
    if Shadowed(front, i) {
      var j :| i < j < n && front[j].name == front[i].name;
      assert files[j].name == files[i].name;
    }
    if Shadowed(files, i) {
      var j :| i < j < |files| && files[j].name == files[i].name;
      assert j == n || front[j].name == front[i].name;
    }
  }

  lemma {:induction false} ShadowedBytesIff(files: seq<Found>)
    ensures ShadowedBytes(files) == 0 <==> NothingLost(files)
  {
    if files != [] {
      var n := |files| - 1;
      var front, f := files[..n], files[n];
      ShadowedBytesIff(front);
      ScanHolds(front, f.name);
      if NothingLost(files) {
        NothingLostFront(files);
        if f.name in Scanned(front).items {
          var i: nat :| LastOf(front, f.name, i);
          ShadowedNext(files, i);
          assert Shadowed(files, i);
        }
      }
      if ShadowedBytes(files) == 0 {
        forall i: nat | Shadowed(files, i)
          ensures files[i].size == 0
        {
          NewlyShadowed(files, i);
        }
      }
    }
  }

  /** A file that is shadowed was so before, or is the last of its name until the last file came. */
  lemma NewlyShadowed(files: seq<Found>, i: nat)
    requires Shadowed(files, i)
    ensures var n := |files| - 1;
            i < n && files[..n][i] == files[i] && (Shadowed(files[..n], i) || LastOf(files[..n], files[n].name, i))
  {
    var n := |files| - 1;
    var front := files[..n];
    ShadowedNext(files, i);
    if !Shadowed(front, i) {
      assert forall j :: i < j < n ==> front[j].name != front[i].name;
    }
  }

  lemma NothingLostFront(files: seq<Found>)
    requires files != [] && NothingLost(files)
    ensures NothingLost(files[..|files| - 1])
  {
    var front := files[..|files| - 1];
    forall i: nat | Shadowed(front, i)
      ensures front[i].size == 0
    {
      ShadowedNext(files, i);
    }
  }

  /** The scan counts every file it finds, but keeps one item per name: its total is the sum of the items'
      sizes exactly when no file with bytes has a namesake in a later shard. */
  lemma ScanIff(files: seq<Found>)
    ensures Scanned(files).total == Total(Scanned(files).items) <==> NothingLost(files)
  {
    ScanTotal(files);
    ShadowedBytesIff(files);
  }

  /** One file in two shard directories is counted twice and kept once. */
  lemma ScanTwice()
    ensures var files := [Found("ab", 5, 1), Found("ab", 7, 2)];
            Scanned(files).total == 12 && Total(Scanned(files).items) == 7
  {
    var one, files := [Found("ab", 5, 1)], [Found("ab", 5, 1), Found("ab", 7, 2)];
    assert one[..0] == [] && files[..1] == one;
    assert Scanned(one) == Scan(map["ab" := CacheItem(5, 1)], 5, 1);
    assert Scanned(files).items == map["ab" := CacheItem(7, 2)];
    TotalSingle("ab", CacheItem(7, 2));
  }

  // ---- Eviction order ----

  ghost predicate Lists(s: seq<Hash>, keys: set<Hash>) {
    (forall x :: x in s <==> x in keys) && forall i, j :: 0 <= i < j < |s| ==> s[i] != s[j]
  }

  ghost predicate ByAccess(items: Items, s: seq<Hash>) {
    forall i, j :: 0 <= i < j < |s| && s[i] in items && s[j] in items ==> items[s[i]].lastAccess <= items[s[j]].lastAccess
  }

  method FindOldest(items: Items, keys: set<Hash>) returns (v: Hash)
    requires keys != {} && keys <= items.Keys
    ensures v in keys && forall k :: k in keys ==> items[v].lastAccess <= items[k].lastAccess
  {
    v :| v in keys;
    var todo := keys - {v};
    while todo != {}
      invariant todo <= keys && v in keys
      invariant forall k :: k in keys && k !in todo ==> items[v].lastAccess <= items[k].lastAccess
    {
      var k :| k in todo;
      if items[k].lastAccess < items[v].lastAccess {
        v := k;
      }
      todo := todo - {k};
    }
  }

  /** The keys in the order of their last access. */
  method SortByAccess(items: Items) returns (s: seq<Hash>)
    ensures Lists(s, items.Keys) && ByAccess(items, s)
  {
    s := [];
    var todo := items.Keys;
    while todo != {}
      invariant todo <= items.Keys && Lists(s, items.Keys - todo) && ByAccess(items, s)
      invariant forall i, k :: 0 <= i < |s| && k in todo ==> s[i] in items && items[s[i]].lastAccess <= items[k].lastAccess
      decreases todo
    {
      var v := FindOldest(items, todo);
      assert v !in s;
      s := s + [v];
      todo := todo - {v};
    }
  }

  ghost function Without(items: Items, victims: seq<Hash>): (r: Items) {
    items - (set x | x in victims)
  }

  function SizeOf(items: Items, h: Hash): (n: nat) {
    if h in items then items[h].size else 0
  }

  ghost function BytesOf(items: Items, victims: seq<Hash>): (n: nat) {
    if victims == [] then 0 else BytesOf(items, victims[..|victims| - 1]) + SizeOf(items, victims[|victims| - 1])
  }

  /** Removing distinct items frees exactly their bytes. */
  lemma {:induction false} FreedBytes(items: Items, victims: seq<Hash>)
    requires forall i :: 0 <= i < |victims| ==> victims[i] in items
    requires forall i, j :: 0 <= i < j < |victims| ==> victims[i] != victims[j]
    ensures Total(items) == Total(Without(items, victims)) + BytesOf(items, victims)
  {
    if victims == [] {
      assert Without(items, victims) == items;
    } else {
      var n := |victims| - 1;
      var front, last := victims[..n], victims[n];
      FreedBytes(items, front);
      assert last !in front;
      TotalRemove(Without(items, front), last);
      assert forall x :: x in victims <==> x in front || x == last;
      assert Without(items, front) - {last} == Without(items, victims);
    }
  }

  /** `n` is the least number of least recently used items whose removal brings their bytes and the surplus to
      `capacity`, or all of them if none does. */
  ghost predicate Shortest(items: Items, order: seq<Hash>, capacity: nat, surplus: nat, n: nat) {
    && n <= |order| && (forall i :: 0 <= i < |order| ==> order[i] in items)
    && (n < |order| ==> Left(items, order, n) + surplus <= capacity)
    && StillOver(items, order, capacity, surplus, n)
  }

  /** Removing fewer than `n` is not enough. */
  ghost predicate StillOver(items: Items, order: seq<Hash>, capacity: nat, surplus: nat, n: nat)
    requires n <= |order|
  {
    forall k :: 0 <= k < n ==> Left(items, order, k) + surplus > capacity
  }

  /** The bytes left when the first `k` of the order are gone. */
  ghost function Left(items: Items, order: seq<Hash>, k: nat): (n: nat)
    requires k <= |order|
  {
    Total(Without(items, order[..k]))
  }

  lemma NothingLeft(items: Items, order: seq<Hash>)
    requires Lists(order, items.Keys)
    ensures Left(items, order, |order|) == 0 && Without(items, order) == map[] && order[..|order|] == order
  {
    assert order[..|order|] == order;
    assert Without(items, order) == map[];
  }

  /** `after` is `before` without the shortest sufficient prefix of some access order. */
  ghost predicate EvictedTo(before: Items, after: Items, victims: seq<Hash>, capacity: nat, surplus: nat) {
    && after == Without(before, victims)
    && exists order :: InOrder(before, order) && victims <= order && Shortest(before, order, capacity, surplus, |victims|)
  }

  ghost predicate InOrder(items: Items, order: seq<Hash>) {
    Lists(order, items.Keys) && ByAccess(items, order)
  }

  lemma FreedUpTo(items: Items, order: seq<Hash>, k: nat)
    requires Lists(order, items.Keys) && k <= |order|
    ensures Total(items) == Left(items, order, k) + BytesOf(items, order[..k])
    ensures k > 0 ==> BytesOf(items, order[..k]) == BytesOf(items, order[..k - 1]) + SizeOf(items, order[k - 1])
                      && order[..k] == order[..k - 1] + [order[k - 1]]
  {
    FreedBytes(items, order[..k]);
    if k > 0 { assert order[..k][..k - 1] == order[..k - 1]; }
  }

  // ---- The cache ----

  class FileCache {
    const capacity: nat
    var items: Items
    var totalBytes: nat
    var clock: Tick
    ghost const surplus: nat

    /** What is counted is what is there, and the bytes of files that the scan found under a name it found again.
        These are counted for good. */
    ghost predicate Valid()
      reads this
    {
      && totalBytes == Total(items) + surplus
      && forall h :: h in items ==> items[h].lastAccess < clock
    }

    /** Starts from what the scan found. */
    constructor (capacity: nat, files: seq<Found>)
      ensures this.capacity == capacity && items == Scanned(files).items
      ensures Valid() && surplus == ShadowedBytes(files) && (surplus == 0 <==> NothingLost(files))
    {
      this.capacity := capacity;
      var s := ScanExisting(files);
      items := s.items;
      totalBytes := s.total;
      clock := s.maxTick + 1;
      surplus := ShadowedBytes(files);
      new;
      ScanTotal(files);
      ShadowedBytesIff(files);
      forall h | h in items
        ensures items[h].lastAccess < clock
      {
        ScanTicks(files, h);
      }
    }

    method NextTick() returns (t: Tick)
      modifies this`clock
      ensures t == old(clock) && clock == old(clock) + 1
    {
      t := clock;
      clock := clock + 1;
    }

    /** A hit becomes the most recently used item; an item whose file is gone is forgotten. */
    method TryOpen(hash: Hash, fileExists: bool) returns (hit: bool)
      requires Valid()
      modifies this
      ensures Valid()
      ensures hit <==> hash != "" && hash in old(items) && fileExists
      ensures hit ==> items == old(items)[hash := old(items)[hash].(lastAccess := old(clock))]
      ensures !hit ==> items == if hash == "" then old(items) else old(items) - {hash}
    {
      if hash == "" {
        return false;
      }
      if hash !in items {
        assert items - {hash} == items;
        return false;
      }
      var tick := NextTick();
      TotalTouch(items, hash, tick);
      items := items[hash := items[hash].(lastAccess := tick)];
      if fileExists {
        return true;
      }
      Forget(hash);
      assert items == old(items) - {hash};
      return false;
    }

    method Forget(hash: Hash)
      requires Valid()
      modifies this`items, this`totalBytes
      ensures Valid() && items == old(items) - {hash}
    {
      if hash in items {
        TotalRemove(items, hash);
        totalBytes := SaturatingSub(totalBytes, items[hash].size);
        items := items - {hash};
      } else {
        assert items - {hash} == items;
      }
    }

    /** A finished download: dropped if its size is not the expected one or exceeds the capacity,
        published otherwise. */
    method FinishDownload(hash: Hash, expected: Option<nat>, actual: nat) returns (r: Outcome)
      requires Valid()
      modifies this
      ensures Valid()
      ensures r.SizeMismatch? <==> expected.Some? && expected.value != actual
      ensures r.TooLarge? <==> !r.SizeMismatch? && actual > capacity
      ensures !r.Published? ==> items == old(items) && totalBytes == old(totalBytes) && clock == old(clock)
      ensures r.Published? ==>
                && (if actual + surplus <= capacity then hash in items && items[hash] == CacheItem(actual, old(clock))
                    else items == map[])
                && EvictedTo(old(items)[hash := CacheItem(actual, old(clock))], items, r.victims, capacity, surplus)
    {
      if expected.Some? && expected.value != actual {
        return SizeMismatch;
      }
      if actual > capacity {
        return TooLarge;
      }
      var victims := Publish(hash, actual);
      return Published(victims);
    }

    /** Publishes a downloaded file that fits, then evicts.  The victims are the shortest sufficient prefix of the access
        order.  The new item is kept exactly when it fits beside the surplus; otherwise everything goes. */
    method Publish(hash: Hash, size: nat) returns (victims: seq<Hash>)
      requires Valid() && size <= capacity
      modifies this
      ensures Valid() && (totalBytes <= capacity || items == map[])
      ensures hash in items <==> size + surplus <= capacity
      ensures if hash in items then items[hash] == CacheItem(size, old(clock)) && hash !in victims else items == map[]
      ensures EvictedTo(old(items)[hash := CacheItem(size, old(clock))], items, victims, capacity, surplus)
    {
      var tick := NextTick();
      TotalInsert(items, hash, CacheItem(size, tick));
      if hash in items {
        TotalRemove(items, hash);
        totalBytes := SaturatingSub(totalBytes, items[hash].size);
      } else {
        assert items - {hash} == items;
      }
      items := items[hash := CacheItem(size, tick)];
      totalBytes := totalBytes + size;
      ghost var before := items;
      victims := EvictLocked();
      NewestStays(before, items, victims, capacity, surplus, hash);
    }

    method EvictLocked() returns (victims: seq<Hash>)
      requires Valid()
      modifies this`items, this`totalBytes
      ensures Valid() && (totalBytes <= capacity || items == map[])
      ensures EvictedTo(old(items), items, victims, capacity, surplus)
    {
      ghost var before := items;
      var order := SortByAccess(items);
      victims := [];
      assert Without(items, order[..0]) == items;
      if totalBytes > capacity {
        victims := ChooseVictims(order);
      }
      assert InOrder(before, order) && victims == order[..|victims|];
      RemoveVictims(victims);
      EvictedEnough(before, order, capacity, surplus, |victims|);
    }

    /** Takes keys from the front of the order until enough bytes are freed. */
    method ChooseVictims(order: seq<Hash>) returns (victims: seq<Hash>)
      requires Valid() && Lists(order, items.Keys)
      ensures victims <= order && Shortest(items, order, capacity, surplus, |victims|)
    {
      victims := [];
      var freed := 0;
      var i := 0;
      FreedUpTo(items, order, 0);
      while i < |order|
        invariant 0 <= i <= |order| && victims == order[..i]
        invariant totalBytes == Left(items, order, i) + freed + surplus
        invariant StillOver(items, order, capacity, surplus, i)
      {
        if totalBytes - freed <= capacity {
          break;
        }
        OneMoreVictim(items, order, capacity, surplus, i);
        victims := victims + [order[i]];
        freed := freed + SizeOf(items, order[i]);
        i := i + 1;
      }
      assert |victims| == i;
    }

    method RemoveVictims(victims: seq<Hash>)
      requires Valid() && forall i :: 0 <= i < |victims| ==> victims[i] in items
      modifies this`items, this`totalBytes
      ensures Valid() && items == Without(old(items), victims)
    {
      assert Without(items, []) == items;
      for i := 0 to |victims|
        invariant Valid() && items == Without(old(items), victims[..i])
      {
        assert forall x :: x in victims[..i + 1] <==> x in victims[..i] || x == victims[i];
        Forget(victims[i]);
        assert Without(old(items), victims[..i]) - {victims[i]} == Without(old(items), victims[..i + 1]);
      }
      assert victims[..|victims|] == victims;
    }
  }

  lemma OneMoreVictim(items: Items, order: seq<Hash>, capacity: nat, surplus: nat, i: nat)
    requires Lists(order, items.Keys) && i < |order| && StillOver(items, order, capacity, surplus, i)
    requires Left(items, order, i) + surplus > capacity
    ensures StillOver(items, order, capacity, surplus, i + 1)
    ensures order[..i + 1] == order[..i] + [order[i]]
    ensures Left(items, order, i) == Left(items, order, i + 1) + SizeOf(items, order[i])
  {
    FreedUpTo(items, order, i);
    FreedUpTo(items, order, i + 1);
  }

  /** Either the counted bytes fit, or nothing is left. */
  lemma EvictedEnough(items: Items, order: seq<Hash>, capacity: nat, surplus: nat, n: nat)
    requires Lists(order, items.Keys) && Shortest(items, order, capacity, surplus, n)
    ensures var rest := Without(items, order[..n]); Total(rest) + surplus <= capacity || rest == map[]
  {
    if n == |order| { NothingLeft(items, order); }
  }

  /** The strictly newest item stays exactly when it fits beside the surplus, and otherwise it is the last to go. */
  lemma NewestStays(before: Items, after: Items, victims: seq<Hash>, capacity: nat, surplus: nat, h: Hash)
    requires EvictedTo(before, after, victims, capacity, surplus) && h in before
    requires forall k :: k in before && k != h ==> before[k].lastAccess < before[h].lastAccess
    ensures h in after <==> before[h].size + surplus <= capacity
    ensures if h in after then h !in victims && after[h] == before[h] else after == map[]
  {
    var order :| InOrder(before, order) && victims <= order && Shortest(before, order, capacity, surplus, |victims|);
    NewestLast(before, order, h);
    LastGoesIff(before, order, capacity, surplus, |victims|, h);
    var n := |order| - 1;
    assert victims == order[..|victims|];
    if |victims| > n {
      NothingLeft(before, order);
    } else {
      assert forall i :: 0 <= i < |victims| ==> victims[i] == order[i] && order[i] != order[n];
    }
  }

  lemma LastGoesIff(items: Items, order: seq<Hash>, capacity: nat, surplus: nat, m: nat, h: Hash)
    requires Lists(order, items.Keys) && Shortest(items, order, capacity, surplus, m)
    requires order != [] && order[|order| - 1] == h && h in items
    ensures m < |order| <==> items[h].size + surplus <= capacity
  {
    LeftNewest(items, order, h);
    if m < |order| { LeftShrinks(items, order, m, |order| - 1); }
  }

  /** The more items go, the fewer bytes are left. */
  lemma LeftShrinks(items: Items, order: seq<Hash>, j: nat, k: nat)
    requires Lists(order, items.Keys) && j <= k <= |order|
    ensures Left(items, order, k) <= Left(items, order, j)
    decreases k - j
  {
    if j < k {
      FreedUpTo(items, order, j);
      FreedUpTo(items, order, j + 1);
      LeftShrinks(items, order, j + 1, k);
    }
  }

  lemma LeftNewest(items: Items, order: seq<Hash>, h: Hash)
    requires Lists(order, items.Keys) && order != [] && order[|order| - 1] == h && h in items
    ensures Left(items, order, |order| - 1) == items[h].size
  {
    var front := order[..|order| - 1];
    assert forall x :: x in order <==> x in front || x == h;
    var rest := Without(items, front);
    assert rest.Keys == {h};
    assert rest == map[h := items[h]];
    TotalSingle(h, items[h]);
  }

  lemma NewestLast(items: Items, order: seq<Hash>, h: Hash)
    requires InOrder(items, order) && h in items
    requires forall k :: k in items && k != h ==> items[k].lastAccess < items[h].lastAccess
    ensures order != [] && order[|order| - 1] == h
  {
    var i :| 0 <= i < |order| && order[i] == h;
    var n := |order| - 1;
    assert order[n] in order;
  }

  lemma TotalSingle(h: Hash, item: CacheItem)
    ensures Total(map[h := item]) == item.size
  {
    TotalRemove(map[h := item], h);
    assert map[h := item] - {h} == map[];
  }
}
