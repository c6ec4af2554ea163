/** Reconstruction plans and their cache (src/cached_xet_client.rs). */
module ReconCache {
  import opened Prelude

  type Bytes = seq<Byte>
  type FileId = nat
  type XorbHash = nat
  type Instant = nat

  datatype Term = Term(hash: XorbHash, chunkStart: nat, chunkEnd: nat, unpackedLength: nat)
  datatype FileRange = FileRange(start: nat, end: nat)
  datatype Response = Response(offsetIntoFirst: nat, terms: seq<Term>, xorbs: map<XorbHash, seq<nat>>)

  const MAX_CACHE_ENTRIES: nat := 4096

  // ---- Plans ----

  /** The file offset of term `k`: the unpacked lengths before it. */
  function Offset(terms: seq<Term>, k: nat): (n: nat)
    requires k <= |terms|
  {
    if k == 0 then 0 else Offset(terms, k - 1) + terms[k - 1].unpackedLength
  }

  lemma {:induction false} OffsetMonotone(terms: seq<Term>, i: nat, j: nat)
    requires i <= j <= |terms|
    ensures Offset(terms, i) <= Offset(terms, j)
    decreases j
  {
    if i < j {
      OffsetMonotone(terms, i, j - 1);
    }
  }

  /** Term `k` overlaps the range. */
  predicate Overlaps(terms: seq<Term>, range: FileRange, k: nat)
    requires k < |terms|
  {
    Offset(terms, k + 1) > range.start && Offset(terms, k) < range.end
  }

  /** Term `k` ends before the range starts. */
  predicate EndsBefore(terms: seq<Term>, range: FileRange, k: nat)
    requires k < |terms|
  {
    Offset(terms, k + 1) <= range.start
  }

  ghost predicate Exactly(terms: seq<Term>, range: FileRange, lo: nat, hi: nat) {
    && lo <= hi <= |terms|
    && forall k :: 0 <= k < |terms| ==> (lo <= k < hi <==> Overlaps(terms, range, k))
  }

  ghost function Hashes(terms: seq<Term>): (s: set<XorbHash>) {
    set t | t in terms :: t.hash
  }

  /** `r` is `full` cut down to the terms `lo..hi`, which are exactly the overlapping ones, to their
      xorbs, and to where the range starts in the first of them. */
  ghost predicate CutTo(full: Response, range: FileRange, r: Response, lo: nat, hi: nat) {
    && Exactly(full.terms, range, lo, hi)
    && r.terms == full.terms[lo..hi]
    && r.xorbs == (map h | h in full.xorbs && h in Hashes(r.terms) :: full.xorbs[h])
    && (lo < hi ==> Offset(full.terms, lo) <= range.start && r.offsetIntoFirst == range.start - Offset(full.terms, lo))
    && (lo == hi ==> r.offsetIntoFirst == 0)
  }

  /** Walks the terms in file order and keeps those that overlap the range. */
  method DeriveRangeResponse(full: Response, range: FileRange) returns (r: Response)
    ensures exists lo, hi :: CutTo(full, range, r, lo, hi)
  {
    var terms := full.terms;
    var cur: nat := 0;
    var kept: seq<Term> := [];
    var offsetIntoFirst: nat := 0;
    var needed: set<XorbHash> := {};
    ghost var lo: nat := 0;
    var k := 0;
    while k < |terms|
      invariant Walked(terms, range, lo, k) && cur == Offset(terms, k)
      invariant kept == terms[lo..k] && needed == Hashes(kept)
      invariant lo < k ==> offsetIntoFirst == range.start - Offset(terms, lo)
      invariant lo == k ==> offsetIntoFirst == 0
    {
      var termStart := cur;
      var termEnd := cur + terms[k].unpackedLength;
      WalkStep(terms, range, lo, k);
      if termEnd <= range.start {
        cur := termEnd;
        k := k + 1;
        lo := k;
        assert terms[lo..k] == [];
        continue;
      }
      if termStart >= range.end {
        break;
      }
      if kept == [] {
        offsetIntoFirst := if range.start > termStart then range.start - termStart else 0;
      }
      HashesNext(kept, terms[k]);
      needed := needed + {terms[k].hash};
      kept := kept + [terms[k]];
      cur := termEnd;
      k := k + 1;
    }
    var xorbs := map h | h in full.xorbs && h in needed :: full.xorbs[h];
    r := Response(offsetIntoFirst, kept, xorbs);
    Outside(terms, range, lo, k);
    assert CutTo(full, range, r, lo, k);
  }

  lemma HashesNext(kept: seq<Term>, t: Term)
    ensures Hashes(kept + [t]) == Hashes(kept) + {t.hash}
  {
    assert forall x :: x in kept + [t] <==> x in kept || x == t;
  }

  /** The first `k` terms: those before `lo` end too early, the others overlap. */
  ghost predicate Walked(terms: seq<Term>, range: FileRange, lo: nat, k: nat) {
    && lo <= k <= |terms| && Offset(terms, lo) <= range.start
    && (forall i :: 0 <= i < lo ==> EndsBefore(terms, range, i))
    && (forall i :: lo <= i < k ==> Overlaps(terms, range, i))
  }

  lemma WalkStep(terms: seq<Term>, range: FileRange, lo: nat, k: nat)
    requires Walked(terms, range, lo, k) && k < |terms|
    ensures Offset(terms, k + 1) == Offset(terms, k) + terms[k].unpackedLength
    ensures Offset(terms, k + 1) <= range.start ==> lo == k && Walked(terms, range, k + 1, k + 1)
    ensures Offset(terms, k + 1) > range.start && Offset(terms, k) < range.end ==> Walked(terms, range, lo, k + 1)
  {
    if Offset(terms, k + 1) <= range.start {
      assert lo < k ==> Overlaps(terms, range, lo);
      if lo < k { OffsetMonotone(terms, lo + 1, k + 1); }
      assert EndsBefore(terms, range, k);
    } else if Offset(terms, k) < range.end {
      assert Overlaps(terms, range, k);
    }
  }

  /** Before the first term kept, and from where the walk stopped, nothing overlaps. */
  lemma Outside(terms: seq<Term>, range: FileRange, lo: nat, k: nat)
    requires Walked(terms, range, lo, k) && (k == |terms| || Offset(terms, k) >= range.end)
    ensures Exactly(terms, range, lo, k)
  {
    forall i | 0 <= i < |terms| && Overlaps(terms, range, i)
      ensures lo <= i < k
    {
      assert !EndsBefore(terms, range, i);
      if i >= k { OffsetMonotone(terms, k, i); }
    }
  }

  // ---- Rebuilding ----

  /** What a term unpacks to. */
  type Unpack = Term -> Bytes

  ghost predicate Unpacks(u: Unpack) {
    forall t :: |u(t)| == t.unpackedLength
  }

  ghost function Concat(u: Unpack, terms: seq<Term>): (b: Bytes) {
    if terms == [] then [] else Concat(u, terms[..|terms| - 1]) + u(terms[|terms| - 1])
  }

  lemma {:induction false} ConcatPrefix(u: Unpack, terms: seq<Term>, k: nat)
    requires Unpacks(u) && k <= |terms|
    ensures Offset(terms, k) <= |Concat(u, terms)| && Concat(u, terms[..k]) == Concat(u, terms)[..Offset(terms, k)]
    ensures |Concat(u, terms)| == Offset(terms, |terms|)
    decreases |terms|
  {
    if terms != [] {
      var n := |terms| - 1;
      if k <= n {
        ConcatPrefix(u, terms[..n], k);
        OffsetFront(terms, n, k);
        OffsetFront(terms, n, n);
        assert terms[..n][..k] == terms[..k];
      } else {
        ConcatPrefix(u, terms[..n], n);
        OffsetFront(terms, n, n);
        assert terms[..k] == terms;
      }
    }
  }

  lemma {:induction false} OffsetFront(terms: seq<Term>, n: nat, k: nat)
    requires k <= n <= |terms|
    ensures Offset(terms[..n], k) == Offset(terms, k)
    decreases k
  {
    if k > 0 {
      OffsetFront(terms, n, k - 1);
    }
  }

  lemma {:induction false} ConcatAppend(u: Unpack, a: seq<Term>, b: seq<Term>)
    ensures Concat(u, a + b) == Concat(u, a) + Concat(u, b)
    decreases |b|
  {
    if b == [] {
      assert a + b == a;
    } else {
      var n := |b| - 1;
      assert (a + b)[..|a + b| - 1] == a + b[..n];
      ConcatAppend(u, a, b[..n]);
      assert (Concat(u, a) + Concat(u, b[..n])) + u(b[n]) == Concat(u, a) + (Concat(u, b[..n]) + u(b[n]));
    }
  }

  lemma CutInTwo(terms: seq<Term>, lo: nat, hi: nat)
    requires lo <= hi <= |terms|
    ensures terms[..hi] == terms[..lo] + terms[lo..hi]
  {
  }

  /** The kept terms unpack to the bytes of the file between the offsets of the first and last. */
  lemma ConcatSlice(u: Unpack, terms: seq<Term>, lo: nat, hi: nat)
    requires Unpacks(u) && lo <= hi <= |terms|
    ensures Offset(terms, lo) <= Offset(terms, hi) <= |Concat(u, terms)|
    ensures Concat(u, terms[lo..hi]) == Concat(u, terms)[Offset(terms, lo)..Offset(terms, hi)]
  {
    OffsetMonotone(terms, lo, hi);
    ConcatPrefix(u, terms, hi);
    ConcatPrefix(u, terms, lo);
    CutInTwo(terms, lo, hi);
    ConcatAppend(u, terms[..lo], terms[lo..hi]);
    var whole, a := Concat(u, terms[..hi]), Concat(u, terms[..lo]);
    assert whole[|a|..] == Concat(u, terms[lo..hi]);
  }

  function Min(a: nat, b: nat): (m: nat) {
    if a < b then a else b
  }

  /** The plan gives `n` bytes of the file from `start`: they lie where its first term's offset says. */
  ghost predicate Rebuilds(u: Unpack, r: Response, file: Bytes, start: nat, n: nat) {
    && start + n <= |file|
    && r.offsetIntoFirst + n <= |Concat(u, r.terms)|
    && Concat(u, r.terms)[r.offsetIntoFirst..r.offsetIntoFirst + n] == file[start..start + n]
  }

  /** `full` is a plan of the whole file. */
  ghost predicate FullPlan(u: Unpack, full: Response, file: Bytes) {
    Concat(u, full.terms) == file && full.offsetIntoFirst == 0
    && forall t :: t in full.terms ==> t.hash in full.xorbs
  }

  /** A derived plan rebuilds exactly the bytes of the range that the file has. */
  lemma DerivedRebuilds(u: Unpack, full: Response, file: Bytes, range: FileRange, r: Response, lo: nat, hi: nat)
    requires Unpacks(u) && FullPlan(u, full, file) && CutTo(full, range, r, lo, hi)
    requires range.start < range.end && range.start < |file|
    ensures Rebuilds(u, r, file, range.start, Min(range.end, |file|) - range.start)
  {
    var terms := full.terms;
    WholeLength(u, full, file);
    KeepsUpTo(terms, range, lo, hi);
    CutBytes(u, full, file, lo, hi);
    var n := Min(range.end, |file|) - range.start;
    Window(Concat(u, r.terms), file, Offset(terms, lo), Offset(terms, hi), range.start, n);
  }

  lemma WholeLength(u: Unpack, full: Response, file: Bytes)
    requires Unpacks(u) && FullPlan(u, full, file)
    ensures |file| == Offset(full.terms, |full.terms|)
  {
    ConcatPrefix(u, full.terms, |full.terms|);
  }

  lemma CutBytes(u: Unpack, full: Response, file: Bytes, lo: nat, hi: nat)
    requires Unpacks(u) && FullPlan(u, full, file) && lo <= hi <= |full.terms|
    ensures Offset(full.terms, lo) <= Offset(full.terms, hi) <= |file|
    ensures Concat(u, full.terms[lo..hi]) == file[Offset(full.terms, lo)..Offset(full.terms, hi)]
  {
    ConcatSlice(u, full.terms, lo, hi);
  }

  lemma Window(part: Bytes, file: Bytes, a: nat, b: nat, start: nat, n: nat)
    requires a <= b <= |file| && part == file[a..b] && a <= start && start + n <= b
    ensures part[start - a..start - a + n] == file[start..start + n]
  {
    var x, y := part[start - a..start - a + n], file[start..start + n];
    assert forall k :: 0 <= k < n ==> x[k] == y[k];
  }

  /** It brings every xorb that its terms need, as the full plan has it. */
  lemma XorbsKept(full: Response, range: FileRange, r: Response, lo: nat, hi: nat)
    requires CutTo(full, range, r, lo, hi) && forall t :: t in full.terms ==> t.hash in full.xorbs
    ensures forall t :: t in r.terms ==> t.hash in r.xorbs && r.xorbs[t.hash] == full.xorbs[t.hash]
  {
    forall t | t in r.terms
      ensures t.hash in r.xorbs && r.xorbs[t.hash] == full.xorbs[t.hash]
    {
      assert t in full.terms && t.hash in Hashes(r.terms);
    }
  }

  /** The kept terms reach from the start of the range to its end, or to the end of the file. */
  lemma KeepsUpTo(terms: seq<Term>, range: FileRange, lo: nat, hi: nat)
    requires Exactly(terms, range, lo, hi) && range.start < range.end && range.start < Offset(terms, |terms|)
    ensures lo < hi && Min(range.end, Offset(terms, |terms|)) <= Offset(terms, hi)
  {
    var k := FirstPast(terms, range.start);
    assert Overlaps(terms, range, k);
    if hi < |terms| {
      assert Overlaps(terms, range, hi - 1);
      assert !Overlaps(terms, range, hi);
      OffsetMonotone(terms, hi, hi + 1);
    }
  }

  /** The term that holds the byte at `at`. */
  lemma {:induction false} FirstPast(terms: seq<Term>, at: nat) returns (k: nat)
    requires at < Offset(terms, |terms|)
    ensures k < |terms| && Offset(terms, k) <= at < Offset(terms, k + 1)
  {
    k := |terms| - 1;
    while Offset(terms, k) > at
      invariant k < |terms| && at < Offset(terms, k + 1)
      decreases k
    {
      k := k - 1;
    }
  }

  /** A derived plan is empty exactly when the range lies past the end of the file. */
  lemma DerivedEmptyIff(full: Response, range: FileRange, r: Response, lo: nat, hi: nat)
    requires CutTo(full, range, r, lo, hi) && range.start < range.end
    ensures r.terms == [] <==> range.start >= Offset(full.terms, |full.terms|)
  {
    var terms := full.terms;
    if range.start < Offset(terms, |terms|) {
      KeepsUpTo(terms, range, lo, hi);
    } else if lo < hi {
      assert Overlaps(terms, range, lo);
      OffsetMonotone(terms, lo + 1, |terms|);
    }
  }

  // ---- The cache ----

  datatype Key = Key(file: FileId, range: Option<FileRange>)
  datatype CacheEntry = CacheEntry(response: Response, inserted: Instant, lastAccessed: Instant)
  datatype Lookup = Hit(response: Response) | PastEnd | Miss

  /** The files behind the plans, and what their terms unpack to. */
  datatype Backend = Backend(files: map<FileId, Bytes>, unpack: Unpack)

  /** The plan rebuilds what its key asks for.  The backend answers a range only if it starts inside
      the file, or at the start of an empty one. */
  ghost predicate Good(b: Backend, key: Key, r: Response) {
    && key.file in b.files && Unpacks(b.unpack)
    && var file := b.files[key.file];
       match key.range
       case None => FullPlan(b.unpack, r, file)
       case Some(range) =>
         range.start < range.end ==>
           && range.start <= |file|
           && Rebuilds(b.unpack, r, file, range.start, Min(range.end, |file|) - range.start)
  }

  /** The range starts where the file has nothing, and is not the one range of an empty plan. */
  ghost predicate PastEof(b: Backend, file: FileId, range: FileRange, full: Response)
    requires file in b.files
  {
    range.start >= |b.files[file]| && !(full.terms == [] && range.start == 0)
  }

  lemma DerivedGood(b: Backend, file: FileId, range: FileRange, full: Response, r: Response, lo: nat, hi: nat)
    requires Good(b, Key(file, None), full) && CutTo(full, range, r, lo, hi) && range.start < range.end
    ensures r.terms == [] && (full.terms != [] || range.start > 0) <==> PastEof(b, file, range, full)
    ensures !PastEof(b, file, range, full) ==> Good(b, Key(file, Some(range)), r)
  {
    WholeLength(b.unpack, full, b.files[file]);
    DerivedEmptyIff(full, range, r, lo, hi);
    if range.start < |b.files[file]| {
      DerivedRebuilds(b.unpack, full, b.files[file], range, r, lo, hi);
    } else if !PastEof(b, file, range, full) {
      EmptyRebuilds(b.unpack, full, b.files[file], range, r, lo, hi);
    }
  }

  lemma EmptyRebuilds(u: Unpack, full: Response, file: Bytes, range: FileRange, r: Response, lo: nat, hi: nat)
    requires FullPlan(u, full, file) && full.terms == [] && range.start == 0 && CutTo(full, range, r, lo, hi)
    ensures |file| == 0 && Rebuilds(u, r, file, 0, 0)
  {
  }

  // ---- Single flight ----

  datatype Flight = Lead(task: nat, key: Key) | End(key: Key)

  /** A lead of `key` that has not ended. */
  ghost predicate OpenAt(log: seq<Flight>, key: Key, i: nat) {
    i < |log| && log[i].Lead? && log[i].key == key && forall j :: i < j < |log| ==> log[j] != End(key)
  }

  ghost predicate InFlight(log: seq<Flight>, key: Key) {
    exists i: nat :: OpenAt(log, key, i)
  }

  ghost predicate EndsBetween(log: seq<Flight>, key: Key, i: nat, j: nat) {
    exists m :: i < m < j < |log| && log[m] == End(key)
  }

  /** Between two leads of one key, the first has ended. */
  ghost predicate SingleFlight(log: seq<Flight>) {
    forall i: nat, j: nat :: i < j < |log| && log[i].Lead? && log[j].Lead? && log[i].key == log[j].key ==>
      EndsBetween(log, log[i].key, i, j)
  }

  lemma LeadKeeps(log: seq<Flight>, task: nat, key: Key)
    requires SingleFlight(log) && !InFlight(log, key)
    ensures SingleFlight(log + [Lead(task, key)]) && InFlight(log + [Lead(task, key)], key)
    ensures forall k :: k != key ==> (InFlight(log + [Lead(task, key)], k) <==> InFlight(log, k))
  {
    var log' := log + [Lead(task, key)];
    assert OpenAt(log', key, |log|);
    forall i: nat, j: nat | i < j < |log'| && log'[i].Lead? && log'[j].Lead? && log'[i].key == log'[j].key
      ensures EndsBetween(log', log'[i].key, i, j)
    {
      if j < |log| {
        assert EndsBetween(log, log[i].key, i, j);
        var m :| i < m < j && log[m] == End(log[i].key);
        assert log'[m] == End(log'[i].key);
      } else {
        assert !OpenAt(log, key, i);
        var m :| i < m < |log| && log[m] == End(key);
        assert log'[m] == End(key);
      }
    }
    forall k | k != key
      ensures InFlight(log', k) <==> InFlight(log, k)
    {
      AppendFlight(log, Lead(task, key), k);
    }
  }

  lemma EndKeeps(log: seq<Flight>, key: Key)
    requires SingleFlight(log)
    ensures SingleFlight(log + [End(key)]) && !InFlight(log + [End(key)], key)
    ensures forall k :: k != key ==> (InFlight(log + [End(key)], k) <==> InFlight(log, k))
  {
    var log' := log + [End(key)];
    forall i: nat
      ensures !OpenAt(log', key, i)
    {
      assert log'[|log|] == End(key);
    }
    forall i: nat, j: nat | i < j < |log'| && log'[i].Lead? && log'[j].Lead? && log'[i].key == log'[j].key
      ensures EndsBetween(log', log'[i].key, i, j)
    {
      assert EndsBetween(log, log[i].key, i, j);
      var m :| i < m < j && log[m] == End(log[i].key);
      assert log'[m] == End(log'[i].key);
    }
    forall k | k != key
      ensures InFlight(log', k) <==> InFlight(log, k)
    {
      AppendFlight(log, End(key), k);
    }
  }

  /** What happens to another key does not matter. */
  lemma AppendFlight(log: seq<Flight>, f: Flight, k: Key)
    requires f.key != k
    ensures InFlight(log + [f], k) <==> InFlight(log, k)
  {
    var log' := log + [f];
    forall i: nat
      ensures OpenAt(log', k, i) <==> OpenAt(log, k, i)
    {
      assert forall j :: 0 <= j < |log| ==> log'[j] == log[j];
    }
  }

  // ---- Making room ----

  type Cache = map<Key, CacheEntry>

  ghost function WithoutRanges(c: Cache): (r: Cache) {
    map k | k in c && k.range.None? :: c[k]
  }

  ghost function WithoutRangesOf(c: Cache, file: FileId): (r: Cache) {
    map k | k in c && (k.file != file || k.range.None?) :: c[k]
  }

  /** `r` is `c` with room for one more entry: untouched, or without its range entries, or, if it holds
      nothing but full plans, without one that was used least recently. */
  ghost predicate MadeRoom(c: Cache, r: Cache) {
    if |c| < MAX_CACHE_ENTRIES then r == c
    else if |WithoutRanges(c)| < MAX_CACHE_ENTRIES then r == WithoutRanges(c)
    else exists v :: Oldest(WithoutRanges(c), v) && r == WithoutRanges(c) - {v}
  }

  /** The room for `key`: a new full plan makes the range entries of its file redundant. */
  ghost predicate MadeRoomFor(c: Cache, key: Key, r: Cache) {
    MadeRoom(if key.range.None? then WithoutRangesOf(c, key.file) else c, r)
  }

  ghost predicate Oldest(c: Cache, v: Key) {
    v in c && forall k :: k in c ==> c[v].lastAccessed <= c[k].lastAccessed
  }

  lemma MapRemoveOne(c: Cache, v: Key)
    requires v in c
    ensures |c - {v}| == |c| - 1
  {
    assert (c - {v}).Keys == c.Keys - {v};
  }

  lemma SubmapSmaller(a: Cache, b: Cache)
    requires a.Keys <= b.Keys
    ensures |a| <= |b|
  {
    var rest := b.Keys - a.Keys;
    assert a.Keys + rest == b.Keys;
  }

  /** What a store leaves beside the new plan: nothing that is new or changed, nothing redundant, and everything else
      below the limit. */
  lemma StoreKeeps(c: Cache, key: Key, r: Cache, e: CacheEntry)
    requires MadeRoomFor(c, key, r)
    ensures var c' := r[key := e];
            && (forall k :: k in c' && k != key ==> k in c && c'[k] == c[k])
            && (key.range.None? ==> forall k :: k in c' && k.file == key.file ==> k == key)
            && (|c| < MAX_CACHE_ENTRIES ==>
                  forall k :: k in c && (key.range.Some? || k.file != key.file || k.range.None?) ==> k in c')
  {
    if key.range.None? {
      SubmapSmaller(WithoutRangesOf(c, key.file), c);
    }
  }

  /** What a store may drop.  A full plan other than the stored one goes only when the range entries
      have all gone, and then it is the only full plan to go. */
  lemma FullPlansLast(c: Cache, r: Cache, k: Key)
    requires MadeRoom(c, r) && k in c && k.range.None? && k !in r
    ensures |WithoutRanges(c)| >= MAX_CACHE_ENTRIES
    ensures forall j :: j in r ==> j.range.None?
    ensures forall j :: j in c && j.range.None? && j != k ==> j in r
    ensures forall j :: j in c && j.range.None? ==> c[k].lastAccessed <= c[j].lastAccessed
  {
    var v :| Oldest(WithoutRanges(c), v) && r == WithoutRanges(c) - {v};
    assert k in WithoutRanges(c) && k == v;
  }

  method RetainFull(c: Cache) returns (r: Cache)
    ensures r == WithoutRanges(c)
  {
    r := map k | k in c && k.range.None? :: c[k];
  }

  /** A key with the least access time. */
  method FindOldest(c: Cache) returns (v: Key)
    requires |c| > 0
    ensures Oldest(c, v)
  {
    var todo := c.Keys;
    assert todo != {};
    v :| v in todo;
    todo := todo - {v};
    while todo != {}
      invariant todo <= c.Keys && v in c
      invariant forall k :: k in c && k !in todo ==> c[v].lastAccessed <= c[k].lastAccessed
    {
      var k :| k in todo;
      if c[k].lastAccessed < c[v].lastAccessed {
        v := k;
      }
      todo := todo - {k};
    }
  }

  class CachedXetClient {
    ghost const backend: Backend
    const ttl: nat
    var cache: Cache
    /** The keys that some caller is fetching. */
    var inflight: set<Key>
    /** Who began to lead a fetch and who ended it, in order. */
    ghost var log: seq<Flight>

    ghost predicate Valid()
      reads this
    {
      && |cache| <= MAX_CACHE_ENTRIES
      && (forall k :: k in cache ==> Good(backend, k, cache[k].response))
      && SingleFlight(log) && (forall k :: k in inflight <==> InFlight(log, k))
    }

    constructor (ghost backend: Backend, ttl: nat)
      ensures Valid() && this.backend == backend && cache == map[] && log == []
    {
      this.backend := backend;
      this.ttl := ttl;
      cache := map[];
      inflight := {};
      log := [];
    }

    /** A valid entry is touched, an expired one is dropped. */
    method TryGet(key: Key, now: Instant) returns (r: Option<Response>)
      requires Valid()
      modifies this`cache
      ensures Valid()
      ensures r.Some? ==> Good(backend, key, r.value)
      ensures r.Some? <==> key in old(cache) && now < old(cache)[key].inserted + ttl
      ensures r.Some? ==> r.value == old(cache)[key].response
      ensures cache == if key !in old(cache) then old(cache)
                       else if r.Some? then old(cache)[key := old(cache)[key].(lastAccessed := now)]
                       else old(cache) - {key}
    {
      if key !in cache {
        return None;
      }
      var entry := cache[key];
      if now < entry.inserted + ttl {
        SubmapSmaller(cache[key := entry.(lastAccessed := now)], cache);
        cache := cache[key := entry.(lastAccessed := now)];
        return Some(entry.response);
      }
      SubmapSmaller(cache - {key}, cache);
      cache := cache - {key};
      return None;
    }

    /** The cache check: the exact plan, or one derived from the full plan.  Whatever it answers is
        right, and it says that the range lies past the end exactly when it does. */
    method Check(file: FileId, range: Option<FileRange>, now: Instant) returns (r: Lookup)
      requires Valid()
      modifies this`cache
      ensures Valid()
      ensures r.Hit? && (range.Some? ==> range.value.start < range.value.end) ==> Good(backend, Key(file, range), r.response)
      ensures r.PastEnd? && range.Some? && range.value.start < range.value.end ==>
                file in backend.files && range.value.start >= |backend.files[file]|
      ensures r.PastEnd? ==> range.Some?
      ensures range.Some? && range.value.start < range.value.end && !Fresh(old(cache), Key(file, range), now)
              && Fresh(old(cache), Key(file, None), now) ==>
                && file in backend.files
                && (r.PastEnd? <==> PastEof(backend, file, range.value, old(cache)[Key(file, None)].response))
      ensures Key(file, range) in old(cache) && now < old(cache)[Key(file, range)].inserted + ttl ==>
                r == Hit(old(cache)[Key(file, range)].response)
      ensures !(Key(file, range) in old(cache) && now < old(cache)[Key(file, range)].inserted + ttl) && range.Some? && r.Hit? ==>
                && Key(file, None) in old(cache)
                && exists lo, hi :: CutTo(old(cache)[Key(file, None)].response, range.value, r.response, lo, hi)
      ensures r.Miss? <==> !(Fresh(old(cache), Key(file, range), now) || Fresh(old(cache), Key(file, None), now))
    {
      var exact := TryGet(Key(file, range), now);
      if exact.Some? {
        return Hit(exact.value);
      }
      if range.None? {
        return Miss;
      }
      var full := TryGet(Key(file, None), now);
      if full.None? {
        return Miss;
      }
      var derived := DeriveRangeResponse(full.value, range.value);
      ghost var lo, hi :| CutTo(full.value, range.value, derived, lo, hi);
      if range.value.start < range.value.end {
        DerivedGood(backend, file, range.value, full.value, derived, lo, hi);
      }
      if derived.terms == [] && (full.value.terms != [] || range.value.start > 0) {
        return PastEnd;
      }
      return Hit(derived);
    }

    ghost predicate Fresh(c: Cache, key: Key, now: Instant)
    {
      key in c && now < c[key].inserted + ttl
    }

    /** The caller leads the fetch exactly when nobody does; otherwise the fetch it waits for is still under way.
        As long as the log is kept so, no key is ever fetched by two callers at a time. */
    method LeadOrWait(key: Key, ghost task: nat) returns (lead: bool)
      requires Valid()
      modifies this`inflight, this`log
      ensures Valid() && InFlight(log, key)
      ensures log == if lead then old(log) + [Lead(task, key)] else old(log)
      ensures lead <==> !InFlight(old(log), key)
    {
      lead := key !in inflight;
      if lead {
        LeadKeeps(log, task, key);
        log := log + [Lead(task, key)];
        inflight := inflight + {key};
      }
    }

    /** The leader's answer from the backend: a plan is stored, and in any case the fetch ends. */
    method FinishFetch(key: Key, answer: Option<Response>, now: Instant)
      requires Valid() && InFlight(log, key) && (answer.Some? ==> Good(backend, key, answer.value))
      modifies this
      ensures Valid() && log == old(log) + [End(key)] && !InFlight(log, key)
      ensures answer.None? ==> cache == old(cache)
      ensures answer.Some? ==>
                && key in cache && cache[key].response == answer.value
                && exists r :: MadeRoomFor(old(cache), key, r) && cache == r[key := CacheEntry(answer.value, now, now)]
    {
      if answer.Some? {
        Store(key, answer.value, now);
      }
      EndKeeps(log, key);
      log := log + [End(key)];
      inflight := inflight - {key};
    }

    /** Stores a plan, making room first. */
    method Store(key: Key, response: Response, now: Instant)
      requires Valid() && Good(backend, key, response)
      modifies this`cache
      ensures Valid()
      ensures key in cache && cache[key] == CacheEntry(response, now, now)
      ensures exists r :: MadeRoomFor(old(cache), key, r) && cache == r[key := CacheEntry(response, now, now)]
      ensures forall k :: k in cache && k != key ==> k in old(cache) && cache[k] == old(cache)[k]
      ensures key.range.None? ==> forall k :: k in cache && k.file == key.file ==> k == key
      ensures |old(cache)| < MAX_CACHE_ENTRIES ==>
                forall k :: k in old(cache) && (key.range.Some? || k.file != key.file || k.range.None?) ==> k in cache
    {
      if key.range.None? {
        ghost var before := cache;
        cache := map k | k in cache && (k.file != key.file || k.range.None?) :: cache[k];
        SubmapSmaller(cache, before);
      }
      ghost var kept := cache;
      MakeRoom();
      ghost var room := cache;
      cache := cache[key := CacheEntry(response, now, now)];
      AddOne(room, key, cache[key]);
      assert MadeRoomFor(old(cache), key, room);
      StoreKeeps(old(cache), key, room, cache[key]);
    }

    method MakeRoom()
      requires Valid()
      modifies this`cache
      ensures MadeRoom(old(cache), cache) && |cache| < MAX_CACHE_ENTRIES
      ensures forall k :: k in cache ==> k in old(cache) && cache[k] == old(cache)[k]
    {
      if |cache| >= MAX_CACHE_ENTRIES {
        ghost var before := cache;
        cache := RetainFull(cache);
        SubmapSmaller(cache, before);
        if |cache| >= MAX_CACHE_ENTRIES {
          var victim := FindOldest(cache);
          MapRemoveOne(cache, victim);
          cache := cache - {victim};
        }
      }
    }
  }

  lemma AddOne(c: Cache, key: Key, e: CacheEntry)
    ensures |c[key := e]| <= |c| + 1
  {
    assert c[key := e].Keys == c.Keys + {key};
  }
}
