/** Ranged reads of encrypted files (src/encryption/content.rs, src/virtual_fs/mod.rs).

    A container is a 6-byte file header, a 64-byte random-access header and fixed-size chunk slots.
    A read fetches the random-access header and the slots that its byte range meets, and decrypts
    those.  The decryption of a slot and the plaintext size in the header are parameters. */
module Content {
  import opened Prelude
  import opened Bits

  type Bytes = seq<Byte>

  const HFEB_HEADER_LEN: nat := 6
  const RAF_HEADER_LEN: nat := 64
  const RAF_CHUNK_SIZE: nat := 65536
  const RAF_CHUNK_RECORD: nat := 65568
  const CONTAINER_HEADER_LEN: nat := HFEB_HEADER_LEN + RAF_HEADER_LEN
  const U64_MAX: nat := 0xFFFF_FFFF_FFFF_FFFF

  type U64 = x: nat | x <= U64_MAX

  // ---- Sizes ----

  function ChunksFor(plaintext: nat): (n: nat) {
    (plaintext + RAF_CHUNK_SIZE - 1) / RAF_CHUNK_SIZE
  }

  function CiphertextSize(plaintext: nat): (n: nat) {
    CONTAINER_HEADER_LEN + ChunksFor(plaintext) * RAF_CHUNK_RECORD
  }

  function ContainerChunkCount(ciphertext: nat): (r: Option<nat>) {
    if ciphertext < CONTAINER_HEADER_LEN then None
    else if (ciphertext - CONTAINER_HEADER_LEN) % RAF_CHUNK_RECORD == 0
    then Some((ciphertext - CONTAINER_HEADER_LEN) / RAF_CHUNK_RECORD)
    else None
  }

  /** The sizes of containers are exactly the valid sizes, and a valid size tells the number of chunks:
      the plaintext fills all but the last of them, and reaches into that one. */
  lemma ChunkCountIff(ciphertext: nat, n: nat)
    ensures ContainerChunkCount(ciphertext) == Some(n) <==> ciphertext == CONTAINER_HEADER_LEN + n * RAF_CHUNK_RECORD
  {
  }

  lemma SizeTellsChunks(plaintext: nat)
    ensures ContainerChunkCount(CiphertextSize(plaintext)) == Some(ChunksFor(plaintext))
    ensures var n := ChunksFor(plaintext);
            plaintext <= n * RAF_CHUNK_SIZE && (n > 0 ==> (n - 1) * RAF_CHUNK_SIZE < plaintext)
  {
    ChunkCountIff(CiphertextSize(plaintext), ChunksFor(plaintext));
  }

  // ---- Plans ----

  datatype Range = Range(start: nat, end: nat)
  datatype ReadPlan = ReadPlan(headerObject: Range, slotsObject: Range, slotBaseRaf: nat, rafSize: nat)

  function SaturatingAdd(a: U64, b: U64): (r: U64) {
    if a + b <= U64_MAX then a + b else U64_MAX
  }

  function PlanRead(objectSize: U64, off: U64, len: U64): (r: Option<ReadPlan>) {
    match ContainerChunkCount(objectSize)
    case None => None
    case Some(chunks) =>
      var rafSize := objectSize - HFEB_HEADER_LEN;
      var header := Range(HFEB_HEADER_LEN, HFEB_HEADER_LEN + RAF_HEADER_LEN);
      var first := off / RAF_CHUNK_SIZE;
      var end := SaturatingAdd(off, len);
      if len == 0 || chunks == 0 || first >= chunks then Some(ReadPlan(header, Range(0, 0), RAF_HEADER_LEN, rafSize))
      else
        var last := if (end - 1) / RAF_CHUNK_SIZE < chunks - 1 then (end - 1) / RAF_CHUNK_SIZE else chunks - 1;
        var base := RAF_HEADER_LEN + first * RAF_CHUNK_RECORD;
        var slotEnd := RAF_HEADER_LEN + (last + 1) * RAF_CHUNK_RECORD;
        Some(ReadPlan(header, Range(HFEB_HEADER_LEN + base, HFEB_HEADER_LEN + slotEnd), base, rafSize))
  }

  /** Slot `i` holds a byte of the read. */
  predicate Meets(off: nat, len: nat, i: nat) {
    i * RAF_CHUNK_SIZE < off + len && off < (i + 1) * RAF_CHUNK_SIZE && len > 0
  }

  /** Where slot `i` lies, in the container without its file header. */
  function SlotAt(i: nat): (n: nat) {
    RAF_HEADER_LEN + i * RAF_CHUNK_RECORD
  }

  predicate SlotPlanned(plan: ReadPlan, i: nat) {
    plan.slotsObject.start <= HFEB_HEADER_LEN + SlotAt(i) && HFEB_HEADER_LEN + SlotAt(i + 1) <= plan.slotsObject.end
  }

  /** A plan is a whole number of slots inside the object, at the place that it says. */
  ghost predicate PlanOk(plan: ReadPlan, objectSize: nat, first: nat, count: nat) {
    && plan.headerObject == Range(HFEB_HEADER_LEN, CONTAINER_HEADER_LEN) && CONTAINER_HEADER_LEN <= objectSize
    && plan.rafSize == objectSize - HFEB_HEADER_LEN
    && (count > 0 ==>
          && plan.slotBaseRaf == SlotAt(first)
          && plan.slotsObject == Range(HFEB_HEADER_LEN + SlotAt(first), HFEB_HEADER_LEN + SlotAt(first + count))
          && plan.slotsObject.end <= objectSize)
    && (count == 0 ==> plan.slotsObject == Range(0, 0) && plan.slotBaseRaf == RAF_HEADER_LEN)
  }

  lemma SlotsOrdered(i: nat, j: nat)
    ensures SlotAt(i) <= SlotAt(j) <==> i <= j
  {
  }

  /** The number of slots of a plan. */
  ghost function PlanCount(chunks: nat, off: nat, len: nat): (n: nat) {
    var first := off / RAF_CHUNK_SIZE;
    if len == 0 || first >= chunks then 0
    else
      var last := (off + len - 1) / RAF_CHUNK_SIZE;
      (if last < chunks - 1 then last else chunks - 1) + 1 - first
  }

  lemma PlanShape(objectSize: U64, chunks: nat, off: U64, len: U64)
    requires ContainerChunkCount(objectSize) == Some(chunks)
    ensures var plan := PlanRead(objectSize, off, len).value;
            && PlanRead(objectSize, off, len).Some?
            && PlanOk(plan, objectSize, off / RAF_CHUNK_SIZE, PlanCount(chunks, off, len))
  {
    ChunkCountIff(objectSize, chunks);
    assert chunks * RAF_CHUNK_RECORD <= U64_MAX;
  }

  /** A plan exists exactly for valid container sizes.  It lies inside the object, is a whole number of
      slots, and holds exactly the slots of the object that the read meets. */
  lemma PlanExact(objectSize: U64, off: U64, len: U64, i: nat)
    ensures PlanRead(objectSize, off, len).Some? <==> ContainerChunkCount(objectSize).Some?
    ensures PlanRead(objectSize, off, len).Some? ==>
              var plan := PlanRead(objectSize, off, len).value;
              && plan.slotsObject.end <= objectSize
              && (plan.slotsObject.end - plan.slotsObject.start) % RAF_CHUNK_RECORD == 0
              && (SlotPlanned(plan, i) <==> i < ContainerChunkCount(objectSize).value && Meets(off, len, i))
  {
    match ContainerChunkCount(objectSize)
    case None =>
    case Some(chunks) =>
      PlanShape(objectSize, chunks, off, len);
      PlannedIff(objectSize, chunks, off, len, i);
  }

  lemma PlannedIff(objectSize: U64, chunks: nat, off: U64, len: U64, i: nat)
    requires ContainerChunkCount(objectSize) == Some(chunks) && PlanRead(objectSize, off, len).Some?
    requires PlanOk(PlanRead(objectSize, off, len).value, objectSize, off / RAF_CHUNK_SIZE, PlanCount(chunks, off, len))
    ensures SlotPlanned(PlanRead(objectSize, off, len).value, i) <==> i < chunks && Meets(off, len, i)
  {
    var first, count := off / RAF_CHUNK_SIZE, PlanCount(chunks, off, len);
    if count > 0 {
      SlotsOrdered(first, i);
      SlotsOrdered(i + 1, first + count);
    }
  }

  // ---- Reading a container ----

  /** `io(offset, len)`: the bytes at a place of the container, if they can be had. */
  type Io = (nat, nat) -> Option<Bytes>

  function FullIo(raf: Bytes): (io: Io) {
    (offset: nat, len: nat) => if offset + len <= |raf| then Some(raf[offset..offset + len]) else None
  }

  /** What `ReadIo` answers from a cached header and one fetched slice. */
  function RangedIo(header: Bytes, slotBase: nat, slots: Bytes): (io: Io) {
    (offset: nat, len: nat) =>
      if offset + len > U64_MAX then None
      else if offset + len <= |header| then Some(header[offset..offset + len])
      else if offset >= slotBase && offset + len <= slotBase + |slots|
      then Some(slots[offset - slotBase..offset - slotBase + len])
      else None
  }

  class ReadIo {
    const rafSize: nat
    const header: Bytes
    const slotBase: nat
    const slots: Bytes

    constructor (rafSize: nat, header: Bytes, slotBase: nat, slots: Bytes)
      ensures this.rafSize == rafSize && this.header == header && this.slotBase == slotBase && this.slots == slots
    {
      this.rafSize := rafSize;
      this.header := header;
      this.slotBase := slotBase;
      this.slots := slots;
    }

    /** Fills `buf` from the header or from the slice; a read that neither holds changes nothing. */
    method ReadAt(buf: array<Byte>, offset: U64) returns (ok: bool)
      modifies buf
      ensures match RangedIo(header, slotBase, slots)(offset, buf.Length)
              case Some(bytes) => ok && buf[..] == bytes
              case None => !ok && buf[..] == old(buf[..])
    {
      var end := offset + buf.Length;
      if end > U64_MAX {
        return false;
      }
      if end <= |header| {
        CopyFrom(buf, header, offset);
        ok := true;
      } else if offset >= slotBase && end <= slotBase + |slots| {
        CopyFrom(buf, slots, offset - slotBase);
        ok := true;
      } else {
        ok := false;
      }
    }

    method CopyFrom(buf: array<Byte>, src: Bytes, start: nat)
      requires start + buf.Length <= |src|
      modifies buf
      ensures buf[..] == src[start..start + buf.Length]
    {
      for i := 0 to buf.Length
        invariant forall k :: 0 <= k < i ==> buf[k] == src[start + k]
      {
        buf[i] := src[start + i];
      }
    }
  }

  /** The random-access format: the plaintext size in a header, and the decryption of slot `i`. */
  datatype Raf = Raf(plainSize: Bytes -> Option<nat>, slot: (Bytes, nat, Bytes) -> Option<Bytes>) {
    ghost predicate Valid() {
      forall h, i, b :: slot(h, i, b).Some? ==> |slot(h, i, b).value| == RAF_CHUNK_SIZE
    }
  }

  /** The plaintext of `n` slots from slot `i`. */
  function DecryptSlots(raf: Raf, io: Io, header: Bytes, i: nat, n: nat): (r: Option<Bytes>)
    decreases n
  {
    if n == 0 then Some([])
    else
      match io(SlotAt(i), RAF_CHUNK_RECORD)
      case None => None
      case Some(cipher) =>
        match raf.slot(header, i, cipher)
        case None => None
        case Some(plain) =>
          match DecryptSlots(raf, io, header, i + 1, n - 1)
          case None => None
          case Some(rest) => Some(plain + rest)
  }

  lemma {:induction false} DecryptedLen(raf: Raf, io: Io, header: Bytes, i: nat, n: nat)
    requires raf.Valid()
    ensures DecryptSlots(raf, io, header, i, n).Some? ==>
              |DecryptSlots(raf, io, header, i, n).value| == n * RAF_CHUNK_SIZE
    decreases n
  {
    if n > 0 {
      DecryptedLen(raf, io, header, i + 1, n - 1);
    }
  }

  /** The end of what a read of `len` bytes at `off` gets from a file of `size` bytes. */
  function ReadEnd(off: nat, len: nat, size: nat): (e: nat) {
    if off + len <= size then off + len else size
  }

  /** A plaintext read through `io`: header, covering slots, decryption, the wanted slice. */
  function RafRead(raf: Raf, io: Io, off: nat, len: nat): (r: Option<Bytes>)
    requires raf.Valid()
  {
    match io(0, RAF_HEADER_LEN)
    case None => None
    case Some(header) =>
      match raf.plainSize(header)
      case None => None
      case Some(size) =>
        var end := ReadEnd(off, len, size);
        if off >= end then Some([])
        else
          var first := off / RAF_CHUNK_SIZE;
          var n := (end - 1) / RAF_CHUNK_SIZE + 1 - first;
          DecryptedLen(raf, io, header, first, n);
          match DecryptSlots(raf, io, header, first, n)
          case None => None
          case Some(plain) => Some(plain[off - first * RAF_CHUNK_SIZE..end - first * RAF_CHUNK_SIZE])
  }

  lemma {:induction false} SlotsSame(raf: Raf, a: Io, b: Io, header: Bytes, i: nat, n: nat)
    requires forall k :: i <= k < i + n ==> a(SlotAt(k), RAF_CHUNK_RECORD) == b(SlotAt(k), RAF_CHUNK_RECORD)
    ensures DecryptSlots(raf, a, header, i, n) == DecryptSlots(raf, b, header, i, n)
    decreases n
  {
    if n > 0 {
      assert a(SlotAt(i), RAF_CHUNK_RECORD) == b(SlotAt(i), RAF_CHUNK_RECORD);
      SlotsSame(raf, a, b, header, i + 1, n - 1);
    }
  }

  /** The bytes that a plan makes the client fetch. */
  ghost function Fetched(blob: Bytes, r: Range): (b: Bytes)
    requires r.start <= r.end <= |blob|
  {
    blob[r.start..r.end]
  }

  ghost predicate SlotSame(blob: Bytes, plan: ReadPlan, i: nat)
    requires CONTAINER_HEADER_LEN <= |blob| && plan.slotsObject.start <= plan.slotsObject.end <= |blob|
  {
    var header := blob[HFEB_HEADER_LEN..CONTAINER_HEADER_LEN];
    RangedIo(header, plan.slotBaseRaf, Fetched(blob, plan.slotsObject))(SlotAt(i), RAF_CHUNK_RECORD)
    == FullIo(blob[HFEB_HEADER_LEN..])(SlotAt(i), RAF_CHUNK_RECORD)
  }

  /** On every slot that the read meets, the fetched slice answers as the whole container does. */
  lemma SlotAnswers(blob: Bytes, chunks: nat, off: U64, len: U64, plan: ReadPlan, i: nat)
    requires |blob| <= U64_MAX && ContainerChunkCount(|blob|) == Some(chunks)
    requires PlanRead(|blob|, off, len) == Some(plan) && plan.slotsObject.start <= plan.slotsObject.end <= |blob|
    requires Meets(off, len, i)
    ensures SlotSame(blob, plan, i)
  {
    ChunkCountIff(|blob|, chunks);
    PlanShape(|blob|, chunks, off, len);
    PlannedIff(|blob|, chunks, off, len, i);
    SlotSlice(blob, chunks, off / RAF_CHUNK_SIZE, PlanCount(chunks, off, len), plan, i);
  }

  lemma SlotSlice(blob: Bytes, chunks: nat, first: nat, count: nat, plan: ReadPlan, i: nat)
    requires |blob| <= U64_MAX && |blob| == HFEB_HEADER_LEN + SlotAt(chunks)
    requires PlanOk(plan, |blob|, first, count) && first <= i && first + count <= (if count > 0 then chunks else first)
    requires i < chunks <==> SlotPlanned(plan, i)
    ensures plan.slotsObject.start <= plan.slotsObject.end <= |blob|
    ensures SlotSame(blob, plan, i)
  {
    var at := SlotAt(i);
    SlotsOrdered(i + 1, chunks);
    if i < chunks {
      var base := plan.slotBaseRaf;
      SlotsOrdered(first, i);
      SlotsOrdered(i + 1, first + count);
      SubSlice(blob, plan.slotsObject.start, plan.slotsObject.end, at - base, RAF_CHUNK_RECORD);
      SubSlice(blob, HFEB_HEADER_LEN, |blob|, at, RAF_CHUNK_RECORD);
    } else {
      SlotsOrdered(first + count, i);
    }
  }

  lemma SubSlice(s: Bytes, a: nat, b: nat, at: nat, len: nat)
    requires a <= b <= |s| && at + len <= b - a
    ensures s[a..b][at..at + len] == s[a + at..a + at + len]
    ensures b == |s| ==> s[a..][at..at + len] == s[a + at..a + at + len]
  {
    var x, y := s[a..b][at..at + len], s[a + at..a + at + len];
    assert forall k :: 0 <= k < len ==> x[k] == y[k];
    assert s[a..|s|] == s[a..];
  }

  /** Ranged decryption is whole-file decryption: for every container, offset and length. */
  lemma RangedReadAgrees(raf: Raf, blob: Bytes, off: U64, len: U64)
    requires raf.Valid() && |blob| <= U64_MAX && ContainerChunkCount(|blob|).Some?
    ensures var plan := PlanRead(|blob|, off, len).value;
            && PlanRead(|blob|, off, len).Some?
            && plan.slotsObject.start <= plan.slotsObject.end <= |blob|
            && RafRead(raf, RangedIo(Fetched(blob, Range(HFEB_HEADER_LEN, CONTAINER_HEADER_LEN)), plan.slotBaseRaf,
                                     Fetched(blob, plan.slotsObject)), off, len)
            == RafRead(raf, FullIo(blob[HFEB_HEADER_LEN..]), off, len)
  {
    var chunks := ContainerChunkCount(|blob|).value;
    PlanShape(|blob|, chunks, off, len);
    var plan := PlanRead(|blob|, off, len).value;
    PlanExact(|blob|, off, len, 0);
    var header := Fetched(blob, Range(HFEB_HEADER_LEN, CONTAINER_HEADER_LEN));
    var a := RangedIo(header, plan.slotBaseRaf, Fetched(blob, plan.slotsObject));
    var b := FullIo(blob[HFEB_HEADER_LEN..]);
    HeaderSame(blob, a, b, header, plan);
    forall k: nat | Meets(off, len, k)
      ensures a(SlotAt(k), RAF_CHUNK_RECORD) == b(SlotAt(k), RAF_CHUNK_RECORD)
    {
      SlotAnswers(blob, chunks, off, len, plan, k);
      assert SlotSame(blob, plan, k);
    }
    ReadSame(raf, a, b, header, off, len);
  }

  /** A read asks for the header and for the slots that it meets, and for nothing else. */
  lemma ReadSame(raf: Raf, a: Io, b: Io, header: Bytes, off: nat, len: nat)
    requires raf.Valid() && a(0, RAF_HEADER_LEN) == Some(header) == b(0, RAF_HEADER_LEN)
    requires forall k: nat :: Meets(off, len, k) ==> a(SlotAt(k), RAF_CHUNK_RECORD) == b(SlotAt(k), RAF_CHUNK_RECORD)
    ensures RafRead(raf, a, off, len) == RafRead(raf, b, off, len)
  {
    if raf.plainSize(header).Some? {
      var end := ReadEnd(off, len, raf.plainSize(header).value);
      if off < end {
        var first := off / RAF_CHUNK_SIZE;
        var n := (end - 1) / RAF_CHUNK_SIZE + 1 - first;
        assert forall k: nat :: first <= k < first + n ==> Meets(off, len, k);
        SlotsSame(raf, a, b, header, first, n);
      }
    }
  }

  lemma HeaderSame(blob: Bytes, a: Io, b: Io, header: Bytes, plan: ReadPlan)
    requires CONTAINER_HEADER_LEN <= |blob| && header == blob[HFEB_HEADER_LEN..CONTAINER_HEADER_LEN]
    requires plan.slotsObject.start <= plan.slotsObject.end <= |blob|
    requires a == RangedIo(header, plan.slotBaseRaf, Fetched(blob, plan.slotsObject))
    requires b == FullIo(blob[HFEB_HEADER_LEN..])
    ensures a(0, RAF_HEADER_LEN) == Some(header) == b(0, RAF_HEADER_LEN)
  {
    assert header[0..RAF_HEADER_LEN] == header;
    assert blob[HFEB_HEADER_LEN..][0..RAF_HEADER_LEN] == header;
  }

  // ---- What a read returns ----

  /** The stored bytes of slot `i`. */
  function SlotBytes(blob: Bytes, i: nat): (b: Bytes)
    requires CONTAINER_HEADER_LEN + (i + 1) * RAF_CHUNK_RECORD <= |blob|
  {
    blob[CONTAINER_HEADER_LEN + i * RAF_CHUNK_RECORD..CONTAINER_HEADER_LEN + (i + 1) * RAF_CHUNK_RECORD]
  }

  /** The container has no slot `i`, or does not decrypt it. */
  ghost predicate SlotFails(raf: Raf, blob: Bytes, i: nat)
    requires CONTAINER_HEADER_LEN <= |blob|
  {
    || CONTAINER_HEADER_LEN + (i + 1) * RAF_CHUNK_RECORD > |blob|
    || raf.slot(blob[HFEB_HEADER_LEN..CONTAINER_HEADER_LEN], i, SlotBytes(blob, i)).None?
  }

  /** The slots of the container decrypt to `p`, in order. */
  ghost predicate DecryptsTo(raf: Raf, blob: Bytes, p: Bytes)
    requires CONTAINER_HEADER_LEN <= |blob|
  {
    && |blob| == CONTAINER_HEADER_LEN + |p| / RAF_CHUNK_SIZE * RAF_CHUNK_RECORD && |p| % RAF_CHUNK_SIZE == 0
    && forall i: nat :: i < |p| / RAF_CHUNK_SIZE ==> SlotIs(raf, blob, i, p)
  }

  ghost predicate SlotIs(raf: Raf, blob: Bytes, i: nat, p: Bytes)
    requires CONTAINER_HEADER_LEN <= |blob|
  {
    && CONTAINER_HEADER_LEN + (i + 1) * RAF_CHUNK_RECORD <= |blob| && (i + 1) * RAF_CHUNK_SIZE <= |p|
    && raf.slot(blob[HFEB_HEADER_LEN..CONTAINER_HEADER_LEN], i, SlotBytes(blob, i))
       == Some(p[i * RAF_CHUNK_SIZE..(i + 1) * RAF_CHUNK_SIZE])
  }

  function Min(a: nat, b: nat): (m: nat) {
    if a <= b then a else b
  }

  /** A whole-container read of slot `i` gives its stored bytes. */
  lemma FullSlot(blob: Bytes, i: nat)
    requires CONTAINER_HEADER_LEN <= |blob|
    ensures FullIo(blob[HFEB_HEADER_LEN..])(SlotAt(i), RAF_CHUNK_RECORD) ==
            if CONTAINER_HEADER_LEN + (i + 1) * RAF_CHUNK_RECORD <= |blob| then Some(SlotBytes(blob, i)) else None
  {
    if CONTAINER_HEADER_LEN + (i + 1) * RAF_CHUNK_RECORD <= |blob| {
      SubSlice(blob, HFEB_HEADER_LEN, |blob|, SlotAt(i), RAF_CHUNK_RECORD);
    }
  }

  lemma FullHeader(blob: Bytes)
    requires CONTAINER_HEADER_LEN <= |blob|
    ensures FullIo(blob[HFEB_HEADER_LEN..])(0, RAF_HEADER_LEN) == Some(blob[HFEB_HEADER_LEN..CONTAINER_HEADER_LEN])
  {
    assert blob[HFEB_HEADER_LEN..][0..RAF_HEADER_LEN] == blob[HFEB_HEADER_LEN..CONTAINER_HEADER_LEN];
  }

  lemma {:induction false} SlotsAre(raf: Raf, blob: Bytes, p: Bytes, i: nat, n: nat)
    requires CONTAINER_HEADER_LEN <= |blob| && DecryptsTo(raf, blob, p) && (i + n) * RAF_CHUNK_SIZE <= |p|
    ensures i * RAF_CHUNK_SIZE <= (i + n) * RAF_CHUNK_SIZE
    ensures DecryptSlots(raf, FullIo(blob[HFEB_HEADER_LEN..]), blob[HFEB_HEADER_LEN..CONTAINER_HEADER_LEN], i, n)
            == Some(p[i * RAF_CHUNK_SIZE..(i + n) * RAF_CHUNK_SIZE])
    decreases n
  {
    var a, c := i * RAF_CHUNK_SIZE, (i + n) * RAF_CHUNK_SIZE;
    if n == 0 {
      assert p[a..c] == [];
    } else {
      var b := (i + 1) * RAF_CHUNK_SIZE;
      assert SlotIs(raf, blob, i, p);
      FullSlot(blob, i);
      SlotsAre(raf, blob, p, i + 1, n - 1);
      assert i + 1 + (n - 1) == i + n;
      assert p[a..b] + p[b..c] == p[a..c];
    }
  }

  lemma {:induction false} SlotsFail(raf: Raf, blob: Bytes, i: nat, n: nat)
    requires CONTAINER_HEADER_LEN <= |blob|
    ensures DecryptSlots(raf, FullIo(blob[HFEB_HEADER_LEN..]), blob[HFEB_HEADER_LEN..CONTAINER_HEADER_LEN], i, n).None?
       <==> exists j :: i <= j < i + n && SlotFails(raf, blob, j)
    decreases n
  {
    if n > 0 {
      FullSlot(blob, i);
      SlotsFail(raf, blob, i + 1, n - 1);
      assert (exists j :: i <= j < i + n && SlotFails(raf, blob, j))
        <==> SlotFails(raf, blob, i) || exists j :: i + 1 <= j < i + 1 + (n - 1) && SlotFails(raf, blob, j);
    }
  }

  /** Reading a container whose slots decrypt to `p` returns the bytes of `p` that the range and the file's size leave. */
  lemma ReadMeans(raf: Raf, blob: Bytes, p: Bytes, size: nat, off: nat, len: nat)
    requires raf.Valid() && CONTAINER_HEADER_LEN <= |blob| && DecryptsTo(raf, blob, p) && size <= |p|
    requires raf.plainSize(blob[HFEB_HEADER_LEN..CONTAINER_HEADER_LEN]) == Some(size)
    ensures RafRead(raf, FullIo(blob[HFEB_HEADER_LEN..]), off, len) == Some(p[Min(off, size)..Min(off + len, size)])
  {
    FullHeader(blob);
    var end := Min(off + len, size);
    if off < end {
      var first := off / RAF_CHUNK_SIZE;
      var n := (end - 1) / RAF_CHUNK_SIZE + 1 - first;
      SlotsAre(raf, blob, p, first, n);
      var a, b := first * RAF_CHUNK_SIZE, (first + n) * RAF_CHUNK_SIZE;
      SubSlice(p, a, b, off - a, end - off);
    } else {
      assert p[Min(off, size)..end] == [];
    }
  }

  /** It fails exactly when the header does, or a slot with a byte of the range. */
  lemma ReadFailsIff(raf: Raf, blob: Bytes, off: nat, len: nat)
    requires raf.Valid() && CONTAINER_HEADER_LEN <= |blob|
    ensures RafRead(raf, FullIo(blob[HFEB_HEADER_LEN..]), off, len).None? <==> ReadFails(raf, blob, off, len)
  {
    FullHeader(blob);
    var header := blob[HFEB_HEADER_LEN..CONTAINER_HEADER_LEN];
    if raf.plainSize(header).Some? {
      var end := Min(off + len, raf.plainSize(header).value);
      if off < end {
        var first := off / RAF_CHUNK_SIZE;
        var n := (end - 1) / RAF_CHUNK_SIZE + 1 - first;
        SlotsFail(raf, blob, first, n);
        DecryptedLen(raf, FullIo(blob[HFEB_HEADER_LEN..]), header, first, n);
        forall j: nat
          ensures first <= j < first + n <==> j * RAF_CHUNK_SIZE < end && off < (j + 1) * RAF_CHUNK_SIZE
        {
        }
      }
    }
  }

  lemma ReadsRight(raf: Raf, blob: Bytes, off: nat, len: nat)
    requires raf.Valid() && CONTAINER_HEADER_LEN <= |blob|
    ensures forall p, s :: DecryptsTo(raf, blob, p) && s <= |p|
                           && raf.plainSize(blob[HFEB_HEADER_LEN..CONTAINER_HEADER_LEN]) == Some(s) ==>
              RafRead(raf, FullIo(blob[HFEB_HEADER_LEN..]), off, len) == Some(p[Min(off, s)..Min(off + len, s)])
  {
    forall p, s | DecryptsTo(raf, blob, p) && s <= |p|
                  && raf.plainSize(blob[HFEB_HEADER_LEN..CONTAINER_HEADER_LEN]) == Some(s)
      ensures RafRead(raf, FullIo(blob[HFEB_HEADER_LEN..]), off, len) == Some(p[Min(off, s)..Min(off + len, s)])
    {
      ReadMeans(raf, blob, p, s, off, len);
    }
  }

  ghost predicate ReadFails(raf: Raf, blob: Bytes, off: nat, len: nat)
    requires CONTAINER_HEADER_LEN <= |blob|
  {
    var size := raf.plainSize(blob[HFEB_HEADER_LEN..CONTAINER_HEADER_LEN]);
    || size.None?
    || exists j: nat :: SlotFails(raf, blob, j)
                        && off < Min(off + len, size.value)
                        && j * RAF_CHUNK_SIZE < Min(off + len, size.value) && off < (j + 1) * RAF_CHUNK_SIZE
  }

  /** The state of a handle on an encrypted remote object: the header is fetched once and kept. */
  class EncReadState {
    const blob: Bytes
    var header: Option<Bytes>

    ghost predicate Valid()
      reads this
    {
      header.Some? && |blob| >= CONTAINER_HEADER_LEN ==> header.value == blob[HFEB_HEADER_LEN..CONTAINER_HEADER_LEN]
    }

    constructor (blob: Bytes)
      ensures Valid() && this.blob == blob && header == None
    {
      this.blob := blob;
      header := None;
    }

    /** `encrypted_read`: the data and whether the read came up short; `None` for a broken container. */
    method EncryptedRead(raf: Raf, offset: U64, size: nat) returns (r: Option<(Bytes, bool)>)
      requires Valid() && raf.Valid() && |blob| <= U64_MAX && size < U32_LIMIT
      modifies this
      ensures Valid()
      ensures ContainerChunkCount(|blob|).None? ==> r == None
      ensures ContainerChunkCount(|blob|).Some? ==>
                match RafRead(raf, FullIo(blob[HFEB_HEADER_LEN..]), offset, size)
                case None => r == None
                case Some(data) => r == Some((data, |data| < size))
      ensures ContainerChunkCount(|blob|).Some? ==> (r.None? <==> ReadFails(raf, blob, offset, size))
      ensures ContainerChunkCount(|blob|).Some? ==>
                forall p, s :: DecryptsTo(raf, blob, p) && s <= |p|
                               && raf.plainSize(blob[HFEB_HEADER_LEN..CONTAINER_HEADER_LEN]) == Some(s) ==>
                  r == Some((p[Min(offset, s)..Min(offset + size, s)], Min(offset + size, s) - Min(offset, s) < size))
    {
      match PlanRead(|blob|, offset, size)
      case None =>
        PlanExact(|blob|, offset, size, 0);
        return None;
      case Some(plan) =>
        PlanExact(|blob|, offset, size, 0);
        RangedReadAgrees(raf, blob, offset, size);
        ReadFailsIff(raf, blob, offset, size);
        ReadsRight(raf, blob, offset, size);
        PlanShape(|blob|, ContainerChunkCount(|blob|).value, offset, size);
        if header.None? {
          header := Some(blob[plan.headerObject.start..plan.headerObject.end]);
        }
        var slots := [];
        if plan.slotsObject.start < plan.slotsObject.end {
          slots := blob[plan.slotsObject.start..plan.slotsObject.end];
        }
        assert slots == Fetched(blob, plan.slotsObject);
        match RafRead(raf, RangedIo(header.value, plan.slotBaseRaf, slots), offset, size)
        case None => return None;
        case Some(data) => return Some((data, |data| < size));
    }
  }
}
