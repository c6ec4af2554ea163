/** The filename codec of src/base91.rs: base91 over a filesystem-safe alphabet.

    `Encode` and `Decode` are the source's loops.  Each is proved equal to a left
    fold (`EncodeText`, `DecodeText`); the round trip is proved about the folds by
    a simulation: the bytes the encoder has read and the decoder has not produced
    yet are exactly the bits held by the two accumulators together. */
module Base91 {
  import opened Prelude
  import opened Bits

  datatype Error = InvalidCharacter | InvalidPadding
  datatype Result<+T> = Ok(value: T) | Err(error: Error)

  const SLASH: Byte := 47

  // ---- The alphabet ----

  /** Character number `i` of the alphabet: A-Z a-z 0-9 ! #-& (-, . ' :-@ [ ]-` {-~ ".
      It is the standard basE91 alphabet with '/' replaced by the quote. */
  function Symbol(i: nat): (c: Byte)
    requires i < 91
    ensures 33 <= c < 127 && c != SLASH
  {
    if i < 26 then 65 + i
    else if i < 52 then 71 + i
    else if i < 62 then i - 4
    else if i == 62 then 33
    else if i < 67 then i - 28
    else if i < 72 then i - 27
    else if i == 72 then 46
    else if i == 73 then 39
    else if i < 81 then i - 16
    else if i == 81 then 91
    else if i < 86 then i + 11
    else if i < 90 then i + 37
    else 34
  }

  /** The inverse table: the index of a byte in the alphabet, if it has one. */
  function Inverse(c: Byte): (r: Option<nat>)
    ensures r.Some? ==> r.value < 91 && Symbol(r.value) == c
  {
    if 65 <= c <= 90 then Some(c - 65)
    else if 97 <= c <= 122 then Some(c - 71)
    else if 48 <= c <= 57 then Some(c + 4)
    else if c == 33 then Some(62)
    else if 35 <= c <= 38 then Some(c + 28)
    else if 40 <= c <= 44 then Some(c + 27)
    else if c == 46 then Some(72)
    else if c == 39 then Some(73)
    else if 58 <= c <= 64 then Some(c + 16)
    else if c == 91 then Some(81)
    else if 93 <= c <= 96 then Some(c - 11)
    else if 123 <= c <= 126 then Some(c - 37)
    else if c == 34 then Some(90)
    else None
  }

  lemma InverseOfSymbol(i: nat)
    requires i < 91
    ensures Inverse(Symbol(i)) == Some(i)
  {
  }

  // ---- Encoding ----

  function EncodedLenUpperBound(len: nat): (n: nat)
  {
    8 * len / 13 * 2 + (if 8 * len % 13 > 0 then 2 else 0)
  }

  /** Encoder state between input bytes. */
  datatype Enc = Enc(acc: nat, bits: nat, out: seq<Byte>) {
    ghost predicate Valid() {
      bits <= 13 && acc < Pow2(bits)
    }
  }

  /** The width of the block that starts with the low 13 bits of `v`. */
  function BlockBits(v: nat): (k: nat)
    ensures k == 13 || k == 14
  {
    if v >= 8192 then BlockBits(v - 8192) else if v > 88 then 13 else 14
  }

  lemma {:induction false} BlockBitsByMask(v: nat)
    ensures BlockBits(v) == if v % 8192 > 88 then 13 else 14
  {
    if v >= 8192 {
      BlockBitsByMask(v - 8192);
    }
  }

  /** A block is as wide as two symbols allow: 14 bits exactly when they stay below 91 * 91 also with the 14th bit set. */
  lemma BlockWidest(v: nat)
    ensures BlockBits(v) == 14 <==> v % 8192 + 8192 < 91 * 91
  {
    BlockBitsByMask(v);
  }

  /** The block of `k` low bits, `acc & 0x1fff` or `acc & 0x3fff`. */
  function LowBlock(acc: nat, k: nat): (v: nat)
  {
    if k == 13 then acc % 8192 else acc % 16384
  }

  /** What is left above the block, `acc >> 13` or `acc >> 14`. */
  function Rest(acc: nat, k: nat): (v: nat)
  {
    if k == 13 then acc / 8192 else acc / 16384
  }

  function Pair(v: nat): (p: seq<Byte>)
    requires v < 91 * 91
  {
    [Symbol(v % 91), Symbol(v / 91)]
  }

  /** A block fits two symbols, and the decoder finds its width again. */
  lemma BlockFits(acc: nat)
    ensures LowBlock(acc, BlockBits(acc)) < 91 * 91
    ensures BlockBits(LowBlock(acc, BlockBits(acc))) == BlockBits(acc)
  {
    var m := acc % 16384;
    var q := acc / 16384;
    assert acc == 16384 * q + m;
    assert acc % 8192 == if m < 8192 then m else m - 8192;
    BlockBitsByMask(acc);
    BlockBitsByMask(LowBlock(acc, BlockBits(acc)));
  }

  lemma BlockSplits(acc: nat, k: nat)
    requires k == 13 || k == 14
    ensures acc == LowBlock(acc, k) + Shl(Rest(acc, k), k)
  {
    ShlFixed(Rest(acc, k), k);
  }

  function EncodeByte(e: Enc, x: Byte): (r: Enc)
    requires e.Valid()
    ensures r.Valid()
  {
    var acc := e.acc + Shl(x, e.bits);
    ShiftInByte(e.acc, e.bits, x);
    if e.bits + 8 > 13 then
      var k := BlockBits(acc);
      BlockFits(acc);
      BlockSplits(acc, k);
      DropFits(LowBlock(acc, k), Rest(acc, k), k, e.bits + 8 - k);
      Enc(Rest(acc, k), e.bits + 8 - k, e.out + Pair(LowBlock(acc, k)))
    else
      Enc(acc, e.bits + 8, e.out)
  }

  lemma ShiftInByte(acc: nat, n: nat, x: Byte)
    requires acc < Pow2(n)
    ensures acc + Shl(x, n) < Pow2(n + 8)
  {
    Pow2Fixed(8);
    ConcatFits(acc, n, x, 8);
  }

  function EncodeBytes(src: seq<Byte>): (e: Enc)
    ensures e.Valid()
  {
    if src == [] then Enc(0, 0, [])
    else EncodeByte(EncodeBytes(src[..|src| - 1]), src[|src| - 1])
  }

  /** The symbols for the bits left over after the last byte. */
  function EncodeTail(e: Enc): (out: seq<Byte>)
    requires e.Valid()
  {
    TailFits(e);
    if e.bits == 0 then []
    else if e.bits > 7 || e.acc > 90 then Pair(e.acc)
    else [Symbol(e.acc % 91)]
  }

  lemma TailFits(e: Enc)
    requires e.Valid()
    ensures e.acc < 8192
  {
    Pow2Fixed(e.bits);
  }

  function EncodeText(src: seq<Byte>): (out: seq<Byte>)
  {
    var e := EncodeBytes(src);
    e.out + EncodeTail(e)
  }

  /** "test" is encoded as "fPNKd", as in standard basE91. */
  lemma KnownText(src: seq<Byte>)
    requires src == [116, 101, 115, 116]
    ensures EncodeText(src) == [102, 80, 78, 75, 100]
  {
    var a, b := [116, 101], [116, 101, 115];
    KnownHalf(a);
    assert a + [115] == b && b + [116] == src;
    KnownRest(a, b, src);
    KnownTail(src);
  }

  lemma KnownHalf(src: seq<Byte>)
    requires src == [116, 101]
    ensures EncodeBytes(src) == Enc(3, 3, [102, 80])
  {
    ShlKnown(116);
    ShlKnown(101);
    var none: seq<Byte>, one := [], [116];
    assert none + [116] == one && one + [101] == src;
    KeepsByte(none, one, 116, Enc(0, 0, []), 116);
    WritesBlock(one, src, 101, Enc(116, 8, []), 3, 15, 31);
    assert [] + [Symbol(31), Symbol(15)] == [102, 80];
  }

  lemma KnownRest(a: seq<Byte>, b: seq<Byte>, src: seq<Byte>)
    requires EncodeBytes(a) == Enc(3, 3, [102, 80]) && b == a + [115] && src == b + [116]
    ensures EncodeBytes(src) == Enc(29, 6, [102, 80] + [78, 75])
  {
    ShlKnown(115);
    ShlKnown(116);
    var third := Enc(923, 11, [102, 80]);
    KeepsByte(a, b, 115, Enc(3, 3, [102, 80]), 923);
    WritesBlock(b, src, 116, third, 29, 10, 13);
    assert [Symbol(13), Symbol(10)] == [78, 75];
  }

  lemma KnownTail(src: seq<Byte>)
    requires EncodeBytes(src) == Enc(29, 6, [102, 80] + [78, 75])
    ensures EncodeText(src) == [102, 80, 78, 75, 100]
  {
    var e := EncodeBytes(src);
    assert EncodeTail(e) == [100];
  }

  lemma ShlKnown(x: nat)
    ensures Shl(x, 0) == x && Shl(x, 3) == 8 * x && Shl(x, 8) == 256 * x && Shl(x, 11) == 2048 * x
  {
    ShlFixed(x, 8);
    ShlShl(x, 8, 3);
    assert forall y: nat :: Shl(y, 3) == 2 * Shl(y, 2) == 4 * Shl(y, 1) == 8 * Shl(y, 0);
  }

  lemma KeepsByte(src: seq<Byte>, src': seq<Byte>, x: Byte, e: Enc, acc: nat)
    requires src' == src + [x] && EncodeBytes(src) == e && e.bits + 8 <= 13 && acc == e.acc + Shl(x, e.bits)
    ensures EncodeBytes(src') == Enc(acc, e.bits + 8, e.out)
  {
    assert src'[..|src|] == src;
  }

  lemma WritesBlock(src: seq<Byte>, src': seq<Byte>, x: Byte, e: Enc, rest: nat, high: nat, low: nat)
    requires src' == src + [x] && EncodeBytes(src) == e && e.bits + 8 > 13 && low < 91 && high < 90
    requires e.acc + Shl(x, e.bits) == 8192 * rest + 91 * high + low && 88 < 91 * high + low < 8192
    ensures EncodeBytes(src') == Enc(rest, e.bits - 5, e.out + [Symbol(low), Symbol(high)])
  {
    assert src'[..|src|] == src;
    assert EncodeBytes(src') == EncodeByte(e, x);
    BlockWritten(e, x, rest, high, low);
  }

  lemma BlockWritten(e: Enc, x: Byte, rest: nat, high: nat, low: nat)
    requires e.Valid() && e.bits + 8 > 13 && low < 91 && high < 90
    requires e.acc + Shl(x, e.bits) == 8192 * rest + 91 * high + low && 88 < 91 * high + low < 8192
    ensures EncodeByte(e, x) == Enc(rest, e.bits - 5, e.out + [Symbol(low), Symbol(high)])
  {
    var v, acc := 91 * high + low, e.acc + Shl(x, e.bits);
    DivMod(acc, rest, v, 8192);
    DivMod(v, high, low, 91);
    BlockBitsByMask(acc);
    assert Pair(v) == [Symbol(low), Symbol(high)];
  }

  lemma DivMod(n: nat, q: nat, r: nat, d: nat)
    requires (d == 91 || d == 8192) && n == d * q + r && r < d
    ensures n / d == q && n % d == r
  {
  }

  /** The source's loop over the input bytes. */
  method Encode(src: seq<Byte>) returns (out: seq<Byte>)
    ensures out == EncodeText(src)
    ensures DecodeText(out) == Ok(src)
    ensures |out| <= EncodedLenUpperBound(|src|)
  {
    out := [];
    var acc: nat, bits: nat := 0, 0;
    for i := 0 to |src|
      invariant EncodeBytes(src[..i]) == Enc(acc, bits, out)
    {
      assert src[..i + 1][..i] == src[..i];
      acc, bits, out := AddByte(acc, bits, out, src[i]);
    }
    assert src[..|src|] == src;
    TailFits(Enc(acc, bits, out));
    if bits > 0 {
      out := out + [Symbol(acc % 91)];
      if bits > 7 || acc > 90 {
        out := out + [Symbol(acc / 91)];
      }
    }
    RoundTrip(src);
    EncodedLength(src);
  }

  /** One iteration: or the byte in, and write a block if there are enough bits for one. */
  method AddByte(acc0: nat, bits0: nat, out0: seq<Byte>, x: Byte) returns (acc: nat, bits: nat, out: seq<Byte>)
    requires Enc(acc0, bits0, out0).Valid()
    ensures Enc(acc, bits, out) == EncodeByte(Enc(acc0, bits0, out0), x)
  {
    WordFits(Enc(acc0, bits0, out0), x);
    acc := OrShifted(acc0, x, bits0);
    BlockFits(acc);
    bits, out := bits0 + 8, out0;
    if bits > 13 {
      var v, used;
      v, acc, used := TakeBlock(acc);
      bits := bits - used;
      out := out + [Symbol(v % 91)];
      out := out + [Symbol(v / 91)];
      assert out == out0 + Pair(v);
    }
  }

  /** `a | (x << n)`, where `a` has no bit at or above `n`. */
  method OrShifted(a: nat, x: nat, n: nat) returns (r: nat)
    requires a < Pow2(n)
    ensures r == a + Shl(x, n)
  {
    OrDisjoint(a, x, n);
    r := BitOr(a, Shl(x, n));
  }

  /** The choice between a 13-bit and a 14-bit block. */
  method TakeBlock(acc: nat) returns (v: nat, rest: nat, used: nat)
    ensures used == BlockBits(acc) && v == LowBlock(acc, used) && rest == Rest(acc, used)
  {
    BlockBitsByMask(acc);
    v := acc % 8192;
    if v > 88 {
      rest := acc / 8192;
      used := 13;
    } else {
      v := acc % 16384;
      rest := acc / 16384;
      used := 14;
    }
  }

  /** The accumulator never needs more than 21 bits. */
  lemma WordFits(e: Enc, x: Byte)
    requires e.Valid()
    ensures e.acc + Shl(x, e.bits) < 0x20_0000 < U32_LIMIT
  {
    ShiftInByte(e.acc, e.bits, x);
    Pow2Fixed(e.bits + 8);
  }

  // ---- Decoding ----

  /** Decoder state: a pending first symbol of a pair, and the bits not yet output. */
  datatype Dec = Dec(pending: Option<nat>, b: nat, bits: nat, out: seq<Byte>) {
    ghost predicate Valid() {
      bits <= 7 && b < Pow2(bits) && (pending.Some? ==> pending.value < 91)
    }
  }

  /** Outputs the whole bytes among the `bits` low bits of `b`. */
  function Drain(b: nat, bits: nat, out: seq<Byte>): (d: Dec)
    requires b < Pow2(bits)
    ensures d.Valid() && d.pending.None?
    decreases bits
  {
    if bits <= 7 then Dec(None, b, bits, out)
    else
      ByteSplit(b, 0, bits);
      Drain(b / 256, bits - 8, out + [b % 256])
  }

  /** Puts block `a` above the pending bits and outputs the whole bytes. */
  function DecodeBlock(b: nat, bits: nat, out: seq<Byte>, a: nat): (r: Dec)
    requires bits <= 7 && b < Pow2(bits) && a < 91 * 91
    ensures r.Valid() && r.pending.None?
  {
    PairFits(b, bits, a);
    Drain(b + Shl(a, bits), bits + BlockBits(a), out)
  }

  lemma PairFits(b: nat, bits: nat, a: nat)
    requires b < Pow2(bits) && a < 91 * 91
    ensures b + Shl(a, bits) < Pow2(bits + BlockBits(a))
  {
    Pow2Fixed(BlockBits(a));
    ConcatFits(b, bits, a, BlockBits(a));
  }

  /** Merging a pair keeps the decoder's accumulator within 21 bits. */
  lemma PairFitsWord(b: nat, bits: nat, a: nat)
    requires bits <= 7 && b < Pow2(bits) && a < 91 * 91
    ensures b + Shl(a, bits) < 0x20_0000 < U32_LIMIT
  {
    PairFits(b, bits, a);
    Pow2Fixed(bits + BlockBits(a));
  }

  function DecodeChar(d: Dec, c: Byte): (r: Result<Dec>)
    requires d.Valid()
    ensures r.Ok? ==> r.value.Valid()
  {
    match Inverse(c)
    case None => Err(InvalidCharacter)
    case Some(i) =>
      match d.pending
      case None => Ok(d.(pending := Some(i)))
      case Some(low) => Ok(DecodeBlock(d.b, d.bits, d.out, low + i * 91))
  }

  function DecodeChars(text: seq<Byte>): (r: Result<Dec>)
    ensures r.Ok? ==> r.value.Valid()
  {
    if text == [] then Ok(Dec(None, 0, 0, []))
    else
      match DecodeChars(text[..|text| - 1])
      case Err(e) => Err(e)
      case Ok(d) => DecodeChar(d, text[|text| - 1])
  }

  function DecodeTail(d: Dec): (r: Result<seq<Byte>>)
    requires d.Valid()
  {
    match d.pending
    case Some(a) =>
      var last := d.b + Shl(a, d.bits);
      if last > 255 then Err(InvalidPadding) else Ok(d.out + [last])
    case None => if d.b != 0 then Err(InvalidPadding) else Ok(d.out)
  }

  function DecodeText(text: seq<Byte>): (r: Result<seq<Byte>>)
  {
    match DecodeChars(text)
    case Err(e) => Err(e)
    case Ok(d) => DecodeTail(d)
  }

  /** The source's loop over characters, with the inner do-while that outputs bytes. */
  method Decode(text: seq<Byte>) returns (r: Result<seq<Byte>>)
    ensures r == DecodeText(text)
    ensures r == Err(InvalidCharacter) <==> exists i :: 0 <= i < |text| && Inverse(text[i]).None?
  {
    InvalidCharacterIff(text);
    var out: seq<Byte> := [];
    var acc: Option<nat> := None;
    var b: nat, bits: nat := 0, 0;
    for i := 0 to |text|
      invariant DecodeChars(text[..i]) == Ok(Dec(acc, b, bits, out))
    {
      ghost var before := Dec(acc, b, bits, out);
      assert text[..i + 1][..i] == text[..i];
      var idx := Inverse(text[i]);
      if idx.None? {
        DecodeErrorSticks(text, i + 1);
        return Err(InvalidCharacter);
      }
      if acc.Some? {
        var a := acc.value + idx.value * 91;
        b, bits, out := MergePair(b, bits, out, a);
        acc := None;
      } else {
        acc := idx;
      }
    }
    assert text[..|text|] == text;
    r := FinishDecode(acc, b, bits, out);
  }

  /** Or-s a completed pair into the accumulator and outputs its bytes. */
  method MergePair(b0: nat, bits0: nat, out0: seq<Byte>, a: nat) returns (b: nat, bits: nat, out: seq<Byte>)
    requires bits0 <= 7 && b0 < Pow2(bits0) && a < 91 * 91
    ensures Dec(None, b, bits, out) == DecodeBlock(b0, bits0, out0, a)
  {
    PairFits(b0, bits0, a);
    PairFitsWord(b0, bits0, a);
    b := OrShifted(b0, a, bits0);
    BlockBitsByMask(a);
    bits := bits0 + if a % 8192 > 88 then 13 else 14;
    b, bits, out := DrainLoop(b, bits, out0);
  }

  /** What `Decode` does with the bits and the odd symbol left at the end. */
  method FinishDecode(acc: Option<nat>, b: nat, bits: nat, out0: seq<Byte>) returns (r: Result<seq<Byte>>)
    requires Dec(acc, b, bits, out0).Valid()
    ensures r == DecodeTail(Dec(acc, b, bits, out0))
  {
    var out := out0;
    if acc.Some? {
      var last := OrShifted(b, acc.value, bits);
      if last > 255 {
        return Err(InvalidPadding);
      }
      out := out + [last % 256];
    } else if b != 0 {
      return Err(InvalidPadding);
    }
    r := Ok(out);
  }

  /** The inner loop of `Decode`, which runs at least once. */
  method DrainLoop(b0: nat, bits0: nat, out0: seq<Byte>) returns (b: nat, bits: nat, out: seq<Byte>)
    requires bits0 > 7 && b0 < Pow2(bits0)
    ensures Dec(None, b, bits, out) == Drain(b0, bits0, out0)
  {
    b, bits, out := b0, bits0, out0;
    while true
      invariant bits > 7 && b < Pow2(bits)
      invariant Drain(b, bits, out) == Drain(b0, bits0, out0)
      decreases bits
    {
      ByteSplit(b, 0, bits);
      out := out + [b % 256];
      b := b / 256;
      bits := bits - 8;
      if bits <= 7 {
        return;
      }
    }
  }

  lemma {:induction false} DecodeErrorSticks(text: seq<Byte>, i: nat)
    requires i <= |text| && DecodeChars(text[..i]).Err?
    ensures DecodeChars(text) == DecodeChars(text[..i])
  {
    if i < |text| {
      var front := text[..|text| - 1];
      assert front[..i] == text[..i];
      DecodeErrorSticks(front, i);
    } else {
      assert text[..i] == text;
    }
  }

  lemma {:induction false} DecodeCharsErrorIff(text: seq<Byte>)
    ensures DecodeChars(text).Err? ==> DecodeChars(text).error == InvalidCharacter
    ensures DecodeChars(text).Err? <==> exists i :: 0 <= i < |text| && Inverse(text[i]).None?
  {
    if text != [] {
      var front := text[..|text| - 1];
      DecodeCharsErrorIff(front);
      assert forall i :: 0 <= i < |front| ==> front[i] == text[i];
    }
  }

  /** A text is rejected as having an invalid character exactly when it has one,
      wherever it is: a padding error is reported only if every character is valid. */
  lemma InvalidCharacterIff(text: seq<Byte>)
    ensures DecodeText(text) == Err(InvalidCharacter)
            <==> exists i :: 0 <= i < |text| && Inverse(text[i]).None?
  {
    DecodeCharsErrorIff(text);
  }

  // ---- Round trip ----

  /** The bytes of `src` not yet decoded are the decoder's bits followed by the encoder's. */
  ghost predicate InStep(src: seq<Byte>, e: Enc, d: Dec)
  {
    && e.Valid() && d.Valid() && d.pending.None?
    && |d.out| <= |src| && d.out == src[..|d.out|]
    && 8 * (|src| - |d.out|) == d.bits + e.bits
    && LittleEndian(src[|d.out|..]) == d.b + Shl(e.acc, d.bits)
  }

  /** Removing the low byte of both sides of `first + 256 * rest == b + (q << bits)`. */
  lemma DrainOneByte(first: Byte, rest: nat, b: nat, q: nat, bits: nat)
    requires bits >= 8 && b < Pow2(bits)
    requires first + 256 * rest == b + Shl(q, bits)
    ensures b % 256 == first && b / 256 < Pow2(bits - 8)
    ensures rest == b / 256 + Shl(q, bits - 8)
  {
    ByteSplit(b, q, bits);
  }

  /** `Drain` outputs the next whole bytes of the string whose value from `j` on starts with `b`. */
  lemma {:induction false} DrainCorrect(src: seq<Byte>, j: nat, b: nat, bits: nat, q: nat)
    requires b < Pow2(bits) && j <= |src| && bits <= 8 * (|src| - j)
    requires LittleEndian(src[j..]) == b + Shl(q, bits)
    ensures var d := Drain(b, bits, src[..j]);
            && |d.out| <= |src| && d.out == src[..|d.out|]
            && 8 * |d.out| + d.bits == 8 * j + bits
            && LittleEndian(src[|d.out|..]) == d.b + Shl(q, d.bits)
    decreases bits
  {
    if bits > 7 {
      assert src[j..][1..] == src[j + 1..];
      DrainOneByte(src[j], LittleEndian(src[j + 1..]), b, q, bits);
      assert src[..j] + [src[j]] == src[..j + 1];
      DrainCorrect(src, j + 1, b / 256, bits - 8, q);
    }
  }

  lemma DecodePairText(text: seq<Byte>, d: Dec, v: nat, text': seq<Byte>, d': Dec)
    requires v < 91 * 91 && d.Valid() && d.pending.None? && DecodeChars(text) == Ok(d)
    requires text' == text + Pair(v) && d' == DecodeBlock(d.b, d.bits, d.out, v)
    ensures DecodeChars(text') == Ok(d')
  {
    var i, j := v % 91, v / 91;
    var middle := text + [Symbol(i)];
    DecodeSymbol(text, d, i, middle);
    assert text' == middle + [Symbol(j)];
    DecodeSymbol(middle, d.(pending := Some(i)), j, text');
    assert i + j * 91 == v;
  }

  lemma DecodeSymbol(text: seq<Byte>, d: Dec, i: nat, text': seq<Byte>)
    requires i < 91 && d.Valid() && DecodeChars(text) == Ok(d) && text' == text + [Symbol(i)]
    ensures DecodeChars(text')
         == if d.pending.None? then Ok(d.(pending := Some(i)))
            else Ok(DecodeBlock(d.b, d.bits, d.out, d.pending.value + i * 91))
  {
    InverseOfSymbol(i);
    assert text'[..|text|] == text;
    assert DecodeChars(text') == DecodeChar(d, Symbol(i));
  }

  /** Moving a block of `k` bits from the encoder to the decoder. */
  lemma SplitBlock(acc: nat, m: nat, k: nat)
    requires k == 13 || k == 14
    ensures Shl(acc, m) == Shl(LowBlock(acc, k), m) + Shl(Rest(acc, k), m + k)
  {
    BlockSplits(acc, k);
    ShlSum(LowBlock(acc, k), Shl(Rest(acc, k), k), m);
    ShlShl(Rest(acc, k), k, m);
    assert k + m == m + k;
  }

  /** Handing `m` bits to the decoder keeps it in step with what the encoder has left. */
  lemma EmitKeepsInStep(src: seq<Byte>, e: Enc, d: Dec, b: nat, m: nat) returns (d': Dec)
    requires d.Valid() && |d.out| <= |src| && d.out == src[..|d.out|] && e.Valid()
    requires b < Pow2(m) && 8 * (|src| - |d.out|) == m + e.bits
    requires LittleEndian(src[|d.out|..]) == b + Shl(e.acc, m)
    ensures d' == Drain(b, m, d.out) && InStep(src, e, d')
  {
    DrainCorrect(src, |d.out|, b, m, e.acc);
    d' := Drain(b, m, d.out);
  }

  /** A byte that completes a block writes it as a pair and keeps the rest. */
  lemma EncodeByteEmits(e: Enc, x: Byte, m: nat) returns (r: Enc, v: nat, k: nat)
    requires e.Valid() && e.bits + 8 > 13
    ensures r == EncodeByte(e, x) && r.Valid() && v < 91 * 91 && k == BlockBits(v)
    ensures && r.out == e.out + Pair(v) && r.bits == e.bits + 8 - k
            && Shl(e.acc + Shl(x, e.bits), m) == Shl(v, m) + Shl(r.acc, m + k)
  {
    var acc := e.acc + Shl(x, e.bits);
    r := EncodeByte(e, x);
    k := BlockBits(acc);
    v := LowBlock(acc, k);
    BlockFits(acc);
    SplitBlock(acc, m, k);
  }

  /** After any prefix, decoding what has been written is in step with the encoder. */
  lemma {:induction false} Simulation(src: seq<Byte>) returns (d: Dec)
    ensures DecodeChars(EncodeBytes(src).out) == Ok(d)
    ensures InStep(src, EncodeBytes(src), d)
  {
    if src == [] {
      d := Dec(None, 0, 0, []);
    } else {
      var front, x := src[..|src| - 1], src[|src| - 1];
      d := Simulation(front);
      var e := EncodeBytes(front);
      var e';
      e', d := SimulationStep(src, e, d);
    }
  }

  lemma SimulationStep(src: seq<Byte>, e: Enc, d: Dec) returns (e': Enc, d': Dec)
    requires src != [] && InStep(src[..|src| - 1], e, d) && DecodeChars(e.out) == Ok(d)
    ensures e' == EncodeByte(e, src[|src| - 1]) && DecodeChars(e'.out) == Ok(d') && InStep(src, e', d')
  {
    var x := src[|src| - 1];
    ByteEntersWindow(src, e, d);
    if e.bits + 8 > 13 {
      e', d' := BlockStep(src, e, d, x);
    } else {
      e' := NoBlockStep(src, e, d, x);
      d' := d;
    }
  }

  /** A byte that does not complete a block only waits. */
  lemma NoBlockStep(src: seq<Byte>, e: Enc, d: Dec, x: Byte) returns (e': Enc)
    requires e.Valid() && e.bits + 8 <= 13 && d.Valid() && d.pending.None?
    requires |d.out| <= |src| && d.out == src[..|d.out|]
    requires 8 * (|src| - |d.out|) == d.bits + e.bits + 8
    requires LittleEndian(src[|d.out|..]) == d.b + Shl(e.acc + Shl(x, e.bits), d.bits)
    ensures e' == EncodeByte(e, x) && e'.out == e.out && InStep(src, e', d)
  {
    e' := EncodeByte(e, x);
  }

  lemma BlockStep(src: seq<Byte>, e: Enc, d: Dec, x: Byte) returns (e': Enc, d': Dec)
    requires e.Valid() && e.bits + 8 > 13
    requires src != [] && d.Valid() && d.pending.None? && DecodeChars(e.out) == Ok(d)
    requires |d.out| <= |src| && d.out == src[..|d.out|]
    requires 8 * (|src| - |d.out|) == d.bits + e.bits + 8
    requires LittleEndian(src[|d.out|..]) == d.b + Shl(e.acc + Shl(x, e.bits), d.bits)
    ensures e' == EncodeByte(e, x) && DecodeChars(e'.out) == Ok(d') && InStep(src, e', d')
  {
    var v, k;
    e', v, k := EncodeByteEmits(e, x, d.bits);
    d' := EmitStep(src, e, d, e', v, k, Shl(e.acc + Shl(x, e.bits), d.bits));
  }

  lemma EmitStep(src: seq<Byte>, e: Enc, d: Dec, e': Enc, v: nat, k: nat, high: nat) returns (d': Dec)
    requires src != [] && d.Valid() && d.pending.None? && DecodeChars(e.out) == Ok(d) && e'.Valid()
    requires |d.out| <= |src| && d.out == src[..|d.out|]
    requires 8 * (|src| - |d.out|) == d.bits + k + e'.bits
    requires LittleEndian(src[|d.out|..]) == d.b + high
    requires v < 91 * 91 && k == BlockBits(v) && e'.out == e.out + Pair(v)
    requires high == Shl(v, d.bits) + Shl(e'.acc, d.bits + k)
    ensures DecodeChars(e'.out) == Ok(d') && InStep(src, e', d')
  {
    d' := EmitInStep(src, d, e', v, k, high);
    DecodePairText(e.out, d, v, e'.out, d');
  }

  lemma EmitInStep(src: seq<Byte>, d: Dec, e': Enc, v: nat, k: nat, high: nat) returns (d': Dec)
    requires d.Valid() && e'.Valid() && |d.out| <= |src| && d.out == src[..|d.out|]
    requires 8 * (|src| - |d.out|) == d.bits + k + e'.bits && LittleEndian(src[|d.out|..]) == d.b + high
    requires v < 91 * 91 && k == BlockBits(v) && high == Shl(v, d.bits) + Shl(e'.acc, d.bits + k)
    ensures d' == DecodeBlock(d.b, d.bits, d.out, v) && InStep(src, e', d')
  {
    PairFits(d.b, d.bits, v);
    d' := EmitKeepsInStep(src, e', d, d.b + Shl(v, d.bits), d.bits + k);
  }

  /** Reading one more byte puts its bits above those already pending. */
  lemma ByteEntersWindow(src: seq<Byte>, e: Enc, d: Dec)
    requires src != [] && InStep(src[..|src| - 1], e, d)
    ensures LittleEndian(src[|d.out|..]) == d.b + Shl(e.acc + Shl(src[|src| - 1], e.bits), d.bits)
    ensures d.out == src[..|d.out|]
  {
    var front, x := src[..|src| - 1], src[|src| - 1];
    assert src[|d.out|..] == front[|d.out|..] + [x];
    WindowGrows(front[|d.out|..], x, d.b, d.bits, e.acc, e.bits);
  }

  lemma WindowGrows(pending: seq<Byte>, x: Byte, b: nat, low: nat, acc: nat, high: nat)
    requires LittleEndian(pending) == b + Shl(acc, low) && 8 * |pending| == low + high
    ensures LittleEndian(pending + [x]) == b + Shl(acc + Shl(x, high), low)
  {
    LittleEndianAppend(pending, x);
    ShlSum(acc, Shl(x, high), low);
    ShlShl(x, high, low);
  }

  /** The leftover bits, in either of their two forms, complete the last bytes. */
  lemma TailCompletes(src: seq<Byte>, e: Enc, d: Dec, text: seq<Byte>)
    requires InStep(src, e, d) && DecodeChars(e.out) == Ok(d) && text == e.out + EncodeTail(e)
    ensures DecodeText(text) == Ok(src)
  {
    TailFits(e);
    if e.bits == 0 {
      EmptyTail(src, e, d, text);
    } else if e.bits > 7 || e.acc > 90 {
      TwoSymbolTail(src, e, d, text);
    } else {
      OneSymbolTail(src, e, d, text);
    }
  }

  lemma EmptyTail(src: seq<Byte>, e: Enc, d: Dec, text: seq<Byte>)
    requires InStep(src, e, d) && DecodeChars(e.out) == Ok(d) && e.bits == 0 && text == e.out + []
    ensures DecodeText(text) == Ok(src)
  {
    assert src[|d.out|..] == [] && d.out == src;
    assert LittleEndian([]) == 0;
    assert text == e.out;
  }

  lemma OneSymbolTail(src: seq<Byte>, e: Enc, d: Dec, text: seq<Byte>)
    requires InStep(src, e, d) && DecodeChars(e.out) == Ok(d)
    requires 0 < e.bits <= 7 && e.acc <= 90 && text == e.out + [Symbol(e.acc)]
    ensures DecodeText(text) == Ok(src)
  {
    var s := src[|d.out|..];
    assert s == [src[|d.out|]];
    assert LittleEndian(s) == s[0];
    DecodeSymbol(e.out, d, e.acc, text);
    assert d.out + s == src;
  }

  /** The last block is wider than the bits that are left, but by less than a byte. */
  lemma TailDrains(src: seq<Byte>, e: Enc, d: Dec) returns (d': Dec)
    requires InStep(src, e, d) && e.acc < 8192 && (e.bits > 7 || e.acc > 90)
    ensures d' == DecodeBlock(d.b, d.bits, d.out, e.acc) && d'.out == src && d'.b == 0
  {
    var k := BlockBits(e.acc);
    assert e.bits <= k <= e.bits + 7 by {
      Pow2Fixed(e.bits);
    }
    PairFits(d.b, d.bits, e.acc);
    d' := DrainPadded(src, |d.out|, d.b + Shl(e.acc, d.bits), d.bits + k);
  }

  lemma TwoSymbolTail(src: seq<Byte>, e: Enc, d: Dec, text: seq<Byte>)
    requires InStep(src, e, d) && DecodeChars(e.out) == Ok(d)
    requires e.acc < 8192 && (e.bits > 7 || e.acc > 90) && text == e.out + Pair(e.acc)
    ensures DecodeText(text) == Ok(src)
  {
    var d' := TailDrains(src, e, d);
    DecodePairText(e.out, d, e.acc, text, d');
  }

  /** Draining past the end of the data by less than a byte outputs it all and leaves zero bits. */
  lemma {:induction false} DrainPadded(src: seq<Byte>, j: nat, b: nat, bits: nat) returns (d: Dec)
    requires j <= |src| && LittleEndian(src[j..]) == b && b < Pow2(bits)
    requires 8 * (|src| - j) <= bits <= 8 * (|src| - j) + 7
    ensures d == Drain(b, bits, src[..j]) && d.out == src && d.b == 0
    decreases bits
  {
    if bits <= 7 {
      assert src[j..] == [] && src[..j] == src;
      d := Drain(b, bits, src[..j]);
    } else {
      ByteSplit(b, 0, bits);
      assert src[j..][1..] == src[j + 1..];
      assert src[..j] + [src[j]] == src[..j + 1];
      d := DrainPadded(src, j + 1, b / 256, bits - 8);
    }
  }

  /** Decoding an encoded byte string gives it back, for every byte string. */
  lemma RoundTrip(src: seq<Byte>)
    ensures DecodeText(EncodeText(src)) == Ok(src)
  {
    var d := Simulation(src);
    TailCompletes(src, EncodeBytes(src), d, EncodeText(src));
  }

  /** Distinct byte strings have distinct encodings. */
  lemma EncodeInjective(a: seq<Byte>, b: seq<Byte>)
    requires EncodeText(a) == EncodeText(b)
    ensures a == b
  {
    RoundTrip(a);
    RoundTrip(b);
  }

  // ---- Length and shape of the encoded form ----

  lemma EncodeByteBits(e: Enc, x: Byte)
    requires e.Valid() && |e.out| % 2 == 0
    ensures var r := EncodeByte(e, x);
            |r.out| % 2 == 0 && 13 * (|r.out| / 2) + r.bits <= 13 * (|e.out| / 2) + e.bits + 8
  {
  }

  lemma {:induction false} EncodedBits(src: seq<Byte>)
    ensures |EncodeBytes(src).out| % 2 == 0
    ensures 13 * (|EncodeBytes(src).out| / 2) + EncodeBytes(src).bits <= 8 * |src|
  {
    if src != [] {
      var front := src[..|src| - 1];
      EncodedBits(front);
      EncodeByteBits(EncodeBytes(front), src[|src| - 1]);
    }
  }

  lemma LengthBound(len: nat, pairs: nat, bits: nat)
    requires 13 * pairs + bits <= 8 * len
    ensures 2 * pairs + (if bits > 0 then 2 else 0) <= EncodedLenUpperBound(len)
  {
  }

  lemma EncodedLength(src: seq<Byte>)
    ensures |EncodeText(src)| <= EncodedLenUpperBound(|src|)
    ensures src != [] ==> EncodeText(src) != []
  {
    EncodedBits(src);
    var e := EncodeBytes(src);
    LengthBound(|src|, |e.out| / 2, e.bits);
    if EncodeText(src) == [] {
      RoundTrip(src);
      RoundTrip([]);
    }
  }

  lemma {:induction false} EncodedSymbols(src: seq<Byte>)
    ensures forall i :: 0 <= i < |EncodeBytes(src).out| ==> Inverse(EncodeBytes(src).out[i]).Some?
  {
    if src != [] {
      var front := src[..|src| - 1];
      EncodedSymbols(front);
      var e := EncodeBytes(front);
      var acc := e.acc + Shl(src[|src| - 1], e.bits);
      BlockFits(acc);
      var v := LowBlock(acc, BlockBits(acc));
      InverseOfSymbol(v % 91);
      InverseOfSymbol(v / 91);
    }
  }

  /** An encoded value is one legal path component: only alphabet characters, so no '/' and no NUL. */
  lemma EncodedIsComponent(src: seq<Byte>)
    ensures forall i :: 0 <= i < |EncodeText(src)| ==>
              var c := EncodeText(src)[i]; Inverse(c).Some? && c != SLASH && c != 0 && c < 128
  {
    EncodedSymbols(src);
    var e := EncodeBytes(src);
    TailFits(e);
    if e.bits > 0 {
      InverseOfSymbol(e.acc % 91);
      InverseOfSymbol(e.acc / 91);
    }
  }
}
