/** Machine-word operations on natural numbers, as the codec uses them.  Every
    definition is by recursion on single bits, so the facts below need linear
    arithmetic only. */
module Bits {
  import opened Prelude

  const U32_LIMIT: nat := 0x1_0000_0000

  function Pow2(n: nat): (p: nat)
    ensures p > 0
  {
    if n == 0 then 1 else 2 * Pow2(n - 1)
  }

  /** `x << n`. */
  function Shl(x: nat, n: nat): (r: nat)
    decreases n
  {
    if n == 0 then x else 2 * Shl(x, n - 1)
  }

  /** `a | b`. */
  function BitOr(a: nat, b: nat): (r: nat)
    decreases a + b
  {
    if a == 0 && b == 0 then 0
    else (if a % 2 == 1 || b % 2 == 1 then 1 else 0) + 2 * BitOr(a / 2, b / 2)
  }

  // ---- Shifts ----

  lemma {:induction false} ShlSum(x: nat, y: nat, n: nat)
    ensures Shl(x + y, n) == Shl(x, n) + Shl(y, n)
  {
    if n > 0 {
      ShlSum(x, y, n - 1);
    }
  }

  lemma {:induction false} ShlShl(x: nat, m: nat, n: nat)
    ensures Shl(Shl(x, m), n) == Shl(x, m + n)
    decreases n
  {
    if n > 0 {
      ShlShl(x, m, n - 1);
      assert m + n - 1 == m + (n - 1);
    }
  }

  /** The shifts the codec makes by a fixed amount. */
  lemma ShlFixed(x: nat, n: nat)
    ensures n == 8 ==> Shl(x, n) == 256 * x
    ensures n == 13 ==> Shl(x, n) == 8192 * x
    ensures n == 14 ==> Shl(x, n) == 16384 * x
  {
    if n == 8 {
      assert Shl(x, 8) == 256 * x;
    } else if n == 13 {
      assert Shl(x, 13) == 8192 * x;
    } else if n == 14 {
      assert Shl(x, 14) == 16384 * x;
    }
  }

  lemma Pow2Fixed(n: nat)
    ensures n <= 6 ==> Pow2(n) <= 64
    ensures n <= 7 ==> Pow2(n) <= 128
    ensures n <= 13 ==> Pow2(n) <= 8192
    ensures n <= 21 ==> Pow2(n) <= 2097152
    ensures n == 8 ==> Pow2(n) == 256
    ensures n == 13 ==> Pow2(n) == 8192
    ensures n == 14 ==> Pow2(n) == 16384
  {
    assert Pow2(6) == 64 && Pow2(7) == 128 && Pow2(8) == 256 && Pow2(13) == 8192 && Pow2(14) == 16384;
    assert Pow2(21) == 2097152;
    if n <= 6 { Pow2Monotone(n, 6); }
    if n <= 7 { Pow2Monotone(n, 7); }
    if n <= 13 { Pow2Monotone(n, 13); }
    if n <= 21 { Pow2Monotone(n, 21); }
  }

  lemma {:induction false} Pow2Monotone(m: nat, n: nat)
    requires m <= n
    ensures Pow2(m) <= Pow2(n)
  {
    if m < n {
      Pow2Monotone(m, n - 1);
    }
  }

  /** `n` low bits under `k` high bits are `n + k` bits. */
  lemma {:induction false} ConcatFits(a: nat, n: nat, b: nat, k: nat)
    requires a < Pow2(n) && b < Pow2(k)
    ensures a + Shl(b, n) < Pow2(n + k)
    decreases n
  {
    if n > 0 {
      ConcatFits(a / 2, n - 1, b, k);
      assert n + k - 1 == (n - 1) + k;
    }
  }

  /** Conversely, dropping the low `n` of `n + k` bits leaves `k`. */
  lemma {:induction false} DropFits(low: nat, high: nat, n: nat, k: nat)
    requires low + Shl(high, n) < Pow2(n + k)
    ensures high < Pow2(k)
    decreases n
  {
    if n > 0 {
      assert n + k - 1 == (n - 1) + k;
      DropFits(low / 2, high, n - 1, k);
    }
  }

  /** Splitting off one byte. */
  lemma ByteSplit(b: nat, q: nat, bits: nat)
    requires bits >= 8 && b < Pow2(bits)
    ensures b / 256 < Pow2(bits - 8)
    ensures Shl(q, bits) == 256 * Shl(q, bits - 8)
  {
    ShlFixed(b / 256, 8);
    DropFits(b % 256, b / 256, 8, bits - 8);
    ShlShl(q, bits - 8, 8);
    ShlFixed(Shl(q, bits - 8), 8);
  }

  lemma {:induction false} OrWithZero(b: nat)
    ensures BitOr(0, b) == b
  {
    if b > 0 {
      OrWithZero(b / 2);
    }
  }

  lemma {:induction false} OrZeroIff(a: nat, b: nat)
    ensures BitOr(a, b) == 0 <==> a == 0 && b == 0
    decreases a + b
  {
    if a + b > 0 {
      OrZeroIff(a / 2, b / 2);
    }
  }

  /** Or-ing in a value shifted past every set bit is addition. */
  lemma {:induction false} OrDisjoint(a: nat, x: nat, n: nat)
    requires a < Pow2(n)
    ensures BitOr(a, Shl(x, n)) == a + Shl(x, n)
    decreases n
  {
    if n == 0 {
      OrWithZero(x);
    } else {
      OrDisjoint(a / 2, x, n - 1);
      assert Shl(x, n) / 2 == Shl(x, n - 1);
    }
  }

  // ---- Little-endian values of byte strings ----

  function LittleEndian(s: seq<Byte>): (v: nat)
  {
    if s == [] then 0 else s[0] + 256 * LittleEndian(s[1..])
  }

  lemma {:induction false} LittleEndianAppend(s: seq<Byte>, x: Byte)
    ensures LittleEndian(s + [x]) == LittleEndian(s) + Shl(x, 8 * |s|)
  {
    if s == [] {
      assert s + [x] == [x];
      assert LittleEndian([x][1..]) == 0;
    } else {
      assert (s + [x])[1..] == s[1..] + [x];
      LittleEndianAppend(s[1..], x);
      var n := 8 * (|s| - 1);
      ShlShl(x, n, 8);
      ShlFixed(Shl(x, n), 8);
      assert n + 8 == 8 * |s|;
    }
  }
}
