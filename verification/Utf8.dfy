/** Well-formed UTF-8, by the table of section 4 of RFC 3629.  The only fact needed about it is that
    cutting a well-formed text at an ASCII byte leaves well-formed pieces. */
module Utf8 {
  import opened Prelude
  import opened PathText

  predicate Tail(b: Byte) {
    0x80 <= b < 0xC0
  }

  /** The length of the character at the front of `s`, or 0 if there is none. */
  function CharLen(s: seq<Byte>): (n: nat)
    ensures n <= |s| && n <= 4
    ensures forall k :: 1 <= k < n ==> Tail(s[k])
  {
    if s == [] then 0
    else if s[0] < 0x80 then 1
    else if 0xC2 <= s[0] < 0xE0 then
      if |s| >= 2 && Tail(s[1]) then 2 else 0
    else if 0xE0 <= s[0] < 0xF0 then
      if |s| >= 3 && Tail(s[1]) && Tail(s[2])
         && (s[0] == 0xE0 ==> s[1] >= 0xA0) && (s[0] == 0xED ==> s[1] < 0xA0) then 3 else 0
    else if 0xF0 <= s[0] < 0xF5 then
      if |s| >= 4 && Tail(s[1]) && Tail(s[2]) && Tail(s[3])
         && (s[0] == 0xF0 ==> s[1] >= 0x90) && (s[0] == 0xF4 ==> s[1] < 0x90) then 4 else 0
    else 0
  }

  predicate WellFormed(s: seq<Byte>) {
    s == [] || (CharLen(s) > 0 && WellFormed(s[CharLen(s)..]))
  }

  lemma {:induction false} CutAtAscii(a: seq<Byte>, x: Byte, b: seq<Byte>)
    requires x < 0x80 && WellFormed(a + [x] + b)
    ensures WellFormed(a) && WellFormed(b)
  {
    var s := a + [x] + b;
    if a == [] {
      assert s[0] == x && s[1..] == b;
    } else {
      var n := CharLen(s);
      assert !Tail(s[|a|]);
      assert n <= |a|;
      assert CharLen(a) == n;
      assert s[n..] == a[n..] + [x] + b;
      CutAtAscii(a[n..], x, b);
    }
  }

  /** Every part of a well-formed text is well formed. */
  lemma {:induction false} PartsWellFormed(parts: seq<seq<Byte>>, sep: Byte)
    requires sep < 0x80 && WellFormed(Join(parts, sep))
    ensures forall i :: 0 <= i < |parts| ==> WellFormed(parts[i])
  {
    if |parts| > 1 {
      CutAtAscii(parts[0], sep, Join(parts[1..], sep));
      PartsWellFormed(parts[1..], sep);
    }
  }
}
