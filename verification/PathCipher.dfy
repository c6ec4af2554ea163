/** The filename path cipher (src/encryption/path.rs): every component is padded with zero bytes,
    encrypted under its plaintext parent path as tweak, and written in base91.

    HCTR2 is a parameter: for every tweak a length-preserving permutation with its inverse. */
module PathCipher {
  import opened Prelude
  import opened Bits
  import opened PathText
  import Base91
  import Utf8

  type Text = seq<Byte>

  const SLASH: Byte := 47
  const PAD_BLOCK: nat := 32
  const MIN_ZERO_PAD: nat := 12
  const NAME_MAX: nat := 255

  datatype PathError = InvalidName | NameTooLong
  datatype Result<+T> = Ok(value: T) | Err(error: PathError)

  /** A keyed HCTR2: `enc(message, tweak)` and `dec(message, tweak)`. */
  datatype Hctr2 = Hctr2(enc: (Text, Text) -> Text, dec: (Text, Text) -> Text) {
    ghost predicate Sound() {
      && (forall m, w :: |enc(m, w)| == |m| && dec(enc(m, w), w) == m)
      && (forall m, w :: |dec(m, w)| == |m|)
    }
  }

  // ---- Names ----

  predicate ValidName(name: Text) {
    name != [] && 0 !in name && SLASH !in name
  }

  function EncodedFits(len: nat): (r: bool) {
    Base91.EncodedLenUpperBound(len) <= NAME_MAX
  }

  function EncryptInputLen(nameLen: nat): (r: Option<nat>) {
    var minLen := nameLen + MIN_ZERO_PAD;
    var padded := (minLen + PAD_BLOCK - 1) / PAD_BLOCK * PAD_BLOCK;
    if EncodedFits(padded) then Some(padded)
    else if EncodedFits(minLen) then Some(minLen)
    else None
  }

  /** Exactly the names of up to 194 bytes fit, and the padded input always has room for the zero
      bytes that authenticate it. */
  lemma FitsIff(nameLen: nat)
    ensures EncryptInputLen(nameLen).Some? <==> nameLen <= 194
    ensures EncryptInputLen(nameLen).Some? ==>
              var n := EncryptInputLen(nameLen).value;
              n >= PAD_BLOCK && n >= nameLen + MIN_ZERO_PAD && EncodedFits(n)
  {
  }

  /** The input is padded to the next multiple of 32 if its encoding fits a file name, and to 12 bytes more otherwise. */
  lemma PaddingIs(nameLen: nat, m: nat)
    requires nameLen <= 194 && m % 32 == 0 && nameLen + 12 <= m < nameLen + 12 + 32
    ensures EncryptInputLen(nameLen) == Some(if Base91.EncodedLenUpperBound(m) <= 255 then m else nameLen + 12)
  {
    FitsIff(nameLen);
    NextMultiple(nameLen + 12, m);
  }

  lemma NextMultiple(n: nat, m: nat)
    requires m % 32 == 0 && n <= m < n + 32
    ensures (n + 31) / 32 * 32 == m
  {
    assert m == m / 32 * 32;
    assert (n + 31) / 32 == m / 32;
  }

  predicate Accepted(name: Text) {
    ValidName(name) && |name| <= 194
  }

  function NameError(name: Text): (e: PathError) {
    if ValidName(name) then NameTooLong else InvalidName
  }

  // ---- Components ----

  function Zeros(n: nat): (z: Text)
    ensures |z| == n && forall i :: 0 <= i < n ==> z[i] == 0
  {
    seq(n, _ => 0)
  }

  ghost function Padded(name: Text): (p: Text)
    requires EncryptInputLen(|name|).Some?
  {
    FitsIff(|name|);
    Zeros(EncryptInputLen(|name|).value - |name|) + name
  }

  ghost function EncryptName(h: Hctr2, name: Text, parent: Text): (r: Text)
    requires EncryptInputLen(|name|).Some?
  {
    Base91.EncodeText(h.enc(Padded(name), parent))
  }

  function StripNuls(s: Text): (r: Text) {
    if s != [] && s[0] == 0 then StripNuls(s[1..]) else s
  }

  ghost predicate ZeroPadded(p: Text) {
    MIN_ZERO_PAD <= |p| && forall i :: 0 <= i < MIN_ZERO_PAD ==> p[i] == 0
  }

  ghost function DecryptName(h: Hctr2, stored: Text, parent: Text): (r: Option<Text>) {
    match Base91.DecodeText(stored)
    case Err(_) => None
    case Ok(c) =>
      var p := h.dec(c, parent);
      if |c| < PAD_BLOCK || !ZeroPadded(p) then None
      else
        var name := StripNuls(p);
        if Utf8.WellFormed(name) && ValidName(name) then Some(name) else None
  }

  method CheckNameLen(name: Text) returns (r: Result<()>)
    ensures r == if Accepted(name) then Ok(()) else Err(NameError(name))
    ensures r == Err(InvalidName) <==> name == [] || 0 in name || 47 in name
    ensures r == Err(NameTooLong) <==> name != [] && 0 !in name && 47 !in name && |name| > 194
  {
    FitsIff(|name|);
    if name == [] || 0 in name || SLASH in name {
      return Err(InvalidName);
    }
    match EncryptInputLen(|name|)
    case None => return Err(NameTooLong);
    case Some(_) => return Ok(());
  }

  method EncryptComponent(h: Hctr2, name: Text, parent: Text, ghost n: Namer) returns (r: Result<Text>)
    requires n == NamerOf(h)
    ensures r.Ok? <==> Accepted(name)
    ensures r.Ok? ==> r.value == n.enc(name, parent)
    ensures r.Err? ==> r.error == NameError(name)
    ensures r == Err(InvalidName) <==> name == [] || 0 in name || 47 in name
    ensures r == Err(NameTooLong) <==> name != [] && 0 !in name && 47 !in name && |name| > 194
    ensures r.Ok? ==> Seals(h, name, parent, r.value)
  {
    FitsIff(|name|);
    if name == [] || 0 in name || SLASH in name {
      return Err(InvalidName);
    }
    match EncryptInputLen(|name|)
    case None => return Err(NameTooLong);
    case Some(len) =>
      var buf := Zeros(len);
      buf := buf[..len - |name|] + name;
      assert buf == Padded(name);
      var out := Base91.Encode(h.enc(buf, parent));
      Sealed(h, name, parent);
      return Ok(out);
  }

  /** The stored text is base91 for the encryption, under the parent path, of at least 12 zero bytes and the name, as many
      as the padding has. */
  ghost predicate Seals(h: Hctr2, name: Text, parent: Text, stored: Text) {
    exists pad: Text ::
      && (forall i :: 0 <= i < |pad| ==> pad[i] == 0) && |pad| >= 12 && EncryptInputLen(|name|) == Some(|pad| + |name|)
      && stored == Base91.EncodeText(h.enc(pad + name, parent))
  }

  lemma Sealed(h: Hctr2, name: Text, parent: Text)
    requires EncryptInputLen(|name|).Some?
    ensures Seals(h, name, parent, EncryptName(h, name, parent))
  {
    FitsIff(|name|);
    var pad := Zeros(EncryptInputLen(|name|).value - |name|);
    assert Padded(name) == pad + name;
  }

  method StripLeadingNuls(bytes: Text) returns (r: Text)
    ensures r == StripNuls(bytes)
  {
    var start := 0;
    while start < |bytes| && bytes[start] == 0
      invariant 0 <= start <= |bytes|
      invariant StripNuls(bytes[start..]) == StripNuls(bytes)
    {
      assert bytes[start..][1..] == bytes[start + 1..];
      start := start + 1;
    }
    r := bytes[start..];
    assert StripNuls(r) == r;
  }

  method DecryptComponent(h: Hctr2, stored: Text, parent: Text, ghost n: Namer) returns (r: Option<Text>)
    requires h.Sound() && n == NamerOf(h)
    ensures r == n.dec(stored, parent)
    ensures r.Some? ==> ValidName(r.value)
    ensures forall name :: r == Some(name) <==> Opens(h, stored, parent, name)
  {
    OpensIff(h, stored, parent);
    var d := Base91.Decode(stored);
    if d.Err? || |d.value| < PAD_BLOCK {
      return None;
    }
    var plaintext := h.dec(d.value, parent);
    var acc: nat := 0;
    for i := 0 to MIN_ZERO_PAD
      invariant acc == 0 <==> forall k :: 0 <= k < i ==> plaintext[k] == 0
    {
      OrZeroIff(acc, plaintext[i]);
      acc := BitOr(acc, plaintext[i]);
    }
    if acc != 0 {
      return None;
    }
    var name := StripLeadingNuls(plaintext);
    if !Utf8.WellFormed(name) || name == [] || 0 in name || SLASH in name {
      return None;
    }
    return Some(name);
  }

  // ---- What decrypts ----

  /** The stored text is base91 for at least 32 bytes that decrypt to at least 12 zero bytes and then the name; the name
      is a valid one in UTF-8. */
  ghost predicate Opens(h: Hctr2, stored: Text, parent: Text, name: Text) {
    && name != [] && 0 !in name && 47 !in name && Utf8.WellFormed(name)
    && exists c: Text, pad: Text ::
         && Base91.DecodeText(stored) == Base91.Ok(c) && |c| >= 32 && |pad| >= 12
         && (forall i :: 0 <= i < |pad| ==> pad[i] == 0) && h.dec(c, parent) == pad + name
  }

  lemma OpensIff(h: Hctr2, stored: Text, parent: Text)
    requires h.Sound()
    ensures forall name :: DecryptName(h, stored, parent) == Some(name) <==> Opens(h, stored, parent, name)
  {
    forall name
      ensures DecryptName(h, stored, parent) == Some(name) <==> Opens(h, stored, parent, name)
    {
      if Opens(h, stored, parent, name) {
        Opened(h, stored, parent, name);
      } else if DecryptName(h, stored, parent) == Some(name) {
        Decrypted(h, stored, parent, name);
      }
    }
  }

  lemma Opened(h: Hctr2, stored: Text, parent: Text, name: Text)
    requires h.Sound() && Opens(h, stored, parent, name)
    ensures DecryptName(h, stored, parent) == Some(name)
  {
    var c: Text, pad: Text :| Base91.DecodeText(stored) == Base91.Ok(c) && |c| >= 32 && |pad| >= 12
      && (forall i :: 0 <= i < |pad| ==> pad[i] == 0) && h.dec(c, parent) == pad + name;
    assert pad == Zeros(|pad|);
    StripZeros(|pad|, name);
    assert ZeroPadded(pad + name);
  }

  lemma Decrypted(h: Hctr2, stored: Text, parent: Text, name: Text)
    requires DecryptName(h, stored, parent) == Some(name)
    ensures Opens(h, stored, parent, name)
  {
    var c := Base91.DecodeText(stored).value;
    var p := h.dec(c, parent);
    var pad := NulsThen(p);
    LongPad(p, pad, name);
    assert h.dec(c, parent) == pad + name;
  }

  lemma LongPad(p: Text, pad: Text, name: Text)
    requires p == pad + name && name != [] && name[0] != 0 && ZeroPadded(p)
    ensures |pad| >= 12
  {
    assert p[|pad|] == name[0];
  }

  /** A text is its leading NULs and what is left without them. */
  lemma {:induction false} NulsThen(s: Text) returns (pad: Text)
    ensures s == pad + StripNuls(s) && (forall i :: 0 <= i < |pad| ==> pad[i] == 0)
    ensures StripNuls(s) != [] ==> StripNuls(s)[0] != 0
  {
    if s != [] && s[0] == 0 {
      var rest := NulsThen(s[1..]);
      pad := [0] + rest;
      assert s == [s[0]] + s[1..];
    } else {
      pad := [];
    }
  }

  // ---- A component comes back ----

  lemma {:induction false} StripZeros(n: nat, name: Text)
    requires name != [] && name[0] != 0
    ensures StripNuls(Zeros(n) + name) == name
  {
    if n == 0 {
      assert Zeros(0) + name == name;
    } else {
      assert (Zeros(n) + name)[1..] == Zeros(n - 1) + name;
      StripZeros(n - 1, name);
    }
  }

  lemma PaddedStrips(name: Text)
    requires Accepted(name) && EncryptInputLen(|name|).Some?
    ensures |Padded(name)| >= PAD_BLOCK && ZeroPadded(Padded(name)) && StripNuls(Padded(name)) == name
  {
    FitsIff(|name|);
    StripZeros(EncryptInputLen(|name|).value - |name|, name);
  }

  lemma DecryptsTo(h: Hctr2, stored: Text, parent: Text, c: Text, name: Text)
    requires h.Sound() && Accepted(name) && Utf8.WellFormed(name) && EncryptInputLen(|name|).Some?
    requires Base91.DecodeText(stored) == Base91.Ok(c) && c == h.enc(Padded(name), parent)
    ensures DecryptName(h, stored, parent) == Some(name)
  {
    PaddedStrips(name);
    var p := Padded(name);
    assert h.dec(c, parent) == p && |c| == |p|;
  }

  lemma ComponentRoundTrip(h: Hctr2, name: Text, parent: Text)
    requires h.Sound() && Accepted(name) && Utf8.WellFormed(name)
    ensures EncryptInputLen(|name|).Some?
    ensures DecryptName(h, EncryptName(h, name, parent), parent) == Some(name)
  {
    FitsIff(|name|);
    var c := h.enc(Padded(name), parent);
    Base91.RoundTrip(c);
    DecryptsTo(h, Base91.EncodeText(c), parent, c, name);
  }

  /** What is stored is a component of at most `NAME_MAX` bytes. */
  lemma StoredComponent(h: Hctr2, name: Text, parent: Text)
    requires h.Sound() && Accepted(name)
    ensures EncryptInputLen(|name|).Some?
    ensures var s := EncryptName(h, name, parent);
            Component(s, SLASH) && 0 !in s && |s| <= NAME_MAX
  {
    FitsIff(|name|);
    var c := h.enc(Padded(name), parent);
    Base91.EncodedLength(c);
    Base91.EncodedIsComponent(c);
  }

  // ---- Paths ----

  predicate AllAccepted(comps: seq<Text>) {
    forall i :: 0 <= i < |comps| ==> Accepted(comps[i])
  }

  predicate FirstRejected(comps: seq<Text>, i: int) {
    0 <= i < |comps| && AllAccepted(comps[..i]) && !Accepted(comps[i])
  }

  predicate AcceptedPath(path: Text) {
    path == [] || AllAccepted(Split(path, SLASH))
  }

  /** Encryption and decryption of one component under its parent path. */
  datatype Namer = Namer(enc: (Text, Text) -> Text, dec: (Text, Text) -> Option<Text>) {
    ghost predicate Sound() {
      && (forall name, parent :: Accepted(name) ==>
            && Component(enc(name, parent), SLASH) && 0 !in enc(name, parent) && |enc(name, parent)| <= NAME_MAX
            && (Utf8.WellFormed(name) ==> dec(enc(name, parent), parent) == Some(name)))
      && (forall stored, parent :: dec(stored, parent).Some? ==> ValidName(dec(stored, parent).value))
    }
  }

  ghost function NamerOf(h: Hctr2): (n: Namer) {
    Namer((name: Text, parent: Text) => if EncryptInputLen(|name|).Some? then EncryptName(h, name, parent) else [],
          (stored: Text, parent: Text) => DecryptName(h, stored, parent))
  }

  lemma NamerSound(h: Hctr2)
    requires h.Sound()
    ensures NamerOf(h).Sound()
  {
    var n := NamerOf(h);
    forall name, parent | Accepted(name)
      ensures && Component(n.enc(name, parent), SLASH) && 0 !in n.enc(name, parent) && |n.enc(name, parent)| <= NAME_MAX
              && (Utf8.WellFormed(name) ==> n.dec(n.enc(name, parent), parent) == Some(name))
    {
      StoredComponent(h, name, parent);
      if Utf8.WellFormed(name) { ComponentRoundTrip(h, name, parent); }
    }
  }

  /** Every component under the plaintext path above it. */
  ghost function EncryptParts(n: Namer, comps: seq<Text>): (r: seq<Text>)
    ensures |r| == |comps|
  {
    if comps == [] then []
    else
      var k := |comps| - 1;
      EncryptParts(n, comps[..k]) + [n.enc(comps[k], Join(comps[..k], SLASH))]
  }

  ghost function DecryptParts(n: Namer, stored: seq<Text>): (r: Option<seq<Text>>)
    ensures r.Some? ==> |r.value| == |stored|
  {
    if stored == [] then Some([])
    else
      var k := |stored| - 1;
      match DecryptParts(n, stored[..k])
      case None => None
      case Some(names) =>
        match n.dec(stored[k], Join(names, SLASH))
        case None => None
        case Some(name) => Some(names + [name])
  }

  ghost function EncryptText(n: Namer, path: Text): (r: Text) {
    if path == [] then [] else Join(EncryptParts(n, Split(path, SLASH)), SLASH)
  }

  ghost function DecryptText(n: Namer, stored: Text): (r: Option<Text>) {
    if stored == [] then Some([])
    else
      match DecryptParts(n, Split(stored, SLASH))
      case None => None
      case Some(names) => Some(Join(names, SLASH))
  }

  /** Every component is encrypted under the plaintext path above it. */
  ghost predicate Tweaked(n: Namer, comps: seq<Text>, stored: seq<Text>) {
    |stored| == |comps| && forall i :: 0 <= i < |comps| ==> stored[i] == n.enc(comps[i], Join(comps[..i], SLASH))
  }

  lemma {:induction false} TweaksAre(n: Namer, comps: seq<Text>)
    ensures Tweaked(n, comps, EncryptParts(n, comps))
  {
    if comps != [] {
      var k := |comps| - 1;
      TweaksAre(n, comps[..k]);
      forall i | 0 <= i < |comps|
        ensures EncryptParts(n, comps)[i] == n.enc(comps[i], Join(comps[..i], SLASH))
      {
        assert comps[..k][..i] == comps[..i];
      }
    }
  }

  /** And decrypted under the plaintext path decrypted so far. */
  ghost predicate Untweaked(n: Namer, stored: seq<Text>, names: seq<Text>) {
    |names| == |stored| && forall i :: 0 <= i < |stored| ==> n.dec(stored[i], Join(names[..i], SLASH)) == Some(names[i])
  }

  lemma UntweakedNext(n: Namer, stored: seq<Text>, names: seq<Text>)
    requires |names| == |stored| > 0
    ensures var k := |stored| - 1;
            Untweaked(n, stored, names) <==>
              Untweaked(n, stored[..k], names[..k]) && n.dec(stored[k], Join(names[..k], SLASH)) == Some(names[k])
  {
    var k := |stored| - 1;
    assert forall i :: 0 <= i < k ==> names[..k][..i] == names[..i] && stored[..k][i] == stored[i] && names[..k][i] == names[i];
  }

  lemma {:induction false} DecryptsUnder(n: Namer, stored: seq<Text>, names: seq<Text>)
    requires |names| == |stored|
    ensures DecryptParts(n, stored) == Some(names) <==> Untweaked(n, stored, names)
  {
    if stored == [] {
      assert names == [];
    } else {
      var k := |stored| - 1;
      DecryptsUnder(n, stored[..k], names[..k]);
      UntweakedNext(n, stored, names);
      var front := DecryptParts(n, stored[..k]);
      if front.Some? {
        LastApart(front.value, names);
      }
    }
  }

  lemma LastApart(front: seq<Text>, names: seq<Text>)
    requires |names| > 0 && |front| == |names| - 1
    ensures forall x :: front + [x] == names <==> front == names[..|front|] && x == names[|front|]
  {
    forall x | front + [x] == names
      ensures front == names[..|front|] && x == names[|front|]
    {
      assert (front + [x])[..|front|] == front && (front + [x])[|front|] == x;
    }
    assert names == names[..|front|] + [names[|front|]];
  }

  lemma EncryptsOneMore(n: Namer, comps: seq<Text>, i: nat)
    requires i < |comps|
    ensures EncryptParts(n, comps[..i + 1]) == EncryptParts(n, comps[..i]) + [n.enc(comps[i], Join(comps[..i], SLASH))]
    ensures comps[..i + 1] == comps[..i] + [comps[i]]
  {
    assert comps[..i + 1][..i] == comps[..i];
  }

  /** Appending a component to the tweak, as `push_component` does. */
  method PushComponent(parent: Text, comp: Text, ghost above: seq<Text>) returns (r: Text)
    requires parent == Join(above, SLASH) && comp != []
    requires forall i :: 0 <= i < |above| ==> above[i] != []
    ensures r == Join(above + [comp], SLASH)
  {
    r := parent;
    if above != [] {
      JoinConcat(above, [comp], SLASH);
      assert above[0] != [];
    }
    if r != [] {
      r := r + [SLASH];
    }
    r := r + comp;
  }

  method EncryptPath(h: Hctr2, path: Text) returns (r: Result<Text>)
    ensures r.Ok? <==> AcceptedPath(path)
    ensures r.Ok? ==> r.value == EncryptText(NamerOf(h), path)
    ensures r.Err? ==> exists i :: FirstRejected(Split(path, SLASH), i) && r.error == NameError(Split(path, SLASH)[i])
    ensures r.Ok? && path != [] ==> Tweaked(NamerOf(h), Split(path, SLASH), EncryptParts(NamerOf(h), Split(path, SLASH)))
  {
    TweaksAre(NamerOf(h), Split(path, SLASH));
    if path == [] {
      return Ok([]);
    }
    var comps := Split(path, SLASH);
    var encoded := EncryptAll(h, comps, NamerOf(h));
    match encoded
    case Err(e) => return Err(e);
    case Ok(parts) => return Ok(Join(parts, SLASH));
  }

  /** The components one after the other, up to the first that is rejected. */
  method EncryptAll(h: Hctr2, comps: seq<Text>, ghost n: Namer) returns (r: Result<seq<Text>>)
    requires n == NamerOf(h)
    ensures r.Ok? ==> AllAccepted(comps) && r.value == EncryptParts(n, comps)
    ensures r.Err? ==> exists i :: FirstRejected(comps, i) && r.error == NameError(comps[i])
  {
    var parent: Text := [];
    var encoded: seq<Text> := [];
    for i := 0 to |comps|
      invariant AllAccepted(comps[..i])
      invariant encoded == EncryptParts(n, comps[..i])
      invariant parent == Join(comps[..i], SLASH)
    {
      EncryptsOneMore(n, comps, i);
      var e := EncryptComponent(h, comps[i], parent, n);
      if e.Err? {
        assert FirstRejected(comps, i);
        return Err(e.error);
      }
      encoded := encoded + [e.value];
      parent := PushComponent(parent, comps[i], comps[..i]);
    }
    assert comps[..|comps|] == comps;
    return Ok(encoded);
  }

  lemma {:induction false} DecryptFails(n: Namer, stored: seq<Text>, k: nat)
    requires k <= |stored| && DecryptParts(n, stored[..k]).None?
    ensures DecryptParts(n, stored).None?
    decreases |stored|
  {
    if k < |stored| {
      assert stored[..|stored| - 1][..k] == stored[..k];
      DecryptFails(n, stored[..|stored| - 1], k);
    } else {
      assert stored[..k] == stored;
    }
  }

  lemma DecryptsNext(n: Namer, stored: seq<Text>, i: nat, names: seq<Text>)
    requires i < |stored| && DecryptParts(n, stored[..i]) == Some(names)
    ensures match n.dec(stored[i], Join(names, SLASH))
            case None => DecryptParts(n, stored).None?
            case Some(name) => DecryptParts(n, stored[..i + 1]) == Some(names + [name])
  {
    assert stored[..i + 1][..i] == stored[..i];
    if n.dec(stored[i], Join(names, SLASH)).None? {
      DecryptFails(n, stored, i + 1);
    }
  }

  method DecryptPath(h: Hctr2, stored: Text) returns (r: Option<Text>)
    requires h.Sound()
    ensures r == DecryptText(NamerOf(h), stored)
  {
    if stored == [] {
      return Some([]);
    }
    var comps := Split(stored, SLASH);
    ghost var n := NamerOf(h);
    var parent: Text := [];
    var plain: seq<Text> := [];
    for i := 0 to |comps|
      invariant DecryptParts(n, comps[..i]) == Some(plain)
      invariant parent == Join(plain, SLASH)
      invariant forall k :: 0 <= k < |plain| ==> plain[k] != []
    {
      DecryptsNext(n, comps, i, plain);
      var name := DecryptComponent(h, comps[i], parent, n);
      if name.None? {
        return None;
      }
      parent := PushComponent(parent, name.value, plain);
      plain := plain + [name.value];
    }
    assert comps[..|comps|] == comps;
    return Some(Join(plain, SLASH));
  }

  // ---- A path comes back ----

  lemma DecryptsOneMore(n: Namer, stored: seq<Text>, names: seq<Text>, last: Text, name: Text)
    requires DecryptParts(n, stored) == Some(names) && n.dec(last, Join(names, SLASH)) == Some(name)
    ensures DecryptParts(n, stored + [last]) == Some(names + [name])
  {
    assert (stored + [last])[..|stored|] == stored;
  }

  ghost predicate AllWellFormed(comps: seq<Text>) {
    forall i :: 0 <= i < |comps| ==> Utf8.WellFormed(comps[i])
  }

  lemma {:induction false} PartsRoundTrip(n: Namer, comps: seq<Text>)
    requires n.Sound() && AllAccepted(comps) && AllWellFormed(comps)
    ensures DecryptParts(n, EncryptParts(n, comps)) == Some(comps)
  {
    if comps != [] {
      var k := |comps| - 1;
      var parent := Join(comps[..k], SLASH);
      PartsRoundTrip(n, comps[..k]);
      assert Accepted(comps[k]) && Utf8.WellFormed(comps[k]);
      DecryptsOneMore(n, EncryptParts(n, comps[..k]), comps[..k], n.enc(comps[k], parent), comps[k]);
      assert comps[..k] + [comps[k]] == comps;
    }
  }

  lemma {:induction false} PartsStored(n: Namer, comps: seq<Text>)
    requires n.Sound() && AllAccepted(comps)
    ensures AllComponents(EncryptParts(n, comps), SLASH)
    ensures forall i :: 0 <= i < |comps| ==> |EncryptParts(n, comps)[i]| <= NAME_MAX && 0 !in EncryptParts(n, comps)[i]
  {
    if comps != [] {
      var k := |comps| - 1;
      PartsStored(n, comps[..k]);
      assert Accepted(comps[k]);
      var r := EncryptParts(n, comps);
      forall i | 0 <= i < |r|
        ensures Component(r[i], SLASH) && |r[i]| <= NAME_MAX && 0 !in r[i]
      {
        if i < k {
          assert r[i] == EncryptParts(n, comps[..k])[i];
          assert Component(EncryptParts(n, comps[..k])[i], SLASH);
        }
      }
    }
  }

  /** The stored path splits into the stored components, each of which a filesystem can hold. */
  lemma StoredSplits(n: Namer, path: Text)
    requires n.Sound() && AcceptedPath(path) && path != []
    ensures var parts := EncryptParts(n, Split(path, SLASH));
            && Split(EncryptText(n, path), SLASH) == parts && AllComponents(parts, SLASH) && EncryptText(n, path) != []
            && (forall i :: 0 <= i < |parts| ==> |parts[i]| <= NAME_MAX && 0 !in parts[i])
  {
    var parts := EncryptParts(n, Split(path, SLASH));
    PartsStored(n, Split(path, SLASH));
    ComponentsFree(parts, SLASH);
    SplitJoin(parts, SLASH);
    JoinNonEmpty(parts, SLASH);
  }

  lemma SplitWellFormed(path: Text)
    requires Utf8.WellFormed(path)
    ensures AllWellFormed(Split(path, SLASH))
  {
    JoinSplit(path, SLASH);
    Utf8.PartsWellFormed(Split(path, SLASH), SLASH);
  }

  /** Decryption undoes encryption for every path that encryption accepts. */
  lemma PathRoundTrip(n: Namer, path: Text)
    requires n.Sound() && AcceptedPath(path) && Utf8.WellFormed(path)
    ensures DecryptText(n, EncryptText(n, path)) == Some(path)
  {
    if path != [] {
      StoredSplits(n, path);
      JoinSplit(path, SLASH);
      SplitWellFormed(path);
      PartsRoundTrip(n, Split(path, SLASH));
    }
  }

  // ---- Encryption keeps the hierarchy ----

  lemma {:induction false} PrefixKept(n: Namer, comps: seq<Text>, i: nat)
    requires i <= |comps|
    ensures EncryptParts(n, comps)[..i] == EncryptParts(n, comps[..i])
    decreases |comps|
  {
    if i == |comps| {
      assert comps[..i] == comps;
    } else {
      var k := |comps| - 1;
      PrefixKept(n, comps[..k], i);
      assert comps[..k][..i] == comps[..i];
    }
  }

  /** A directory's stored components are a prefix of those of what is below it, and of nothing else. */
  lemma PrefixIff(n: Namer, dir: seq<Text>, path: seq<Text>)
    requires n.Sound() && AllAccepted(dir) && AllAccepted(path) && AllWellFormed(dir) && AllWellFormed(path)
    ensures dir <= path <==> EncryptParts(n, dir) <= EncryptParts(n, path)
    ensures dir < path <==> EncryptParts(n, dir) < EncryptParts(n, path)
  {
    var i := |dir|;
    if i <= |path| {
      PrefixKept(n, path, i);
      if dir != path[..i] && EncryptParts(n, dir) == EncryptParts(n, path[..i]) {
        PartsRoundTrip(n, path[..i]);
        PartsRoundTrip(n, dir);
      }
    }
  }

  /** The whole cipher, for every sound HCTR2: what encryption accepts, decryption gives back. */
  lemma CipherRoundTrip(h: Hctr2, path: Text)
    requires h.Sound() && AcceptedPath(path) && Utf8.WellFormed(path)
    ensures DecryptText(NamerOf(h), EncryptText(NamerOf(h), path)) == Some(path)
  {
    NamerSound(h);
    PathRoundTrip(NamerOf(h), path);
  }
}
