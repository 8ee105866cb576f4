// Content-addressed identifiers (crates/cgx-core/src/id.rs): a length-prefixed encoding hashed with
// 64-bit FNV-1a.
module Identity {
  const TWO_32: nat := 0x1_0000_0000
  const TWO_64: nat := 0x1_0000_0000_0000_0000

  type Byte = n: nat | n < 256
  type U32 = n: nat | n < TWO_32
  type U64 = n: nat | n < TWO_64
  type Bytes = seq<Byte>

  const FNV_OFFSET: U64 := 0xcbf2_9ce4_8422_2325
  const FNV_PRIME: U64 := 0x0000_0100_0000_01b3
  // The inverse of the prime modulo two to the 64.
  const FNV_INVERSE: U64 := 0xce96_5057_aff6_957b

  // ---- machine arithmetic ----

  // Bitwise exclusive or.
  function Xor(x: nat, y: nat): nat {
    if x == 0 && y == 0 then 0 else (x % 2 + y % 2) % 2 + 2 * Xor(x / 2, y / 2)
  }

  lemma XorDigits(x: nat, y: nat)
    ensures Xor(x, y) % 2 == (x % 2 + y % 2) % 2 && Xor(x, y) / 2 == Xor(x / 2, y / 2)
  {
  }

  lemma SameParity(x: nat, y: nat, z: nat)
    requires z % 2 == (x % 2 + y % 2) % 2
    ensures (z % 2 + y % 2) % 2 == x % 2
  {
  }

  lemma SameDigits(a: nat, b: nat)
    requires a % 2 == b % 2 && a / 2 == b / 2
    ensures a == b
  {
  }

  lemma {:induction false} XorTwice(x: nat, y: nat)
    ensures Xor(Xor(x, y), y) == x
    decreases x + y
  {
    if x != 0 || y != 0 {
      var z := Xor(x, y);
      XorTwice(x / 2, y / 2);
      XorDigits(x, y);
      XorDigits(z, y);
      SameParity(x, y, z);
      SameDigits(Xor(z, y), x);
    }
  }

  function Pow2(k: nat): nat {
    if k == 0 then 1 else 2 * Pow2(k - 1)
  }

  lemma {:induction false} XorFits(x: nat, y: nat, k: nat)
    requires x < Pow2(k) && y < Pow2(k)
    ensures Xor(x, y) < Pow2(k)
    decreases k
  {
    if k > 0 {
      XorFits(x / 2, y / 2, k - 1);
    }
  }

  lemma Pow2Is64()
    ensures Pow2(64) == TWO_64
  {
    assert Pow2(8) == 256;
    assert Pow2(16) == 0x1_0000;
    assert Pow2(24) == 0x100_0000;
    assert Pow2(32) == TWO_32;
    assert Pow2(40) == 0x100_0000_0000;
    assert Pow2(48) == 0x1_0000_0000_0000;
    assert Pow2(56) == 0x100_0000_0000_0000;
  }

  function Xor64(x: U64, y: Byte): U64 {
    Pow2Is64();
    XorFits(x, y, 64);
    Xor(x, y)
  }

  // Wrapping multiplication.
  function Times(x: U64, y: U64): U64 {
    x * y % TWO_64
  }

  lemma ModOf(a: int, k: int, r: nat)
    requires r < TWO_64 && a == r + TWO_64 * k
    ensures a % TWO_64 == r
  {
  }

  lemma TimesInverse(x: U64)
    ensures Times(Times(x, FNV_PRIME), FNV_INVERSE) == x
  {
    var q, y := x * FNV_PRIME / TWO_64, Times(x, FNV_PRIME);
    var k := (FNV_PRIME * FNV_INVERSE - 1) / TWO_64;
    assert x * FNV_PRIME == q * TWO_64 + y;
    assert FNV_PRIME * FNV_INVERSE == 1 + k * TWO_64;
    assert y * FNV_INVERSE == x * FNV_PRIME * FNV_INVERSE - q * TWO_64 * FNV_INVERSE;
    assert x * FNV_PRIME * FNV_INVERSE == x + x * k * TWO_64;
    ModOf(y * FNV_INVERSE, x * k - q * FNV_INVERSE, x);
  }

  lemma InverseTimes(x: U64)
    ensures Times(Times(x, FNV_INVERSE), FNV_PRIME) == x
  {
    var q, y := x * FNV_INVERSE / TWO_64, Times(x, FNV_INVERSE);
    var k := (FNV_PRIME * FNV_INVERSE - 1) / TWO_64;
    assert x * FNV_INVERSE == q * TWO_64 + y;
    assert FNV_PRIME * FNV_INVERSE == 1 + k * TWO_64;
    assert y * FNV_PRIME == x * FNV_INVERSE * FNV_PRIME - q * TWO_64 * FNV_PRIME;
    assert x * FNV_INVERSE * FNV_PRIME == x + x * k * TWO_64;
    ModOf(y * FNV_PRIME, x * k - q * FNV_PRIME, x);
  }

  // ---- hashing ----

  function FoldByte(hash: U64, byte: Byte): U64 {
    Times(Xor64(hash, byte), FNV_PRIME)
  }

  function Fold(hash: U64, bytes: Bytes): U64
    decreases |bytes|
  {
    if bytes == [] then hash else Fold(FoldByte(hash, bytes[0]), bytes[1..])
  }

  function UnfoldByte(hash: U64, byte: Byte): U64 {
    Xor64(Times(hash, FNV_INVERSE), byte)
  }

  // Every step is a bijection of the state.
  lemma StepIsBijective(hash: U64, byte: Byte)
    ensures UnfoldByte(FoldByte(hash, byte), byte) == hash
    ensures FoldByte(UnfoldByte(hash, byte), byte) == hash
  {
    TimesInverse(Xor64(hash, byte));
    InverseTimes(hash);
    XorTwice(hash, byte);
    XorTwice(Times(hash, FNV_INVERSE), byte);
  }

  lemma {:induction false} XorCommutes(x: nat, y: nat)
    ensures Xor(x, y) == Xor(y, x)
    decreases x + y
  {
    if x != 0 || y != 0 {
      XorCommutes(x / 2, y / 2);
    }
  }

  // Different bytes take one state to different states.
  lemma StepTellsBytesApart(hash: U64, a: Byte, b: Byte)
    requires a != b
    ensures FoldByte(hash, a) != FoldByte(hash, b)
  {
    TimesInverse(Xor64(hash, a));
    TimesInverse(Xor64(hash, b));
    XorCommutes(hash, a);
    XorCommutes(hash, b);
    XorTwice(a, hash);
    XorTwice(b, hash);
  }

  lemma {:induction false} FoldTellsStatesApart(g: U64, h: U64, bytes: Bytes)
    requires g != h
    ensures Fold(g, bytes) != Fold(h, bytes)
    decreases |bytes|
  {
    if bytes != [] {
      StepIsBijective(g, bytes[0]);
      StepIsBijective(h, bytes[0]);
      FoldTellsStatesApart(FoldByte(g, bytes[0]), FoldByte(h, bytes[0]), bytes[1..]);
    }
  }

  lemma {:induction false} FoldAppend(hash: U64, s: Bytes, t: Bytes)
    ensures Fold(hash, s + t) == Fold(Fold(hash, s), t)
    decreases |s|
  {
    if s == [] {
      assert s + t == t;
    } else {
      FoldAppend(FoldByte(hash, s[0]), s[1..], t);
      assert (s + t)[1..] == s[1..] + t;
    }
  }

  // Streams that differ in exactly one position never collide.
  lemma OneByteNeverCollides(hash: U64, pre: Bytes, a: Byte, b: Byte, post: Bytes)
    requires a != b
    ensures Fold(hash, pre + [a] + post) != Fold(hash, pre + [b] + post)
  {
    var h := Fold(hash, pre);
    FoldAppend(hash, pre, [a]);
    FoldAppend(hash, pre, [b]);
    FoldAppend(hash, pre + [a], post);
    FoldAppend(hash, pre + [b], post);
    FoldOne(h, a);
    FoldOne(h, b);
    StepTellsBytesApart(h, a, b);
    FoldTellsStatesApart(FoldByte(h, a), FoldByte(h, b), post);
  }

  lemma FoldOne(h: U64, a: Byte)
    ensures Fold(h, [a]) == FoldByte(h, a)
  {
    assert [a][1..] == [];
  }

  // ---- encoding ----

  function LittleEndian(n: U32): (b: Bytes)
    ensures |b| == 4
  {
    [n % 256, n / 256 % 256, n / 0x1_0000 % 256, n / 0x100_0000 % 256]
  }

  function LengthPrefix(s: Bytes): U32 {
    |s| % TWO_32
  }

  function EncodeStr(s: Bytes): Bytes {
    LittleEndian(LengthPrefix(s)) + s
  }

  lemma Digits256(n: nat)
    requires n < TWO_32
    ensures n == n % 256 + 256 * (n / 256 % 256) + 0x1_0000 * (n / 0x1_0000 % 256) + 0x100_0000 * (n / 0x100_0000 % 256)
  {
  }

  lemma LittleEndianInjective(m: U32, n: U32)
    requires LittleEndian(m) == LittleEndian(n)
    ensures m == n
  {
    var a, b := LittleEndian(m), LittleEndian(n);
    assert a[0] == b[0] && a[1] == b[1] && a[2] == b[2] && a[3] == b[3];
    Digits256(m);
    Digits256(n);
  }

  lemma SplitEqual(s: Bytes, t: Bytes, p: Bytes, q: Bytes)
    requires |s| == |t| && s + p == t + q
    ensures s == t && p == q
  {
    assert (s + p)[..|s|] == s && (t + q)[..|t|] == t;
    assert (s + p)[|s|..] == p && (t + q)[|t|..] == q;
  }

  // The length prefix says where a string ends, so what follows is not confused with it.
  lemma StrThenRest(s: Bytes, t: Bytes, p: Bytes, q: Bytes)
    requires |s| < TWO_32 && |t| < TWO_32 && EncodeStr(s) + p == EncodeStr(t) + q
    ensures s == t && p == q
  {
    var m, n := LengthPrefix(s), LengthPrefix(t);
    assert EncodeStr(s) + p == LittleEndian(m) + (s + p);
    assert EncodeStr(t) + q == LittleEndian(n) + (t + q);
    SplitEqual(LittleEndian(m), LittleEndian(n), s + p, t + q);
    LittleEndianInjective(m, n);
    SplitEqual(s, t, p, q);
  }

  datatype Site = Site(caller: Bytes, file: Bytes, line: U32, col: U32)

  datatype SsaValue = SsaValue(fn: Bytes, ssaLocal: Bytes, version: U32, line: U32, col: U32)

  function SiteBytes(x: Site): Bytes {
    EncodeStr(x.caller) + (EncodeStr(x.file) + (LittleEndian(x.line) + LittleEndian(x.col)))
  }

  function ValueBytes(x: SsaValue): Bytes {
    EncodeStr(x.fn) + (EncodeStr(x.ssaLocal)
      + (LittleEndian(x.version) + (LittleEndian(x.line) + LittleEndian(x.col))))
  }

  predicate Short(s: Bytes) {
    |s| < TWO_32
  }

  // The encoding loses nothing of an identity tuple.
  lemma SiteBytesInjective(x: Site, y: Site)
    requires Short(x.caller) && Short(x.file) && Short(y.caller) && Short(y.file)
    requires SiteBytes(x) == SiteBytes(y)
    ensures x == y
  {
    var p, q := LittleEndian(x.line) + LittleEndian(x.col), LittleEndian(y.line) + LittleEndian(y.col);
    StrThenRest(x.caller, y.caller, EncodeStr(x.file) + p, EncodeStr(y.file) + q);
    StrThenRest(x.file, y.file, p, q);
    SplitEqual(LittleEndian(x.line), LittleEndian(y.line), LittleEndian(x.col), LittleEndian(y.col));
    LittleEndianInjective(x.line, y.line);
    LittleEndianInjective(x.col, y.col);
  }

  lemma ValueBytesInjective(x: SsaValue, y: SsaValue)
    requires Short(x.fn) && Short(x.ssaLocal) && Short(y.fn) && Short(y.ssaLocal)
    requires ValueBytes(x) == ValueBytes(y)
    ensures x == y
  {
    var p, q := LittleEndian(x.line) + LittleEndian(x.col), LittleEndian(y.line) + LittleEndian(y.col);
    var v, w := LittleEndian(x.version), LittleEndian(y.version);
    StrThenRest(x.fn, y.fn, EncodeStr(x.ssaLocal) + (v + p), EncodeStr(y.ssaLocal) + (w + q));
    StrThenRest(x.ssaLocal, y.ssaLocal, v + p, w + q);
    SplitEqual(v, w, p, q);
    SplitEqual(LittleEndian(x.line), LittleEndian(y.line), LittleEndian(x.col), LittleEndian(y.col));
    LittleEndianInjective(x.version, y.version);
    LittleEndianInjective(x.line, y.line);
    LittleEndianInjective(x.col, y.col);
  }

  // ---- the hashing methods ----

  // The one hash variable that the `fold` functions update.
  class Hasher {
    var hash: U64

    constructor ()
      ensures hash == FNV_OFFSET
    {
      hash := FNV_OFFSET;
    }

    method FoldBytes(bytes: Bytes)
      modifies this
      ensures hash == Fold(old(hash), bytes)
    {
      for i := 0 to |bytes|
        invariant hash == Fold(old(hash), bytes[..i])
      {
        assert bytes[..i + 1] == bytes[..i] + [bytes[i]];
        FoldAppend(old(hash), bytes[..i], [bytes[i]]);
        FoldOne(hash, bytes[i]);
        hash := FoldByte(hash, bytes[i]);
      }
      assert bytes[..|bytes|] == bytes;
    }

    method FoldU32(value: U32)
      modifies this
      ensures hash == Fold(old(hash), LittleEndian(value))
    {
      FoldBytes(LittleEndian(value));
    }

    method FoldStr(s: Bytes)
      modifies this
      ensures hash == Fold(old(hash), EncodeStr(s))
    {
      FoldAppend(hash, LittleEndian(LengthPrefix(s)), s);
      FoldU32(LengthPrefix(s));
      FoldBytes(s);
    }
  }

  method DeriveSite(x: Site) returns (id: U64)
    ensures id == Fold(FNV_OFFSET, SiteBytes(x))
  {
    var h := new Hasher();
    var c, f, l, k := EncodeStr(x.caller), EncodeStr(x.file), LittleEndian(x.line), LittleEndian(x.col);
    FoldAppend(FNV_OFFSET, c, f + (l + k));
    FoldAppend(Fold(FNV_OFFSET, c), f, l + k);
    FoldAppend(Fold(Fold(FNV_OFFSET, c), f), l, k);
    h.FoldStr(x.caller);
    h.FoldStr(x.file);
    h.FoldU32(x.line);
    h.FoldU32(x.col);
    id := h.hash;
  }

  method DeriveValue(x: SsaValue) returns (id: U64)
    ensures id == Fold(FNV_OFFSET, ValueBytes(x))
  {
    var h := new Hasher();
    var n, s, v := EncodeStr(x.fn), EncodeStr(x.ssaLocal), LittleEndian(x.version);
    var l, k := LittleEndian(x.line), LittleEndian(x.col);
    FoldAppend(FNV_OFFSET, n, s + (v + (l + k)));
    FoldAppend(Fold(FNV_OFFSET, n), s, v + (l + k));
    FoldAppend(Fold(Fold(FNV_OFFSET, n), s), v, l + k);
    FoldAppend(Fold(Fold(Fold(FNV_OFFSET, n), s), v), l, k);
    h.FoldStr(x.fn);
    h.FoldStr(x.ssaLocal);
    h.FoldU32(x.version);
    h.FoldU32(x.line);
    h.FoldU32(x.col);
    id := h.hash;
  }

  // ---- what never collides ----

  lemma SmallColumns(m: U32, n: U32)
    requires m < 256 && n < 256 && m != n
    ensures LittleEndian(m) == [LittleEndian(m)[0]] + [0, 0, 0]
    ensures LittleEndian(n) == [LittleEndian(n)[0]] + [0, 0, 0]
    ensures LittleEndian(m)[0] != LittleEndian(n)[0]
  {
  }

  // Two call sites on one line, in columns below 256, always get different ids.
  lemma ColumnsNeverCollide(caller: Bytes, file: Bytes, line: U32, m: U32, n: U32)
    requires m < 256 && n < 256 && m != n
    ensures Fold(FNV_OFFSET, SiteBytes(Site(caller, file, line, m)))
         != Fold(FNV_OFFSET, SiteBytes(Site(caller, file, line, n)))
  {
    var pre := EncodeStr(caller) + EncodeStr(file) + LittleEndian(line);
    var a, b, zeros := LittleEndian(m)[0], LittleEndian(n)[0], [0, 0, 0];
    SmallColumns(m, n);
    assert SiteBytes(Site(caller, file, line, m)) == pre + [a] + zeros;
    assert SiteBytes(Site(caller, file, line, n)) == pre + [b] + zeros;
    OneByteNeverCollides(FNV_OFFSET, pre, a, b, zeros);
  }
}
