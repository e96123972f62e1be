// UTF-8 (RFC 3629, sections 3 and 4) the way Go's utf8.DecodeRune reads it:
// one scalar value, or an error that consumes a single byte.
module Utf8 {
  import opened Base

  const RUNE_ERROR: int := 0xFFFD

  type Scalar = r: int | 0 <= r < 0xD800 || 0xE000 <= r < 0x11_0000

  // The six low bits of r, as a continuation byte.
  function Low(r: nat): Byte {
    0x80 + r % 0x40
  }

  function Encode(r: Scalar): (s: Bytes)
    ensures 1 <= |s| <= 4
  {
    var first: Byte :=
      if r < 0x80 then r else if r < 0x800 then 0xC0 + r / 0x40
      else if r < 0x1_0000 then 0xE0 + r / 0x1000 else 0xF0 + r / 0x4_0000;
    if r < 0x80 then [first]
    else if r < 0x800 then [first, Low(r)]
    else if r < 0x1_0000 then [first, Low(r / 0x40), Low(r)]
    else [first, Low(r / 0x1000), Low(r / 0x40), Low(r)]
  }

  function EncodeAll(rs: seq<Scalar>): Bytes {
    if rs == [] then [] else Encode(rs[0]) + EncodeAll(rs[1..])
  }

  datatype Decoded = Decoded(rune: Scalar, size: nat)

  const BAD := Decoded(RUNE_ERROR, 1)

  // A continuation byte.
  predicate Tail(b: Byte) {
    0x80 <= b <= 0xBF
  }

  // The range the second byte must lie in, by the first: no overlong form, no
  // surrogate, nothing past the last scalar.
  predicate Accepts(b0: Byte, b1: Byte) {
    (if b0 == 0xE0 then 0xA0 else if b0 == 0xF0 then 0x90 else 0x80) <= b1
    <= (if b0 == 0xED then 0x9F else if b0 == 0xF4 then 0x8F else 0xBF)
  }

  // How many bytes the first announces; zero for one that starts nothing.
  function Announced(b0: Byte): nat {
    if b0 < 0x80 then 1
    else if 0xC2 <= b0 <= 0xDF then 2
    else if 0xE0 <= b0 <= 0xEF then 3
    else if 0xF0 <= b0 <= 0xF4 then 4
    else 0
  }

  predicate WellFormed(s: Bytes, n: nat)
    requires s != []
  {
    && 1 <= n <= |s|
    && (n >= 2 ==> Accepts(s[0], s[1]))
    && (n >= 3 ==> Tail(s[2]))
    && (n >= 4 ==> Tail(s[3]))
  }

  function Bits(b: Byte, mark: int): int {
    b - mark
  }

  // Six more bits from a continuation byte.
  function Join(high: int, b: Byte): int {
    high * 0x40 + Bits(b, 0x80)
  }

  function DecodeRune(s: Bytes): (d: Decoded)
    requires s != []
    ensures 1 <= d.size <= |s|
  {
    var n := Announced(s[0]);
    if !WellFormed(s, n) then BAD
    else if n == 1 then Decoded(s[0], 1)
    else if n == 2 then Decoded(Join(Bits(s[0], 0xC0), s[1]), 2)
    else if n == 3 then Decoded(Join(Join(Bits(s[0], 0xE0), s[1]), s[2]), 3)
    else Decoded(Join(Join(Join(Bits(s[0], 0xF0), s[1]), s[2]), s[3]), 4)
  }

  // A byte that starts no well-formed scalar.
  predicate Fails(s: Bytes)
    requires s != []
  {
    DecodeRune(s) == BAD
  }

  // What was decoded is exactly what encodes to the bytes consumed.
  lemma DecodedEncodes(s: Bytes)
    requires s != [] && !Fails(s)
    ensures Encode(DecodeRune(s).rune) == s[..DecodeRune(s).size]
  {
    var d := DecodeRune(s);
    assert s[..d.size] == seq(d.size, i requires 0 <= i < d.size => s[i]);
    if d.size == 2 {
      TwoBytes(s[0], s[1]);
    } else if d.size == 3 {
      ThreeBytes(s[0], s[1], s[2]);
    } else if d.size == 4 {
      FourBytes(s[0], s[1], s[2], s[3]);
    }
  }

  lemma TwoBytes(b0: Byte, b1: Byte)
    requires 0xC2 <= b0 <= 0xDF && Tail(b1)
    ensures var r := Join(Bits(b0, 0xC0), b1); 0x80 <= r < 0x800 && Encode(r) == [b0, b1]
  {
    Split(Bits(b0, 0xC0), b1);
  }

  lemma ThreeBytes(b0: Byte, b1: Byte, b2: Byte)
    requires 0xE0 <= b0 <= 0xEF && Accepts(b0, b1) && Tail(b2)
    ensures var r := Join(Join(Bits(b0, 0xE0), b1), b2);
      0x800 <= r < 0x1_0000 && !(0xD800 <= r < 0xE000) && Encode(r) == [b0, b1, b2]
  {
    var high := Join(Bits(b0, 0xE0), b1);
    Split(Bits(b0, 0xE0), b1);
    Split(high, b2);
    assert Join(high, b2) / 0x1000 == high / 0x40;
  }

  lemma FourBytes(b0: Byte, b1: Byte, b2: Byte, b3: Byte)
    requires 0xF0 <= b0 <= 0xF4 && Accepts(b0, b1) && Tail(b2) && Tail(b3)
    ensures var r := Join(Join(Join(Bits(b0, 0xF0), b1), b2), b3);
      0x1_0000 <= r < 0x11_0000 && Encode(r) == [b0, b1, b2, b3]
  {
    var top := Join(Bits(b0, 0xF0), b1);
    assert 0x10 <= top < 0x110;
    var high := Join(top, b2);
    assert 0x400 <= high < 0x4400;
    var r := Join(high, b3);
    Split(Bits(b0, 0xF0), b1);
    Split(top, b2);
    Split(high, b3);
    FourDigits(r, high, top, b0, b1, b2, b3);
  }

  lemma FourDigits(r: Scalar, high: nat, top: nat, b0: Byte, b1: Byte, b2: Byte, b3: Byte)
    requires 0x1_0000 <= r && b0 >= 0xF0
    requires r / 0x40 == high && high / 0x40 == top && top / 0x40 == b0 - 0xF0
    requires Low(r) == b3 && Low(high) == b2 && Low(top) == b1
    ensures Encode(r) == [b0, b1, b2, b3]
  {
    Quotients(r);
  }

  lemma Split(high: nat, b: Byte)
    requires Tail(b)
    ensures Join(high, b) / 0x40 == high && Low(Join(high, b)) == b
  {
  }

  // Every scalar decodes from its encoding, whatever follows.
  lemma EncodedDecodes(r: Scalar, rest: Bytes)
    ensures DecodeRune(Encode(r) + rest) == Decoded(r, |Encode(r)|) && !Fails(Encode(r) + rest)
  {
    var s := Encode(r) + rest;
    Quotients(r);
    assert forall i :: 0 <= i < |Encode(r)| ==> s[i] == Encode(r)[i];
  }

  lemma Quotients(r: nat)
    ensures r / 0x40 / 0x40 == r / 0x1000 && r / 0x1000 / 0x40 == r / 0x4_0000
    ensures r == r / 0x40 * 0x40 + r % 0x40
    ensures r / 0x40 == r / 0x1000 * 0x40 + r / 0x40 % 0x40
    ensures r / 0x1000 == r / 0x4_0000 * 0x40 + r / 0x1000 % 0x40
  {
  }
}
