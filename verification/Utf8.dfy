/** Byte strings and which of them a strict UTF-8 reader accepts (section 4 of RFC 3629). */
module Utf8 {
  newtype Byte = b: int | 0 <= b < 256

  type Bytes = seq<Byte>

  predicate Follows(b: Bytes, i: nat) { i < |b| && 0x80 <= b[i] <= 0xBF }

  /** The length of the well-formed character at the beginning, or 0 if there is none. */
  function CharLength(b: Bytes): (n: nat)
    ensures n <= |b|
  {
    if b == [] then 0
    else if b[0] <= 0x7F then 1
    else if 0xC2 <= b[0] <= 0xDF then if Follows(b, 1) then 2 else 0
    else if 0xE0 <= b[0] <= 0xEF then
      if Follows(b, 1) && Follows(b, 2) && (b[0] == 0xE0 ==>
        b[1] >= 0xA0) && (b[0] == 0xED ==> b[1] <= 0x9F) then 3 else 0
    else if 0xF0 <= b[0] <= 0xF4 then
      if Follows(b, 1) && Follows(b, 2) && Follows(b, 3) && (b[0] == 0xF0 ==>
        b[1] >= 0x90) && (b[0] == 0xF4 ==> b[1] <= 0x8F)
      then 4 else 0
    else 0
  }

  // ----- Characters and their bytes --------------------------------------------------------------

  /** The numbers of characters: all up to 0x10FFFF but the surrogates. */
  predicate IsCharacter(v: nat) { v < 0xD800 || 0xE000 <= v < 0x110000 }

  function Tail(v: nat): Byte { (0x80 + v % 64) as Byte }

  /** The bytes of a character, six bits in each byte after the first. */
  function BytesOf(v: nat): Bytes
    requires IsCharacter(v)
  {
    if v < 0x80 then [v as Byte]
    else if v < 0x800 then [(0xC0 + v / 64) as Byte, Tail(v)]
    else if v < 0x10000 then [(0xE0 + v / 4096) as Byte, Tail(v / 64), Tail(v)]
    else [(0xF0 + v / 262144) as Byte, Tail(v / 4096), Tail(v / 64), Tail(v)]
  }

  /** Every character is accepted in its own bytes. */
  lemma CharactersAreAccepted(v: nat, rest: Bytes)
    requires IsCharacter(v)
    ensures CharLength(BytesOf(v) + rest) == |BytesOf(v)|
  {
    var b := BytesOf(v) + rest;
    assert forall i :: 0 <= i < |BytesOf(v)| ==> b[i] == BytesOf(v)[i];
    if 0x800 <= v < 0x10000 {
      FirstsOfThree(v);
    } else if 0x10000 <= v {
      FirstsOfFour(v);
    }
  }

  lemma FirstsOfThree(v: nat)
    requires IsCharacter(v) && 0x800 <= v < 0x10000
    ensures v / 4096 <= 15 && (v / 4096 == 0 ==> Tail(v / 64) >= 0xA0) && (v / 4096 == 13 ==> Tail(v / 64) <= 0x9F)
  {
  }

  lemma FirstsOfFour(v: nat)
    requires IsCharacter(v) && 0x10000 <= v
    ensures v / 262144 <= 4
    ensures (v / 262144 == 0 ==> Tail(v / 4096) >= 0x90) && (v / 262144 == 4 ==> Tail(v / 4096) <= 0x8F)
  {
  }

  /** Six bits of a byte after the first. */
  function Bits(b: Byte): nat
    requires 0x80 <= b <= 0xBF
  {
    b as int - 0x80
  }

  lemma TailBits(high: nat, b: Byte)
    requires 0x80 <= b <= 0xBF
    ensures (64 * high + Bits(b)) / 64 == high && Tail(64 * high + Bits(b)) == b
  {
  }

  lemma ThreeBytes(b0: Byte, b1: Byte, b2: Byte) returns (v: nat)
    requires 0xE0 <= b0 <= 0xEF && 0x80 <= b1 <= 0xBF && 0x80 <= b2 <= 0xBF
    requires (b0 == 0xE0 ==> b1 >= 0xA0) && (b0 == 0xED ==> b1 <= 0x9F)
    ensures IsCharacter(v) && BytesOf(v) == [b0, b1, b2]
  {
    var top: nat := b0 as int - 0xE0;
    var high := 64 * top + Bits(b1);
    v := 64 * high + Bits(b2);
    TailBits(top, b1);
    TailBits(high, b2);
    assert v == 4096 * top + 64 * Bits(b1) + Bits(b2);
    assert v / 4096 == top;
  }

  lemma FourBytes(b0: Byte, b1: Byte, b2: Byte, b3: Byte) returns (v: nat)
    requires 0xF0 <= b0 <= 0xF4 && 0x80 <= b1 <= 0xBF && 0x80 <= b2 <= 0xBF && 0x80 <= b3 <= 0xBF
    requires (b0 == 0xF0 ==> b1 >= 0x90) && (b0 == 0xF4 ==> b1 <= 0x8F)
    ensures IsCharacter(v) && BytesOf(v) == [b0, b1, b2, b3]
  {
    var first: nat := b0 as int - 0xF0;
    var top := 64 * first + Bits(b1);
    var high := 64 * top + Bits(b2);
    v := 64 * high + Bits(b3);
    TailBits(first, b1);
    TailBits(top, b2);
    TailBits(high, b3);
    assert v == 4096 * top + 64 * Bits(b2) + Bits(b3);
    assert v / 4096 == top;
    assert v == 262144 * first + 4096 * Bits(b1) + 64 * Bits(b2) + Bits(b3);
    assert v / 262144 == first;
  }

  /** And nothing else is: what is accepted at the beginning are the bytes of a character. */
  lemma OnlyCharactersAreAccepted(b: Bytes) returns (v: nat)
    requires CharLength(b) > 0
    ensures IsCharacter(v) && BytesOf(v) == b[..CharLength(b)]
  {
    if CharLength(b) == 1 {
      v := b[0] as int;
    } else if CharLength(b) == 2 {
      v := 64 * (b[0] as int - 0xC0) + Bits(b[1]);
      TailBits(b[0] as int - 0xC0, b[1]);
    } else if CharLength(b) == 3 {
      v := ThreeBytes(b[0], b[1], b[2]);
    } else {
      v := FourBytes(b[0], b[1], b[2], b[3]);
    }
  }

  predicate IsUtf8(b: Bytes) { b == [] || (CharLength(b) > 0 && IsUtf8(b[CharLength(b)..])) }

  lemma SameFirst(a: Bytes, b: Bytes)
    requires CharLength(a) > 0
    ensures CharLength(a + b) == CharLength(a)
  {
    assert a != [];
    assert forall i :: 0 <= i < |a| ==> (a + b)[i] == a[i];
  }

  lemma Peel(b: Bytes, n: nat)
    requires CharLength(b) == n > 0
    ensures IsUtf8(b) <==> IsUtf8(b[n..])
  {
  }

  /** Text followed by bytes is text exactly when the bytes are. */
  lemma {:induction false} TextThen(a: Bytes, b: Bytes)
    requires IsUtf8(a)
    ensures IsUtf8(a + b) <==> IsUtf8(b)
    decreases |a|
  {
    if a == [] {
      assert a + b == b;
    } else {
      var n := CharLength(a);
      SameFirst(a, b);
      Peel(a + b, n);
      assert (a + b)[n..] == a[n..] + b;
      TextThen(a[n..], b);
    }
  }
}
