/** Byte-level helpers shared by the machine and the display: the value range of a
    Uint8Array element and the bit operations the interpreter applies to it. */
module Bytes {

  /** A value stored in a Uint8Array: CHIP-8 memory and the V registers. */
  type byte = b: int | 0 <= b < 256

  function Pow2(k: nat): (r: nat)
    ensures r >= 1
  {
    if k == 0 then 1 else 2 * Pow2(k - 1)
  }

  /** Bit `col` of a sprite byte counted from the most significant end:
      `(b >> (7 - col)) & 1` in the source. */
  predicate SpriteBit(b: byte, col: nat)
    requires col < 8
  {
    (b / Pow2(7 - col)) % 2 == 1
  }

  /** The weight of sprite bit `col` in its byte when it is set. */
  function BitValue(b: byte, col: nat): nat
    requires col < 8
  {
    if SpriteBit(b, col) then Pow2(7 - col) else 0
  }

  /** The eight bits the column loop of Dxyn reads, most significant first, make up
      the sprite byte: none is read twice and none is missed. */
  lemma SpriteBitsMakeByte(b: byte)
    ensures b == BitValue(b, 0) + BitValue(b, 1) + BitValue(b, 2) + BitValue(b, 3)
              + BitValue(b, 4) + BitValue(b, 5) + BitValue(b, 6) + BitValue(b, 7)
  {
    assert Pow2(4) == 16 && Pow2(7) == 128;
    BitValueIs(b, 0, 128);
    BitValueIs(b, 1, 64);
    BitValueIs(b, 2, 32);
    BitValueIs(b, 3, 16);
    BitValueIs(b, 4, 8);
    BitValueIs(b, 5, 4);
    BitValueIs(b, 6, 2);
    BitValueIs(b, 7, 1);
    BinaryDigits(b);
  }

  lemma BitValueIs(b: byte, col: nat, w: nat)
    requires col < 8 && w == Pow2(7 - col)
    ensures BitValue(b, col) == w * ((b / w) % 2)
  {
  }

  /** A byte in base 2. */
  lemma BinaryDigits(b: byte)
    ensures b == 128 * ((b / 128) % 2) + 64 * ((b / 64) % 2) + 32 * ((b / 32) % 2)
              + 16 * ((b / 16) % 2) + 8 * ((b / 8) % 2) + 4 * ((b / 4) % 2) + 2 * ((b / 2) % 2) + b % 2
  {
    Halves(b);
    var d1, d2, d3, d4, d5, d6, d7 := b / 2, b / 4, b / 8, b / 16, b / 32, b / 64, b / 128;
    var e0, e1, e2, e3, e4, e5, e6 := b % 2, d1 % 2, d2 % 2, d3 % 2, d4 % 2, d5 % 2, d6 % 2;
    Split(b); Split(d1); Split(d2); Split(d3); Split(d4); Split(d5); Split(d6);
    assert b == 4 * d2 + 2 * e1 + e0;
    assert b == 8 * d3 + 4 * e2 + 2 * e1 + e0;
    assert b == 16 * d4 + 8 * e3 + 4 * e2 + 2 * e1 + e0;
    assert b == 32 * d5 + 16 * e4 + 8 * e3 + 4 * e2 + 2 * e1 + e0;
    assert b == 64 * d6 + 32 * e5 + 16 * e4 + 8 * e3 + 4 * e2 + 2 * e1 + e0;
    assert b == 128 * d7 + 64 * e6 + 32 * e5 + 16 * e4 + 8 * e3 + 4 * e2 + 2 * e1 + e0;
    assert d7 % 2 == d7;
  }

  lemma Split(n: nat)
    ensures n == 2 * (n / 2) + n % 2
  {
  }

  lemma Halves(b: byte)
    ensures (b / 2) / 2 == b / 4 && (b / 4) / 2 == b / 8 && (b / 8) / 2 == b / 16
    ensures (b / 16) / 2 == b / 32 && (b / 32) / 2 == b / 64 && (b / 64) / 2 == b / 128
  {
  }

  function BitOr(a: byte, b: byte): byte
  {
    ((a as bv8) | (b as bv8)) as int
  }

  function BitAnd(a: byte, b: byte): byte
  {
    ((a as bv8) & (b as bv8)) as int
  }

  function BitXor(a: byte, b: byte): byte
  {
    ((a as bv8) ^ (b as bv8)) as int
  }
}
