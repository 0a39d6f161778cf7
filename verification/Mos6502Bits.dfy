/** The bit operations of the arithmetic helpers, as arithmetic on bytes. */
module Mos6502Bits {
  import opened Basics
  import opened ByteBits
  import opened Mos6502

  lemma SignBit(v: u8)
    ensures (v as bv8) & 0x80 != 0 <==> Sign(v)
  {
  }

  lemma LowBit(v: u8)
    ensures (v as bv8) & 1 != 0 <==> v % 2 == 1
  {
  }

  lemma ValueNot(b: bv8)
    ensures Value(!b) == 255 - Value(b)
  {
  }

  lemma ValueHalf(b: bv8)
    ensures Value(b >> 1) == Value(b) / 2 && (b >> 1) & 0x80 == 0
  {
  }

  lemma ValueTwice(b: bv8)
    ensures Value(b << 1) == Value(b) * 2 - 256 * Bit(b & 0x80 != 0) && (b << 1) & 1 == 0
  {
  }

  lemma ValueOr(b: bv8)
    ensures b & 1 == 0 ==> Value(b | 1) == Value(b) + 1
    ensures b & 0x80 == 0 ==> Value(b | 0x80) == Value(b) + 128
    ensures b | 0 == b
  {
  }

  /** All bits inverted: the complement to 255. */
  lemma Inverted(v: u8)
    ensures (!(v as bv8)) as int == 255 - v
  {
    Back(v);
    ValueNot(v as bv8);
    ValueIs(!(v as bv8));
  }

  /** Shifting left, with or without a bit coming in. */
  lemma ShiftedLeft(v: u8)
    ensures ((v as bv8) << 1) as int == v * 2 % 256
    ensures (((v as bv8) << 1) | 1) as int == v * 2 % 256 + 1
  {
    var b := v as bv8;
    Back(v);
    SignBit(v);
    ValueTwice(b);
    ValueOr(b << 1);
    ValueIs(b << 1);
    ValueIs((b << 1) | 1);
  }

  /** Shifting right, with or without a bit coming in. */
  lemma ShiftedRight(v: u8)
    ensures ((v as bv8) >> 1) as int == v / 2
    ensures (((v as bv8) >> 1) | 0x80) as int == v / 2 + 128
  {
    var b := v as bv8;
    Back(v);
    ValueHalf(b);
    ValueOr(b >> 1);
    ValueIs(b >> 1);
    ValueIs((b >> 1) | 0x80);
  }

  lemma XorSigns(x: bv8, y: bv8, r: bv8)
    ensures (x ^ r) & (y ^ r) & 0x80 != 0 <==> (x & 0x80 != 0) != (r & 0x80 != 0) && (y & 0x80 != 0) != (r & 0x80 != 0)
  {
  }

  /** The test for overflow: both operands differ from the result in the sign bit. */
  lemma OverflowBit(a: u8, v: u8, r: u8)
    ensures (a as bv8 ^ r as bv8) & (v as bv8 ^ r as bv8) & 0x80 != 0 <==> Sign(a) != Sign(r) && Sign(v) != Sign(r)
  {
    XorSigns(a as bv8, v as bv8, r as bv8);
    SignBit(a);
    SignBit(v);
    SignBit(r);
  }

  // ---------------------------------------------------------------- the operations

  /** The sign bit of a byte. */
  method TestSign(v: u8) returns (on: bool)
    ensures on <==> Sign(v)
  {
    SignBit(v);
    on := (v as bv8) & 0x80 != 0;
  }

  /** Whether adding `a` and `v` to get `r` left the signed range. */
  method TestOverflow(a: u8, v: u8, r: u8) returns (on: bool)
    ensures on <==> Sign(a) != Sign(r) && Sign(v) != Sign(r)
  {
    OverflowBit(a, v, r);
    on := (a as bv8 ^ r as bv8) & (v as bv8 ^ r as bv8) & 0x80 != 0;
  }

  method Invert(v: u8) returns (r: u8)
    ensures r == 255 - v
  {
    Inverted(v);
    r := (!(v as bv8)) as int;
  }

  /** One place to the left; `carry` comes in at the bottom, the top bit goes out. */
  method Left(v: u8, carry: bool) returns (r: u8, out: bool)
    ensures r == v * 2 % 256 + Bit(carry) && (out <==> Sign(v))
  {
    out := TestSign(v);
    ShiftedLeft(v);
    var b := (v as bv8) << 1;
    if carry { b := b | 1; }
    r := b as int;
  }

  /** One place to the right; `carry` comes in at the top, the bottom bit goes out. */
  method Right(v: u8, carry: bool) returns (r: u8, out: bool)
    ensures r == v / 2 + 128 * Bit(carry) && (out <==> v % 2 == 1)
  {
    LowBit(v);
    out := (v as bv8) & 1 != 0;
    ShiftedRight(v);
    var b := (v as bv8) >> 1;
    if carry { b := b | 0x80; }
    r := b as int;
  }

  /** The four shifts and rotates. */
  method Shift(k: ShiftOp, v: u8, carry: bool) returns (r: u8, out: bool)
    ensures r == ShiftedTo(k, v, carry) && (out <==> ShiftedOut(k, v))
  {
    match k {
      case Asl => r, out := Left(v, false);
      case Lsr => r, out := Right(v, false);
      case Rol => r, out := Left(v, carry);
      case Ror => r, out := Right(v, carry);
    }
  }
}
