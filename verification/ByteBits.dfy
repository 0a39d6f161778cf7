/** A byte as a number and as eight bits. */
module ByteBits {
  import opened Basics

  /** A byte as the sum of its bits. */
  function Value(b: bv8): int {
    Bit(b & 1 != 0) + 2 * Bit(b & 2 != 0) + 4 * Bit(b & 4 != 0) + 8 * Bit(b & 8 != 0)
    + 16 * Bit(b & 16 != 0) + 32 * Bit(b & 32 != 0) + 64 * Bit(b & 64 != 0) + 128 * Bit(b & 128 != 0)
  }

  lemma ValueIs(b: bv8)
    ensures b as int == Value(b)
  {
  }

  /** The bits of a byte are its binary digits. */
  lemma BitsAre(v: byte)
    ensures Bit((v as bv8) & 1 != 0) == v % 2
    ensures Bit((v as bv8) & 2 != 0) == v / 2 % 2
    ensures Bit((v as bv8) & 4 != 0) == v / 4 % 2
    ensures Bit((v as bv8) & 8 != 0) == v / 8 % 2
    ensures Bit((v as bv8) & 16 != 0) == v / 16 % 2
    ensures Bit((v as bv8) & 32 != 0) == v / 32 % 2
    ensures Bit((v as bv8) & 64 != 0) == v / 64 % 2
    ensures Bit((v as bv8) & 128 != 0) == v / 128 % 2
  {
  }

  lemma HalvesLow(v: int)
    requires 0 <= v < 256
    ensures v == 2 * (v / 2) + v % 2
    ensures v / 2 == 2 * (v / 4) + v / 2 % 2
  {
  }

  lemma HalvesMid(v: int)
    requires 0 <= v < 256
    ensures v / 4 == 2 * (v / 8) + v / 4 % 2
    ensures v / 8 == 2 * (v / 16) + v / 8 % 2
  {
  }

  lemma HalvesUp(v: int)
    requires 0 <= v < 256
    ensures v / 16 == 2 * (v / 32) + v / 16 % 2
    ensures v / 32 == 2 * (v / 64) + v / 32 % 2
  {
  }

  lemma HalvesTop(v: int)
    requires 0 <= v < 256
    ensures v / 64 == 2 * (v / 128) + v / 64 % 2
    ensures v / 128 == 2 * (v / 256) + v / 128 % 2
  {
  }

  lemma Digits(v: byte, b: bv8)
    requires Bit(b & 1 != 0) == v % 2
    requires Bit(b & 2 != 0) == v / 2 % 2
    requires Bit(b & 4 != 0) == v / 4 % 2
    requires Bit(b & 8 != 0) == v / 8 % 2
    requires Bit(b & 16 != 0) == v / 16 % 2
    requires Bit(b & 32 != 0) == v / 32 % 2
    requires Bit(b & 64 != 0) == v / 64 % 2
    requires Bit(b & 128 != 0) == v / 128 % 2
    ensures Value(b) == v
  {
    HalvesLow(v);
    HalvesMid(v);
    HalvesUp(v);
    HalvesTop(v);
    assert v / 256 == 0;
  }

  lemma Back(v: byte)
    ensures Value(v as bv8) == v
  {
    BitsAre(v);
    Digits(v, v as bv8);
  }

  /** A number that is turned into bits and back. */
  lemma ByteBack(v: byte)
    ensures (v as bv8) as int == v
  {
    Back(v);
    ValueIs(v as bv8);
  }
}
