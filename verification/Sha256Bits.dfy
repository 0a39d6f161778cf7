/** The word functions of SHA-256, bit by bit, and its words as bytes. */
module Sha256Bits {
  import opened Basics
  import opened ByteBits
  import opened Sha256Spec

  /** Bit `i` of a word; bit 0 is the lowest. */
  predicate Bit(x: bv32, i: bv6)
    requires i < 32
  {
    (x >> i) & 1 == 1
  }

  predicate OctetBit(v: bv8, i: bv6)
    requires i < 8
  {
    (v >> i) & 1 == 1
  }

  /** An odd number of the three. */
  predicate Odd(a: bool, b: bool, c: bool) { (a != b) != c }

  /** At least two of the three. */
  predicate Most(a: bool, b: bool, c: bool) { (a && b) || (a && c) || (b && c) }

  /** Bit `i` of the word turned right by `n`. */
  predicate Turned(x: bv32, n: bv6, i: bv6)
    requires n < 32 && i < 32
  {
    Bit(x, (i + n) % 32)
  }

  /** Bit `i` of the word moved right by `n`. */
  predicate Moved(x: bv32, n: bv6, i: bv6)
    requires n < 32 && i < 32
  {
    i + n < 32 && Bit(x, i + n)
  }

  // ---------------------------------------------------------------- section 4.1.2

  /** Where x has a bit set, the choice is y's. */
  lemma ChooseSet(x: bv32, y: bv32, z: bv32, i: bv6)
    requires i < 32 && Bit(x, i)
    ensures Bit(Choose(x, y, z), i) == Bit(y, i)
  {
  }

  lemma ChooseClear(x: bv32, y: bv32, z: bv32, i: bv6)
    requires i < 32 && !Bit(x, i)
    ensures Bit(Choose(x, y, z), i) == Bit(z, i)
  {
  }

  lemma ChooseBit(x: bv32, y: bv32, z: bv32, i: bv6)
    requires i < 32
    ensures Bit(Choose(x, y, z), i) == if Bit(x, i) then Bit(y, i) else Bit(z, i)
  {
    if Bit(x, i) {
      ChooseSet(x, y, z, i);
    } else {
      ChooseClear(x, y, z, i);
    }
  }

  lemma MajorityAgree(x: bv32, y: bv32, z: bv32, i: bv6)
    requires i < 32 && Bit(x, i) == Bit(y, i)
    ensures Bit(Majority(x, y, z), i) == Bit(x, i)
  {
  }

  lemma MajorityDiffer(x: bv32, y: bv32, z: bv32, i: bv6)
    requires i < 32 && Bit(x, i) != Bit(y, i)
    ensures Bit(Majority(x, y, z), i) == Bit(z, i)
  {
  }

  lemma MajorityBit(x: bv32, y: bv32, z: bv32, i: bv6)
    requires i < 32
    ensures Bit(Majority(x, y, z), i) == Most(Bit(x, i), Bit(y, i), Bit(z, i))
  {
    if Bit(x, i) == Bit(y, i) {
      MajorityAgree(x, y, z, i);
    } else {
      MajorityDiffer(x, y, z, i);
    }
  }

  lemma RotrFew(x: bv32, n: bv6, i: bv6)
    requires 0 < n < 8 && i + n < 32 && i < 32
    ensures Bit(Rotr(x, n), i) == Bit(x, i + n)
  {
  }

  lemma RotrSome(x: bv32, n: bv6, i: bv6)
    requires 8 <= n < 16 && i + n < 32 && i < 32
    ensures Bit(Rotr(x, n), i) == Bit(x, i + n)
  {
  }

  lemma RotrMany(x: bv32, n: bv6, i: bv6)
    requires 16 <= n < 32 && i + n < 32 && i < 32
    ensures Bit(Rotr(x, n), i) == Bit(x, i + n)
  {
  }

  lemma RotrDown(x: bv32, n: bv6, i: bv6)
    requires 0 < n < 32 && i + n < 32 && i < 32
    ensures Bit(Rotr(x, n), i) == Bit(x, i + n)
  {
    if n < 8 {
      RotrFew(x, n, i);
    } else if n < 16 {
      RotrSome(x, n, i);
    } else {
      RotrMany(x, n, i);
    }
  }

  lemma RotrAround(x: bv32, n: bv6, i: bv6)
    requires 0 < n < 32 && i + n >= 32 && i < 32
    ensures Bit(Rotr(x, n), i) == Bit(x, i + n - 32)
  {
  }

  lemma RotrBit(x: bv32, n: bv6, i: bv6)
    requires i < 32 && 0 < n < 32
    ensures Bit(Rotr(x, n), i) == Turned(x, n, i)
  {
    if i + n < 32 {
      RotrDown(x, n, i);
    } else {
      RotrAround(x, n, i);
    }
  }

  lemma ShiftBit(x: bv32, n: bv6, s: bv32, i: bv6)
    requires i < 32 && n < 32 && s == x >> n
    ensures Bit(s, i) == Moved(x, n, i)
  {
  }

  lemma ShrBit(x: bv32, n: bv6, i: bv6)
    requires i < 32 && n < 32
    ensures Bit(Shr(x, n), i) == Moved(x, n, i)
  {
    ShiftBit(x, n, Shr(x, n), i);
  }

  lemma XorBit(s: bv32, a: bv32, b: bv32, c: bv32, i: bv6)
    requires i < 32 && s == a ^ b ^ c
    ensures Bit(s, i) == Odd(Bit(a, i), Bit(b, i), Bit(c, i))
  {
  }

  lemma MixWord(a: bv32, b: bv32, c: bv32) returns (s: bv32)
    ensures s == a ^ b ^ c && Mix(a, b, c) == s
  {
    s := Mix(a, b, c);
  }

  lemma MixBit(a: bv32, b: bv32, c: bv32, i: bv6)
    requires i < 32
    ensures Bit(Mix(a, b, c), i) == Odd(Bit(a, i), Bit(b, i), Bit(c, i))
  {
    var s := MixWord(a, b, c);
    XorBit(s, a, b, c, i);
  }

  lemma BigSigma0Parts(x: bv32) returns (a: bv32, b: bv32, c: bv32)
    ensures a == Rotr(x, 2) && b == Rotr(x, 13) && c == Rotr(x, 22) && BigSigma0(x) == Mix(a, b, c)
  {
    a, b, c := Rotr(x, 2), Rotr(x, 13), Rotr(x, 22);
  }

  lemma BigSigma0Bit(x: bv32, i: bv6)
    requires i < 32
    ensures Bit(BigSigma0(x), i) == Odd(Bit(Rotr(x, 2), i), Bit(Rotr(x, 13), i), Bit(Rotr(x, 22), i))
  {
    var a, b, c := BigSigma0Parts(x);
    MixBit(a, b, c, i);
  }

  lemma BigSigma1Parts(x: bv32) returns (a: bv32, b: bv32, c: bv32)
    ensures a == Rotr(x, 6) && b == Rotr(x, 11) && c == Rotr(x, 25) && BigSigma1(x) == Mix(a, b, c)
  {
    a, b, c := Rotr(x, 6), Rotr(x, 11), Rotr(x, 25);
  }

  lemma BigSigma1Bit(x: bv32, i: bv6)
    requires i < 32
    ensures Bit(BigSigma1(x), i) == Odd(Bit(Rotr(x, 6), i), Bit(Rotr(x, 11), i), Bit(Rotr(x, 25), i))
  {
    var a, b, c := BigSigma1Parts(x);
    MixBit(a, b, c, i);
  }

  lemma SmallSigma0Parts(x: bv32) returns (a: bv32, b: bv32, c: bv32)
    ensures a == Rotr(x, 7) && b == Rotr(x, 18) && c == Shr(x, 3) && SmallSigma0(x) == Mix(a, b, c)
  {
    a, b, c := Rotr(x, 7), Rotr(x, 18), Shr(x, 3);
  }

  lemma SmallSigma0Bit(x: bv32, i: bv6)
    requires i < 32
    ensures Bit(SmallSigma0(x), i) == Odd(Bit(Rotr(x, 7), i), Bit(Rotr(x, 18), i), Bit(Shr(x, 3), i))
  {
    var a, b, c := SmallSigma0Parts(x);
    MixBit(a, b, c, i);
  }

  lemma SmallSigma1Parts(x: bv32) returns (a: bv32, b: bv32, c: bv32)
    ensures a == Rotr(x, 17) && b == Rotr(x, 19) && c == Shr(x, 10) && SmallSigma1(x) == Mix(a, b, c)
  {
    a, b, c := Rotr(x, 17), Rotr(x, 19), Shr(x, 10);
  }

  lemma SmallSigma1Bit(x: bv32, i: bv6)
    requires i < 32
    ensures Bit(SmallSigma1(x), i) == Odd(Bit(Rotr(x, 17), i), Bit(Rotr(x, 19), i), Bit(Shr(x, 10), i))
  {
    var a, b, c := SmallSigma1Parts(x);
    MixBit(a, b, c, i);
  }

  /** What is carried into each bit of a sum. */
  function Carries(x: bv32, y: bv32): bv32 { x ^ y ^ Add(x, y) }

  lemma SumParts(x: bv32, y: bv32) returns (s: bv32, c: bv32)
    ensures s == x + y && c == x ^ y ^ s && Add(x, y) == s && Carries(x, y) == c
  {
    s, c := Add(x, y), Carries(x, y);
  }

  lemma Undone(x: bv32, y: bv32, s: bv32, c: bv32)
    requires c == x ^ y ^ s
    ensures s == x ^ y ^ c
  {
  }

  lemma CarryUp(x: bv32, y: bv32, s: bv32, c: bv32, i: bv6)
    requires i < 31 && s == x + y && c == x ^ y ^ s
    ensures Bit(c, i + 1) == Most(Bit(x, i), Bit(y, i), Bit(c, i))
  {
  }

  lemma NoCarry(x: bv32, y: bv32, s: bv32, c: bv32)
    requires s == x + y && c == x ^ y ^ s
    ensures !Bit(c, 0)
  {
  }

  /** Addition, bit by bit. */
  lemma AddBit(x: bv32, y: bv32, i: bv6)
    requires i < 32
    ensures Bit(Add(x, y), i) == Odd(Bit(x, i), Bit(y, i), Bit(Carries(x, y), i))
  {
    var s, c := SumParts(x, y);
    Undone(x, y, s, c);
    XorBit(s, x, y, c, i);
  }

  /** Nothing is carried into bit 0; what bit 31 carries is lost. */
  lemma CarryBit(x: bv32, y: bv32, i: bv6)
    requires i < 31
    ensures !Bit(Carries(x, y), 0)
    ensures Bit(Carries(x, y), i + 1) == Most(Bit(x, i), Bit(y, i), Bit(Carries(x, y), i))
  {
    var s, c := SumParts(x, y);
    NoCarry(x, y, s, c);
    CarryUp(x, y, s, c, i);
  }

  // ---------------------------------------------------------------- words and bytes

  lemma OctetNumber(v: bv8)
    ensures Octet(Number(v)) == v
  {
  }

  lemma NumberOctet(b: byte)
    ensures Number(Octet(b)) == b
  {
    ByteBack(b);
  }

  /** The first byte of a word has its bits 31 to 24, and so on. */
  lemma JoinBit(a: bv8, b: bv8, c: bv8, d: bv8, i: bv6)
    requires i < 8
    ensures var w := Join(a, b, c, d);
            && Bit(w, 24 + i) == OctetBit(a, i) && Bit(w, 16 + i) == OctetBit(b, i)
            && Bit(w, 8 + i) == OctetBit(c, i) && Bit(w, i) == OctetBit(d, i)
  {
  }

  lemma JoinPieces(w: bv32)
    ensures Join(Piece(w, 24), Piece(w, 16), Piece(w, 8), Piece(w, 0)) == w
  {
  }

  lemma PiecesJoin(a: bv8, b: bv8, c: bv8, d: bv8)
    ensures var w := Join(a, b, c, d); Piece(w, 24) == a && Piece(w, 16) == b && Piece(w, 8) == c && Piece(w, 0) == d
  {
  }

  /** The bytes of a word read back as the word. */
  lemma BytesThenWord(w: bv32)
    ensures WordAt(WordBytes(w), 0) == w
  {
    OctetNumber(Piece(w, 24));
    OctetNumber(Piece(w, 16));
    OctetNumber(Piece(w, 8));
    OctetNumber(Piece(w, 0));
    JoinPieces(w);
  }

  /** A word read from a block gives back its four bytes. */
  lemma WordThenBytes(block: seq<byte>, i: nat)
    requires 4 * i + 4 <= |block|
    ensures WordBytes(WordAt(block, i)) == block[4 * i..4 * i + 4]
  {
    var b := block[4 * i..4 * i + 4];
    PiecesJoin(Octet(b[0]), Octet(b[1]), Octet(b[2]), Octet(b[3]));
    NumberOctet(b[0]);
    NumberOctet(b[1]);
    NumberOctet(b[2]);
    NumberOctet(b[3]);
  }

  /** Bit `i` of byte `j` of a word, counted from the high byte. */
  lemma WordAtBit(block: seq<byte>, k: nat, j: nat, i: bv6)
    requires 4 * k + 4 <= |block| && j < 4 && i < 8
    ensures Bit(WordAt(block, k), (if j == 0 then 24 else if j == 1 then 16 else if j == 2 then 8 else 0) + i) == OctetBit(Octet(block[4 * k + j]), i)
  {
    JoinBit(Octet(block[4 * k]), Octet(block[4 * k + 1]), Octet(block[4 * k + 2]), Octet(block[4 * k + 3]), i);
  }

  function WordsOf(h: Regs): seq<bv32> { [h.a, h.b, h.c, h.d, h.e, h.f, h.g, h.h] }

  function BytesOf(h: Regs): seq<seq<byte>> {
    [WordBytes(h.a), WordBytes(h.b), WordBytes(h.c), WordBytes(h.d), WordBytes(h.e), WordBytes(h.f), WordBytes(h.g), WordBytes(h.h)]
  }

  lemma BytesAt(h: Regs, j: nat)
    requires j < 8
    ensures BytesOf(h)[j] == WordBytes(WordsOf(h)[j])
  {
  }

  lemma OutputBytes(h: Regs, j: nat)
    requires j < 8
    ensures |Output(h)| == 32 && Output(h)[4 * j..4 * j + 4] == BytesOf(h)[j]
  {
    EightWords(WordBytes(h.a), WordBytes(h.b), WordBytes(h.c), WordBytes(h.d), WordBytes(h.e), WordBytes(h.f), WordBytes(h.g), WordBytes(h.h), j);
  }

  /** The digest is the eight words, one after the other. */
  lemma OutputWords(h: Regs, j: nat)
    requires j < 8
    ensures |Output(h)| == 32 && WordAt(Output(h), j) == WordsOf(h)[j]
  {
    OutputBytes(h, j);
    BytesAt(h, j);
    ReadBack(Output(h), j, WordsOf(h)[j]);
  }

  lemma ReadBack(o: seq<byte>, j: nat, w: bv32)
    requires 4 * j + 4 <= |o| && o[4 * j..4 * j + 4] == WordBytes(w)
    ensures WordAt(o, j) == w
  {
    WordInside(o, j, WordBytes(w));
    BytesThenWord(w);
  }

  lemma EightWords(a: seq<byte>, b: seq<byte>, c: seq<byte>, d: seq<byte>, e: seq<byte>, f: seq<byte>, g: seq<byte>, h: seq<byte>, j: nat)
    requires |a| == |b| == |c| == |d| == |e| == |f| == |g| == |h| == 4 && j < 8
    ensures var o := a + b + c + d + e + f + g + h;
            |o| == 32 && o[4 * j..4 * j + 4] == [a, b, c, d, e, f, g, h][j]
  {
  }

  lemma WordInside(o: seq<byte>, j: nat, b: seq<byte>)
    requires 4 * j + 4 <= |o| && o[4 * j..4 * j + 4] == b
    ensures WordAt(o, j) == WordAt(b, 0)
  {
    assert b[0] == o[4 * j] && b[1] == o[4 * j + 1] && b[2] == o[4 * j + 2] && b[3] == o[4 * j + 3];
  }
}
