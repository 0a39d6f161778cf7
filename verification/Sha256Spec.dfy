/** SHA-256 as sections 5.1.1 and 6.2.2 of FIPS 180-4 define it: pad the message, fold the blocks. */
module Sha256Spec {
  import opened Basics

  type Words = s: seq<bv32> | |s| == 64 witness seq(64, _ => 0)

  // ---------------------------------------------------------------- section 4.1.2

  function Rotr(x: bv32, n: bv6): bv32
    requires 0 < n < 32
  {
    (x >> n) | (x << (32 - n))
  }

  /** Addition modulo 2^32. */
  function Add(x: bv32, y: bv32): bv32 { x + y }

  function Choose(x: bv32, y: bv32, z: bv32): bv32 { (x & y) ^ (!x & z) }

  function Majority(x: bv32, y: bv32, z: bv32): bv32 { (x & y) ^ (x & z) ^ (y & z) }

  function Shr(x: bv32, n: bv6): bv32
    requires n < 32
  {
    x >> n
  }

  function Mix(x: bv32, y: bv32, z: bv32): bv32 { x ^ y ^ z }

  function BigSigma0(x: bv32): bv32 { Mix(Rotr(x, 2), Rotr(x, 13), Rotr(x, 22)) }

  function BigSigma1(x: bv32): bv32 { Mix(Rotr(x, 6), Rotr(x, 11), Rotr(x, 25)) }

  function SmallSigma0(x: bv32): bv32 { Mix(Rotr(x, 7), Rotr(x, 18), Shr(x, 3)) }

  function SmallSigma1(x: bv32): bv32 { Mix(Rotr(x, 17), Rotr(x, 19), Shr(x, 10)) }

  // ---------------------------------------------------------------- section 6.2.2

  /** The eight working variables, or the eight words of the hash value. */
  datatype Regs = Regs(a: bv32, b: bv32, c: bv32, d: bv32, e: bv32, f: bv32, g: bv32, h: bv32)

  /** Four bytes, the high one first. */
  function Join(a: bv8, b: bv8, c: bv8, d: bv8): bv32 {
    ((a as bv32) << 24) | ((b as bv32) << 16) | ((c as bv32) << 8) | (d as bv32)
  }

  function Octet(b: byte): bv8 { b as bv8 }

  function WordAt(block: seq<byte>, i: nat): bv32
    requires 4 * i + 4 <= |block|
  {
    Join(Octet(block[4 * i]), Octet(block[4 * i + 1]), Octet(block[4 * i + 2]), Octet(block[4 * i + 3]))
  }

  function Expand(w2: bv32, w7: bv32, w15: bv32, w16: bv32): bv32 {
    Add(Add(Add(SmallSigma1(w2), w7), SmallSigma0(w15)), w16)
  }

  /** The message schedule. */
  function Schedule(block: seq<byte>, t: nat): bv32
    requires |block| == 64 && t < 64
  {
    if t < 16 then WordAt(block, t)
    else Expand(Schedule(block, t - 2), Schedule(block, t - 7), Schedule(block, t - 15), Schedule(block, t - 16))
  }

  function Round(s: Regs, k: bv32, w: bv32): Regs {
    var t1 := Add(Add(Add(Add(s.h, BigSigma1(s.e)), Choose(s.e, s.f, s.g)), k), w);
    var t2 := Add(BigSigma0(s.a), Majority(s.a, s.b, s.c));
    Regs(Add(t1, t2), s.a, s.b, s.c, Add(s.d, t1), s.e, s.f, s.g)
  }

  /** The first `t` rounds, with the constants `ks`. */
  function Rounds(ks: Words, s: Regs, block: seq<byte>, t: nat): Regs
    requires |block| == 64 && t <= |ks|
  {
    if t == 0 then s else Round(Rounds(ks, s, block, t - 1), ks[t - 1], Schedule(block, t - 1))
  }

  function Plus(x: Regs, y: Regs): Regs {
    Regs(Add(x.a, y.a), Add(x.b, y.b), Add(x.c, y.c), Add(x.d, y.d), Add(x.e, y.e), Add(x.f, y.f), Add(x.g, y.g), Add(x.h, y.h))
  }

  function Compress(ks: Words, h: Regs, block: seq<byte>): Regs
    requires |block| == 64
  {
    Plus(h, Rounds(ks, h, block, |ks|))
  }

  /** The hash value after the blocks of `data`. */
  function Chain(ks: Words, iv: Regs, data: seq<byte>): Regs
    requires |data| % 64 == 0
    decreases |data|, 1
  {
    if data == [] then iv else Link(ks, iv, data)
  }

  /** The last block of `data`, on top of those before it. */
  function Link(ks: Words, iv: Regs, data: seq<byte>): Regs
    requires data != [] && |data| % 64 == 0
    decreases |data|, 0
  {
    Compress(ks, Chain(ks, iv, data[..|data| - 64]), data[|data| - 64..])
  }

  // ---------------------------------------------------------------- section 5.1.1

  function Zeros(n: nat): (s: seq<byte>)
    ensures |s| == n
  {
    if n == 0 then [] else Zeros(n - 1) + [0]
  }

  /** The last `k` bytes of a number, high byte first. */
  function BigEndian(n: nat, k: nat): (s: seq<byte>)
    ensures |s| == k
    decreases k, n
  {
    if k == 0 then [] else BigEndian(n / 256, k - 1) + [n % 256]
  }

  /** How many zero bytes follow the marker byte of a message of `n` bytes. */
  function Gap(n: nat): nat { if n % 64 < 56 then 55 - n % 64 else 119 - n % 64 }

  function Pad(m: seq<byte>): seq<byte> {
    m + [0x80] + Zeros(Gap(|m|)) + BigEndian(8 * |m|, 8)
  }

  /** The gap leaves just the length's eight bytes of a block, and no smaller one does. */
  lemma GapIsLeast(n: nat, k: nat)
    ensures (n + 1 + Gap(n)) % 64 == 56
    ensures k < Gap(n) ==> (n + 1 + k) % 64 != 56
  {
    assert (n + 1 + k) % 64 == (n % 64 + 1 + k) % 64;
  }

  lemma Padded(m: seq<byte>)
    ensures |Pad(m)| % 64 == 0
  {
    GapIsLeast(|m|, 0);
    Eight(|m| + 1 + Gap(|m|));
  }

  lemma Eight(n: nat)
    requires n % 64 == 56
    ensures (n + 8) % 64 == 0
  {
  }

  // ---------------------------------------------------------------- the digest

  /** The eight bits from bit `n` up. */
  function Piece(w: bv32, n: bv6): bv8
    requires n <= 24
  {
    ((w >> n) & 0xFF) as bv8
  }

  function Number(v: bv8): byte { v as byte }

  function WordBytes(w: bv32): seq<byte> {
    [Number(Piece(w, 24)), Number(Piece(w, 16)), Number(Piece(w, 8)), Number(Piece(w, 0))]
  }

  function Output(h: Regs): seq<byte> {
    WordBytes(h.a) + WordBytes(h.b) + WordBytes(h.c) + WordBytes(h.d) + WordBytes(h.e) + WordBytes(h.f) + WordBytes(h.g) + WordBytes(h.h)
  }

  function Digest(ks: Words, iv: Regs, m: seq<byte>): seq<byte> {
    Padded(m);
    Output(Chain(ks, iv, Pad(m)))
  }
}
