/** The constants of SHA-256 come from the first 64 primes (sections 4.2.2 and 5.3.3 of FIPS 180-4). */
module Sha256Constants {
  import opened Basics
  import opened Sha256Spec
  import opened Sha256

  const PRIMES: seq<nat> :=
    [2, 3, 5, 7, 11, 13, 17, 19, 23, 29, 31, 37, 41, 43, 47, 53] +
    [59, 61, 67, 71, 73, 79, 83, 89, 97, 101, 103, 107, 109, 113, 127, 131] +
    [137, 139, 149, 151, 157, 163, 167, 173, 179, 181, 191, 193, 197, 199, 211, 223] +
    [227, 229, 233, 239, 241, 251, 257, 263, 269, 271, 277, 281, 283, 293, 307, 311]

  // ---------------------------------------------------------------- the primes

  predicate Prime(n: nat) {
    n >= 2 && forall d | 2 <= d < n :: n % d != 0
  }

  /** No smaller prime below 19 divides `n`. */
  predicate Passes(n: nat) {
    && n >= 2
    && (n == 2 || n % 2 != 0) && (n == 3 || n % 3 != 0) && (n == 5 || n % 5 != 0) && (n == 7 || n % 7 != 0)
    && (n == 11 || n % 11 != 0) && (n == 13 || n % 13 != 0) && (n == 17 || n % 17 != 0)
  }

  lemma Divides(e: nat, f: nat, n: nat)
    requires f > 0 && n == e * f
    ensures n % f == 0
  {
    Remainder(n, f, e, n / f, n % f);
  }

  lemma Remainder(n: int, f: int, e: int, q: int, r: int)
    requires n == e * f == q * f + r && 0 <= r < f
    ensures r == 0
  {
    Minus(e, q, f);
    Zero(e - q, f);
  }

  lemma Minus(e: int, q: int, f: int)
    ensures (e - q) * f == e * f - q * f
  {
  }

  lemma Zero(d: int, f: int)
    requires 0 <= d * f < f
    ensures d == 0
  {
  }

  lemma Smaller(n: nat, e: nat, f: nat)
    requires 19 <= e < n < 361 && n == e * f
    ensures 2 <= f < 19
  {
    assert f >= 19 ==> e * f >= 19 * f;
    assert f == 1 ==> e * f == e;
  }

  /** One of two factors is below 19. */
  lemma SmallFactor(n: nat, e: nat) returns (f: nat)
    requires 2 <= e < n < 361 && n % e == 0
    ensures 2 <= f < 19 && f < n && n % f == 0
  {
    if e < 19 { return e; }
    f := n / e;
    assert n == e * f;
    Smaller(n, e, f);
    Divides(e, f, n);
  }

  /** A number below 19 that divides `n` has a prime factor, and that divides `n` too. */
  lemma PrimeFactor(n: nat, f: nat)
    requires 2 <= f < 19 && n % f == 0
    ensures n % 2 == 0 || n % 3 == 0 || n % 5 == 0 || n % 7 == 0 || n % 11 == 0 || n % 13 == 0 || n % 17 == 0
  {
    var q := n / f;
    if f % 2 == 0 {
      TimesTwo(f / 2, q);
    } else if f == 9 || f == 15 {
      TimesThree(f / 3, q);
    }
  }

  lemma TimesTwo(f: nat, q: nat)
    ensures (2 * f * q) % 2 == 0
  {
    assert 2 * f * q == 2 * (f * q);
  }

  lemma TimesThree(f: nat, q: nat)
    ensures (3 * f * q) % 3 == 0
  {
    assert 3 * f * q == 3 * (f * q);
  }

  /** Below the square of 19 that is enough. */
  lemma PassesIffPrime(n: nat)
    requires n < 361
    ensures Passes(n) <==> Prime(n)
  {
    if n >= 2 && !Prime(n) {
      var e :| 2 <= e < n && n % e == 0;
      var f := SmallFactor(n, e);
      PrimeFactor(n, f);
    }
  }

  /** `q` is the first prime after `p`. */
  ghost predicate Follows(p: nat, q: nat) {
    p < q && Prime(q) && forall n: nat | p < n < q :: !Prime(n)
  }

  predicate Bare(n: nat, q: nat)
    decreases q - n
  {
    n >= q || (!Passes(n) && Bare(n + 1, q))
  }

  /** The same by the test. */
  predicate Steps(p: nat, q: nat) { p < q < 361 && Passes(q) && Bare(p + 1, q) }

  lemma {:induction false} NoneBetween(n: nat, q: nat, m: nat)
    requires Bare(n, q) && n <= m < q
    ensures !Passes(m)
    decreases q - n
  {
    if m > n {
      NoneBetween(n + 1, q, m);
    }
  }

  lemma StepsFollow(p: nat, q: nat)
    requires Steps(p, q)
    ensures Follows(p, q)
  {
    PassesIffPrime(q);
    forall n: nat | p < n < q
      ensures !Prime(n)
    {
      NoneBetween(p + 1, q, n);
      PassesIffPrime(n);
    }
  }

  lemma Steps0()
    ensures Steps(2, 3) && Steps(3, 5) && Steps(5, 7) && Steps(7, 11)
    ensures Steps(11, 13) && Steps(13, 17) && Steps(17, 19) && Steps(19, 23)
  {
  }

  lemma Steps8()
    ensures Steps(23, 29) && Steps(29, 31) && Steps(31, 37) && Steps(37, 41)
    ensures Steps(41, 43) && Steps(43, 47) && Steps(47, 53) && Steps(53, 59)
  {
  }

  lemma Steps16()
    ensures Steps(59, 61) && Steps(61, 67) && Steps(67, 71) && Steps(71, 73)
    ensures Steps(73, 79) && Steps(79, 83) && Steps(83, 89) && Steps(89, 97)
  {
  }

  lemma Steps24()
    ensures Steps(97, 101) && Steps(101, 103) && Steps(103, 107) && Steps(107, 109)
    ensures Steps(109, 113) && Steps(113, 127) && Steps(127, 131) && Steps(131, 137)
  {
  }

  lemma Steps32()
    ensures Steps(137, 139) && Steps(139, 149) && Steps(149, 151) && Steps(151, 157)
    ensures Steps(157, 163) && Steps(163, 167) && Steps(167, 173) && Steps(173, 179)
  {
  }

  lemma Steps40()
    ensures Steps(179, 181) && Steps(181, 191) && Steps(191, 193) && Steps(193, 197)
    ensures Steps(197, 199) && Steps(199, 211) && Steps(211, 223) && Steps(223, 227)
  {
  }

  lemma Steps48()
    ensures Steps(227, 229) && Steps(229, 233) && Steps(233, 239) && Steps(239, 241)
    ensures Steps(241, 251) && Steps(251, 257) && Steps(257, 263) && Steps(263, 269)
  {
  }

  lemma Steps56()
    ensures Steps(269, 271) && Steps(271, 277) && Steps(277, 281) && Steps(281, 283)
    ensures Steps(283, 293) && Steps(293, 307) && Steps(307, 311)
  {
  }

  lemma StepsFrom0(i: nat)
    requires 0 <= i < 8
    ensures Steps(PRIMES[i], PRIMES[i + 1])
  {
    Steps0();
  }

  lemma StepsFrom8(i: nat)
    requires 8 <= i < 16
    ensures Steps(PRIMES[i], PRIMES[i + 1])
  {
    Steps8();
  }

  lemma StepsFrom16(i: nat)
    requires 16 <= i < 24
    ensures Steps(PRIMES[i], PRIMES[i + 1])
  {
    Steps16();
  }

  lemma StepsFrom24(i: nat)
    requires 24 <= i < 32
    ensures Steps(PRIMES[i], PRIMES[i + 1])
  {
    Steps24();
  }

  lemma StepsFrom32(i: nat)
    requires 32 <= i < 40
    ensures Steps(PRIMES[i], PRIMES[i + 1])
  {
    Steps32();
  }

  lemma StepsFrom40(i: nat)
    requires 40 <= i < 48
    ensures Steps(PRIMES[i], PRIMES[i + 1])
  {
    Steps40();
  }

  lemma StepsFrom48(i: nat)
    requires 48 <= i < 56
    ensures Steps(PRIMES[i], PRIMES[i + 1])
  {
    Steps48();
  }

  lemma StepsFrom56(i: nat)
    requires 56 <= i < 63
    ensures Steps(PRIMES[i], PRIMES[i + 1])
  {
    Steps56();
  }

  lemma Successive(i: nat)
    requires i < 63
    ensures Steps(PRIMES[i], PRIMES[i + 1])
  {
    if i < 8 {
      StepsFrom0(i);
    } else if i < 16 {
      StepsFrom8(i);
    } else if i < 24 {
      StepsFrom16(i);
    } else if i < 32 {
      StepsFrom24(i);
    } else if i < 40 {
      StepsFrom32(i);
    } else if i < 48 {
      StepsFrom40(i);
    } else if i < 56 {
      StepsFrom48(i);
    } else {
      StepsFrom56(i);
    }
  }

  /** The list begins with the first prime, and each is followed by the next one: it has the first 64 primes. */
  lemma FirstPrimes(i: nat)
    requires i < 63
    ensures |PRIMES| == 64 && PRIMES[0] == 2 && Prime(2) && Follows(PRIMES[i], PRIMES[i + 1])
  {
    Successive(i);
    StepsFollow(PRIMES[i], PRIMES[i + 1]);
  }

  // ---------------------------------------------------------------- the roots

  const TWO32: nat := 0x1_0000_0000
  const TWO64: nat := 0x1_0000_0000_0000_0000
  const TWO96: nat := 0x1_0000_0000_0000_0000_0000_0000

  function Square(n: nat): nat { n * n }

  function Cube(n: nat): nat { n * n * n }

  /** `c` and then the 32 binary places `k` are the cube root of `p`, cut off. */
  predicate CubeRoot(p: nat, c: nat, k: nat) {
    Cube(c * TWO32 + k) <= p * TWO96 < Cube(c * TWO32 + k + 1)
  }

  /** The same for the square root. */
  predicate SquareRoot(p: nat, c: nat, k: nat) {
    Square(c * TWO32 + k) <= p * TWO64 < Square(c * TWO32 + k + 1)
  }

  lemma Roots0()
    ensures CubeRoot(2, 1, K256[0] as nat) && CubeRoot(3, 1, K256[1] as nat)
    ensures CubeRoot(5, 1, K256[2] as nat) && CubeRoot(7, 1, K256[3] as nat)
    ensures CubeRoot(11, 2, K256[4] as nat) && CubeRoot(13, 2, K256[5] as nat)
    ensures CubeRoot(17, 2, K256[6] as nat) && CubeRoot(19, 2, K256[7] as nat)
  {
  }

  lemma Roots8()
    ensures CubeRoot(23, 2, K256[8] as nat) && CubeRoot(29, 3, K256[9] as nat)
    ensures CubeRoot(31, 3, K256[10] as nat) && CubeRoot(37, 3, K256[11] as nat)
    ensures CubeRoot(41, 3, K256[12] as nat) && CubeRoot(43, 3, K256[13] as nat)
    ensures CubeRoot(47, 3, K256[14] as nat) && CubeRoot(53, 3, K256[15] as nat)
  {
  }

  lemma Roots16()
    ensures CubeRoot(59, 3, K256[16] as nat) && CubeRoot(61, 3, K256[17] as nat)
    ensures CubeRoot(67, 4, K256[18] as nat) && CubeRoot(71, 4, K256[19] as nat)
    ensures CubeRoot(73, 4, K256[20] as nat) && CubeRoot(79, 4, K256[21] as nat)
    ensures CubeRoot(83, 4, K256[22] as nat) && CubeRoot(89, 4, K256[23] as nat)
  {
  }

  lemma Roots24()
    ensures CubeRoot(97, 4, K256[24] as nat) && CubeRoot(101, 4, K256[25] as nat)
    ensures CubeRoot(103, 4, K256[26] as nat) && CubeRoot(107, 4, K256[27] as nat)
    ensures CubeRoot(109, 4, K256[28] as nat) && CubeRoot(113, 4, K256[29] as nat)
    ensures CubeRoot(127, 5, K256[30] as nat) && CubeRoot(131, 5, K256[31] as nat)
  {
  }

  lemma Roots32()
    ensures CubeRoot(137, 5, K256[32] as nat) && CubeRoot(139, 5, K256[33] as nat)
    ensures CubeRoot(149, 5, K256[34] as nat) && CubeRoot(151, 5, K256[35] as nat)
    ensures CubeRoot(157, 5, K256[36] as nat) && CubeRoot(163, 5, K256[37] as nat)
    ensures CubeRoot(167, 5, K256[38] as nat) && CubeRoot(173, 5, K256[39] as nat)
  {
  }

  lemma Roots40()
    ensures CubeRoot(179, 5, K256[40] as nat) && CubeRoot(181, 5, K256[41] as nat)
    ensures CubeRoot(191, 5, K256[42] as nat) && CubeRoot(193, 5, K256[43] as nat)
    ensures CubeRoot(197, 5, K256[44] as nat) && CubeRoot(199, 5, K256[45] as nat)
    ensures CubeRoot(211, 5, K256[46] as nat) && CubeRoot(223, 6, K256[47] as nat)
  {
  }

  lemma Roots48()
    ensures CubeRoot(227, 6, K256[48] as nat) && CubeRoot(229, 6, K256[49] as nat)
    ensures CubeRoot(233, 6, K256[50] as nat) && CubeRoot(239, 6, K256[51] as nat)
    ensures CubeRoot(241, 6, K256[52] as nat) && CubeRoot(251, 6, K256[53] as nat)
    ensures CubeRoot(257, 6, K256[54] as nat) && CubeRoot(263, 6, K256[55] as nat)
  {
  }

  lemma Roots56()
    ensures CubeRoot(269, 6, K256[56] as nat) && CubeRoot(271, 6, K256[57] as nat)
    ensures CubeRoot(277, 6, K256[58] as nat) && CubeRoot(281, 6, K256[59] as nat)
    ensures CubeRoot(283, 6, K256[60] as nat) && CubeRoot(293, 6, K256[61] as nat)
    ensures CubeRoot(307, 6, K256[62] as nat) && CubeRoot(311, 6, K256[63] as nat)
  {
  }

  /** The whole part of the cube root of prime `i`. */
  function WholePart(i: nat): nat { if i < 4 then 1 else if i < 9 then 2 else if i < 18 then 3 else if i < 30 then 4 else if i < 47 then 5 else 6 }

  lemma RootsFrom0(i: nat)
    requires 0 <= i < 8
    ensures CubeRoot(PRIMES[i], WholePart(i), K256[i] as nat)
  {
    Roots0();
  }

  lemma RootsFrom8(i: nat)
    requires 8 <= i < 16
    ensures CubeRoot(PRIMES[i], WholePart(i), K256[i] as nat)
  {
    Roots8();
  }

  lemma RootsFrom16(i: nat)
    requires 16 <= i < 24
    ensures CubeRoot(PRIMES[i], WholePart(i), K256[i] as nat)
  {
    Roots16();
  }

  lemma RootsFrom24(i: nat)
    requires 24 <= i < 32
    ensures CubeRoot(PRIMES[i], WholePart(i), K256[i] as nat)
  {
    Roots24();
  }

  lemma RootsFrom32(i: nat)
    requires 32 <= i < 40
    ensures CubeRoot(PRIMES[i], WholePart(i), K256[i] as nat)
  {
    Roots32();
  }

  lemma RootsFrom40(i: nat)
    requires 40 <= i < 48
    ensures CubeRoot(PRIMES[i], WholePart(i), K256[i] as nat)
  {
    Roots40();
  }

  lemma RootsFrom48(i: nat)
    requires 48 <= i < 56
    ensures CubeRoot(PRIMES[i], WholePart(i), K256[i] as nat)
  {
    Roots48();
  }

  lemma RootsFrom56(i: nat)
    requires 56 <= i < 64
    ensures CubeRoot(PRIMES[i], WholePart(i), K256[i] as nat)
  {
    Roots56();
  }

  /** The round constants are the first 32 binary places of the cube roots of the first 64 primes. */
  lemma RoundConstants(i: nat)
    requires i < 64
    ensures CubeRoot(PRIMES[i], WholePart(i), K256[i] as nat)
  {
    if i < 8 {
      RootsFrom0(i);
    } else if i < 16 {
      RootsFrom8(i);
    } else if i < 24 {
      RootsFrom16(i);
    } else if i < 32 {
      RootsFrom24(i);
    } else if i < 40 {
      RootsFrom32(i);
    } else if i < 48 {
      RootsFrom40(i);
    } else if i < 56 {
      RootsFrom48(i);
    } else {
      RootsFrom56(i);
    }
  }

  /** The initial hash value: the square roots of the first eight. */
  lemma InitialValue()
    ensures SquareRoot(2, 1, IV.a as nat) && SquareRoot(3, 1, IV.b as nat) && SquareRoot(5, 2, IV.c as nat) && SquareRoot(7, 2, IV.d as nat)
    ensures SquareRoot(11, 3, IV.e as nat) && SquareRoot(13, 3, IV.f as nat) && SquareRoot(17, 4, IV.g as nat) && SquareRoot(19, 4, IV.h as nat)
  {
  }

  lemma CubeGrows(m: nat, n: nat)
    requires m <= n
    ensures Cube(m) <= Cube(n)
  {
    assert m * m <= m * n <= n * n;
    assert m * m * m <= n * n * m <= n * n * n;
  }

  /** No other 32 places will do. */
  lemma OnlyRoot(p: nat, c: nat, k: nat, c': nat, k': nat)
    requires k < TWO32 && k' < TWO32 && CubeRoot(p, c, k) && CubeRoot(p, c', k')
    ensures c == c' && k == k'
  {
    var r, r' := c * TWO32 + k, c' * TWO32 + k';
    if r < r' {
      CubeGrows(r + 1, r');
    } else if r' < r {
      CubeGrows(r' + 1, r);
    }
  }

  lemma SquareGrows(m: nat, n: nat)
    requires m <= n
    ensures Square(m) <= Square(n)
  {
    assert m * m <= m * n <= n * n;
  }

  lemma OnlySquareRoot(p: nat, c: nat, k: nat, c': nat, k': nat)
    requires k < TWO32 && k' < TWO32 && SquareRoot(p, c, k) && SquareRoot(p, c', k')
    ensures c == c' && k == k'
  {
    var r, r' := c * TWO32 + k, c' * TWO32 + k';
    if r < r' {
      SquareGrows(r + 1, r');
    } else if r' < r {
      SquareGrows(r' + 1, r);
    }
  }
}
