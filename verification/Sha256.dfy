/** Streaming SHA-256: a 64-byte buffer, a running hash value, a bit count. */
module Sha256 {
  import opened Basics
  import opened Sha256Spec

  const K256: Words :=
    [0x428a2f98, 0x71374491, 0xb5c0fbcf, 0xe9b5dba5, 0x3956c25b, 0x59f111f1, 0x923f82a4, 0xab1c5ed5] +
    [0xd807aa98, 0x12835b01, 0x243185be, 0x550c7dc3, 0x72be5d74, 0x80deb1fe, 0x9bdc06a7, 0xc19bf174] +
    [0xe49b69c1, 0xefbe4786, 0x0fc19dc6, 0x240ca1cc, 0x2de92c6f, 0x4a7484aa, 0x5cb0a9dc, 0x76f988da] +
    [0x983e5152, 0xa831c66d, 0xb00327c8, 0xbf597fc7, 0xc6e00bf3, 0xd5a79147, 0x06ca6351, 0x14292967] +
    [0x27b70a85, 0x2e1b2138, 0x4d2c6dfc, 0x53380d13, 0x650a7354, 0x766a0abb, 0x81c2c92e, 0x92722c85] +
    [0xa2bfe8a1, 0xa81a664b, 0xc24b8b70, 0xc76c51a3, 0xd192e819, 0xd6990624, 0xf40e3585, 0x106aa070] +
    [0x19a4c116, 0x1e376c08, 0x2748774c, 0x34b0bcb5, 0x391c0cb3, 0x4ed8aa4a, 0x5b9cca4f, 0x682e6ff3] +
    [0x748f82ee, 0x78a5636f, 0x84c87814, 0x8cc70208, 0x90befffa, 0xa4506ceb, 0xbef9a3f7, 0xc67178f2]

  const IV: Regs := Regs(0x6a09e667, 0xbb67ae85, 0x3c6ef372, 0xa54ff53a, 0x510e527f, 0x9b05688c, 0x1f83d9ab, 0x5be0cd19)

  /** The message schedule, built up in an array. */
  method MakeSchedule(block: seq<byte>) returns (ws: seq<bv32>)
    requires |block| == 64
    ensures |ws| == 64 && forall j: nat | j < 64 :: ws[j] == Schedule(block, j)
  {
    var w := new bv32[64];
    var i := 0;
    while i < 16
      invariant 0 <= i <= 16 && forall j: nat | j < i :: w[j] == Schedule(block, j)
    {
      w[i] := WordAt(block, i);
      i := i + 1;
    }
    while i < 64
      invariant 16 <= i <= 64 && forall j: nat | j < i :: w[j] == Schedule(block, j)
    {
      w[i] := Add(Add(Add(SmallSigma1(w[i - 2]), w[i - 7]), SmallSigma0(w[i - 15])), w[i - 16]);
      i := i + 1;
    }
    ws := w[..];
  }

  /** One round, the variables moved one after the other. */
  method RoundStep(s: Regs, k: bv32, w: bv32) returns (r: Regs)
    ensures r == Round(s, k, w)
  {
    var t1 := Add(Add(Add(Add(s.h, BigSigma1(s.e)), Choose(s.e, s.f, s.g)), k), w);
    var t2 := Add(BigSigma0(s.a), Majority(s.a, s.b, s.c));
    r := s;
    r := r.(h := r.g);
    r := r.(g := r.f);
    r := r.(f := r.e);
    r := r.(e := Add(r.d, t1));
    r := r.(d := r.c);
    r := r.(c := r.b);
    r := r.(b := r.a);
    r := r.(a := Add(t1, t2));
  }

  /** One block. */
  method BlockStep(ks: Words, start: Regs, block: seq<byte>) returns (h: Regs)
    requires |block| == 64
    ensures h == Compress(ks, start, block)
  {
    var w := MakeSchedule(block);
    var s := start;
    var i := 0;
    while i < |ks|
      invariant 0 <= i <= |ks| && s == Rounds(ks, start, block, i)
    {
      assert w[i] == Schedule(block, i);
      s := RoundStep(s, ks[i], w[i]);
      i := i + 1;
    }
    h := Regs(Add(start.a, s.a), Add(start.b, s.b), Add(start.c, s.c), Add(start.d, s.d),
              Add(start.e, s.e), Add(start.f, s.f), Add(start.g, s.g), Add(start.h, s.h));
  }

  /** One block more of a message whose blocks `before` are in the hash value. */
  method Absorb(ks: Words, start: Regs, block: seq<byte>, ghost iv: Regs, ghost before: seq<byte>) returns (h: Regs)
    requires |block| == 64 && |before| % 64 == 0 && start == Chain(ks, iv, before)
    ensures h == Chain(ks, iv, before + block)
  {
    h := BlockStep(ks, start, block);
    ghost var data := before + block;
    assert data[..|data| - 64] == before && data[|data| - 64..] == block;
  }

  /** The streaming state. */
  class Stream {
    const ks: Words
    ghost const iv: Regs
    const buf: array<byte>
    var h: Regs
    var lenBits: nat
    var bufLen: nat

    /** The whole blocks of `d` are in the hash value, the rest is in the buffer. */
    ghost predicate Holds(d: seq<byte>)
      reads this, buf
    {
      && buf.Length == 64 && bufLen <= 64 && bufLen <= |d|
      && (|d| - bufLen) % 64 == 0 && h == Chain(ks, iv, d[..|d| - bufLen])
      && buf[..bufLen] == d[|d| - bufLen..]
    }

    /** Between calls: `m` has been taken in. */
    ghost predicate Taken(m: seq<byte>)
      reads this, buf
    {
      Holds(m) && bufLen < 64 && lenBits == 8 * |m|
    }

    constructor (constants: Words, start: Regs)
      ensures Taken([]) && ks == constants && iv == start && fresh(buf)
    {
      ks, h, lenBits, bufLen := constants, start, 0, 0;
      iv := start;
      buf := new byte[64];
      new;
      ghost var none: seq<byte> := [];
      assert none[..0] == none && buf[..0] == none;
    }

    /** A full buffer goes into the hash value. */
    method Flush(ghost d: seq<byte>)
      requires Holds(d) && bufLen == 64
      modifies this`h, this`bufLen
      ensures Holds(d) && bufLen == 0
    {
      ghost var whole := d[..|d| - 64];
      h := Absorb(ks, h, buf[..], iv, whole);
      assert whole + buf[..] == d && d[..|d|] == d;
      bufLen := 0;
    }

    /** One byte into the buffer. */
    method Put(b: byte, ghost d: seq<byte>) returns (ghost d': seq<byte>)
      requires Holds(d) && bufLen < 64
      modifies this`bufLen, buf
      ensures d' == d + [b] && Holds(d') && bufLen == old(bufLen) + 1
    {
      ghost var n := |d| - bufLen;
      buf[bufLen] := b;
      bufLen := bufLen + 1;
      d' := d + [b];
      assert d'[..n] == d[..n] && d'[n..] == d[n..] + [b];
      assert buf[..bufLen] == buf[..bufLen - 1] + [b];
    }

    /** As many bytes as fit, or as there are. */
    method Copy(data: seq<byte>, ghost d: seq<byte>) returns (take: nat, ghost d': seq<byte>)
      requires Holds(d) && bufLen < 64 && data != []
      modifies this`bufLen, buf
      ensures 0 < take <= |data| && d' == d + data[..take] && Holds(d')
      ensures bufLen == old(bufLen) + take && (bufLen == 64 || take == |data|)
    {
      take := 64 - bufLen;
      if take > |data| { take := |data|; }
      var i := 0;
      ghost var start := bufLen;
      d' := d;
      while i < take
        invariant 0 <= i <= take && bufLen == start + i && d' == d + data[..i] && Holds(d')
      {
        NextByte(d, data, i);
        d' := Put(data[i], d');
        i := i + 1;
      }
    }

    /** Takes in one more piece of the message. */
    method Update(data: seq<byte>, ghost m: seq<byte>)
      requires Taken(m)
      modifies this`h, this`lenBits, this`bufLen, buf
      ensures Taken(m + data)
    {
      lenBits := lenBits + |data| * 8;
      var i := 0;
      ghost var d := m;
      while i < |data|
        invariant 0 <= i <= |data| && d == m + data[..i] && Holds(d) && bufLen < 64 && lenBits == 8 * |m + data|
      {
        var take;
        ghost var was := d;
        take, d := Copy(data[i..], d);
        Advanced(m, data, i, take, was, d);
        i := i + take;
        if bufLen == 64 {
          Flush(d);
        }
      }
      assert d == m + data;
    }

    /** Zero bytes up to position `n` of the buffer. */
    method Fill(n: nat, ghost d: seq<byte>) returns (ghost d': seq<byte>)
      requires Holds(d) && bufLen <= n <= 64
      modifies this`bufLen, buf
      ensures d' == d + Zeros(n - old(bufLen)) && Holds(d') && bufLen == n
    {
      ghost var start, k := bufLen, 0;
      d' := d;
      NextZero(d, k);
      while bufLen < n
        invariant bufLen == start + k <= n && Holds(d') && d' == d + Zeros(k)
        decreases n - bufLen
      {
        NextZero(d, k);
        d' := Put(0, d');
        k := k + 1;
      }
    }

    /** The eight bytes of the length, written from the last one back. */
    method WriteLength(n: nat)
      requires buf.Length == 64
      modifies buf
      ensures buf[..56] == old(buf[..56]) && buf[56..] == BigEndian(n, 8)
    {
      var left, i := n, 0;
      assert buf[64..] == [];
      while i < 8
        invariant 0 <= i <= 8
        invariant BigEndian(n, 8) == BigEndian(left, 8 - i) + buf[64 - i..]
        invariant buf[..56] == old(buf[..56])
      {
        buf[63 - i] := left % 256;
        assert buf[63 - i..] == [left % 256] + buf[64 - i..];
        left, i := left / 256, i + 1;
      }
    }

    /** The length fills the buffer. */
    method PutLength(n: nat, ghost d: seq<byte>) returns (ghost d': seq<byte>)
      requires Holds(d) && bufLen == 56
      modifies this`bufLen, buf
      ensures d' == d + BigEndian(n, 8) && Holds(d') && bufLen == 64
    {
      WriteLength(n);
      bufLen := 64;
      d' := d + BigEndian(n, 8);
      assert buf[..64] == buf[..56] + buf[56..];
      Lengthened(d, |d| - 56, BigEndian(n, 8));
    }

    /** Zero bytes up to the end of the buffer, which then goes into the hash value. */
    method FillUp(ghost d: seq<byte>) returns (ghost d': seq<byte>)
      requires Holds(d)
      modifies this`h, this`bufLen, buf
      ensures d' == d + Zeros(64 - old(bufLen)) && Holds(d') && bufLen == 0
    {
      d' := Fill(64, d);
      Flush(d');
    }

    /** Zero bytes up to where the length goes, in this block or the next. */
    method FillToLength(ghost d: seq<byte>) returns (ghost d': seq<byte>)
      requires Holds(d)
      modifies this`h, this`bufLen, buf
      ensures d' == d + Zeros(ToLength(old(bufLen))) && Holds(d') && bufLen == 56
    {
      if bufLen > 56 {
        d' := FillOver(d, 56);
      } else {
        d' := Fill(56, d);
      }
    }

    /** Zero bytes to the end of the buffer, and then up to position `n` of the next block. */
    method FillOver(ghost d: seq<byte>, n: nat) returns (ghost d': seq<byte>)
      requires Holds(d) && n <= 64
      modifies this`h, this`bufLen, buf
      ensures d' == d + Zeros(64 - old(bufLen) + n) && Holds(d') && bufLen == n
    {
      Joined(d, 64 - bufLen, n);
      d' := FillUp(d);
      d' := Fill(n, d');
    }

    /** Marker and zeros. */
    method PadBuffer(ghost m: seq<byte>) returns (ghost d: seq<byte>)
      requires Holds(m) && bufLen < 64
      modifies this`h, this`bufLen, buf
      ensures d == m + [0x80] + Zeros(Gap(|m|)) && Holds(d) && bufLen == 56
    {
      GapReached(|m|, bufLen);
      d := Put(0x80, m);
      d := FillToLength(d);
    }

    /** The last block. */
    method Last(ghost d: seq<byte>) returns (out: Regs)
      requires Holds(d) && bufLen == 64
      modifies this`h, this`bufLen
      ensures |d| % 64 == 0 && out == Chain(ks, iv, d)
    {
      Flush(d);
      assert d[..|d|] == d;
      out := h;
    }

    /** Pads the message and gives the hash value of all of it. */
    method Final(ghost m: seq<byte>) returns (out: Regs)
      requires Taken(m)
      modifies this`h, this`bufLen, buf
      ensures |Pad(m)| % 64 == 0 && out == Chain(ks, iv, Pad(m))
    {
      ghost var d := PadBuffer(m);
      d := PutLength(lenBits, d);
      out := Last(d);
    }
  }

  lemma NextByte(d: seq<byte>, data: seq<byte>, i: nat)
    requires i < |data|
    ensures d + data[..i] + [data[i]] == d + data[..i + 1]
  {
    assert data[..i + 1] == data[..i] + [data[i]];
  }

  lemma NextZero(d: seq<byte>, k: nat)
    ensures d + Zeros(0) == d && d + Zeros(k) + [0] == d + Zeros(k + 1)
  {
  }

  lemma Lengthened(d: seq<byte>, n: nat, more: seq<byte>)
    requires n <= |d|
    ensures (d + more)[..n] == d[..n] && (d + more)[n..] == d[n..] + more
  {
  }

  lemma Advanced(m: seq<byte>, data: seq<byte>, i: nat, take: nat, was: seq<byte>, d: seq<byte>)
    requires i <= |data| && take <= |data| - i && was == m + data[..i] && d == was + data[i..][..take]
    ensures d == m + data[..i + take]
  {
    assert data[..i + take] == data[..i] + data[i..][..take];
  }

  lemma {:induction false} Joined(d: seq<byte>, z: nat, rest: nat)
    ensures d + Zeros(z) + Zeros(rest) == d + Zeros(z + rest)
  {
    MoreZeros(z, rest);
    assert d + Zeros(z) + Zeros(rest) == d + (Zeros(z) + Zeros(rest));
  }

  lemma {:induction false} MoreZeros(a: nat, b: nat)
    ensures Zeros(a) + Zeros(b) == Zeros(a + b)
  {
    if b > 0 {
      MoreZeros(a, b - 1);
      assert Zeros(a) + (Zeros(b - 1) + [0]) == Zeros(a) + Zeros(b - 1) + [0];
    }
  }

  /** How many zeros bring a buffer of `r` bytes to where the length goes. */
  function ToLength(r: nat): nat
    requires r <= 64
  {
    if r > 56 then 64 - r + 56 else 56 - r
  }

  /** The zeros written are as many as the padding asks for. */
  lemma GapReached(n: nat, r: nat)
    requires r < 64 && r <= n && (n - r) % 64 == 0
    ensures ToLength(r + 1) == Gap(n)
  {
    assert n % 64 == r;
  }

  lemma ModPow(n: nat, p: nat)
    requires p > 0
    ensures var r := n % (256 * p); r % 256 == n % 256 && r / 256 == n / 256 % p
  {
    var q, r := n / (256 * p), n % (256 * p);
    assert n == 256 * (p * q) + r;
    assert n / 256 == p * q + r / 256 && n % 256 == r % 256;
    Unique(n / 256, p, q, r / 256);
  }

  lemma Small(p: int, k: int, d: int)
    requires p > 0 && p * k == d && -p < d < p
    ensures k == 0
  {
  }

  lemma Unique(x: nat, p: nat, q: nat, r: nat)
    requires p > 0 && x == p * q + r && r < p
    ensures x % p == r
  {
    var q', r' := x / p, x % p;
    assert x == p * q' + r';
    assert p * (q' - q) == r - r' by { assert p * (q' - q) == p * q' - p * q; }
    Small(p, q' - q, r - r');
  }

  /** A bit count that wraps, as a 64-bit one does for k = 8, prints the same last `k` bytes. */
  lemma {:induction false} LengthKept(n: nat, k: nat)
    ensures Pow256(k) > 0 && BigEndian(n % Pow256(k), k) == BigEndian(n, k)
  {
    if k > 0 {
      LengthKept(n / 256, k - 1);
      ModPow(n, Pow256(k - 1));
    }
  }

  /** The pieces, one after the other. */
  function Whole(pieces: seq<seq<byte>>, k: nat): seq<byte>
    requires k <= |pieces|
  {
    if k == 0 then [] else Whole(pieces, k - 1) + pieces[k - 1]
  }

  /** Takes in the pieces of a message. */
  method Feed(s: Stream, pieces: seq<seq<byte>>) returns (ghost m: seq<byte>)
    requires s.Taken([])
    modifies s, s.buf
    ensures m == Whole(pieces, |pieces|) && s.Taken(m)
  {
    var k := 0;
    m := [];
    while k < |pieces|
      invariant 0 <= k <= |pieces| && m == Whole(pieces, k)
      invariant s.Taken(m)
    {
      s.Update(pieces[k], m);
      m := m + pieces[k];
      k := k + 1;
    }
  }

  /** However a message is cut into pieces, the hash value is that of the padded message. */
  method HashOf(ks: Words, iv: Regs, pieces: seq<seq<byte>>) returns (out: Regs)
    ensures |Pad(Whole(pieces, |pieces|))| % 64 == 0 && out == Chain(ks, iv, Pad(Whole(pieces, |pieces|)))
  {
    var s := new Stream(ks, iv);
    ghost var m := Feed(s, pieces);
    out := s.Final(m);
  }

  /** The digest of a message given in pieces. */
  method Sha256Of(pieces: seq<seq<byte>>) returns (out: seq<byte>)
    ensures out == Digest(K256, IV, Whole(pieces, |pieces|))
  {
    var h := HashOf(K256, IV, pieces);
    out := Output(h);
  }
}
