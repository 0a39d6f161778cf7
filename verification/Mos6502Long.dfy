/** Addition and subtraction of numbers of any length, one byte at a time through the carry. */
module Mos6502Long {
  import opened Basics
  import opened Mos6502
  import opened Mos6502Core

  /** A number, low byte first. */
  function Value(b: seq<u8>): nat {
    if b == [] then 0 else b[0] + 256 * Value(b[1..])
  }

  /** The same bytes in two's complement. */
  function Signed(b: seq<u8>): int
    requires |b| > 0
  {
    if |b| == 1 then (if b[0] >= 128 then b[0] - 256 else b[0]) else b[0] + 256 * Signed(b[1..])
  }

  /** Half the range of `n` bytes. */
  function Half(n: nat): int
    requires n > 0
  {
    if n == 1 then 128 else 256 * Half(n - 1)
  }

  predicate InRange(x: int, n: nat)
    requires n > 0
  {
    -Half(n) <= x < Half(n)
  }

  /** The top bit is the sign. */
  lemma {:induction false} SignedIs(b: seq<u8>)
    requires |b| > 0
    ensures Signed(b) == (if b[|b| - 1] >= 128 then Value(b) - Pow256(|b|) else Value(b))
    ensures InRange(Signed(b), |b|) && Pow256(|b|) == 2 * Half(|b|)
  {
    if |b| == 1 {
      assert b[1..] == [];
      assert Pow256(1) == 256 * Pow256(0);
    } else {
      SignedIs(b[1..]);
      assert b[1..][|b| - 2] == b[|b| - 1];
    }
  }

  /** `AdcBin` on each byte in turn. */
  function AddLong(a: seq<u8>, v: seq<u8>, f: Flags): (seq<u8>, Flags)
    requires |a| == |v|
  {
    if a == [] then ([], f) else
    var r := AddByte(a[0], v[0], f);
    var rest := AddLong(a[1..], v[1..], r.1);
    ([r.0] + rest.0, rest.1)
  }

  lemma ByteSum(a: u8, v: u8, f: Flags)
    ensures var r := AddByte(a, v, f); r.0 + 256 * Bit(r.1.c) == a + v + Bit(f.c)
    ensures AddByte(a, v, f).1.v <==> !InRange(Signed([a]) + Signed([v]) + Bit(f.c), 1)
  {
  }

  /** The sum, with the carry as its top digit. */
  lemma {:induction false} SumLong(a: seq<u8>, v: seq<u8>, f: Flags)
    requires |a| == |v|
    ensures var r := AddLong(a, v, f);
            |r.0| == |a| && Value(r.0) + Pow256(|a|) * Bit(r.1.c) == Value(a) + Value(v) + Bit(f.c)
  {
    if a != [] {
      var r := AddByte(a[0], v[0], f);
      ByteSum(a[0], v[0], f);
      SumLong(a[1..], v[1..], r.1);
      var rest := AddLong(a[1..], v[1..], r.1);
      assert ([r.0] + rest.0)[1..] == rest.0;
      Spread(Value(rest.0), Pow256(|a| - 1), Bit(rest.1.c), Value(a[1..]), Value(v[1..]), Bit(r.1.c));
    }
  }

  lemma Spread(r: int, p: int, c: int, a: int, v: int, d: int)
    requires r + p * c == a + v + d
    ensures 256 * r + 256 * p * c == 256 * a + 256 * v + 256 * d
  {
    assert 256 * (r + p * c) == 256 * r + 256 * p * c;
  }

  /** Overflow of the whole number, as V after the last byte says. */
  lemma {:induction false} OverflowLong(a: seq<u8>, v: seq<u8>, f: Flags)
    requires |a| == |v| > 0
    ensures AddLong(a, v, f).1.v <==> !InRange(Signed(a) + Signed(v) + Bit(f.c), |a|)
  {
    ByteSum(a[0], v[0], f);
    if |a| == 1 {
      assert a == [a[0]] && v == [v[0]];
      assert AddLong(a[1..], v[1..], AddByte(a[0], v[0], f).1) == ([], AddByte(a[0], v[0], f).1);
    } else {
      var r := AddByte(a[0], v[0], f);
      OverflowLong(a[1..], v[1..], r.1);
      Scaled(r.0, Signed(a[1..]) + Signed(v[1..]) + Bit(r.1.c), |a|);
    }
  }

  lemma Scaled(lo: u8, x: int, n: nat)
    requires n > 1
    ensures InRange(lo + 256 * x, n) <==> InRange(x, n - 1)
  {
  }

  // ---------------------------------------------------------------- subtraction

  function SubLong(a: seq<u8>, v: seq<u8>, f: Flags): (seq<u8>, Flags)
    requires |a| == |v|
  {
    if a == [] then ([], f) else
    var r := SubByte(a[0], v[0], f);
    var rest := SubLong(a[1..], v[1..], r.1);
    ([r.0] + rest.0, rest.1)
  }

  function Inverted(v: seq<u8>): (r: seq<u8>)
    ensures |r| == |v|
  {
    if v == [] then [] else [255 - v[0]] + Inverted(v[1..])
  }

  lemma {:induction false} InvertedIs(v: seq<u8>)
    ensures Value(Inverted(v)) == Pow256(|v|) - 1 - Value(v)
    ensures |v| > 0 ==> Signed(Inverted(v)) == -1 - Signed(v)
  {
    if v != [] {
      InvertedIs(v[1..]);
      assert Inverted(v)[1..] == Inverted(v[1..]);
    }
  }

  lemma {:induction false} SubIsAdd(a: seq<u8>, v: seq<u8>, f: Flags)
    requires |a| == |v|
    ensures SubLong(a, v, f) == AddLong(a, Inverted(v), f)
  {
    if a != [] {
      SubIsAdd(a[1..], v[1..], SubByte(a[0], v[0], f).1);
      assert Inverted(v)[1..] == Inverted(v[1..]);
    }
  }

  /** The difference with borrow, modulo 256^n; C is set exactly when nothing was borrowed. */
  lemma {:induction false} DifferenceLong(a: seq<u8>, v: seq<u8>, f: Flags)
    requires |a| == |v|
    ensures var r, d := SubLong(a, v, f), Value(a) - Value(v) - 1 + Bit(f.c);
            |r.0| == |a| && (r.1.c <==> d >= 0) && Value(r.0) == if d >= 0 then d else d + Pow256(|a|)
  {
    SubIsAdd(a, v, f);
    InvertedIs(v);
    SumLong(a, Inverted(v), f);
    ValueBound(SubLong(a, v, f).0);
    Borrowed(Value(SubLong(a, v, f).0), Pow256(|a|), SubLong(a, v, f).1.c, Value(a) - Value(v) - 1 + Bit(f.c));
  }

  lemma Borrowed(r: nat, p: nat, c: bool, d: int)
    requires r < p && r + p * Bit(c) == d + p
    ensures c <==> d >= 0
    ensures r == if d >= 0 then d else d + p
  {
    if c { assert p * Bit(c) == p; } else { assert p * Bit(c) == 0; }
  }

  lemma {:induction false} ValueBound(b: seq<u8>)
    ensures Value(b) < Pow256(|b|)
  {
    if b != [] {
      ValueBound(b[1..]);
    }
  }

  /** Signed overflow of the difference with borrow. */
  lemma {:induction false} SubOverflowLong(a: seq<u8>, v: seq<u8>, f: Flags)
    requires |a| == |v| > 0
    ensures SubLong(a, v, f).1.v <==> !InRange(Signed(a) - Signed(v) - 1 + Bit(f.c), |a|)
  {
    SubIsAdd(a, v, f);
    InvertedIs(v);
    OverflowLong(a, Inverted(v), f);
  }

  // ---------------------------------------------------------------- on the core

  /** Adds two numbers with the core's own instructions' arithmetic. */
  method AddNumbers(core: Core, a: seq<u8>, v: seq<u8>) returns (r: seq<u8>)
    requires |a| == |v|
    modifies core
    ensures r == AddLong(a, v, old(core.p)).0 && core.p == AddLong(a, v, old(core.p)).1
  {
    r := [];
    var i := 0;
    while i < |a|
      invariant 0 <= i <= |a|
      invariant r + AddLong(a[i..], v[i..], core.p).0 == AddLong(a, v, old(core.p)).0
      invariant AddLong(a[i..], v[i..], core.p).1 == AddLong(a, v, old(core.p)).1
    {
      assert a[i..][1..] == a[i + 1..] && v[i..][1..] == v[i + 1..];
      core.a := a[i];
      core.AdcBin(v[i]);
      r := r + [core.a];
      i := i + 1;
    }
  }

  lemma SubStep(a: seq<u8>, v: seq<u8>, i: nat, f: Flags, r: seq<u8>)
    requires |a| == |v| && i < |a|
    ensures var x := SubByte(a[i], v[i], f);
            && r + SubLong(a[i..], v[i..], f).0 == r + [x.0] + SubLong(a[i + 1..], v[i + 1..], x.1).0
            && SubLong(a[i..], v[i..], f).1 == SubLong(a[i + 1..], v[i + 1..], x.1).1
  {
    assert a[i..][1..] == a[i + 1..] && v[i..][1..] == v[i + 1..];
  }

  /** Subtracts two numbers with the core's own instructions' arithmetic. */
  method SubNumbers(core: Core, a: seq<u8>, v: seq<u8>) returns (r: seq<u8>)
    requires |a| == |v|
    modifies core
    ensures r == SubLong(a, v, old(core.p)).0 && core.p == SubLong(a, v, old(core.p)).1
  {
    r := [];
    var i := 0;
    while i < |a|
      invariant 0 <= i <= |a|
      invariant r + SubLong(a[i..], v[i..], core.p).0 == SubLong(a, v, old(core.p)).0
      invariant SubLong(a[i..], v[i..], core.p).1 == SubLong(a, v, old(core.p)).1
    {
      SubStep(a, v, i, core.p, r);
      core.a := a[i];
      core.SbcBin(v[i]);
      r := r + [core.a];
      i := i + 1;
    }
  }
}
