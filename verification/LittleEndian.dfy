/** Little-endian numbers in a sequence of bytes. */
module LittleEndian {
  import opened Basics

  /** The little-endian value of the bytes from `lo` up to `hi`. */
  function Load(m: seq<byte>, lo: nat, hi: nat): (v: nat)
    requires hi <= |m|
    decreases hi - lo
  {
    if lo >= hi then 0 else m[lo] + 256 * Load(m, lo + 1, hi)
  }

  /** Stores the low bytes of `v` from `lo` up to `hi`, least significant byte first. */
  function Store(m: seq<byte>, lo: nat, hi: nat, v: nat): (m': seq<byte>)
    requires lo <= hi <= |m|
    ensures |m'| == |m|
    ensures forall x | 0 <= x < lo || hi <= x < |m| :: m'[x] == m[x]
    decreases hi - lo
  {
    if lo >= hi then m else Store(m[lo := v % 256], lo + 1, hi, v / 256)
  }

  ghost predicate SameBytes(m: seq<byte>, m': seq<byte>, lo: nat, hi: nat) {
    |m'| == |m| && forall x | lo <= x < hi && x < |m| :: m'[x] == m[x]
  }

  lemma {:induction false} LoadFrame(m: seq<byte>, m': seq<byte>, lo: nat, hi: nat)
    requires hi <= |m| && SameBytes(m, m', lo, hi)
    ensures Load(m', lo, hi) == Load(m, lo, hi)
    decreases hi - lo
  {
    if lo < hi {
      LoadFrame(m, m', lo + 1, hi);
    }
  }

  /** A value that fits is read back. */
  lemma {:induction false} LoadStore(m: seq<byte>, lo: nat, hi: nat, v: nat)
    requires lo <= hi <= |m| && v < Pow256(hi - lo)
    ensures Load(Store(m, lo, hi, v), lo, hi) == v
    decreases hi - lo
  {
    if lo < hi {
      var m1 := m[lo := v % 256];
      LoadStore(m1, lo + 1, hi, v / 256);
      assert Store(m, lo, hi, v)[lo] == m1[lo];
    }
  }

  lemma {:induction false} LoadBound(m: seq<byte>, lo: nat, hi: nat)
    requires lo <= hi <= |m|
    ensures Load(m, lo, hi) < Pow256(hi - lo)
    decreases hi - lo
  {
    if lo < hi {
      LoadBound(m, lo + 1, hi);
    }
  }
}
