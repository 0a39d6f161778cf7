/** The one-block allocation bitmaps. */
module Ext2Bitmap {

  const BITS: nat := 32768

  type Bitmap = b: seq<bv8> | |b| == 4096 witness seq(4096, _ => 0)

  function Mask(k: nat): bv8
    requires k < 8
  {
    if k == 0 then 1 else if k == 1 then 2 else if k == 2 then 4 else if k == 3 then 8
    else if k == 4 then 16 else if k == 5 then 32 else if k == 6 then 64 else 128
  }

  /** Bit `k` of a byte. */
  predicate Has(b: bv8, k: nat)
    requires k < 8
  {
    (b & Mask(k)) != 0
  }

  predicate TestBit(m: Bitmap, i: nat)
    requires i < BITS
  {
    Has(m[i / 8], i % 8)
  }

  function SetBit(m: Bitmap, i: nat): Bitmap
    requires i < BITS
  {
    m[i / 8 := m[i / 8] | Mask(i % 8)]
  }

  function ClearBit(m: Bitmap, i: nat): Bitmap
    requires i < BITS
  {
    m[i / 8 := m[i / 8] & !Mask(i % 8)]
  }

  /** The numbers marked used. */
  ghost function Marked(m: Bitmap): set<nat> {
    set i: nat | i < BITS && TestBit(m, i)
  }

  lemma ByteSet(b: bv8, j: nat, k: nat)
    requires j < 8 && k < 8
    ensures Has(b | Mask(k), j) <==> Has(b, j) || j == k
  {
  }

  lemma ByteCleared(b: bv8, j: nat, k: nat)
    requires j < 8 && k < 8
    ensures Has(b & !Mask(k), j) <==> Has(b, j) && j != k
  {
  }

  /** What a byte of a sequence is after one was replaced. */
  lemma Replaced<T>(m: seq<T>, a: nat, c: nat, v: T)
    requires a < |m| && c < |m|
    ensures m[a := v][c] == if a == c then v else m[c]
  {
  }

  lemma OneSet(m: Bitmap, i: nat, j: nat)
    requires i < BITS && j < BITS
    ensures TestBit(SetBit(m, i), j) <==> TestBit(m, j) || j == i
  {
    var v := m[i / 8] | Mask(i % 8);
    Replaced(m, i / 8, j / 8, v);
    SameBit(i, j);
    ByteSet(m[i / 8], j % 8, i % 8);
  }

  lemma OneCleared(m: Bitmap, i: nat, j: nat)
    requires i < BITS && j < BITS
    ensures TestBit(ClearBit(m, i), j) <==> TestBit(m, j) && j != i
  {
    var v := m[i / 8] & !Mask(i % 8);
    Replaced(m, i / 8, j / 8, v);
    SameBit(i, j);
    ByteCleared(m[i / 8], j % 8, i % 8);
  }

  lemma BitSet(m: Bitmap, i: nat)
    requires i < BITS
    ensures Marked(SetBit(m, i)) == Marked(m) + {i}
  {
    forall j: nat | j < BITS
      ensures TestBit(SetBit(m, i), j) <==> TestBit(m, j) || j == i
    {
      OneSet(m, i, j);
    }
  }

  lemma BitCleared(m: Bitmap, i: nat)
    requires i < BITS
    ensures Marked(ClearBit(m, i)) == Marked(m) - {i}
  {
    forall j: nat | j < BITS
      ensures TestBit(ClearBit(m, i), j) <==> TestBit(m, j) && j != i
    {
      OneCleared(m, i, j);
    }
  }

  lemma SameBit(i: nat, j: nat)
    ensures i == j <==> i / 8 == j / 8 && i % 8 == j % 8
  {
  }

  /** Takes the first clear bit from `lo` up to `hi`. */
  method TakeBit(m: Bitmap, lo: nat, hi: nat) returns (ok: bool, i: nat, m': Bitmap)
    requires lo <= hi <= BITS
    ensures ok ==> lo <= i < hi && i !in Marked(m) && Marked(m') == Marked(m) + {i}
    ensures ok ==> forall j | lo <= j < i :: j in Marked(m)
    ensures !ok ==> m' == m && forall j | lo <= j < hi :: j in Marked(m)
  {
    i := lo;
    while i < hi
      invariant lo <= i <= hi && forall j | lo <= j < i :: j in Marked(m)
    {
      if !TestBit(m, i) {
        BitSet(m, i);
        return true, i, SetBit(m, i);
      }
      i := i + 1;
    }
    return false, i, m;
  }

  /** Marks `lo` up to `hi`. */
  method MarkRange(m: Bitmap, lo: nat, hi: nat) returns (m': Bitmap)
    requires lo <= hi <= BITS
    ensures forall j: nat :: j in Marked(m') <==> j in Marked(m) || lo <= j < hi
  {
    m' := m;
    var i := lo;
    while i < hi
      invariant lo <= i <= hi
      invariant forall j: nat :: j in Marked(m') <==> j in Marked(m) || lo <= j < i
    {
      BitSet(m', i);
      m' := SetBit(m', i);
      i := i + 1;
    }
  }

  lemma NoneMarked(m: Bitmap)
    requires forall k | 0 <= k < 4096 :: m[k] == 0
    ensures Marked(m) == {}
  {
  }
}
