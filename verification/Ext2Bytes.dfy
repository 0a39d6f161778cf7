/** A 4096-byte ext2 block and its little-endian fields. */
module Ext2Bytes {
  import opened Basics
  import opened LittleEndian

  const BS: nat := 4096

  type Block = b: seq<byte> | |b| == 4096 witness seq(4096, _ => 0)

  const ZeroBlock: Block := seq(4096, _ => 0)

  function Get16(b: Block, o: nat): nat
    requires o + 2 <= BS
  {
    Load(b, o, o + 2)
  }

  function Get32(b: Block, o: nat): nat
    requires o + 4 <= BS
  {
    Load(b, o, o + 4)
  }

  function Put16(b: Block, o: nat, v: nat): Block
    requires o + 2 <= BS
  {
    Store(b, o, o + 2, v)
  }

  function Put32(b: Block, o: nat, v: nat): Block
    requires o + 4 <= BS
  {
    Store(b, o, o + 4, v)
  }

  lemma Widths()
    ensures Pow256(2) == 0x1_0000 && Pow256(4) == 0x1_0000_0000
  {
    assert Pow256(4) == 256 * (256 * Pow256(2));
  }

  lemma Put16Get(b: Block, o: nat, v: nat)
    requires o + 2 <= BS && v < 0x1_0000
    ensures Get16(Put16(b, o, v), o) == v
  {
    Widths();
    LoadStore(b, o, o + 2, v);
  }

  lemma Put32Get(b: Block, o: nat, v: nat)
    requires o + 4 <= BS && v < 0x1_0000_0000
    ensures Get32(Put32(b, o, v), o) == v
  {
    Widths();
    LoadStore(b, o, o + 4, v);
  }

  /** The block with `bytes` written at `o`. */
  function Put(b: Block, o: nat, bytes: seq<byte>): (r: Block)
    requires o + |bytes| <= BS
    ensures forall x | 0 <= x < BS :: r[x] == if o <= x < o + |bytes| then bytes[x - o] else b[x]
  {
    b[..o] + bytes + b[o + |bytes|..]
  }
}
