/** The process memory the userland heap lives in, and the 24-byte block header stored in it. */
module HeapMemory {
  import opened Basics
  import opened LittleEndian

  /** The address space, also the addresses the heap has not obtained. */
  type Memory = seq<byte>

  const HEADER: nat := 24
  const MAGIC: nat := 0xC0FFEE55
  const ADDRESSES: nat := 0x1_0000_0000_0000_0000

  /** `struct uheap_hdr`: size at +0, next at +8, magic at +16, free at +20. */
  datatype Header = Header(size: nat, next: nat, magic: nat, free: nat)

  function HeaderAt(m: Memory, a: nat): Header
    requires a + HEADER <= |m|
  {
    Header(Load(m, a, a + 8), Load(m, a + 8, a + 16), Load(m, a + 16, a + 20), Load(m, a + 20, a + 24))
  }

  lemma HeaderFrame(m: Memory, m': Memory, a: nat)
    requires a + HEADER <= |m| && SameBytes(m, m', a, a + HEADER)
    ensures HeaderAt(m', a) == HeaderAt(m, a)
  {
    LoadFrame(m, m', a, a + 8);
    LoadFrame(m, m', a + 8, a + 16);
    LoadFrame(m, m', a + 16, a + 20);
    LoadFrame(m, m', a + 20, a + 24);
  }

  lemma Widths()
    ensures Pow256(8) == ADDRESSES
    ensures Pow256(4) == 0x1_0000_0000
  {
    assert Pow256(8) == 256 * (256 * (256 * (256 * Pow256(4))));
  }

  /** Storing one field of a header changes that field and no other. */
  lemma StoredField(m: Memory, a: nat, field: nat, v: nat)
    requires a + HEADER <= |m|
    requires if field < 16 then field in {0, 8} && v < ADDRESSES else field in {16, 20} && v < 0x1_0000_0000
    ensures var n := if field < 16 then 8 else 4;
            var h := HeaderAt(m, a);
            HeaderAt(Store(m, a + field, a + field + n, v), a) ==
              if field == 0 then h.(size := v) else
              if field == 8 then h.(next := v) else
              if field == 16 then h.(magic := v) else h.(free := v)
  {
    var n := if field < 16 then 8 else 4;
    var m' := Store(m, a + field, a + field + n, v);
    Widths();
    LoadStore(m, a + field, a + field + n, v);
    if field != 0 { LoadFrame(m, m', a, a + 8); }
    if field != 8 { LoadFrame(m, m', a + 8, a + 16); }
    if field != 16 { LoadFrame(m, m', a + 16, a + 20); }
    if field != 20 { LoadFrame(m, m', a + 20, a + 24); }
  }

  /** Writes size, next, magic and free in turn. */
  function StoreHeader(m: Memory, a: nat, h: Header): (m': Memory)
    requires a + HEADER <= |m|
    ensures |m'| == |m|
  {
    var m := Store(m, a, a + 8, h.size);
    var m := Store(m, a + 8, a + 16, h.next);
    var m := Store(m, a + 16, a + 20, h.magic);
    Store(m, a + 20, a + 24, h.free)
  }

  lemma StoredHeader(m: Memory, a: nat, h: Header)
    requires a + HEADER <= |m|
    requires h.size < ADDRESSES && h.next < ADDRESSES && h.magic < 0x1_0000_0000 && h.free < 0x1_0000_0000
    ensures HeaderAt(StoreHeader(m, a, h), a) == h
    ensures SameBytes(m, StoreHeader(m, a, h), 0, a)
    ensures SameBytes(m, StoreHeader(m, a, h), a + HEADER, |m|)
  {
    StoredField(m, a, 0, h.size);
    var m1 := Store(m, a, a + 8, h.size);
    StoredField(m1, a, 8, h.next);
    var m2 := Store(m1, a + 8, a + 16, h.next);
    StoredField(m2, a, 16, h.magic);
    var m3 := Store(m2, a + 16, a + 20, h.magic);
    StoredField(m3, a, 20, h.free);
  }
}
