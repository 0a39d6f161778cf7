/** What the heap invariant says about the whole heap. */
module HeapFacts {
  import opened Basics
  import opened HeapMemory
  import opened HeapLayout
  import opened UserHeap

  // ---------------------------------------------------------------- live payloads

  /** Live payloads are 8-byte aligned, and a whole header lies between any two. */
  lemma PayloadsApart(m: Memory, blocks: Blocks, free: set<nat>, p: nat, q: nat)
    requires Disjoint(blocks) && Placed(blocks, |m|) && Aligned(blocks)
    requires p in View(m, blocks, free) && q in View(m, blocks, free)
    ensures p % 8 == 0
    ensures p < q ==> p + |View(m, blocks, free)[p]| + HEADER <= q
  {
    var a: nat, b: nat := p - HEADER, q - HEADER;
    assert AlignedAt(blocks, a);
    if p < q {
      assert Below(blocks, a, b);
    }
  }

  // ---------------------------------------------------------------- the free list

  ghost function From(free: set<nat>, p: nat): set<nat> {
    set f | f in free && p <= f
  }

  /** The addresses met when following `next` from `p`. */
  ghost function Walk(headers: map<nat, Header>, head: nat, free: set<nat>, p: nat): (s: seq<nat>)
    requires Linked(headers, head, free) && (p == 0 || p in free)
    decreases if p == 0 then {} else From(free, p)
  {
    if p == 0 then [] else
      assert IsNext(free, p, headers[p].next);
      var n := headers[p].next;
      assert n != 0 ==> p in From(free, p) && p !in From(free, n);
      [p] + Walk(headers, head, free, n)
  }

  /** The walk from a free block goes strictly up and meets every free block from there on. */
  lemma {:induction false} WalkMeetsAll(headers: map<nat, Header>, head: nat, free: set<nat>, p: nat)
    requires Linked(headers, head, free) && (p == 0 || p in free)
    ensures forall i, j | 0 <= i < j < |Walk(headers, head, free, p)| ::
              Walk(headers, head, free, p)[i] < Walk(headers, head, free, p)[j]
    ensures forall f :: f in Walk(headers, head, free, p) <==> p != 0 && f in free && p <= f
    decreases if p == 0 then {} else From(free, p)
  {
    if p != 0 {
      assert IsNext(free, p, headers[p].next);
      var n := headers[p].next;
      assert n != 0 ==> p in From(free, p) && p !in From(free, n);
      WalkMeetsAll(headers, head, free, n);
      var rest := Walk(headers, head, free, n);
      assert Walk(headers, head, free, p) == [p] + rest;
      assert forall i | 0 <= i < |rest| :: rest[i] in rest;
    }
  }

  /** The free list is strictly ascending, ends, and holds exactly the free blocks. */
  lemma FreeListExact(headers: map<nat, Header>, head: nat, free: set<nat>)
    requires Linked(headers, head, free)
    ensures var list := Walk(headers, head, free, head);
            && (forall i, j | 0 <= i < j < |list| :: list[i] < list[j])
            && (forall f :: f in list <==> f in free)
  {
    WalkMeetsAll(headers, head, free, head);
  }

  // ---------------------------------------------------------------- conservation

  /** Header plus payload, over all blocks. */
  ghost function Extents(blocks: Blocks): nat
    decreases |blocks|
  {
    if blocks == map[] then 0 else
      var a :| a in blocks;
      HEADER + blocks[a] + Extents(blocks - {a})
  }

  lemma {:induction false} RangeSize(lo: nat, n: nat)
    ensures |Range(lo, n)| == n
  {
    if n == 0 {
      assert Range(lo, n) == {};
    } else {
      RangeSize(lo, n - 1);
      assert Range(lo, n) == Range(lo, n - 1) + {lo + n - 1};
    }
  }

  /** The blocks account for every byte obtained from the kernel, once. */
  lemma {:induction false} Conserved(blocks: Blocks, owned: set<nat>)
    requires Disjoint(blocks) && Tiles(blocks, owned)
    ensures Extents(blocks) == |owned|
    decreases |blocks|
  {
    if blocks == map[] {
      forall x: nat ensures x !in owned { assert x in owned <==> Covers(blocks, x); }
      assert owned == {};
    } else {
      var a :| a in blocks && Extents(blocks) == HEADER + blocks[a] + Extents(blocks - {a});
      var part := Range(a, HEADER + blocks[a]);
      OneLess(blocks, owned, a);
      Conserved(blocks - {a}, owned - part);
      RangeSize(a, HEADER + blocks[a]);
    }
  }

  lemma OneLess(blocks: Blocks, owned: set<nat>, a: nat)
    requires Disjoint(blocks) && Tiles(blocks, owned) && a in blocks
    ensures Disjoint(blocks - {a})
    ensures Range(a, HEADER + blocks[a]) <= owned
    ensures Tiles(blocks - {a}, owned - Range(a, HEADER + blocks[a]))
  {
    var bl, part := blocks - {a}, Range(a, HEADER + blocks[a]);
    forall b, c | b in bl && c in bl && b < c
      ensures Below(bl, b, c)
    {
      assert Below(blocks, b, c);
    }
    forall x: nat
      ensures x in part ==> x in owned
      ensures x in owned - part <==> Covers(bl, x)
    {
      assert x in owned <==> Covers(blocks, x);
      if x in owned - part {
        var c :| c in blocks && c <= x < End(blocks, c);
        assert c in bl;
      }
      if Covers(bl, x) {
        var c :| c in bl && c <= x < End(bl, c);
        assert c in blocks;
        assert c < a ==> Below(blocks, c, a);
        assert a < c ==> Below(blocks, a, c);
      }
    }
  }

  /** With no live block, no two free ones touching and contiguous memory, one block spans the heap. */
  lemma OneBlockLeft(blocks: Blocks, free: set<nat>, lo: nat, n: nat)
    requires Disjoint(blocks) && Tiles(blocks, Range(lo, n)) && NoTouch(blocks, free)
    requires free == blocks.Keys && n > 0
    ensures n >= HEADER && blocks == map[lo := n - HEADER]
  {
    Start(blocks, lo, n);
    var e := End(blocks, lo);
    assert e <= lo + n by {
      if e > lo + n { assert Covers(blocks, lo + n); }
    }
    if e < lo + n {
      assert Covers(blocks, e);
      var d :| d in blocks && d <= e < End(blocks, d);
      assert lo < d ==> Below(blocks, lo, d);
      assert Covers(blocks, d);
      assert Touches(blocks, lo, d);
    }
    forall b | b in blocks
      ensures b == lo
    {
      assert Covers(blocks, b);
      assert lo < b ==> Below(blocks, lo, b);
    }
  }

  lemma Start(blocks: Blocks, lo: nat, n: nat)
    requires Disjoint(blocks) && Tiles(blocks, Range(lo, n)) && n > 0
    ensures lo in blocks
  {
    assert Covers(blocks, lo);
    var c :| c in blocks && c <= lo < End(blocks, c);
    assert Covers(blocks, c);
  }

  // ---------------------------------------------------------------- the allocator's heap

  /** Two payloads have a whole header between them, and both are 8-byte aligned. */
  ghost predicate Separate(c: map<nat, seq<byte>>, p: nat, q: nat) {
    p in c && q in c ==> p % 8 == 0 && (p < q ==> p + |c[p]| + HEADER <= q)
  }

  /** Live payloads are separate, the list is exactly the free blocks by address, and no byte is lost. */
  ghost predicate Laws(heap: Heap)
    requires heap.Valid()
    reads heap
  {
    && (forall p: nat, q: nat {:trigger Separate(heap.Contents(), p, q)} :: Separate(heap.Contents(), p, q))
    && (var list := Walk(heap.headers, heap.head, heap.free, heap.head);
        && (forall i, j | 0 <= i < j < |list| :: list[i] < list[j])
        && (forall f :: f in list <==> f in heap.free))
    && Extents(heap.blocks) == |heap.owned|
  }

  lemma {:induction false} HeapLaws(heap: Heap)
    requires heap.Valid()
    ensures Laws(heap)
  {
    var c := heap.Contents();
    forall p: nat, q: nat
      ensures Separate(c, p, q)
    {
      if p in c && q in c { PayloadsApart(heap.mem, heap.blocks, heap.free, p, q); }
    }
    FreeListExact(heap.headers, heap.head, heap.free);
    Conserved(heap.blocks, heap.owned);
  }

  /** Nothing is live, no free blocks touch, the memory is one stretch: one free block spans it. */
  lemma {:induction false} AllOne(heap: Heap, lo: nat, n: nat)
    requires heap.Valid() && heap.free == heap.blocks.Keys && NoTouch(heap.blocks, heap.free)
    requires heap.owned == Range(lo, n) && n > 0
    ensures n >= HEADER && heap.blocks == map[lo := n - HEADER] && heap.free == {lo} && heap.head == lo
  {
    OneBlockLeft(heap.blocks, heap.free, lo, n);
  }

  lemma {:induction false} NothingLive(heap: Heap)
    requires heap.Valid() && heap.Contents() == map[]
    ensures heap.free == heap.blocks.Keys
  {
    var c := heap.Contents();
    forall a: nat | a in heap.blocks
      ensures a in heap.free
    {
      assert a + HEADER in c <==> IsLive(heap.blocks, heap.free, a);
    }
  }

  /** The free that releases the last live block of a contiguous heap leaves one block that spans it. */
  method FreeLast(heap: Heap, ptr: nat, ghost lo: nat, ghost n: nat)
    requires heap.Valid() && heap.Contents().Keys == {ptr} && heap.owned == Range(lo, n)
    modifies heap
    ensures heap.Valid() && heap.Contents() == map[] && heap.owned == Range(lo, n) && n >= HEADER
    ensures heap.blocks == map[lo := n - HEADER] && heap.free == {lo} && heap.head == lo
  {
    heap.LiveClaims(ptr);
    assert n > 0 by {
      assert ptr - HEADER in heap.blocks && Covers(heap.blocks, ptr - HEADER);
      assert ptr - HEADER in heap.owned;
    }
    heap.Free(ptr);
    NothingLive(heap);
    AllOne(heap, lo, n);
  }
}
