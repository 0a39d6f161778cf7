/** Requests for which the allocator does less than a caller may expect, and exactly when that happens. */
module HeapExamples {
  import opened Basics
  import opened HeapMemory
  import opened HeapLayout
  import opened UserHeap

  /** 1 KiB of zeros with the break at 16. */
  method Fresh() returns (heap: Heap)
    ensures fresh(heap) && heap.Valid() && |heap.mem| == 1024 && heap.top == 16
    ensures heap.blocks == map[] && heap.free == {} && heap.owned == {}
  {
    heap := new Heap(seq(1024, _ => 0), 16);
  }

  // ---------------------------------------------------------------- alignment

  /** A payload is 16-byte aligned exactly if its header, the chosen block's or the granted one, is 8 off. */
  lemma Sixteen(blocks: Blocks, free: set<nat>, need: nat, brk: Option<nat>, ptr: nat, owned: set<nat>, owned': set<nat>)
    requires ptr > HEADER && Chosen(blocks, free, need, brk, HeaderOf(ptr), owned, owned')
    ensures NoneFits(blocks, free, need) ==> brk.Some? && (ptr % 16 == 0 <==> brk.value % 16 == 8)
    ensures !NoneFits(blocks, free, need) ==>
              FirstFit(blocks, free, need, HeaderOf(ptr)) && (ptr % 16 == 0 <==> HeaderOf(ptr) % 16 == 8)
  {
    assert ptr == HeaderOf(ptr) + 24;
  }

  /** Eight bytes from a 16-byte aligned break are not 16-byte aligned. */
  method OnlyEight() returns (heap: Heap, ptr: nat)
    ensures heap.Valid() && ptr in heap.Contents() && ptr == 40 && ptr % 16 == 8
  {
    heap := Fresh();
    Sizes();
    ptr := heap.Malloc(8, Some(16));
    assert NoneFits(map[], {}, 16);
  }

  lemma Sizes()
    ensures Align(8) == 16 && Askable(16) && Total(16) == 48
    ensures Align(0xFFFF_FFFF_FFFF_FFFF) == 0 && Askable(0) && Total(0) == 32
    ensures Align(16) == 16
  {
  }

  // ---------------------------------------------------------------- sizes that wrap

  /** The largest size is served by a block that does not hold it. */
  method TooSmall() returns (heap: Heap, ptr: nat)
    ensures heap.Valid() && ptr in heap.Contents() && |heap.Contents()[ptr]| < 0xFFFF_FFFF_FFFF_FFFF
  {
    heap := Fresh();
    Sizes();
    ptr := heap.Malloc(0xFFFF_FFFF_FFFF_FFFF, Some(16));
    assert NoneFits(map[], {}, 0);
  }

  /** Clearing that block runs past its end. */
  method PastTheEnd() returns (r: Zeroed)
    ensures r.Overrun?
  {
    var heap := Fresh();
    Sizes();
    r := heap.Calloc(1, 0xFFFF_FFFF_FFFF_FFFF, Some(16));
  }

  // ---------------------------------------------------------------- free blocks that touch

  /** A block that fills all but a few bytes of a stretch of memory is the only one in it. */
  lemma OnlyBlock(heap: Heap, lo: nat, n: nat)
    requires heap.Valid() && heap.owned == Range(lo, n) && IsLive(heap.blocks, heap.free, lo) && n < HEADER + heap.blocks[lo] + HEADER
    ensures heap.free == {} && heap.blocks == map[lo := n - HEADER]
  {
    var e := End(heap.blocks, lo);
    forall a | a in heap.blocks
      ensures a == lo
    {
      assert Covers(heap.blocks, a) && Covers(heap.blocks, End(heap.blocks, a) - 1);
      assert lo < a ==> Below(heap.blocks, lo, a);
    }
    assert Covers(heap.blocks, e - 1);
    assert e < lo + n ==> Covers(heap.blocks, e);
  }

  /** What lies right behind a live block, in one stretch of memory with nothing else live, is a free block. */
  lemma FreeBehind(heap: Heap, h: nat, lo: nat, n: nat)
    requires heap.Valid() && heap.owned == Range(lo, n) && IsLive(heap.blocks, heap.free, h)
    requires heap.Contents().Keys == {h + HEADER} && End(heap.blocks, h) < lo + n
    ensures End(heap.blocks, h) in heap.free
  {
    var e := End(heap.blocks, h);
    assert Covers(heap.blocks, h);
    assert Covers(heap.blocks, e);
    var c :| c in heap.blocks && c <= e < End(heap.blocks, c);
    assert c < h ==> Below(heap.blocks, c, h);
    assert h < c ==> Below(heap.blocks, h, c);
    assert c + HEADER in heap.Contents() <==> IsLive(heap.blocks, heap.free, c);
  }

  lemma SameRange(lo: nat, n: nat, m: nat)
    requires Range(lo, n) == Range(lo, m)
    ensures n == m
  {
    assert n > m ==> lo + m in Range(lo, n);
    assert m > n ==> lo + n in Range(lo, m);
  }

  /** A size that is a multiple of 16, and what the kernel is asked for. */
  predicate Even(size: nat, n: nat) {
    144 <= size <= 160 && size < ADDRESSES && Align(size) == size && Askable(size) && Total(size) == n && n < size + 2 * HEADER && n % 8 == 0
  }

  lemma LiveSize(heap: Heap, h: nat)
    requires heap.Valid() && h + HEADER in heap.Contents()
    ensures IsLive(heap.blocks, heap.free, h) && |heap.Contents()[h + HEADER]| == heap.blocks[h]
  {
  }

  lemma OneKey(c: map<nat, seq<byte>>, p: nat)
    requires p in c && c - {p} == map[]
    ensures c.Keys == {p}
  {
    forall q | q in c
      ensures q == p
    {
      assert q in c - {p} <==> q != p;
    }
  }

  lemma FirstAnswer(owned: set<nat>, top: nat, n: nat)
    requires n > 0 && owned == Range(16, n) && Obtained({}, 16, Some(16), owned, top)
    ensures top == 16 + n
  {
    assert 16 in owned;
    SameRange(16, n, top - 16);
  }

  lemma NextAnswer(owned: set<nat>, lo: nat, n: nat, m: nat)
    requires owned == Range(lo, n) + Range(lo + n, m)
    ensures owned == Range(lo, n + m)
  {
  }

  /** One block, from the first answer of the kernel, which is `n` bytes in all. */
  method First(size: nat, ghost n: nat) returns (heap: Heap)
    requires Even(size, n)
    ensures fresh(heap) && heap.Valid() && |heap.mem| == 1024 && heap.top == 16 + n && heap.owned == Range(16, n)
    ensures heap.free == {} && heap.blocks == map[16 := n - HEADER] && heap.Contents().Keys == {40}
  {
    heap := Fresh();
    assert NoneFits(map[], {}, size);
    var p := heap.Malloc(size, Some(16));
    assert heap.owned == Range(16, n);
    FirstAnswer(heap.owned, heap.top, n);
    LiveSize(heap, 16);
    OnlyBlock(heap, 16, n);
    OneKey(heap.Contents(), 40);
  }

  /** A second one behind it, which is freed again. */
  method LiveThenFree(size: nat, ghost n: nat) returns (heap: Heap)
    requires Even(size, n)
    ensures fresh(heap) && heap.Valid() && heap.Contents().Keys == {40} && heap.owned == Range(16, 2 * n)
    ensures IsLive(heap.blocks, heap.free, 16) && heap.blocks[16] == n - HEADER && NoTouch(heap.blocks, heap.free)
  {
    heap := First(size, n);
    ghost var c := heap.Contents();
    LiveSize(heap, 16);
    var q := Second(heap, size, n);
    heap.LiveClaims(q);
    heap.Free(q);
    assert heap.Contents() == c;
    LiveSize(heap, 16);
  }

  method Second(heap: Heap, size: nat, ghost n: nat) returns (q: nat)
    requires Even(size, n) && heap.Valid() && |heap.mem| == 1024 && heap.top == 16 + n && heap.owned == Range(16, n) && heap.free == {}
    modifies heap
    ensures heap.Valid() && heap.owned == Range(16, 2 * n) && q in heap.Contents() && heap.Contents() - {q} == old(heap.Contents())
    ensures q !in old(heap.Contents())
  {
    assert NoneFits(heap.blocks, {}, size);
    q := heap.Malloc(size, Some(heap.top));
    NextAnswer(heap.owned, 16, n, n);
  }

  /** Shrinking the live block leaves two free blocks that touch. */
  method TouchAfterShrink() returns (heap: Heap, r: nat)
    ensures heap.Valid() && r == 40 && !NoTouch(heap.blocks, heap.free)
  {
    ghost var n := Total(160);
    heap := LiveThenFree(160, n);
    Sizes();
    FreeBehind(heap, 16, 16, 2 * n);
    heap.LiveClaims(40);
    r := heap.Realloc(40, 16, None);
  }
}
