/** The userland heap: malloc, free, calloc and realloc over an address-ordered free list. */
module UserHeap {
  import opened Basics
  import opened LittleEndian
  import opened HeapMemory
  import opened HeapLayout

  /** Rounds up to a multiple of 16 in 64-bit arithmetic: the top 15 values wrap to 0. */
  function Align(n: nat): (r: nat)
    requires n < ADDRESSES
    ensures r < ADDRESSES
  {
    var sum := if n + 15 < ADDRESSES then n + 15 else n + 15 - ADDRESSES;
    sum - sum % 16
  }

  /** The result of calloc; `Overrun` when its memset would leave the block it got. */
  datatype Zeroed = Null | Block(ptr: nat) | Overrun(at: nat)

  /** What the kernel is asked for to serve an aligned payload. */
  function Total(payload: nat): nat
    requires payload <= ADDRESSES - 1 - HEADER
  {
    Align(HEADER + payload)
  }

  /** The two overflow checks before the kernel is asked. */
  predicate Askable(payload: nat) {
    payload <= ADDRESSES - 1 - HEADER && payload <= Total(payload)
  }

  /** Aligning rounds up by less than 16, unless it wraps. */
  lemma AlignUp(n: nat)
    requires n < ADDRESSES
    ensures n <= ADDRESSES - 16 ==> n <= Align(n) < n + 16
    ensures n > ADDRESSES - 16 ==> Align(n) == 0
    ensures Align(n) % 16 == 0 && Align(n) % 8 == 0
  {
    RoundedDown(if n + 15 < ADDRESSES then n + 15 else n + 15 - ADDRESSES);
  }

  lemma RoundedDown(sum: nat)
    ensures (sum - sum % 16) % 16 == 0 && (sum - sum % 16) % 8 == 0
  {
    assert sum - sum % 16 == 16 * (sum / 16);
    Sixteens(sum - sum % 16, sum / 16);
    Eights(sum - sum % 16, 2 * (sum / 16));
  }

  lemma Sixteens(n: nat, q: nat)
    requires n == 16 * q
    ensures n % 16 == 0
  {
  }

  lemma Eights(n: nat, q: nat)
    requires n == 8 * q
    ensures n % 8 == 0
  {
  }

  lemma TotalFits(payload: nat)
    requires Askable(payload)
    ensures HEADER + payload <= Total(payload) && Total(payload) % 8 == 0
  {
    AlignUp(HEADER + payload);
  }

  /** Header plus payload, aligned, with both overflow checks. */
  method KernelSize(payload: nat) returns (ok: bool, total: nat)
    ensures ok == Askable(payload)
    ensures ok ==> total == Total(payload) && HEADER + payload <= total && total % 8 == 0
  {
    ok, total := false, 0;
    if payload > ADDRESSES - 1 - HEADER { return; }
    total := Align(HEADER + payload);
    if total < payload { return; }
    ok := true;
    TotalFits(payload);
  }

  class Heap {
    var mem: Memory
    var head: nat
    ghost var headers: map<nat, Header>
    ghost var blocks: Blocks
    ghost var free: set<nat>
    ghost var owned: set<nat>
    var top: nat  // the kernel's program break

    ghost predicate Valid()
      reads this
    {
      && top + HEADER <= |mem| <= ADDRESSES
      && Mirrors(mem, headers)
      && Disjoint(blocks)
      && Placed(blocks, top)
      && Aligned(blocks)
      && Tiles(blocks, owned)
      && free <= blocks.Keys
      && Marked(headers, blocks, free)
      && Linked(headers, head, free)
      && RestWiped(headers, blocks, free)
    }

    /** `start` is the program break before the first request. */
    constructor (m: Memory, start: nat)
      requires start + HEADER <= |m| <= ADDRESSES
      ensures Valid() && mem == m && blocks == map[] && free == {} && owned == {} && head == 0 && top == start
    {
      mem, head := m, 0;
      headers, blocks, free, owned, top := map[], map[], {}, {}, start;
    }

    // ------------------------------------------------------------ header fields

    /** Reads the header of a block. */
    method GetHeader(a: nat) returns (h: Header)
      requires Mirrors(mem, headers) && a in headers
      ensures h == headers[a]
    {
      h := HeaderAt(mem, a);
    }

    method SetSize(a: nat, v: nat)
      requires Mirrors(mem, headers) && a in headers && v < ADDRESSES
      modifies this`mem, this`headers
      ensures Mirrors(mem, headers)
      ensures headers == old(headers)[a := old(headers)[a].(size := v)]
      ensures SameOutside(old(mem), mem, a)
    {
      ghost var m := mem;
      mem := Store(mem, a, a + 8, v);
      StoredField(m, a, 0, v);
      OneHeader(m, mem, headers, a, headers[a].(size := v));
      headers := headers[a := headers[a].(size := v)];
    }

    method SetNext(a: nat, v: nat)
      requires Mirrors(mem, headers) && a in headers && v < ADDRESSES
      modifies this`mem, this`headers
      ensures Mirrors(mem, headers)
      ensures headers == old(headers)[a := old(headers)[a].(next := v)]
      ensures SameOutside(old(mem), mem, a)
    {
      ghost var m := mem;
      mem := Store(mem, a + 8, a + 16, v);
      StoredField(m, a, 8, v);
      OneHeader(m, mem, headers, a, headers[a].(next := v));
      headers := headers[a := headers[a].(next := v)];
    }

    method SetMagic(a: nat, v: nat)
      requires Mirrors(mem, headers) && a in headers && v < 0x1_0000_0000
      modifies this`mem, this`headers
      ensures Mirrors(mem, headers)
      ensures headers == old(headers)[a := old(headers)[a].(magic := v)]
      ensures SameOutside(old(mem), mem, a)
    {
      ghost var m := mem;
      mem := Store(mem, a + 16, a + 20, v);
      StoredField(m, a, 16, v);
      OneHeader(m, mem, headers, a, headers[a].(magic := v));
      headers := headers[a := headers[a].(magic := v)];
    }

    method SetFree(a: nat, v: nat)
      requires Mirrors(mem, headers) && a in headers && v < 0x1_0000_0000
      modifies this`mem, this`headers
      ensures Mirrors(mem, headers)
      ensures headers == old(headers)[a := old(headers)[a].(free := v)]
      ensures SameOutside(old(mem), mem, a)
    {
      ghost var m := mem;
      mem := Store(mem, a + 20, a + 24, v);
      StoredField(m, a, 20, v);
      OneHeader(m, mem, headers, a, headers[a].(free := v));
      headers := headers[a := headers[a].(free := v)];
    }

    // ------------------------------------------------------------ the free list

    /** The place of `b` on the free list: the last free block below it (NULL for none), the first above. */
    method FindPlace(b: nat) returns (prev: nat, cur: nat)
      requires Mirrors(mem, headers) && Linked(headers, head, free) && b !in free && 0 < b
      ensures IsNext(free, prev, cur) && prev < b && (cur == 0 || b < cur)
      ensures if prev == 0 then cur == head else prev in free
    {
      prev, cur := 0, head;
      while cur != 0 && cur < b
        invariant if prev == 0 then cur == head else prev in free
        invariant prev < b && IsNext(free, prev, cur)
        decreases if cur == 0 then 0 else |mem| - cur
      {
        var h := GetHeader(cur);
        assert IsNext(free, cur, headers[cur].next);
        prev, cur := cur, h.next;
      }
    }

    /** Links `b` in after `prev`, or at the head of the list when `prev` is NULL. */
    method LinkIn(prev: nat, b: nat, cur: nat)
      requires Mirrors(mem, headers) && b in headers && (prev == 0 || prev in headers)
      requires cur < ADDRESSES && b < ADDRESSES
      modifies this`mem, this`headers, this`head
      ensures Mirrors(mem, headers) && headers == Relinked(old(headers), prev, b, cur)
      ensures head == if prev == 0 then b else old(head)
      ensures |mem| == |old(mem)|
      ensures forall x | 0 <= x < |mem| ::
                mem[x] == old(mem)[x] || b <= x < b + HEADER || (prev != 0 && prev <= x < prev + HEADER)
    {
      SetNext(b, cur);
      if prev == 0 {
        head := b;
      } else {
        SetNext(prev, b);
      }
    }

    method InsertFree(b: nat)
      requires Mirrors(mem, headers) && |mem| <= ADDRESSES && b in blocks && b !in free && 0 < b
      requires free <= blocks.Keys
      requires MarkedBut(headers, blocks, free, b)
      requires Linked(headers, head, free)
      requires RestWiped(headers, blocks, free)
      modifies this`mem, this`headers, this`head, this`free
      ensures Mirrors(mem, headers)
      ensures Marked(headers, blocks, free)
      ensures Linked(headers, head, free)
      ensures RestWiped(headers, blocks, free)
      ensures OnlyHeaders(old(mem), mem, blocks)
      ensures free == old(free) + {b} && headers.Keys == old(headers.Keys)
    {
      Flagged(headers, blocks, head, free, b);
      SetFree(b, 1);
      var prev, cur := FindPlace(b);
      RelinkedLinks(headers, head, free, prev, b, cur);
      RelinkedMarks(headers, blocks, free, prev, b, cur);
      LinkIn(prev, b, cur);
      free := free + {b};
    }

    /** The three header writes of a merge. */
    method MergeHeaders(a: nat, b: nat)
      requires Mirrors(mem, headers) && a in headers && b in headers && a != b
      requires headers[a].size + HEADER + headers[b].size < ADDRESSES && headers[b].next < ADDRESSES
      modifies this`mem, this`headers
      ensures Mirrors(mem, headers) && headers == Merged(old(headers), a, b)
      ensures |mem| == |old(mem)|
      ensures forall x | 0 <= x < |mem| :: mem[x] == old(mem)[x] || a <= x < a + HEADER || b <= x < b + HEADER
    {
      var ha := GetHeader(a);
      var hb := GetHeader(b);
      SetSize(a, ha.size + HEADER + hb.size);
      SetNext(a, hb.next);
      SetMagic(b, 0);
    }

    /** Absorbs the free block `b` into the free block `a` right below it. */
    method Merge(a: nat, b: nat)
      requires Valid() && a in free && b in free && headers[a].next == b && End(blocks, a) == b
      modifies this`mem, this`headers, this`blocks, this`free
      ensures Valid()
      ensures blocks == Absorbed(old(blocks), a, b) && free == old(free) - {b}
      ensures headers == Merged(old(headers), a, b)
      ensures OnlyHeaders(old(mem), mem, old(blocks))
    {
      assert IsNext(free, b, headers[b].next);
      assert MarkedAt(headers, blocks, free, a) && MarkedAt(headers, blocks, free, b);
      MergeHeaders(a, b);
      MergedLinks(old(headers), head, free, a, b);
      MergedMarks(old(headers), blocks, free, a, b);
      AbsorbedShape(blocks, a, b, top);
      AbsorbedTiles(blocks, a, b, owned);
      AbsorbedAligned(blocks, a, b);
      blocks := Absorbed(blocks, a, b);
      free := free - {b};
    }

    /** Merges every run of adjacent free blocks into one. */
    method Coalesce()
      requires Valid()
      modifies this`mem, this`headers, this`blocks, this`free
      ensures Valid()
      ensures NoTouch(blocks, free)
      ensures Framed(old(mem), old(blocks), old(free), mem, blocks, free, {}, {})
      ensures headers.Keys == old(headers.Keys)
    {
      var cur := head;
      while cur != 0
        invariant Valid()
        invariant cur == 0 || cur in free
        invariant NoTouchBelow(blocks, free, cur)
        invariant Framed(old(mem), old(blocks), old(free), mem, blocks, free, {}, {})
        invariant headers.Keys == old(headers.Keys)
        decreases |free|, if cur == 0 then 0 else |mem| - cur
      {
        var h := GetHeader(cur);
        assert IsNext(free, cur, headers[cur].next);
        assert MarkedAt(headers, blocks, free, cur);
        if h.next == 0 {
          NextNoTouch(blocks, free, cur, 0);
          break;
        }
        if cur + HEADER + h.size == h.next {
          ghost var m, bl, fr := mem, blocks, free;
          Merge(cur, h.next);
          MergedNoTouch(bl, fr, cur, h.next);
          MergedLive(m, mem, bl, fr, cur, h.next);
          FramedThen(old(mem), old(blocks), old(free), m, bl, fr, mem, blocks, free, {}, {}, {}, {}, {}, {});
        } else {
          NextNoTouch(blocks, free, cur, h.next);
          cur := h.next;
        }
      }
    }

    /** Every live pointer and the bytes it may use. */
    ghost function Contents(): map<nat, seq<byte>>
      requires Valid()
      reads this
    {
      View(mem, blocks, free)
    }

    /** The header before `ptr` looks like that of a block in use. */
    ghost predicate Claims(ptr: nat)
      requires HEADER <= ptr <= |mem|
      reads this
    {
      HeaderAt(mem, ptr - HEADER).magic == MAGIC && HeaderAt(mem, ptr - HEADER).free == 0
    }

    /** `ptr` was freed, and no call since has reused its header. */
    ghost predicate Spent(ptr: nat)
      reads this
    {
      ptr >= HEADER && ptr - HEADER in headers && !IsLive(blocks, free, ptr - HEADER)
    }

    /** Returns a live block to the free list and merges. */
    method Release(b: nat)
      requires Valid() && IsLive(blocks, free, b)
      modifies this`mem, this`headers, this`blocks, this`free, this`head
      ensures Valid()
      ensures Framed(old(mem), old(blocks), old(free), mem, blocks, free, {b}, {})
      ensures headers.Keys == old(headers.Keys) && NoTouch(blocks, free)
    {
      assert MarkedAt(headers, blocks, free, b);
      InsertFree(b);
      InsertedLive(old(mem), mem, blocks, old(free), b);
      ghost var m, fr := mem, free;
      Coalesce();
      FramedThen(old(mem), old(blocks), old(free), m, old(blocks), fr, mem, blocks, free, {b}, {}, {b}, {}, {}, {});
    }

    /** The header of a freed block claims nothing: it is marked free, or wiped by a merge. */
    lemma SpentIgnored(ptr: nat)
      requires Valid() && Spent(ptr)
      ensures HEADER <= ptr <= |mem| && !Claims(ptr)
    {
      var a: nat := ptr - HEADER;
      assert HeaderAt(mem, a) == headers[a];
      if a in blocks {
        assert MarkedAt(headers, blocks, free, a);
      } else {
        assert WipedAt(headers, blocks, free, a);
      }
    }

    method Free(ptr: nat)
      requires Valid() && (ptr == 0 || HEADER <= ptr <= |mem|)
      requires ptr != 0 && Claims(ptr) ==> ptr in Contents()
      modifies this`mem, this`headers, this`blocks, this`free, this`head
      ensures Valid() && |mem| == |old(mem)|
      ensures old(ptr == 0 || !Claims(ptr)) ==>
                mem == old(mem) && head == old(head) && blocks == old(blocks) && free == old(free)
      ensures old(Spent(ptr)) ==> mem == old(mem) && head == old(head) && Contents() == old(Contents())
      ensures old(ptr != 0 && Claims(ptr)) ==>
                Contents() == old(Contents()) - {ptr} && NoTouch(blocks, free) && Spent(ptr)
      ensures forall p: nat | old(Spent(p)) :: Spent(p)
    {
      if ptr == 0 { return; }
      if Spent(ptr) { SpentIgnored(ptr); }
      var b := ptr - HEADER;
      var h := HeaderAt(mem, b);
      if h.magic != MAGIC || h.free != 0 { return; }
      Release(b);
      ViewLess(old(mem), old(blocks), old(free), mem, blocks, free, b);
    }

    // ------------------------------------------------------------ allocating

    /** Writes a whole header where no tracked one is. */
    method NewHeader(a: nat, size: nat, flag: nat)
      requires Mirrors(mem, headers) && a + HEADER <= |mem| && size < ADDRESSES && flag < 2
      requires a !in headers && forall b | b in headers :: Apart(a, b)
      modifies this`mem, this`headers
      ensures Mirrors(mem, headers)
      ensures headers == old(headers)[a := Header(size, 0, MAGIC, flag)]
      ensures SameOutside(old(mem), mem, a)
    {
      var h := Header(size, 0, MAGIC, flag);
      ghost var m := mem;
      mem := StoreHeader(mem, a, h);
      StoredHeader(m, a, h);
      FreshHeader(m, mem, headers, a, h);
      headers := headers[a := h];
    }

    /** The header writes of a split. */
    method Carve(h: nat, need: nat)
      requires Mirrors(mem, headers) && h in headers && need + HEADER <= headers[h].size < ADDRESSES
      requires h + HEADER + headers[h].size <= |mem|
      requires h + HEADER + need !in headers && forall b | b in headers :: Apart(h + HEADER + need, b)
      modifies this`mem, this`headers
      ensures Mirrors(mem, headers) && headers == Carved(old(headers), h, need)
      ensures |mem| == |old(mem)|
      ensures forall x | 0 <= x < |mem| :: mem[x] == old(mem)[x] || h <= x < h + HEADER
                                        || h + HEADER + need <= x < h + HEADER + need + HEADER
    {
      var hh := GetHeader(h);
      NewHeader(h + HEADER + need, hh.size - need - HEADER, 1);
      SetSize(h, need);
    }

    /** Turns the tail of the live block `h` into a free block. */
    method CutTail(h: nat, need: nat)
      requires Valid() && headers.Keys == blocks.Keys && h in blocks && h !in free
      requires need + HEADER <= blocks[h] && need % 8 == 0
      modifies this`mem, this`headers, this`blocks, this`free, this`head
      ensures Valid() && headers.Keys == blocks.Keys
      ensures h + HEADER + need !in old(blocks)
      ensures blocks == Split(old(blocks), h, need) && free == old(free) + {h + HEADER + need}
      ensures OnlyHeaders(old(mem), mem, blocks)
    {
      assert MarkedAt(headers, blocks, free, h);
      SplitShape(blocks, h, need, top);
      CarvedMarks(headers, blocks, head, free, h, need);
      Carve(h, need);
      SplitTiles(blocks, h, need, owned);
      SplitAligned(blocks, h, need);
      blocks := Split(blocks, h, need);
      ghost var m := mem;
      InsertFree(h + HEADER + need);
      TwoThenHeaders(old(mem), m, mem, blocks, h, h + HEADER + need);
    }

    /** Carves the tail off the live block `h` when it is worth a block of its own. */
    method SplitIfNeeded(h: nat, need: nat)
      requires Valid() && headers.Keys == blocks.Keys && IsLive(blocks, free, h) && need % 8 == 0
      modifies this`mem, this`headers, this`blocks, this`free, this`head
      ensures Valid() && headers.Keys == blocks.Keys
      ensures Framed(old(mem), old(blocks), old(free), mem, blocks, free, {h}, {h})
      ensures IsLive(blocks, free, h)
      ensures blocks[h] == if need + HEADER + 32 <= old(blocks)[h] then need else old(blocks)[h]
      ensures SameBytes(old(mem), mem, h + HEADER, h + HEADER + blocks[h])
      ensures old(NoTouch(blocks, free)) ==> (NoTouch(blocks, free) <==> !ShrinkTouches(old(blocks), old(free), h, need))
    {
      var hh := GetHeader(h);
      assert MarkedAt(headers, blocks, free, h);
      var remain := if hh.size > need then hh.size - need else 0;
      if remain < HEADER + 32 { return; }
      CutTail(h, need);
      SplitLive(old(mem), mem, old(blocks), old(free), h, need);
      if NoTouch(old(blocks), old(free)) {
        SplitNoTouch(old(blocks), old(free), h, need);
      }
    }

    /** Lets go of the headers that are no block's any more: their bytes may be handed out again. */
    ghost method Forget()
      requires Valid()
      modifies this`headers
      ensures Valid() && headers.Keys == blocks.Keys
      ensures forall a | a in blocks :: headers[a] == old(headers)[a]
    {
      Forgotten(headers, blocks, head, free);
      headers := map a | a in headers && a in blocks :: headers[a];
    }

    /** First fit: the lowest free block of at least `need` bytes and its predecessor, or NULL. */
    method FindFit(need: nat) returns (ok: bool, prev: nat, cur: nat)
      requires Valid()
      ensures ok
      ensures cur == 0 ==> NoneFits(blocks, free, need)
      ensures cur != 0 ==> FirstFit(blocks, free, need, cur) && IsNext(free, prev, cur)
      ensures cur != 0 ==> if prev == 0 then cur == head else prev in free
    {
      ok, prev, cur := true, 0, head;
      while cur != 0
        invariant ok
        invariant IsNext(free, prev, cur)
        invariant if prev == 0 then cur == head else prev in free
        invariant forall f | f in free && f <= prev :: blocks[f] < need
        decreases if cur == 0 then 0 else |mem| - cur
      {
        var h := GetHeader(cur);
        assert MarkedAt(headers, blocks, free, cur);
        assert IsNext(free, cur, headers[cur].next);
        if h.magic != MAGIC { ok := false; return; }
        if h.free != 0 && h.size >= need { return; }
        prev, cur := cur, h.next;
      }
    }

    /** The header writes that take `cur` off the list. */
    method Unlink(prev: nat, cur: nat)
      requires Mirrors(mem, headers) && cur in headers && (prev == 0 || prev in headers)
      requires headers[cur].next < ADDRESSES
      modifies this`mem, this`headers, this`head
      ensures Mirrors(mem, headers) && headers == Unlinked(old(headers), prev, cur)
      ensures head == if prev == 0 then old(headers)[cur].next else old(head)
      ensures |mem| == |old(mem)|
      ensures forall x | 0 <= x < |mem| ::
                mem[x] == old(mem)[x] || cur <= x < cur + HEADER || (prev != 0 && prev <= x < prev + HEADER)
    {
      var h := GetHeader(cur);
      if prev == 0 {
        head := h.next;
      } else {
        SetNext(prev, h.next);
      }
      SetNext(cur, 0);
    }

    /** Takes the free block `cur`, found after `prev`, into use. */
    method Take(prev: nat, cur: nat)
      requires Valid() && headers.Keys == blocks.Keys
      requires cur in free && IsNext(free, prev, cur)
      requires if prev == 0 then cur == head else prev in free
      modifies this`mem, this`headers, this`free, this`head
      ensures Valid() && headers.Keys == blocks.Keys
      ensures free == old(free) - {cur}
      ensures Framed(old(mem), blocks, old(free), mem, blocks, free, {}, {cur})
    {
      assert IsNext(free, cur, headers[cur].next);
      UnlinkedLinks(headers, head, free, prev, cur);
      UnlinkedMarks(headers, blocks, free, prev, cur);
      Unlink(prev, cur);
      Unflagged(headers, blocks, head, free, cur);
      SetFree(cur, 0);
      free := free - {cur};
      UnlinkedLive(old(mem), mem, blocks, old(free), cur);
    }

    /** Adds the block `h` with `n` payload bytes in memory the kernel handed out. */
    method AddBlock(h: nat, n: nat)
      requires Valid() && headers.Keys == blocks.Keys
      requires Fresh(h, HEADER + n) && n % 8 == 0
      modifies this`mem, this`headers, this`blocks, this`owned, this`top
      ensures Valid() && headers.Keys == blocks.Keys
      ensures h !in old(blocks) && blocks == old(blocks)[h := n]
      ensures owned == old(owned) + Range(h, HEADER + n) && top == h + HEADER + n
      ensures Framed(old(mem), old(blocks), free, mem, blocks, free, {}, {h})
    {
      GrownShape(blocks, top, h, n);
      GrownTiles(blocks, owned, h, n);
      GrownAligned(blocks, h, n);
      GrownMarks(headers, blocks, head, free, h, Header(n, 0, MAGIC, 0));
      NewHeader(h, n, 0);
      GrownLive(old(mem), mem, blocks, free, top, h, n);
      blocks := blocks[h := n];
      owned := owned + Range(h, HEADER + n);
      top := h + HEADER + n;
    }

    /** Asks the kernel for a block; `brk` is its answer, `None` for a refusal. */
    method RequestFromKernel(payload: nat, brk: Option<nat>) returns (h: nat)
      requires Valid() && headers.Keys == blocks.Keys
      requires brk.Some? && Askable(payload) ==> Fresh(brk.value, Total(payload))
      modifies this`mem, this`headers, this`blocks, this`owned, this`top
      ensures Valid() && headers.Keys == blocks.Keys
      ensures h == if Askable(payload) && brk.Some? then brk.value else 0
      ensures h == 0 ==> mem == old(mem) && blocks == old(blocks) && owned == old(owned) && top == old(top)
      ensures h != 0 ==> IsLive(blocks, free, h) && payload <= blocks[h] && h !in old(blocks)
      ensures h != 0 ==> owned == old(owned) + Range(h, Total(payload))
      ensures Obtained(old(owned), old(top), brk, owned, top)
      ensures h != 0 ==> Framed(old(mem), old(blocks), free, mem, blocks, free, {}, {h})
      ensures h != 0 && NoTouch(old(blocks), free) ==> NoTouch(blocks, free) && End(blocks, h) !in free
    {
      var ok, total := KernelSize(payload);
      if !ok || brk.None? { return 0; }
      h := brk.value;
      if NoTouch(blocks, free) {
        GrownNoTouch(blocks, free, top, h, total - HEADER);
      }
      AddBlock(h, total - HEADER);
    }

    /** The kernel hands out memory above everything it handed out before. */
    ghost predicate Fresh(a: nat, n: nat)
      reads this
    {
      0 < a && top <= a && a % 8 == 0 && a + n + HEADER <= |mem|
    }

    /** First fit from the free list, otherwise a block from the kernel; not split yet. */
    method Obtain(need: nat, brk: Option<nat>) returns (h: nat)
      requires Valid() && headers.Keys == blocks.Keys
      requires brk.Some? && Askable(need) ==> Fresh(brk.value, Total(need))
      modifies this
      ensures Valid() && headers.Keys == blocks.Keys
      ensures h == 0 ==> mem == old(mem) && head == old(head) && blocks == old(blocks) && free == old(free)
      ensures h != 0 ==> IsLive(blocks, free, h) && need <= blocks[h]
      ensures h != 0 ==> Framed(old(mem), old(blocks), old(free), mem, blocks, free, {}, {h})
      ensures Chosen(old(blocks), old(free), need, brk, h, old(owned), owned)
      ensures Obtained(old(owned), old(top), brk, owned, top)
      ensures h != 0 && old(NoTouch(blocks, free)) ==> NoTouch(blocks, free) && End(blocks, h) !in free
    {
      h := 0;
      var ok, prev, cur := FindFit(need);
      if !ok { return; }
      if cur != 0 {
        if NoTouch(blocks, free) { FewerNoTouch(blocks, free, cur); }
        Take(prev, cur);
        return cur;
      }
      h := RequestFromKernel(need, brk);
    }

    /** First fit from the free list, otherwise from the kernel; the header address, or NULL. */
    method Allocate(need: nat, brk: Option<nat>) returns (h: nat)
      requires Valid() && need % 8 == 0
      requires brk.Some? && Askable(need) ==> Fresh(brk.value, Total(need))
      modifies this
      ensures Valid() && headers.Keys == blocks.Keys
      ensures h == 0 ==> mem == old(mem) && head == old(head) && blocks == old(blocks) && free == old(free)
      ensures h != 0 ==> IsLive(blocks, free, h) && need <= blocks[h] < need + HEADER + 32
      ensures h != 0 ==> Framed(old(mem), old(blocks), old(free), mem, blocks, free, {}, {h})
      ensures Chosen(old(blocks), old(free), need, brk, h, old(owned), owned)
      ensures Obtained(old(owned), old(top), brk, owned, top)
      ensures old(NoTouch(blocks, free)) ==> NoTouch(blocks, free)
    {
      Forget();
      h := Obtain(need, brk);
      if h != 0 { Trim(h, need, old(mem), old(blocks), old(free)); }
    }

    /** Cuts off what is too much of a block that was just obtained; `m`, `bl` and `fr` are the heap before that. */
    method Trim(h: nat, need: nat, ghost m: Memory, ghost bl: Blocks, ghost fr: set<nat>)
      requires Valid() && headers.Keys == blocks.Keys && IsLive(blocks, free, h) && need % 8 == 0 && need <= blocks[h]
      requires Framed(m, bl, fr, mem, blocks, free, {}, {h})
      modifies this`mem, this`headers, this`blocks, this`free, this`head
      ensures Valid() && headers.Keys == blocks.Keys && IsLive(blocks, free, h) && need <= blocks[h] < need + HEADER + 32
      ensures Framed(m, bl, fr, mem, blocks, free, {}, {h})
      ensures old(NoTouch(blocks, free) && End(blocks, h) !in free) ==> NoTouch(blocks, free)
    {
      SplitIfNeeded(h, need);
      FramedThen(m, bl, fr, old(mem), old(blocks), old(free), mem, blocks, free, {}, {h}, {}, {h}, {h}, {h});
    }

    lemma PayloadAligned(ptr: nat)
      requires Valid() && ptr in Contents()
      ensures ptr % 8 == 0
    {
      assert AlignedAt(blocks, ptr - HEADER);
      WholeEights(ptr - HEADER, 0);
    }

    /** A block for an aligned payload, with its payload as the program sees it. */
    method Grant(need: nat, brk: Option<nat>) returns (ptr: nat)
      requires Valid() && need % 8 == 0 && Answers(brk, need)
      modifies this
      ensures Valid() && |mem| == |old(mem)|
      ensures ptr == 0 ==> mem == old(mem) && head == old(head) && Contents() == old(Contents())
      ensures ptr != 0 ==> ptr in Contents() && ptr !in old(Contents()) && Contents() - {ptr} == old(Contents())
      ensures ptr != 0 ==> need <= |Contents()[ptr]| < need + HEADER + 32
      ensures Chosen(old(blocks), old(free), need, brk, HeaderOf(ptr), old(owned), owned)
      ensures Obtained(old(owned), old(top), brk, owned, top)
      ensures old(NoTouch(blocks, free)) ==> NoTouch(blocks, free)
    {
      var h := Allocate(need, brk);
      if h == 0 { return 0; }
      ptr := h + HEADER;
      assert HeaderOf(ptr) == h;
      Adds(old(Contents()), Contents(), old(mem), old(blocks), old(free), mem, blocks, free, h);
    }

    method Malloc(size: nat, brk: Option<nat>) returns (ptr: nat)
      requires Valid() && size < ADDRESSES
      requires Answers(brk, Align(size))
      modifies this
      ensures Valid() && |mem| == |old(mem)|
      ensures size == 0 ==> ptr == 0
      ensures ptr == 0 ==> mem == old(mem) && head == old(head) && Contents() == old(Contents())
      ensures ptr != 0 ==> ptr in Contents() && ptr !in old(Contents()) && Contents() - {ptr} == old(Contents())
      ensures ptr != 0 ==> Align(size) <= |Contents()[ptr]| < Align(size) + HEADER + 32 && ptr % 8 == 0
      ensures size != 0 ==> Chosen(old(blocks), old(free), Align(size), brk, HeaderOf(ptr), old(owned), owned)
      ensures ptr != 0 ==> (|Contents()[ptr]| < size <==> size > ADDRESSES - 16)
      ensures ptr == 0 <==> size == 0 || Unserved(old(blocks), old(free), Align(size), brk)
      ensures Obtained(old(owned), old(top), brk, owned, top)
      ensures old(NoTouch(blocks, free)) ==> NoTouch(blocks, free)
    {
      if size == 0 { return 0; }
      AlignUp(size);
      ptr := Grant(Align(size), brk);
      if ptr != 0 { PayloadAligned(ptr); }
    }

    /** What the kernel may answer when asked for a block of this payload. */
    ghost predicate Answers(brk: Option<nat>, payload: nat)
      reads this
    {
      brk.Some? && Askable(payload) ==> Fresh(brk.value, Total(payload))
    }

    /** The same for a product that may not fit 64 bits, when the kernel is not asked. */
    ghost predicate AnswersZeroed(brk: Option<nat>, total: nat)
      reads this
    {
      total < ADDRESSES ==> Answers(brk, Align(total))
    }

    /** The program (or memset, or memcpy) writes at the start of a block it holds. */
    method Write(ptr: nat, bytes: seq<byte>)
      requires Valid() && ptr in Contents() && |bytes| <= |Contents()[ptr]|
      modifies this`mem
      ensures Valid() && |mem| == |old(mem)|
      ensures Contents() == old(Contents())[ptr := bytes + old(Contents())[ptr][|bytes|..]]
    {
      ghost var a: nat := ptr - HEADER;
      WrittenPayload(mem, headers, blocks, free, a, bytes);
      WrittenView(mem, blocks, free, a, bytes);
      mem := Written(mem, ptr, bytes);
    }

    /** The payload size a block's header states. */
    method PayloadSize(ptr: nat) returns (n: nat)
      requires Valid() && ptr in Contents()
      ensures n == |Contents()[ptr]| && n + HEADER + HEADER <= ADDRESSES
    {
      assert MarkedAt(headers, blocks, free, ptr - HEADER);
      var h := GetHeader(ptr - HEADER);
      n := h.size;
    }

    method Calloc(nmemb: nat, size: nat, brk: Option<nat>) returns (r: Zeroed)
      requires Valid() && nmemb < ADDRESSES && size < ADDRESSES
      requires AnswersZeroed(brk, nmemb * size)
      modifies this
      ensures Valid()
      ensures r == Null <==> NotZeroed(nmemb * size, old(blocks), old(free), brk)
      ensures r == Null ==> mem == old(mem) && Contents() == old(Contents())
      ensures r.Block? ==> ZeroedNew(old(Contents()), Contents(), r.ptr, nmemb * size)
      ensures r.Overrun? <==> ADDRESSES - 16 < nmemb * size < ADDRESSES && (old(free) != {} || brk.Some?)
      ensures r.Block? ==> nmemb * size <= ADDRESSES - 16
      ensures Obtained(old(owned), old(top), brk, owned, top)
      ensures old(NoTouch(blocks, free)) ==> NoTouch(blocks, free)
    {
      CallocFits(nmemb, size);
      if nmemb > 0 && size > (ADDRESSES - 1) / nmemb { return Null; }
      r := Cleared(nmemb * size, brk);
    }

    /** A block of `total` zeros. */
    method Cleared(total: nat, brk: Option<nat>) returns (r: Zeroed)
      requires Valid() && total < ADDRESSES && Answers(brk, Align(total))
      modifies this
      ensures Valid()
      ensures r == Null <==> total == 0 || Unserved(old(blocks), old(free), Align(total), brk)
      ensures r == Null ==> mem == old(mem) && Contents() == old(Contents())
      ensures r.Block? ==> ZeroedNew(old(Contents()), Contents(), r.ptr, total)
      ensures r.Overrun? <==> ADDRESSES - 16 < total && (old(free) != {} || brk.Some?)
      ensures r.Block? ==> total <= ADDRESSES - 16
      ensures Obtained(old(owned), old(top), brk, owned, top)
      ensures old(NoTouch(blocks, free)) ==> NoTouch(blocks, free)
    {
      AlignUp(total);
      if total > ADDRESSES - 16 { AnyFits(blocks, free); }
      var p := Malloc(total, brk);
      if p == 0 { return Null; }
      r := ZeroFill(p, total);
    }

    /** Clears the first `total` bytes of a block, if they are in the block. */
    method ZeroFill(ptr: nat, total: nat) returns (r: Zeroed)
      requires Valid() && ptr in Contents() && total < ADDRESSES
      modifies this`mem
      ensures Valid() && r == if total > |old(Contents())[ptr]| then Overrun(ptr) else Block(ptr)
      ensures r.Block? ==> ptr in Contents() && Contents() - {ptr} == old(Contents()) - {ptr} && total <= |Contents()[ptr]|
      ensures r.Block? ==> forall i | 0 <= i < total :: Contents()[ptr][i] == 0
    {
      var room := PayloadSize(ptr);
      if total > room { return Overrun(ptr); }
      Write(ptr, seq(total, _ => 0));
      r := Block(ptr);
    }

    /** Walks the free list in search of `b`. */
    method OnFreeList(b: nat) returns (found: bool)
      requires Valid() && b != 0
      ensures found <==> b in free
    {
      var f := head;
      while f != 0
        invariant f == 0 || f in free
        invariant b in free ==> f != 0 && f <= b
        decreases if f == 0 then 0 else |mem| - f
      {
        if f == b { return true; }
        assert IsNext(free, f, headers[f].next);
        var h := GetHeader(f);
        f := h.next;
      }
      found := false;
    }

    /** Takes `b` off the free list, wherever it is. */
    method RemoveFree(b: nat)
      requires Valid() && headers.Keys == blocks.Keys && b in free
      modifies this`mem, this`headers, this`head
      ensures Mirrors(mem, headers) && headers.Keys == blocks.Keys
      ensures Marked(headers, blocks, free) && Linked(headers, head, free - {b})
      ensures OnlyHeaders(old(mem), mem, blocks)
    {
      var prev: nat, cur := 0, head;
      while cur != b
        invariant IsNext(free, prev, cur) && cur != 0 && cur <= b
        invariant if prev == 0 then cur == head else prev in free
        modifies {}
        decreases b - cur
      {
        assert IsNext(free, cur, headers[cur].next);
        var h := GetHeader(cur);
        prev, cur := cur, h.next;
      }
      assert IsNext(free, b, headers[b].next);
      UnlinkedLinks(headers, head, free, prev, b);
      UnlinkedMarks(headers, blocks, free, prev, b);
      Unlink(prev, b);
    }

    /** The header writes that make `h` grow over `n`, which is then no block any more. */
    method Widen(h: nat, n: nat, combined: nat)
      requires Mirrors(mem, headers) && h in headers && n in headers && h != n && combined < ADDRESSES
      modifies this`mem, this`headers
      ensures Mirrors(mem, headers) && headers == Widened(old(headers), h, n, combined)
      ensures |mem| == |old(mem)|
      ensures forall x | 0 <= x < |mem| :: mem[x] == old(mem)[x] || h <= x < h + HEADER || n <= x < n + HEADER
    {
      SetMagic(n, 0);
      SetSize(h, combined);
      headers := headers - {n};
    }

    /** Grows the live block `h` over the free block `n` right behind it. */
    method Swallow(h: nat, n: nat, combined: nat)
      requires Valid() && headers.Keys == blocks.Keys && IsLive(blocks, free, h)
      requires n in free && End(blocks, h) == n && combined == blocks[h] + HEADER + blocks[n]
      modifies this`mem, this`headers, this`head, this`blocks, this`free
      ensures Valid() && headers.Keys == blocks.Keys
      ensures IsLive(blocks, free, h) && blocks[h] == combined
      ensures Framed(old(mem), old(blocks), old(free), mem, blocks, free, {h}, {h})
      ensures SameBytes(old(mem), mem, h + HEADER, n)
      ensures old(NoTouch(blocks, free)) ==> NoTouch(blocks, free) && End(blocks, h) !in free
    {
      AbsorbedShape(blocks, h, n, top);
      AbsorbedTiles(blocks, h, n, owned);
      AbsorbedAligned(blocks, h, n);
      RemoveFree(n);
      WidenedMarks(headers, blocks, head, free, h, n, combined);
      Widen(h, n, combined);
      SwallowedLive(old(mem), mem, blocks, free, h, n);
      if NoTouch(blocks, free) { SwallowedNoTouch(blocks, free, h, n); }
      blocks := Absorbed(blocks, h, n);
      free := free - {n};
    }

    /** Resizes the live block `h` where it is, if it can; does nothing otherwise. */
    method ResizeInPlace(h: nat, need: nat) returns (done: bool, overflow: bool)
      requires Valid() && headers.Keys == blocks.Keys && IsLive(blocks, free, h) && need % 8 == 0
      modifies this`mem, this`headers, this`head, this`blocks, this`free
      ensures Valid() && headers.Keys == blocks.Keys
      ensures IsLive(blocks, free, h) && Framed(old(mem), old(blocks), old(free), mem, blocks, free, {h}, {h})
      ensures !overflow && (done <==> FitsInPlace(old(blocks), old(free), h, need))
      ensures done ==> need <= blocks[h] < need + HEADER + 32
      ensures done ==> SameBytes(old(mem), mem, h + HEADER, h + HEADER + Min(blocks[h], old(blocks)[h]))
      ensures !done ==> mem == old(mem) && blocks == old(blocks) && free == old(free) && blocks[h] < need
      ensures old(NoTouch(blocks, free)) ==> (NoTouch(blocks, free) <==> !ShrinkTouches(old(blocks), old(free), h, need))
    {
      done, overflow := false, false;
      assert MarkedAt(headers, blocks, free, h);
      var hh := GetHeader(h);
      if hh.size >= need {
        SplitIfNeeded(h, need);
        done := true;
        return;
      }
      var n := h + HEADER + hh.size;
      var peek := HeaderAt(mem, n);
      assert n in free ==> MarkedAt(headers, blocks, free, n);
      if peek.magic != MAGIC || peek.free != 1 { return; }
      var listed := OnFreeList(n);
      if !listed { return; }
      if peek.size > ADDRESSES - 1 - hh.size - HEADER { overflow := true; return; }
      var combined := hh.size + HEADER + peek.size;
      if combined < need { return; }
      Swallow(h, n, combined);
      ghost var m, bl, fr := mem, blocks, free;
      SplitIfNeeded(h, need);
      FramedThen(old(mem), old(blocks), old(free), m, bl, fr, mem, blocks, free, {h}, {h}, {h}, {h}, {h}, {h});
      done := true;
    }

    /** A live block's header claims it is in use. */
    lemma LiveClaims(ptr: nat)
      requires Valid() && ptr in Contents()
      ensures HEADER <= ptr <= |mem| && Claims(ptr) && |Contents()[ptr]| == HeaderAt(mem, ptr - HEADER).size
    {
      assert MarkedAt(headers, blocks, free, ptr - HEADER);
    }

    /** Copies the payload of `ptr` to the start of the larger block `r`. */
    method CopyTo(ptr: nat, r: nat)
      requires Valid() && ptr in Contents() && r in Contents() && |Contents()[ptr]| <= |Contents()[r]|
      modifies this`mem
      ensures Valid() && |mem| == |old(mem)|
      ensures Contents() == old(Contents())[r := old(Contents())[ptr] + old(Contents())[r][|old(Contents())[ptr]|..]]
    {
      LiveClaims(ptr);
      var n := PayloadSize(ptr);
      var bytes := mem[ptr..ptr + n];
      assert bytes == Contents()[ptr];
      Write(r, bytes);
    }

    /** Moves the contents of `ptr` to a new block and frees the old one. */
    method Move(ptr: nat, need: nat, brk: Option<nat>) returns (r: nat)
      requires Valid() && ptr in Contents() && |Contents()[ptr]| < need < ADDRESSES && Align(need) == need
      requires Answers(brk, need)
      modifies this
      ensures Valid()
      ensures r == 0 ==> Contents() == old(Contents())
      ensures r == 0 <==> NoneFits(old(blocks), old(free), need) && !(Askable(need) && brk.Some?)
      ensures r != 0 ==> r !in old(Contents()) && r in Contents() && Contents() - {r} == old(Contents()) - {ptr}
      ensures r != 0 ==> need <= |Contents()[r]| < need + HEADER + 32 && old(Contents())[ptr] <= Contents()[r]
      ensures Obtained(old(owned), old(top), brk, owned, top)
      ensures old(NoTouch(blocks, free)) ==> NoTouch(blocks, free)
    {
      r := Malloc(need, brk);
      if r == 0 { return; }
      assert ptr in Contents() && Contents()[ptr] == old(Contents())[ptr] by {
        assert ptr in Contents() - {r};
      }
      ghost var c1 := Contents();
      CopyTo(ptr, r);
      ghost var c2 := Contents();
      LiveClaims(ptr);
      Free(ptr);
      Moved(old(Contents()), c1, c2, Contents(), ptr, r, c1[ptr]);
    }

    /** Resizes a block where it is, if that can be done. */
    method ResizeHere(ptr: nat, need: nat) returns (done: bool)
      requires Valid() && ptr in Contents() && need % 8 == 0
      modifies this`mem, this`headers, this`head, this`blocks, this`free
      ensures Valid() && (done <==> FitsInPlace(old(blocks), old(free), ptr - HEADER, need))
      ensures done ==> Resized(old(Contents()), Contents(), ptr, ptr, need)
      ensures !done ==> mem == old(mem) && blocks == old(blocks) && free == old(free) && Contents() == old(Contents())
      ensures !done ==> |Contents()[ptr]| < need
      ensures old(NoTouch(blocks, free)) ==>
                (NoTouch(blocks, free) <==> !ShrinkTouches(old(blocks), old(free), ptr - HEADER, need))
    {
      Forget();
      var overflow;
      done, overflow := ResizeInPlace(ptr - HEADER, need);
      if done {
        ghost var k := Min(blocks[ptr - HEADER], old(blocks)[ptr - HEADER]);
        ViewResized(old(mem), old(blocks), old(free), mem, blocks, free, ptr - HEADER, k);
      }
    }

    /** Realloc of a live block to a non-zero size. */
    method Resize(ptr: nat, size: nat, brk: Option<nat>) returns (r: nat)
      requires Valid() && ptr in Contents() && size < ADDRESSES && Answers(brk, Align(size))
      modifies this
      ensures Valid()
      ensures r == 0 ==> Contents() == old(Contents())
      ensures r == ptr <==> FitsInPlace(old(blocks), old(free), ptr - HEADER, Align(size))
      ensures r == 0 <==> !FitsInPlace(old(blocks), old(free), ptr - HEADER, Align(size)) &&
                          Unserved(old(blocks), old(free), Align(size), brk)
      ensures r != 0 ==> Resized(old(Contents()), Contents(), ptr, r, Align(size))
      ensures r != 0 ==> (|Contents()[r]| < size <==> size > ADDRESSES - 16)
      ensures Obtained(old(owned), old(top), brk, owned, top)
      ensures old(NoTouch(blocks, free)) ==>
                (NoTouch(blocks, free) <==> !ShrinkTouches(old(blocks), old(free), ptr - HEADER, Align(size)))
    {
      AlignUp(size);
      AlignAgain(size);
      var done := ResizeHere(ptr, Align(size));
      if done { return ptr; }
      r := Move(ptr, Align(size), brk);
    }

    method Realloc(ptr: nat, size: nat, brk: Option<nat>) returns (r: nat)
      requires Valid() && size < ADDRESSES && (ptr == 0 || HEADER <= ptr <= |mem|)
      requires ptr != 0 && HeaderAt(mem, ptr - HEADER).magic == MAGIC && (size != 0 || Claims(ptr)) ==> ptr in Contents()
      requires Answers(brk, Align(size))
      modifies this
      ensures Valid()
      ensures ptr == 0 && r != 0 ==>
                r !in old(Contents()) && r in Contents() && Contents() - {r} == old(Contents()) && Align(size) <= |Contents()[r]|
      ensures ptr != 0 && size == 0 ==> r == 0 && Contents() == old(Contents()) - {ptr}
      ensures ptr != 0 && ptr !in old(Contents()) ==> r == 0 && mem == old(mem)
      ensures r == 0 && (ptr == 0 || size != 0) ==> Contents() == old(Contents())
      ensures ptr != 0 && r != 0 ==> Resized(old(Contents()), Contents(), ptr, r, Align(size))
      ensures size != 0 && ptr in old(Contents()) ==> (r == ptr <==> FitsInPlace(old(blocks), old(free), ptr - HEADER, Align(size)))
      ensures ptr == 0 ==> (r == 0 <==> size == 0 || Unserved(old(blocks), old(free), Align(size), brk))
      ensures size != 0 && ptr in old(Contents()) ==>
                (r == 0 <==> !FitsInPlace(old(blocks), old(free), ptr - HEADER, Align(size)) &&
                             Unserved(old(blocks), old(free), Align(size), brk))
      ensures ptr != 0 && r != 0 ==> (|Contents()[r]| < size <==> size > ADDRESSES - 16)
      ensures Obtained(old(owned), old(top), brk, owned, top)
      ensures old(NoTouch(blocks, free)) && !(size != 0 && ptr in old(Contents())) ==> NoTouch(blocks, free)
      ensures old(NoTouch(blocks, free)) && size != 0 && ptr in old(Contents()) ==>
                (NoTouch(blocks, free) <==> !ShrinkTouches(old(blocks), old(free), ptr - HEADER, Align(size)))
    {
      if ptr == 0 {
        r := Malloc(size, brk);
      } else if size == 0 {
        GiveUp(ptr);
        r := 0;
      } else {
        r := Rework(ptr, size, brk);
      }
    }

    /** Realloc to size 0. */
    method GiveUp(ptr: nat)
      requires Valid() && HEADER <= ptr <= |mem| && (Claims(ptr) ==> ptr in Contents())
      modifies this`mem, this`headers, this`blocks, this`free, this`head
      ensures Valid() && Contents() == old(Contents()) - {ptr}
      ensures ptr !in old(Contents()) ==> mem == old(mem)
      ensures old(NoTouch(blocks, free)) ==> NoTouch(blocks, free)
    {
      if ptr in Contents() { LiveClaims(ptr); }
      Free(ptr);
    }

    /** Realloc of a pointer that is not null, to a size that is not 0. */
    method Rework(ptr: nat, size: nat, brk: Option<nat>) returns (r: nat)
      requires Valid() && 0 < size < ADDRESSES && HEADER <= ptr <= |mem|
      requires HeaderAt(mem, ptr - HEADER).magic == MAGIC ==> ptr in Contents()
      requires Answers(brk, Align(size))
      modifies this
      ensures Valid()
      ensures ptr !in old(Contents()) ==> r == 0 && mem == old(mem)
      ensures r == 0 ==> Contents() == old(Contents())
      ensures r != 0 ==> Resized(old(Contents()), Contents(), ptr, r, Align(size)) && (|Contents()[r]| < size <==> size > ADDRESSES - 16)
      ensures ptr in old(Contents()) ==>
                && (r == ptr <==> FitsInPlace(old(blocks), old(free), ptr - HEADER, Align(size)))
                && (r == 0 <==> !FitsInPlace(old(blocks), old(free), ptr - HEADER, Align(size)) &&
                                Unserved(old(blocks), old(free), Align(size), brk))
      ensures Obtained(old(owned), old(top), brk, owned, top)
      ensures old(NoTouch(blocks, free)) ==>
                (NoTouch(blocks, free) <==>
                 !(ptr in old(Contents()) && ShrinkTouches(old(blocks), old(free), ptr - HEADER, Align(size))))
    {
      if ptr in Contents() { LiveClaims(ptr); }
      var h := HeaderAt(mem, ptr - HEADER);
      if h.magic != MAGIC { return 0; }
      r := Resize(ptr, size, brk);
    }
  }

  /**
   The block at `p` became the block at `r`: `need` bytes and no rest worth splitting off, the old bytes up to the shorter
   of the two lengths, and every other block as it was.
   */
  ghost predicate Resized(c: map<nat, seq<byte>>, c': map<nat, seq<byte>>, p: nat, r: nat, need: nat) {
    && p in c && r in c' && (r == p || r !in c)
    && c' - {r} == c - {p}
    && need <= |c'[r]| < need + HEADER + 32
    && forall i | 0 <= i < |c[p]| && i < |c'[r]| :: c'[r][i] == c[p][i]
  }

  /** A new block `p` that begins with `n` zeros; the others are as they were. */
  ghost predicate ZeroedNew(c: map<nat, seq<byte>>, c': map<nat, seq<byte>>, p: nat, n: nat) {
    && p in c' && p !in c && c' - {p} == c
    && n <= |c'[p]| && forall i | 0 <= i < n :: c'[p][i] == 0
  }

  /** A request that wrapped to nothing is served by any free block. */
  lemma AnyFits(blocks: Blocks, free: set<nat>)
    requires free <= blocks.Keys
    ensures NoneFits(blocks, free, 0) <==> free == {}
  {
    if free != {} {
      var f :| f in free;
      assert f in blocks;
    }
  }

  /** The address of the header before a payload; NULL for NULL. */
  function HeaderOf(ptr: nat): nat { if ptr < HEADER then 0 else ptr - HEADER }

  /** The block for a request: the lowest free one that fits, else what the kernel gives, else none. */
  ghost predicate Chosen(blocks: Blocks, free: set<nat>, need: nat, brk: Option<nat>, h: nat, owned: set<nat>, owned': set<nat>) {
    if h in free then FirstFit(blocks, free, need, h) && owned' == owned
    else
      && NoneFits(blocks, free, need) && h == (if Askable(need) && brk.Some? then brk.value else 0)
      && owned' == if h == 0 then owned else owned + Range(h, Total(need))
  }

  /** Nothing fits and the kernel gives nothing. */
  ghost predicate Unserved(blocks: Blocks, free: set<nat>, need: nat, brk: Option<nat>) {
    NoneFits(blocks, free, need) && !(Askable(need) && brk.Some?)
  }

  /** Nothing to clear, a product that does not fit, or nothing to serve it. */
  ghost predicate NotZeroed(total: nat, blocks: Blocks, free: set<nat>, brk: Option<nat>) {
    total == 0 || total >= ADDRESSES || Unserved(blocks, free, Align(total), brk)
  }

  /** Nothing was obtained, or the memory from `brk` up to the new break. */
  ghost predicate Obtained(owned: set<nat>, top: nat, brk: Option<nat>, owned': set<nat>, top': nat) {
    || (owned' == owned && top' == top)
    || (brk.Some? && brk.value < top' && owned' == owned + Range(brk.value, top' - brk.value))
  }

  lemma AlignAgain(n: nat)
    requires n < ADDRESSES
    ensures Align(Align(n)) == Align(n)
  {
    var sum := if n + 15 < ADDRESSES then n + 15 else n + 15 - ADDRESSES;
    var k := sum / 16;
    assert Align(n) == 16 * k;
    assert (16 * k + 15) % 16 == 15;
  }

  lemma Moved(c: map<nat, seq<byte>>, c1: map<nat, seq<byte>>, c2: map<nat, seq<byte>>, c3: map<nat, seq<byte>>,
              p: nat, r: nat, bytes: seq<byte>)
    requires p in c && r !in c && r in c1 && c1 - {r} == c && |bytes| <= |c1[r]|
    requires c2 == c1[r := bytes + c1[r][|bytes|..]]
    requires c3 == c2 - {p}
    ensures c3 - {r} == c - {p} && r in c3 && bytes <= c3[r] && |c3[r]| == |c1[r]|
  {
  }

  /** The division test before the multiplication is exact. */
  lemma CallocFits(nmemb: nat, size: nat)
    ensures nmemb > 0 && size > (ADDRESSES - 1) / nmemb <==> nmemb * size >= ADDRESSES
  {
    if nmemb > 0 {
      var q := (ADDRESSES - 1) / nmemb;
      assert q * nmemb <= ADDRESSES - 1 < (q + 1) * nmemb;
      if size > q {
        assert nmemb * size >= nmemb * (q + 1);
      } else {
        assert nmemb * size <= nmemb * q;
      }
    }
  }
}
