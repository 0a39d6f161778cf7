/**
 The layout of the heap: which blocks exist, which of them are on the free list, and what
 that means in memory. Everything here is about values; the allocator that changes them is
 in module UserHeap.
 */
module HeapLayout {
  import opened Basics
  import opened LittleEndian
  import opened HeapMemory

  /** Every block, free or live: the address of its header to its payload size. */
  type Blocks = map<nat, nat>

  ghost function End(blocks: Blocks, a: nat): nat
    requires a in blocks
  {
    a + HEADER + blocks[a]
  }

  ghost predicate Below(blocks: Blocks, a: nat, b: nat)
    requires a in blocks
  {
    End(blocks, a) <= b
  }

  /** Header-plus-payload extents do not overlap. */
  ghost predicate Disjoint(blocks: Blocks) {
    forall a, b {:trigger Below(blocks, a, b)} | a in blocks && b in blocks && a < b :: Below(blocks, a, b)
  }

  ghost predicate Covers(blocks: Blocks, x: nat) {
    exists a :: a in blocks && a <= x < End(blocks, a)
  }

  /** The blocks cover exactly the bytes in `owned`. */
  ghost predicate Tiles(blocks: Blocks, owned: set<nat>) {
    forall x: nat {:trigger Covers(blocks, x)} :: x in owned <==> Covers(blocks, x)
  }

  /** Blocks end by `top`, and address 0 is never a block. */
  ghost predicate Placed(blocks: Blocks, top: nat) {
    forall a | a in blocks :: 0 < a && End(blocks, a) <= top
  }

  ghost predicate AlignedAt(blocks: Blocks, a: nat) {
    a in blocks && a % 8 == 0 && blocks[a] % 8 == 0
  }

  /** Blocks start and end on 8-byte boundaries. */
  ghost predicate Aligned(blocks: Blocks) {
    forall a {:trigger AlignedAt(blocks, a)} | a in blocks :: AlignedAt(blocks, a)
  }

  // ---------------------------------------------------------------- headers

  ghost predicate Apart(a: nat, b: nat) {
    a + HEADER <= b || b + HEADER <= a
  }

  /** Memory holds these headers, and they do not overlap. */
  ghost predicate Mirrors(m: Memory, headers: map<nat, Header>) {
    && (forall a | a in headers :: a + HEADER <= |m|)
    && (forall a {:trigger HeaderAt(m, a)} | a in headers :: HeaderAt(m, a) == headers[a])
    && (forall a, b {:trigger Apart(a, b)} | a in headers && b in headers && a != b :: Apart(a, b))
  }

  ghost predicate MarkedAt(headers: map<nat, Header>, blocks: Blocks, free: set<nat>, a: nat) {
    && a in headers && a in blocks
    && headers[a].size == blocks[a]
    && headers[a].magic == MAGIC
    && headers[a].free == if a in free then 1 else 0
  }

  /** Every block's header states its size, carries the magic number and says whether the block is free. */
  ghost predicate Marked(headers: map<nat, Header>, blocks: Blocks, free: set<nat>) {
    && blocks.Keys <= headers.Keys
    && forall a {:trigger MarkedAt(headers, blocks, free, a)} | a in blocks :: MarkedAt(headers, blocks, free, a)
  }

  /** `n` is the first free block above `a`, or NULL when there is none. */
  ghost predicate IsNext(free: set<nat>, a: nat, n: nat) {
    if n == 0 then forall f | f in free :: f <= a
    else n in free && a < n && forall f | f in free :: f <= a || n <= f
  }

  /** The list from `head` links every free block to the next one up, in address order. */
  ghost predicate Linked(headers: map<nat, Header>, head: nat, free: set<nat>) {
    && free <= headers.Keys
    && 0 !in free
    && IsNext(free, 0, head)
    && forall a {:trigger IsNext(free, a, headers[a].next)} | a in free :: IsNext(free, a, headers[a].next)
  }

  ghost predicate InsideFree(blocks: Blocks, free: set<nat>, w: nat) {
    exists f :: f in free && f in blocks && f + HEADER <= w && w + HEADER <= End(blocks, f)
  }

  /** A header that is no block's any more was wiped when a free block absorbed it. */
  ghost predicate RestWiped(headers: map<nat, Header>, blocks: Blocks, free: set<nat>) {
    forall w {:trigger WipedAt(headers, blocks, free, w)} | w in headers && w !in blocks ::
      WipedAt(headers, blocks, free, w)
  }

  ghost predicate WipedAt(headers: map<nat, Header>, blocks: Blocks, free: set<nat>, w: nat) {
    w in headers && headers[w].magic == 0 && InsideFree(blocks, free, w)
  }

  // ---------------------------------------------------------------- what the program sees

  ghost predicate IsLive(blocks: Blocks, free: set<nat>, a: int) {
    a in blocks && a !in free
  }

  /** The pointers the program holds: the payload addresses of the live blocks. */
  ghost function Pointers(blocks: Blocks, free: set<nat>): (r: set<nat>)
    ensures forall p: nat :: p in r <==> IsLive(blocks, free, p - HEADER)
  {
    var r := set a: nat | a in blocks && a !in free :: a + HEADER;
    assert forall p: nat :: p in r ==> IsLive(blocks, free, p - HEADER);
    assert forall a: nat :: IsLive(blocks, free, a) ==> a + HEADER in r;
    r
  }

  /** Every live pointer and the bytes it may use. */
  ghost function View(m: Memory, blocks: Blocks, free: set<nat>): map<nat, seq<byte>>
    requires Placed(blocks, |m|)
  {
    map p: nat | p in Pointers(blocks, free) :: m[p..p + blocks[p - HEADER]]
  }

  ghost predicate InHeader(blocks: Blocks, x: nat) {
    exists a :: a in blocks && a <= x < a + HEADER
  }

  /** Only bytes of block headers differ. */
  ghost predicate OnlyHeaders(m: Memory, m': Memory, blocks: Blocks) {
    |m'| == |m| && forall x | 0 <= x < |m| :: m'[x] == m[x] || InHeader(blocks, x)
  }

  /** Two headers written, then only headers. */
  lemma TwoThenHeaders(m: Memory, m1: Memory, m2: Memory, blocks: Blocks, a: nat, b: nat)
    requires a in blocks && b in blocks && |m1| == |m| && OnlyHeaders(m1, m2, blocks)
    requires forall x | 0 <= x < |m| :: m1[x] == m[x] || a <= x < a + HEADER || b <= x < b + HEADER
    ensures OnlyHeaders(m, m2, blocks)
  {
    forall x: nat | x < |m|
      ensures m2[x] == m[x] || InHeader(blocks, x)
    {
      assert m2[x] == m1[x] || InHeader(blocks, x);
    }
  }

  ghost predicate Touches(blocks: Blocks, a: nat, b: nat) {
    a in blocks && End(blocks, a) == b
  }

  /** No free block ends where another one begins. */
  ghost predicate NoTouch(blocks: Blocks, free: set<nat>) {
    forall a, b {:trigger Touches(blocks, a, b)} | a in free && b in free :: !Touches(blocks, a, b)
  }

  // ---------------------------------------------------------------- one header changes

  /** Memory differs at most in the 24 bytes at `a`. */
  ghost predicate SameOutside(m: Memory, m': Memory, a: nat) {
    SameBytes(m, m', 0, a) && SameBytes(m, m', a + HEADER, |m|)
  }

  lemma OneHeader(m: Memory, m': Memory, headers: map<nat, Header>, a: nat, h: Header)
    requires Mirrors(m, headers) && a in headers
    requires SameOutside(m, m', a) && HeaderAt(m', a) == h
    ensures Mirrors(m', headers[a := h])
  {
    forall b | b in headers && b != a
      ensures HeaderAt(m', b) == headers[b]
    {
      assert HeaderAt(m, b) == headers[b] && Apart(a, b);
      HeaderFrame(m, m', b);
    }
  }

  lemma FreshHeader(m: Memory, m': Memory, headers: map<nat, Header>, a: nat, h: Header)
    requires Mirrors(m, headers) && a !in headers && forall b | b in headers :: Apart(a, b)
    requires a + HEADER <= |m| && SameOutside(m, m', a) && HeaderAt(m', a) == h
    ensures Mirrors(m', headers[a := h])
  {
    forall b | b in headers
      ensures HeaderAt(m', b) == headers[b]
    {
      assert HeaderAt(m, b) == headers[b] && Apart(a, b);
      HeaderFrame(m, m', b);
    }
  }

  // ---------------------------------------------------------------- the free list grows

  /** The headers after `b` was linked in after `prev` (NULL for the list head) and before `cur`. */
  ghost function Relinked(headers: map<nat, Header>, prev: nat, b: nat, cur: nat): (r: map<nat, Header>)
    requires b in headers && (prev == 0 || prev in headers)
    ensures r.Keys == headers.Keys
  {
    var hs := headers[b := headers[b].(next := cur)];
    if prev == 0 then hs else hs[prev := hs[prev].(next := b)]
  }

  lemma RelinkedLinks(headers: map<nat, Header>, head: nat, free: set<nat>, prev: nat, b: nat, cur: nat)
    requires Linked(headers, head, free) && b in headers && 0 < b && b !in free
    requires prev < b && (cur == 0 || b < cur) && IsNext(free, prev, cur)
    requires prev == 0 || prev in free
    ensures Linked(Relinked(headers, prev, b, cur), if prev == 0 then b else head, free + {b})
  {
    var hs := Relinked(headers, prev, b, cur);
    forall a | a in free + {b}
      ensures IsNext(free + {b}, a, hs[a].next)
    {
      if a in free && a != prev {
        assert IsNext(free, a, headers[a].next);
      }
    }
  }

  /** All but the free flag of `b`, which is about to be set. */
  ghost predicate MarkedBut(headers: map<nat, Header>, blocks: Blocks, free: set<nat>, b: nat) {
    && blocks.Keys <= headers.Keys
    && b in blocks && headers[b].size == blocks[b] && headers[b].magic == MAGIC
    && forall a {:trigger MarkedAt(headers, blocks, free, a)} | a in blocks && a != b :: MarkedAt(headers, blocks, free, a)
  }

  lemma Flagged(headers: map<nat, Header>, blocks: Blocks, head: nat, free: set<nat>, b: nat)
    requires Linked(headers, head, free) && b !in free && b in blocks
    requires MarkedBut(headers, blocks, free, b) && RestWiped(headers, blocks, free)
    ensures Linked(headers[b := headers[b].(free := 1)], head, free)
    ensures MarkedBut(headers[b := headers[b].(free := 1)], blocks, free, b)
    ensures RestWiped(headers[b := headers[b].(free := 1)], blocks, free)
  {
    var hs := headers[b := headers[b].(free := 1)];
    forall a | a in free
      ensures IsNext(free, a, hs[a].next)
    {
      assert IsNext(free, a, headers[a].next);
    }
    forall a | a in blocks && a != b
      ensures MarkedAt(hs, blocks, free, a)
    {
      assert MarkedAt(headers, blocks, free, a);
    }
    forall w | w in hs && w !in blocks
      ensures WipedAt(hs, blocks, free, w)
    {
      assert WipedAt(headers, blocks, free, w);
    }
  }

  lemma RelinkedMarks(headers: map<nat, Header>, blocks: Blocks, free: set<nat>, prev: nat, b: nat, cur: nat)
    requires MarkedBut(headers, blocks, free, b) && RestWiped(headers, blocks, free) && b in blocks
    requires headers[b].free == 1
    requires prev == 0 || prev in free
    requires free <= blocks.Keys && b !in free
    ensures Marked(Relinked(headers, prev, b, cur), blocks, free + {b})
    ensures RestWiped(Relinked(headers, prev, b, cur), blocks, free + {b})
  {
    var r := Relinked(headers, prev, b, cur);
    forall a | a in blocks
      ensures MarkedAt(r, blocks, free + {b}, a)
    {
      assert a != b ==> MarkedAt(headers, blocks, free, a);
    }
    forall w | w in r && w !in blocks
      ensures WipedAt(r, blocks, free + {b}, w)
    {
      assert WipedAt(headers, blocks, free, w);
      var f :| f in free && f in blocks && f + HEADER <= w && w + HEADER <= End(blocks, f);
      assert f in free + {b};
    }
  }

  // ---------------------------------------------------------------- live blocks stay as they are

  /**
   The live blocks before, less those in `gone`, are the live blocks after, less those in `come`,
   and have the same sizes and payloads.
   */
  ghost predicate Framed(m: Memory, blocks: Blocks, free: set<nat>, m': Memory, blocks': Blocks, free': set<nat>,
                         gone: set<nat>, come: set<nat>) {
    && |m'| == |m|
    && (forall a: nat | IsLive(blocks, free, a) && a !in gone ::
          && IsLive(blocks', free', a)
          && a !in come
          && blocks'[a] == blocks[a]
          && SameBytes(m, m', a + HEADER, End(blocks, a)))
    && (forall a: nat | IsLive(blocks', free', a) && a !in come :: IsLive(blocks, free, a) && a !in gone)
  }

  lemma FramedThen(m: Memory, blocks: Blocks, free: set<nat>, m1: Memory, blocks1: Blocks, free1: set<nat>,
                   m2: Memory, blocks2: Blocks, free2: set<nat>,
                   gone: set<nat>, come: set<nat>, gone1: set<nat>, come1: set<nat>, gone2: set<nat>, come2: set<nat>)
    requires Framed(m, blocks, free, m1, blocks1, free1, gone1, come1)
    requires Framed(m1, blocks1, free1, m2, blocks2, free2, gone2, come2)
    requires gone2 - come1 + gone1 == gone && come1 - gone2 + come2 == come
    requires come2 !! gone1 || forall a: nat | a in come2 && a in gone1 :: !IsLive(blocks1, free1, a) || a in gone2
    ensures Framed(m, blocks, free, m2, blocks2, free2, gone, come)
  {
  }

  /** What framing means for one pointer. */
  lemma FramedPointer(m: Memory, blocks: Blocks, free: set<nat>, m': Memory, blocks': Blocks, free': set<nat>,
                      gone: set<nat>, come: set<nat>, p: nat)
    requires Placed(blocks, |m|) && Placed(blocks', |m'|)
    requires Framed(m, blocks, free, m', blocks', free', gone, come)
    ensures p in View(m, blocks, free) && p - HEADER !in gone <==> p in View(m', blocks', free') && p - HEADER !in come
    ensures p in View(m, blocks, free) && p - HEADER !in gone ==> View(m', blocks', free')[p] == View(m, blocks, free)[p]
  {
    if p in View(m, blocks, free) && p - HEADER !in gone {
      var a: nat := p - HEADER;
      assert IsLive(blocks, free, a);
      assert m'[p..p + blocks[a]] == m[p..p + blocks[a]];
    }
  }

  lemma MapsAgree(v: map<nat, seq<byte>>, v': map<nat, seq<byte>>, g: set<nat>, c: set<nat>)
    requires forall p: nat :: p in v && p !in g <==> p in v' && p !in c
    requires forall p: nat | p in v && p !in g :: v'[p] == v[p]
    ensures v' - c == v - g
  {
  }

  /** What framing means to the program, with the pointers that went and came. */
  lemma FramedView(m: Memory, blocks: Blocks, free: set<nat>, m': Memory, blocks': Blocks, free': set<nat>,
                   gone: set<nat>, come: set<nat>, g: set<nat>, c: set<nat>)
    requires Placed(blocks, |m|) && Placed(blocks', |m'|)
    requires Framed(m, blocks, free, m', blocks', free', gone, come)
    requires forall p: nat :: p in g <==> p - HEADER in gone
    requires forall p: nat :: p in c <==> p - HEADER in come
    ensures View(m', blocks', free') - c == View(m, blocks, free) - g
  {
    var v, v' := View(m, blocks, free), View(m', blocks', free');
    forall p: nat
      ensures p in v && p !in g <==> p in v' && p !in c
      ensures p in v && p !in g ==> v'[p] == v[p]
    {
      FramedPointer(m, blocks, free, m', blocks', free', gone, come, p);
    }
    MapsAgree(v, v', g, c);
  }

  lemma {:induction false} ViewMore(m: Memory, blocks: Blocks, free: set<nat>, m': Memory, blocks': Blocks, free': set<nat>, a: nat)
    requires Placed(blocks, |m|) && Placed(blocks', |m'|)
    requires Framed(m, blocks, free, m', blocks', free', {}, {a}) && IsLive(blocks', free', a)
    ensures a + HEADER !in View(m, blocks, free) && a + HEADER in View(m', blocks', free')
    ensures View(m', blocks', free') - {a + HEADER} == View(m, blocks, free)
    ensures |View(m', blocks', free')[a + HEADER]| == blocks'[a]
  {
    var v, v', q := View(m, blocks, free), View(m', blocks', free'), a + HEADER;
    forall p: nat
      ensures p in v <==> p in v' && p != q
      ensures p in v ==> v'[p] == v[p]
    {
      FramedPointer(m, blocks, free, m', blocks', free', {}, {a}, p);
    }
    OneAdded(v, v', q);
  }

  lemma {:induction false} Adds(v: map<nat, seq<byte>>, v': map<nat, seq<byte>>, m: Memory, blocks: Blocks, free: set<nat>,
                                m': Memory, blocks': Blocks, free': set<nat>, a: nat)
    requires Placed(blocks, |m|) && Placed(blocks', |m'|)
    requires v == View(m, blocks, free) && v' == View(m', blocks', free')
    requires Framed(m, blocks, free, m', blocks', free', {}, {a}) && IsLive(blocks', free', a)
    ensures a + HEADER !in v && a + HEADER in v' && v' - {a + HEADER} == v && |v'[a + HEADER]| == blocks'[a]
  {
    ViewMore(m, blocks, free, m', blocks', free', a);
  }

  lemma OneAdded(v: map<nat, seq<byte>>, v': map<nat, seq<byte>>, q: nat)
    requires forall p: nat :: p in v <==> p in v' && p != q
    requires forall p: nat | p in v :: v'[p] == v[p]
    ensures v' - {q} == v
  {
  }

  lemma ViewLess(m: Memory, blocks: Blocks, free: set<nat>, m': Memory, blocks': Blocks, free': set<nat>, a: nat)
    requires Placed(blocks, |m|) && Placed(blocks', |m'|)
    requires Framed(m, blocks, free, m', blocks', free', {a}, {})
    ensures View(m', blocks', free') == View(m, blocks, free) - {a + HEADER}
  {
    FramedView(m, blocks, free, m', blocks', free', {a}, {}, {a + HEADER}, {});
    var v := View(m', blocks', free');
    assert v - {} == v;
  }

  lemma {:induction false} ViewChanged(m: Memory, blocks: Blocks, free: set<nat>, m': Memory, blocks': Blocks, free': set<nat>, a: nat)
    requires Placed(blocks, |m|) && Placed(blocks', |m'|)
    requires Framed(m, blocks, free, m', blocks', free', {a}, {a})
    requires IsLive(blocks, free, a) && IsLive(blocks', free', a)
    ensures a + HEADER in View(m, blocks, free) && a + HEADER in View(m', blocks', free')
    ensures View(m', blocks', free') == View(m, blocks, free)[a + HEADER := m'[a + HEADER..End(blocks', a)]]
  {
    var v, v', p := View(m, blocks, free), View(m', blocks', free'), a + HEADER;
    FramedView(m, blocks, free, m', blocks', free', {a}, {a}, {p}, {p});
    assert v'[p] == m'[p..End(blocks', a)];
    OneReplaced(v, v', p);
  }

  lemma OneReplaced(v: map<nat, seq<byte>>, v': map<nat, seq<byte>>, p: nat)
    requires p in v' && v' - {p} == v - {p}
    ensures v' == v[p := v'[p]]
  {
    assert v' == (v' - {p})[p := v'[p]];
    assert v[p := v'[p]] == (v - {p})[p := v'[p]];
  }

  /** One block changes size where it is and keeps what fits. */
  lemma ViewResized(m: Memory, blocks: Blocks, free: set<nat>, m': Memory, blocks': Blocks, free': set<nat>, a: nat, k: nat)
    requires Placed(blocks, |m|) && Placed(blocks', |m'|)
    requires Framed(m, blocks, free, m', blocks', free', {a}, {a})
    requires IsLive(blocks, free, a) && IsLive(blocks', free', a)
    requires k <= blocks[a] && k <= blocks'[a] && SameBytes(m, m', a + HEADER, a + HEADER + k)
    ensures a + HEADER in View(m, blocks, free) && a + HEADER in View(m', blocks', free')
    ensures View(m', blocks', free') - {a + HEADER} == View(m, blocks, free) - {a + HEADER}
    ensures |View(m, blocks, free)[a + HEADER]| == blocks[a] && |View(m', blocks', free')[a + HEADER]| == blocks'[a]
    ensures var v, v', p := View(m, blocks, free), View(m', blocks', free'), a + HEADER;
            forall i | 0 <= i < k :: v'[p][i] == v[p][i]
  {
    FramedView(m, blocks, free, m', blocks', free', {a}, {a}, {a + HEADER}, {a + HEADER});
  }

  /** Payload bytes belong to no header, so a header-only change keeps them. */
  lemma PayloadKept(m: Memory, m': Memory, blocks: Blocks, a: nat)
    requires Disjoint(blocks) && OnlyHeaders(m, m', blocks) && a in blocks
    ensures SameBytes(m, m', a + HEADER, End(blocks, a))
  {
    assert forall b | b in blocks :: b == a || Below(blocks, a, b) || Below(blocks, b, a);
  }

  // ---------------------------------------------------------------- two free blocks merge

  ghost function Absorbed(blocks: Blocks, a: nat, b: nat): Blocks
    requires a in blocks && b in blocks
  {
    (blocks - {b})[a := blocks[a] + HEADER + blocks[b]]
  }

  lemma AbsorbedShape(blocks: Blocks, a: nat, b: nat, top: nat)
    requires Disjoint(blocks) && Placed(blocks, top)
    requires a in blocks && b in blocks && End(blocks, a) == b
    ensures Disjoint(Absorbed(blocks, a, b)) && Placed(Absorbed(blocks, a, b), top)
  {
    var bl := Absorbed(blocks, a, b);
    forall c, d | c in bl && d in bl && c < d
      ensures Below(bl, c, d)
    {
      assert Below(blocks, c, d);
      assert Below(blocks, a, d) || d <= a;
      assert Below(blocks, b, d) || d <= b;
    }
  }

  lemma AbsorbedTiles(blocks: Blocks, a: nat, b: nat, owned: set<nat>)
    requires Tiles(blocks, owned)
    requires a in blocks && b in blocks && End(blocks, a) == b
    ensures Tiles(Absorbed(blocks, a, b), owned)
  {
    var bl := Absorbed(blocks, a, b);
    forall x: nat
      ensures Covers(blocks, x) <==> Covers(bl, x)
    {
      if Covers(blocks, x) {
        var c :| c in blocks && c <= x < End(blocks, c);
        assert (if c == b then a else c) in bl;
      }
      if Covers(bl, x) {
        var c :| c in bl && c <= x < End(bl, c);
        assert c in blocks;
      }
    }
  }

  /** The headers after `a` absorbed the free block `b` that follows it. */
  ghost function Merged(headers: map<nat, Header>, a: nat, b: nat): (r: map<nat, Header>)
    requires a in headers && b in headers
    ensures r.Keys == headers.Keys
  {
    var hs := headers[a := headers[a].(size := headers[a].size + HEADER + headers[b].size)];
    var hs := hs[a := hs[a].(next := headers[b].next)];
    hs[b := hs[b].(magic := 0)]
  }

  lemma MergedLinks(headers: map<nat, Header>, head: nat, free: set<nat>, a: nat, b: nat)
    requires Linked(headers, head, free)
    requires a in free && b in free && headers[a].next == b
    ensures Linked(Merged(headers, a, b), head, free - {b})
  {
    var hs := Merged(headers, a, b);
    assert IsNext(free, a, b) && IsNext(free, b, headers[b].next) by {
      assert IsNext(free, a, headers[a].next);
    }
    forall c | c in free - {b}
      ensures IsNext(free - {b}, c, hs[c].next)
    {
      assert IsNext(free, c, headers[c].next);
    }
  }

  lemma MergedMarks(headers: map<nat, Header>, blocks: Blocks, free: set<nat>, a: nat, b: nat)
    requires Marked(headers, blocks, free) && RestWiped(headers, blocks, free) && free <= blocks.Keys
    requires a in free && b in free && a != b && End(blocks, a) == b
    ensures Marked(Merged(headers, a, b), Absorbed(blocks, a, b), free - {b})
    ensures RestWiped(Merged(headers, a, b), Absorbed(blocks, a, b), free - {b})
  {
    var hs, bl, fr := Merged(headers, a, b), Absorbed(blocks, a, b), free - {b};
    assert MarkedAt(headers, blocks, free, a) && MarkedAt(headers, blocks, free, b);
    forall c | c in bl
      ensures MarkedAt(hs, bl, fr, c)
    {
      assert MarkedAt(headers, blocks, free, c);
    }
    forall w | w in hs && w !in bl
      ensures WipedAt(hs, bl, fr, w)
    {
      if w == b {
        assert a in fr && a in bl;
      } else {
        assert WipedAt(headers, blocks, free, w);
        var f :| f in free && f in blocks && f + HEADER <= w && w + HEADER <= End(blocks, f);
        assert (if f == b then a else f) in fr;
      }
    }
  }

  /** A merge of free blocks leaves the live ones alone. */
  lemma MergedLive(m: Memory, m': Memory, blocks: Blocks, free: set<nat>, a: nat, b: nat)
    requires Disjoint(blocks) && OnlyHeaders(m, m', blocks) && free <= blocks.Keys
    requires a in free && b in free && a != b
    ensures Framed(m, blocks, free, m', Absorbed(blocks, a, b), free - {b}, {}, {})
  {
    forall c: nat | IsLive(blocks, free, c)
      ensures SameBytes(m, m', c + HEADER, End(blocks, c))
    {
      PayloadKept(m, m', blocks, c);
    }
  }

  /** No free block below `cur` (NULL: none at all) ends where another one begins. */
  ghost predicate NoTouchBelow(blocks: Blocks, free: set<nat>, cur: nat) {
    forall a, b {:trigger Touches(blocks, a, b)} | a in free && b in free && (cur == 0 || a < cur) :: !Touches(blocks, a, b)
  }

  lemma MergedNoTouch(blocks: Blocks, free: set<nat>, a: nat, b: nat)
    requires NoTouchBelow(blocks, free, a) && a in blocks && b in blocks && a != 0
    ensures NoTouchBelow(Absorbed(blocks, a, b), free - {b}, a)
  {
    forall c, d | c in free - {b} && d in free - {b} && c < a
      ensures !Touches(Absorbed(blocks, a, b), c, d)
    {
      assert !Touches(blocks, c, d);
    }
  }

  /** Moving on from a free block that does not touch its successor on the list. */
  lemma NextNoTouch(blocks: Blocks, free: set<nat>, a: nat, n: nat)
    requires Disjoint(blocks) && free <= blocks.Keys && a in free && IsNext(free, a, n)
    requires NoTouchBelow(blocks, free, a)
    requires n != 0 ==> End(blocks, a) != n
    ensures NoTouchBelow(blocks, free, n)
  {
    if n != 0 {
      assert Below(blocks, a, n);
    }
  }

  /** A block that joins the free list is the only one to stop being live. */
  lemma InsertedLive(m: Memory, m': Memory, blocks: Blocks, free: set<nat>, b: nat)
    requires Disjoint(blocks) && OnlyHeaders(m, m', blocks)
    ensures Framed(m, blocks, free, m', blocks, free + {b}, {b}, {})
  {
    forall c: nat | IsLive(blocks, free, c)
      ensures SameBytes(m, m', c + HEADER, End(blocks, c))
    {
      PayloadKept(m, m', blocks, c);
    }
  }

  // ---------------------------------------------------------------- a free block is taken

  ghost predicate NoneFits(blocks: Blocks, free: set<nat>, need: nat) {
    forall f | f in free && f in blocks :: blocks[f] < need
  }

  /** `a` is the lowest free block with at least `need` bytes. */
  ghost predicate FirstFit(blocks: Blocks, free: set<nat>, need: nat, a: nat) {
    a in free && a in blocks && need <= blocks[a] && forall f | f in free && f in blocks && f < a :: blocks[f] < need
  }

  /** The live block `h` has `need` bytes, or gets them from the free block behind it. */
  ghost predicate FitsInPlace(blocks: Blocks, free: set<nat>, h: nat, need: nat) {
    && h in blocks
    && (need <= blocks[h]
        || (End(blocks, h) in free && End(blocks, h) in blocks && need <= blocks[h] + HEADER + blocks[End(blocks, h)]))
  }

  /** Shrinking the live block `h` splits off a tail that ends where a free block begins. */
  ghost predicate ShrinkTouches(blocks: Blocks, free: set<nat>, h: nat, need: nat) {
    h in blocks && need + HEADER + 32 <= blocks[h] && End(blocks, h) in free
  }

  /** The headers after the successor `cur` of `prev` (NULL for the list head) left the list. */
  ghost function Unlinked(headers: map<nat, Header>, prev: nat, cur: nat): (r: map<nat, Header>)
    requires cur in headers && (prev == 0 || prev in headers)
    ensures r.Keys == headers.Keys
  {
    var hs := if prev == 0 then headers else headers[prev := headers[prev].(next := headers[cur].next)];
    hs[cur := hs[cur].(next := 0)]
  }

  lemma UnlinkedLinks(headers: map<nat, Header>, head: nat, free: set<nat>, prev: nat, cur: nat)
    requires Linked(headers, head, free) && cur in free && IsNext(free, prev, cur)
    requires if prev == 0 then cur == head else prev in free
    ensures Linked(Unlinked(headers, prev, cur), if prev == 0 then headers[cur].next else head, free - {cur})
  {
    var hs := Unlinked(headers, prev, cur);
    assert IsNext(free, cur, headers[cur].next);
    NextSkips(free, prev, cur, headers[cur].next);
    forall a | a in free - {cur}
      ensures IsNext(free - {cur}, a, hs[a].next)
    {
      assert IsNext(free, a, headers[a].next);
      if a != prev { NextStays(free, a, headers[a].next, prev, cur); }
    }
  }

  lemma NextSkips(free: set<nat>, prev: nat, cur: nat, next: nat)
    requires 0 !in free && cur in free && IsNext(free, prev, cur) && IsNext(free, cur, next)
    ensures IsNext(free - {cur}, prev, next)
  {
  }

  lemma NextStays(free: set<nat>, a: nat, next: nat, prev: nat, cur: nat)
    requires 0 !in free && cur in free && a in free && a != cur && a != prev && (prev == 0 || prev in free)
    requires IsNext(free, a, next) && IsNext(free, prev, cur)
    ensures IsNext(free - {cur}, a, next)
  {
  }

  lemma UnlinkedMarks(headers: map<nat, Header>, blocks: Blocks, free: set<nat>, prev: nat, cur: nat)
    requires Marked(headers, blocks, free) && cur in blocks && (prev == 0 || prev in blocks)
    ensures Marked(Unlinked(headers, prev, cur), blocks, free)
  {
    forall a | a in blocks
      ensures MarkedAt(Unlinked(headers, prev, cur), blocks, free, a)
    {
      assert MarkedAt(headers, blocks, free, a);
    }
  }

  /** Clearing the free flag of a block that has left the list. */
  lemma Unflagged(headers: map<nat, Header>, blocks: Blocks, head: nat, free: set<nat>, cur: nat)
    requires Marked(headers, blocks, free) && cur in blocks && free <= blocks.Keys
    requires Linked(headers, head, free - {cur})
    ensures Marked(headers[cur := headers[cur].(free := 0)], blocks, free - {cur})
    ensures Linked(headers[cur := headers[cur].(free := 0)], head, free - {cur})
  {
    var hs := headers[cur := headers[cur].(free := 0)];
    forall a | a in blocks
      ensures MarkedAt(hs, blocks, free - {cur}, a)
    {
      assert MarkedAt(headers, blocks, free, a);
    }
    forall a | a in free - {cur}
      ensures IsNext(free - {cur}, a, hs[a].next)
    {
      assert IsNext(free - {cur}, a, headers[a].next);
    }
  }

  lemma UnlinkedLive(m: Memory, m': Memory, blocks: Blocks, free: set<nat>, cur: nat)
    requires Disjoint(blocks) && OnlyHeaders(m, m', blocks) && cur in free && cur in blocks
    ensures Framed(m, blocks, free, m', blocks, free - {cur}, {}, {cur})
  {
    forall c: nat | IsLive(blocks, free, c)
      ensures SameBytes(m, m', c + HEADER, End(blocks, c))
    {
      PayloadKept(m, m', blocks, c);
    }
  }

  // ---------------------------------------------------------------- a live block is split

  ghost function Split(blocks: Blocks, h: nat, need: nat): Blocks
    requires h in blocks && need + HEADER <= blocks[h]
  {
    blocks[h := need][h + HEADER + need := blocks[h] - need - HEADER]
  }

  lemma SplitShape(blocks: Blocks, h: nat, need: nat, top: nat)
    requires Disjoint(blocks) && Placed(blocks, top)
    requires h in blocks && need + HEADER <= blocks[h]
    ensures h + HEADER + need !in blocks && forall b | b in blocks :: Apart(h + HEADER + need, b)
    ensures Disjoint(Split(blocks, h, need)) && Placed(Split(blocks, h, need), top)
  {
    var bl, n := Split(blocks, h, need), h + HEADER + need;
    forall b | b in blocks
      ensures b != n && Apart(n, b)
    {
      assert b < h ==> Below(blocks, b, h);
      assert h < b ==> Below(blocks, h, b);
    }
    forall c, d | c in bl && d in bl && c < d
      ensures Below(bl, c, d)
    {
      if c in blocks && d in blocks {
        assert Below(blocks, c, d);
      } else if c in blocks {
        assert c < h ==> Below(blocks, c, h);
        assert h < c ==> Below(blocks, h, c);
      } else {
        assert Below(blocks, h, d);
      }
    }
  }

  lemma SplitTiles(blocks: Blocks, h: nat, need: nat, owned: set<nat>)
    requires Tiles(blocks, owned)
    requires h in blocks && need + HEADER <= blocks[h] && h + HEADER + need !in blocks
    ensures Tiles(Split(blocks, h, need), owned)
  {
    var bl, n := Split(blocks, h, need), h + HEADER + need;
    forall x: nat
      ensures Covers(blocks, x) <==> Covers(bl, x)
    {
      if Covers(blocks, x) {
        var c :| c in blocks && c <= x < End(blocks, c);
        assert (if c == h && x >= n then n else c) in bl;
      }
      if Covers(bl, x) {
        var c :| c in bl && c <= x < End(bl, c);
        assert (if c == n then h else c) in blocks;
      }
    }
  }

  /** The headers after the live block `h` was cut down to `need` bytes and its tail got a header. */
  ghost function Carved(headers: map<nat, Header>, h: nat, need: nat): map<nat, Header>
    requires h in headers && need + HEADER <= headers[h].size
  {
    var hs := headers[h + HEADER + need := Header(headers[h].size - need - HEADER, 0, MAGIC, 1)];
    hs[h := hs[h].(size := need)]
  }

  lemma CarvedMarks(headers: map<nat, Header>, blocks: Blocks, head: nat, free: set<nat>, h: nat, need: nat)
    requires Marked(headers, blocks, free) && Linked(headers, head, free) && headers.Keys == blocks.Keys
    requires h in blocks && need + HEADER <= blocks[h] && h + HEADER + need !in blocks && free <= blocks.Keys
    requires headers[h].size == blocks[h]
    ensures MarkedBut(Carved(headers, h, need), Split(blocks, h, need), free, h + HEADER + need)
    ensures Linked(Carved(headers, h, need), head, free)
    ensures Carved(headers, h, need).Keys == Split(blocks, h, need).Keys
  {
    var n := h + HEADER + need;
    assert MarkedAt(headers, blocks, free, h);
    var hs := Carved(headers, h, need);
    forall a | a in Split(blocks, h, need) && a != n
      ensures MarkedAt(hs, Split(blocks, h, need), free, a)
    {
      assert MarkedAt(headers, blocks, free, a);
    }
    forall a | a in free
      ensures IsNext(free, a, hs[a].next)
    {
      assert IsNext(free, a, headers[a].next);
    }
  }

  /** Splitting touches no live payload but the tail of the block that is split. */
  lemma SplitLive(m: Memory, m': Memory, blocks: Blocks, free: set<nat>, h: nat, need: nat)
    requires h in blocks && need + HEADER <= blocks[h] && h + HEADER + need !in blocks
    requires Disjoint(Split(blocks, h, need)) && OnlyHeaders(m, m', Split(blocks, h, need))
    requires IsLive(blocks, free, h) && free <= blocks.Keys
    ensures Framed(m, blocks, free, m', Split(blocks, h, need), free + {h + HEADER + need}, {h}, {h})
    ensures SameBytes(m, m', h + HEADER, h + HEADER + need)
  {
    var bl := Split(blocks, h, need);
    forall c: nat | IsLive(blocks, free, c)
      ensures SameBytes(m, m', c + HEADER, End(bl, c))
    {
      PayloadKept(m, m', bl, c);
    }
  }

  // ---------------------------------------------------------------- the heap grows

  ghost function Range(lo: nat, n: nat): (r: set<nat>)
    ensures forall x :: x in r <==> lo <= x < lo + n
  {
    set x: nat | lo <= x < lo + n && Within(x, lo, n)
  }

  ghost predicate Within(x: nat, lo: nat, n: nat) { lo <= x < lo + n }

  lemma GrownShape(blocks: Blocks, top: nat, a: nat, n: nat)
    requires Disjoint(blocks) && Placed(blocks, top)
    requires top <= a && 0 < a
    ensures a !in blocks && forall b | b in blocks :: Apart(a, b)
    ensures Disjoint(blocks[a := n]) && Placed(blocks[a := n], a + HEADER + n)
  {
    var bl := blocks[a := n];
    forall c, d | c in bl && d in bl && c < d
      ensures Below(bl, c, d)
    {
      if d in blocks && c in blocks {
        assert Below(blocks, c, d);
      }
    }
  }

  lemma GrownTiles(blocks: Blocks, owned: set<nat>, a: nat, n: nat)
    requires Tiles(blocks, owned) && a !in blocks
    ensures Tiles(blocks[a := n], owned + Range(a, HEADER + n))
  {
    var bl := blocks[a := n];
    forall x: nat
      ensures x in owned + Range(a, HEADER + n) <==> Covers(bl, x)
    {
      assert x in owned <==> Covers(blocks, x);
      if x in owned {
        var c :| c in blocks && c <= x < End(blocks, c);
        assert c in bl;
      }
      if x in Range(a, HEADER + n) {
        assert a in bl;
      }
      if Covers(bl, x) {
        var c :| c in bl && c <= x < End(bl, c);
        assert c == a || Covers(blocks, x);
      }
    }
  }

  lemma GrownMarks(headers: map<nat, Header>, blocks: Blocks, head: nat, free: set<nat>, a: nat, h: Header)
    requires Marked(headers, blocks, free) && Linked(headers, head, free) && free <= blocks.Keys
    requires a !in blocks && h.magic == MAGIC && h.free == 0
    ensures Marked(headers[a := h], blocks[a := h.size], free)
    ensures Linked(headers[a := h], head, free)
  {
    var hs, bl := headers[a := h], blocks[a := h.size];
    forall b | b in bl
      ensures MarkedAt(hs, bl, free, b)
    {
      assert b != a ==> MarkedAt(headers, blocks, free, b);
    }
    forall b | b in free
      ensures IsNext(free, b, hs[b].next)
    {
      assert IsNext(free, b, headers[b].next);
    }
  }

  lemma Forgotten(headers: map<nat, Header>, blocks: Blocks, head: nat, free: set<nat>)
    requires Marked(headers, blocks, free) && Linked(headers, head, free) && free <= blocks.Keys
    ensures var hs := map a | a in headers && a in blocks :: headers[a];
            Marked(hs, blocks, free) && Linked(hs, head, free)
  {
    var hs := map a | a in headers && a in blocks :: headers[a];
    forall b | b in blocks
      ensures MarkedAt(hs, blocks, free, b)
    {
      assert MarkedAt(headers, blocks, free, b);
    }
    forall b | b in free
      ensures IsNext(free, b, hs[b].next)
    {
      assert IsNext(free, b, headers[b].next);
    }
  }

  lemma GrownLive(m: Memory, m': Memory, blocks: Blocks, free: set<nat>, top: nat, a: nat, n: nat)
    requires Placed(blocks, top) && top <= a && a !in free && a !in blocks
    requires SameOutside(m, m', a)
    ensures Framed(m, blocks, free, m', blocks[a := n], free, {}, {a})
  {
  }

  // ---------------------------------------------------------------- free blocks that touch

  lemma FewerNoTouch(blocks: Blocks, free: set<nat>, cur: nat)
    requires NoTouch(blocks, free) && cur in free
    ensures NoTouch(blocks, free - {cur})
    ensures cur in blocks ==> End(blocks, cur) !in free
  {
    assert cur in blocks && End(blocks, cur) in free ==> Touches(blocks, cur, End(blocks, cur));
  }

  lemma GrownNoTouch(blocks: Blocks, free: set<nat>, top: nat, a: nat, n: nat)
    requires NoTouch(blocks, free) && Placed(blocks, top) && free <= blocks.Keys && top <= a && a !in blocks
    ensures NoTouch(blocks[a := n], free) && End(blocks[a := n], a) !in free
  {
    forall c, d | c in free && d in free
      ensures !Touches(blocks[a := n], c, d)
    {
      assert !Touches(blocks, c, d);
    }
  }

  /** A tail that is split off touches a free block exactly if the whole block did. */
  lemma SplitNoTouch(blocks: Blocks, free: set<nat>, h: nat, need: nat)
    requires NoTouch(blocks, free) && Disjoint(blocks) && h in blocks && h !in free && need + HEADER <= blocks[h]
    requires free <= blocks.Keys && h + HEADER + need !in blocks
    ensures NoTouch(Split(blocks, h, need), free + {h + HEADER + need}) <==> End(blocks, h) !in free
  {
    var t, bl := h + HEADER + need, Split(blocks, h, need);
    if End(blocks, h) in free {
      assert Touches(bl, t, End(blocks, h));
    } else {
      forall c, d | c in free + {t} && d in free + {t}
        ensures !Touches(bl, c, d)
      {
        assert c != t && d != t ==> !Touches(blocks, c, d);
        assert c != t && c < h ==> Below(blocks, c, h);
        assert c != t && h < c ==> Below(blocks, h, c);
      }
    }
  }

  lemma SwallowedNoTouch(blocks: Blocks, free: set<nat>, h: nat, n: nat)
    requires NoTouch(blocks, free) && h in blocks && h !in free && n in free && n in blocks && End(blocks, h) == n
    ensures NoTouch(Absorbed(blocks, h, n), free - {n}) && End(Absorbed(blocks, h, n), h) !in free - {n}
  {
    FewerNoTouch(blocks, free, n);
    forall c, d | c in free - {n} && d in free - {n}
      ensures !Touches(Absorbed(blocks, h, n), c, d)
    {
      assert !Touches(blocks, c, d);
    }
  }

  // ---------------------------------------------------------------- alignment

  lemma WholeEights(x: nat, y: nat)
    requires x % 8 == 0 && y % 8 == 0
    ensures (x + HEADER + y) % 8 == 0
    ensures x + HEADER <= y ==> (y - x - HEADER) % 8 == 0
  {
  }

  lemma AbsorbedAligned(blocks: Blocks, a: nat, b: nat)
    requires Aligned(blocks) && a in blocks && b in blocks
    ensures Aligned(Absorbed(blocks, a, b))
  {
    assert AlignedAt(blocks, a) && AlignedAt(blocks, b);
    WholeEights(blocks[a], blocks[b]);
    forall c | c in Absorbed(blocks, a, b)
      ensures AlignedAt(Absorbed(blocks, a, b), c)
    {
      assert AlignedAt(blocks, c);
    }
  }

  lemma SplitAligned(blocks: Blocks, h: nat, need: nat)
    requires Aligned(blocks) && h in blocks && need + HEADER <= blocks[h] && need % 8 == 0
    ensures Aligned(Split(blocks, h, need))
  {
    assert AlignedAt(blocks, h);
    WholeEights(h, need);
    WholeEights(need, blocks[h]);
    forall c | c in Split(blocks, h, need)
      ensures AlignedAt(Split(blocks, h, need), c)
    {
      assert c in blocks ==> AlignedAt(blocks, c);
    }
  }

  lemma GrownAligned(blocks: Blocks, a: nat, n: nat)
    requires Aligned(blocks) && a % 8 == 0 && n % 8 == 0
    ensures Aligned(blocks[a := n])
  {
    var bl := blocks[a := n];
    forall c | c in bl
      ensures AlignedAt(bl, c)
    {
      assert c in blocks ==> AlignedAt(blocks, c);
    }
  }

  // ---------------------------------------------------------------- a live block grows into the free block behind it

  /** The headers after the live block `h` grew to `combined` bytes over the block `n`. */
  ghost function Widened(headers: map<nat, Header>, h: nat, n: nat, combined: nat): map<nat, Header>
    requires h in headers && n in headers
  {
    var hs := headers[n := headers[n].(magic := 0)];
    var hs := hs[h := hs[h].(size := combined)];
    hs - {n}
  }

  lemma WidenedMarks(headers: map<nat, Header>, blocks: Blocks, head: nat, free: set<nat>, h: nat, n: nat, combined: nat)
    requires Marked(headers, blocks, free) && headers.Keys == blocks.Keys && free <= blocks.Keys
    requires Linked(headers, head, free - {n})
    requires IsLive(blocks, free, h) && n in free && combined == blocks[h] + HEADER + blocks[n]
    ensures Marked(Widened(headers, h, n, combined), Absorbed(blocks, h, n), free - {n})
    ensures Linked(Widened(headers, h, n, combined), head, free - {n})
    ensures Widened(headers, h, n, combined).Keys == Absorbed(blocks, h, n).Keys
  {
    var hs, bl, fr := Widened(headers, h, n, combined), Absorbed(blocks, h, n), free - {n};
    forall a | a in bl
      ensures MarkedAt(hs, bl, fr, a)
    {
      assert MarkedAt(headers, blocks, free, a);
    }
    forall a | a in fr
      ensures IsNext(fr, a, hs[a].next)
    {
      assert IsNext(fr, a, headers[a].next);
    }
  }

  lemma SwallowedLive(m: Memory, m': Memory, blocks: Blocks, free: set<nat>, h: nat, n: nat)
    requires Disjoint(blocks) && OnlyHeaders(m, m', blocks) && free <= blocks.Keys
    requires IsLive(blocks, free, h) && n in free
    ensures Framed(m, blocks, free, m', Absorbed(blocks, h, n), free - {n}, {h}, {h})
    ensures SameBytes(m, m', h + HEADER, End(blocks, h))
  {
    forall c: nat | IsLive(blocks, free, c)
      ensures SameBytes(m, m', c + HEADER, End(blocks, c))
    {
      PayloadKept(m, m', blocks, c);
    }
  }

  // ---------------------------------------------------------------- the program writes

  /** Memory after `bytes` were written at `p`. */
  function Written(m: Memory, p: nat, bytes: seq<byte>): (m': Memory)
    requires p + |bytes| <= |m|
    ensures |m'| == |m|
  {
    m[..p] + bytes + m[p + |bytes|..]
  }

  /** A write inside a live payload reaches no header and no other payload. */
  lemma WrittenPayload(m: Memory, headers: map<nat, Header>, blocks: Blocks, free: set<nat>, a: nat, bytes: seq<byte>)
    requires Mirrors(m, headers) && Disjoint(blocks) && Placed(blocks, |m|) && RestWiped(headers, blocks, free)
    requires IsLive(blocks, free, a) && |bytes| <= blocks[a] && free <= blocks.Keys
    ensures Mirrors(Written(m, a + HEADER, bytes), headers)
    ensures Framed(m, blocks, free, Written(m, a + HEADER, bytes), blocks, free, {a}, {a})
  {
    var m' := Written(m, a + HEADER, bytes);
    forall b | b in headers
      ensures HeaderAt(m', b) == headers[b]
    {
      if b in blocks {
        assert b < a ==> Below(blocks, b, a);
        assert a < b ==> Below(blocks, a, b);
      } else {
        assert WipedAt(headers, blocks, free, b);
        var f :| f in free && f in blocks && f + HEADER <= b && b + HEADER <= End(blocks, f);
        assert f < a ==> Below(blocks, f, a);
        assert a < f ==> Below(blocks, a, f);
      }
      HeaderFrame(m, m', b);
      assert HeaderAt(m, b) == headers[b];
    }
    forall c: nat | IsLive(blocks, free, c) && c != a
      ensures SameBytes(m, m', c + HEADER, End(blocks, c))
    {
      assert c < a ==> Below(blocks, c, a);
      assert a < c ==> Below(blocks, a, c);
    }
  }

  lemma WrittenSlice(m: Memory, p: nat, bytes: seq<byte>, e: nat)
    requires p + |bytes| <= e <= |m|
    ensures Written(m, p, bytes)[p..e] == bytes + m[p..e][|bytes|..]
  {
  }

  lemma WrittenView(m: Memory, blocks: Blocks, free: set<nat>, a: nat, bytes: seq<byte>)
    requires Placed(blocks, |m|) && IsLive(blocks, free, a) && |bytes| <= blocks[a]
    requires Framed(m, blocks, free, Written(m, a + HEADER, bytes), blocks, free, {a}, {a})
    ensures a + HEADER in View(m, blocks, free)
    ensures var v, p := View(m, blocks, free), a + HEADER;
            View(Written(m, p, bytes), blocks, free) == v[p := bytes + v[p][|bytes|..]]
  {
    ViewChanged(m, blocks, free, Written(m, a + HEADER, bytes), blocks, free, a);
    WrittenSlice(m, a + HEADER, bytes, End(blocks, a));
  }
}
