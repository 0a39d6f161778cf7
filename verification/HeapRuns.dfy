/** Whole runs of the allocator, seen from a program that remembers what it wrote. */
module HeapRuns {
  import opened Basics
  import opened HeapMemory
  import opened HeapLayout
  import opened UserHeap
  import Facts = HeapFacts

  /**
   One call by a program that keeps its pointers in numbered slots. `gap` is how far above the break the kernel
   grants memory; `Again` frees a pointer once more that was freed since the last allocation.
   */
  datatype Op =
    | Get(slot: nat, size: nat, gap: Option<nat>)
    | GetZeroed(slot: nat, nmemb: nat, size: nat, gap: Option<nat>)
    | Adjust(slot: nat, size: nat, gap: Option<nat>)
    | Put(slot: nat, bytes: seq<byte>)
    | Drop(slot: nat)
    | Again(ptr: nat)

  /** What the program may count on in one slot: room for `room` bytes, beginning with `known`. */
  datatype Holding = Holding(room: nat, known: seq<byte>)

  /** The program's pointers, what it counts on in each, and the pointers it freed since the last allocation. */
  datatype State = State(slots: map<nat, nat>, held: map<nat, Holding>, spent: set<nat>)

  /** What the program holds after a call that did (`ok`) or did not succeed. */
  function After(held: map<nat, Holding>, op: Op, ok: bool): map<nat, Holding>
    requires WellFormed(op)
  {
    match op
    case Get(s, size, _) => if ok then held[s := Holding(Align(size), [])] else held
    case GetZeroed(s, nmemb, size, _) => if ok then held[s := Zeros(nmemb * size)] else held
    case Adjust(s, size, _) => Adjusted(held, s, Align(size), size == 0, ok)
    case Put(s, bytes) => Overwritten(held, s, bytes)
    case Drop(s) => held - {s}
    case Again(_) => held
  }

  function Zeros(n: nat): Holding {
    Holding(n, seq(n, _ => 0))
  }

  function Adjusted(held: map<nat, Holding>, s: nat, room: nat, drop: bool, ok: bool): map<nat, Holding> {
    if s !in held then (if ok then held[s := Holding(room, [])] else held)
    else if drop then held - {s}
    else if ok then held[s := Holding(room, Upto(held[s].known, room))]
    else held
  }

  function Overwritten(held: map<nat, Holding>, s: nat, bytes: seq<byte>): map<nat, Holding> {
    if s in held && |bytes| <= held[s].room then
      held[s := held[s].(known := bytes + From(held[s].known, |bytes|))]
    else held
  }

  function Upto(s: seq<byte>, n: nat): seq<byte> {
    if |s| <= n then s else s[..n]
  }

  function From(s: seq<byte>, n: nat): seq<byte> {
    if |s| <= n then [] else s[n..]
  }

  predicate WellFormed(op: Op) {
    match op
    case Get(_, size, _) => size < ADDRESSES
    case GetZeroed(_, nmemb, size, _) =>
      nmemb < ADDRESSES && size < ADDRESSES && (nmemb * size <= ADDRESSES - 16 || nmemb * size >= ADDRESSES)
    case Adjust(_, size, _) => size < ADDRESSES
    case Put(_, _) => true
    case Drop(_) => true
    case Again(_) => true
  }

  /** What the program holds after a whole run. */
  function Expected(ops: seq<Op>, oks: seq<bool>): map<nat, Holding>
    requires |ops| == |oks| && forall op | op in ops :: WellFormed(op)
  {
    if ops == [] then map[] else
      After(Expected(ops[..|ops| - 1], oks[..|oks| - 1]), ops[|ops| - 1], oks[|oks| - 1])
  }

  lemma ExpectedStep(ops: seq<Op>, oks: seq<bool>, op: Op, ok: bool)
    requires |ops| == |oks| && WellFormed(op) && forall o | o in ops :: WellFormed(o)
    ensures Expected(ops + [op], oks + [ok]) == After(Expected(ops, oks), op, ok)
  {
    assert (ops + [op])[..|ops|] == ops && (oks + [ok])[..|oks|] == oks;
  }

  /** Every slot's pointer is live, has the promised room and begins with the known bytes; pointers are distinct. */
  ghost predicate Keeps(contents: map<nat, seq<byte>>, slots: map<nat, nat>, held: map<nat, Holding>) {
    && slots.Keys == held.Keys
    && (forall s {:trigger HeldAt(contents, slots, held, s)} | s in slots :: HeldAt(contents, slots, held, s))
    && (forall s, t {:trigger Differ(slots, s, t)} | s in slots && t in slots && s != t :: Differ(slots, s, t))
  }

  ghost predicate Differ(slots: map<nat, nat>, s: nat, t: nat) {
    s in slots && t in slots && slots[s] != slots[t]
  }

  ghost predicate HeldAt(contents: map<nat, seq<byte>>, slots: map<nat, nat>, held: map<nat, Holding>, s: nat) {
    && s in slots && s in held
    && slots[s] != 0 && slots[s] in contents
    && held[s].room <= |contents[slots[s]]|
    && held[s].known <= contents[slots[s]]
  }

  /** The heap, and what the program holds in it, at one moment. */
  datatype Snap = Snap(blocks: Blocks, free: set<nat>, top: nat, limit: nat, slots: map<nat, nat>, held: map<nat, Holding>)

  ghost function Now(heap: Heap, state: State): Snap
    reads heap
  {
    Snap(heap.blocks, heap.free, heap.top, |heap.mem|, state.slots, state.held)
  }

  predicate Allocates(op: Op) { op.Get? || op.GetZeroed? || op.Adjust? }

  /** The kernel has the memory `gap` above the break. */
  predicate Grants(top: nat, limit: nat, payload: nat, gap: Option<nat>)
    requires payload < ADDRESSES
  {
    gap.Some? && Askable(payload) &&
    var a := top + gap.value; 0 < a && a % 8 == 0 && a + Total(payload) + HEADER <= limit
  }

  function Granted(top: nat, limit: nat, payload: nat, gap: Option<nat>): Option<nat>
    requires payload < ADDRESSES
  {
    if Grants(top, limit, payload, gap) then Some(top + gap.value) else None
  }

  /** The kernel's answer to a call: memory on an 8-byte boundary at or above the break, or a refusal. */
  function AnswerTo(top: nat, limit: nat, op: Op): Option<nat>
    requires WellFormed(op) && Allocates(op)
  {
    match op
    case Get(_, size, gap) => Granted(top, limit, Align(size), gap)
    case GetZeroed(_, nmemb, size, gap) => AnswerZeroed(top, limit, nmemb * size, gap)
    case Adjust(_, size, gap) => Granted(top, limit, Align(size), gap)
  }

  function AnswerZeroed(top: nat, limit: nat, total: nat, gap: Option<nat>): Option<nat> {
    if total < ADDRESSES then Granted(top, limit, Align(total), gap) else None
  }

  /** The answer is one the heap can use. */
  ghost predicate Usable(heap: Heap, op: Op, brk: Option<nat>)
    requires WellFormed(op) && Allocates(op)
    reads heap
  {
    match op
    case Get(_, size, _) => heap.Answers(brk, Align(size))
    case GetZeroed(_, nmemb, size, _) => heap.AnswersZeroed(brk, nmemb * size)
    case Adjust(_, size, _) => heap.Answers(brk, Align(size))
  }

  method Ask(heap: Heap, op: Op) returns (brk: Option<nat>)
    requires WellFormed(op) && Allocates(op)
    ensures brk == AnswerTo(heap.top, |heap.mem|, op) && Usable(heap, op, brk)
    ensures brk.Some? ==> op.gap.Some? && brk.value == heap.top + op.gap.value
  {
    brk := AnswerTo(heap.top, |heap.mem|, op);
  }

  /** When a call succeeds, given the kernel's answer. */
  ghost predicate SucceedsWith(x: Snap, op: Op, brk: Option<nat>)
    requires WellFormed(op)
  {
    match op
    case Get(_, size, _) => size != 0 && !Unserved(x.blocks, x.free, Align(size), brk)
    case GetZeroed(_, nmemb, size, _) => !NotZeroed(nmemb * size, x.blocks, x.free, brk)
    case Adjust(s, size, _) => size != 0 && (Stays(x, s, size) || !Unserved(x.blocks, x.free, Align(size), brk))
    case Put(s, bytes) => s in x.held && |bytes| <= x.held[s].room
    case Drop(_) => true
    case Again(_) => true
  }

  /** When a call succeeds. */
  ghost predicate Succeeds(x: Snap, op: Op)
    requires WellFormed(op)
  {
    SucceedsWith(x, op, if Allocates(op) then AnswerTo(x.top, x.limit, op) else None)
  }

  /** A held block that can be resized where it is. */
  ghost predicate Stays(x: Snap, s: nat, size: nat)
    requires size < ADDRESSES
  {
    s in x.slots && FitsInPlace(x.blocks, x.free, HeaderOf(x.slots[s]), Align(size))
  }

  /** Shrinks a held block whose right neighbour is free. */
  ghost predicate LeavesTouching(x: Snap, op: Op)
    requires WellFormed(op)
  {
    && op.Adjust? && op.slot in x.slots && op.size != 0
    && ShrinkTouches(x.blocks, x.free, HeaderOf(x.slots[op.slot]), Align(op.size))
  }

  /** One call: whether it succeeds, what is held afterwards, and whether free blocks touch. */
  ghost predicate Stepped(x: Snap, op: Op, ok: bool, y: Snap)
    requires WellFormed(op)
  {
    (ok <==> Succeeds(x, op)) && Went(x, op, ok, y)
  }

  ghost predicate Went(x: Snap, op: Op, ok: bool, y: Snap)
    requires WellFormed(op)
  {
    && y.held == After(x.held, op, ok)
    && (NoTouch(x.blocks, x.free) ==> (NoTouch(y.blocks, y.free) <==> !LeavesTouching(x, op)))
    && (op.Drop? && op.slot in x.slots ==> NoTouch(y.blocks, y.free))
  }

  /** The memory obtained is one stretch that begins at `start` and ends at the break. */
  ghost predicate Stretch(owned: set<nat>, top: nat, start: nat) {
    start <= top && owned == Range(start, top - start)
  }

  /** Any memory the kernel grants for this call begins at the break. */
  predicate OnBreak(op: Op) {
    (op.Get? || op.GetZeroed? || op.Adjust?) && op.gap.Some? ==> op.gap.value == 0
  }

  lemma {:induction false} StretchOn(owned: set<nat>, top: nat, brk: Option<nat>, owned': set<nat>, top': nat, start: nat)
    requires Stretch(owned, top, start) && Obtained(owned, top, brk, owned', top')
    requires brk.Some? ==> brk.value == top
    ensures Stretch(owned', top', start)
  {
  }

  /** Slot `s` now holds `p`; the other slots are untouched. */
  lemma KeepsWith(c: map<nat, seq<byte>>, c': map<nat, seq<byte>>, slots: map<nat, nat>, held: map<nat, Holding>,
                  s: nat, p: nat, h: Holding)
    requires Keeps(c, slots, held)
    requires p != 0 && p in c' && h.room <= |c'[p]| && h.known <= c'[p]
    requires forall t | t in slots && t != s :: slots[t] != p && slots[t] in c'
    requires forall t | t in slots && t != s :: slots[t] in c && c'[slots[t]] == c[slots[t]]
    ensures Keeps(c', slots[s := p], held[s := h])
  {
    var slots', held' := slots[s := p], held[s := h];
    forall t | t in slots'
      ensures HeldAt(c', slots', held', t)
    {
      assert t != s ==> HeldAt(c, slots, held, t);
    }
    forall t, u | t in slots' && u in slots' && t != u
      ensures Differ(slots', t, u)
    {
      assert t != s && u != s ==> Differ(slots, t, u);
    }
  }

  /** Slot `s` is given up; the other slots are untouched. */
  lemma KeepsWithout(c: map<nat, seq<byte>>, c': map<nat, seq<byte>>, slots: map<nat, nat>, held: map<nat, Holding>, s: nat)
    requires Keeps(c, slots, held)
    requires if s in slots then c' == c - {slots[s]} else c' == c
    ensures Keeps(c', slots - {s}, held - {s})
  {
    forall t | t in slots - {s}
      ensures HeldAt(c', slots - {s}, held - {s}, t)
    {
      assert HeldAt(c, slots, held, t) && (s in slots ==> Differ(slots, s, t));
    }
    forall t, u | t in slots - {s} && u in slots - {s} && t != u
      ensures Differ(slots - {s}, t, u)
    {
      assert Differ(slots, t, u);
    }
  }

  /** A block that was not there before joins. */
  lemma KeepsNew(c: map<nat, seq<byte>>, c': map<nat, seq<byte>>, slots: map<nat, nat>, held: map<nat, Holding>,
                 s: nat, p: nat, h: Holding)
    requires Keeps(c, slots, held)
    requires p != 0 && p in c' && p !in c && c' - {p} == c && h.room <= |c'[p]| && h.known <= c'[p]
    ensures Keeps(c', slots[s := p], held[s := h])
  {
    forall t | t in slots && t != s
      ensures slots[t] != p && slots[t] in c' && slots[t] in c && c'[slots[t]] == c[slots[t]]
    {
      assert HeldAt(c, slots, held, t);
      assert slots[t] in c' - {p};
    }
    KeepsWith(c, c', slots, held, s, p, h);
  }

  /** The block in slot `s` is resized. */
  lemma KeepsResized(c: map<nat, seq<byte>>, c': map<nat, seq<byte>>, slots: map<nat, nat>, held: map<nat, Holding>,
                     s: nat, p: nat, need: nat)
    requires Keeps(c, slots, held) && s in slots && p != 0
    requires Resized(c, c', slots[s], p, need)
    ensures Keeps(c', slots[s := p], held[s := Holding(need, Upto(held[s].known, need))])
  {
    assert HeldAt(c, slots, held, s);
    var known := Upto(held[s].known, need);
    assert forall i | 0 <= i < |known| :: c'[p][i] == c[slots[s]][i] == known[i];
    assert known <= c'[p];
    forall t | t in slots && t != s
      ensures slots[t] != p && slots[t] in c' && slots[t] in c && c'[slots[t]] == c[slots[t]]
    {
      assert HeldAt(c, slots, held, t) && Differ(slots, s, t);
      assert slots[t] in c - {slots[s]};
      assert slots[t] in c' - {p};
    }
    KeepsWith(c, c', slots, held, s, p, Holding(need, known));
  }

  /** The program writes through slot `s`. */
  lemma KeepsPut(c: map<nat, seq<byte>>, slots: map<nat, nat>, held: map<nat, Holding>, s: nat, bytes: seq<byte>)
    requires Keeps(c, slots, held) && s in slots && |bytes| <= held[s].room
    requires slots[s] in c && |bytes| <= |c[slots[s]]|
    ensures Keeps(c[slots[s] := bytes + c[slots[s]][|bytes|..]], slots,
                  held[s := held[s].(known := bytes + From(held[s].known, |bytes|))])
  {
    assert HeldAt(c, slots, held, s);
    var p := slots[s];
    var c' := c[p := bytes + c[p][|bytes|..]];
    var h := held[s].(known := bytes + From(held[s].known, |bytes|));
    assert h.known <= c'[p];
    forall t | t in slots && t != s
      ensures slots[t] != p && slots[t] in c' && slots[t] in c && c'[slots[t]] == c[slots[t]]
    {
      assert HeldAt(c, slots, held, t) && Differ(slots, s, t);
    }
    KeepsWith(c, c', slots, held, s, p, h);
    assert slots[s := p] == slots;
  }

  // ---------------------------------------------------------------- one call

  /** The heap is well formed, holds what the program counts on, and ignores its spent pointers. */
  ghost predicate Agrees(heap: Heap, state: State)
    reads heap
  {
    && heap.Valid() && Keeps(heap.Contents(), state.slots, state.held)
    && forall p | p in state.spent :: heap.Spent(p)
  }

  lemma HeldClaims(heap: Heap, state: State, s: nat)
    requires heap.Valid() && Keeps(heap.Contents(), state.slots, state.held) && s in state.slots
    ensures state.slots[s] != 0 && state.slots[s] in heap.Contents()
    ensures HEADER <= state.slots[s] <= |heap.mem| && heap.Claims(state.slots[s])
  {
    assert HeldAt(heap.Contents(), state.slots, state.held, s);
    heap.LiveClaims(state.slots[s]);
  }

  method DoGet(heap: Heap, state: State, s: nat, size: nat, brk: Option<nat>) returns (ok: bool, next: State)
    requires Agrees(heap, state) && size < ADDRESSES && heap.Answers(brk, Align(size))
    modifies heap
    ensures Agrees(heap, next)
    ensures next.held == if ok then state.held[s := Holding(Align(size), [])] else state.held
    ensures ok <==> size != 0 && !Unserved(old(heap.blocks), old(heap.free), Align(size), brk)
    ensures Obtained(old(heap.owned), old(heap.top), brk, heap.owned, heap.top)
    ensures old(NoTouch(heap.blocks, heap.free)) ==> NoTouch(heap.blocks, heap.free)
  {
    ghost var c := heap.Contents();
    var p := heap.Malloc(size, brk);
    if p == 0 { return false, State(state.slots, state.held, {}); }
    var h := Holding(Align(size), []);
    KeepsNew(c, heap.Contents(), state.slots, state.held, s, p, h);
    return true, State(state.slots[s := p], state.held[s := h], {});
  }

  method DoGetZeroed(heap: Heap, state: State, s: nat, nmemb: nat, size: nat, total: nat, brk: Option<nat>) returns (ok: bool, next: State)
    requires Agrees(heap, state) && nmemb < ADDRESSES && size < ADDRESSES && heap.AnswersZeroed(brk, total)
    requires total == nmemb * size && (total <= ADDRESSES - 16 || total >= ADDRESSES)
    modifies heap
    ensures Agrees(heap, next)
    ensures next.held == if ok then state.held[s := Zeros(total)] else state.held
    ensures ok <==> !NotZeroed(total, old(heap.blocks), old(heap.free), brk)
    ensures Obtained(old(heap.owned), old(heap.top), brk, heap.owned, heap.top)
    ensures old(NoTouch(heap.blocks, heap.free)) ==> NoTouch(heap.blocks, heap.free)
  {
    ghost var c := heap.Contents();
    var r := heap.Calloc(nmemb, size, brk);
    if !r.Block? { return false, State(state.slots, state.held, {}); }
    var h := Zeros(total);
    KeepsNew(c, heap.Contents(), state.slots, state.held, s, r.ptr, h);
    return true, State(state.slots[s := r.ptr], state.held[s := h], {});
  }

  /** The pointer in a slot, NULL for an empty one. */
  function PointerIn(state: State, s: nat): nat { if s in state.slots then state.slots[s] else 0 }

  /** Realloc of NULL. */
  method DoFirst(heap: Heap, state: State, s: nat, size: nat, brk: Option<nat>) returns (ok: bool, next: State)
    requires Agrees(heap, state) && size < ADDRESSES && s !in state.slots && heap.Answers(brk, Align(size))
    modifies heap
    ensures Agrees(heap, next)
    ensures ok <==> size != 0 && !Unserved(old(heap.blocks), old(heap.free), Align(size), brk)
    ensures next.held == if ok then state.held[s := Holding(Align(size), [])] else state.held
    ensures Obtained(old(heap.owned), old(heap.top), brk, heap.owned, heap.top)
    ensures old(NoTouch(heap.blocks, heap.free)) ==> NoTouch(heap.blocks, heap.free)
  {
    ghost var c := heap.Contents();
    var p := heap.Realloc(0, size, brk);
    if p == 0 { return false, State(state.slots, state.held, {}); }
    var h := Holding(Align(size), []);
    KeepsNew(c, heap.Contents(), state.slots, state.held, s, p, h);
    return true, State(state.slots[s := p], state.held[s := h], {});
  }

  /** Realloc to nothing. */
  method DoLast(heap: Heap, state: State, s: nat, brk: Option<nat>) returns (next: State)
    requires Agrees(heap, state) && s in state.slots && heap.Answers(brk, Align(0))
    modifies heap
    ensures Agrees(heap, next) && next.held == state.held - {s}
    ensures Obtained(old(heap.owned), old(heap.top), brk, heap.owned, heap.top)
    ensures old(NoTouch(heap.blocks, heap.free)) ==> NoTouch(heap.blocks, heap.free)
  {
    ghost var c := heap.Contents();
    HeldClaims(heap, state, s);
    var p := heap.Realloc(state.slots[s], 0, brk);
    KeepsWithout(c, heap.Contents(), state.slots, state.held, s);
    next := State(state.slots - {s}, state.held - {s}, {});
  }

  /** Realloc of a block that is held. */
  method DoResize(heap: Heap, state: State, s: nat, size: nat, brk: Option<nat>) returns (ok: bool, next: State)
    requires Agrees(heap, state) && 0 < size < ADDRESSES && s in state.slots && heap.Answers(brk, Align(size))
    modifies heap
    ensures Agrees(heap, next)
    ensures ok <==> Stays(old(Now(heap, state)), s, size) || !Unserved(old(heap.blocks), old(heap.free), Align(size), brk)
    ensures s in state.held && next.held ==
              if ok then state.held[s := Holding(Align(size), Upto(state.held[s].known, Align(size)))] else state.held
    ensures Obtained(old(heap.owned), old(heap.top), brk, heap.owned, heap.top)
    ensures old(NoTouch(heap.blocks, heap.free)) ==>
              (NoTouch(heap.blocks, heap.free) <==>
               !ShrinkTouches(old(heap.blocks), old(heap.free), HeaderOf(state.slots[s]), Align(size)))
  {
    ghost var c := heap.Contents();
    HeldClaims(heap, state, s);
    var p := heap.Realloc(state.slots[s], size, brk);
    if p == 0 { return false, State(state.slots, state.held, {}); }
    var h := Holding(Align(size), Upto(state.held[s].known, Align(size)));
    KeepsResized(c, heap.Contents(), state.slots, state.held, s, p, Align(size));
    return true, State(state.slots[s := p], state.held[s := h], {});
  }

  method DoAdjust(heap: Heap, state: State, s: nat, size: nat, brk: Option<nat>) returns (ok: bool, next: State)
    requires Agrees(heap, state) && size < ADDRESSES && heap.Answers(brk, Align(size))
    modifies heap
    ensures Agrees(heap, next)
    ensures next.held == Adjusted(state.held, s, Align(size), size == 0, ok)
    ensures ok <==> size != 0 && (Stays(old(Now(heap, state)), s, size) || !Unserved(old(heap.blocks), old(heap.free), Align(size), brk))
    ensures Obtained(old(heap.owned), old(heap.top), brk, heap.owned, heap.top)
    ensures old(NoTouch(heap.blocks, heap.free)) ==>
              (NoTouch(heap.blocks, heap.free) <==>
               !(s in state.slots && size != 0 && ShrinkTouches(old(heap.blocks), old(heap.free), HeaderOf(state.slots[s]), Align(size))))
  {
    if s !in state.slots {
      ok, next := DoFirst(heap, state, s, size, brk);
    } else if size == 0 {
      ok := false;
      next := DoLast(heap, state, s, brk);
    } else {
      ok, next := DoResize(heap, state, s, size, brk);
    }
  }

  method DoPut(heap: Heap, state: State, s: nat, bytes: seq<byte>) returns (ok: bool, next: State)
    requires Agrees(heap, state)
    modifies heap`mem
    ensures Agrees(heap, next)
    ensures next.held == Overwritten(state.held, s, bytes) && (ok <==> s in state.held && |bytes| <= state.held[s].room)
  {
    if s !in state.slots || |bytes| > state.held[s].room { return false, state; }
    assert HeldAt(heap.Contents(), state.slots, state.held, s);
    KeepsPut(heap.Contents(), state.slots, state.held, s, bytes);
    heap.Write(state.slots[s], bytes);
    var h := state.held[s].(known := bytes + From(state.held[s].known, |bytes|));
    return true, state.(held := state.held[s := h]);
  }

  method DoDrop(heap: Heap, state: State, s: nat) returns (next: State)
    requires Agrees(heap, state)
    modifies heap`mem, heap`headers, heap`blocks, heap`free, heap`head
    ensures Agrees(heap, next)
    ensures next.held == state.held - {s}
    ensures s in state.slots || old(NoTouch(heap.blocks, heap.free)) ==> NoTouch(heap.blocks, heap.free)
    ensures next.spent == state.spent + (if s in state.slots then {state.slots[s]} else {})
  {
    ghost var c := heap.Contents();
    if s in state.slots { HeldClaims(heap, state, s); }
    heap.Free(PointerIn(state, s));
    KeepsWithout(c, heap.Contents(), state.slots, state.held, s);
    next := State(state.slots - {s}, state.held - {s}, state.spent + (if s in state.slots then {state.slots[s]} else {}));
  }

  method DoAgain(heap: Heap, state: State, ptr: nat)
    requires Agrees(heap, state) && ptr in state.spent
    modifies heap`mem, heap`headers, heap`blocks, heap`free, heap`head
    ensures Agrees(heap, state) && heap.mem == old(heap.mem) && heap.head == old(heap.head)
    ensures heap.blocks == old(heap.blocks) && heap.free == old(heap.free)
  {
    heap.SpentIgnored(ptr);
    heap.Free(ptr);
  }

  method DoAllocate(heap: Heap, state: State, op: Op, brk: Option<nat>) returns (ok: bool, next: State)
    requires Agrees(heap, state) && WellFormed(op) && Allocates(op) && Usable(heap, op, brk)
    modifies heap
    ensures Agrees(heap, next) && Went(old(Now(heap, state)), op, ok, Now(heap, next))
    ensures ok <==> SucceedsWith(old(Now(heap, state)), op, brk)
    ensures Obtained(old(heap.owned), old(heap.top), brk, heap.owned, heap.top)
  {
    if op.GetZeroed? {
      ok, next := DoProduct(heap, state, op, op.nmemb * op.size, brk);
    } else {
      ok, next := DoSized(heap, state, op, brk);
    }
  }

  /** The calls that take a size. */
  method DoSized(heap: Heap, state: State, op: Op, brk: Option<nat>) returns (ok: bool, next: State)
    requires Agrees(heap, state) && (op.Get? || op.Adjust?) && op.size < ADDRESSES && heap.Answers(brk, Align(op.size))
    modifies heap
    ensures Agrees(heap, next) && Went(old(Now(heap, state)), op, ok, Now(heap, next))
    ensures ok <==> SucceedsWith(old(Now(heap, state)), op, brk)
    ensures Obtained(old(heap.owned), old(heap.top), brk, heap.owned, heap.top)
  {
    if op.Get? {
      ok, next := DoGet(heap, state, op.slot, op.size, brk);
    } else {
      ok, next := DoAdjust(heap, state, op.slot, op.size, brk);
    }
  }

  /** The call that takes a product. */
  method DoProduct(heap: Heap, state: State, op: Op, total: nat, brk: Option<nat>) returns (ok: bool, next: State)
    requires Agrees(heap, state) && WellFormed(op) && op.GetZeroed? && total == op.nmemb * op.size && heap.AnswersZeroed(brk, total)
    modifies heap
    ensures Agrees(heap, next) && Went(old(Now(heap, state)), op, ok, Now(heap, next))
    ensures ok <==> SucceedsWith(old(Now(heap, state)), op, brk)
    ensures Obtained(old(heap.owned), old(heap.top), brk, heap.owned, heap.top)
  {
    ok, next := DoGetZeroed(heap, state, op.slot, op.nmemb, op.size, total, brk);
  }

  method DoOther(heap: Heap, state: State, op: Op) returns (ok: bool, next: State)
    requires Agrees(heap, state) && WellFormed(op) && !Allocates(op)
    modifies heap`mem, heap`headers, heap`blocks, heap`free, heap`head
    ensures Agrees(heap, next) && Stepped(old(Now(heap, state)), op, ok, Now(heap, next))
  {
    ok, next := true, state;
    match op {
      case Put(s, bytes) => ok, next := DoPut(heap, state, s, bytes);
      case Drop(s) => next := DoDrop(heap, state, s);
      case Again(ptr) => if ptr in state.spent { DoAgain(heap, state, ptr); }
    }
  }

  /** One call; with answers at the break, memory in one stretch stays one. */
  method Step(heap: Heap, state: State, op: Op, ghost start: nat) returns (ok: bool, next: State)
    requires Agrees(heap, state) && WellFormed(op)
    modifies heap
    ensures Agrees(heap, next) && Stepped(old(Now(heap, state)), op, ok, Now(heap, next))
    ensures OnBreak(op) && old(Stretch(heap.owned, heap.top, start)) ==> Stretch(heap.owned, heap.top, start)
  {
    if Allocates(op) {
      var brk := Ask(heap, op);
      ok, next := DoAllocate(heap, state, op, brk);
      if OnBreak(op) && Stretch(old(heap.owned), old(heap.top), start) {
        StretchOn(old(heap.owned), old(heap.top), brk, heap.owned, heap.top, start);
      }
    } else {
      ok, next := DoOther(heap, state, op);
    }
  }

  predicate AllOnBreak(ops: seq<Op>) { forall op | op in ops :: OnBreak(op) }

  predicate NoneAdjusts(ops: seq<Op>) { forall op | op in ops :: !op.Adjust? }

  predicate AllWellFormed(ops: seq<Op>) { forall op | op in ops :: WellFormed(op) }

  /** Operation `k` of a run took the heap from the one moment to the next. */
  ghost predicate SteppedAt(seen: seq<Snap>, ops: seq<Op>, oks: seq<bool>, k: nat)
    requires AllWellFormed(ops) && |oks| == |ops|
  {
    k < |ops| && k + 1 < |seen| && Stepped(seen[k], ops[k], oks[k], seen[k + 1])
  }

  /** A run through the moments `seen`, from an empty heap. */
  ghost predicate Passed(seen: seq<Snap>, start: nat, ops: seq<Op>, oks: seq<bool>)
    requires AllWellFormed(ops)
  {
    && |oks| == |ops| && |seen| == |ops| + 1
    && seen[0].blocks == map[] && seen[0].free == {} && seen[0].top == start && seen[0].slots == map[] && seen[0].held == map[]
    && forall k: nat | k < |ops| :: SteppedAt(seen, ops, oks, k)
  }

  /** What a run has established after `ops`. */
  ghost predicate RunTo(heap: Heap, state: State, start: nat, ops: seq<Op>, oks: seq<bool>, seen: seq<Snap>)
    requires AllWellFormed(ops)
    reads heap
  {
    && Agrees(heap, state) && Passed(seen, start, ops, oks) && seen[|ops|] == Now(heap, state)
    && state.held == Expected(ops, oks)
    && (NoneAdjusts(ops) ==> NoTouch(heap.blocks, heap.free))
    && (AllOnBreak(ops) ==> Stretch(heap.owned, heap.top, start))
  }

  method Begin(m: Memory, start: nat) returns (heap: Heap, state: State, ghost seen: seq<Snap>)
    requires start + HEADER <= |m| <= ADDRESSES
    ensures fresh(heap) && RunTo(heap, state, start, [], [], seen)
  {
    heap := new Heap(m, start);
    state := State(map[], map[], {});
    seen := [Now(heap, state)];
  }

  /** One more operation. */
  method RunOne(heap: Heap, state: State, ghost start: nat, ghost before: seq<Op>, oks: seq<bool>, op: Op, ghost ops: seq<Op>,
                ghost seen: seq<Snap>)
    returns (next: State, oks': seq<bool>, ghost seen': seq<Snap>)
    requires AllWellFormed(ops) && ops == before + [op] && AllWellFormed(before) && RunTo(heap, state, start, before, oks, seen)
    modifies heap
    ensures RunTo(heap, next, start, ops, oks', seen')
  {
    var ok;
    assert op in ops && forall o | o in before :: o in ops;
    ok, next := Step(heap, state, op, start);
    ExpectedStep(before, oks, op, ok);
    oks' := oks + [ok];
    seen' := seen + [Now(heap, next)];
    PassedOne(seen, start, before, oks, op, ok, Now(heap, next));
  }

  lemma PassedOne(seen: seq<Snap>, start: nat, ops: seq<Op>, oks: seq<bool>, op: Op, ok: bool, y: Snap)
    requires AllWellFormed(ops) && WellFormed(op) && Passed(seen, start, ops, oks) && Stepped(seen[|ops|], op, ok, y)
    ensures AllWellFormed(ops + [op]) && Passed(seen + [y], start, ops + [op], oks + [ok])
  {
    forall k: nat | k < |ops + [op]|
      ensures SteppedAt(seen + [y], ops + [op], oks + [ok], k)
    {
      if k < |ops| { assert SteppedAt(seen, ops, oks, k); }
    }
  }

  method RunAll(m: Memory, start: nat, ops: seq<Op>) returns (heap: Heap, state: State, oks: seq<bool>, ghost seen: seq<Snap>)
    requires start + HEADER <= |m| <= ADDRESSES && AllWellFormed(ops)
    ensures fresh(heap) && RunTo(heap, state, start, ops, oks, seen)
    decreases |ops|
  {
    if ops == [] {
      heap, state, seen := Begin(m, start);
      oks := [];
    } else {
      var n := |ops| - 1;
      assert ops == ops[..n] + [ops[n]];
      heap, state, oks, seen := RunAll(m, start, ops[..n]);
      state, oks, seen := RunOne(heap, state, start, ops[..n], oks, ops[n], ops, seen);
    }
  }

  /**
   Whatever a program does with malloc, calloc, realloc, free and its own writes, the heap stays
   well formed and every block it holds has the room and the bytes the program counts on. `seen`
   are the moments before, between and after the calls: they say which calls succeed, and when
   free blocks touch. If the kernel always grants at the break, the heap is one stretch of
   memory, and one block once nothing is live and no free blocks touch.
   */
  method Run(m: Memory, start: nat, ops: seq<Op>) returns (heap: Heap, state: State, oks: seq<bool>, ghost seen: seq<Snap>)
    requires start + HEADER <= |m| <= ADDRESSES && AllWellFormed(ops)
    ensures Passed(seen, start, ops, oks) && seen[|ops|] == Now(heap, state)
    ensures heap.Valid() && Facts.Laws(heap)
    ensures Keeps(heap.Contents(), state.slots, Expected(ops, oks))
    ensures NoneAdjusts(ops) ==> NoTouch(heap.blocks, heap.free)
    ensures AllOnBreak(ops) ==> Stretch(heap.owned, heap.top, start)
    ensures AllOnBreak(ops) && heap.free == heap.blocks.Keys && NoTouch(heap.blocks, heap.free) && start < heap.top ==>
              OneAgain(heap, start)
  {
    heap, state, oks, seen := RunAll(m, start, ops);
    Facts.HeapLaws(heap);
    InTheEnd(heap, start);
  }

  /** All of one stretch of memory is free again: it is one block. */
  ghost predicate OneAgain(heap: Heap, start: nat)
    reads heap
  {
    heap.top - start >= HEADER && heap.blocks == map[start := heap.top - start - HEADER] && heap.free == {start}
  }

  lemma {:induction false} InTheEnd(heap: Heap, start: nat)
    requires heap.Valid()
    ensures Stretch(heap.owned, heap.top, start) && heap.free == heap.blocks.Keys && NoTouch(heap.blocks, heap.free) && start < heap.top ==>
              OneAgain(heap, start)
  {
    if Stretch(heap.owned, heap.top, start) && heap.free == heap.blocks.Keys && NoTouch(heap.blocks, heap.free) && start < heap.top {
      Facts.AllOne(heap, start, heap.top - start);
    }
  }
}
