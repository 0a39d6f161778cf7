/** What holds over whole runs of the 6502: the status bits, the cycle count, the stack discipline. */
module Mos6502Facts {
  import opened Basics
  import opened Mos6502
  import opened Mos6502Core

  // ---------------------------------------------------------------- status bits

  lemma OperandSettled(s: Cpu, i: Instr, v: u8)
    requires Settled(s.p) && Reads(i)
    ensures Settled(WithOperand(s, i, v).p)
  {
    match i
    case Alu(k, _) => AluSettled(k, s.a, v, s.p);
    case _ =>
  }

  lemma AluSettled(k: AluOp, a: u8, v: u8, f: Flags)
    requires Settled(f)
    ensures Settled(AluByte(k, a, v, f).1)
  {
  }

  lemma ReplacedSettled(s: Cpu, i: Instr, v: u8)
    requires Settled(s.p) && Writes(i)
    ensures Settled(Replaced(s, i, v).1)
  {
  }

  lemma StackSettled(s: Cpu, i: Instr)
    requires Settled(s.p)
    ensures Calls(i) ==> Settled(Called(s, i).p)
    ensures Stacks(i) ==> Settled(Stacked(s, i).p)
  {
  }

  lemma SetSettled(s: Cpu, r: Reg, v: u8)
    requires Settled(s.p)
    ensures Settled(Set(s, r, v).p)
  {
  }

  lemma {:induction false} RestSettled(s: Cpu, i: Instr)
    requires Settled(s.p) && !Reads(i) && !Writes(i) && !Calls(i) && !Stacks(i)
    ensures Settled(Rest(s, i).p)
  {
    match i {
      case Move(from, to) => SetSettled(s, to, Get(s, from));
      case Tsx => SetSettled(s, X, s.sp);
      case Count(r, up) => SetSettled(s, r, CountBy(Get(s, r), up));
      case _ =>
    }
  }

  lemma ExecSettled(s: Cpu, i: Instr)
    requires Settled(s.p)
    ensures Settled(Exec(s, i).p)
  {
    if Reads(i) {
      OperandSettled(Skip(s, i.m), i, s.mem[Address(s, i.m)]);
    } else if Writes(i) {
      ReplacedSettled(s, i, s.mem[Address(s, i.m)]);
    } else if Calls(i) || Stacks(i) {
      StackSettled(s, i);
    } else {
      RestSettled(s, i);
    }
  }

  /** No instruction leaves bit 5 clear or the break bit set. */
  lemma PerformSettled(s: Cpu, i: Instr)
    requires Settled(s.p)
    ensures Settled(Perform(s, i).p)
  {
    ExecSettled(s.(pc := Up16(s.pc, 1)), i);
  }

  /** The machine after `n` steps of `step`. */
  function After(step: Cpu -> Cpu, s: Cpu, n: nat): Cpu {
    if n == 0 then s else step(After(step, s, n - 1))
  }

  lemma {:induction false} StaysSettled(step: Cpu -> Cpu, s: Cpu, n: nat)
    requires Settled(s.p) && forall c: Cpu {:trigger step(c)} | Settled(c.p) :: Settled(step(c).p)
    ensures Settled(After(step, s, n).p)
  {
    if n > 0 {
      StaysSettled(step, s, n - 1);
    }
  }

  /** In every run from reset on, bit 5 of `p` is set and the break bit clear. */
  lemma RunSettled(s: Cpu, n: nat)
    requires Settled(s.p)
    ensures Settled(After(Next, s, n).p)
  {
    forall c: Cpu | Settled(c.p)
      ensures Settled(Next(c).p)
    {
      PerformSettled(c, Instruction(c));
    }
    StaysSettled(Next, s, n);
  }

  lemma {:induction false} CostAddsUp(step: Cpu -> Cpu, s: Cpu, n: nat)
    requires forall c: Cpu {:trigger step(c)} :: c.cycles + 2 <= step(c).cycles <= c.cycles + 7
    ensures s.cycles + 2 * n <= After(step, s, n).cycles <= s.cycles + 7 * n
  {
    if n > 0 {
      CostAddsUp(step, s, n - 1);
    }
  }

  /** Each step takes two to seven cycles. */
  lemma RunCycles(s: Cpu, n: nat)
    ensures s.cycles + 2 * n <= After(Next, s, n).cycles <= s.cycles + 7 * n
  {
    CostAddsUp(Next, s, n);
  }

  lemma {:induction false} AfterAfter(step: Cpu -> Cpu, s: Cpu, m: nat, n: nat)
    ensures After(step, s, m + n) == After(step, After(step, s, m), n)
  {
    if n > 0 {
      AfterAfter(step, s, m, n - 1);
    }
  }

  // ---------------------------------------------------------------- brackets

  /** The four pairs of instructions that push and pull. */
  datatype Pair = PhaPla | PhpPlp | JsrRts | BrkRti

  /** How many bytes a pair keeps on the stack. */
  function Size(k: Pair): nat {
    match k case PhaPla => 1 case PhpPlp => 1 case JsrRts => 2 case BrkRti => 3
  }

  function Opener(k: Pair): Instr {
    match k case PhaPla => Pha case PhpPlp => Php case JsrRts => Jsr case BrkRti => Brk
  }

  function Closer(k: Pair): Instr {
    match k case PhaPla => Pla case PhpPlp => Plp case JsrRts => Rts case BrkRti => Rti
  }

  /** A well-bracketed run: instructions that do not use the stack, and pairs with well-bracketed runs between them. */
  datatype Trace = Done | Plain(i: Instr, rest: Trace) | Bracket(k: Pair, inner: Trace, rest: Trace)

  /** The most bytes the run has on the stack at once. */
  function Depth(t: Trace): nat {
    match t
    case Done => 0
    case Plain(_, rest) => Depth(rest)
    case Bracket(k, inner, rest) => Max(Size(k) + Depth(inner), Depth(rest))
  }

  /** From `s`, the instruction changes neither the stack register nor the stack page. */
  predicate Calm(s: Cpu, i: Instr) {
    && i != Txs && !Calls(i) && !Stacks(i)
    && (Writes(i) ==> !InStack(Address(s.(pc := Up16(s.pc, 1)), i.m)))
  }

  predicate InStack(w: int) { 0x100 <= w < 0x200 }

  /** Where a machine that steps by `step` is after the run. */
  function Follow(step: Cpu -> Cpu, s: Cpu, t: Trace): Cpu
    decreases t
  {
    match t
    case Done => s
    case Plain(_, rest) => Follow(step, step(s), rest)
    case Bracket(_, inner, rest) => Follow(step, step(Follow(step, step(s), inner)), rest)
  }

  /** The machine does make this run: it performs these instructions, and the plain ones leave the stack alone. */
  ghost predicate Makes(step: Cpu -> Cpu, s: Cpu, t: Trace)
    decreases t
  {
    match t
    case Done => true
    case Plain(i, rest) => Calm(s, i) && step(s) == Perform(s, i) && Makes(step, step(s), rest)
    case Bracket(k, inner, rest) =>
      var m := Follow(step, step(s), inner);
      && step(s) == Perform(s, Opener(k)) && Makes(step, step(s), inner)
      && step(m) == Perform(m, Closer(k)) && Makes(step, step(m), rest)
  }

  /** The `i`-th byte from the top of the stack, counting from 1. */
  function StackAt(s: Cpu, i: nat): u8
    requires i <= 256
  {
    s.mem[0x100 + Up8(s.sp, i)]
  }

  /** The `n` bytes on top of the stack are the same. */
  ghost predicate SameTop(s: Cpu, s': Cpu, n: nat)
    requires n <= 256
  {
    s'.sp == s.sp && forall i: nat {:trigger StackAt(s', i)} {:trigger StackAt(s, i)} | 0 < i <= n :: StackAt(s', i) == StackAt(s, i)
  }

  lemma CalmStep(s: Cpu, i: Instr, n: nat)
    requires Calm(s, i) && n <= 256
    ensures SameTop(s, Perform(s, i), n)
  {
  }

  lemma Pushes(s: Cpu, v: u8, i: nat)
    requires 0 < i < 256
    ensures var t := Push(s, v); t.sp == Up8(s.sp, 255) && StackAt(t, 1) == v && StackAt(t, i + 1) == StackAt(s, i)
  {
  }

  /** What an opener leaves on the stack. */
  predicate Saved(k: Pair, s: Cpu, t: Cpu) {
    match k
    case PhaPla => StackAt(t, 1) == s.a
    case PhpPlp => StackAt(t, 1) == Pushed(s.p)
    case JsrRts => StackAt(t, 1) == Low(Up16(s.pc, 2)) && StackAt(t, 2) == High(Up16(s.pc, 2))
    case BrkRti => StackAt(t, 1) == Pushed(s.p) && StackAt(t, 2) == Low(Up16(s.pc, 1)) && StackAt(t, 3) == High(Up16(s.pc, 1))
  }

  lemma Pushed2(s: Cpu, v: u8, w: u8, i: nat)
    requires 0 < i <= 254
    ensures var t := Push(Push(s, v), w);
            t.sp == Up8(s.sp, 254) && StackAt(t, 1) == w && StackAt(t, 2) == v && StackAt(t, i + 2) == StackAt(s, i)
  {
    var s1 := Push(s, v);
    Pushes(s, v, i);
    Pushes(s1, w, 1);
    Pushes(s1, w, i + 1);
  }

  lemma Pushed3(s: Cpu, u: u8, v: u8, w: u8, i: nat)
    requires 0 < i <= 253
    ensures var t := Push(Push(Push(s, u), v), w);
            && t.sp == Up8(s.sp, 253) && StackAt(t, 1) == w && StackAt(t, 2) == v && StackAt(t, 3) == u
            && StackAt(t, i + 3) == StackAt(s, i)
  {
    var s1 := Push(Push(s, u), v);
    Pushed2(s, u, v, i);
    Pushes(s1, w, 1);
    Pushes(s1, w, 2);
    Pushes(s1, w, i + 2);
  }

  /** The stack, register and page, after an opener. */
  lemma OpenerPushes(s: Cpu, k: Pair)
    ensures var t, s1 := Perform(s, Opener(k)), s.(pc := Up16(s.pc, 1));
            match k
            case PhaPla => SameStack(t, Push(s1, s.a))
            case PhpPlp => SameStack(t, Push(s1, Pushed(s.p)))
            case JsrRts => SameStack(t, Push(Push(s1, High(Up16(s.pc, 2))), Low(Up16(s.pc, 2))))
            case BrkRti => SameStack(t, Push(Push(Push(s1, High(s1.pc)), Low(s1.pc)), Pushed(s.p)))
  {
  }

  predicate SameStack(s: Cpu, t: Cpu) { s.sp == t.sp && s.mem == t.mem }

  lemma Opened(s: Cpu, k: Pair, i: nat)
    requires 0 < i <= 256 - Size(k)
    ensures var t := Perform(s, Opener(k));
            t.sp == Up8(s.sp, 256 - Size(k)) && Saved(k, s, t) && StackAt(t, i + Size(k)) == StackAt(s, i)
  {
    OpenerPushes(s, k);
    PushedBy(s, s.(pc := Up16(s.pc, 1)), Perform(s, Opener(k)), k, i);
  }

  lemma PushedBy(s: Cpu, s1: Cpu, t: Cpu, k: Pair, i: nat)
    requires 0 < i <= 256 - Size(k) && s1 == s.(pc := Up16(s.pc, 1))
    requires match k
             case PhaPla => SameStack(t, Push(s1, s.a))
             case PhpPlp => SameStack(t, Push(s1, Pushed(s.p)))
             case JsrRts => SameStack(t, Push(Push(s1, High(Up16(s.pc, 2))), Low(Up16(s.pc, 2))))
             case BrkRti => SameStack(t, Push(Push(Push(s1, High(s1.pc)), Low(s1.pc)), Pushed(s.p)))
    ensures t.sp == Up8(s.sp, 256 - Size(k)) && Saved(k, s, t) && StackAt(t, i + Size(k)) == StackAt(s, i)
  {
    match k {
      case PhaPla => Pushes(s1, s.a, i);
      case PhpPlp => Pushes(s1, Pushed(s.p), i);
      case JsrRts => Pushed2(s1, High(Up16(s.pc, 2)), Low(Up16(s.pc, 2)), i);
      case BrkRti => Pushed3(s1, High(s1.pc), Low(s1.pc), Pushed(s.p), i);
    }
  }

  /** What the closer of a pair gives back. */
  predicate Restored(k: Pair, s: Cpu, t: Cpu) {
    match k
    case PhaPla => t.a == s.a
    case PhpPlp => t.p == s.p
    case JsrRts => t.pc == Up16(s.pc, 3)
    case BrkRti => t.p == s.p && t.pc == Up16(s.pc, 1)
  }

  /** What a closer takes from the stack. */
  predicate PulledBy(k: Pair, m: Cpu, t: Cpu) {
    && t.sp == Up8(m.sp, Size(k)) && t.mem == m.mem
    && (k.PhaPla? ==> t.a == StackAt(m, 1))
    && (k.PhpPlp? || k.BrkRti? ==> t.p == Pulled(StackAt(m, 1)))
    && (k.JsrRts? ==> t.pc == Up16(Word(StackAt(m, 1), StackAt(m, 2)), 1))
    && (k.BrkRti? ==> t.pc == Word(StackAt(m, 2), StackAt(m, 3)))
  }

  lemma {:induction false} CloserPulls(m: Cpu, k: Pair)
    ensures PulledBy(k, m, Perform(m, Closer(k)))
  {
  }

  lemma FlagsBack(f: Flags, v: u8, g: Flags)
    requires Settled(f) && v == Pushed(f) && g == Pulled(v)
    ensures g == f
  {
    PulledPushed(f);
  }

  lemma CounterBack(lo: u8, hi: u8, w: u16)
    requires lo == Low(w) && hi == High(w)
    ensures Word(lo, hi) == w
  {
  }

  /** A closer that finds what its opener saved gives it back. */
  lemma Closed(s: Cpu, m: Cpu, t: Cpu, k: Pair)
    requires Saved(k, s, m) && Settled(s.p) && PulledBy(k, m, t)
    ensures Restored(k, s, t)
  {
    match k
    case PhaPla =>
    case PhpPlp => FlagsBack(s.p, StackAt(m, 1), t.p);
    case JsrRts => CounterBack(StackAt(m, 1), StackAt(m, 2), Up16(s.pc, 2));
    case BrkRti =>
      FlagsBack(s.p, StackAt(m, 1), t.p);
      CounterBack(StackAt(m, 2), StackAt(m, 3), Up16(s.pc, 1));
  }

  /**
   Every well-bracketed run of at most 256 bytes' depth brings the stack register back, and leaves the bytes that
   were on the stack before it.
   */
  lemma {:induction false} Balanced(step: Cpu -> Cpu, s: Cpu, t: Trace)
    requires Settled(s.p) && Makes(step, s, t) && Depth(t) <= 256
    ensures Settled(Follow(step, s, t).p) && SameTop(s, Follow(step, s, t), 256 - Depth(t))
    decreases t, 0
  {
    match t
    case Done =>
    case Plain(i, rest) =>
      CalmStep(s, i, 256);
      PerformSettled(s, i);
      Balanced(step, step(s), rest);
    case Bracket(k, inner, rest) =>
      Pairwise(step, s, k, inner);
      Balanced(step, step(Follow(step, step(s), inner)), rest);
  }

  /** A pair around a well-bracketed run: the register, the bytes below, and what was saved all come back. */
  lemma {:induction false} Pairwise(step: Cpu -> Cpu, s: Cpu, k: Pair, inner: Trace)
    requires Settled(s.p) && Size(k) + Depth(inner) <= 256
    requires step(s) == Perform(s, Opener(k)) && Makes(step, step(s), inner)
    requires var m := Follow(step, step(s), inner); step(m) == Perform(m, Closer(k))
    ensures var t := step(Follow(step, step(s), inner));
            Settled(t.p) && SameTop(s, t, 256 - Size(k) - Depth(inner)) && Restored(k, s, t)
    decreases inner, 1
  {
    var s1 := step(s);
    PerformSettled(s, Opener(k));
    Balanced(step, s1, inner);
    var m := Follow(step, s1, inner);
    PerformSettled(m, Closer(k));
    forall i: nat | 0 < i <= 256 - Size(k)
      ensures s1.sp == Up8(s.sp, 256 - Size(k)) && Saved(k, s, s1) && StackAt(s1, i + Size(k)) == StackAt(s, i)
    {
      Opened(s, k, i);
    }
    Opened(s, k, 1);
    CloserPulls(m, k);
    BackDown(s, s1, m, step(m), k, 256 - Depth(inner));
  }

  /** From opener to closer, given what each of them and the run between does to the stack. */
  lemma BackDown(s: Cpu, s1: Cpu, m: Cpu, t: Cpu, k: Pair, n: nat)
    requires Settled(s.p) && Size(k) <= n <= 256
    requires s1.sp == Up8(s.sp, 256 - Size(k)) && Saved(k, s, s1) && SameTop(s1, m, n) && PulledBy(k, m, t)
    requires forall i: nat | 0 < i <= 256 - Size(k) :: StackAt(s1, i + Size(k)) == StackAt(s, i)
    ensures SameTop(s, t, n - Size(k)) && Restored(k, s, t)
  {
    SavedStill(k, s, s1, m, n);
    Closed(s, m, t, k);
    TopBack(s, s1, m, t, Size(k), n);
  }

  lemma TopBack(s: Cpu, s1: Cpu, m: Cpu, t: Cpu, size: nat, n: nat)
    requires 0 < size <= n <= 256 && s1.sp == Up8(s.sp, 256 - size) && SameTop(s1, m, n)
    requires t.sp == Up8(m.sp, size) && t.mem == m.mem
    requires forall i: nat | 0 < i <= 256 - size :: StackAt(s1, i + size) == StackAt(s, i)
    ensures SameTop(s, t, n - size)
  {
    forall i: nat | 0 < i <= n - size
      ensures StackAt(t, i) == StackAt(s, i)
    {
      assert StackAt(m, i + size) == StackAt(s1, i + size);
    }
  }

  lemma SavedStill(k: Pair, s: Cpu, s1: Cpu, m: Cpu, n: nat)
    requires Saved(k, s, s1) && Size(k) <= n <= 256 && SameTop(s1, m, n)
    ensures Saved(k, s, m)
  {
    assert StackAt(m, 1) == StackAt(s1, 1);
    if Size(k) > 1 { assert StackAt(m, 2) == StackAt(s1, 2); }
    if Size(k) > 2 { assert StackAt(m, 3) == StackAt(s1, 3); }
  }

  // ---------------------------------------------------------------- the run as a number of steps

  function Steps(t: Trace): nat {
    match t
    case Done => 0
    case Plain(_, rest) => 1 + Steps(rest)
    case Bracket(_, inner, rest) => 2 + Steps(inner) + Steps(rest)
  }

  lemma StepFirst(step: Cpu -> Cpu, s: Cpu, n: nat)
    ensures After(step, s, 1 + n) == After(step, step(s), n)
  {
    AfterAfter(step, s, 1, n);
    assert After(step, s, 1) == step(After(step, s, 0));
  }

  lemma ThereAndBack(step: Cpu -> Cpu, s: Cpu, n: nat, m: Cpu, k: nat)
    requires After(step, step(s), n) == m
    ensures After(step, s, 2 + n + k) == After(step, step(m), k)
  {
    StepFirst(step, s, n);
    assert After(step, s, 1 + n + 1) == step(After(step, s, 1 + n));
    AfterAfter(step, s, 1 + n + 1, k);
  }

  lemma {:induction false} FollowSteps(step: Cpu -> Cpu, s: Cpu, t: Trace)
    ensures After(step, s, Steps(t)) == Follow(step, s, t)
    decreases t
  {
    match t
    case Done =>
    case Plain(i, rest) =>
      FollowSteps(step, step(s), rest);
      StepFirst(step, s, Steps(rest));
    case Bracket(k, inner, rest) =>
      var m := Follow(step, step(s), inner);
      FollowSteps(step, step(s), inner);
      FollowSteps(step, step(m), rest);
      ThereAndBack(step, s, Steps(inner), m, Steps(rest));
  }

  /** One pair, step by step. */
  lemma {:induction false} PairSteps(step: Cpu -> Cpu, s: Cpu, k: Pair, inner: Trace)
    requires Settled(s.p) && Makes(step, s, Bracket(k, inner, Done)) && Size(k) + Depth(inner) <= 256
    ensures var t := After(step, s, 2 + Steps(inner)); Settled(t.p) && t.sp == s.sp && Restored(k, s, t)
  {
    PairIs(step, s, inner);
    PairEnds(step, s, k, inner);
  }

  lemma {:induction false} PairIs(step: Cpu -> Cpu, s: Cpu, inner: Trace)
    ensures After(step, s, 2 + Steps(inner)) == step(Follow(step, step(s), inner))
  {
    FollowSteps(step, step(s), inner);
    OutAndIn(step, s, Steps(inner), Follow(step, step(s), inner));
  }

  lemma PairEnds(step: Cpu -> Cpu, s: Cpu, k: Pair, inner: Trace)
    requires Settled(s.p) && Makes(step, s, Bracket(k, inner, Done)) && Size(k) + Depth(inner) <= 256
    ensures Makes(step, step(s), inner)
    ensures var t := step(Follow(step, step(s), inner)); Settled(t.p) && t.sp == s.sp && Restored(k, s, t)
  {
    PairMade(step, s, k, inner);
    Pairwise(step, s, k, inner);
  }

  lemma PairMade(step: Cpu -> Cpu, s: Cpu, k: Pair, inner: Trace)
    requires Makes(step, s, Bracket(k, inner, Done))
    ensures step(s) == Perform(s, Opener(k)) && Makes(step, step(s), inner)
    ensures var m := Follow(step, step(s), inner); step(m) == Perform(m, Closer(k))
  {
  }

  lemma {:induction false} OutAndIn(step: Cpu -> Cpu, s: Cpu, n: nat, m: Cpu)
    requires After(step, step(s), n) == m
    ensures After(step, s, 2 + n) == step(m)
  {
    ThereAndBack(step, s, n, m, 0);
  }

  // ---------------------------------------------------------------- the core runs

  /** Runs the core for `n` steps. */
  method RunSteps(core: Core, n: nat)
    modifies core
    ensures core.State() == After(Next, old(core.State()), n)
  {
    var k := 0;
    while k < n
      invariant 0 <= k <= n && core.State() == After(Next, old(core.State()), k)
    {
      var cyc := core.Step();
      k := k + 1;
    }
  }

  /** A program that makes a bracketed sequence, run on the core: the stack around it is as before. */
  method RunBracketed(core: Core, ghost t: Trace, n: nat)
    requires Settled(core.p) && Makes(Next, core.State(), t) && Depth(t) <= 256 && n == Steps(t)
    modifies core
    ensures Settled(core.p) && SameTop(old(core.State()), core.State(), 256 - Depth(t))
  {
    Balanced(Next, core.State(), t);
    FollowSteps(Next, core.State(), t);
    RunSteps(core, n);
  }

  /** A call or a push, anything bracketed inside it, and its return or pull: what was saved is back. */
  method RunPair(core: Core, ghost k: Pair, ghost inner: Trace, n: nat)
    requires Settled(core.p) && Makes(Next, core.State(), Bracket(k, inner, Done)) && Size(k) + Depth(inner) <= 256
    requires n == 2 + Steps(inner)
    modifies core
    ensures Settled(core.p) && core.sp == old(core.sp) && Restored(k, old(core.State()), core.State())
  {
    PairSteps(Next, core.State(), k, inner);
    RunSteps(core, n);
  }

  /** From power-on, U is set and B is clear after any number of steps. */
  method PowerOn(ram: Ram, n: nat) returns (core: Core)
    ensures Settled(core.p) && 2 * n <= core.cycles <= 7 * n
  {
    core := new Core(ram);
    ghost var s := core.State();
    RunSettled(s, n);
    RunCycles(s, n);
    RunSteps(core, n);
  }
}
