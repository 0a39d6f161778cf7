/** Machine code in memory, run by the core: an addition loop, and comparisons with the branches that follow them. */
module Mos6502Program {
  import opened Basics
  import opened Mos6502
  import opened Mos6502Core
  import opened Mos6502Facts
  import opened Mos6502Chart

  // ---------------------------------------------------------------- the program

  /**
   CLC
   loop: LDA a,X   ADC b,X   STA r,X   INX   DEY   BNE loop
   */
  function Code(a: u16, b: u16, r: u16): seq<u8> {
    [0x18, 0xBD, a % 256, a / 256, 0x7D, b % 256, b / 256, 0x9D, r % 256, r / 256, 0xE8, 0x88, 0xD0, 0xF3]
  }

  function Place(p: u16, k: nat): u16 { Wrap16(p + k) }

  /** The program is in memory from `p` on. */
  ghost predicate Loaded(m: Ram, p: u16, a: u16, b: u16, r: u16) {
    forall k | 0 <= k < 14 :: m[Place(p, k)] == Code(a, b, r)[k]
  }

  predicate Spelled(m: Ram, p: u16, a: u16, b: u16, r: u16) {
    && Holds(m, p, 0, 0x18)
    && Holds(m, p, 1, 0xBD) && Holds(m, p, 2, a % 256) && Holds(m, p, 3, a / 256)
    && Holds(m, p, 4, 0x7D) && Holds(m, p, 5, b % 256) && Holds(m, p, 6, b / 256)
    && Holds(m, p, 7, 0x9D) && Holds(m, p, 8, r % 256) && Holds(m, p, 9, r / 256)
    && Holds(m, p, 10, 0xE8)
    && Holds(m, p, 11, 0x88)
    && Holds(m, p, 12, 0xD0) && Holds(m, p, 13, 0xF3)
  }

  lemma Spell(m: Ram, p: u16, a: u16, b: u16, r: u16)
    requires Loaded(m, p, a, b, r)
    ensures Spelled(m, p, a, b, r)
  {
    var code := Code(a, b, r);
    assert m[Place(p, 0)] == code[0] && m[Place(p, 1)] == code[1] && m[Place(p, 2)] == code[2] && m[Place(p, 3)] == code[3];
    assert m[Place(p, 4)] == code[4] && m[Place(p, 5)] == code[5] && m[Place(p, 6)] == code[6] && m[Place(p, 7)] == code[7];
    assert m[Place(p, 8)] == code[8] && m[Place(p, 9)] == code[9] && m[Place(p, 10)] == code[10] && m[Place(p, 11)] == code[11];
    assert m[Place(p, 12)] == code[12] && m[Place(p, 13)] == code[13];
  }

  predicate Holds(m: Ram, p: u16, k: nat, v: int) { m[Wrap16(p + k)] == v }

  /** The machine is `k` bytes into the program. */
  predicate At(s: Cpu, p: u16, k: nat) { s.pc == Wrap16(p + k) }

  lemma Onward(p: u16, k: nat, j: nat)
    ensures Wrap16(Wrap16(p + k) + j) == Wrap16(p + (k + j))
  {
  }

  lemma Reads3(s: Cpu, p: u16, k: nat, op: u8, w: u16)
    requires At(s, p, k) && Holds(s.mem, p, k, op) && Holds(s.mem, p, k + 1, w % 256) && Holds(s.mem, p, k + 2, w / 256)
    ensures Operand(s, 0) == op && Absolute(s) == w && Wrap16(s.pc + 3) == Wrap16(p + (k + 3))
  {
    Onward(p, k, 0);
    Onward(p, k, 1);
    Onward(p, k, 2);
    Onward(p, k, 3);
  }

  // ---------------------------------------------------------------- one instruction each

  lemma IndexedGroup(s: Cpu, aaa: nat, op: u8)
    requires aaa < 8 && op == Operand(s, 0) && op == 32 * aaa + 0x1D
    ensures Next(s) == Group1(s, aaa, 7)
  {
    OperandAt(s);
    assert op % 4 == 1 && op / 32 == aaa && op / 4 % 8 == 7;
    Chart1(s, op);
  }

  /** The absolute, X-indexed column of group one. */
  lemma Indexed(s: Cpu, aaa: nat, op: u8) returns (t: Cpu)
    requires aaa < 8 && op == Operand(s, 0) && op == 32 * aaa + 0x1D
    ensures t == Next(s)
    ensures var w := Wrap16(Absolute(s) + s.x); t == Apply1(On(s, 3, if aaa == 4 then 5 else 4), aaa, w, s.mem[w])
  {
    IndexedGroup(s, aaa, op);
    t := Group1(s, aaa, 7);
    IndexedChart(s, aaa);
  }

  lemma IndexedChart(s: Cpu, aaa: nat)
    ensures var w := Wrap16(Absolute(s) + s.x); Group1(s, aaa, 7) == Apply1(On(s, 3, if aaa == 4 then 5 else 4), aaa, w, s.mem[w])
  {
  }

  predicate Kept(s: Cpu, t: Cpu) { t.x == s.x && t.y == s.y && t.mem == s.mem }

  predicate LdaDone(s: Cpu, t: Cpu, p: u16, a: u16) {
    At(t, p, 4) && t.a == s.mem[Wrap16(a + s.x)] && Kept(s, t) && t.p.c == s.p.c && t.cycles == s.cycles + 4
  }

  predicate AdcDone(s: Cpu, t: Cpu, p: u16, b: u16) {
    At(t, p, 7) && t.a + 256 * Bit(t.p.c) == s.a + s.mem[Wrap16(b + s.x)] + Bit(s.p.c) && Kept(s, t) && t.cycles == s.cycles + 4
  }

  predicate StaDone(s: Cpu, t: Cpu, p: u16, r: u16) {
    && At(t, p, 10) && t.mem == s.mem[Wrap16(r + s.x) := s.a]
    && t.x == s.x && t.y == s.y && t.p.c == s.p.c && t.cycles == s.cycles + 5
  }

  predicate InxDone(s: Cpu, t: Cpu, p: u16) {
    At(t, p, 11) && t.x == More(s.x) && t.y == s.y && t.mem == s.mem && t.p.c == s.p.c && t.cycles == s.cycles + 2
  }

  predicate DeyDone(s: Cpu, t: Cpu, p: u16) {
    && At(t, p, 12) && t.y == Less(s.y) && (t.p.z <==> t.y == 0)
    && t.x == s.x && t.mem == s.mem && t.p.c == s.p.c && t.cycles == s.cycles + 2
  }

  predicate BneDone(s: Cpu, t: Cpu, p: u16) {
    At(t, p, if s.p.z then 14 else 1) && Kept(s, t) && t.p.c == s.p.c && t.cycles == s.cycles + 2
  }

  predicate ClcDone(s: Cpu, t: Cpu, p: u16) { At(t, p, 1) && !t.p.c && Kept(s, t) && t.cycles == s.cycles + 2 }

  lemma LdaFrom(s: Cpu, t: Cpu, p: u16, a: u16)
    requires var w := Wrap16(Absolute(s) + s.x); t == Apply1(On(s, 3, 4), 5, w, s.mem[w])
    requires Absolute(s) == a && Wrap16(s.pc + 3) == Wrap16(p + 4)
    ensures LdaDone(s, t, p, a)
  {
  }

  lemma AdcFrom(s: Cpu, t: Cpu, p: u16, b: u16)
    requires var w := Wrap16(Absolute(s) + s.x); t == Apply1(On(s, 3, 4), 3, w, s.mem[w])
    requires Absolute(s) == b && Wrap16(s.pc + 3) == Wrap16(p + 7)
    ensures AdcDone(s, t, p, b)
  {
  }

  lemma StaFrom(s: Cpu, t: Cpu, p: u16, r: u16)
    requires var w := Wrap16(Absolute(s) + s.x); t == Apply1(On(s, 3, 5), 4, w, s.mem[w])
    requires Absolute(s) == r && Wrap16(s.pc + 3) == Wrap16(p + 10)
    ensures StaDone(s, t, p, r)
  {
  }

  lemma LdaFetched(s: Cpu, p: u16, a: u16, b: u16, r: u16)
    requires Loaded(s.mem, p, a, b, r) && At(s, p, 1)
    ensures Operand(s, 0) == 0xBD && Absolute(s) == a && Wrap16(s.pc + 3) == Wrap16(p + 4)
  {
    Spell(s.mem, p, a, b, r);
    Reads3(s, p, 1, 0xBD, a);
  }

  lemma Lda(s: Cpu, p: u16, a: u16, b: u16, r: u16)
    requires Loaded(s.mem, p, a, b, r) && At(s, p, 1)
    ensures LdaDone(s, Next(s), p, a)
  {
    LdaFetched(s, p, a, b, r);
    var t := Indexed(s, 5, 0xBD);
    LdaFrom(s, t, p, a);
  }

  lemma AdcFetched(s: Cpu, p: u16, a: u16, b: u16, r: u16)
    requires Loaded(s.mem, p, a, b, r) && At(s, p, 4)
    ensures Operand(s, 0) == 0x7D && Absolute(s) == b && Wrap16(s.pc + 3) == Wrap16(p + 7)
  {
    Spell(s.mem, p, a, b, r);
    Reads3(s, p, 4, 0x7D, b);
  }

  lemma Adc(s: Cpu, p: u16, a: u16, b: u16, r: u16)
    requires Loaded(s.mem, p, a, b, r) && At(s, p, 4)
    ensures AdcDone(s, Next(s), p, b)
  {
    AdcFetched(s, p, a, b, r);
    var t := Indexed(s, 3, 0x7D);
    AdcFrom(s, t, p, b);
  }

  lemma StaFetched(s: Cpu, p: u16, a: u16, b: u16, r: u16)
    requires Loaded(s.mem, p, a, b, r) && At(s, p, 7)
    ensures Operand(s, 0) == 0x9D && Absolute(s) == r && Wrap16(s.pc + 3) == Wrap16(p + 10)
  {
    Spell(s.mem, p, a, b, r);
    Reads3(s, p, 7, 0x9D, r);
  }

  lemma Sta(s: Cpu, p: u16, a: u16, b: u16, r: u16)
    requires Loaded(s.mem, p, a, b, r) && At(s, p, 7)
    ensures StaDone(s, Next(s), p, r)
  {
    StaFetched(s, p, a, b, r);
    var t := Indexed(s, 4, 0x9D);
    StaFrom(s, t, p, r);
  }

  lemma Reads1(s: Cpu, p: u16, k: nat, op: u8)
    requires At(s, p, k) && Holds(s.mem, p, k, op)
    ensures Operand(s, 0) == op && Wrap16(s.pc + 1) == Wrap16(p + (k + 1))
  {
    Onward(p, k, 0);
    Onward(p, k, 1);
  }

  lemma InxFrom(s: Cpu, t: Cpu, p: u16)
    requires t == GetX(On(s, 1, 2), More(s.x)) && Wrap16(s.pc + 1) == Wrap16(p + 11)
    ensures InxDone(s, t, p)
  {
  }

  lemma Inx(s: Cpu, p: u16, a: u16, b: u16, r: u16)
    requires Loaded(s.mem, p, a, b, r) && At(s, p, 10)
    ensures InxDone(s, Next(s), p)
  {
    Spell(s.mem, p, a, b, r);
    Reads1(s, p, 10, 0xE8);
    OperandAt(s);
    ChartOther(s, 0xE8);
    InxFrom(s, Next(s), p);
  }

  lemma DeyFrom(s: Cpu, t: Cpu, p: u16)
    requires t == GetY(On(s, 1, 2), Less(s.y)) && Wrap16(s.pc + 1) == Wrap16(p + 12)
    ensures DeyDone(s, t, p)
  {
  }

  lemma Dey(s: Cpu, p: u16, a: u16, b: u16, r: u16)
    requires Loaded(s.mem, p, a, b, r) && At(s, p, 11)
    ensures DeyDone(s, Next(s), p)
  {
    Spell(s.mem, p, a, b, r);
    Reads1(s, p, 11, 0x88);
    OperandAt(s);
    ChartOther(s, 0x88);
    DeyFrom(s, Next(s), p);
  }

  lemma ClcFrom(s: Cpu, t: Cpu, p: u16)
    requires t == On(s, 1, 2).(p := s.p.(c := false)) && Wrap16(s.pc + 1) == Wrap16(p + 1)
    ensures ClcDone(s, t, p)
  {
  }

  lemma Clc(s: Cpu, p: u16, a: u16, b: u16, r: u16)
    requires Loaded(s.mem, p, a, b, r) && At(s, p, 0)
    ensures ClcDone(s, Next(s), p)
  {
    Spell(s.mem, p, a, b, r);
    Reads1(s, p, 0, 0x18);
    OperandAt(s);
    ChartOther(s, 0x18);
    ClcFrom(s, Next(s), p);
  }

  lemma BneFrom(s: Cpu, t: Cpu, p: u16)
    requires t == BranchIf(s, !s.p.z) && Operand(s, 1) == 0xF3 && At(s, p, 12)
    ensures BneDone(s, t, p)
  {
    Onward(p, 12, 2);
  }

  lemma BneChart(s: Cpu)
    ensures Branching(s, 0xD0) == BranchIf(s, !s.p.z)
  {
  }

  lemma BneNext(s: Cpu) returns (t: Cpu)
    requires Operand(s, 0) == 0xD0
    ensures t == Next(s) && t == BranchIf(s, !s.p.z)
  {
    t := Next(s);
    OperandAt(s);
    ChartBranch(s, 0xD0);
    BneChart(s);
  }

  lemma BneFetched(s: Cpu, p: u16, a: u16, b: u16, r: u16)
    requires Loaded(s.mem, p, a, b, r) && At(s, p, 12)
    ensures Operand(s, 0) == 0xD0 && Operand(s, 1) == 0xF3
  {
    Spell(s.mem, p, a, b, r);
    Reads1(s, p, 12, 0xD0);
    Onward(p, 12, 1);
  }

  lemma Bne(s: Cpu, p: u16, a: u16, b: u16, r: u16)
    requires Loaded(s.mem, p, a, b, r) && At(s, p, 12)
    ensures BneDone(s, Next(s), p)
  {
    BneFetched(s, p, a, b, r);
    var t := BneNext(s);
    BneFrom(s, t, p);
  }

  // ---------------------------------------------------------------- numbers in memory

  /** The number of `n` bytes at `w`, low byte first. */
  function Number(m: Ram, w: u16, n: nat): nat {
    if n == 0 then 0 else Number(m, w, n - 1) + Pow256(n - 1) * m[Wrap16(w + n - 1)]
  }

  /** `v` is one of the `n` addresses from `w` on. */
  predicate Among(v: u16, w: u16, n: nat) { Wrap16(v - w) < n }

  lemma {:induction false} NumberKept(m: Ram, w: u16, n: nat, k: nat, v: u8)
    requires n <= k < 0x1_0000
    ensures Number(m[Wrap16(w + k) := v], w, n) == Number(m, w, n)
  {
    if n > 0 {
      NumberKept(m, w, n - 1, k, v);
      Distinct(w, n - 1, k);
    }
  }

  lemma Distinct(w: u16, j: nat, k: nat)
    requires j < k < 0x1_0000
    ensures Wrap16(w + j) != Wrap16(w + k)
  {
  }

  /** Writing from `r` on reaches byte `j` of the number at `a` only after it was read. */
  predicate Clear(r: u16, a: u16, n: nat) { Wrap16(a - r) + n <= 0x1_0000 }

  /** The program is out of the way of the result. */
  predicate Aside(r: u16, p: u16, n: nat) { n <= Wrap16(p - r) <= 0x1_0000 - 14 }

  lemma NotYet(r: u16, a: u16, n: nat, j: nat)
    requires Clear(r, a, n) && j < n
    ensures !Among(Wrap16(a + j), r, j)
  {
    var d := Wrap16(a - r);
    assert Wrap16(Wrap16(a + j) - r) == d + j;
  }

  lemma Outside(r: u16, p: u16, n: nat, k: nat, j: nat)
    requires Aside(r, p, n) && k < 14 && j < n
    ensures Wrap16(p + k) != Wrap16(r + j)
  {
    assert Wrap16(Wrap16(p + k) - r) == Wrap16(p - r) + k;
    assert Wrap16(Wrap16(r + j) - r) == j;
  }

  lemma LoadedStill(m: Ram, p: u16, a: u16, b: u16, r: u16, n: nat, j: nat, v: u8)
    requires Loaded(m, p, a, b, r) && Aside(r, p, n) && j < n
    ensures Loaded(m[Wrap16(r + j) := v], p, a, b, r)
  {
    forall k | 0 <= k < 14
      ensures m[Wrap16(r + j) := v][Place(p, k)] == Code(a, b, r)[k]
    {
      Outside(r, p, n, k, j);
    }
  }

  /** Memory as it was, but for the first `i` bytes from `r` on. */
  ghost predicate Untouched(m: Ram, m': Ram, r: u16, i: nat) {
    forall w: u16 {:trigger m'[w]} | !Among(w, r, i) :: m'[w] == m[w]
  }

  lemma TouchedOne(m: Ram, m': Ram, r: u16, i: nat, v: u8)
    requires Untouched(m, m', r, i) && i < 0x1_0000
    ensures Untouched(m, m'[Wrap16(r + i) := v], r, i + 1)
  {
    assert Wrap16(Wrap16(r + i) - r) == i;
  }

  // ---------------------------------------------------------------- the loop

  /** What a step from `s` to `t` does, wherever in the program `s` is. */
  predicate Does(s: Cpu, t: Cpu, p: u16, a: u16, b: u16, r: u16) {
    && (At(s, p, 0) ==> ClcDone(s, t, p)) && (At(s, p, 1) ==> LdaDone(s, t, p, a))
    && (At(s, p, 4) ==> AdcDone(s, t, p, b)) && (At(s, p, 7) ==> StaDone(s, t, p, r))
    && (At(s, p, 10) ==> InxDone(s, t, p)) && (At(s, p, 11) ==> DeyDone(s, t, p))
    && (At(s, p, 12) ==> BneDone(s, t, p))
  }

  ghost predicate Obeys(step: Cpu -> Cpu, p: u16, a: u16, b: u16, r: u16) {
    forall s: Cpu {:trigger step(s)} | Loaded(s.mem, p, a, b, r) :: Does(s, step(s), p, a, b, r)
  }

  lemma NextDoes(s: Cpu, p: u16, a: u16, b: u16, r: u16)
    requires Loaded(s.mem, p, a, b, r)
    ensures Does(s, Next(s), p, a, b, r)
  {
    if At(s, p, 0) { Clc(s, p, a, b, r); }
    if At(s, p, 1) { Lda(s, p, a, b, r); }
    if At(s, p, 4) { Adc(s, p, a, b, r); }
    if At(s, p, 7) { Sta(s, p, a, b, r); }
    if At(s, p, 10) { Inx(s, p, a, b, r); }
    if At(s, p, 11) { Dey(s, p, a, b, r); }
    if At(s, p, 12) { Bne(s, p, a, b, r); }
  }

  lemma NextObeys(p: u16, a: u16, b: u16, r: u16)
    ensures Obeys(Next, p, a, b, r)
  {
    forall s: Cpu | Loaded(s.mem, p, a, b, r)
      ensures Does(s, Next(s), p, a, b, r)
    {
      NextDoes(s, p, a, b, r);
    }
  }

  /** After `i` rounds of the loop, of `n`. */
  ghost predicate Round(s: Cpu, p: u16, a: u16, b: u16, r: u16, n: nat, i: nat, m: Ram, start: nat) {
    && i <= n && At(s, p, if i < n then 1 else 14) && Loaded(s.mem, p, a, b, r)
    && s.x == Wrap8(i) && s.y == Wrap8(n - i) && s.cycles == start + 19 * i
    && LowBytes(m, s.mem, a, b, r, i, s.p.c)
  }

  /** The low `i` bytes of the sum are there, and nothing else has changed. */
  ghost predicate LowBytes(m: Ram, m': Ram, a: u16, b: u16, r: u16, i: nat, c: bool) {
    Untouched(m, m', r, i) && Number(m', r, i) + Pow256(i) * Bit(c) == Number(m, a, i) + Number(m, b, i)
  }

  predicate ByteAdded(s: Cpu, t: Cpu, p: u16, a: u16, b: u16, r: u16, d: u8) {
    && At(t, p, 10) && t.mem == s.mem[Wrap16(r + s.x) := d]
    && d + 256 * Bit(t.p.c) == s.mem[Wrap16(a + s.x)] + s.mem[Wrap16(b + s.x)] + Bit(s.p.c)
    && t.x == s.x && t.y == s.y && t.cycles == s.cycles + 13
  }

  predicate RoundCounted(s: Cpu, t: Cpu, p: u16) {
    && t.mem == s.mem && t.p.c == s.p.c && t.cycles == s.cycles + 6
    && t.x == More(s.x) && t.y == Less(s.y) && At(t, p, if t.y == 0 then 14 else 1)
  }

  /** The three instructions that add a byte. */
  lemma AddsByte(step: Cpu -> Cpu, s: Cpu, p: u16, a: u16, b: u16, r: u16) returns (t: Cpu, d: u8)
    requires Obeys(step, p, a, b, r) && Loaded(s.mem, p, a, b, r) && At(s, p, 1)
    ensures t == step(step(step(s))) && ByteAdded(s, t, p, a, b, r, d)
  {
    var s1 := step(s);
    assert LdaDone(s, s1, p, a);
    var s2 := step(s1);
    assert AdcDone(s1, s2, p, b);
    t, d := step(s2), s2.a;
    assert StaDone(s2, t, p, r);
  }

  /** The three that count. */
  lemma CountsRound(step: Cpu -> Cpu, s: Cpu, p: u16, a: u16, b: u16, r: u16) returns (t: Cpu)
    requires Obeys(step, p, a, b, r) && Loaded(s.mem, p, a, b, r) && At(s, p, 10)
    ensures t == step(step(step(s))) && RoundCounted(s, t, p)
  {
    var s1 := step(s);
    assert InxDone(s, s1, p);
    var s2 := step(s1);
    assert DeyDone(s1, s2, p);
    t := step(s2);
    assert BneDone(s2, t, p);
  }

  lemma Carried(n: nat, p: nat, d: int, c': int, a: int, b: int, c: int, na: nat, nb: nat)
    requires n + p * c == na + nb && d + 256 * c' == a + b + c
    ensures n + p * d + 256 * p * c' == na + p * a + (nb + p * b)
  {
    assert p * (d + 256 * c') == p * d + 256 * p * c';
    assert p * (a + b + c) == p * a + p * b + p * c;
  }

  lemma Grown(m: Ram, m': Ram, m'': Ram, a: u16, b: u16, r: u16, n: nat, i: nat, c: bool, c': bool, d: u8)
    requires i < n <= 256 && Clear(r, a, n) && Clear(r, b, n) && LowBytes(m, m', a, b, r, i, c)
    requires m'' == m'[Wrap16(r + i) := d] && d + 256 * Bit(c') == m'[Wrap16(a + i)] + m'[Wrap16(b + i)] + Bit(c)
    ensures LowBytes(m, m'', a, b, r, i + 1, c')
  {
    NotYet(r, a, n, i);
    NotYet(r, b, n, i);
    NumberKept(m', r, i, i, d);
    TouchedOne(m, m', r, i, d);
    Carried(Number(m', r, i), Pow256(i), d, Bit(c'), m[Wrap16(a + i)], m[Wrap16(b + i)], Bit(c), Number(m, a, i), Number(m, b, i));
  }

  lemma CountersMove(n: nat, i: nat, x: u8, y: u8)
    requires i < n <= 256 && x == Wrap8(i) && y == Wrap8(n - i)
    ensures x == i && More(x) == Wrap8(i + 1) && Less(y) == Wrap8(n - (i + 1)) && (Less(y) == 0 <==> i + 1 == n)
  {
  }

  lemma RoundMade(s: Cpu, t: Cpu, u: Cpu, p: u16, a: u16, b: u16, r: u16, n: nat, i: nat, m: Ram, start: nat, d: u8)
    requires Round(s, p, a, b, r, n, i, m, start) && i < n <= 256
    requires Clear(r, a, n) && Clear(r, b, n) && Aside(r, p, n)
    requires ByteAdded(s, t, p, a, b, r, d) && RoundCounted(t, u, p)
    ensures Round(u, p, a, b, r, n, i + 1, m, start)
  {
    CountersMove(n, i, s.x, s.y);
    LoadedStill(s.mem, p, a, b, r, n, i, d);
    Grown(m, s.mem, t.mem, a, b, r, n, i, s.p.c, t.p.c, d);
  }

  lemma StillLoaded(s: Cpu, t: Cpu, p: u16, a: u16, b: u16, r: u16, n: nat, i: nat, m: Ram, start: nat, d: u8)
    requires Round(s, p, a, b, r, n, i, m, start) && i < n <= 256 && Aside(r, p, n) && ByteAdded(s, t, p, a, b, r, d)
    ensures Loaded(t.mem, p, a, b, r)
  {
    CountersMove(n, i, s.x, s.y);
    LoadedStill(s.mem, p, a, b, r, n, i, d);
  }

  lemma {:induction false} RoundAgain(step: Cpu -> Cpu, s: Cpu, p: u16, a: u16, b: u16, r: u16, n: nat, i: nat, m: Ram, start: nat)
    requires Obeys(step, p, a, b, r) && Round(s, p, a, b, r, n, i, m, start) && i < n <= 256
    requires Clear(r, a, n) && Clear(r, b, n) && Aside(r, p, n)
    ensures Round(After(step, s, 6), p, a, b, r, n, i + 1, m, start)
  {
    var t, d := AddsByte(step, s, p, a, b, r);
    StillLoaded(s, t, p, a, b, r, n, i, m, start, d);
    var u := CountsRound(step, t, p, a, b, r);
    RoundMade(s, t, u, p, a, b, r, n, i, m, start, d);
    Six(step, s);
  }

  lemma Six(step: Cpu -> Cpu, s: Cpu)
    ensures After(step, s, 6) == step(step(step(step(step(step(s))))))
  {
    assert After(step, s, 1) == step(s);
    assert After(step, s, 2) == step(step(s));
    assert After(step, s, 3) == step(step(step(s)));
    assert After(step, s, 4) == step(step(step(step(s))));
  }

  lemma {:induction false} Rounds(step: Cpu -> Cpu, s: Cpu, p: u16, a: u16, b: u16, r: u16, n: nat, i: nat, m: Ram, start: nat)
    requires Obeys(step, p, a, b, r) && Round(s, p, a, b, r, n, 0, m, start) && i <= n && 0 < n <= 256
    requires Clear(r, a, n) && Clear(r, b, n) && Aside(r, p, n)
    ensures Round(After(step, s, 6 * i), p, a, b, r, n, i, m, start)
  {
    if i > 0 {
      Rounds(step, s, p, a, b, r, n, i - 1, m, start);
      var u := SixMore(step, s, i - 1);
      RoundAgain(step, u, p, a, b, r, n, i - 1, m, start);
    }
  }

  lemma SixMore(step: Cpu -> Cpu, s: Cpu, j: nat) returns (u: Cpu)
    ensures u == After(step, s, 6 * j) && After(step, s, 6 * (j + 1)) == After(step, u, 6)
  {
    u := After(step, s, 6 * j);
    AfterAfter(step, s, 6 * j, 6);
  }

  ghost predicate Ready(s: Cpu, p: u16, a: u16, b: u16, r: u16, n: nat) {
    && 0 < n <= 256 && Loaded(s.mem, p, a, b, r) && s.pc == p && s.x == 0 && s.y == n % 256
    && Clear(r, a, n) && Clear(r, b, n) && Aside(r, p, n)
  }

  /** The result, with the carry on top, is the sum of the two numbers, and nothing else is written. */
  ghost predicate Summed(s: Cpu, t: Cpu, p: u16, a: u16, b: u16, r: u16, n: nat) {
    && Number(t.mem, r, n) + Pow256(n) * Bit(t.p.c) == Number(s.mem, a, n) + Number(s.mem, b, n)
    && Untouched(s.mem, t.mem, r, n) && t.pc == Wrap16(p + 14) && t.cycles == s.cycles + 2 + 19 * n
  }

  lemma Begins(s: Cpu, t: Cpu, p: u16, a: u16, b: u16, r: u16, n: nat)
    requires Ready(s, p, a, b, r, n) && ClcDone(s, t, p)
    ensures Round(t, p, a, b, r, n, 0, s.mem, s.cycles + 2)
  {
  }

  lemma Ends(s: Cpu, t: Cpu, p: u16, a: u16, b: u16, r: u16, n: nat)
    requires Round(t, p, a, b, r, n, n, s.mem, s.cycles + 2)
    ensures Summed(s, t, p, a, b, r, n)
  {
  }

  lemma {:induction false} SumsBy(step: Cpu -> Cpu, s: Cpu, p: u16, a: u16, b: u16, r: u16, n: nat)
    requires Obeys(step, p, a, b, r) && Ready(s, p, a, b, r, n)
    ensures Summed(s, After(step, s, 1 + 6 * n), p, a, b, r, n)
  {
    var t := step(s);
    Begins(s, t, p, a, b, r, n);
    Rounds(step, t, p, a, b, r, n, n, s.mem, s.cycles + 2);
    OneFirst(step, s, 6 * n);
    Ends(s, After(step, t, 6 * n), p, a, b, r, n);
  }

  lemma OneFirst(step: Cpu -> Cpu, s: Cpu, k: nat)
    ensures After(step, s, 1 + k) == After(step, step(s), k)
  {
    AfterAfter(step, s, 1, k);
    assert After(step, s, 0) == s;
  }

  /** The program adds. */
  lemma {:induction false} Sums(s: Cpu, p: u16, a: u16, b: u16, r: u16, n: nat)
    requires Ready(s, p, a, b, r, n)
    ensures Summed(s, After(Next, s, 1 + 6 * n), p, a, b, r, n)
  {
    NextObeys(p, a, b, r);
    SumsBy(Next, s, p, a, b, r, n);
  }

  lemma Reached(s: Cpu, t: Cpu, p: u16, a: u16, b: u16, r: u16, n: nat)
    requires Ready(s, p, a, b, r, n) && t == After(Next, s, 1 + 6 * n)
    ensures Summed(s, t, p, a, b, r, n)
  {
    Sums(s, p, a, b, r, n);
  }

  /** The core, run on the program. */
  method AddInMemory(core: Core, p: u16, a: u16, b: u16, r: u16, n: nat)
    requires Ready(core.State(), p, a, b, r, n)
    modifies core
    ensures Summed(old(core.State()), core.State(), p, a, b, r, n)
  {
    ghost var s := core.State();
    RunSteps(core, 1 + 6 * n);
    Reached(s, core.State(), p, a, b, r, n);
  }

  // ---------------------------------------------------------------- comparing

  /** CMP in any of its eight modes. */
  predicate IsCmp(op: u8) { op % 4 == 1 && op / 32 == 6 }

  /** The byte it compares with, and its length. */
  function Compared(s: Cpu): u8 { s.mem[Place1(s, Operand(s, 0) / 4 % 8)] }

  function CmpLength(s: Cpu): nat { Length1(Operand(s, 0) / 4 % 8) }

  predicate CmpDone(s: Cpu, t: Cpu) {
    && t.pc == Wrap16(s.pc + CmpLength(s)) && t.mem == s.mem
    && (t.p.z <==> s.a == Compared(s)) && (t.p.c <==> s.a >= Compared(s))
  }

  lemma CmpFlags(s: Cpu)
    requires IsCmp(Operand(s, 0))
    ensures CmpDone(s, Next(s))
  {
    var t := CmpNext(s, Operand(s, 0) / 4 % 8);
    CmpFrom(s, t, Operand(s, 0) / 4 % 8);
  }

  lemma CmpNext(s: Cpu, bbb: nat) returns (t: Cpu)
    requires IsCmp(Operand(s, 0)) && bbb == Operand(s, 0) / 4 % 8
    ensures t == Next(s) && t == Apply1(On(s, Length1(bbb), Reading1(bbb)), 6, Place1(s, bbb), s.mem[Place1(s, bbb)])
  {
    t := Next(s);
    OperandAt(s);
    Chart1(s, Operand(s, 0));
  }

  lemma CmpFrom(s: Cpu, t: Cpu, bbb: nat)
    requires bbb == Operand(s, 0) / 4 % 8 && t == Apply1(On(s, Length1(bbb), Reading1(bbb)), 6, Place1(s, bbb), s.mem[Place1(s, bbb)])
    ensures CmpDone(s, t)
  {
  }

  /** Where a branch at `w` goes when it is taken. */
  function Goal(m: Ram, w: u16): u16 { Wrap16(w + 2 + Signed(m[Wrap16(w + 1)])) }

  function FlagOfBranch(f: Flags, op: u8): bool {
    match op / 64 case 0 => f.n case 1 => f.v case 2 => f.c case _ => f.z
  }

  predicate BranchDone(s: Cpu, t: Cpu, op: u8) {
    t.pc == if FlagOfBranch(s.p, op) == (op / 32 % 2 == 1) then Goal(s.mem, s.pc) else Wrap16(s.pc + 2)
  }

  lemma BranchGoes(s: Cpu, op: u8)
    requires op == Operand(s, 0) && IsBranch(op)
    ensures BranchDone(s, Next(s), op)
  {
    OperandAt(s);
    ChartBranch(s, op);
    BranchGoal(s, FlagOfBranch(s.p, op) == (op / 32 % 2 == 1), Next(s));
  }

  lemma BranchGoal(s: Cpu, taken: bool, t: Cpu)
    requires t == BranchIf(s, taken)
    ensures t.pc == if taken then Goal(s.mem, s.pc) else Wrap16(s.pc + 2)
  {
  }

  /** Taken when the bytes are equal (BEQ), when the register is less (BCC), when it is not (BCS). */
  predicate Decided(s: Cpu, t: Cpu, op: u8) {
    var w := Wrap16(s.pc + CmpLength(s));
    var yes := if op == 0xF0 then s.a == Compared(s) else if op == 0x90 then s.a < Compared(s) else s.a >= Compared(s);
    t.pc == if yes then Goal(s.mem, w) else Wrap16(w + 2)
  }

  lemma Decides(s: Cpu, t: Cpu, u: Cpu, op: u8)
    requires CmpDone(s, t) && BranchDone(t, u, op) && (op == 0xF0 || op == 0x90 || op == 0xB0)
    ensures Decided(s, u, op)
  {
  }

  /** A comparison, in any mode, and the branch behind it. */
  lemma CompareAndBranch(s: Cpu, op: u8)
    requires IsCmp(Operand(s, 0)) && op == Operand(s, CmpLength(s)) && (op == 0xF0 || op == 0x90 || op == 0xB0)
    ensures Decided(s, After(Next, s, 2), op)
  {
    CmpFlags(s);
    var t := Next(s);
    BranchNext(s, t, op);
    BranchGoes(t, op);
    Decides(s, t, Next(t), op);
    Two(Next, s);
  }

  lemma BranchNext(s: Cpu, t: Cpu, op: u8)
    requires CmpDone(s, t) && op == Operand(s, CmpLength(s))
    ensures op == Operand(t, 0)
  {
    Onward(s.pc, CmpLength(s), 0);
  }

  lemma Two(step: Cpu -> Cpu, s: Cpu)
    ensures After(step, s, 2) == step(step(s))
  {
    assert After(step, s, 1) == step(s);
  }

  /** The same on the core. */
  method RunCompare(core: Core, ghost op: u8)
    requires IsCmp(Operand(core.State(), 0)) && op == Operand(core.State(), CmpLength(core.State()))
    requires op == 0xF0 || op == 0x90 || op == 0xB0
    modifies core
    ensures Decided(old(core.State()), core.State(), op)
  {
    CompareAndBranch(core.State(), op);
    RunSteps(core, 2);
  }
}
