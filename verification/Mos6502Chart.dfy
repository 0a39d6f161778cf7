/**
 What a step does, read off the bits of the opcode byte: the top three choose the operation, the next three the
 addressing mode, the low two the group. Written with remainders and signed numbers, apart from the decoder.
 */
module Mos6502Chart {
  import opened Basics
  import opened ByteBits
  import opened Mos6502
  import opened Mos6502Core

  // ---------------------------------------------------------------- operands

  function Wrap8(n: int): u8 { n % 256 }

  function Wrap16(n: int): u16 { n % 0x1_0000 }

  function More(v: u8): u8 { if v == 255 then 0 else v + 1 }

  function Less(v: u8): u8 { if v == 0 then 255 else v - 1 }

  function LowHigh(lo: u8, hi: u8): u16 { lo + 256 * hi }

  /** The byte `k` places after the opcode. */
  function Operand(s: Cpu, k: nat): u8 { s.mem[Wrap16(s.pc + k)] }

  /** The two bytes after the opcode. */
  function Absolute(s: Cpu): u16 { LowHigh(Operand(s, 1), Operand(s, 2)) }

  /** The word in the zero page, which wraps there. */
  function ZeroWord(s: Cpu, z: u8): u16 { LowHigh(s.mem[z], s.mem[Wrap8(z + 1)]) }

  function Signed(v: u8): int { if v < 128 then v else v - 256 }

  /** The effective address of mode `bbb` in group one. */
  function Place1(s: Cpu, bbb: nat): u16 {
    match bbb
    case 0 => ZeroWord(s, Wrap8(Operand(s, 1) + s.x))
    case 1 => Operand(s, 1)
    case 2 => Wrap16(s.pc + 1)
    case 3 => Absolute(s)
    case 4 => Wrap16(ZeroWord(s, Operand(s, 1)) + s.y)
    case 5 => Wrap8(Operand(s, 1) + s.x)
    case 6 => Wrap16(Absolute(s) + s.y)
    case _ => Wrap16(Absolute(s) + s.x)
  }

  /** The effective address of mode `bbb` in the other groups, indexed by `index`. */
  function Place2(s: Cpu, bbb: nat, index: u8): u16 {
    match bbb
    case 0 => Wrap16(s.pc + 1)
    case 1 => Operand(s, 1)
    case 3 => Absolute(s)
    case 5 => Wrap8(Operand(s, 1) + index)
    case _ => Wrap16(Absolute(s) + index)
  }

  /** On to the instruction `len` bytes further. */
  function On(s: Cpu, len: nat, cyc: nat): Cpu { s.(pc := Wrap16(s.pc + len), cycles := s.cycles + cyc) }

  /** Modes three, six and seven have two operand bytes. */
  function Length1(bbb: nat): nat { if bbb == 3 || bbb == 6 || bbb == 7 then 3 else 2 }

  function Length2(bbb: nat): nat { if bbb == 3 || bbb == 7 then 3 else 2 }

  function Reading1(bbb: nat): nat {
    match bbb case 0 => 6 case 1 => 3 case 2 => 2 case 4 => 5 case _ => 4
  }

  function Writing1(bbb: nat): nat {
    match bbb case 0 => 6 case 1 => 3 case 4 => 6 case 6 => 5 case 7 => 5 case _ => 4
  }

  function Reading2(bbb: nat): nat {
    match bbb case 0 => 2 case 1 => 3 case _ => 4
  }

  function Changing2(bbb: nat): nat {
    match bbb case 1 => 5 case 7 => 7 case _ => 6
  }

  // ---------------------------------------------------------------- operations

  /** Z and N by a result. */
  function Judged(f: Flags, v: u8): Flags { f.(z := v == 0, n := Signed(v) < 0) }

  predicate Digit(v: u8, weight: nat)
    requires weight > 0
  {
    v / weight % 2 == 1
  }

  /** The byte with these digits, the lowest first. */
  function Byte(p0: bool, p1: bool, p2: bool, p3: bool, p4: bool, p5: bool, p6: bool, p7: bool): u8 {
    Bit(p0) + 2 * Bit(p1) + 4 * Bit(p2) + 8 * Bit(p3) + 16 * Bit(p4) + 32 * Bit(p5) + 64 * Bit(p6) + 128 * Bit(p7)
  }

  function Both(a: u8, v: u8): u8 {
    Byte(Digit(a, 1) && Digit(v, 1), Digit(a, 2) && Digit(v, 2), Digit(a, 4) && Digit(v, 4), Digit(a, 8) && Digit(v, 8),
         Digit(a, 16) && Digit(v, 16), Digit(a, 32) && Digit(v, 32), Digit(a, 64) && Digit(v, 64), Digit(a, 128) && Digit(v, 128))
  }

  function Either(a: u8, v: u8): u8 {
    Byte(Digit(a, 1) || Digit(v, 1), Digit(a, 2) || Digit(v, 2), Digit(a, 4) || Digit(v, 4), Digit(a, 8) || Digit(v, 8),
         Digit(a, 16) || Digit(v, 16), Digit(a, 32) || Digit(v, 32), Digit(a, 64) || Digit(v, 64), Digit(a, 128) || Digit(v, 128))
  }

  function Differ(a: u8, v: u8): u8 {
    Byte(Digit(a, 1) != Digit(v, 1), Digit(a, 2) != Digit(v, 2), Digit(a, 4) != Digit(v, 4), Digit(a, 8) != Digit(v, 8),
         Digit(a, 16) != Digit(v, 16), Digit(a, 32) != Digit(v, 32), Digit(a, 64) != Digit(v, 64), Digit(a, 128) != Digit(v, 128))
  }

  /** The sum of `a`, `v` and the carry; V when the signed sum does not fit. */
  function Added(s: Cpu, v: u8): Cpu {
    var sum, signed := s.a + v + Bit(s.p.c), Signed(s.a) + Signed(v) + Bit(s.p.c);
    s.(a := Wrap8(sum), p := Judged(s.p.(c := sum >= 256, v := !(-128 <= signed <= 127)), Wrap8(sum)))
  }

  /** `a` less `v` and the borrow, which is a clear carry. */
  function Taken(s: Cpu, v: u8): Cpu {
    var left, signed := s.a - v - 1 + Bit(s.p.c), Signed(s.a) - Signed(v) - 1 + Bit(s.p.c);
    s.(a := Wrap8(left), p := Judged(s.p.(c := left >= 0, v := !(-128 <= signed <= 127)), Wrap8(left)))
  }

  /** The flags of `r` less `v`. */
  function Compared(f: Flags, r: u8, v: u8): Flags { Judged(f.(c := r >= v), Wrap8(r - v)) }

  /** A byte and the carry, shifted: through the carry when `around`, else with a zero coming in. */
  function Shift(v: u8, f: Flags, right: bool, around: bool): (u8, Flags) {
    var incoming := Bit(around && f.c);
    var r: u8 := if right then (v + 256 * incoming) / 2 else Wrap8(2 * v + incoming);
    (r, Judged(f.(c := if right then v % 2 == 1 else v >= 128), r))
  }

  function GetA(s: Cpu, v: u8): Cpu { s.(a := v, p := Judged(s.p, v)) }

  function GetX(s: Cpu, v: u8): Cpu { s.(x := v, p := Judged(s.p, v)) }

  function GetY(s: Cpu, v: u8): Cpu { s.(y := v, p := Judged(s.p, v)) }

  /** OR, AND, XOR, ADC, STA, LDA, CMP, SBC with the byte `v` at `w`. */
  function Apply1(t: Cpu, aaa: nat, w: u16, v: u8): Cpu {
    match aaa
    case 0 => GetA(t, Either(t.a, v))
    case 1 => GetA(t, Both(t.a, v))
    case 2 => GetA(t, Differ(t.a, v))
    case 3 => Added(t, v)
    case 4 => t.(mem := t.mem[w := t.a])
    case 5 => GetA(t, v)
    case 6 => t.(p := Compared(t.p, t.a, v))
    case _ => Taken(t, v)
  }

  /** Group one, in eight modes; storing to an immediate operand is no instruction. */
  function Group1(s: Cpu, aaa: nat, bbb: nat): Cpu {
    if aaa == 4 && bbb == 2 then On(s, 1, 2) else
    Apply1(On(s, Length1(bbb), if aaa == 4 then Writing1(bbb) else Reading1(bbb)), aaa, Place1(s, bbb), s.mem[Place1(s, bbb)])
  }

  /** Group two in memory: ASL, ROL, LSR, ROR, STX, LDX, DEC, INC. */
  function Group2(s: Cpu, aaa: nat, bbb: nat): Cpu {
    var w := Place2(s, bbb, if aaa == 4 || aaa == 5 then s.y else s.x);
    var v := s.mem[w];
    var t := On(s, Length2(bbb), if aaa == 4 || aaa == 5 then Reading2(bbb) else Changing2(bbb));
    match aaa
    case 4 => t.(mem := s.mem[w := s.x])
    case 5 => GetX(t, v)
    case 6 => t.(mem := s.mem[w := Less(v)], p := Judged(s.p, Less(v)))
    case 7 => t.(mem := s.mem[w := More(v)], p := Judged(s.p, More(v)))
    case _ =>
      var r := Shift(v, s.p, aaa >= 2, aaa % 2 == 1);
      t.(mem := s.mem[w := r.0], p := r.1)
  }

  /** Group zero in memory: BIT, STY, LDY, CPY, CPX. */
  function Group0(s: Cpu, aaa: nat, bbb: nat): Cpu {
    var w := Place2(s, bbb, s.x);
    var v := s.mem[w];
    var t := On(s, Length2(bbb), Reading2(bbb));
    match aaa
    case 1 => t.(p := s.p.(n := Digit(v, 128), v := Digit(v, 64), z := Both(s.a, v) == 0))
    case 4 => t.(mem := s.mem[w := s.y])
    case 5 => GetY(t, v)
    case 6 => t.(p := Compared(s.p, s.y, v))
    case _ => t.(p := Compared(s.p, s.x, v))
  }

  /** Branches: bits 7 and 6 choose N, V, C or Z, bit 5 the value at which the branch is taken. */
  function Branching(s: Cpu, op: u8): Cpu { BranchIf(s, (match op / 64 case 0 => s.p.n case 1 => s.p.v case 2 => s.p.c case _ => s.p.z) == (op / 32 % 2 == 1)) }

  /** The distance is signed and counted from the next instruction. */
  function BranchIf(s: Cpu, taken: bool): Cpu {
    if taken then On(s, 0, 2).(pc := Wrap16(s.pc + 2 + Signed(Operand(s, 1)))) else On(s, 2, 2)
  }

  /** The status register as the stack sees it: N V 1 1 D I Z C. */
  function Status(f: Flags): u8 {
    128 * Bit(f.n) + 64 * Bit(f.v) + 32 + 16 + 8 * Bit(f.d) + 4 * Bit(f.i) + 2 * Bit(f.z) + Bit(f.c)
  }

  function FromStatus(v: u8): Flags {
    Flags(Digit(v, 128), Digit(v, 64), true, false, Digit(v, 8), Digit(v, 4), Digit(v, 2), Digit(v, 1))
  }

  function Pushing(s: Cpu, v: u8): Cpu { s.(mem := s.mem[0x100 + s.sp := v], sp := Wrap8(s.sp - 1)) }

  /** The byte `k` places up the stack. */
  function Up(s: Cpu, k: nat): u8 { s.mem[0x100 + Wrap8(s.sp + k)] }

  function Down(s: Cpu, k: nat): Cpu { s.(sp := Wrap8(s.sp + k)) }

  /** One byte, on registers, flags and the stack. */
  function Single(s: Cpu, op: u8): Cpu {
    match op
    case 0x08 => Pushing(On(s, 1, 3), Status(s.p))
    case 0x28 => Down(On(s, 1, 4), 1).(p := FromStatus(Up(s, 1)))
    case 0x48 => Pushing(On(s, 1, 3), s.a)
    case 0x68 => GetA(Down(On(s, 1, 4), 1), Up(s, 1))
    case 0x88 => GetY(On(s, 1, 2), Less(s.y))
    case 0xA8 => GetY(On(s, 1, 2), s.a)
    case 0xC8 => GetY(On(s, 1, 2), More(s.y))
    case 0xE8 => GetX(On(s, 1, 2), More(s.x))
    case 0x18 => On(s, 1, 2).(p := s.p.(c := false))
    case 0x38 => On(s, 1, 2).(p := s.p.(c := true))
    case 0x58 => On(s, 1, 2).(p := s.p.(i := false))
    case 0x78 => On(s, 1, 2).(p := s.p.(i := true))
    case 0x98 => GetA(On(s, 1, 2), s.y)
    case 0xB8 => On(s, 1, 2).(p := s.p.(v := false))
    case 0xD8 => On(s, 1, 2).(p := s.p.(d := false))
    case 0xF8 => On(s, 1, 2).(p := s.p.(d := true))
    case 0x8A => GetA(On(s, 1, 2), s.x)
    case 0x9A => On(s, 1, 2).(sp := s.x)
    case 0xAA => GetX(On(s, 1, 2), s.a)
    case 0xBA => GetX(On(s, 1, 2), s.sp)
    case 0xCA => GetX(On(s, 1, 2), Less(s.x))
    case _ => On(s, 1, 2)
  }

  /** The target of an indirect jump; its high byte is in the same page as the low one. */
  function Indirect(s: Cpu, w: u16): u16 { LowHigh(s.mem[w], s.mem[w - w % 256 + Wrap8(w + 1)]) }

  /** High byte first, so that the low one is on top. */
  function PushingWord(s: Cpu, w: u16): Cpu { Pushing(Pushing(s, w / 256), w % 256) }

  function Break(s: Cpu): Cpu {
    var t := Pushing(PushingWord(On(s, 0, 7), Wrap16(s.pc + 1)), Status(s.p));
    t.(p := s.p.(i := true), pc := LowHigh(t.mem[0xFFFE], t.mem[0xFFFF]))
  }

  /** Jumps, calls and returns. */
  function Flow(s: Cpu, op: u8): Cpu {
    match op
    case 0x4C => On(s, 0, 3).(pc := Absolute(s))
    case 0x6C => On(s, 0, 5).(pc := Indirect(s, Absolute(s)))
    case 0x20 => PushingWord(On(s, 0, 6), Wrap16(s.pc + 2)).(pc := Absolute(s))
    case 0x60 => Down(On(s, 0, 6), 2).(pc := Wrap16(LowHigh(Up(s, 1), Up(s, 2)) + 1))
    case 0x00 => Break(s)
    case _ => Down(On(s, 0, 6), 3).(p := FromStatus(Up(s, 1)), pc := LowHigh(Up(s, 2), Up(s, 3)))
  }

  // ---------------------------------------------------------------- the chart

  predicate IsBranch(op: u8) { op % 32 == 0x10 }

  predicate IsFlow(op: u8) { op == 0x4C || op == 0x6C || op == 0x20 || op == 0x60 || op == 0x00 || op == 0x40 }

  /** Group one has all eight modes. */
  predicate In1(op: u8) { op % 4 == 1 }

  /** Shifts of the accumulator. */
  predicate InA(op: u8) { op % 32 == 0x0A && op < 0x80 }

  /** Group two has zero page, absolute and, indexed, both; STX has no absolute indexed, LDX has immediate too. */
  predicate In2(op: u8) { op % 4 == 2 && Has2(op / 32, op / 4 % 8) }

  predicate Has2(aaa: nat, bbb: nat) {
    bbb == 1 || bbb == 3 || bbb == 5 || (bbb == 7 && aaa != 4) || (bbb == 0 && aaa == 5)
  }

  /** Group zero: BIT has zero page and absolute, STY indexed zero page too, LDY all five modes, CPY and CPX immediate. */
  predicate In0(op: u8) { op % 4 == 0 && Has0(op / 32, op / 4 % 8) }

  predicate Has0(aaa: nat, bbb: nat) {
    match aaa
    case 1 => bbb == 1 || bbb == 3
    case 4 => bbb == 1 || bbb == 3 || bbb == 5
    case 5 => bbb == 0 || bbb == 1 || bbb == 3 || bbb == 5 || bbb == 7
    case 6 => bbb == 0 || bbb == 1 || bbb == 3
    case 7 => bbb == 0 || bbb == 1 || bbb == 3
    case _ => false
  }

  function Chart(s: Cpu): Cpu {
    var op := Operand(s, 0);
    var aaa, bbb := op / 32, op / 4 % 8;
    if IsBranch(op) then Branching(s, op)
    else if IsFlow(op) then Flow(s, op)
    else if In1(op) then Group1(s, aaa, bbb)
    else if In2(op) then Group2(s, aaa, bbb)
    else if In0(op) then Group0(s, aaa, bbb)
    else if InA(op) then
      var r := Shift(s.a, s.p, aaa >= 2, aaa % 2 == 1);
      On(s, 1, 2).(a := r.0, p := r.1)
    else Single(s, op)
  }

  // ---------------------------------------------------------------- the chart and the decoder

  lemma Wraps(n: u16, k: nat)
    requires k <= 0x1_0000
    ensures Up16(n, k) == Wrap16(n + k)
  {
  }

  lemma Wraps8(n: u8, k: nat)
    requires k <= 256
    ensures Up8(n, k) == Wrap8(n + k)
  {
  }

  // -------- group one

  function Mode1(bbb: nat): Mode {
    match bbb
    case 0 => IndX case 1 => Zp case 2 => Imm case 3 => Abs case 4 => IndY case 5 => ZpX case 6 => AbsY case _ => AbsX
  }

  /** The state with `pc` at the first operand byte. */
  function Past(s: Cpu): Cpu { s.(pc := Up16(s.pc, 1)) }

  lemma OperandAt(s: Cpu)
    ensures At(s, 0) == Operand(s, 0)
    ensures At(Past(s), 0) == Operand(s, 1) && At(Past(s), 1) == Operand(s, 2)
    ensures Word(At(Past(s), 0), At(Past(s), 1)) == Absolute(s)
  {
    Wraps(s.pc, 0);
    Wraps(s.pc, 1);
    Wraps(s.pc, 2);
    Wraps(Past(s).pc, 0);
    Wraps(Past(s).pc, 1);
  }

  lemma ZeroWordAt(s: Cpu, z: u8)
    ensures Word(s.mem[z], s.mem[Up8(z, 1)]) == ZeroWord(s, z)
  {
  }

  lemma PlaceIndX(s: Cpu)
    ensures Address(Past(s), IndX) == Place1(s, 0)
  {
    OperandAt(s);
    Wraps8(Operand(s, 1), s.x);
    ZeroWordAt(s, Wrap8(Operand(s, 1) + s.x));
  }

  lemma PlaceIndY(s: Cpu)
    ensures Address(Past(s), IndY) == Place1(s, 4)
  {
    OperandAt(s);
    ZeroWordAt(s, Operand(s, 1));
    Wraps(ZeroWord(s, Operand(s, 1)), s.y);
  }

  lemma PlacePlain(s: Cpu)
    ensures Address(Past(s), Zp) == Place1(s, 1) && Address(Past(s), Imm) == Place1(s, 2) && Address(Past(s), Abs) == Place1(s, 3)
  {
    OperandAt(s);
    Wraps(s.pc, 1);
  }

  lemma PlaceIndexed(s: Cpu)
    ensures Address(Past(s), ZpX) == Place1(s, 5) && Address(Past(s), AbsY) == Place1(s, 6) && Address(Past(s), AbsX) == Place1(s, 7)
  {
    OperandAt(s);
    Wraps8(Operand(s, 1), s.x);
    Wraps(Absolute(s), s.y);
    Wraps(Absolute(s), s.x);
  }

  lemma PlaceOf1(s: Cpu, bbb: nat)
    requires bbb < 8
    ensures Address(Past(s), Mode1(bbb)) == Place1(s, bbb)
  {
    match bbb
    case 0 => PlaceIndX(s);
    case 4 => PlaceIndY(s);
    case 1 => PlacePlain(s);
    case 2 => PlacePlain(s);
    case 3 => PlacePlain(s);
    case _ => PlaceIndexed(s);
  }

  lemma SkipOf1(s: Cpu, bbb: nat, cyc: nat)
    requires bbb < 8
    ensures Skip(Past(s), Mode1(bbb)).(cycles := s.cycles + cyc) == On(s, Length1(bbb), cyc)
  {
    Wraps(s.pc, 1);
    Wraps(Past(s).pc, Operands(Mode1(bbb)));
  }

  function Instr1(aaa: nat, bbb: nat): Instr {
    match aaa
    case 0 => Alu(Ora, Mode1(bbb))
    case 1 => Alu(And, Mode1(bbb))
    case 2 => Alu(Eor, Mode1(bbb))
    case 3 => Alu(Adc, Mode1(bbb))
    case 4 => if bbb == 2 then Nop else St(A, Mode1(bbb))
    case 5 => Ld(A, Mode1(bbb))
    case 6 => Cmp(A, Mode1(bbb))
    case _ => Alu(Sbc, Mode1(bbb))
  }

  function Mode2(bbb: nat, y: bool): Mode {
    match bbb
    case 0 => Imm case 1 => Zp case 3 => Abs case 5 => (if y then ZpY else ZpX) case _ => (if y then AbsY else AbsX)
  }

  function ShiftOf(aaa: nat): ShiftOp {
    match aaa case 0 => Asl case 1 => Rol case 2 => Lsr case _ => Ror
  }

  function Instr2(aaa: nat, bbb: nat): Instr {
    match aaa
    case 4 => St(X, Mode2(bbb, true))
    case 5 => Ld(X, Mode2(bbb, true))
    case 6 => CountM(false, Mode2(bbb, false))
    case 7 => CountM(true, Mode2(bbb, false))
    case _ => ShiftM(ShiftOf(aaa), Mode2(bbb, false))
  }

  function Instr0(aaa: nat, bbb: nat): Instr {
    match aaa
    case 1 => BitTest(Mode2(bbb, false))
    case 4 => St(Y, Mode2(bbb, false))
    case 5 => Ld(Y, Mode2(bbb, false))
    case 6 => Cmp(Y, Mode2(bbb, false))
    case _ => Cmp(X, Mode2(bbb, false))
  }

  function FlowInstr(op: u8): Instr {
    match op
    case 0x4C => Jmp case 0x6C => JmpInd case 0x20 => Jsr case 0x60 => Rts case 0x00 => Brk case _ => Rti
  }

  function SingleInstr(op: u8): Instr {
    match op
    case 0x08 => Php case 0x28 => Plp case 0x48 => Pha case 0x68 => Pla
    case 0x88 => Count(Y, false) case 0xA8 => Move(A, Y) case 0xC8 => Count(Y, true) case 0xE8 => Count(X, true)
    case 0x18 => Put(FC, false) case 0x38 => Put(FC, true) case 0x58 => Put(FI, false) case 0x78 => Put(FI, true)
    case 0x98 => Move(Y, A) case 0xB8 => Put(FV, false) case 0xD8 => Put(FD, false) case 0xF8 => Put(FD, true)
    case 0x8A => Move(X, A) case 0x9A => Txs case 0xAA => Move(A, X) case 0xBA => Tsx case 0xCA => Count(X, false)
    case _ => Nop
  }

  function BranchInstr(op: u8): Instr {
    Branch(match op / 64 case 0 => FN case 1 => FV case 2 => FC case _ => FZ, op / 32 % 2 == 1)
  }

  /** The instruction of an opcode, by its bits. */
  function Mapped(op: u8): Instr {
    var aaa, bbb := op / 32, op / 4 % 8;
    if IsBranch(op) then BranchInstr(op)
    else if IsFlow(op) then FlowInstr(op)
    else if In1(op) then Instr1(aaa, bbb)
    else if In2(op) then Instr2(aaa, bbb)
    else if In0(op) then Instr0(aaa, bbb)
    else if InA(op) then ShiftA(ShiftOf(aaa))
    else SingleInstr(op)
  }

  lemma Branches(op: u8, k: nat)
    requires k < 8 && op == 0x10 + 32 * k
    ensures Decode(op) == BranchInstr(op)
  {
    assert k == 0 || k == 1 || k == 2 || k == 3 || k == 4 || k == 5 || k == 6 || k == 7;
  }

  lemma Flows(op: u8)
    requires IsFlow(op)
    ensures Decode(op) == FlowInstr(op)
  {
  }

  lemma Ones0(bbb: nat)
    requires bbb < 8
    ensures Decode(0x01 + 4 * bbb) == Instr1(0, bbb)
  {
    assert bbb == 0 || bbb == 1 || bbb == 2 || bbb == 3 || bbb == 4 || bbb == 5 || bbb == 6 || bbb == 7;
  }

  lemma Ones1(bbb: nat)
    requires bbb < 8
    ensures Decode(0x21 + 4 * bbb) == Instr1(1, bbb)
  {
    assert bbb == 0 || bbb == 1 || bbb == 2 || bbb == 3 || bbb == 4 || bbb == 5 || bbb == 6 || bbb == 7;
  }

  lemma Ones2(bbb: nat)
    requires bbb < 8
    ensures Decode(0x41 + 4 * bbb) == Instr1(2, bbb)
  {
    assert bbb == 0 || bbb == 1 || bbb == 2 || bbb == 3 || bbb == 4 || bbb == 5 || bbb == 6 || bbb == 7;
  }

  lemma Ones3(bbb: nat)
    requires bbb < 8
    ensures Decode(0x61 + 4 * bbb) == Instr1(3, bbb)
  {
    assert bbb == 0 || bbb == 1 || bbb == 2 || bbb == 3 || bbb == 4 || bbb == 5 || bbb == 6 || bbb == 7;
  }

  lemma Ones4(bbb: nat)
    requires bbb < 8
    ensures Decode(0x81 + 4 * bbb) == Instr1(4, bbb)
  {
    assert bbb == 0 || bbb == 1 || bbb == 2 || bbb == 3 || bbb == 4 || bbb == 5 || bbb == 6 || bbb == 7;
  }

  lemma Ones5(bbb: nat)
    requires bbb < 8
    ensures Decode(0xA1 + 4 * bbb) == Instr1(5, bbb)
  {
    assert bbb == 0 || bbb == 1 || bbb == 2 || bbb == 3 || bbb == 4 || bbb == 5 || bbb == 6 || bbb == 7;
  }

  lemma Ones6(bbb: nat)
    requires bbb < 8
    ensures Decode(0xC1 + 4 * bbb) == Instr1(6, bbb)
  {
    assert bbb == 0 || bbb == 1 || bbb == 2 || bbb == 3 || bbb == 4 || bbb == 5 || bbb == 6 || bbb == 7;
  }

  lemma Ones7(bbb: nat)
    requires bbb < 8
    ensures Decode(0xE1 + 4 * bbb) == Instr1(7, bbb)
  {
    assert bbb == 0 || bbb == 1 || bbb == 2 || bbb == 3 || bbb == 4 || bbb == 5 || bbb == 6 || bbb == 7;
  }

  lemma Twos0(bbb: nat)
    requires Has2(0, bbb)
    ensures Decode(0x02 + 4 * bbb) == Instr2(0, bbb)
  {
    assert bbb == 1 || bbb == 3 || bbb == 5 || bbb == 7;
  }

  lemma Twos1(bbb: nat)
    requires Has2(1, bbb)
    ensures Decode(0x22 + 4 * bbb) == Instr2(1, bbb)
  {
    assert bbb == 1 || bbb == 3 || bbb == 5 || bbb == 7;
  }

  lemma Twos2(bbb: nat)
    requires Has2(2, bbb)
    ensures Decode(0x42 + 4 * bbb) == Instr2(2, bbb)
  {
    assert bbb == 1 || bbb == 3 || bbb == 5 || bbb == 7;
  }

  lemma Twos3(bbb: nat)
    requires Has2(3, bbb)
    ensures Decode(0x62 + 4 * bbb) == Instr2(3, bbb)
  {
    assert bbb == 1 || bbb == 3 || bbb == 5 || bbb == 7;
  }

  lemma Twos4(bbb: nat)
    requires Has2(4, bbb)
    ensures Decode(0x82 + 4 * bbb) == Instr2(4, bbb)
  {
    assert bbb == 1 || bbb == 3 || bbb == 5;
  }

  lemma Twos5(bbb: nat)
    requires Has2(5, bbb)
    ensures Decode(0xA2 + 4 * bbb) == Instr2(5, bbb)
  {
    assert bbb == 0 || bbb == 1 || bbb == 3 || bbb == 5 || bbb == 7;
  }

  lemma Twos6(bbb: nat)
    requires Has2(6, bbb)
    ensures Decode(0xC2 + 4 * bbb) == Instr2(6, bbb)
  {
    assert bbb == 1 || bbb == 3 || bbb == 5 || bbb == 7;
  }

  lemma Twos7(bbb: nat)
    requires Has2(7, bbb)
    ensures Decode(0xE2 + 4 * bbb) == Instr2(7, bbb)
  {
    assert bbb == 1 || bbb == 3 || bbb == 5 || bbb == 7;
  }

  lemma Zeros1(bbb: nat)
    requires Has0(1, bbb)
    ensures Decode(0x20 + 4 * bbb) == Instr0(1, bbb)
  {
    assert bbb == 1 || bbb == 3;
  }

  lemma Zeros4(bbb: nat)
    requires Has0(4, bbb)
    ensures Decode(0x80 + 4 * bbb) == Instr0(4, bbb)
  {
    assert bbb == 1 || bbb == 3 || bbb == 5;
  }

  lemma Zeros5(bbb: nat)
    requires Has0(5, bbb)
    ensures Decode(0xA0 + 4 * bbb) == Instr0(5, bbb)
  {
    assert bbb == 0 || bbb == 1 || bbb == 3 || bbb == 5 || bbb == 7;
  }

  lemma Zeros6(bbb: nat)
    requires Has0(6, bbb)
    ensures Decode(0xC0 + 4 * bbb) == Instr0(6, bbb)
  {
    assert bbb == 0 || bbb == 1 || bbb == 3;
  }

  lemma Zeros7(bbb: nat)
    requires Has0(7, bbb)
    ensures Decode(0xE0 + 4 * bbb) == Instr0(7, bbb)
  {
    assert bbb == 0 || bbb == 1 || bbb == 3;
  }

  lemma Accumulators(aaa: nat)
    requires aaa < 4
    ensures Decode(0x0A + 32 * aaa) == ShiftA(ShiftOf(aaa))
  {
    assert aaa == 0 || aaa == 1 || aaa == 2 || aaa == 3;
  }

  lemma Column08(op: u8, aaa: nat)
    requires aaa < 8 && op == 0x08 + 32 * aaa
    ensures Decode(op) == SingleInstr(op)
  {
    assert aaa == 0 || aaa == 1 || aaa == 2 || aaa == 3 || aaa == 4 || aaa == 5 || aaa == 6 || aaa == 7;
  }

  lemma Column18(op: u8, aaa: nat)
    requires aaa < 8 && op == 0x18 + 32 * aaa
    ensures Decode(op) == SingleInstr(op)
  {
    assert aaa == 0 || aaa == 1 || aaa == 2 || aaa == 3 || aaa == 4 || aaa == 5 || aaa == 6 || aaa == 7;
  }

  lemma Column0A(op: u8, aaa: nat)
    requires (aaa == 4 || aaa == 5 || aaa == 6 || aaa == 7) && op == 0x0A + 32 * aaa
    ensures Decode(op) == SingleInstr(op)
  {
    assert aaa == 4 || aaa == 5 || aaa == 6 || aaa == 7;
  }

  lemma Column1A(op: u8, aaa: nat)
    requires aaa < 8 && op == 0x1A + 32 * aaa
    ensures Decode(op) == SingleInstr(op)
  {
    assert aaa == 0 || aaa == 1 || aaa == 2 || aaa == 3 || aaa == 4 || aaa == 5 || aaa == 6 || aaa == 7;
  }

  lemma Idle00(op: u8, aaa: nat)
    requires (aaa == 4) && op == 0x00 + 32 * aaa
    ensures Decode(op) == Nop == SingleInstr(op)
  {
    assert aaa == 4;
  }

  lemma Idle02(op: u8, aaa: nat)
    requires (aaa == 0 || aaa == 1 || aaa == 2 || aaa == 3 || aaa == 4 || aaa == 6 || aaa == 7) && op == 0x02 + 32 * aaa
    ensures Decode(op) == Nop == SingleInstr(op)
  {
    assert aaa == 0 || aaa == 1 || aaa == 2 || aaa == 3 || aaa == 4 || aaa == 6 || aaa == 7;
  }

  lemma Idle04(op: u8, aaa: nat)
    requires (aaa == 0 || aaa == 2 || aaa == 3) && op == 0x04 + 32 * aaa
    ensures Decode(op) == Nop == SingleInstr(op)
  {
    assert aaa == 0 || aaa == 2 || aaa == 3;
  }

  lemma Idle0C(op: u8, aaa: nat)
    requires (aaa == 0) && op == 0x0C + 32 * aaa
    ensures Decode(op) == Nop == SingleInstr(op)
  {
    assert aaa == 0;
  }

  lemma Idle12(op: u8, aaa: nat)
    requires aaa < 8 && op == 0x12 + 32 * aaa
    ensures Decode(op) == Nop == SingleInstr(op)
  {
    assert aaa == 0 || aaa == 1 || aaa == 2 || aaa == 3 || aaa == 4 || aaa == 5 || aaa == 6 || aaa == 7;
  }

  lemma Idle14(op: u8, aaa: nat)
    requires (aaa == 0 || aaa == 1 || aaa == 2 || aaa == 3 || aaa == 6 || aaa == 7) && op == 0x14 + 32 * aaa
    ensures Decode(op) == Nop == SingleInstr(op)
  {
    assert aaa == 0 || aaa == 1 || aaa == 2 || aaa == 3 || aaa == 6 || aaa == 7;
  }

  lemma Idle1C(op: u8, aaa: nat)
    requires (aaa == 0 || aaa == 1 || aaa == 2 || aaa == 3 || aaa == 4 || aaa == 6 || aaa == 7) && op == 0x1C + 32 * aaa
    ensures Decode(op) == Nop == SingleInstr(op)
  {
    assert aaa == 0 || aaa == 1 || aaa == 2 || aaa == 3 || aaa == 4 || aaa == 6 || aaa == 7;
  }

  lemma Idle1E(op: u8, aaa: nat)
    requires (aaa == 4) && op == 0x1E + 32 * aaa
    ensures Decode(op) == Nop == SingleInstr(op)
  {
    assert aaa == 4;
  }

  lemma Idles3a(op: u8, k: nat)
    requires k < 16 && op == 0x03 + 4 * k
    ensures Decode(op) == Nop == SingleInstr(op)
  {
    assert k == 0 || k == 1 || k == 2 || k == 3 || k == 4 || k == 5 || k == 6 || k == 7 || k == 8 || k == 9 || k == 10 || k == 11 || k == 12 || k == 13 || k == 14 || k == 15;
  }

  lemma Idles3b(op: u8, k: nat)
    requires k < 16 && op == 0x43 + 4 * k
    ensures Decode(op) == Nop == SingleInstr(op)
  {
    assert k == 0 || k == 1 || k == 2 || k == 3 || k == 4 || k == 5 || k == 6 || k == 7 || k == 8 || k == 9 || k == 10 || k == 11 || k == 12 || k == 13 || k == 14 || k == 15;
  }

  lemma Idles3c(op: u8, k: nat)
    requires k < 16 && op == 0x83 + 4 * k
    ensures Decode(op) == Nop == SingleInstr(op)
  {
    assert k == 0 || k == 1 || k == 2 || k == 3 || k == 4 || k == 5 || k == 6 || k == 7 || k == 8 || k == 9 || k == 10 || k == 11 || k == 12 || k == 13 || k == 14 || k == 15;
  }

  lemma Idles3d(op: u8, k: nat)
    requires k < 16 && op == 0xC3 + 4 * k
    ensures Decode(op) == Nop == SingleInstr(op)
  {
    assert k == 0 || k == 1 || k == 2 || k == 3 || k == 4 || k == 5 || k == 6 || k == 7 || k == 8 || k == 9 || k == 10 || k == 11 || k == 12 || k == 13 || k == 14 || k == 15;
  }

  // ---------------------------------------------------------------- what the instructions compute

  lemma DigitsAre(v: u8)
    ensures Digit(v, 1) <==> (v as bv8) & 1 != 0
    ensures Digit(v, 2) <==> (v as bv8) & 2 != 0
    ensures Digit(v, 4) <==> (v as bv8) & 4 != 0
    ensures Digit(v, 8) <==> (v as bv8) & 8 != 0
    ensures Digit(v, 16) <==> (v as bv8) & 16 != 0
    ensures Digit(v, 32) <==> (v as bv8) & 32 != 0
    ensures Digit(v, 64) <==> (v as bv8) & 64 != 0
    ensures Digit(v, 128) <==> (v as bv8) & 128 != 0
  {
    BitsAre(v);
  }

  lemma AndsBits(a: bv8, v: bv8)
    ensures (a & v) & 1 != 0 <==> ((a & 1 != 0) && (v & 1 != 0))
    ensures (a & v) & 2 != 0 <==> ((a & 2 != 0) && (v & 2 != 0))
    ensures (a & v) & 4 != 0 <==> ((a & 4 != 0) && (v & 4 != 0))
    ensures (a & v) & 8 != 0 <==> ((a & 8 != 0) && (v & 8 != 0))
    ensures (a & v) & 16 != 0 <==> ((a & 16 != 0) && (v & 16 != 0))
    ensures (a & v) & 32 != 0 <==> ((a & 32 != 0) && (v & 32 != 0))
    ensures (a & v) & 64 != 0 <==> ((a & 64 != 0) && (v & 64 != 0))
    ensures (a & v) & 128 != 0 <==> ((a & 128 != 0) && (v & 128 != 0))
  {
  }

  lemma AndsValue(a: bv8, v: bv8)
    ensures Value(a & v) == Byte((a & 1 != 0) && (v & 1 != 0), (a & 2 != 0) && (v & 2 != 0), (a & 4 != 0) && (v & 4 != 0), (a & 8 != 0) && (v & 8 != 0),
              (a & 16 != 0) && (v & 16 != 0), (a & 32 != 0) && (v & 32 != 0), (a & 64 != 0) && (v & 64 != 0), (a & 128 != 0) && (v & 128 != 0))
  {
    AndsBits(a, v);
  }

  lemma AndsDigits(a: u8, v: u8, b: bv8, w: bv8)
    requires b == a as bv8 && w == v as bv8
    ensures Both(a, v) == Byte((b & 1 != 0) && (w & 1 != 0), (b & 2 != 0) && (w & 2 != 0), (b & 4 != 0) && (w & 4 != 0), (b & 8 != 0) && (w & 8 != 0),
              (b & 16 != 0) && (w & 16 != 0), (b & 32 != 0) && (w & 32 != 0), (b & 64 != 0) && (w & 64 != 0), (b & 128 != 0) && (w & 128 != 0))
  {
    DigitsAre(a);
    DigitsAre(v);
  }

  lemma Ands(a: u8, v: u8)
    ensures Bits(And, a, v) == Both(a, v)
  {
    var b, w := a as bv8, v as bv8;
    AndsDigits(a, v, b, w);
    AndsValue(b, w);
    ValueIs(b & w);
  }

  lemma OrsBits(a: bv8, v: bv8)
    ensures (a | v) & 1 != 0 <==> ((a & 1 != 0) || (v & 1 != 0))
    ensures (a | v) & 2 != 0 <==> ((a & 2 != 0) || (v & 2 != 0))
    ensures (a | v) & 4 != 0 <==> ((a & 4 != 0) || (v & 4 != 0))
    ensures (a | v) & 8 != 0 <==> ((a & 8 != 0) || (v & 8 != 0))
    ensures (a | v) & 16 != 0 <==> ((a & 16 != 0) || (v & 16 != 0))
    ensures (a | v) & 32 != 0 <==> ((a & 32 != 0) || (v & 32 != 0))
    ensures (a | v) & 64 != 0 <==> ((a & 64 != 0) || (v & 64 != 0))
    ensures (a | v) & 128 != 0 <==> ((a & 128 != 0) || (v & 128 != 0))
  {
  }

  lemma OrsValue(a: bv8, v: bv8)
    ensures Value(a | v) == Byte((a & 1 != 0) || (v & 1 != 0), (a & 2 != 0) || (v & 2 != 0), (a & 4 != 0) || (v & 4 != 0), (a & 8 != 0) || (v & 8 != 0),
              (a & 16 != 0) || (v & 16 != 0), (a & 32 != 0) || (v & 32 != 0), (a & 64 != 0) || (v & 64 != 0), (a & 128 != 0) || (v & 128 != 0))
  {
    OrsBits(a, v);
  }

  lemma OrsDigits(a: u8, v: u8, b: bv8, w: bv8)
    requires b == a as bv8 && w == v as bv8
    ensures Either(a, v) == Byte((b & 1 != 0) || (w & 1 != 0), (b & 2 != 0) || (w & 2 != 0), (b & 4 != 0) || (w & 4 != 0), (b & 8 != 0) || (w & 8 != 0),
              (b & 16 != 0) || (w & 16 != 0), (b & 32 != 0) || (w & 32 != 0), (b & 64 != 0) || (w & 64 != 0), (b & 128 != 0) || (w & 128 != 0))
  {
    DigitsAre(a);
    DigitsAre(v);
  }

  lemma Ors(a: u8, v: u8)
    ensures Bits(Ora, a, v) == Either(a, v)
  {
    var b, w := a as bv8, v as bv8;
    OrsDigits(a, v, b, w);
    OrsValue(b, w);
    ValueIs(b | w);
  }

  lemma XorsBits(a: bv8, v: bv8)
    ensures (a ^ v) & 1 != 0 <==> ((a & 1 != 0) != (v & 1 != 0))
    ensures (a ^ v) & 2 != 0 <==> ((a & 2 != 0) != (v & 2 != 0))
    ensures (a ^ v) & 4 != 0 <==> ((a & 4 != 0) != (v & 4 != 0))
    ensures (a ^ v) & 8 != 0 <==> ((a & 8 != 0) != (v & 8 != 0))
    ensures (a ^ v) & 16 != 0 <==> ((a & 16 != 0) != (v & 16 != 0))
    ensures (a ^ v) & 32 != 0 <==> ((a & 32 != 0) != (v & 32 != 0))
    ensures (a ^ v) & 64 != 0 <==> ((a & 64 != 0) != (v & 64 != 0))
    ensures (a ^ v) & 128 != 0 <==> ((a & 128 != 0) != (v & 128 != 0))
  {
  }

  lemma XorsValue(a: bv8, v: bv8)
    ensures Value(a ^ v) == Byte((a & 1 != 0) != (v & 1 != 0), (a & 2 != 0) != (v & 2 != 0), (a & 4 != 0) != (v & 4 != 0), (a & 8 != 0) != (v & 8 != 0),
              (a & 16 != 0) != (v & 16 != 0), (a & 32 != 0) != (v & 32 != 0), (a & 64 != 0) != (v & 64 != 0), (a & 128 != 0) != (v & 128 != 0))
  {
    XorsBits(a, v);
  }

  lemma XorsDigits(a: u8, v: u8, b: bv8, w: bv8)
    requires b == a as bv8 && w == v as bv8
    ensures Differ(a, v) == Byte((b & 1 != 0) != (w & 1 != 0), (b & 2 != 0) != (w & 2 != 0), (b & 4 != 0) != (w & 4 != 0), (b & 8 != 0) != (w & 8 != 0),
              (b & 16 != 0) != (w & 16 != 0), (b & 32 != 0) != (w & 32 != 0), (b & 64 != 0) != (w & 64 != 0), (b & 128 != 0) != (w & 128 != 0))
  {
    DigitsAre(a);
    DigitsAre(v);
  }

  lemma Xors(a: u8, v: u8)
    ensures Bits(Eor, a, v) == Differ(a, v)
  {
    var b, w := a as bv8, v as bv8;
    XorsDigits(a, v, b, w);
    XorsValue(b, w);
    ValueIs(b ^ w);
  }

  lemma SameZn(f: Flags, v: u8)
    ensures Zn(f, v) == Judged(f, v)
  {
  }

  lemma Adds(s: Cpu, v: u8)
    ensures s.(a := AddByte(s.a, v, s.p).0, p := AddByte(s.a, v, s.p).1) == Added(s, v)
  {
  }

  lemma Takes(s: Cpu, v: u8)
    ensures s.(a := SubByte(s.a, v, s.p).0, p := SubByte(s.a, v, s.p).1) == Taken(s, v)
  {
  }

  lemma Compares(r: u8, v: u8, f: Flags)
    ensures Compare(r, v, f) == Compared(f, r, v)
  {
    Wraps8(r, 256 - v);
  }

  lemma Shifts(v: u8, f: Flags, aaa: nat)
    requires aaa < 4
    ensures ShiftByte(ShiftOf(aaa), v, f) == Shift(v, f, aaa >= 2, aaa % 2 == 1)
  {
  }

  lemma Counts(v: u8)
    ensures CountBy(v, true) == More(v) && CountBy(v, false) == Less(v)
  {
  }

  // ---------------------------------------------------------------- group by group

  /** The cycle count does not matter to an operand. */
  lemma Untimed(s: Cpu, i: Instr, v: u8, n: nat)
    requires Reads(i)
    ensures WithOperand(s, i, v).(cycles := n) == WithOperand(s.(cycles := n), i, v)
  {
  }

  lemma Performs(s: Cpu, i: Instr, m: Mode, w: u16, t: Cpu)
    requires Reads(i) && i.m == m && Address(Past(s), m) == w && t == Skip(Past(s), m).(cycles := s.cycles + Cycles(i))
    ensures Perform(s, i) == WithOperand(t, i, s.mem[w])
  {
    Untimed(Skip(Past(s), m), i, s.mem[w], s.cycles + Cycles(i));
  }

  lemma Changes(s: Cpu, i: Instr, m: Mode, w: u16, t: Cpu)
    requires Writes(i) && i.m == m && Address(Past(s), m) == w && t == Skip(Past(s), m).(cycles := s.cycles + Cycles(i))
    ensures var r := Replaced(s, i, s.mem[w]); Perform(s, i) == t.(mem := s.mem[w := r.0], p := r.1)
  {
  }

  lemma Merges(t: Cpu, k: AluOp, m: Mode, v: u8, r: u8)
    requires (k.And? || k.Ora? || k.Eor?) && Bits(k, t.a, v) == r
    ensures WithOperand(t, Alu(k, m), v) == GetA(t, r)
  {
  }

  lemma Merged(t: Cpu, m: Mode, v: u8)
    ensures WithOperand(t, Alu(Ora, m), v) == GetA(t, Either(t.a, v))
    ensures WithOperand(t, Alu(And, m), v) == GetA(t, Both(t.a, v))
    ensures WithOperand(t, Alu(Eor, m), v) == GetA(t, Differ(t.a, v))
  {
    Ors(t.a, v);
    Ands(t.a, v);
    Xors(t.a, v);
    Merges(t, Ora, m, v, Either(t.a, v));
    Merges(t, And, m, v, Both(t.a, v));
    Merges(t, Eor, m, v, Differ(t.a, v));
  }

  lemma Sums(t: Cpu, m: Mode, v: u8)
    ensures WithOperand(t, Alu(Adc, m), v) == Added(t, v)
    ensures WithOperand(t, Alu(Sbc, m), v) == Taken(t, v)
  {
    Adds(t, v);
    Takes(t, v);
  }

  lemma LoadsAndCompares(t: Cpu, m: Mode, v: u8)
    ensures WithOperand(t, Ld(A, m), v) == GetA(t, v) && WithOperand(t, Ld(X, m), v) == GetX(t, v) && WithOperand(t, Ld(Y, m), v) == GetY(t, v)
    ensures WithOperand(t, Cmp(A, m), v) == t.(p := Compared(t.p, t.a, v))
    ensures WithOperand(t, Cmp(X, m), v) == t.(p := Compared(t.p, t.x, v))
    ensures WithOperand(t, Cmp(Y, m), v) == t.(p := Compared(t.p, t.y, v))
  {
    Compares(t.a, v, t.p);
    Compares(t.x, v, t.p);
    Compares(t.y, v, t.p);
  }

  lemma Group1Reads(s: Cpu, aaa: nat, bbb: nat, t: Cpu, v: u8)
    requires aaa < 8 && aaa != 4 && bbb < 8
    requires t == On(s, Length1(bbb), Reading1(bbb)) && v == s.mem[Place1(s, bbb)]
    ensures Perform(s, Instr1(aaa, bbb)) == WithOperand(t, Instr1(aaa, bbb), v)
  {
    PlaceOf1(s, bbb);
    SkipOf1(s, bbb, Reading1(bbb));
    Performs(s, Instr1(aaa, bbb), Mode1(bbb), Place1(s, bbb), t);
  }

  lemma Group1Read(s: Cpu, aaa: nat, bbb: nat)
    requires aaa < 8 && bbb < 8 && aaa != 4
    ensures Perform(s, Instr1(aaa, bbb)) == Group1(s, aaa, bbb)
  {
    var t, v := On(s, Length1(bbb), Reading1(bbb)), s.mem[Place1(s, bbb)];
    Group1Reads(s, aaa, bbb, t, v);
    if aaa < 3 {
      Merged(t, Mode1(bbb), v);
    } else if aaa == 3 || aaa == 7 {
      Sums(t, Mode1(bbb), v);
    } else {
      LoadsAndCompares(t, Mode1(bbb), v);
    }
  }

  lemma Group1Is(s: Cpu, aaa: nat, bbb: nat)
    requires aaa < 8 && bbb < 8
    ensures Perform(s, Instr1(aaa, bbb)) == Group1(s, aaa, bbb)
  {
    if aaa == 4 {
      Group1Store(s, bbb);
    } else {
      Group1Read(s, aaa, bbb);
    }
  }

  lemma Group1Store(s: Cpu, bbb: nat)
    requires bbb < 8
    ensures Perform(s, Instr1(4, bbb)) == Group1(s, 4, bbb)
  {
    if bbb == 2 {
      Wraps(s.pc, 1);
    } else {
      PlaceOf1(s, bbb);
      SkipOf1(s, bbb, Writing1(bbb));
      Changes(s, St(A, Mode1(bbb)), Mode1(bbb), Place1(s, bbb), On(s, Length1(bbb), Writing1(bbb)));
    }
  }

  // -------- groups two and zero

  lemma PlaceOf2(s: Cpu, bbb: nat, y: bool)
    requires bbb == 0 || bbb == 1 || bbb == 3 || bbb == 5 || bbb == 7
    ensures Address(Past(s), Mode2(bbb, y)) == Place2(s, bbb, if y then s.y else s.x)
  {
    OperandAt(s);
    var index := if y then s.y else s.x;
    match bbb
    case 0 => Wraps(s.pc, 1);
    case 5 => Wraps8(Operand(s, 1), index);
    case 7 => Wraps(Absolute(s), index);
    case _ =>
  }

  lemma SkipOf2(s: Cpu, bbb: nat, y: bool, cyc: nat)
    requires bbb == 0 || bbb == 1 || bbb == 3 || bbb == 5 || bbb == 7
    ensures Skip(Past(s), Mode2(bbb, y)).(cycles := s.cycles + cyc) == On(s, Length2(bbb), cyc)
  {
    Wraps(s.pc, 1);
    Wraps(Past(s).pc, Operands(Mode2(bbb, y)));
  }

  lemma Group2Load(s: Cpu, bbb: nat)
    requires Has2(5, bbb)
    ensures Perform(s, Instr2(5, bbb)) == Group2(s, 5, bbb)
  {
    PlaceOf2(s, bbb, true);
    SkipOf2(s, bbb, true, Reading2(bbb));
    var t, w := On(s, Length2(bbb), Reading2(bbb)), Place2(s, bbb, s.y);
    Performs(s, Ld(X, Mode2(bbb, true)), Mode2(bbb, true), w, t);
    LoadsAndCompares(t, Mode2(bbb, true), s.mem[w]);
  }

  lemma Group2Changes(s: Cpu, aaa: nat, bbb: nat, y: bool, cyc: nat)
    requires Has2(aaa, bbb) && aaa < 8 && aaa != 5 && y == (aaa == 4) && cyc == if y then Reading2(bbb) else Changing2(bbb)
    ensures var i, w := Instr2(aaa, bbb), Place2(s, bbb, if y then s.y else s.x);
            Writes(i) && var r := Replaced(s, i, s.mem[w]); Perform(s, i) == On(s, Length2(bbb), cyc).(mem := s.mem[w := r.0], p := r.1)
  {
    PlaceOf2(s, bbb, y);
    SkipOf2(s, bbb, y, cyc);
    Changes(s, Instr2(aaa, bbb), Mode2(bbb, y), Place2(s, bbb, if y then s.y else s.x), On(s, Length2(bbb), cyc));
  }

  lemma Group2Is(s: Cpu, aaa: nat, bbb: nat)
    requires aaa < 8 && Has2(aaa, bbb)
    ensures Perform(s, Instr2(aaa, bbb)) == Group2(s, aaa, bbb)
  {
    if aaa == 5 {
      Group2Load(s, bbb);
    } else {
      Group2Changes(s, aaa, bbb, aaa == 4, if aaa == 4 then Reading2(bbb) else Changing2(bbb));
      var v := s.mem[Place2(s, bbb, if aaa == 4 then s.y else s.x)];
      Counts(v);
      if aaa < 4 {
        Shifts(v, s.p, aaa);
      }
    }
  }

  lemma TestBitsIs(a: u8, v: u8, f: Flags, c: u8)
    requires Bits(And, v, a) == c
    ensures TestBits(a, v, f) == f.(n := Digit(v, 128), v := Digit(v, 64), z := c == 0)
  {
  }

  lemma Tests(t: Cpu, m: Mode, v: u8)
    ensures WithOperand(t, BitTest(m), v) == t.(p := t.p.(n := Digit(v, 128), v := Digit(v, 64), z := Both(t.a, v) == 0))
  {
    Common(t.a, v);
    TestBitsIs(t.a, v, t.p, Both(t.a, v));
  }

  lemma Common(a: u8, v: u8)
    ensures Bits(And, v, a) == Both(a, v)
  {
    Ands(v, a);
    Swapped(v, a);
  }

  lemma Swapped(a: u8, v: u8)
    ensures Both(a, v) == Both(v, a)
  {
  }

  lemma Group0Is(s: Cpu, aaa: nat, bbb: nat)
    requires aaa < 8 && Has0(aaa, bbb)
    ensures Perform(s, Instr0(aaa, bbb)) == Group0(s, aaa, bbb)
  {
    var m, t, w := Mode2(bbb, false), On(s, Length2(bbb), Reading2(bbb)), Place2(s, bbb, s.x);
    PlaceOf2(s, bbb, false);
    SkipOf2(s, bbb, false, Reading2(bbb));
    if aaa == 4 {
      Changes(s, Instr0(aaa, bbb), m, w, t);
    } else {
      Performs(s, Instr0(aaa, bbb), m, w, t);
      LoadsAndCompares(t, m, s.mem[w]);
      Tests(t, m, s.mem[w]);
    }
  }

  // -------- the rest

  lemma TargetIs(pc: u16, d: u8)
    ensures Up16(Up16(pc, 1), 1) == Wrap16(pc + 2) && Target(Up16(Up16(pc, 1), 1), d) == Wrap16(pc + 2 + Signed(d))
  {
  }

  lemma BranchTaken(s: Cpu, f: Flag, on: bool)
    ensures Perform(s, Branch(f, on)) == BranchIf(s, FlagOf(s.p, f) == on)
  {
    OperandAt(s);
    TargetIs(s.pc, Operand(s, 1));
  }

  lemma BranchIs(s: Cpu, op: u8)
    ensures Perform(s, BranchInstr(op)) == Branching(s, op)
  {
    BranchTaken(s, BranchInstr(op).f, BranchInstr(op).on);
  }

  lemma AccumulatorIs(s: Cpu, aaa: nat)
    requires aaa < 4
    ensures var r := Shift(s.a, s.p, aaa >= 2, aaa % 2 == 1);
            Perform(s, ShiftA(ShiftOf(aaa))) == On(s, 1, 2).(a := r.0, p := r.1)
  {
    Shifts(s.a, s.p, aaa);
    Wraps(s.pc, 1);
  }

  lemma StatusIs(f: Flags)
    ensures Pushed(f) == Status(f)
  {
  }

  lemma Halves(v: nat)
    ensures v / 2 / 2 == v / 4 && v / 4 / 2 == v / 8 && v / 8 / 2 == v / 16
  {
  }

  lemma MoreHalves(v: nat)
    ensures v / 16 / 2 == v / 32 && v / 32 / 2 == v / 64 && v / 64 / 2 == v / 128
  {
  }

  lemma FromStatusIs(v: u8)
    ensures Pulled(v) == FromStatus(v)
  {
    Halves(v);
    MoreHalves(v);
  }

  lemma Stack(s: Cpu, v: u8)
    ensures Push(s, v) == Pushing(s, v) && Top(s) == Up(s, 1) && Pop(s) == Down(s, 1)
  {
    Wraps8(s.sp, 255);
    Wraps8(s.sp, 1);
  }

  lemma StackPerforms(s: Cpu, i: Instr)
    requires Stacks(i)
    ensures Perform(s, i) == Stacked(On(s, 1, Cycles(i)), i)
  {
    Wraps(s.pc, 1);
  }

  lemma PushesAre(t: Cpu)
    ensures Stacked(t, Pha) == Pushing(t, t.a) && Stacked(t, Php) == Pushing(t, Status(t.p))
  {
    StatusIs(t.p);
    Stack(t, t.a);
    Stack(t, Status(t.p));
  }

  lemma PlpAre(t: Cpu, v: u8)
    requires v == Up(t, 1)
    ensures Stacked(t, Plp) == Down(t, 1).(p := FromStatus(v))
  {
    Stack(t, 0);
    FromStatusIs(v);
  }

  lemma PushesAt(s: Cpu)
    ensures Perform(s, Pha) == Pushing(On(s, 1, 3), s.a) && Perform(s, Php) == Pushing(On(s, 1, 3), Status(s.p))
  {
    StackPerforms(s, Pha);
    StackPerforms(s, Php);
    PushesAre(On(s, 1, 3));
  }

  lemma PlaIs(s: Cpu)
    ensures Perform(s, Pla) == GetA(Down(On(s, 1, 4), 1), Up(s, 1))
  {
    StackPerforms(s, Pla);
    Stack(On(s, 1, 4), 0);
  }

  lemma PlpIs(s: Cpu)
    ensures Perform(s, Plp) == Down(On(s, 1, 4), 1).(p := FromStatus(Up(s, 1)))
  {
    StackPerforms(s, Plp);
    SameUp(s);
    PlpAre(On(s, 1, 4), Up(s, 1));
  }

  lemma SameUp(s: Cpu)
    ensures Up(On(s, 1, 4), 1) == Up(s, 1)
  {
  }

  lemma StackIs(s: Cpu, op: u8)
    requires op == 0x08 || op == 0x28 || op == 0x48 || op == 0x68
    ensures Perform(s, SingleInstr(op)) == Single(s, op)
  {
    if op == 0x08 || op == 0x48 {
      PushesAt(s);
    } else if op == 0x68 {
      PlaIs(s);
    } else {
      PlpIs(s);
    }
  }

  /** One byte, two cycles. */
  lemma Brief(s: Cpu, i: Instr)
    requires i.Count? || i.Put? || i.Move? || i.Tsx? || i.Txs? || i.Nop?
    ensures Perform(s, i) == Rest(On(s, 1, 2), i)
  {
    Wraps(s.pc, 1);
  }

  lemma CountIs(s: Cpu, op: u8)
    requires op == 0x88 || op == 0xC8 || op == 0xE8 || op == 0xCA
    ensures Perform(s, SingleInstr(op)) == Single(s, op)
  {
    Brief(s, SingleInstr(op));
    Counts(s.x);
    Counts(s.y);
  }

  lemma PutIs(s: Cpu, op: u8)
    requires op == 0x18 || op == 0x38 || op == 0x58 || op == 0x78 || op == 0xB8 || op == 0xD8 || op == 0xF8
    ensures Perform(s, SingleInstr(op)) == Single(s, op)
  {
    Brief(s, SingleInstr(op));
  }

  lemma MoveIs(s: Cpu, op: u8)
    requires op == 0xA8 || op == 0x98 || op == 0x8A || op == 0x9A || op == 0xAA || op == 0xBA
    ensures Perform(s, SingleInstr(op)) == Single(s, op)
  {
    Brief(s, SingleInstr(op));
  }

  lemma IdleIs(s: Cpu, op: u8)
    requires SingleInstr(op) == Nop
    ensures Perform(s, SingleInstr(op)) == Single(s, op)
  {
    Brief(s, Nop);
  }

  lemma SingleIs(s: Cpu, op: u8)
    ensures Perform(s, SingleInstr(op)) == Single(s, op)
  {
    match SingleInstr(op)
    case Nop => IdleIs(s, op);
    case Count(_, _) => CountIs(s, op);
    case Put(_, _) => PutIs(s, op);
    case Move(_, _) => MoveIs(s, op);
    case Tsx => MoveIs(s, op);
    case Txs => MoveIs(s, op);
    case _ => StackIs(s, op);
  }

  lemma Twice(s: Cpu)
    ensures Pop(Pop(s)) == Down(s, 2) && PullWord(s) == LowHigh(Up(s, 1), Up(s, 2))
  {
    Wraps8(s.sp, 1);
    Wraps8(Up8(s.sp, 1), 1);
  }

  lemma PageIs(w: u16)
    ensures NextInPage(w) == w - w % 256 + Wrap8(w + 1)
  {
  }

  lemma JumpIs(s: Cpu)
    ensures Perform(s, Jmp) == On(s, 0, 3).(pc := Absolute(s))
  {
    OperandAt(s);
  }

  lemma IndirectIs(s: Cpu)
    ensures Perform(s, JmpInd) == On(s, 0, 5).(pc := Indirect(s, Absolute(s)))
  {
    OperandAt(s);
    PageIs(Absolute(s));
  }

  lemma FlowIs(s: Cpu, op: u8)
    requires IsFlow(op)
    ensures Perform(s, FlowInstr(op)) == Flow(s, op)
  {
    match op
    case 0x4C => JumpIs(s);
    case 0x6C => IndirectIs(s);
    case 0x20 => CallIs(s);
    case 0x60 => ReturnIs(s);
    case 0x00 => BreakIs(s);
    case 0x40 => ResumeIs(s);
  }

  lemma PushIs(t: Cpu, v: u8)
    ensures Push(t, v) == Pushing(t, v)
  {
    Wraps8(t.sp, 255);
  }

  lemma PushWordIs(t: Cpu, w: u16)
    ensures PushWord(t, w) == PushingWord(t, w)
  {
    PushIs(t, High(w));
    PushIs(Push(t, High(w)), Low(w));
  }

  /** What is pushed does not depend on where the program is. */
  lemma Elsewhere(t: Cpu, w: u16, pc: u16, n: nat)
    ensures PushingWord(t.(pc := pc, cycles := n), w) == PushingWord(t, w).(pc := pc, cycles := n)
  {
  }

  lemma CallPerforms(s: Cpu, i: Instr)
    requires Calls(i)
    ensures Perform(s, i) == Called(Past(s), i).(cycles := s.cycles + Cycles(i))
  {
  }

  lemma Calling(t: Cpu)
    ensures Called(t, Jsr) == PushingWord(t, Up16(t.pc, 1)).(pc := Word(At(t, 0), At(t, 1)))
  {
    PushWordIs(t, Up16(t.pc, 1));
  }

  lemma CallIs(s: Cpu)
    ensures Perform(s, Jsr) == PushingWord(On(s, 0, 6), Wrap16(s.pc + 2)).(pc := Absolute(s))
  {
    OperandAt(s);
    Calling(Past(s));
    TargetIs(s.pc, 0);
    Elsewhere(s, Wrap16(s.pc + 2), Past(s).pc, s.cycles);
    Elsewhere(s, Wrap16(s.pc + 2), On(s, 0, 6).pc, s.cycles + 6);
  }

  lemma Returned(t: Cpu)
    ensures Called(t, Rts) == Down(t, 2).(pc := Wrap16(LowHigh(Up(t, 1), Up(t, 2)) + 1))
  {
    Twice(t);
    Wraps(LowHigh(Up(t, 1), Up(t, 2)), 1);
  }

  lemma ReturnTimed(s: Cpu, pc: u16)
    ensures Down(Past(s), 2).(pc := pc, cycles := s.cycles + 6) == Down(On(s, 0, 6), 2).(pc := pc)
    ensures Up(Past(s), 1) == Up(s, 1) && Up(Past(s), 2) == Up(s, 2)
  {
  }

  lemma ReturnIs(s: Cpu)
    ensures Perform(s, Rts) == Down(On(s, 0, 6), 2).(pc := Wrap16(LowHigh(Up(s, 1), Up(s, 2)) + 1))
  {
    CallPerforms(s, Rts);
    Returned(Past(s));
    ReturnTimed(s, Wrap16(LowHigh(Up(s, 1), Up(s, 2)) + 1));
  }

  lemma Breaking(t: Cpu)
    ensures var u := Pushing(PushingWord(t, t.pc), Status(t.p));
            Called(t, Brk) == u.(p := t.p.(i := true), pc := LowHigh(u.mem[0xFFFE], u.mem[0xFFFF]))
  {
    StatusIs(t.p);
    PushWordIs(t, t.pc);
    PushIs(PushWord(t, t.pc), Status(t.p));
  }

  lemma BreakTimed(s: Cpu, r: Cpu)
    requires r == Called(Past(s), Brk)
    ensures r.(cycles := s.cycles + 7) == Break(s)
  {
    Wraps(s.pc, 1);
    Breaking(Past(s));
    Elsewhere(s, Wrap16(s.pc + 1), Past(s).pc, s.cycles);
    Elsewhere(s, Wrap16(s.pc + 1), On(s, 0, 7).pc, s.cycles + 7);
  }

  lemma BreakIs(s: Cpu)
    ensures Perform(s, Brk) == Break(s)
  {
    CallPerforms(s, Brk);
    BreakTimed(s, Called(Past(s), Brk));
  }

  lemma Thrice(s: Cpu)
    ensures Pop(Pop(Pop(s))) == Down(s, 3) && PullWord(Pop(s)) == LowHigh(Up(s, 2), Up(s, 3)) && Top(s) == Up(s, 1)
  {
    Wraps8(s.sp, 1);
    Wraps8(Up8(s.sp, 1), 1);
    Wraps8(Up8(Up8(s.sp, 1), 1), 1);
  }

  lemma Resumed(t: Cpu)
    ensures Called(t, Rti) == Down(t, 3).(p := FromStatus(Up(t, 1)), pc := LowHigh(Up(t, 2), Up(t, 3)))
  {
    Thrice(t);
    FromStatusIs(Up(t, 1));
  }

  lemma ResumeTimed(s: Cpu, p: Flags, pc: u16)
    ensures Down(Past(s), 3).(p := p, pc := pc, cycles := s.cycles + 6) == Down(On(s, 0, 6), 3).(p := p, pc := pc)
    ensures Up(Past(s), 1) == Up(s, 1) && Up(Past(s), 2) == Up(s, 2) && Up(Past(s), 3) == Up(s, 3)
  {
  }

  lemma ResumeIs(s: Cpu)
    ensures Perform(s, Rti) == Down(On(s, 0, 6), 3).(p := FromStatus(Up(s, 1)), pc := LowHigh(Up(s, 2), Up(s, 3)))
  {
    CallPerforms(s, Rti);
    Resumed(Past(s));
    ResumeTimed(s, FromStatus(Up(s, 1)), LowHigh(Up(s, 2), Up(s, 3)));
  }

  // ---------------------------------------------------------------- every opcode

  lemma Fields(op: u8)
    ensures op == 32 * (op / 32) + 4 * (op / 4 % 8) + op % 4 && op / 32 < 8 && op / 4 % 8 < 8
  {
  }

  lemma Decode1Low(op: u8, aaa: nat, bbb: nat)
    requires aaa < 4 && bbb < 8 && op == 32 * aaa + 4 * bbb + 1
    ensures Decode(op) == Instr1(aaa, bbb)
  {
    match aaa
    case 0 => Ones0(bbb);
    case 1 => Ones1(bbb);
    case 2 => Ones2(bbb);
    case 3 => Ones3(bbb);
  }

  lemma Decode1High(op: u8, aaa: nat, bbb: nat)
    requires 4 <= aaa < 8 && bbb < 8 && op == 32 * aaa + 4 * bbb + 1
    ensures Decode(op) == Instr1(aaa, bbb)
  {
    match aaa
    case 4 => Ones4(bbb);
    case 5 => Ones5(bbb);
    case 6 => Ones6(bbb);
    case 7 => Ones7(bbb);
  }

  lemma Decode1(op: u8, aaa: nat, bbb: nat)
    requires aaa < 8 && bbb < 8 && op == 32 * aaa + 4 * bbb + 1
    ensures Decode(op) == Instr1(aaa, bbb)
  {
    if aaa < 4 {
      Decode1Low(op, aaa, bbb);
    } else {
      Decode1High(op, aaa, bbb);
    }
  }

  lemma Decode2(op: u8, aaa: nat, bbb: nat)
    requires aaa < 8 && Has2(aaa, bbb) && bbb < 8 && op == 32 * aaa + 4 * bbb + 2
    ensures Decode(op) == Instr2(aaa, bbb)
  {
    match aaa
    case 0 => Twos0(bbb);
    case 1 => Twos1(bbb);
    case 2 => Twos2(bbb);
    case 3 => Twos3(bbb);
    case 4 => Twos4(bbb);
    case 5 => Twos5(bbb);
    case 6 => Twos6(bbb);
    case 7 => Twos7(bbb);
  }

  lemma Decode0(op: u8, aaa: nat, bbb: nat)
    requires aaa < 8 && Has0(aaa, bbb) && bbb < 8 && op == 32 * aaa + 4 * bbb
    ensures Decode(op) == Instr0(aaa, bbb)
  {
    match aaa
    case 1 => Zeros1(bbb);
    case 4 => Zeros4(bbb);
    case 5 => Zeros5(bbb);
    case 6 => Zeros6(bbb);
    case 7 => Zeros7(bbb);
  }

  /** The odd columns of the last group are empty. */
  lemma Decode3(op: u8, q: nat)
    requires q < 64 && op == 4 * q + 3
    ensures Decode(op) == Nop == SingleInstr(op)
  {
    if q < 16 {
      Idles3a(op, q);
    } else if q < 32 {
      Idles3b(op, q - 16);
    } else if q < 48 {
      Idles3c(op, q - 32);
    } else {
      Idles3d(op, q - 48);
    }
  }

  /** What the other families leave over. */
  predicate Other(op: u8) { !IsBranch(op) && !IsFlow(op) && !In1(op) && !In2(op) && !In0(op) && !InA(op) }

  lemma FieldsOf(op: u8, aaa: nat, j: nat)
    requires aaa < 8 && j < 32 && op == 32 * aaa + j
    ensures op / 32 == aaa && op % 32 == j && op % 4 == j % 4 && op / 4 % 8 == j / 4
  {
  }

  /** The columns with something left over. */
  predicate InColumn(aaa: nat, j: nat) {
    || j == 0x08 || j == 0x18 || j == 0x1A || j == 0x12 || (j == 0x0A && aaa >= 4) || (j == 0x00 && aaa == 4) || (j == 0x02 && aaa != 5)
    || (j == 0x04 && (aaa == 0 || aaa == 2 || aaa == 3)) || (j == 0x0C && aaa == 0)
    || (j == 0x14 && aaa != 4 && aaa != 5) || (j == 0x1C && aaa != 5) || (j == 0x1E && aaa == 4)
  }

  lemma ColumnsEven(op: u8, aaa: nat, b: nat)
    requires Other(op) && aaa < 8 && b < 8 && op == 32 * aaa + 4 * b
    ensures InColumn(aaa, 4 * b)
  {
    FieldsOf(op, aaa, 4 * b);
    assert b == 0 || b == 1 || b == 2 || b == 3 || b == 4 || b == 5 || b == 6 || b == 7;
  }

  lemma ColumnsOdd(op: u8, aaa: nat, b: nat)
    requires Other(op) && aaa < 8 && b < 8 && op == 32 * aaa + 4 * b + 2
    ensures InColumn(aaa, 4 * b + 2)
  {
    FieldsOf(op, aaa, 4 * b + 2);
    assert b == 0 || b == 1 || b == 2 || b == 3 || b == 4 || b == 5 || b == 6 || b == 7;
  }

  lemma DecodeColumn(op: u8, aaa: nat, j: nat)
    requires aaa < 8 && op == 32 * aaa + j && InColumn(aaa, j)
    ensures Decode(op) == SingleInstr(op)
  {
    match j
    case 0x08 => Column08(op, aaa);
    case 0x18 => Column18(op, aaa);
    case 0x0A => Column0A(op, aaa);
    case 0x1A => Column1A(op, aaa);
    case 0x00 => Idle00(op, aaa);
    case 0x02 => Idle02(op, aaa);
    case 0x04 => Idle04(op, aaa);
    case 0x0C => Idle0C(op, aaa);
    case 0x12 => Idle12(op, aaa);
    case 0x14 => Idle14(op, aaa);
    case 0x1C => Idle1C(op, aaa);
    case 0x1E => Idle1E(op, aaa);
  }

  lemma DecodeOther(op: u8)
    requires Other(op)
    ensures Decode(op) == SingleInstr(op)
  {
    Fields(op);
    var aaa, b := op / 32, op / 4 % 8;
    if op % 4 == 3 {
      Decode3(op, 8 * aaa + b);
    } else if op % 4 == 2 {
      ColumnsOdd(op, aaa, b);
      DecodeColumn(op, aaa, 4 * b + 2);
    } else {
      ColumnsEven(op, aaa, b);
      DecodeColumn(op, aaa, 4 * b);
    }
  }

  // -------- the step

  lemma Chart1(s: Cpu, op: u8)
    requires op == At(s, 0) && In1(op)
    ensures Next(s) == Group1(s, op / 32, op / 4 % 8)
  {
    Fields(op);
    Decode1(op, op / 32, op / 4 % 8);
    Group1Is(s, op / 32, op / 4 % 8);
  }

  lemma Chart2(s: Cpu, op: u8)
    requires op == At(s, 0) && In2(op)
    ensures Next(s) == Group2(s, op / 32, op / 4 % 8)
  {
    Fields(op);
    Decode2(op, op / 32, op / 4 % 8);
    Group2Is(s, op / 32, op / 4 % 8);
  }

  lemma Chart0(s: Cpu, op: u8)
    requires op == At(s, 0) && In0(op)
    ensures Next(s) == Group0(s, op / 32, op / 4 % 8)
  {
    Fields(op);
    Decode0(op, op / 32, op / 4 % 8);
    Group0Is(s, op / 32, op / 4 % 8);
  }

  lemma ChartBranch(s: Cpu, op: u8)
    requires op == At(s, 0) && IsBranch(op)
    ensures Next(s) == Branching(s, op)
  {
    assert op == 0x10 + 32 * (op / 32);
    Branches(op, op / 32);
    BranchIs(s, op);
  }

  lemma ChartFlow(s: Cpu, op: u8)
    requires op == At(s, 0) && IsFlow(op)
    ensures Next(s) == Flow(s, op)
  {
    Flows(op);
    FlowIs(s, op);
  }

  lemma ChartA(s: Cpu, op: u8)
    requires op == At(s, 0) && InA(op)
    ensures var aaa := op / 32; var r := Shift(s.a, s.p, aaa >= 2, aaa % 2 == 1); Next(s) == On(s, 1, 2).(a := r.0, p := r.1)
  {
    assert op == 0x0A + 32 * (op / 32);
    Accumulators(op / 32);
    AccumulatorIs(s, op / 32);
  }

  lemma ChartOther(s: Cpu, op: u8)
    requires op == At(s, 0) && Other(op)
    ensures Next(s) == Single(s, op)
  {
    DecodeOther(op);
    SingleIs(s, op);
  }

  /** Every step does what the bits of its opcode say. */
  lemma {:induction false} StepIsChart(s: Cpu)
    ensures Next(s) == Chart(s)
  {
    var op := At(s, 0);
    OperandAt(s);
    if IsBranch(op) {
      ChartBranch(s, op);
    } else if IsFlow(op) {
      ChartFlow(s, op);
    } else if In1(op) {
      Chart1(s, op);
    } else if In2(op) {
      Chart2(s, op);
    } else if In0(op) {
      Chart0(s, op);
    } else if InA(op) {
      ChartA(s, op);
    } else {
      ChartOther(s, op);
    }
  }

  /** The core's step, by the chart. */
  method StepByChart(core: Core) returns (cyc: nat)
    modifies core
    ensures core.State() == Chart(old(core.State()))
    ensures core.cycles == old(core.cycles) + cyc
  {
    StepIsChart(core.State());
    cyc := core.Step();
  }
}
