/** The 6502 core over a bus that is plain memory: what one step does, as a function of the whole machine state. */
module Mos6502 {
  import opened Basics

  type u8 = n: int | 0 <= n < 0x100
  type u16 = n: int | 0 <= n < 0x1_0000
  type Ram = m: seq<u8> | |m| == 0x1_0000 witness seq(0x1_0000, _ => 0)

  // ---------------------------------------------------------------- status register

  /** The bits of `p`, from bit 7 down. */
  datatype Flags = Flags(n: bool, v: bool, u: bool, b: bool, d: bool, i: bool, z: bool, c: bool)

  function Cat(hi: int, on: bool): int { 2 * hi + Bit(on) }

  function ToByte(f: Flags): (v: u8) {
    Cat(Cat(Cat(Cat(Cat(Cat(Cat(Bit(f.n), f.v), f.u), f.b), f.d), f.i), f.z), f.c)
  }

  function FromByte(v: u8): Flags {
    var v1 := v / 2;
    var v2 := v1 / 2;
    var v3 := v2 / 2;
    var v4 := v3 / 2;
    var v5 := v4 / 2;
    var v6 := v5 / 2;
    Flags(v6 / 2 == 1, v6 % 2 == 1, v5 % 2 == 1, v4 % 2 == 1, v3 % 2 == 1, v2 % 2 == 1, v1 % 2 == 1, v % 2 == 1)
  }

  lemma Uncat(hi: int, on: bool)
    ensures Cat(hi, on) / 2 == hi && (Cat(hi, on) % 2 == 1 <==> on)
  {
  }

  lemma FlagsRoundTrip(f: Flags)
    ensures FromByte(ToByte(f)) == f
  {
    var v6 := Cat(Bit(f.n), f.v);
    var v5 := Cat(v6, f.u);
    var v4 := Cat(v5, f.b);
    var v3 := Cat(v4, f.d);
    var v2 := Cat(v3, f.i);
    var v1 := Cat(v2, f.z);
    Uncat(v1, f.c);
    Uncat(v2, f.z);
    Uncat(v3, f.i);
    Uncat(v4, f.d);
    Uncat(v5, f.b);
    Uncat(v6, f.u);
    Uncat(Bit(f.n), f.v);
  }

  /** What the stack gets for `p`, and what comes back from it. */
  function Pushed(f: Flags): u8 { ToByte(f.(b := true, u := true)) }

  function Pulled(v: u8): Flags { FromByte(v).(u := true, b := false) }

  /** Bit 5 is always set and the break bit always clear. */
  predicate Settled(f: Flags) { f.u && !f.b }

  lemma PulledPushed(f: Flags)
    requires Settled(f)
    ensures Pulled(Pushed(f)) == f
  {
    FlagsRoundTrip(f.(b := true, u := true));
  }

  // ---------------------------------------------------------------- machine state

  datatype Cpu = Cpu(pc: u16, a: u8, x: u8, y: u8, sp: u8, p: Flags, cycles: nat, mem: Ram)

  /** Addition that wraps at 16 bits. */
  function Up16(n: u16, k: nat): u16
    requires k <= 0x1_0000
  {
    if n + k < 0x1_0000 then n + k else n + k - 0x1_0000
  }

  /** Addition that wraps at 8 bits. */
  function Up8(n: u8, k: nat): u8
    requires k <= 256
  {
    if n + k < 256 then n + k else n + k - 256
  }

  /** The next address in the same page. */
  function NextInPage(w: u16): u16 { w / 256 * 256 + (w + 1) % 256 }

  function Low(n: nat): u8 { n % 256 }

  function High(w: u16): u8 { w / 256 }

  lemma OneBack(n: u16)
    ensures Up16(Up16(n, 2), 0xFFFF) == Up16(n, 1)
  {
  }

  function Word(lo: u8, hi: u8): u16 { lo + 256 * hi }

  function Zn(f: Flags, v: u8): Flags { f.(z := v == 0, n := v >= 128) }

  function Push(s: Cpu, v: u8): Cpu {
    s.(mem := s.mem[0x100 + s.sp := v], sp := Up8(s.sp, 255))
  }

  /** The byte that a pull takes, and the state after it. */
  function Top(s: Cpu): u8 { s.mem[0x100 + Up8(s.sp, 1)] }

  function Pop(s: Cpu): Cpu { s.(sp := Up8(s.sp, 1)) }

  // ---------------------------------------------------------------- instructions

  datatype Reg = A | X | Y

  datatype Mode = Imm | Zp | ZpX | ZpY | Abs | AbsX | AbsY | IndX | IndY

  datatype AluOp = Adc | Sbc | And | Ora | Eor

  datatype ShiftOp = Asl | Lsr | Rol | Ror

  datatype Flag = FC | FZ | FI | FD | FV | FN

  datatype Instr =
    | Ld(r: Reg, m: Mode) | St(r: Reg, m: Mode)
    | Move(from: Reg, to: Reg) | Tsx | Txs | Count(r: Reg, up: bool)
    | Jmp | JmpInd | Jsr | Rts | Brk | Rti
    | Pha | Pla | Php | Plp
    | Put(f: Flag, on: bool) | Branch(f: Flag, on: bool)
    | Alu(k: AluOp, m: Mode) | Cmp(r: Reg, m: Mode) | BitTest(m: Mode)
    | ShiftA(s: ShiftOp) | ShiftM(s: ShiftOp, m: Mode) | CountM(up: bool, m: Mode)
    | Nop

  function Decode(op: u8): Instr {
    match op
    case 0xA9 => Ld(A, Imm) case 0xA5 => Ld(A, Zp) case 0xB5 => Ld(A, ZpX) case 0xAD => Ld(A, Abs)
    case 0xBD => Ld(A, AbsX) case 0xB9 => Ld(A, AbsY) case 0xA1 => Ld(A, IndX) case 0xB1 => Ld(A, IndY)
    case 0xA2 => Ld(X, Imm) case 0xA6 => Ld(X, Zp) case 0xB6 => Ld(X, ZpY) case 0xAE => Ld(X, Abs) case 0xBE => Ld(X, AbsY)
    case 0xA0 => Ld(Y, Imm) case 0xA4 => Ld(Y, Zp) case 0xB4 => Ld(Y, ZpX) case 0xAC => Ld(Y, Abs) case 0xBC => Ld(Y, AbsX)
    case 0x85 => St(A, Zp) case 0x95 => St(A, ZpX) case 0x8D => St(A, Abs) case 0x9D => St(A, AbsX)
    case 0x99 => St(A, AbsY) case 0x81 => St(A, IndX) case 0x91 => St(A, IndY)
    case 0x86 => St(X, Zp) case 0x96 => St(X, ZpY) case 0x8E => St(X, Abs)
    case 0x84 => St(Y, Zp) case 0x94 => St(Y, ZpX) case 0x8C => St(Y, Abs)
    case 0xAA => Move(A, X) case 0xA8 => Move(A, Y) case 0x8A => Move(X, A) case 0x98 => Move(Y, A)
    case 0xBA => Tsx case 0x9A => Txs
    case 0xE8 => Count(X, true) case 0xCA => Count(X, false) case 0xC8 => Count(Y, true) case 0x88 => Count(Y, false)
    case 0x4C => Jmp case 0x6C => JmpInd case 0x20 => Jsr case 0x60 => Rts
    case 0x48 => Pha case 0x68 => Pla case 0x08 => Php case 0x28 => Plp
    case 0x18 => Put(FC, false) case 0x38 => Put(FC, true) case 0x58 => Put(FI, false) case 0x78 => Put(FI, true)
    case 0xB8 => Put(FV, false) case 0xD8 => Put(FD, false) case 0xF8 => Put(FD, true)
    case 0x69 => Alu(Adc, Imm) case 0x65 => Alu(Adc, Zp) case 0x75 => Alu(Adc, ZpX) case 0x6D => Alu(Adc, Abs)
    case 0x7D => Alu(Adc, AbsX) case 0x79 => Alu(Adc, AbsY) case 0x61 => Alu(Adc, IndX) case 0x71 => Alu(Adc, IndY)
    case 0xE9 => Alu(Sbc, Imm) case 0xE5 => Alu(Sbc, Zp) case 0xF5 => Alu(Sbc, ZpX) case 0xED => Alu(Sbc, Abs)
    case 0xFD => Alu(Sbc, AbsX) case 0xF9 => Alu(Sbc, AbsY) case 0xE1 => Alu(Sbc, IndX) case 0xF1 => Alu(Sbc, IndY)
    case 0x29 => Alu(And, Imm) case 0x25 => Alu(And, Zp) case 0x35 => Alu(And, ZpX) case 0x2D => Alu(And, Abs)
    case 0x3D => Alu(And, AbsX) case 0x39 => Alu(And, AbsY) case 0x21 => Alu(And, IndX) case 0x31 => Alu(And, IndY)
    case 0x09 => Alu(Ora, Imm) case 0x05 => Alu(Ora, Zp) case 0x15 => Alu(Ora, ZpX) case 0x0D => Alu(Ora, Abs)
    case 0x1D => Alu(Ora, AbsX) case 0x19 => Alu(Ora, AbsY) case 0x01 => Alu(Ora, IndX) case 0x11 => Alu(Ora, IndY)
    case 0x49 => Alu(Eor, Imm) case 0x45 => Alu(Eor, Zp) case 0x55 => Alu(Eor, ZpX) case 0x4D => Alu(Eor, Abs)
    case 0x5D => Alu(Eor, AbsX) case 0x59 => Alu(Eor, AbsY) case 0x41 => Alu(Eor, IndX) case 0x51 => Alu(Eor, IndY)
    case 0xF0 => Branch(FZ, true) case 0xD0 => Branch(FZ, false) case 0xB0 => Branch(FC, true) case 0x90 => Branch(FC, false)
    case 0x30 => Branch(FN, true) case 0x10 => Branch(FN, false) case 0x70 => Branch(FV, true) case 0x50 => Branch(FV, false)
    case 0x0A => ShiftA(Asl) case 0x4A => ShiftA(Lsr) case 0x2A => ShiftA(Rol) case 0x6A => ShiftA(Ror)
    case 0xC9 => Cmp(A, Imm) case 0xC5 => Cmp(A, Zp) case 0xD5 => Cmp(A, ZpX) case 0xCD => Cmp(A, Abs)
    case 0xDD => Cmp(A, AbsX) case 0xD9 => Cmp(A, AbsY) case 0xC1 => Cmp(A, IndX) case 0xD1 => Cmp(A, IndY)
    case 0xE0 => Cmp(X, Imm) case 0xE4 => Cmp(X, Zp) case 0xEC => Cmp(X, Abs)
    case 0xC0 => Cmp(Y, Imm) case 0xC4 => Cmp(Y, Zp) case 0xCC => Cmp(Y, Abs)
    case 0x24 => BitTest(Zp) case 0x2C => BitTest(Abs)
    case 0xE6 => CountM(true, Zp) case 0xF6 => CountM(true, ZpX) case 0xEE => CountM(true, Abs) case 0xFE => CountM(true, AbsX)
    case 0xC6 => CountM(false, Zp) case 0xD6 => CountM(false, ZpX) case 0xCE => CountM(false, Abs) case 0xDE => CountM(false, AbsX)
    case 0x06 => ShiftM(Asl, Zp) case 0x16 => ShiftM(Asl, ZpX) case 0x0E => ShiftM(Asl, Abs) case 0x1E => ShiftM(Asl, AbsX)
    case 0x46 => ShiftM(Lsr, Zp) case 0x56 => ShiftM(Lsr, ZpX) case 0x4E => ShiftM(Lsr, Abs) case 0x5E => ShiftM(Lsr, AbsX)
    case 0x26 => ShiftM(Rol, Zp) case 0x36 => ShiftM(Rol, ZpX) case 0x2E => ShiftM(Rol, Abs) case 0x3E => ShiftM(Rol, AbsX)
    case 0x66 => ShiftM(Ror, Zp) case 0x76 => ShiftM(Ror, ZpX) case 0x6E => ShiftM(Ror, Abs) case 0x7E => ShiftM(Ror, AbsX)
    case 0x00 => Brk case 0x40 => Rti
    case _ => Nop
  }

  /** The cycles a read through this mode takes. */
  function ReadCycles(m: Mode): nat {
    match m
    case Imm => 2 case Zp => 3 case IndX => 6 case IndY => 5 case _ => 4
  }

  function WriteCycles(m: Mode): nat {
    match m
    case Zp => 3 case AbsX => 5 case AbsY => 5 case IndX => 6 case IndY => 6 case _ => 4
  }

  function ModifyCycles(m: Mode): nat {
    match m
    case Zp => 5 case AbsX => 7 case _ => 6
  }

  /** The cycles of an instruction: no opcode is free, none takes more than BRK. */
  function Cycles(i: Instr): (n: nat)
    ensures 2 <= n <= 7
  {
    match i
    case Ld(_, m) => ReadCycles(m)
    case Alu(_, m) => ReadCycles(m)
    case Cmp(_, m) => ReadCycles(m)
    case BitTest(m) => ReadCycles(m)
    case St(_, m) => WriteCycles(m)
    case ShiftM(_, m) => ModifyCycles(m)
    case CountM(_, m) => ModifyCycles(m)
    case Jmp => 3
    case JmpInd => 5
    case Jsr => 6
    case Rts => 6
    case Rti => 6
    case Brk => 7
    case Pha => 3
    case Php => 3
    case Pla => 4
    case Plp => 4
    case _ => 2
  }

  // ---------------------------------------------------------------- addressing

  function At(s: Cpu, k: nat): u8
    requires k <= 0x1_0000
  {
    s.mem[Up16(s.pc, k)]
  }

  /** How many operand bytes follow the opcode. */
  function Operands(m: Mode): nat {
    match m
    case Abs => 2 case AbsX => 2 case AbsY => 2 case _ => 1
  }

  /** The effective address, with `pc` at the first operand byte. */
  function Address(s: Cpu, m: Mode): u16 {
    match m
    case Imm => s.pc
    case Zp => At(s, 0)
    case ZpX => Up8(At(s, 0), s.x)
    case ZpY => Up8(At(s, 0), s.y)
    case Abs => Word(At(s, 0), At(s, 1))
    case AbsX => Up16(Word(At(s, 0), At(s, 1)), s.x)
    case AbsY => Up16(Word(At(s, 0), At(s, 1)), s.y)
    case IndX => var z := Up8(At(s, 0), s.x); Word(s.mem[z], s.mem[Up8(z, 1)])
    case IndY => var z := At(s, 0); Up16(Word(s.mem[z], s.mem[Up8(z, 1)]), s.y)
  }

  function Skip(s: Cpu, m: Mode): Cpu { s.(pc := Up16(s.pc, Operands(m))) }

  // ---------------------------------------------------------------- arithmetic

  function Sign(v: u8): bool { v >= 128 }

  function Sum(a: u8, v: u8, carry: bool): u8 {
    if a + v + Bit(carry) > 255 then a + v + Bit(carry) - 256 else a + v + Bit(carry)
  }

  /** Carry out of bit 7; overflow when both operands have the sign the result has not. */
  function SumFlags(a: u8, v: u8, f: Flags): Flags {
    var r := Sum(a, v, f.c);
    Zn(f.(c := a + v + Bit(f.c) > 255, v := Sign(a) != Sign(r) && Sign(v) != Sign(r)), r)
  }

  function AddByte(a: u8, v: u8, f: Flags): (u8, Flags) { (Sum(a, v, f.c), SumFlags(a, v, f)) }

  function SubByte(a: u8, v: u8, f: Flags): (u8, Flags) { AddByte(a, 255 - v, f) }

  function Bits(k: AluOp, a: u8, v: u8): u8
    requires k.And? || k.Ora? || k.Eor?
  {
    if k.And? then (a as bv8 & v as bv8) as int
    else if k.Ora? then (a as bv8 | v as bv8) as int
    else (a as bv8 ^ v as bv8) as int
  }

  function AluByte(k: AluOp, a: u8, v: u8, f: Flags): (u8, Flags) {
    if k.Adc? then AddByte(a, v, f)
    else if k.Sbc? then SubByte(a, v, f)
    else (Bits(k, a, v), Zn(f, Bits(k, a, v)))
  }

  function ShiftedTo(k: ShiftOp, v: u8, carry: bool): u8 {
    match k
    case Asl => v * 2 % 256
    case Lsr => v / 2
    case Rol => v * 2 % 256 + Bit(carry)
    case Ror => v / 2 + 128 * Bit(carry)
  }

  predicate ShiftedOut(k: ShiftOp, v: u8) { if k.Asl? || k.Rol? then v >= 128 else v % 2 == 1 }

  function ShiftByte(k: ShiftOp, v: u8, f: Flags): (u8, Flags) {
    var r := ShiftedTo(k, v, f.c);
    (r, Zn(f.(c := ShiftedOut(k, v)), r))
  }

  function Compare(r: u8, v: u8, f: Flags): Flags { Zn(f.(c := r >= v), Up8(r, 256 - v)) }

  function TestBits(a: u8, v: u8, f: Flags): Flags { f.(n := v >= 128, v := v / 64 % 2 == 1, z := Bits(And, v, a) == 0) }

  // ---------------------------------------------------------------- one instruction

  function Get(s: Cpu, r: Reg): u8 {
    match r case A => s.a case X => s.x case Y => s.y
  }

  /** Puts a value in a register and sets Z and N by it. */
  function Set(s: Cpu, r: Reg, v: u8): Cpu {
    match r
    case A => s.(a := v, p := Zn(s.p, v))
    case X => s.(x := v, p := Zn(s.p, v))
    case Y => s.(y := v, p := Zn(s.p, v))
  }

  function FlagOf(f: Flags, k: Flag): bool {
    match k case FC => f.c case FZ => f.z case FI => f.i case FD => f.d case FV => f.v case FN => f.n
  }

  function WithFlag(f: Flags, k: Flag, on: bool): Flags {
    match k
    case FC => f.(c := on) case FZ => f.(z := on) case FI => f.(i := on)
    case FD => f.(d := on) case FV => f.(v := on) case FN => f.(n := on)
  }

  function CountBy(v: u8, up: bool): u8 { if up then Up8(v, 1) else Up8(v, 255) }

  /** A branch target: the operand is a signed byte, relative to the next instruction. */
  function Target(pc: u16, d: u8): u16 { if d < 128 then (pc + d) % 0x1_0000 else (pc + 0x1_0000 + d - 256) % 0x1_0000 }

  function PushWord(s: Cpu, w: u16): Cpu { Push(Push(s, High(w)), Low(w)) }

  function PullWord(s: Cpu): u16 { Word(Top(s), Top(Pop(s))) }

  predicate Reads(i: Instr) { i.Ld? || i.Alu? || i.Cmp? || i.BitTest? }

  predicate Writes(i: Instr) { i.St? || i.ShiftM? || i.CountM? }

  predicate Calls(i: Instr) { i.Jsr? || i.Rts? || i.Brk? || i.Rti? }

  predicate Stacks(i: Instr) { i.Pha? || i.Pla? || i.Php? || i.Plp? }

  /** An instruction with the operand `v`, read from memory. */
  function WithOperand(s: Cpu, i: Instr, v: u8): Cpu
    requires Reads(i)
  {
    match i
    case Ld(r, _) => Set(s, r, v)
    case Alu(k, _) => s.(a := AluByte(k, s.a, v, s.p).0, p := AluByte(k, s.a, v, s.p).1)
    case Cmp(r, _) => s.(p := Compare(Get(s, r), v, s.p))
    case BitTest(_) => s.(p := TestBits(s.a, v, s.p))
  }

  /** What an instruction puts where `v` was in memory, and the flags it leaves. */
  function Replaced(s: Cpu, i: Instr, v: u8): (u8, Flags)
    requires Writes(i)
  {
    match i
    case St(r, _) => (Get(s, r), s.p)
    case ShiftM(k, _) => ShiftByte(k, v, s.p)
    case CountM(up, _) => (CountBy(v, up), Zn(s.p, CountBy(v, up)))
  }

  function Called(s: Cpu, i: Instr): Cpu
    requires Calls(i)
  {
    match i
    case Jsr => PushWord(s, Up16(s.pc, 1)).(pc := Word(At(s, 0), At(s, 1)))
    case Rts => Pop(Pop(s)).(pc := Up16(PullWord(s), 1))
    case Brk =>
      var t := Push(PushWord(s, s.pc), Pushed(s.p));
      t.(p := s.p.(i := true), pc := Word(t.mem[0xFFFE], t.mem[0xFFFF]))
    case Rti => Pop(Pop(Pop(s))).(p := Pulled(Top(s)), pc := PullWord(Pop(s)))
  }

  function Stacked(s: Cpu, i: Instr): Cpu
    requires Stacks(i)
  {
    match i
    case Pha => Push(s, s.a)
    case Pla => Set(Pop(s), A, Top(s))
    case Php => Push(s, Pushed(s.p))
    case Plp => Pop(s).(p := Pulled(Top(s)))
  }

  function Rest(s: Cpu, i: Instr): Cpu
    requires !Reads(i) && !Writes(i) && !Calls(i) && !Stacks(i)
  {
    match i
    case Move(from, to) => Set(s, to, Get(s, from))
    case Tsx => Set(s, X, s.sp)
    case Txs => s.(sp := s.x)
    case Count(r, up) => Set(s, r, CountBy(Get(s, r), up))
    case Jmp => s.(pc := Word(At(s, 0), At(s, 1)))
    case JmpInd =>
      var w := Word(At(s, 0), At(s, 1));
      s.(pc := Word(s.mem[w], s.mem[NextInPage(w)]))
    case Put(f, on) => s.(p := WithFlag(s.p, f, on))
    case Branch(f, on) =>
      s.(pc := if FlagOf(s.p, f) == on then Target(Up16(s.pc, 1), At(s, 0)) else Up16(s.pc, 1))
    case ShiftA(k) => s.(a := ShiftByte(k, s.a, s.p).0, p := ShiftByte(k, s.a, s.p).1)
    case Nop => s
  }

  /** The state after an instruction, with `pc` just past its opcode. */
  function Exec(s: Cpu, i: Instr): Cpu {
    if Reads(i) then WithOperand(Skip(s, i.m), i, s.mem[Address(s, i.m)])
    else if Writes(i) then
      var w := Address(s, i.m);
      Skip(s, i.m).(mem := s.mem[w := Replaced(s, i, s.mem[w]).0], p := Replaced(s, i, s.mem[w]).1)
    else if Calls(i) then Called(s, i)
    else if Stacks(i) then Stacked(s, i)
    else Rest(s, i)
  }

  /** One instruction, opcode and cycles included. */
  function Perform(s: Cpu, i: Instr): Cpu {
    Exec(s.(pc := Up16(s.pc, 1)), i).(cycles := s.cycles + Cycles(i))
  }

  function Instruction(s: Cpu): Instr { Decode(At(s, 0)) }

  /** One step of the machine. */
  function Next(s: Cpu): Cpu { Perform(s, Instruction(s)) }
}
