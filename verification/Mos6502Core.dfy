/** The 6502 core as it runs: registers and memory changed in place, one instruction at a time. */
module Mos6502Core {
  import opened Mos6502
  import opened Mos6502Bits

  class Core {
    var pc: u16
    var a: u8
    var x: u8
    var y: u8
    var sp: u8
    var p: Flags
    var cycles: nat
    var mem: Ram

    ghost function State(): Cpu
      reads this
    {
      Cpu(pc, a, x, y, sp, p, cycles, mem)
    }

    /** Power-on state; the first instruction is where the reset vector points. */
    constructor (ram: Ram)
      ensures State() == Cpu(Word(ram[0xFFFC], ram[0xFFFD]), 0, 0, 0, 0xFD, Flags(false, false, true, false, false, true, false, false), 0, ram)
    {
      a, x, y, cycles, mem := 0, 0, 0, 0, ram;
      p := Flags(false, false, true, false, false, true, false, false);
      sp := 0xFD;
      pc := Word(ram[0xFFFC], ram[0xFFFD]);
    }

    method Push8(v: u8)
      modifies this`mem, this`sp
      ensures State() == Push(old(State()), v)
    {
      mem := mem[0x100 + sp := v];
      sp := if sp == 0 then 255 else sp - 1;
    }

    method Pop8() returns (v: u8)
      modifies this`sp
      ensures v == Top(old(State())) && State() == Pop(old(State()))
    {
      sp := if sp == 255 then 0 else sp + 1;
      v := mem[0x100 + sp];
    }

    /** The byte at `pc`, which moves on. */
    method Fetch8() returns (v: u8)
      modifies this`pc
      ensures v == At(old(State()), 0) && State() == old(State()).(pc := Up16(old(pc), 1))
    {
      v := mem[pc];
      pc := Up16(pc, 1);
    }

    method Fetch16() returns (w: u16)
      modifies this`pc
      ensures w == Word(At(old(State()), 0), At(old(State()), 1)) && State() == old(State()).(pc := Up16(old(pc), 2))
    {
      w := Word(mem[pc], mem[Up16(pc, 1)]);
      pc := Up16(pc, 2);
    }

    /** The effective address of a mode; `pc` moves past the operand. */
    method Effective(m: Mode) returns (addr: u16)
      modifies this`pc
      ensures addr == Address(old(State()), m) && State() == Skip(old(State()), m)
    {
      match m {
        case Imm => addr := pc; pc := Up16(pc, 1);
        case Zp => addr := Fetch8();
        case ZpX => var z := Fetch8(); addr := Up8(z, x);
        case ZpY => var z := Fetch8(); addr := Up8(z, y);
        case Abs => addr := Fetch16();
        case AbsX => var w := Fetch16(); addr := Up16(w, x);
        case AbsY => var w := Fetch16(); addr := Up16(w, y);
        case IndX => var b := Fetch8(); var z := Up8(b, x); addr := Word(mem[z], mem[Up8(z, 1)]);
        case IndY => var z := Fetch8(); addr := Up16(Word(mem[z], mem[Up8(z, 1)]), y);
      }
    }

    method SetZn(v: u8)
      modifies this`p
      ensures p == Zn(old(p), v)
    {
      p := p.(z := v == 0);
      var negative := TestSign(v);
      p := p.(n := negative);
    }

    method AdcBin(v: u8)
      modifies this`a, this`p
      ensures a == Sum(old(a), v, old(p).c) && p == SumFlags(old(a), v, old(p))
    {
      var sum := a + v + (if p.c then 1 else 0);
      var res := sum % 0x100;
      p := p.(c := sum > 0xFF);
      var over := TestOverflow(a, v, res);
      p := p.(v := over);
      a := res;
      SetZn(a);
    }

    method SbcBin(v: u8)
      modifies this`a, this`p
      ensures a == Sum(old(a), 255 - v, old(p).c) && p == SumFlags(old(a), 255 - v, old(p))
    {
      var w := Invert(v);
      AdcBin(w);
    }

    method Shifted(k: ShiftOp, v: u8) returns (r: u8)
      modifies this`p
      ensures r == ShiftByte(k, v, old(p)).0 && p == ShiftByte(k, v, old(p)).1
    {
      var out;
      r, out := Shift(k, v, p.c);
      p := p.(c := out);
      SetZn(r);
    }

    method SetReg(r: Reg, v: u8)
      modifies this`a, this`x, this`y, this`p
      ensures State() == Set(old(State()), r, v)
    {
      match r {
        case A => a := v;
        case X => x := v;
        case Y => y := v;
      }
      SetZn(v);
    }

    /** Instructions that read memory through a mode. */
    method ExecRead(i: Instr)
      requires Reads(i)
      modifies this
      ensures State() == Exec(old(State()), i)
    {
      var addr := Effective(i.m);
      WithValue(i, mem[addr]);
    }

    method WithValue(i: Instr, v: u8)
      requires Reads(i)
      modifies this`a, this`x, this`y, this`p
      ensures State() == WithOperand(old(State()), i, v)
    {
      match i
      case Ld(r, _) => SetReg(r, v);
      case Alu(k, _) =>
        if k.Adc? {
          AdcBin(v);
        } else if k.Sbc? {
          SbcBin(v);
        } else {
          a := Bits(k, a, v);
          SetZn(a);
        }
      case Cmp(r, _) =>
        var reg := match r case A => a case X => x case Y => y;
        p := p.(c := reg >= v);
        SetZn(Up8(reg, 256 - v));
      case BitTest(_) => p := TestBits(a, v, p);
    }

    /** Instructions that write memory through a mode. */
    method ExecWrite(i: Instr)
      requires Writes(i)
      modifies this
      ensures State() == Exec(old(State()), i)
    {
      var addr := Effective(i.m);
      var v;
      match i {
        case St(r, _) => v := match r case A => a case X => x case Y => y;
        case ShiftM(k, _) => v := Shifted(k, mem[addr]);
        case CountM(up, _) => v := CountBy(mem[addr], up); SetZn(v);
      }
      mem := mem[addr := v];
    }

    /** Calls and returns. */
    method ExecCall(i: Instr)
      requires Calls(i)
      modifies this
      ensures State() == Called(old(State()), i)
    {
      match i
      case Jsr =>
        var target := Fetch16();
        OneBack(old(pc));
        var ret := Up16(pc, 0xFFFF);
        Push8(High(ret));
        Push8(Low(ret));
        pc := target;
      case Rts =>
        var lo := Pop8();
        var hi := Pop8();
        pc := Up16(Word(lo, hi), 1);
      case Brk =>
        Push8(High(pc));
        Push8(Low(pc));
        Push8(Pushed(p));
        p := p.(i := true);
        pc := Word(mem[0xFFFE], mem[0xFFFF]);
      case Rti =>
        var v := Pop8();
        p := Pulled(v);
        var lo := Pop8();
        var hi := Pop8();
        pc := Word(lo, hi);
    }

    method ExecStack(i: Instr)
      requires Stacks(i)
      modifies this
      ensures State() == Stacked(old(State()), i)
    {
      match i
      case Pha => Push8(a);
      case Pla => var v := Pop8(); SetReg(A, v);
      case Php => Push8(Pushed(p));
      case Plp => var v := Pop8(); p := Pulled(v);
    }

    method ExecRest(i: Instr)
      requires !Reads(i) && !Writes(i) && !Calls(i) && !Stacks(i)
      modifies this
      ensures State() == Rest(old(State()), i)
    {
      match i
      case Move(from, to) => SetReg(to, match from case A => a case X => x case Y => y);
      case Tsx => SetReg(X, sp);
      case Txs => sp := x;
      case Count(r, up) => SetReg(r, CountBy(match r case A => a case X => x case Y => y, up));
      case Jmp => pc := Fetch16();
      case JmpInd => var w := Fetch16(); pc := Word(mem[w], mem[NextInPage(w)]);
      case Put(f, on) => p := WithFlag(p, f, on);
      case Branch(f, on) => var d := Fetch8(); if FlagOf(p, f) == on { pc := Target(pc, d); }
      case ShiftA(k) => a := Shifted(k, a);
      case Nop =>
    }

    /** Executes one instruction and says how many cycles it took. */
    method Step() returns (cyc: nat)
      modifies this
      ensures State() == Next(old(State()))
      ensures cyc == Cycles(Instruction(old(State()))) && 2 <= cyc <= 7
    {
      var op := Fetch8();
      var i := Decode(op);
      cyc := Cycles(i);
      if Reads(i) {
        ExecRead(i);
      } else if Writes(i) {
        ExecWrite(i);
      } else if Calls(i) {
        ExecCall(i);
      } else if Stacks(i) {
        ExecStack(i);
      } else {
        ExecRest(i);
      }
      cycles := cycles + cyc;
    }
  }
}
