/**
 * What the 8-bit arithmetic handlers of the rz80 crate do, as functions of
 * the register file and the memory. `add` writes A and then makes six
 * `set_flag` calls; the discriminants used as masks make several of them
 * land on the same bits of F, so what the flags read afterwards is worked
 * out in `ArithReading`. The `sum - 1` of `inc_r` and `inc_hl` panics when
 * the increment wraps to 0, so both require an operand other than 0xff.
 */
module Arith8Semantics {
  import opened Bitwise
  import opened Bits
  import opened Registers
  import opened Insts
  import opened MachineState
  import opened FlagWrites
  import Alu
  import CarryBorrow

  /** The S, Z and H calls with which `add` and the increments begin: the sign and zero tests of the sum, and the half carry. */
  function SignZeroHalfWrites(sum: u8, half: bool): seq<(Flag, bool)>
  {
    [(Flag.S, AsI8(sum) < 0), (Flag.Z, sum == 0), (Flag.H, half)]
  }

  /** The six `set_flag` calls of `add`: S, Z, H, then PV, N and C. */
  function AddWrites(r: Alu.AluAdd): seq<(Flag, bool)>
  {
    SignZeroHalfWrites(r.sum, r.carry3) + [(Flag.PV, r.overflow), (Flag.N, false), (Flag.C, r.carry7)]
  }

  /** `add`: A receives the low byte of A plus `rhs`, then the flags are written. */
  function AddToA(s: Regs, rhs: u8): Regs
  {
    var r := Alu.Add(Truncate8(s.Reg(Register.A)), rhs);
    WithFlags(s.WithReg(Register.A, r.sum as u16), AddWrites(r))
  }

  /** `add_carry`: the C flag, as 0 or 1, is added to `rhs` with wrapping, then `add`. */
  function AddCarryToA(s: Regs, rhs: u8): Regs
  {
    var c: u8 := if s.GetFlag(Flag.C) then 1 else 0;
    AddToA(s, Alu.OverflowingAdd(rhs, c).0)
  }

  /** The `if carry { add_carry } else { add }` that every `add_a_*` handler ends with. */
  function AddOrCarry(s: Regs, rhs: u8, carry: bool): Regs
  {
    if carry then AddCarryToA(s, rhs) else AddToA(s, rhs)
  }

  /** `add_a_r`: the operand is `reg(r) as u8`. */
  function AddAR(s: Regs, r: Register, carry: bool): Regs
  {
    AddOrCarry(s, Truncate8(s.Reg(r)), carry)
  }

  /** `add_a_n`. */
  function AddAN(s: Regs, n: u8, carry: bool): Regs
  {
    AddOrCarry(s, n, carry)
  }

  /** `add_a_hl`: the operand is the byte at HL, which must lie in the memory. */
  function AddAHl(s: Regs, mem: seq<u8>, carry: bool): Regs
    requires s.Reg(Register.HL) as int < |mem|
  {
    AddOrCarry(s, mem[s.Reg(Register.HL)], carry)
  }

  /** `add_a_ix`: the operand is the byte at IX + d, wrapped. */
  function AddAIx(s: Regs, d: i8, mem: seq<u8>, carry: bool): Regs
    requires WrapAdd(s.indexX, d as int) as int < |mem|
  {
    AddOrCarry(s, mem[WrapAdd(s.indexX, d as int)], carry)
  }

  /** `add_a_iy`: the operand is the byte at IY + d, wrapped. */
  function AddAIy(s: Regs, d: i8, mem: seq<u8>, carry: bool): Regs
    requires WrapAdd(s.indexY, d as int) as int < |mem|
  {
    AddOrCarry(s, mem[WrapAdd(s.indexY, d as int)], carry)
  }

  /** The five `set_flag` calls of `inc_r` and `inc_hl`: S, Z, H, PV, then N. `sum - 1` needs a sum of at least 1. */
  function IncWrites(r: Alu.AluAdd): seq<(Flag, bool)>
    requires r.sum >= 1
  {
    SignZeroHalfWrites(r.sum, r.carry3) + [(Flag.PV, r.sum - 1 == 0x7f), (Flag.N, false)]
  }

  /** `inc_r`: r receives the increment of its low byte, then the flags are written. */
  function IncR(s: Regs, r: Register): Regs
    requires Truncate8(s.Reg(r)) != 0xff
  {
    var v := Alu.Increment(Truncate8(s.Reg(r)));
    WithFlags(s.WithReg(r, v.sum as u16), IncWrites(v))
  }

  /** What `inc_hl` needs: HL in the memory, and a byte there that does not wrap to 0. */
  predicate IncHlOk(s: Regs, mem: seq<u8>)
  {
    s.Reg(Register.HL) as int < |mem| && mem[s.Reg(Register.HL)] != 0xff
  }

  /** `inc_hl`: the byte at HL is incremented in place, then the flags are written. */
  function IncHl(s: Regs, mem: seq<u8>): Machine
    requires IncHlOk(s, mem)
  {
    var idx := s.Reg(Register.HL);
    var v := Alu.Increment(mem[idx]);
    Machine(WithFlags(s, IncWrites(v)), mem[idx := v.sum])
  }

  // ---------------------------------------------------------------------
  // The dispatcher's arms for the arithmetic

  /**
   * The arithmetic instructions `execute` has an arm for: ADD A,r (called
   * without a carry argument, so without carry), INC r and INC (HL). Every
   * other one reaches `todo!` and panics.
   */
  predicate Handles(x: ArithInstr)
  {
    match x
    case Alu(op, o) => op == AluOp.Add && o.OfReg?
    case Inc(m) => m.OfReg? || m.AtHl?
    case Dec(_) => false
  }

  /** The instruction is handled and its handler does not panic. */
  predicate Ok(m: Machine, x: ArithInstr)
  {
    Handles(x) &&
    match x
    case Inc(OfReg(r)) => Truncate8(m.regs.Reg(r)) != 0xff
    case Inc(AtHl) => IncHlOk(m.regs, m.mem)
    case _ => true
  }

  /** The state after the handler of `x`. */
  function Step(m: Machine, x: ArithInstr): Machine
    requires Ok(m, x)
  {
    match x
    case Alu(_, OfReg(r)) => Machine(AddAR(m.regs, r, false), m.mem)
    case Inc(OfReg(r)) => Machine(IncR(m.regs, r), m.mem)
    case Inc(AtHl) => IncHl(m.regs, m.mem)
    case _ => m
  }

  // ---------------------------------------------------------------------
  // Properties

  /**
   * What each flag reads after the writes of `add` or of the increments:
   * the last writes leave bit 0 clear (N), bit 1 holding `pv` and bit 2
   * holding the half carry `h`. So N and C read clear, and Z and S, whose
   * masks cover bits 1 and 2, read whether `pv` or `h` holds.
   */
  function ArithReading(f: Flag, pv: bool, h: bool): bool
  {
    match f
    case C => false
    case N => false
    case PV => pv
    case H => h
    case Z => pv || h
    case S => pv || h
  }

  /** The last write to bit 0 is N's, to bit 1 PV's and to bit 2 H's. */
  lemma AddWritesBits(r: Alu.AluAdd, b0: bool, b1: bool, b2: bool)
    ensures !LastWrite(AddWrites(r), 0, b0)
    ensures LastWrite(AddWrites(r), 1, b1) == r.overflow
    ensures LastWrite(AddWrites(r), 2, b2) == r.carry3
  {
    var ws := AddWrites(r);
    LastWriteCovered(ws, 0, b0, 4);
    LastWriteCovered(ws, 1, b1, 3);
    LastWriteCovered(ws, 2, b2, 2);
  }

  lemma AddFlags(t: Regs, r: Alu.AluAdd, f: Flag)
    ensures WithFlags(t, AddWrites(r)).GetFlag(f) == ArithReading(f, r.overflow, r.carry3)
  {
    var x := Lo16(t.af) as nat;
    AddWritesBits(r, Bit(x, 0), Bit(x, 1), Bit(x, 2));
    ReadingFromBits(t, AddWrites(r), f, false, r.overflow, r.carry3);
  }

  /** The same for the increments, with PV's value at bit 1. */
  lemma IncWritesBits(r: Alu.AluAdd, b0: bool, b1: bool, b2: bool)
    requires r.sum >= 1
    ensures !LastWrite(IncWrites(r), 0, b0)
    ensures LastWrite(IncWrites(r), 1, b1) == (r.sum == 0x80)
    ensures LastWrite(IncWrites(r), 2, b2) == r.carry3
  {
    var ws := IncWrites(r);
    LastWriteCovered(ws, 0, b0, 4);
    LastWriteCovered(ws, 1, b1, 3);
    LastWriteCovered(ws, 2, b2, 2);
  }

  lemma IncFlags(t: Regs, r: Alu.AluAdd, f: Flag)
    requires r.sum >= 1
    ensures WithFlags(t, IncWrites(r)).GetFlag(f) == ArithReading(f, r.sum == 0x80, r.carry3)
  {
    var x := Lo16(t.af) as nat;
    IncWritesBits(r, Bit(x, 0), Bit(x, 1), Bit(x, 2));
    ReadingFromBits(t, IncWrites(r), f, false, r.sum == 0x80, r.carry3);
  }

  /** A becomes A + s modulo 256 and nothing outside AF changes. */
  lemma AddToASum(s: Regs, rhs: u8)
    ensures var r := AddToA(s, rhs);
      r == s.(af := r.af) && r.Reg(Register.A) as int == (s.Reg(Register.A) as int + rhs as int) % 0x100
  {
    AddToAFrame(s, rhs);
    AddToAValue(s, rhs);
  }

  lemma AddToAFrame(s: Regs, rhs: u8)
    ensures var r := AddToA(s, rhs); r == s.(af := r.af)
  {
    var r := Alu.Add(Truncate8(s.Reg(Register.A)), rhs);
    var t := s.WithReg(Register.A, r.sum as u16);
    assert t == s.(af := t.af);
    var w := WithFlags(t, AddWrites(r));
    assert w == t.(af := w.af);
  }

  lemma AddToAValue(s: Regs, rhs: u8)
    ensures AddToA(s, rhs).Reg(Register.A) as int == (s.Reg(Register.A) as int + rhs as int) % 0x100
  {
    var a := Truncate8(s.Reg(Register.A));
    var r := Alu.Add(a, rhs);
    assert r.sum as int == (s.Reg(Register.A) as int + rhs as int) % 0x100 by {
      assert a as int == s.Reg(Register.A) as int;
    }
    var t := s.WithReg(Register.A, r.sum as u16);
    TruncateWiden(r.sum);
    assert t.Reg(Register.A) == r.sum as u16;
    WithFlagsKeepsReg(t, AddWrites(r), Register.A);
    assert AddToA(s, rhs) == WithFlags(t, AddWrites(r));
  }

  /**
   * ADD A,s: PV reads the unsigned carry out of bit 7 (what
   * `overflowing_add` reports), H the carry out of bit 3, N and C read
   * clear, and Z and S read whether either carry happened, not whether the
   * sum is zero or negative.
   */
  lemma AddToAFlags(s: Regs, rhs: u8)
    ensures forall f :: AddToA(s, rhs).GetFlag(f) == ArithReading(f,
      s.Reg(Register.A) as int + rhs as int > 0xff,
      Lo8(Truncate8(s.Reg(Register.A))) as int + Lo8(rhs) as int > 0x0f)
  {
    var a := Truncate8(s.Reg(Register.A));
    var r := Alu.Add(a, rhs);
    CarryBorrow.AddCarryAgreesWithAlu(a, rhs);
    assert a as int == s.Reg(Register.A) as int;
    forall f
      ensures AddToA(s, rhs).GetFlag(f) == ArithReading(f, r.carry7, r.carry3)
    {
      AddFlags(s.WithReg(Register.A, r.sum as u16), r, f);
    }
  }

  /** C's mask is 0, so `flag(C)` reads false in every state. */
  lemma CarryNeverReads(s: Regs)
    ensures !s.GetFlag(Flag.C)
  {
    FlagReadsBits(s, Flag.C);
  }

  /**
   * Because `flag(C)` always reads false, `add_carry` adds nothing to its
   * operand: ADC is ADD, and the `carry` argument of the handlers makes no
   * difference.
   */
  lemma AddCarryIsAdd(s: Regs, rhs: u8, carry: bool)
    ensures AddCarryToA(s, rhs) == AddToA(s, rhs)
    ensures AddOrCarry(s, rhs, carry) == AddToA(s, rhs)
  {
    var c: u8 := if s.GetFlag(Flag.C) then 1 else 0;
    CarryNeverReads(s);
    assert c == 0;
    assert Alu.OverflowingAdd(rhs, c).0 == rhs;
  }

  /** ADD A,r and ADD A,n are `add` on the register's low byte and on `n`, whatever their `carry` argument. */
  lemma AddRegFormsReadOperand(s: Regs, r: Register, n: u8, carry: bool)
    ensures AddAR(s, r, carry) == AddToA(s, Truncate8(s.Reg(r)))
    ensures AddAN(s, n, carry) == AddToA(s, n)
  {
    AddCarryIsAdd(s, Truncate8(s.Reg(r)), carry);
    AddCarryIsAdd(s, n, carry);
  }

  /** ADD A,(HL) is `add` on the byte at HL, whatever its `carry` argument. */
  lemma AddAHlReadsHl(s: Regs, mem: seq<u8>, carry: bool)
    requires s.hl as int < |mem|
    ensures AddAHl(s, mem, carry) == AddToA(s, mem[s.hl])
  {
    assert s.Reg(Register.HL) == s.hl;
    AddCarryIsAdd(s, mem[s.hl], carry);
  }

  /** ADD A,(IX+d) and ADD A,(IY+d) are `add` on the byte at the wrapped address, whatever their `carry` argument. */
  lemma AddIndexedFormsReadWrapped(s: Regs, d: i8, mem: seq<u8>, carry: bool)
    ensures WrapAdd(s.indexX, d as int) as int < |mem| ==> AddAIx(s, d, mem, carry) == AddToA(s, mem[WrapAdd(s.indexX, d as int)])
    ensures WrapAdd(s.indexY, d as int) as int < |mem| ==> AddAIy(s, d, mem, carry) == AddToA(s, mem[WrapAdd(s.indexY, d as int)])
  {
    if WrapAdd(s.indexX, d as int) as int < |mem| {
      AddCarryIsAdd(s, mem[WrapAdd(s.indexX, d as int)], carry);
    }
    if WrapAdd(s.indexY, d as int) as int < |mem| {
      AddCarryIsAdd(s, mem[WrapAdd(s.indexY, d as int)], carry);
    }
  }

  /** Because Z reads the carries rather than the sum, 0 + 0 leaves A zero with Z clear. */
  lemma ZeroSumLeavesZClear(s: Regs, rhs: u8)
    requires s.Reg(Register.A) == 0 && rhs == 0
    ensures AddToA(s, rhs).Reg(Register.A) == 0 && !AddToA(s, rhs).GetFlag(Flag.Z)
  {
    AddToASum(s, rhs);
    AddToAFlags(s, rhs);
  }

  /** 0x7F + 1 overflows into the sign bit, yet PV reads clear: it reports the unsigned carry only. */
  lemma SignedOverflowNotInPv(s: Regs, rhs: u8)
    requires s.Reg(Register.A) == 0x7f && rhs == 1
    ensures AddToA(s, rhs).Reg(Register.A) == 0x80 && !AddToA(s, rhs).GetFlag(Flag.PV)
  {
    assert (s.Reg(Register.A) as int + rhs as int) % 0x100 == 0x80;
    AddToASum(s, rhs);
    AddToAFlags(s, rhs);
  }

  /**
   * INC r on an eight-bit register other than F: r grows by one, every
   * register sharing no byte with r keeps its value (A among them, unless
   * r is A), and nothing outside the main register file changes.
   */
  lemma IncREffect(s: Regs, r: Register)
    requires Truncate8(s.Reg(r)) != 0xff && !r.IsPair() && r != Register.F
    ensures IncR(s, r).Reg(r) as int == s.Reg(r) as int + 1
    ensures forall q :: q != Register.F && !Shares(q, r) ==> IncR(s, r).Reg(q) == s.Reg(q)
    ensures var t := IncR(s, r); t.(af := s.af, bc := s.bc, de := s.de, hl := s.hl) == s
  {
    var a := Truncate8(s.Reg(r));
    assert a as int == s.Reg(r) as int;
    var v := Alu.Increment(a);
    assert v.sum as int == a as int + 1;
    var t := s.WithReg(r, v.sum as u16);
    TruncateWiden(v.sum);
    var w := WithFlags(t, IncWrites(v));
    WithFlagsKeepsReg(t, IncWrites(v), r);
    assert w == t.(af := w.af);
    forall q | q != Register.F && !Shares(q, r)
      ensures w.Reg(q) == s.Reg(q)
    {
      WithRegFrame(s, r, v.sum as u16, q);
      WithFlagsKeepsReg(t, IncWrites(v), q);
    }
  }

  /**
   * The flags after INC r: PV reads whether the operand was 0x7F, the one
   * increment that overflows into the sign bit, H whether its low nibble
   * was 0xF, and C is never written.
   */
  lemma IncRFlags(s: Regs, r: Register)
    requires Truncate8(s.Reg(r)) != 0xff
    ensures forall f :: IncR(s, r).GetFlag(f) == ArithReading(f,
      Truncate8(s.Reg(r)) == 0x7f, Lo8(Truncate8(s.Reg(r))) == 0xf)
  {
    var a := Truncate8(s.Reg(r));
    var v := Alu.Increment(a);
    assert (v.sum == 0x80) == (a == 0x7f);
    assert v.carry3 == (Lo8(a) == 0xf);
    forall f
      ensures IncR(s, r).GetFlag(f) == ArithReading(f, a == 0x7f, Lo8(a) == 0xf)
    {
      IncFlags(s.WithReg(r, v.sum as u16), v, f);
    }
  }

  /**
   * INC (HL) increments the byte at HL and changes no other cell; among the
   * registers only F changes, and the flags read as after INC r.
   */
  lemma IncHlEffect(s: Regs, mem: seq<u8>)
    requires IncHlOk(s, mem)
    ensures var m := IncHl(s, mem);
      |m.mem| == |mem| && m.mem[s.hl] as int == mem[s.hl] as int + 1
      && (forall a :: 0 <= a < |mem| && a != s.hl as int ==> m.mem[a] == mem[a])
    ensures var r := IncHl(s, mem).regs; r == s.(af := r.af) && r.Reg(Register.A) == s.Reg(Register.A)
    ensures forall f :: IncHl(s, mem).regs.GetFlag(f) == ArithReading(f, mem[s.hl] == 0x7f, Lo8(mem[s.hl]) == 0xf)
  {
    assert s.Reg(Register.HL) == s.hl;
    var b := mem[s.hl];
    var v := Alu.Increment(b);
    assert v.sum as int == (b as int + 1) % 0x100 == b as int + 1;
    var m := IncHl(s, mem);
    assert m.mem == mem[s.hl := v.sum];
    assert m.regs == WithFlags(s, IncWrites(v));
    forall f
      ensures IncHl(s, mem).regs.GetFlag(f) == ArithReading(f, v.sum == 0x80, v.carry3)
    {
      IncFlags(s, v, f);
    }
  }
}
