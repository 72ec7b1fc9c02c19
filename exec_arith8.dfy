/**
 * The 8-bit arithmetic handlers of the rz80 crate, in place: they read
 * registers with `reg`, write A or the register with `set_reg` and make
 * their `set_flag` calls one after the other; `inc_hl` also writes one byte
 * of memory. Each is proved to leave the state its function in
 * `Arith8Semantics` describes.
 */
module ExecArith8 {
  import opened Bits
  import opened Registers
  import opened MachineState
  import opened FlagWrites
  import opened Cpu
  import Insts
  import Alu
  import S = Arith8Semantics

  /** One rz80 `set_flag` call, extending the writes made since the state `t`. */
  method SetNextFlag(cpu: Z80, ghost t: Regs, ghost ws: seq<(Flag, bool)>, f: Flag, v: bool)
    requires cpu.State() == WithFlags(t, ws)
    modifies cpu
    ensures cpu.State() == WithFlags(t, ws + [(f, v)])
  {
    cpu.SetFlag(f, v);
    WithFlagsSnoc(t, ws, f, v);
  }

  /** The S, Z and H calls with which both `add` and the increments begin. */
  method SignZeroHalfFlags(cpu: Z80, sum: u8, half: bool)
    modifies cpu
    ensures cpu.State() == WithFlags(old(cpu.State()), S.SignZeroHalfWrites(sum, half))
  {
    ghost var t := cpu.State();
    var sign := Insts.AsI8(sum) < 0;
    SetNextFlag(cpu, t, [], Flag.S, sign);
    SetNextFlag(cpu, t, [(Flag.S, sign)], Flag.Z, sum == 0);
    SetNextFlag(cpu, t, [(Flag.S, sign), (Flag.Z, sum == 0)], Flag.H, half);
  }

  /** The six `set_flag` calls of `add`. */
  method AddFlags(cpu: Z80, r: Alu.AluAdd)
    modifies cpu
    ensures cpu.State() == WithFlags(old(cpu.State()), S.AddWrites(r))
  {
    ghost var t := cpu.State();
    SignZeroHalfFlags(cpu, r.sum, r.carry3);
    ghost var u := cpu.State();
    SetNextFlag(cpu, u, [], Flag.PV, r.overflow);
    SetNextFlag(cpu, u, [(Flag.PV, r.overflow)], Flag.N, false);
    SetNextFlag(cpu, u, [(Flag.PV, r.overflow), (Flag.N, false)], Flag.C, r.carry7);
    assert [(Flag.PV, r.overflow), (Flag.N, false)] + [(Flag.C, r.carry7)] == [(Flag.PV, r.overflow), (Flag.N, false), (Flag.C, r.carry7)];
    assert cpu.State() == WithFlags(u, [(Flag.PV, r.overflow), (Flag.N, false), (Flag.C, r.carry7)]);
    WithFlagsAppend(t, S.SignZeroHalfWrites(r.sum, r.carry3), [(Flag.PV, r.overflow), (Flag.N, false), (Flag.C, r.carry7)]);
  }

  /** `add`. */
  method Add(cpu: Z80, rhs: u8)
    modifies cpu
    ensures cpu.State() == S.AddToA(old(cpu.State()), rhs)
  {
    var r := Alu.Add(Truncate8(cpu.State().Reg(Register.A)), rhs);
    cpu.SetReg(Register.A, r.sum as u16);
    AddFlags(cpu, r);
  }

  /** `add_carry`. */
  method AddCarry(cpu: Z80, rhs: u8)
    modifies cpu
    ensures cpu.State() == S.AddCarryToA(old(cpu.State()), rhs)
  {
    var c: u8 := if cpu.State().GetFlag(Flag.C) then 1 else 0;
    var (sum, _) := Alu.OverflowingAdd(rhs, c);
    Add(cpu, sum);
  }

  method AddAR(cpu: Z80, r: Register, carry: bool)
    modifies cpu
    ensures cpu.State() == S.AddAR(old(cpu.State()), r, carry)
  {
    var rhs := Truncate8(cpu.State().Reg(r));
    if carry {
      AddCarry(cpu, rhs);
    } else {
      Add(cpu, rhs);
    }
  }

  method AddAN(cpu: Z80, n: u8, carry: bool)
    modifies cpu
    ensures cpu.State() == S.AddAN(old(cpu.State()), n, carry)
  {
    if carry {
      AddCarry(cpu, n);
    } else {
      Add(cpu, n);
    }
  }

  method AddAHl(cpu: Z80, mem: seq<u8>, carry: bool)
    requires cpu.State().Reg(Register.HL) as int < |mem|
    modifies cpu
    ensures cpu.State() == S.AddAHl(old(cpu.State()), mem, carry)
  {
    var idx := cpu.State().Reg(Register.HL);
    var rhs := mem[idx];
    if carry {
      AddCarry(cpu, rhs);
    } else {
      Add(cpu, rhs);
    }
  }

  method AddAIx(cpu: Z80, d: Insts.i8, mem: seq<u8>, carry: bool)
    requires WrapAdd(cpu.indexX, d as int) as int < |mem|
    modifies cpu
    ensures cpu.State() == S.AddAIx(old(cpu.State()), d, mem, carry)
  {
    var idx := WrapAdd(cpu.indexX, d as int);
    var rhs := mem[idx];
    if carry {
      AddCarry(cpu, rhs);
    } else {
      Add(cpu, rhs);
    }
  }

  method AddAIy(cpu: Z80, d: Insts.i8, mem: seq<u8>, carry: bool)
    requires WrapAdd(cpu.indexY, d as int) as int < |mem|
    modifies cpu
    ensures cpu.State() == S.AddAIy(old(cpu.State()), d, mem, carry)
  {
    var idx := WrapAdd(cpu.indexY, d as int);
    var rhs := mem[idx];
    if carry {
      AddCarry(cpu, rhs);
    } else {
      Add(cpu, rhs);
    }
  }

  /** The five `set_flag` calls of `inc_r` and `inc_hl`. */
  method IncFlags(cpu: Z80, v: Alu.AluAdd)
    requires v.sum >= 1
    modifies cpu
    ensures cpu.State() == WithFlags(old(cpu.State()), S.IncWrites(v))
  {
    ghost var t := cpu.State();
    SignZeroHalfFlags(cpu, v.sum, v.carry3);
    ghost var u := cpu.State();
    var pv := v.sum - 1 == 0x7f;
    SetNextFlag(cpu, u, [], Flag.PV, pv);
    SetNextFlag(cpu, u, [(Flag.PV, pv)], Flag.N, false);
    WithFlagsAppend(t, S.SignZeroHalfWrites(v.sum, v.carry3), [(Flag.PV, pv), (Flag.N, false)]);
  }

  method IncR(cpu: Z80, r: Register)
    requires Truncate8(cpu.State().Reg(r)) != 0xff
    modifies cpu
    ensures cpu.State() == S.IncR(old(cpu.State()), r)
  {
    var v := Alu.Increment(Truncate8(cpu.State().Reg(r)));
    cpu.SetReg(r, v.sum as u16);
    IncFlags(cpu, v);
  }

  /** `inc_hl`: the only handler here that writes memory, which it takes mutably. */
  method IncHl(cpu: Z80, memory: array<u8>)
    requires S.IncHlOk(cpu.State(), memory[..])
    modifies cpu, memory
    ensures cpu.State() == S.IncHl(old(cpu.State()), old(memory[..])).regs
    ensures memory[..] == S.IncHl(old(cpu.State()), old(memory[..])).mem
  {
    var idx := cpu.State().Reg(Register.HL);
    var v := Alu.Increment(memory[idx]);
    memory[idx] := v.sum;
    IncFlags(cpu, v);
  }
}
