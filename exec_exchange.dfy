/**
 * The exchange, block transfer and block search handlers of the older
 * crate, in place: they swap fields of the CPU, copy one byte of memory and
 * make their `set_flag` calls one after the other. A handler that only
 * reads memory (`&[u8]`) takes it as a sequence, one that writes it
 * (`&mut [u8]`) as an array. Each is proved to leave
 * the state its function in `ExchangeSemantics` describes.
 */
module ExecExchange {
  import opened Bits
  import opened Registers
  import opened MachineState
  import opened FlagWrites
  import opened Cpu
  import S = ExchangeSemantics

  method ExDeHl(cpu: Z80)
    modifies cpu
    ensures cpu.State() == S.ExDeHl(old(cpu.State()))
  {
    cpu.de, cpu.hl := cpu.hl, cpu.de;
  }

  method ExAfAf1(cpu: Z80)
    modifies cpu
    ensures cpu.State() == S.ExAfAf1(old(cpu.State()))
  {
    cpu.af, cpu.af1 := cpu.af1, cpu.af;
  }

  method Exx(cpu: Z80)
    modifies cpu
    ensures cpu.State() == S.Exx(old(cpu.State()))
  {
    cpu.bc, cpu.bc1 := cpu.bc1, cpu.bc;
    cpu.de, cpu.de1 := cpu.de1, cpu.de;
    cpu.hl, cpu.hl1 := cpu.hl1, cpu.hl;
  }

  method ExSpHl(cpu: Z80, mem: seq<u8>)
    requires S.StackOk(cpu.State(), mem)
    modifies cpu
    ensures cpu.State() == S.ExSpHl(old(cpu.State()), mem)
  {
    var lo := mem[cpu.stackPtr];
    cpu.SetRegMacro(Register.L, lo as u16);
    var hi := mem[cpu.stackPtr + 1];
    cpu.SetRegMacro(Register.H, hi as u16);
  }

  method ExSpIx(cpu: Z80, mem: seq<u8>)
    requires S.StackOk(cpu.State(), mem)
    modifies cpu
    ensures cpu.State() == S.ExSpIx(old(cpu.State()), mem)
  {
    var lo := mem[cpu.stackPtr];
    cpu.indexX := SetLowerMasked(cpu.indexX, lo as u16);
    var hi := mem[cpu.stackPtr + 1];
    cpu.indexX := SetUpperMasked(cpu.indexX, hi as u16);
  }

  method ExSpIy(cpu: Z80, mem: seq<u8>)
    requires S.StackOk(cpu.State(), mem)
    modifies cpu
    ensures cpu.State() == S.ExSpIy(old(cpu.State()), mem)
  {
    var lo := mem[cpu.stackPtr];
    cpu.indexY := SetLowerMasked(cpu.indexY, lo as u16);
    var hi := mem[cpu.stackPtr + 1];
    cpu.indexY := SetUpperMasked(cpu.indexY, hi as u16);
  }

  /** One `set_flag` call, extending the writes made since the state `t`. */
  method SetNextFlag(cpu: Z80, ghost t: Regs, ghost ws: seq<(Flag, bool)>, f: Flag, v: bool)
    requires cpu.State() == WithFlags(t, ws)
    modifies cpu
    ensures cpu.State() == WithFlags(t, ws + [(f, v)])
  {
    cpu.SetFlagMacro(f, v);
    WithFlagsSnoc(t, ws, f, v);
  }

  /** `if cond { cpu.prog_counter -= 2; }`: the repeating forms go back to their own first byte. */
  method RewindIf(cpu: Z80, cond: bool)
    requires cond ==> cpu.progCounter >= 2
    modifies cpu
    ensures cpu.State() == S.RewindIf(old(cpu.State()), cond)
  {
    if cond {
      cpu.progCounter := cpu.progCounter - 2;
    }
  }

  /** `cpu.de += 1; cpu.hl += 1; cpu.bc -= 1;` of LDI and LDIR. */
  method StepForward(cpu: Z80)
    requires cpu.de < 0xffff && cpu.hl < 0xffff && cpu.bc >= 1
    modifies cpu
    ensures cpu.State() == old(cpu.State()).(de := old(cpu.de) + 1, hl := old(cpu.hl) + 1, bc := old(cpu.bc) - 1)
  {
    cpu.de := cpu.de + 1;
    cpu.hl := cpu.hl + 1;
    cpu.bc := cpu.bc - 1;
  }

  /** `cpu.de -= 1; cpu.hl -= 1; cpu.bc -= 1;` of LDD and LDDR. */
  method StepBackward(cpu: Z80)
    requires cpu.de >= 1 && cpu.hl >= 1 && cpu.bc >= 1
    modifies cpu
    ensures cpu.State() == old(cpu.State()).(de := old(cpu.de) - 1, hl := old(cpu.hl) - 1, bc := old(cpu.bc) - 1)
  {
    cpu.de := cpu.de - 1;
    cpu.hl := cpu.hl - 1;
    cpu.bc := cpu.bc - 1;
  }

  /** `cpu.hl += 1; cpu.bc -= 1;` of CPI and CPIR. */
  method SearchForward(cpu: Z80)
    requires cpu.hl < 0xffff && cpu.bc >= 1
    modifies cpu
    ensures cpu.State() == old(cpu.State()).(hl := old(cpu.hl) + 1, bc := old(cpu.bc) - 1)
  {
    cpu.hl := cpu.hl + 1;
    cpu.bc := cpu.bc - 1;
  }

  /** `cpu.hl -= 1; cpu.bc -= 1;` of CPD and CPDR. */
  method SearchBackward(cpu: Z80)
    requires cpu.hl >= 1 && cpu.bc >= 1
    modifies cpu
    ensures cpu.State() == old(cpu.State()).(hl := old(cpu.hl) - 1, bc := old(cpu.bc) - 1)
  {
    cpu.hl := cpu.hl - 1;
    cpu.bc := cpu.bc - 1;
  }

  /** The comparison the searches begin with: `A - mem[HL]` in `i32`. */
  method ReadCompare(cpu: Z80, mem: seq<u8>) returns (cmp: int)
    requires cpu.State().hl as int < |mem|
    ensures cmp == S.Compare(cpu.State(), mem)
  {
    var addr := cpu.RegMacro(Register.HL);
    var val := mem[addr] as int;
    cmp := cpu.RegMacro(Register.A) as int - val;
  }

  /** `mem[dest] = mem[src]`. */
  method CopyByte(mem: array<u8>, src: u16, dest: u16)
    requires src as int < mem.Length && dest as int < mem.Length
    modifies mem
    ensures mem[..] == old(mem[..])[dest := old(mem[src])]
  {
    mem[dest] := mem[src];
  }

  /** The three `set_flag` calls of the block transfers. */
  method TransferFlags(cpu: Z80, pv: bool)
    modifies cpu
    ensures cpu.State() == WithFlags(old(cpu.State()), S.TransferWrites(pv))
  {
    ghost var t := cpu.State();
    SetNextFlag(cpu, t, [], Flag.H, false);
    SetNextFlag(cpu, t, [(Flag.H, false)], Flag.PV, pv);
    SetNextFlag(cpu, t, [(Flag.H, false), (Flag.PV, pv)], Flag.N, false);
  }

  /** The four `set_flag` calls of CPI, CPD and CPDR. */
  method SearchFlags(cpu: Z80, cmp: int, pv: bool)
    modifies cpu
    ensures cpu.State() == WithFlags(old(cpu.State()), S.SearchWrites(cmp, pv))
  {
    ghost var t := cpu.State();
    SetNextFlag(cpu, t, [], Flag.S, cmp < 0);
    SetNextFlag(cpu, t, [(Flag.S, cmp < 0)], Flag.Z, cmp == 0);
    SetNextFlag(cpu, t, [(Flag.S, cmp < 0), (Flag.Z, cmp == 0)], Flag.PV, pv);
    SetNextFlag(cpu, t, [(Flag.S, cmp < 0), (Flag.Z, cmp == 0), (Flag.PV, pv)], Flag.N, true);
    assert [(Flag.S, cmp < 0), (Flag.Z, cmp == 0), (Flag.PV, pv)] + [(Flag.N, true)] == S.SearchWrites(cmp, pv);
  }

  /** The two `set_flag` calls of CPIR. */
  method RepeatSearchFlags(cpu: Z80, cmp: int)
    modifies cpu
    ensures cpu.State() == WithFlags(old(cpu.State()), S.RepeatSearchWrites(cmp))
  {
    ghost var t := cpu.State();
    SetNextFlag(cpu, t, [], Flag.N, cmp < 0);
    SetNextFlag(cpu, t, [(Flag.N, cmp < 0)], Flag.Z, cmp == 0);
    assert [(Flag.N, cmp < 0)] + [(Flag.Z, cmp == 0)] == S.RepeatSearchWrites(cmp);
  }

  method Ldi(cpu: Z80, mem: array<u8>)
    requires S.LdiOk(cpu.State(), mem[..])
    modifies cpu, mem
    ensures cpu.State() == S.Ldi(old(cpu.State()), old(mem[..])).regs
    ensures mem[..] == S.Ldi(old(cpu.State()), old(mem[..])).mem
  {
    ghost var s, m := cpu.State(), mem[..];
    S.LdiSteps(s, m);
    ghost var t := s.(de := s.de + 1, hl := s.hl + 1, bc := s.bc - 1);
    var src := cpu.hl;
    var dest := cpu.de;
    CopyByte(mem, src, dest);
    assert mem[..] == m[s.de := m[s.hl]];
    StepForward(cpu);
    assert cpu.State() == t;
    TransferFlags(cpu, cpu.bc - 1 != 0);
    assert cpu.State() == WithFlags(t, S.TransferWrites(t.bc - 1 != 0));
  }

  /** `exchange_ldir`: the same steps as `exchange_ldi`, then the rewind. */
  method Ldir(cpu: Z80, mem: array<u8>)
    requires S.LdirOk(cpu.State(), mem[..])
    modifies cpu, mem
    ensures cpu.State() == S.Ldir(old(cpu.State()), old(mem[..])).regs
    ensures mem[..] == S.Ldir(old(cpu.State()), old(mem[..])).mem
  {
    S.LdirAlwaysRepeats(cpu.State(), mem[..]);
    Ldi(cpu, mem);
    RewindIf(cpu, cpu.bc != 0);
  }

  method Ldd(cpu: Z80, mem: array<u8>)
    requires S.LddOk(cpu.State(), mem[..])
    modifies cpu, mem
    ensures cpu.State() == S.Ldd(old(cpu.State()), old(mem[..])).regs
    ensures mem[..] == S.Ldd(old(cpu.State()), old(mem[..])).mem
  {
    ghost var s, m := cpu.State(), mem[..];
    S.LddSteps(s, m);
    ghost var t := s.(de := s.de - 1, hl := s.hl - 1, bc := s.bc - 1);
    var src := cpu.hl;
    var dest := cpu.de;
    CopyByte(mem, src, dest);
    assert mem[..] == m[s.de := m[s.hl]];
    StepBackward(cpu);
    assert cpu.State() == t;
    TransferFlags(cpu, cpu.bc != 0);
    assert cpu.State() == WithFlags(t, S.TransferWrites(t.bc != 0));
  }

  /** `exchange_lddr`: the same steps as `exchange_ldd`, then the rewind. */
  method Lddr(cpu: Z80, mem: array<u8>)
    requires S.LddrOk(cpu.State(), mem[..])
    modifies cpu, mem
    ensures cpu.State() == S.Lddr(old(cpu.State()), old(mem[..])).regs
    ensures mem[..] == S.Lddr(old(cpu.State()), old(mem[..])).mem
  {
    S.LddrRepeatsUntilCountDone(cpu.State(), mem[..]);
    Ldd(cpu, mem);
    RewindIf(cpu, cpu.bc != 0);
  }

  method Cpi(cpu: Z80, mem: seq<u8>)
    requires S.CpiOk(cpu.State(), mem)
    modifies cpu
    ensures cpu.State() == S.Cpi(old(cpu.State()), mem)
  {
    ghost var s := cpu.State();
    var cmp := ReadCompare(cpu, mem);
    SearchForward(cpu);
    ghost var t := cpu.State();
    assert t == s.(hl := s.hl + 1, bc := s.bc - 1);
    S.CpiAfterStep(s, mem, t, cmp);
    SearchFlags(cpu, cmp, cpu.bc != 0);
  }

  method Cpir(cpu: Z80, mem: seq<u8>)
    requires S.CpirOk(cpu.State(), mem)
    modifies cpu
    ensures cpu.State() == S.Cpir(old(cpu.State()), mem)
  {
    var cmp := ReadCompare(cpu, mem);
    RepeatSearchFlags(cpu, cmp);
    SearchForward(cpu);
    RewindIf(cpu, cpu.bc != 0 || cmp != 0);
  }

  method Cpd(cpu: Z80, mem: seq<u8>)
    requires S.CpdOk(cpu.State(), mem)
    modifies cpu
    ensures cpu.State() == S.Cpd(old(cpu.State()), mem)
  {
    ghost var s := cpu.State();
    var cmp := ReadCompare(cpu, mem);
    SearchBackward(cpu);
    ghost var t := cpu.State();
    assert t == s.(hl := s.hl - 1, bc := s.bc - 1);
    S.CpdAfterStep(s, mem, t, cmp);
    SearchFlags(cpu, cmp, cpu.bc != 0);
  }

  /** `exchange_cpdr`: the same steps as `exchange_cpd`, then the rewind. */
  method Cpdr(cpu: Z80, mem: seq<u8>)
    requires S.CpdrOk(cpu.State(), mem)
    modifies cpu
    ensures cpu.State() == S.Cpdr(old(cpu.State()), mem)
  {
    S.CpdrRepeats(cpu.State(), mem);
    var cmp := cpu.RegMacro(Register.A) as int - mem[cpu.RegMacro(Register.HL)] as int;
    Cpd(cpu, mem);
    RewindIf(cpu, cpu.bc != 0 || cmp != 0);
  }

}
