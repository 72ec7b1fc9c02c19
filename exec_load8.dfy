/**
 * The 8-bit load handlers of the older crate, in place: each reads the
 * CPU through `reg` and writes it through `set_reg` (the macro-based
 * accessors) or a field, or writes one memory byte. Each is proved to
 * leave the state its function in `Load8Semantics` describes.
 */
module ExecLoad8 {
  import opened Bits
  import opened Registers
  import opened Insts
  import opened MachineState
  import opened Cpu
  import S = Load8Semantics

  method LoadRR(cpu: Z80, r: Register, r1: Register)
    modifies cpu
    ensures cpu.State() == S.LoadRR(old(cpu.State()), r, r1)
  {
    var x := cpu.RegMacro(r1);
    cpu.SetRegMacro(r, x);
  }

  method LoadRN(cpu: Z80, r: Register, n: u8)
    modifies cpu
    ensures cpu.State() == S.LoadRN(old(cpu.State()), r, n)
  {
    cpu.SetRegMacro(r, n as u16);
  }

  method LoadRHl(cpu: Z80, r: Register, mem: array<u8>)
    requires cpu.hl as int < mem.Length
    modifies cpu
    ensures cpu.State() == S.LoadRHl(old(cpu.State()), mem[..], r)
  {
    var addr := cpu.RegMacro(Register.HL);
    var nn := mem[addr];
    cpu.SetRegMacro(r, nn as u16);
  }

  method LoadRIx(cpu: Z80, r: Register, d: i8, mem: array<u8>)
    requires 0 <= Offset(cpu.indexX, d as int) < mem.Length
    modifies cpu
    ensures cpu.State() == S.LoadRIx(old(cpu.State()), mem[..], r, d)
  {
    var addr := cpu.indexX as int + d as int;
    var nn := mem[addr];
    cpu.SetRegMacro(r, nn as u16);
  }

  method LoadRIy(cpu: Z80, r: Register, d: i8, mem: array<u8>)
    requires 0 <= Offset(cpu.indexY, d as int) < mem.Length
    modifies cpu
    ensures cpu.State() == S.LoadRIy(old(cpu.State()), mem[..], r, d)
  {
    var addr := cpu.indexY as int + d as int;
    var nn := mem[addr];
    cpu.SetRegMacro(r, nn as u16);
  }

  method LoadHlR(cpu: Z80, r: Register, mem: array<u8>)
    requires cpu.hl as int < mem.Length
    modifies mem
    ensures mem[..] == S.LoadHlR(cpu.State(), old(mem[..]), r)
  {
    var addr := cpu.RegMacro(Register.HL);
    mem[addr] := Truncate8(cpu.RegMacro(r));
  }

  method LoadIxR(cpu: Z80, d: i8, r: Register, mem: array<u8>)
    requires 0 <= Offset(cpu.indexX, d as int) < mem.Length
    modifies mem
    ensures mem[..] == S.LoadIxR(cpu.State(), old(mem[..]), d, r)
  {
    var addr := cpu.indexX as int + d as int;
    mem[addr] := Truncate8(cpu.RegMacro(r));
  }

  method LoadIyR(cpu: Z80, d: i8, r: Register, mem: array<u8>)
    requires 0 <= Offset(cpu.indexY, d as int) < mem.Length
    modifies mem
    ensures mem[..] == S.LoadIyR(cpu.State(), old(mem[..]), d, r)
  {
    var addr := cpu.indexY as int + d as int;
    mem[addr] := Truncate8(cpu.RegMacro(r));
  }

  method LoadHlN(cpu: Z80, n: u8, mem: array<u8>)
    requires cpu.hl as int < mem.Length
    modifies mem
    ensures mem[..] == S.LoadHlN(cpu.State(), old(mem[..]), n)
  {
    var addr := cpu.RegMacro(Register.HL);
    mem[addr] := n;
  }

  method LoadIxN(cpu: Z80, d: i8, n: u8, mem: array<u8>)
    requires 0 <= Offset(cpu.indexX, d as int) < mem.Length
    modifies mem
    ensures mem[..] == S.LoadIxN(cpu.State(), old(mem[..]), d, n)
  {
    var addr := cpu.indexX as int + d as int;
    mem[addr] := n;
  }

  method LoadIyN(cpu: Z80, d: i8, n: u8, mem: array<u8>)
    requires 0 <= Offset(cpu.indexY, d as int) < mem.Length
    modifies mem
    ensures mem[..] == S.LoadIyN(cpu.State(), old(mem[..]), d, n)
  {
    var addr := cpu.indexY as int + d as int;
    mem[addr] := n;
  }

  method LoadABc(cpu: Z80, mem: array<u8>)
    requires cpu.bc as int < mem.Length
    modifies cpu
    ensures cpu.State() == S.LoadABc(old(cpu.State()), mem[..])
  {
    var addr := cpu.RegMacro(Register.BC);
    var n := mem[addr] as u16;
    cpu.SetRegMacro(Register.A, n);
  }

  method LoadADe(cpu: Z80, mem: array<u8>)
    requires cpu.de as int < mem.Length
    modifies cpu
    ensures cpu.State() == S.LoadADe(old(cpu.State()), mem[..])
  {
    var addr := cpu.RegMacro(Register.DE);
    var n := mem[addr] as u16;
    cpu.SetRegMacro(Register.A, n);
  }

  method LoadANn(cpu: Z80, addr: u16, mem: array<u8>)
    requires addr as int < mem.Length
    modifies cpu
    ensures cpu.State() == S.LoadANn(old(cpu.State()), mem[..], addr)
  {
    var n := mem[addr] as u16;
    cpu.SetRegMacro(Register.A, n);
  }

  method LoadBcA(cpu: Z80, mem: array<u8>)
    requires cpu.bc as int < mem.Length
    modifies mem
    ensures mem[..] == S.LoadBcA(cpu.State(), old(mem[..]))
  {
    var addr := cpu.RegMacro(Register.BC);
    mem[addr] := Truncate8(cpu.RegMacro(Register.A));
  }

  method LoadDeA(cpu: Z80, mem: array<u8>)
    requires cpu.de as int < mem.Length
    modifies mem
    ensures mem[..] == S.LoadDeA(cpu.State(), old(mem[..]))
  {
    var addr := cpu.RegMacro(Register.DE);
    mem[addr] := Truncate8(cpu.RegMacro(Register.A));
  }

  method LoadNnA(cpu: Z80, nn: u16, mem: array<u8>)
    requires nn as int < mem.Length
    modifies mem
    ensures mem[..] == S.LoadNnA(cpu.State(), old(mem[..]), nn)
  {
    mem[nn] := Truncate8(cpu.RegMacro(Register.A));
  }

  method LoadAI(cpu: Z80)
    modifies cpu
    ensures cpu.State() == S.LoadAI(old(cpu.State()))
  {
    cpu.SetRegMacro(Register.A, cpu.interrupt as u16);
  }

  method LoadAR(cpu: Z80)
    modifies cpu
    ensures cpu.State() == S.LoadAR(old(cpu.State()))
  {
    cpu.SetRegMacro(Register.A, cpu.refresh as u16);
  }

  method LoadIA(cpu: Z80)
    modifies cpu
    ensures cpu.State() == S.LoadIA(old(cpu.State()))
  {
    cpu.interrupt := Truncate8(cpu.RegMacro(Register.A));
  }

  method LoadRA(cpu: Z80)
    modifies cpu
    ensures cpu.State() == S.LoadRA(old(cpu.State()))
  {
    cpu.refresh := Truncate8(cpu.RegMacro(Register.A));
  }
}
