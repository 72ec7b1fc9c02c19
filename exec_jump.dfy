/**
 * The jump handlers of the older crate, in place: they assign the program
 * counter field, and DJNZ writes B through `set_reg`. Each is proved to
 * leave the state its function in `JumpSemantics` describes.
 */
module ExecJump {
  import opened Bits
  import opened Registers
  import opened Insts
  import opened MachineState
  import opened Cpu
  import S = JumpSemantics

  method JumpNn(cpu: Z80, nn: u16)
    modifies cpu
    ensures cpu.State() == S.JumpNn(old(cpu.State()), nn)
  {
    cpu.progCounter := nn;
  }

  /** `jump_cc_nn`: the condition is looked up with the older crate's `flag`. */
  method JumpCcNn(cpu: Z80, cc: Condition, nn: u16)
    modifies cpu
    ensures cpu.State() == S.JumpCcNn(old(cpu.State()), cc, nn)
  {
    var flag := match cc
      case Z => cpu.FlagMacro(Flag.Z)
      case NZ => !cpu.FlagMacro(Flag.Z)
      case C => cpu.FlagMacro(Flag.C)
      case NC => !cpu.FlagMacro(Flag.C)
      case PO => cpu.FlagMacro(Flag.PV)
      case PE => !cpu.FlagMacro(Flag.PV)
      case P => cpu.FlagMacro(Flag.S)
      case M => !cpu.FlagMacro(Flag.S);
    if flag {
      cpu.progCounter := nn;
    }
  }

  /** `jumpr_e`: the sum is formed in `i32` and cast back with `as u16`. */
  method JumprE(cpu: Z80, e: i8)
    modifies cpu
    ensures cpu.State() == S.JumprE(old(cpu.State()), e)
  {
    var newPc := cpu.progCounter as int + e as int;
    cpu.progCounter := (newPc % 0x10000) as u16;
  }

  method JrFlagE(cpu: Z80, flag: Flag, e: i8)
    modifies cpu
    ensures cpu.State() == S.JrFlagE(old(cpu.State()), flag, e)
  {
    if cpu.FlagMacro(flag) {
      JumprE(cpu, e);
    }
  }

  method JrNflagE(cpu: Z80, flag: Flag, e: i8)
    modifies cpu
    ensures cpu.State() == S.JrNflagE(old(cpu.State()), flag, e)
  {
    if !cpu.FlagMacro(flag) {
      JumprE(cpu, e);
    }
  }

  method JumpHl(cpu: Z80)
    modifies cpu
    ensures cpu.State() == S.JumpHl(old(cpu.State()))
  {
    cpu.progCounter := cpu.hl;
  }

  method JumpIx(cpu: Z80)
    modifies cpu
    ensures cpu.State() == S.JumpIx(old(cpu.State()))
  {
    cpu.progCounter := cpu.indexX;
  }

  method JumpIy(cpu: Z80)
    modifies cpu
    ensures cpu.State() == S.JumpIy(old(cpu.State()))
  {
    cpu.progCounter := cpu.indexY;
  }

  /** `djnz_e`: B is read and written with the older crate's accessors. */
  method DjnzE(cpu: Z80, e: i8)
    requires S.DjnzOk(cpu.State())
    modifies cpu
    ensures cpu.State() == S.DjnzE(old(cpu.State()), e)
  {
    var b := cpu.RegMacro(Register.B);
    cpu.SetRegMacro(Register.B, b - 1);
    if b - 1 != 0 {
      JumprE(cpu, e);
    }
  }
}
