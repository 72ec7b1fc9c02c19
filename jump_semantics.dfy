/**
 * What the jump handlers of the older crate do, as functions of the
 * register file. They assign the program counter, and DJNZ also writes B;
 * none of them writes a flag or the memory. A relative jump adds its
 * displacement to the counter in `i32` and casts the sum back with
 * `as u16`, which wraps around the address space.
 */
module JumpSemantics {
  import opened Bits
  import opened Registers
  import opened Insts
  import opened MachineState

  /**
   * The table of `jump_cc_nn`: Z and C test their flag, NZ and NC its
   * negation; PO tests PV and PE its negation; P tests S and M its
   * negation.
   */
  function CondHolds(s: Regs, cc: Condition): bool
  {
    match cc
    case Z => s.GetFlag(Flag.Z)
    case NZ => !s.GetFlag(Flag.Z)
    case C => s.GetFlag(Flag.C)
    case NC => !s.GetFlag(Flag.C)
    case PO => s.GetFlag(Flag.PV)
    case PE => !s.GetFlag(Flag.PV)
    case P => s.GetFlag(Flag.S)
    case M => !s.GetFlag(Flag.S)
  }

  /** `jump_nn`. */
  function JumpNn(s: Regs, nn: u16): Regs
  {
    s.(progCounter := nn)
  }

  /** `jump_cc_nn`. */
  function JumpCcNn(s: Regs, cc: Condition, nn: u16): Regs
  {
    if CondHolds(s, cc) then s.(progCounter := nn) else s
  }

  /** `jumpr_e`: the counter plus `e`, wrapped to 16 bits. */
  function JumprE(s: Regs, e: i8): Regs
  {
    s.(progCounter := WrapAdd(s.progCounter, e as int))
  }

  /** `jr_flag_e`: the relative jump when `flag` reads set. */
  function JrFlagE(s: Regs, flag: Flag, e: i8): Regs
  {
    if s.GetFlag(flag) then JumprE(s, e) else s
  }

  /** `jr_nflag_e`: the relative jump when `flag` reads clear. */
  function JrNflagE(s: Regs, flag: Flag, e: i8): Regs
  {
    if !s.GetFlag(flag) then JumprE(s, e) else s
  }

  /** `jump_hl`. */
  function JumpHl(s: Regs): Regs
  {
    s.(progCounter := s.hl)
  }

  /** `jump_ix`. */
  function JumpIx(s: Regs): Regs
  {
    s.(progCounter := s.indexX)
  }

  /** `jump_iy`. */
  function JumpIy(s: Regs): Regs
  {
    s.(progCounter := s.indexY)
  }

  /** `b - 1` is a `u16` subtraction, which panics when B is 0. */
  predicate DjnzOk(s: Regs)
  {
    s.Reg(Register.B) >= 1
  }

  /** `djnz_e`: B counts down, and the relative jump is taken while it is not zero. */
  function DjnzE(s: Regs, e: i8): Regs
    requires DjnzOk(s)
  {
    var b := s.Reg(Register.B);
    var t := s.WithReg(Register.B, b - 1);
    if b - 1 != 0 then JumprE(t, e) else t
  }

  // ---------------------------------------------------------------------
  // The dispatcher's arms for the jumps

  predicate Ok(m: Machine, x: JumpInstr)
  {
    x.DjnzE? ==> DjnzOk(m.regs)
  }

  /**
   * The state after the handler of `x`: JR C and JR NC test flag C, JR Z
   * and JR NZ flag Z. The memory is never written.
   */
  function Step(m: Machine, x: JumpInstr): Machine
    requires Ok(m, x)
  {
    var s := m.regs;
    var r := match x
      case JpNn(nn) => JumpNn(s, nn)
      case JpCcNn(cc, nn) => JumpCcNn(s, cc, nn)
      case JrE(e) => JumprE(s, e)
      case JrCE(e) => JrFlagE(s, Flag.C, e)
      case JrNcE(e) => JrNflagE(s, Flag.C, e)
      case JrZE(e) => JrFlagE(s, Flag.Z, e)
      case JrNzE(e) => JrNflagE(s, Flag.Z, e)
      case JpHl => JumpHl(s)
      case JpIx => JumpIx(s)
      case JpIy => JumpIy(s)
      case DjnzE(e) => DjnzE(s, e);
    Machine(r, m.mem)
  }

  // ---------------------------------------------------------------------
  // Properties

  /**
   * The conditions come in complementary pairs. Because `flag(C)` reads
   * false in every state, C never holds and NC always does.
   */
  lemma ConditionPairs(s: Regs)
    ensures CondHolds(s, Condition.NZ) == !CondHolds(s, Condition.Z)
    ensures CondHolds(s, Condition.PE) == !CondHolds(s, Condition.PO)
    ensures CondHolds(s, Condition.M) == !CondHolds(s, Condition.P)
    ensures !CondHolds(s, Condition.C) && CondHolds(s, Condition.NC)
  {
    FlagReadsBits(s, Flag.C);
  }

  /** JP cc,nn lands at nn exactly when the condition holds, and otherwise changes nothing. */
  lemma JumpCcTakenIff(s: Regs, cc: Condition, nn: u16)
    ensures JumpCcNn(s, cc, nn) == s.(progCounter := JumpCcNn(s, cc, nn).progCounter)
    ensures CondHolds(s, cc) ==> JumpCcNn(s, cc, nn).progCounter == nn
    ensures !CondHolds(s, cc) ==> JumpCcNn(s, cc, nn) == s
    ensures JumpCcNn(s, cc, nn).progCounter != s.progCounter ==> CondHolds(s, cc)
  {
  }

  /**
   * JR C never jumps and JR NC always does, since C reads false; JR Z and
   * JR NZ take opposite branches in every state.
   */
  lemma JrOnCarry(s: Regs, e: i8)
    ensures JrFlagE(s, Flag.C, e) == s
    ensures JrNflagE(s, Flag.C, e) == JumprE(s, e)
    ensures || (JrFlagE(s, Flag.Z, e) == JumprE(s, e) && JrNflagE(s, Flag.Z, e) == s)
            || (JrFlagE(s, Flag.Z, e) == s && JrNflagE(s, Flag.Z, e) == JumprE(s, e))
  {
    FlagReadsBits(s, Flag.C);
  }

  /** A relative jump moves the counter by `e` when that stays in the address space, and wraps around it otherwise. */
  lemma RelativeJumpTarget(s: Regs, e: i8)
    ensures var pc := s.progCounter as int + e as int;
      JumprE(s, e).progCounter as int == if pc < 0 then pc + 0x10000 else if pc >= 0x10000 then pc - 0x10000 else pc
  {
    WrapAddWraps(s.progCounter, e as int);
  }

  /**
   * DJNZ decrements B, keeps C and every other register, and jumps exactly
   * when B has not reached zero.
   */
  lemma DjnzCountsDown(s: Regs, e: i8)
    requires DjnzOk(s)
    ensures DjnzE(s, e).Reg(Register.B) as int == s.Reg(Register.B) as int - 1
    ensures DjnzE(s, e) == s.(bc := DjnzE(s, e).bc, progCounter := DjnzE(s, e).progCounter)
    ensures DjnzE(s, e).Reg(Register.C) == s.Reg(Register.C)
    ensures DjnzE(s, e).progCounter ==
      if s.Reg(Register.B) != 1 then WrapAdd(s.progCounter, e as int) else s.progCounter
  {
    var b := s.Reg(Register.B);
    var t := s.WithReg(Register.B, b - 1);
    assert t.Reg(Register.B) == b - 1;
    WithRegFrame(s, Register.B, b - 1, Register.C);
  }

  /** No jump writes a flag or the memory: only the program counter, and for DJNZ B, change. */
  lemma JumpsWriteNoFlags(m: Machine, x: JumpInstr)
    requires Ok(m, x)
    ensures Step(m, x).mem == m.mem
    ensures Step(m, x).regs.af == m.regs.af
    ensures !x.DjnzE? ==> Step(m, x).regs == m.regs.(progCounter := Step(m, x).regs.progCounter)
  {
    if x.DjnzE? {
      DjnzCountsDown(m.regs, x.e);
    }
  }
}
