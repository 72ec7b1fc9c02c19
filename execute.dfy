/**
 * `Z80::execute` of the rz80 crate: one arm per instruction, each calling
 * its handler once inside `min_time!`, which holds the call for at least a
 * fixed number of nanoseconds and hands back the handler's value. The
 * charge is modelled as the number the dispatcher returns rather than as a
 * wait. Below it, one iteration of `run` in both crates: fetch, decode,
 * move the counter past the instruction, execute.
 */
module Execute {
  import opened Bits
  import opened Registers
  import opened Choice
  import opened Insts
  import opened MachineState
  import opened Cpu
  import L = Load8Semantics
  import X = ExchangeSemantics
  import J = JumpSemantics
  import A = Arith8Semantics
  import ExecLoad8
  import ExecExchange
  import ExecJump
  import ExecArith8
  import Decode
  import DecodeLoad8
  import DecodeJump
  import Encoding
  import FlagWrites

  // ---------------------------------------------------------------------
  // Dispatch

  /** The instructions with an arm; every other one reaches `todo!` and panics. */
  predicate Handled(i: Instr)
  {
    match i
    case Load(_) => true
    case Exch(_) => true
    case Jmp(_) => true
    case Arith(a) => A.Handles(a)
    case _ => false
  }

  /** The instruction has an arm, and its handler does not panic in `m`. */
  predicate Ok(m: Machine, i: Instr)
  {
    match i
    case Load(l) => L.Ok(m, l)
    case Exch(x) => X.Ok(m, x)
    case Jmp(j) => J.Ok(m, j)
    case Arith(a) => A.Ok(m, a)
    case _ => false
  }

  /** The machine after the arm of `i`. */
  function Step(m: Machine, i: Instr): Machine
    requires Ok(m, i)
  {
    match i
    case Load(l) => L.Step(m, l)
    case Exch(x) => X.Step(m, x)
    case Jmp(j) => J.Step(m, j)
    case Arith(a) => A.Step(m, a)
    case _ => m
  }

  /** An instruction that does not panic has an arm. */
  lemma OkIsHandled(m: Machine, i: Instr)
    requires Ok(m, i)
    ensures Handled(i)
  {
  }

  // ---------------------------------------------------------------------
  // The charges of `min_time!`

  /** The four block instructions that repeat. */
  predicate IsRepeat(x: ExchangeInstr)
  {
    x.Ldir? || x.Lddr? || x.Cpir? || x.Cpdr?
  }

  /** The single-step form of each repeating block instruction. */
  function SingleForm(x: ExchangeInstr): ExchangeInstr
    requires IsRepeat(x)
  {
    match x
    case Ldir => Ldi
    case Lddr => Ldd
    case Cpir => Cpi
    case _ => Cpd
  }

  function LoadDuration(l: LoadInstr): nat
  {
    match l
    case LdRR(_, _) => 1000
    case LdRN(_, _) => 1750
    case LdRHl(_) => 1750
    case LdRIx(_, _) => 4750
    case LdRIy(_, _) => 4750
    case LdHlR(_) => 1750
    case LdIxR(_, _) => 4750
    case LdIyR(_, _) => 4750
    case LdHlN(_) => 2500
    case LdIxN(_, _) => 4750
    case LdIyN(_, _) => 2500
    case LdABc => 1750
    case LdADe => 1750
    case LdANn(_) => 3250
    case LdBcA => 1750
    case LdDeA => 1750
    case LdNnA(_) => 3250
    case LdAI => 2250
    case LdAR => 2250
    case LdIA => 2250
    case LdRA => 2250
  }

  /** The repeating forms test BC before their handler runs. */
  function ExchangeDuration(x: ExchangeInstr, bc: u16): nat
  {
    match x
    case ExDeHl => 1000
    case ExAfAf1 => 1000
    case Exx => 1000
    case ExSpHl => 4750
    case ExSpIx => 5750
    case ExSpIy => 5750
    case Ldi => 4000
    case Ldd => 4000
    case Cpi => 4000
    case Cpd => 4000
    case Ldir => if bc != 0 then 5250 else 4000
    case Lddr => if bc != 0 then 5250 else 4000
    case Cpir => if bc != 0 then 5250 else 4000
    case Cpdr => if bc != 0 then 5250 else 4000
  }

  function JumpDuration(j: JumpInstr): nat
  {
    match j
    case JpNn(_) => 2500
    case JpCcNn(_, _) => 2500
    case JrE(_) => 3000
    case JrCE(_) => 3000
    case JrNcE(_) => 3000
    case JrZE(_) => 3000
    case JrNzE(_) => 3000
    case JpHl => 1000
    case JpIx => 1000
    case JpIy => 1000
    case DjnzE(_) => 3250
  }

  /**
   * The nanoseconds `min_time!` holds the arm of `i` for, given BC before
   * the step: ADD A,r and INC r 1000, INC (HL) 2750.
   */
  function Duration(i: Instr, bc: u16): (ns: nat)
    requires Handled(i)
    ensures 1000 <= ns <= 5750
  {
    if i.Load? then LoadDuration(i.load)
    else if i.Exch? then ExchangeDuration(i.exch, bc)
    else if i.Jmp? then JumpDuration(i.jump)
    else if i.arith == Inc(AtHl) then 2750
    else 1000
  }

  /** Only the repeating block instructions are charged by BC; every other charge is fixed. */
  lemma DurationFixedOutsideRepeats(i: Instr, bc: u16, bc': u16)
    requires Handled(i) && !(i.Exch? && IsRepeat(i.exch))
    ensures Duration(i, bc) == Duration(i, bc')
  {
  }

  /**
   * Every IX load is charged what its IY mirror is, except LD (IX+d),n and
   * LD (IY+d),n: the first is charged 4750 ns, the second only the 2500 ns
   * of LD (HL),n.
   */
  lemma IndexedStoreChargesDiffer(d: i8, n: u8, r: Register, bc: u16)
    ensures Duration(Load(LdIxN(d, n)), bc) == 4750
    ensures Duration(Load(LdIyN(d, n)), bc) == Duration(Load(LdHlN(n)), bc) == 2500
    ensures Duration(Load(LdRIx(r, d)), bc) == Duration(Load(LdRIy(r, d)), bc) == 4750
    ensures Duration(Load(LdIxR(d, r)), bc) == Duration(Load(LdIyR(d, r)), bc) == 4750
  {
  }

  /**
   * A repeating block instruction costs what its single form costs when BC
   * is zero, and 1250 ns more otherwise.
   */
  lemma RepeatCostsMoreIffBcNonZero(x: ExchangeInstr, bc: u16)
    requires IsRepeat(x)
    ensures Duration(Exch(x), bc) >= Duration(Exch(SingleForm(x)), bc)
    ensures Duration(Exch(x), bc) == Duration(Exch(SingleForm(x)), bc) + 1250 <==> bc != 0
    ensures Duration(Exch(x), bc) == Duration(Exch(SingleForm(x)), bc) <==> bc == 0
  {
  }

  /**
   * The short charge of a repeating form is never paid: each of their
   * handlers subtracts 1 from BC and panics when it is zero, so whenever the
   * step succeeds the arm charges 5250 ns.
   */
  lemma RepeatsChargedInFull(m: Machine, x: ExchangeInstr)
    requires IsRepeat(x) && Ok(m, Exch(x))
    ensures Duration(Exch(x), m.regs.bc) == 5250
  {
  }

  /**
   * LDDR with BC at 1 is its last iteration: the counter stays past the
   * instruction, yet the arm charges the 5250 ns of a repeat, because the
   * test reads BC before the decrement.
   */
  lemma LastLddrChargedAsRepeat(m: Machine)
    requires Ok(m, Exch(Lddr)) && m.regs.bc == 1
    ensures Step(m, Exch(Lddr)).regs.progCounter == m.regs.progCounter
    ensures Duration(Exch(Lddr), m.regs.bc) == 5250
  {
    var s := m.regs;
    var t := s.(de := s.de - 1, hl := s.hl - 1, bc := s.bc - 1);
    var u := FlagWrites.WithFlags(t, X.TransferWrites(t.bc != 0));
    assert u.bc == 0;
  }

  // ---------------------------------------------------------------------
  // The dispatcher, in place

  method ExecuteLoad(cpu: Z80, l: LoadInstr, memory: array<u8>)
    requires L.Ok(Machine(cpu.State(), memory[..]), l)
    modifies cpu, memory
    ensures Machine(cpu.State(), memory[..]) == L.Step(old(Machine(cpu.State(), memory[..])), l)
  {
    match l
    case LdRR(r, r1) => ExecLoad8.LoadRR(cpu, r, r1);
    case LdRN(r, n) => ExecLoad8.LoadRN(cpu, r, n);
    case LdRHl(r) => ExecLoad8.LoadRHl(cpu, r, memory);
    case LdRIx(r, d) => ExecLoad8.LoadRIx(cpu, r, d, memory);
    case LdRIy(r, d) => ExecLoad8.LoadRIy(cpu, r, d, memory);
    case LdHlR(r) => ExecLoad8.LoadHlR(cpu, r, memory);
    case LdIxR(d, r) => ExecLoad8.LoadIxR(cpu, d, r, memory);
    case LdIyR(d, r) => ExecLoad8.LoadIyR(cpu, d, r, memory);
    case LdHlN(n) => ExecLoad8.LoadHlN(cpu, n, memory);
    case LdIxN(d, n) => ExecLoad8.LoadIxN(cpu, d, n, memory);
    case LdIyN(d, n) => ExecLoad8.LoadIyN(cpu, d, n, memory);
    case LdABc => ExecLoad8.LoadABc(cpu, memory);
    case LdADe => ExecLoad8.LoadADe(cpu, memory);
    case LdANn(nn) => ExecLoad8.LoadANn(cpu, nn, memory);
    case LdBcA => ExecLoad8.LoadBcA(cpu, memory);
    case LdDeA => ExecLoad8.LoadDeA(cpu, memory);
    case LdNnA(nn) => ExecLoad8.LoadNnA(cpu, nn, memory);
    case LdAI => ExecLoad8.LoadAI(cpu);
    case LdAR => ExecLoad8.LoadAR(cpu);
    case LdIA => ExecLoad8.LoadIA(cpu);
    case LdRA => ExecLoad8.LoadRA(cpu);
  }

  method ExecuteExchange(cpu: Z80, x: ExchangeInstr, memory: array<u8>)
    requires X.Ok(Machine(cpu.State(), memory[..]), x)
    modifies cpu, memory
    ensures Machine(cpu.State(), memory[..]) == X.Step(old(Machine(cpu.State(), memory[..])), x)
  {
    match x
    case ExDeHl => ExecExchange.ExDeHl(cpu);
    case ExAfAf1 => ExecExchange.ExAfAf1(cpu);
    case Exx => ExecExchange.Exx(cpu);
    case ExSpHl => ExecExchange.ExSpHl(cpu, memory[..]);
    case ExSpIx => ExecExchange.ExSpIx(cpu, memory[..]);
    case ExSpIy => ExecExchange.ExSpIy(cpu, memory[..]);
    case Ldi => ExecExchange.Ldi(cpu, memory);
    case Ldir => ExecExchange.Ldir(cpu, memory);
    case Ldd => ExecExchange.Ldd(cpu, memory);
    case Lddr => ExecExchange.Lddr(cpu, memory);
    case Cpi => ExecExchange.Cpi(cpu, memory[..]);
    case Cpir => ExecExchange.Cpir(cpu, memory[..]);
    case Cpd => ExecExchange.Cpd(cpu, memory[..]);
    case Cpdr => ExecExchange.Cpdr(cpu, memory[..]);
  }

  /** JR C and JR NC go to the flag handlers with flag C, JR Z and JR NZ with flag Z. */
  method ExecuteJump(cpu: Z80, j: JumpInstr, memory: array<u8>)
    requires J.Ok(Machine(cpu.State(), memory[..]), j)
    modifies cpu
    ensures Machine(cpu.State(), memory[..]) == J.Step(old(Machine(cpu.State(), memory[..])), j)
  {
    match j
    case JpNn(nn) => ExecJump.JumpNn(cpu, nn);
    case JpCcNn(cc, nn) => ExecJump.JumpCcNn(cpu, cc, nn);
    case JrE(e) => ExecJump.JumprE(cpu, e);
    case JrCE(e) => ExecJump.JrFlagE(cpu, Flag.C, e);
    case JrNcE(e) => ExecJump.JrNflagE(cpu, Flag.C, e);
    case JrZE(e) => ExecJump.JrFlagE(cpu, Flag.Z, e);
    case JrNzE(e) => ExecJump.JrNflagE(cpu, Flag.Z, e);
    case JpHl => ExecJump.JumpHl(cpu);
    case JpIx => ExecJump.JumpIx(cpu);
    case JpIy => ExecJump.JumpIy(cpu);
    case DjnzE(e) => ExecJump.DjnzE(cpu, e);
  }

  /** ADD A,r calls `add_a_r` without the carry. */
  method ExecuteArith(cpu: Z80, a: ArithInstr, memory: array<u8>)
    requires A.Ok(Machine(cpu.State(), memory[..]), a)
    modifies cpu, memory
    ensures Machine(cpu.State(), memory[..]) == A.Step(old(Machine(cpu.State(), memory[..])), a)
  {
    match a
    case Alu(_, OfReg(r)) => ExecArith8.AddAR(cpu, r, false);
    case Inc(OfReg(r)) => ExecArith8.IncR(cpu, r);
    case Inc(AtHl) => ExecArith8.IncHl(cpu, memory);
    case _ => assert false;
  }

  /**
   * `execute`: the arm of `i`, applied once, leaving the machine `Step`
   * describes; `ns` is what its `min_time!` charges.
   */
  method Execute(cpu: Z80, i: Instr, memory: array<u8>) returns (ns: nat)
    requires Ok(Machine(cpu.State(), memory[..]), i)
    modifies cpu, memory
    ensures Machine(cpu.State(), memory[..]) == Step(old(Machine(cpu.State(), memory[..])), i)
    ensures ns == Duration(i, old(cpu.bc))
  {
    ns := Duration(i, cpu.bc);
    match i
    case Load(l) => ExecuteLoad(cpu, l, memory);
    case Exch(x) => ExecuteExchange(cpu, x, memory);
    case Jmp(j) => ExecuteJump(cpu, j, memory);
    case Arith(a) => ExecuteArith(cpu, a, memory);
    case _ => assert false;
  }

  // ---------------------------------------------------------------------
  // Where the counter goes

  /** The instructions whose handlers assign the program counter: the jumps and the repeating block instructions. */
  predicate WritesCounter(i: Instr)
  {
    i.Jmp? || (i.Exch? && IsRepeat(i.exch))
  }

  /** Every other arm leaves the counter where it was. */
  lemma StepKeepsCounter(m: Machine, i: Instr)
    requires Ok(m, i) && !WritesCounter(i)
    ensures Step(m, i).regs.progCounter == m.regs.progCounter
  {
    var s := m.regs;
    match i
    case Load(l) =>
    case Exch(x) =>
    case Arith(a) =>
      match a
      case Alu(_, OfReg(r)) =>
        assert A.AddAR(s, r, false).progCounter == s.progCounter;
      case Inc(OfReg(r)) =>
        assert A.IncR(s, r).progCounter == s.progCounter;
      case Inc(AtHl) =>
    case _ =>
  }

  // ---------------------------------------------------------------------
  // One iteration of rz80 `run`

  /** The machine with the counter moved past an instruction of `w` bytes; `+=` on the `u16` panics past 0xffff. */
  function Advance(m: Machine, w: u8): Machine
    requires m.regs.progCounter as int + w as int < 0x10000
  {
    m.(regs := m.regs.(progCounter := (m.regs.progCounter as int + w as int) as u16))
  }

  /** The bytes `fetch` hands to the decoder. */
  function Window(m: Machine): seq<u8>
    requires m.regs.progCounter as int <= |m.mem|
  {
    m.mem[m.regs.progCounter..]
  }

  /**
   * What one iteration needs not to panic: the counter inside the memory,
   * the decoder's bounds on the window, and, when it decodes, no overflow
   * of the counter and no panic in the handler.
   */
  predicate CanStep(m: Machine)
  {
    && m.regs.progCounter as int <= |m.mem|
    && DecodeLoad8.InBounds(Window(m)) && DecodeJump.InBounds(Window(m))
    && match Decode.Decode(Window(m))
       case None => true
       case Some((i, w)) => m.regs.progCounter as int + w as int < 0x10000 && Ok(Advance(m, w), i)
  }

  /** One iteration: `None` when the bytes do not decode (`run` returns), otherwise the machine after the instruction. */
  function RunStep(m: Machine): Option<Machine>
    requires CanStep(m)
  {
    match Decode.Decode(Window(m))
    case None => None
    case Some((i, w)) => Some(Step(Advance(m, w), i))
  }

  /** The body of the `loop` of `run`, once; `decoded` is false where `?` returns. */
  method RunOnce(cpu: Z80, memory: array<u8>) returns (decoded: bool)
    requires CanStep(Machine(cpu.State(), memory[..]))
    modifies cpu, memory
    ensures decoded == RunStep(old(Machine(cpu.State(), memory[..]))).Some?
    ensures decoded ==> Machine(cpu.State(), memory[..]) == RunStep(old(Machine(cpu.State(), memory[..]))).value
    ensures !decoded ==> cpu.State() == old(cpu.State()) && memory[..] == old(memory[..])
  {
    var window := cpu.Fetch(memory[..]);
    var d := Decode.Decode(window);
    if d.None? {
      return false;
    }
    var (i, w) := d.value;
    cpu.progCounter := cpu.progCounter + w as u16;
    var _ := Execute(cpu, i, memory);
    return true;
  }

  /**
   * Every instruction the rz80 decoder yields has an arm: the `todo!` arm is
   * unreachable from `run`.
   */
  lemma DecodedInstructionsHandled(mem: seq<u8>)
    requires DecodeLoad8.InBounds(mem) && DecodeJump.InBounds(mem)
    ensures Decode.Decode(mem).Some? ==> Handled(Decode.Decode(mem).value.0)
  {
    Decode.DecodeSound(mem);
  }

  /** An instruction that does not assign the counter leaves it just past itself. */
  lemma RunStepAdvancesPastInstruction(m: Machine)
    requires CanStep(m) && Decode.Decode(Window(m)).Some?
    requires !WritesCounter(Decode.Decode(Window(m)).value.0)
    ensures RunStep(m).Some?
    ensures RunStep(m).value.regs.progCounter as int == m.regs.progCounter as int + Decode.Decode(Window(m)).value.1 as int
  {
    var (i, w) := Decode.Decode(Window(m)).value;
    StepKeepsCounter(Advance(m, w), i);
  }

  /**
   * JR e read at address `a` with displacement byte `e` lands at
   * `a + 4 + e`: the decoder stores `e + 2`, counted from the jump's own
   * address, but the counter has already moved past the two bytes when the
   * handler adds it.
   */
  lemma RelativeJumpOvershoots(m: Machine, e: u8)
    requires m.regs.progCounter as int + 2 <= |m.mem| < 0x10000
    requires m.mem[m.regs.progCounter] == 0x18 && m.mem[m.regs.progCounter as int + 1] == e
    requires AsI8(e) < 126
    ensures CanStep(m)
    ensures RunStep(m) == Some(m.(regs := m.regs.(progCounter := WrapAdd(m.regs.progCounter, AsI8(e) as int + 4))))
  {
    var pc := m.regs.progCounter as int;
    var t := DecodeJump.Target(e);
    var i := Jmp(JrE(t));
    var rest := m.mem[pc + 2..];
    assert Encoding.JumpEncodable(JrE(t));
    var b := Encoding.RelByte(t);
    assert AsI8(b) == AsI8(e);
    assert b == e;
    assert Window(m) == Encoding.Encode(i) + rest;
    Decode.DecodeReadsBack(i, rest);
    var m' := Advance(m, 2);
    assert J.Step(m', JrE(t)).regs.progCounter == WrapAdd(m'.regs.progCounter, t as int);
    assert (pc + 2 + t as int) % 0x10000 == (pc + (AsI8(e) as int + 4)) % 0x10000;
  }

  /**
   * LDIR never falls through: its handler needs BC at least 2, so BC is
   * still non-zero after the decrement and the counter always returns to
   * the instruction, which runs again.
   */
  lemma LdirRunsAgain(m: Machine)
    requires m.regs.progCounter as int + 2 <= |m.mem|
    requires m.mem[m.regs.progCounter] == 0xed && m.mem[m.regs.progCounter as int + 1] == 0xb0
    requires CanStep(m)
    ensures RunStep(m).Some?
    ensures RunStep(m).value.regs.progCounter == m.regs.progCounter
  {
    var pc := m.regs.progCounter as int;
    var i := Exch(Ldir);
    var rest := m.mem[pc + 2..];
    assert Window(m) == Encoding.Encode(i) + rest;
    Decode.DecodeReadsBack(i, rest);
    var m' := Advance(m, 2);
    var s := m'.regs;
    var t := s.(de := s.de + 1, hl := s.hl + 1, bc := s.bc - 1);
    var u := FlagWrites.WithFlags(t, X.TransferWrites(t.bc - 1 != 0));
    assert u.bc != 0;
  }

  // ---------------------------------------------------------------------
  // One iteration of the older crate's `run`

  /** The older iteration decodes with that crate's decoder; its `execute` is a stub. */
  predicate CanStepOld(s: Regs, mem: seq<u8>)
  {
    && s.progCounter as int <= |mem|
    && DecodeLoad8.InBounds(mem[s.progCounter..])
    && (Decode.DecodeOld(mem[s.progCounter..]).Some? ==>
          s.progCounter as int + Decode.DecodeOld(mem[s.progCounter..]).value.1 as int < 0x10000)
  }

  /** The older iteration: decode, then move the counter past the instruction; nothing is executed. */
  function RunStepOld(s: Regs, mem: seq<u8>): Option<Regs>
    requires CanStepOld(s, mem)
  {
    match Decode.DecodeOld(mem[s.progCounter..])
    case None => None
    case Some((_, w)) => Some(s.(progCounter := (s.progCounter as int + w as int) as u16))
  }

  method RunOnceOld(cpu: Z80, memory: seq<u8>) returns (decoded: bool)
    requires CanStepOld(cpu.State(), memory)
    modifies cpu
    ensures decoded == RunStepOld(old(cpu.State()), memory).Some?
    ensures cpu.State() == if decoded then RunStepOld(old(cpu.State()), memory).value else old(cpu.State())
  {
    var window := cpu.Fetch(memory);
    var d := Decode.DecodeOld(window);
    if d.None? {
      return false;
    }
    var (_, w) := d.value;
    cpu.progCounter := cpu.progCounter + w as u16;
    return true;
  }

  /**
   * The older iteration only walks through the program: whenever the bytes
   * decode, the counter moves strictly forward and nothing else changes.
   */
  lemma RunStepOldWalksForward(s: Regs, mem: seq<u8>)
    requires CanStepOld(s, mem)
    ensures RunStepOld(s, mem).Some? ==>
      && RunStepOld(s, mem).value == s.(progCounter := RunStepOld(s, mem).value.progCounter)
      && RunStepOld(s, mem).value.progCounter > s.progCounter
  {
    var window := mem[s.progCounter..];
    Decode.DecodeOldSound(window);
  }
}
