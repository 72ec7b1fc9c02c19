/**
 * What the 8-bit load handlers of the older crate do, as functions of the
 * register file and the memory. The rz80 dispatcher calls handlers of the
 * same names, which these stand for. No handler writes a flag.
 */
module Load8Semantics {
  import opened Bits
  import opened Registers
  import opened Insts
  import opened MachineState
  import opened Choice
  import Encoding
  import DecodeTables

  /** `load_r_r`: `r` receives the value of `r1`. */
  function LoadRR(s: Regs, r: Register, r1: Register): Regs
  {
    s.WithReg(r, s.Reg(r1))
  }

  /** `load_r_n`. */
  function LoadRN(s: Regs, r: Register, n: u8): Regs
  {
    s.WithReg(r, n as u16)
  }

  /** `load_r_hl`: the byte HL addresses. */
  function LoadRHl(s: Regs, mem: seq<u8>, r: Register): Regs
    requires s.hl as int < |mem|
  {
    s.WithReg(r, mem[s.hl] as u16)
  }

  /** `load_r_ix`: the byte at IX plus the displacement, which must lie in the memory. */
  function LoadRIx(s: Regs, mem: seq<u8>, r: Register, d: i8): Regs
    requires 0 <= Offset(s.indexX, d as int) < |mem|
  {
    s.WithReg(r, mem[Offset(s.indexX, d as int)] as u16)
  }

  /** `load_r_iy`. */
  function LoadRIy(s: Regs, mem: seq<u8>, r: Register, d: i8): Regs
    requires 0 <= Offset(s.indexY, d as int) < |mem|
  {
    s.WithReg(r, mem[Offset(s.indexY, d as int)] as u16)
  }

  /** `load_hl_r`: the low byte of `r` is stored where HL points. */
  function LoadHlR(s: Regs, mem: seq<u8>, r: Register): seq<u8>
    requires s.hl as int < |mem|
  {
    mem[s.hl := Truncate8(s.Reg(r))]
  }

  /** `load_ix_r`. */
  function LoadIxR(s: Regs, mem: seq<u8>, d: i8, r: Register): seq<u8>
    requires 0 <= Offset(s.indexX, d as int) < |mem|
  {
    mem[Offset(s.indexX, d as int) := Truncate8(s.Reg(r))]
  }

  /** `load_iy_r`. */
  function LoadIyR(s: Regs, mem: seq<u8>, d: i8, r: Register): seq<u8>
    requires 0 <= Offset(s.indexY, d as int) < |mem|
  {
    mem[Offset(s.indexY, d as int) := Truncate8(s.Reg(r))]
  }

  /** `load_hl_n`. */
  function LoadHlN(s: Regs, mem: seq<u8>, n: u8): seq<u8>
    requires s.hl as int < |mem|
  {
    mem[s.hl := n]
  }

  /** `load_ix_n`. */
  function LoadIxN(s: Regs, mem: seq<u8>, d: i8, n: u8): seq<u8>
    requires 0 <= Offset(s.indexX, d as int) < |mem|
  {
    mem[Offset(s.indexX, d as int) := n]
  }

  /** `load_iy_n`. */
  function LoadIyN(s: Regs, mem: seq<u8>, d: i8, n: u8): seq<u8>
    requires 0 <= Offset(s.indexY, d as int) < |mem|
  {
    mem[Offset(s.indexY, d as int) := n]
  }

  /** `load_a_bc`. */
  function LoadABc(s: Regs, mem: seq<u8>): Regs
    requires s.bc as int < |mem|
  {
    s.WithReg(Register.A, mem[s.bc] as u16)
  }

  /** `load_a_de`. */
  function LoadADe(s: Regs, mem: seq<u8>): Regs
    requires s.de as int < |mem|
  {
    s.WithReg(Register.A, mem[s.de] as u16)
  }

  /** `load_a_nn`. */
  function LoadANn(s: Regs, mem: seq<u8>, nn: u16): Regs
    requires nn as int < |mem|
  {
    s.WithReg(Register.A, mem[nn] as u16)
  }

  /** `load_bc_a`. */
  function LoadBcA(s: Regs, mem: seq<u8>): seq<u8>
    requires s.bc as int < |mem|
  {
    mem[s.bc := Truncate8(s.Reg(Register.A))]
  }

  /** `load_de_a`. */
  function LoadDeA(s: Regs, mem: seq<u8>): seq<u8>
    requires s.de as int < |mem|
  {
    mem[s.de := Truncate8(s.Reg(Register.A))]
  }

  /** `load_nn_a`. */
  function LoadNnA(s: Regs, mem: seq<u8>, nn: u16): seq<u8>
    requires nn as int < |mem|
  {
    mem[nn := Truncate8(s.Reg(Register.A))]
  }

  /** `load_a_i`. */
  function LoadAI(s: Regs): Regs
  {
    s.WithReg(Register.A, s.interrupt as u16)
  }

  /** `load_a_r`. */
  function LoadAR(s: Regs): Regs
  {
    s.WithReg(Register.A, s.refresh as u16)
  }

  /** `load_i_a`. */
  function LoadIA(s: Regs): Regs
  {
    s.(interrupt := Truncate8(s.Reg(Register.A)))
  }

  /** `load_r_a`. */
  function LoadRA(s: Regs): Regs
  {
    s.(refresh := Truncate8(s.Reg(Register.A)))
  }

  // ---------------------------------------------------------------------
  // The dispatcher's arms for the loads

  /** What the handler of `l` needs not to panic: every address it indexes lies in the memory. */
  predicate Ok(m: Machine, l: LoadInstr)
  {
    var s, n := m.regs, |m.mem|;
    match l
    case LdRHl(_) => s.hl as int < n
    case LdHlR(_) => s.hl as int < n
    case LdHlN(_) => s.hl as int < n
    case LdRIx(_, d) => 0 <= Offset(s.indexX, d as int) < n
    case LdIxR(d, _) => 0 <= Offset(s.indexX, d as int) < n
    case LdIxN(d, _) => 0 <= Offset(s.indexX, d as int) < n
    case LdRIy(_, d) => 0 <= Offset(s.indexY, d as int) < n
    case LdIyR(d, _) => 0 <= Offset(s.indexY, d as int) < n
    case LdIyN(d, _) => 0 <= Offset(s.indexY, d as int) < n
    case LdABc => s.bc as int < n
    case LdBcA => s.bc as int < n
    case LdADe => s.de as int < n
    case LdDeA => s.de as int < n
    case LdANn(nn) => nn as int < n
    case LdNnA(nn) => nn as int < n
    case _ => true
  }

  /** The state after the handler of `l`: the `execute` arm of each load. */
  function Step(m: Machine, l: LoadInstr): Machine
    requires Ok(m, l)
  {
    var s, mem := m.regs, m.mem;
    match l
    case LdRR(r, r1) => Machine(LoadRR(s, r, r1), mem)
    case LdRN(r, n) => Machine(LoadRN(s, r, n), mem)
    case LdRHl(r) => Machine(LoadRHl(s, mem, r), mem)
    case LdRIx(r, d) => Machine(LoadRIx(s, mem, r, d), mem)
    case LdRIy(r, d) => Machine(LoadRIy(s, mem, r, d), mem)
    case LdHlR(r) => Machine(s, LoadHlR(s, mem, r))
    case LdIxR(d, r) => Machine(s, LoadIxR(s, mem, d, r))
    case LdIyR(d, r) => Machine(s, LoadIyR(s, mem, d, r))
    case LdHlN(n) => Machine(s, LoadHlN(s, mem, n))
    case LdIxN(d, n) => Machine(s, LoadIxN(s, mem, d, n))
    case LdIyN(d, n) => Machine(s, LoadIyN(s, mem, d, n))
    case LdABc => Machine(LoadABc(s, mem), mem)
    case LdADe => Machine(LoadADe(s, mem), mem)
    case LdANn(nn) => Machine(LoadANn(s, mem, nn), mem)
    case LdBcA => Machine(s, LoadBcA(s, mem))
    case LdDeA => Machine(s, LoadDeA(s, mem))
    case LdNnA(nn) => Machine(s, LoadNnA(s, mem, nn))
    case LdAI => Machine(LoadAI(s), mem)
    case LdAR => Machine(LoadAR(s), mem)
    case LdIA => Machine(LoadIA(s), mem)
    case LdRA => Machine(LoadRA(s), mem)
  }

  // ---------------------------------------------------------------------
  // Properties

  /**
   * `load_r_r` gives `r` the value of `r1` (its low byte when `r` is an
   * eight-bit register), and every register that shares no byte with `r`,
   * and every field outside the main file, keeps its value.
   */
  lemma LoadRRWritesTarget(s: Regs, r: Register, r1: Register)
    ensures LoadRR(s, r, r1).Reg(r) == (if r.IsPair() then s.Reg(r1) else Truncate8(s.Reg(r1)) as u16)
    ensures forall q :: !Shares(q, r) ==> LoadRR(s, r, r1).Reg(q) == s.Reg(q)
    ensures LoadRR(s, r, r1) == s.(af := LoadRR(s, r, r1).af, bc := LoadRR(s, r, r1).bc,
                                   de := LoadRR(s, r, r1).de, hl := LoadRR(s, r, r1).hl)
  {
    forall q | !Shares(q, r)
      ensures LoadRR(s, r, r1).Reg(q) == s.Reg(q)
    {
      WithRegFrame(s, r, s.Reg(r1), q);
    }
  }

  /** The register a load writes, if any. */
  function Target(l: LoadInstr): Option<Register>
  {
    match l
    case LdRR(r, _) => Some(r)
    case LdRN(r, _) => Some(r)
    case LdRHl(r) => Some(r)
    case LdRIx(r, _) => Some(r)
    case LdRIy(r, _) => Some(r)
    case LdABc | LdADe | LdANn(_) | LdAI | LdAR => Some(Register.A)
    case _ => None
  }

  /** Writing an eight-bit register other than F leaves F as it was. */
  lemma WithByteRegKeepsF(s: Regs, r: Register, v: u16)
    requires DecodeTables.IsByteReg(r)
    ensures Lo16(s.WithReg(r, v).af) == Lo16(s.af)
  {
  }

  /**
   * No load writes a flag: for every load with an encoding, F is as it
   * was, so every flag reads as before.
   */
  lemma LoadsKeepFlags(m: Machine, l: LoadInstr)
    requires Ok(m, l) && Encoding.LoadEncodable(l)
    ensures Lo16(Step(m, l).regs.af) == Lo16(m.regs.af)
    ensures forall f :: Step(m, l).regs.GetFlag(f) == m.regs.GetFlag(f)
  {
    match Target(l)
    case Some(r) => WithByteRegKeepsF(m.regs, r, Step(m, l).regs.Reg(r));
    case None =>
  }

  /** The address a load stores to, if any. */
  function StoreAddress(m: Machine, l: LoadInstr): Option<int>
  {
    var s := m.regs;
    match l
    case LdHlR(_) => Some(s.hl as int)
    case LdHlN(_) => Some(s.hl as int)
    case LdIxR(d, _) => Some(Offset(s.indexX, d as int))
    case LdIxN(d, _) => Some(Offset(s.indexX, d as int))
    case LdIyR(d, _) => Some(Offset(s.indexY, d as int))
    case LdIyN(d, _) => Some(Offset(s.indexY, d as int))
    case LdBcA => Some(s.bc as int)
    case LdDeA => Some(s.de as int)
    case LdNnA(nn) => Some(nn as int)
    case _ => None
  }

  /**
   * A store changes no register and no memory cell but the one it
   * addresses; any other load leaves the memory as it was.
   */
  lemma LoadsTouchOneCell(m: Machine, l: LoadInstr)
    requires Ok(m, l)
    ensures |Step(m, l).mem| == |m.mem|
    ensures StoreAddress(m, l).Some? ==> Step(m, l).regs == m.regs
    ensures StoreAddress(m, l).Some? ==>
      forall a :: 0 <= a < |m.mem| && a != StoreAddress(m, l).value ==> Step(m, l).mem[a] == m.mem[a]
    ensures StoreAddress(m, l).None? ==> Step(m, l).mem == m.mem
  {
  }

  /** Reading back an eight-bit register's own byte changes nothing. */
  lemma WriteBackByte(s: Regs, r: Register)
    requires !r.IsPair()
    ensures s.WithReg(r, Truncate8(s.Reg(r)) as u16) == s
  {
    assert Truncate8(s.Reg(r)) as u16 == s.Reg(r);
    WithRegLaws(s, r, 0, 0);
  }

  /** LD (nn),A then LD A,(nn) leaves the registers as they were. */
  lemma StoreThenLoadA(s: Regs, mem: seq<u8>, nn: u16)
    requires nn as int < |mem|
    ensures LoadANn(s, LoadNnA(s, mem, nn), nn) == s
  {
    WriteBackByte(s, Register.A);
  }

  /** LD (BC),A then LD A,(BC), and the same through DE, leave the registers as they were. */
  lemma StoreThenLoadPairA(s: Regs, mem: seq<u8>)
    requires s.bc as int < |mem| && s.de as int < |mem|
    ensures LoadABc(s, LoadBcA(s, mem)) == s
    ensures LoadADe(s, LoadDeA(s, mem)) == s
  {
    WriteBackByte(s, Register.A);
  }

  /** LD (HL),r then LD r,(HL) leaves the registers as they were, for every eight-bit register. */
  lemma StoreThenLoadHl(s: Regs, mem: seq<u8>, r: Register)
    requires s.hl as int < |mem| && !r.IsPair()
    ensures LoadRHl(s, LoadHlR(s, mem, r), r) == s
  {
    WriteBackByte(s, r);
  }

  /** LD (IX+d),r then LD r,(IX+d), and the same through IY, leave the registers as they were. */
  lemma StoreThenLoadIndexed(s: Regs, mem: seq<u8>, r: Register, d: i8)
    requires 0 <= Offset(s.indexX, d as int) < |mem| && 0 <= Offset(s.indexY, d as int) < |mem|
    requires !r.IsPair()
    ensures LoadRIx(s, LoadIxR(s, mem, d, r), r, d) == s
    ensures LoadRIy(s, LoadIyR(s, mem, d, r), r, d) == s
  {
    WriteBackByte(s, r);
  }

  /**
   * LD I,A copies A into I, and LD A,I after it leaves the state as LD I,A
   * left it; the same for R.
   */
  lemma SpecialRegisterRoundTrip(s: Regs)
    ensures LoadIA(s).interrupt as u16 == s.Reg(Register.A) && LoadAI(LoadIA(s)) == LoadIA(s)
    ensures LoadRA(s).refresh as u16 == s.Reg(Register.A) && LoadAR(LoadRA(s)) == LoadRA(s)
  {
    WriteBackByte(LoadIA(s), Register.A);
    WriteBackByte(LoadRA(s), Register.A);
  }
}
