/**
 * What the exchange, block transfer and block search handlers of the
 * older crate do, as functions of the register file and the memory. The
 * `+= 1` and `-= 1` on the 16-bit fields, the `bc - 1` of LDI and LDIR
 * and the `prog_counter -= 2` of the repeating forms panic on overflow,
 * so each function requires what keeps them in range.
 */
module ExchangeSemantics {
  import opened Bitwise
  import opened Bits
  import opened Registers
  import opened Insts
  import opened MachineState
  import opened FlagWrites

  /** `exchange_de_hl`. */
  function ExDeHl(s: Regs): Regs
  {
    s.(de := s.hl, hl := s.de)
  }

  /** `exchange_af_af1`. */
  function ExAfAf1(s: Regs): Regs
  {
    s.(af := s.af1, af1 := s.af)
  }

  /** `exchange_exx`: BC, DE and HL swap with their shadows. */
  function Exx(s: Regs): Regs
  {
    s.(bc := s.bc1, bc1 := s.bc, de := s.de1, de1 := s.de, hl := s.hl1, hl1 := s.hl)
  }

  /** What `exchange_sp_*` needs: SP and SP + 1 in the memory, and SP + 1 without overflow. */
  predicate StackOk(s: Regs, mem: seq<u8>)
  {
    s.stackPtr < 0xffff && s.stackPtr as int + 1 < |mem|
  }

  /** `exchange_sp_hl`: L from the byte at SP, H from the next; the memory is only read. */
  function ExSpHl(s: Regs, mem: seq<u8>): Regs
    requires StackOk(s, mem)
  {
    var lo := mem[s.stackPtr];
    var t := s.WithReg(Register.L, lo as u16);
    var hi := mem[t.stackPtr + 1];
    t.WithReg(Register.H, hi as u16)
  }

  /** `exchange_sp_ix`: the low byte of IX from SP, then the high byte from SP + 1. */
  function ExSpIx(s: Regs, mem: seq<u8>): Regs
    requires StackOk(s, mem)
  {
    var lo := mem[s.stackPtr];
    var t := s.(indexX := SetLowerMasked(s.indexX, lo as u16));
    var hi := mem[t.stackPtr + 1];
    t.(indexX := SetUpperMasked(t.indexX, hi as u16))
  }

  /** `exchange_sp_iy`. */
  function ExSpIy(s: Regs, mem: seq<u8>): Regs
    requires StackOk(s, mem)
  {
    var lo := mem[s.stackPtr];
    var t := s.(indexY := SetLowerMasked(s.indexY, lo as u16));
    var hi := mem[t.stackPtr + 1];
    t.(indexY := SetUpperMasked(t.indexY, hi as u16))
  }

  /** The flag writes of the block transfers: H, then PV, then N. */
  function TransferWrites(pv: bool): seq<(Flag, bool)>
  {
    [(Flag.H, false), (Flag.PV, pv), (Flag.N, false)]
  }

  /** The flag writes of CPI, CPD and CPDR: S, Z, PV, then N. */
  function SearchWrites(cmp: int, pv: bool): seq<(Flag, bool)>
  {
    [(Flag.S, cmp < 0), (Flag.Z, cmp == 0), (Flag.PV, pv), (Flag.N, true)]
  }

  /** The flag writes of CPIR: N from the sign of the comparison, then Z. */
  function RepeatSearchWrites(cmp: int): seq<(Flag, bool)>
  {
    [(Flag.N, cmp < 0), (Flag.Z, cmp == 0)]
  }

  /** The rewind of the repeating forms: back over the two bytes of the instruction when `cond` holds. */
  function RewindIf(s: Regs, cond: bool): Regs
    requires cond ==> s.progCounter >= 2
  {
    if cond then s.(progCounter := s.progCounter - 2) else s
  }

  /** The copy step of LDI and LDD: the byte at HL is stored at DE. */
  predicate CopyOk(s: Regs, mem: seq<u8>)
  {
    s.hl as int < |mem| && s.de as int < |mem|
  }

  /**
   * What LDI needs: the copy in range, DE and HL below 0xffff, and BC at
   * least 2, because PV is computed from `bc - 1` after BC was decremented.
   */
  predicate LdiOk(s: Regs, mem: seq<u8>)
  {
    CopyOk(s, mem) && s.de < 0xffff && s.hl < 0xffff && s.bc >= 1 && s.bc - 1 >= 1
  }

  /** `exchange_ldi`. */
  function Ldi(s: Regs, mem: seq<u8>): Machine
    requires LdiOk(s, mem)
  {
    var mem' := mem[s.de := mem[s.hl]];
    var t := s.(de := s.de + 1, hl := s.hl + 1, bc := s.bc - 1);
    Machine(WithFlags(t, TransferWrites(t.bc - 1 != 0)), mem')
  }

  /** LDI as a register step followed by the three flag writes, and a one-byte copy. */
  lemma LdiSteps(s: Regs, mem: seq<u8>)
    requires LdiOk(s, mem)
    ensures var t := s.(de := s.de + 1, hl := s.hl + 1, bc := s.bc - 1);
      Ldi(s, mem).regs == WithFlags(t, TransferWrites(t.bc - 1 != 0))
    ensures Ldi(s, mem).mem == mem[s.de := mem[s.hl]]
  {
  }

  /** LDD in the same way, moving DE and HL down. */
  lemma LddSteps(s: Regs, mem: seq<u8>)
    requires LddOk(s, mem)
    ensures var t := s.(de := s.de - 1, hl := s.hl - 1, bc := s.bc - 1);
      Ldd(s, mem).regs == WithFlags(t, TransferWrites(t.bc != 0))
    ensures Ldd(s, mem).mem == mem[s.de := mem[s.hl]]
  {
  }

  /** LDIR rewinds the counter when BC is not yet zero. */
  predicate LdirOk(s: Regs, mem: seq<u8>)
  {
    LdiOk(s, mem) && (s.bc - 1 != 0 ==> s.progCounter >= 2)
  }

  /** `exchange_ldir`: LDI, then back to the instruction while BC is not zero. */
  function Ldir(s: Regs, mem: seq<u8>): Machine
    requires LdirOk(s, mem)
  {
    var mem' := mem[s.de := mem[s.hl]];
    var t := s.(de := s.de + 1, hl := s.hl + 1, bc := s.bc - 1);
    var u := WithFlags(t, TransferWrites(t.bc - 1 != 0));
    Machine(RewindIf(u, u.bc != 0), mem')
  }

  /** What LDD needs: the copy in range, and DE, HL and BC at least 1. */
  predicate LddOk(s: Regs, mem: seq<u8>)
  {
    CopyOk(s, mem) && s.de >= 1 && s.hl >= 1 && s.bc >= 1
  }

  /** `exchange_ldd`. */
  function Ldd(s: Regs, mem: seq<u8>): Machine
    requires LddOk(s, mem)
  {
    var mem' := mem[s.de := mem[s.hl]];
    var t := s.(de := s.de - 1, hl := s.hl - 1, bc := s.bc - 1);
    Machine(WithFlags(t, TransferWrites(t.bc != 0)), mem')
  }

  predicate LddrOk(s: Regs, mem: seq<u8>)
  {
    LddOk(s, mem) && (s.bc - 1 != 0 ==> s.progCounter >= 2)
  }

  /** `exchange_lddr`. */
  function Lddr(s: Regs, mem: seq<u8>): Machine
    requires LddrOk(s, mem)
  {
    var mem' := mem[s.de := mem[s.hl]];
    var t := s.(de := s.de - 1, hl := s.hl - 1, bc := s.bc - 1);
    var u := WithFlags(t, TransferWrites(t.bc != 0));
    Machine(RewindIf(u, u.bc != 0), mem')
  }

  /** `A - mem[HL]`, computed in `i32`. */
  function Compare(s: Regs, mem: seq<u8>): int
    requires s.hl as int < |mem|
  {
    s.Reg(Register.A) as int - mem[s.hl] as int
  }

  /** What CPI needs: HL in the memory and below 0xffff, and BC at least 1. */
  predicate CpiOk(s: Regs, mem: seq<u8>)
  {
    s.hl as int < |mem| && s.hl < 0xffff && s.bc >= 1
  }

  /** `exchange_cpi`: the memory is only read. */
  function Cpi(s: Regs, mem: seq<u8>): Regs
    requires CpiOk(s, mem)
  {
    var cmp := Compare(s, mem);
    var t := s.(hl := s.hl + 1, bc := s.bc - 1);
    WithFlags(t, SearchWrites(cmp, t.bc != 0))
  }

  /** CPI in terms of the state after its register step and of the comparison made before it. */
  lemma CpiAfterStep(s: Regs, mem: seq<u8>, t: Regs, cmp: int)
    requires CpiOk(s, mem) && t == s.(hl := s.hl + 1, bc := s.bc - 1) && cmp == Compare(s, mem)
    ensures Cpi(s, mem) == WithFlags(t, SearchWrites(cmp, t.bc != 0))
  {
  }

  /** CPIR rewinds the counter while BC is not zero or the byte differs from A. */
  predicate CpirOk(s: Regs, mem: seq<u8>)
  {
    CpiOk(s, mem) && (s.bc - 1 != 0 || Compare(s, mem) != 0 ==> s.progCounter >= 2)
  }

  /** `exchange_cpir`: it writes N and Z only, N from `cmp < 0`. */
  function Cpir(s: Regs, mem: seq<u8>): Regs
    requires CpirOk(s, mem)
  {
    var cmp := Compare(s, mem);
    var t := WithFlags(s, RepeatSearchWrites(cmp));
    var u := t.(hl := t.hl + 1, bc := t.bc - 1);
    RewindIf(u, u.bc != 0 || cmp != 0)
  }

  /** What CPD needs: HL in the memory and at least 1, and BC at least 1. */
  predicate CpdOk(s: Regs, mem: seq<u8>)
  {
    s.hl as int < |mem| && s.hl >= 1 && s.bc >= 1
  }

  /** `exchange_cpd`. */
  function Cpd(s: Regs, mem: seq<u8>): Regs
    requires CpdOk(s, mem)
  {
    var cmp := Compare(s, mem);
    var t := s.(hl := s.hl - 1, bc := s.bc - 1);
    WithFlags(t, SearchWrites(cmp, t.bc != 0))
  }

  /** CPD in terms of the state after its register step and of the comparison made before it. */
  lemma CpdAfterStep(s: Regs, mem: seq<u8>, t: Regs, cmp: int)
    requires CpdOk(s, mem) && t == s.(hl := s.hl - 1, bc := s.bc - 1) && cmp == Compare(s, mem)
    ensures Cpd(s, mem) == WithFlags(t, SearchWrites(cmp, t.bc != 0))
  {
  }

  predicate CpdrOk(s: Regs, mem: seq<u8>)
  {
    CpdOk(s, mem) && (s.bc - 1 != 0 || Compare(s, mem) != 0 ==> s.progCounter >= 2)
  }

  /** `exchange_cpdr`. */
  function Cpdr(s: Regs, mem: seq<u8>): Regs
    requires CpdrOk(s, mem)
  {
    var cmp := Compare(s, mem);
    var t := s.(hl := s.hl - 1, bc := s.bc - 1);
    var u := WithFlags(t, SearchWrites(cmp, t.bc != 0));
    RewindIf(u, u.bc != 0 || cmp != 0)
  }

  // ---------------------------------------------------------------------
  // The dispatcher's arms for the exchanges

  predicate Ok(m: Machine, x: ExchangeInstr)
  {
    var s, mem := m.regs, m.mem;
    match x
    case ExDeHl | ExAfAf1 | Exx => true
    case ExSpHl | ExSpIx | ExSpIy => StackOk(s, mem)
    case Ldi => LdiOk(s, mem)
    case Ldir => LdirOk(s, mem)
    case Ldd => LddOk(s, mem)
    case Lddr => LddrOk(s, mem)
    case Cpi => CpiOk(s, mem)
    case Cpir => CpirOk(s, mem)
    case Cpd => CpdOk(s, mem)
    case Cpdr => CpdrOk(s, mem)
  }

  /** The state after the handler of `x`: the `execute` arm of each exchange. */
  function Step(m: Machine, x: ExchangeInstr): Machine
    requires Ok(m, x)
  {
    var s, mem := m.regs, m.mem;
    match x
    case ExDeHl => Machine(ExDeHl(s), mem)
    case ExAfAf1 => Machine(ExAfAf1(s), mem)
    case Exx => Machine(Exx(s), mem)
    case ExSpHl => Machine(ExSpHl(s, mem), mem)
    case ExSpIx => Machine(ExSpIx(s, mem), mem)
    case ExSpIy => Machine(ExSpIy(s, mem), mem)
    case Ldi => Ldi(s, mem)
    case Ldir => Ldir(s, mem)
    case Ldd => Ldd(s, mem)
    case Lddr => Lddr(s, mem)
    case Cpi => Machine(Cpi(s, mem), mem)
    case Cpir => Machine(Cpir(s, mem), mem)
    case Cpd => Machine(Cpd(s, mem), mem)
    case Cpdr => Machine(Cpdr(s, mem), mem)
  }

  // ---------------------------------------------------------------------
  // Properties

  /** The three register exchanges undo themselves, and EXX leaves AF and its shadow alone. */
  lemma ExchangesAreInvolutions(s: Regs)
    ensures ExDeHl(ExDeHl(s)) == s && ExAfAf1(ExAfAf1(s)) == s && Exx(Exx(s)) == s
    ensures Exx(s).af == s.af && Exx(s).af1 == s.af1
    ensures ExDeHl(s).Pair(PairDE) == s.Pair(PairHL) && ExDeHl(s).Pair(PairHL) == s.Pair(PairDE)
  {
  }

  /** The little-endian word at SP. */
  function StackWord(s: Regs, mem: seq<u8>): u16
    requires StackOk(s, mem)
  {
    (mem[s.stackPtr] as int + 0x100 * mem[s.stackPtr + 1] as int) as u16
  }

  /**
   * EX (SP),HL loads the word at SP, low byte first, into HL, changes
   * nothing else and never writes the stack: the old HL is lost rather
   * than swapped.
   */
  lemma ExSpHlLoadsWord(s: Regs, mem: seq<u8>)
    requires StackOk(s, mem)
    ensures ExSpHl(s, mem) == s.(hl := StackWord(s, mem))
  {
    var lo, hi := mem[s.stackPtr], mem[s.stackPtr + 1];
    var t := s.(hl := SetLo16(s.hl, lo));
    assert s.WithReg(Register.L, lo as u16) == t;
    assert t.WithReg(Register.H, hi as u16) == s.(hl := SetHi16(SetLo16(s.hl, lo), hi));
    HiLoDecompose(SetHi16(SetLo16(s.hl, lo), hi));
  }

  /** EX (SP),IX loads the word at SP into IX in the same way. */
  lemma ExSpIxLoadsWord(s: Regs, mem: seq<u8>)
    requires StackOk(s, mem)
    ensures ExSpIx(s, mem) == s.(indexX := StackWord(s, mem))
  {
    MaskedBytesMakeWord(s.indexX, mem[s.stackPtr], mem[s.stackPtr + 1]);
  }

  /** EX (SP),IY loads the word at SP into IY in the same way. */
  lemma ExSpIyLoadsWord(s: Regs, mem: seq<u8>)
    requires StackOk(s, mem)
    ensures ExSpIy(s, mem) == s.(indexY := StackWord(s, mem))
  {
    MaskedBytesMakeWord(s.indexY, mem[s.stackPtr], mem[s.stackPtr + 1]);
  }

  /** Storing a low byte, then a high byte, with the CPU module's masking macros makes the little-endian word. */
  lemma MaskedBytesMakeWord(x: u16, lo: u8, hi: u8)
    ensures SetUpperMasked(SetLowerMasked(x, lo as u16), hi as u16) as int == lo as int + 0x100 * hi as int
  {
    var y := SetUpperMasked(SetLowerMasked(x, lo as u16), hi as u16);
    TruncateWiden(lo);
    TruncateWiden(hi);
    assert Lo16(y) == lo && Hi16(y) == hi;
    HiLoDecompose(y);
  }

  /**
   * What each flag reads after the block transfers' writes: H and N clear,
   * and PV with the flags that share its bit, Z and S, set to `pv`.
   */
  function TransferReading(f: Flag, pv: bool): bool
  {
    match f
    case C => false
    case N => false
    case PV => pv
    case H => false
    case Z => pv
    case S => pv
  }

  lemma TransferFlags(t: Regs, pv: bool, f: Flag)
    ensures WithFlags(t, TransferWrites(pv)).GetFlag(f) == TransferReading(f, pv)
  {
    var ws, x := TransferWrites(pv), Lo16(t.af) as nat;
    assert ws[1..] == [(Flag.PV, pv), (Flag.N, false)] && ws[1..][1..] == [(Flag.N, false)];
    assert LastWrite(ws, 0, Bit(x, 0)) == LastWrite(ws[1..][1..], 0, Bit(x, 0)) == false;
    assert LastWrite(ws, 1, Bit(x, 1)) == LastWrite(ws[1..][1..], 1, pv) == pv;
    assert LastWrite(ws, 2, Bit(x, 2)) == LastWrite(ws[1..][1..], 2, false) == false;
    FlagAfterWrites(t, ws, f);
  }

  /**
   * What each flag reads after the writes of CPI, CPD and CPDR. N is set,
   * and S, which shares its bit, reads set whatever the comparison; Z reads
   * set when the byte matched or when BC is not yet zero, because PV's
   * write lands on one of Z's bits.
   */
  function SearchReading(f: Flag, cmp: int, pv: bool): bool
  {
    match f
    case C => false
    case N => true
    case PV => pv
    case H => cmp == 0
    case Z => pv || cmp == 0
    case S => true
  }

  /** Bit by bit: the last write to bit 0 is N's, to bit 1 PV's, to bit 2 Z's. */
  lemma SearchWritesBits(cmp: int, pv: bool, b0: bool, b1: bool, b2: bool)
    ensures LastWrite(SearchWrites(cmp, pv), 0, b0)
    ensures LastWrite(SearchWrites(cmp, pv), 1, b1) == pv
    ensures LastWrite(SearchWrites(cmp, pv), 2, b2) == (cmp == 0)
  {
    var ws := SearchWrites(cmp, pv);
    var ws1, ws2, ws3 := ws[1..], ws[1..][1..], ws[1..][1..][1..];
    assert ws1 == [(Flag.Z, cmp == 0), (Flag.PV, pv), (Flag.N, true)];
    assert ws2 == [(Flag.PV, pv), (Flag.N, true)] && ws3 == [(Flag.N, true)];
    assert LastWrite(ws, 0, b0) == LastWrite(ws1, 0, cmp < 0) == LastWrite(ws2, 0, cmp < 0);
    assert ws3[1..] == [];
    assert LastWrite(ws2, 0, cmp < 0) == LastWrite(ws3, 0, cmp < 0) == LastWrite([], 0, true);
    assert LastWrite(ws, 1, b1) == LastWrite(ws1, 1, cmp < 0) == LastWrite(ws2, 1, cmp == 0);
    assert LastWrite(ws2, 1, cmp == 0) == LastWrite(ws3, 1, pv) == LastWrite([], 1, pv);
    assert LastWrite(ws, 2, b2) == LastWrite(ws1, 2, cmp < 0) == LastWrite(ws2, 2, cmp == 0);
    assert LastWrite(ws2, 2, cmp == 0) == LastWrite(ws3, 2, cmp == 0) == LastWrite([], 2, cmp == 0);
  }

  lemma SearchFlags(t: Regs, cmp: int, pv: bool, f: Flag)
    ensures WithFlags(t, SearchWrites(cmp, pv)).GetFlag(f) == SearchReading(f, cmp, pv)
  {
    var x := Lo16(t.af) as nat;
    SearchWritesBits(cmp, pv, Bit(x, 0), Bit(x, 1), Bit(x, 2));
    ReadingFromBits(t, SearchWrites(cmp, pv), f, true, pv, cmp == 0);
  }

  /**
   * What each flag reads after CPIR's writes: N whether A was below the
   * byte, Z, PV and H whether it matched, and S, covering both, whether A
   * was at most the byte.
   */
  function RepeatSearchReading(f: Flag, cmp: int): bool
  {
    match f
    case C => false
    case N => cmp < 0
    case PV => cmp == 0
    case H => cmp == 0
    case Z => cmp == 0
    case S => cmp <= 0
  }

  lemma RepeatSearchFlags(t: Regs, cmp: int, f: Flag)
    ensures WithFlags(t, RepeatSearchWrites(cmp)).GetFlag(f) == RepeatSearchReading(f, cmp)
  {
    var ws, x := RepeatSearchWrites(cmp), Lo16(t.af) as nat;
    assert ws[1..] == [(Flag.Z, cmp == 0)];
    assert LastWrite(ws, 0, Bit(x, 0)) == LastWrite(ws[1..], 0, cmp < 0) == (cmp < 0);
    assert LastWrite(ws, 1, Bit(x, 1)) == LastWrite(ws[1..], 1, Bit(x, 1)) == (cmp == 0);
    assert LastWrite(ws, 2, Bit(x, 2)) == LastWrite(ws[1..], 2, Bit(x, 2)) == (cmp == 0);
    FlagAfterWrites(t, ws, f);
  }

  /**
   * LDI copies the byte at HL to DE and changes no other cell, moves DE and
   * HL up and BC down by one, keeps A and everything else, and leaves PV
   * reading whether BC is still at least 2.
   */
  lemma LdiEffect(s: Regs, mem: seq<u8>)
    requires LdiOk(s, mem)
    ensures var r := Ldi(s, mem);
      |r.mem| == |mem| && r.mem[s.de] == mem[s.hl]
      && (forall a :: 0 <= a < |mem| && a != s.de as int ==> r.mem[a] == mem[a])
    ensures var r := Ldi(s, mem).regs;
      r == s.(de := s.de + 1, hl := s.hl + 1, bc := s.bc - 1, af := r.af)
      && r.Reg(Register.A) == s.Reg(Register.A)
    ensures forall f :: Ldi(s, mem).regs.GetFlag(f) == TransferReading(f, s.bc >= 3)
  {
    forall f
      ensures Ldi(s, mem).regs.GetFlag(f) == TransferReading(f, s.bc >= 3)
    {
      TransferFlags(s.(de := s.de + 1, hl := s.hl + 1, bc := s.bc - 1), s.bc - 2 != 0, f);
    }
  }

  /** LDD copies like LDI, moving DE and HL down, and PV reads whether BC is not yet zero. */
  lemma LddEffect(s: Regs, mem: seq<u8>)
    requires LddOk(s, mem)
    ensures var r := Ldd(s, mem);
      |r.mem| == |mem| && r.mem[s.de] == mem[s.hl]
      && (forall a :: 0 <= a < |mem| && a != s.de as int ==> r.mem[a] == mem[a])
    ensures var r := Ldd(s, mem).regs;
      r == s.(de := s.de - 1, hl := s.hl - 1, bc := s.bc - 1, af := r.af)
      && r.Reg(Register.A) == s.Reg(Register.A)
    ensures forall f :: Ldd(s, mem).regs.GetFlag(f) == TransferReading(f, s.bc != 1)
  {
    forall f
      ensures Ldd(s, mem).regs.GetFlag(f) == TransferReading(f, s.bc != 1)
    {
      TransferFlags(s.(de := s.de - 1, hl := s.hl - 1, bc := s.bc - 1), s.bc - 1 != 0, f);
    }
  }

  /**
   * LDIR is LDI followed by a rewind of the program counter, and it always
   * rewinds: BC is at least 2 on entry, so it is never zero after the step.
   */
  lemma LdirAlwaysRepeats(s: Regs, mem: seq<u8>)
    requires LdirOk(s, mem)
    ensures Ldir(s, mem).mem == Ldi(s, mem).mem
    ensures Ldir(s, mem).regs == Ldi(s, mem).regs.(progCounter := s.progCounter - 2)
  {
  }

  /** LDDR is LDD followed by a rewind exactly when BC has not reached zero. */
  lemma LddrRepeatsUntilCountDone(s: Regs, mem: seq<u8>)
    requires LddrOk(s, mem)
    ensures Lddr(s, mem).mem == Ldd(s, mem).mem
    ensures Lddr(s, mem).regs ==
      Ldd(s, mem).regs.(progCounter := if s.bc != 1 then s.progCounter - 2 else s.progCounter)
  {
  }

  /** CPI compares without writing: HL up, BC down, A kept, and the search flags of `A - (HL)`. */
  lemma CpiEffect(s: Regs, mem: seq<u8>)
    requires CpiOk(s, mem)
    ensures var r := Cpi(s, mem);
      r == s.(hl := s.hl + 1, bc := s.bc - 1, af := r.af) && r.Reg(Register.A) == s.Reg(Register.A)
    ensures forall f :: Cpi(s, mem).GetFlag(f) == SearchReading(f, Compare(s, mem), s.bc != 1)
  {
    forall f
      ensures Cpi(s, mem).GetFlag(f) == SearchReading(f, Compare(s, mem), s.bc != 1)
    {
      SearchFlags(s.(hl := s.hl + 1, bc := s.bc - 1), Compare(s, mem), s.bc - 1 != 0, f);
    }
  }

  /** CPD is CPI moving HL down. */
  lemma CpdMirrorsCpi(s: Regs, mem: seq<u8>)
    requires CpiOk(s, mem) && CpdOk(s, mem)
    ensures Cpd(s, mem) == Cpi(s, mem).(hl := s.hl - 1)
  {
    var cmp := Compare(s, mem);
    WithFlagsReadsOnlyAf(s.(hl := s.hl - 1, bc := s.bc - 1), s.(hl := s.hl + 1, bc := s.bc - 1), SearchWrites(cmp, s.bc - 1 != 0));
  }

  /**
   * CPIR steps HL and BC like CPI but writes only N and Z, and it rewinds
   * unless BC reached zero AND the byte matched: a match alone does not
   * stop it. A and bits 3 to 7 of F are kept.
   */
  lemma CpirEffect(s: Regs, mem: seq<u8>)
    requires CpirOk(s, mem)
    ensures var r := Cpir(s, mem);
      var rewind := s.bc != 1 || s.Reg(Register.A) != mem[s.hl] as u16;
      r == s.(hl := s.hl + 1, bc := s.bc - 1, af := r.af,
              progCounter := if rewind then s.progCounter - 2 else s.progCounter)
    ensures Cpir(s, mem).Reg(Register.A) == s.Reg(Register.A)
    ensures Lo16(Cpir(s, mem).af) as int / 8 == Lo16(s.af) as int / 8
    ensures forall f :: Cpir(s, mem).GetFlag(f) == RepeatSearchReading(f, Compare(s, mem))
  {
    var ws := RepeatSearchWrites(Compare(s, mem));
    WithFlagsKeepsReg(s, ws, Register.A);
    WithFlagsKeepsHighBits(s, ws);
    assert Cpir(s, mem).af == WithFlags(s, ws).af;
    forall f
      ensures Cpir(s, mem).GetFlag(f) == RepeatSearchReading(f, Compare(s, mem))
    {
      RepeatSearchFlags(s, Compare(s, mem), f);
    }
  }

  /** CPDR is CPD followed by a rewind unless BC reached zero and the byte matched. */
  lemma CpdrRepeats(s: Regs, mem: seq<u8>)
    requires CpdrOk(s, mem)
    ensures Cpdr(s, mem) == Cpd(s, mem).(progCounter :=
      if s.bc != 1 || Compare(s, mem) != 0 then s.progCounter - 2 else s.progCounter)
  {
  }

  predicate IsTransfer(x: ExchangeInstr)
  {
    x.Ldi? || x.Ldir? || x.Ldd? || x.Lddr?
  }

  /** Only the four block transfers write memory, and each writes the cell at DE. */
  lemma ExchangesWriteOnlyDe(m: Machine, x: ExchangeInstr)
    requires Ok(m, x)
    ensures |Step(m, x).mem| == |m.mem|
    ensures IsTransfer(x) ==> Step(m, x).mem == m.mem[m.regs.de := m.mem[m.regs.hl]]
    ensures !(IsTransfer(x)) ==> Step(m, x).mem == m.mem
  {
  }
}
