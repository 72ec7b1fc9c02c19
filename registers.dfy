/**
 * The register file of the Z80 as a value: the register and flag names, the
 * fourteen fields of the CPU structure, and the read and write accessors of
 * the rz80 crate (built on `HiLo`). The older crate's accessors, built on the
 * `upper!`/`lower!` macros, live beside the CPU class and are proved equal to
 * these.
 */
module Registers {
  import opened Bitwise
  import opened Bits

  /** `Register`: the eight-bit registers and the three pairs that can be named. */
  datatype Register = A | F | B | C | BC | D | E | DE | H | L | HL
  {
    predicate IsPair() { this == BC || this == DE || this == HL }
  }

  /** `Flag`. The discriminants are the values the crates use as bit masks. */
  datatype Flag = C | N | PV | H | Z | S

  /** `f as u8`: C = 0, N = 1, PV = 2, H = 4, Z = 6, S = 7. */
  function Mask(f: Flag): u8
  {
    match f
    case C => 0
    case N => 1
    case PV => 2
    case H => 4
    case Z => 6
    case S => 7
  }

  /**
   * The bits of F that the discriminant of `f` covers: none for C, bit 0 for
   * N, bit 1 for PV, bit 2 for H, bits 1 and 2 for Z, bits 0 to 2 for S.
   */
  predicate MaskHas(f: Flag, i: nat)
  {
    match f
    case C => false
    case N => i == 0
    case PV => i == 1
    case H => i == 2
    case Z => i == 1 || i == 2
    case S => i <= 2
  }

  /** `Condition`: the eight conditions of conditional jumps. */
  datatype Condition = NZ | Z | NC | C | PO | PE | P | M

  /** The four register pairs of the main file. */
  datatype PairName = PairAF | PairBC | PairDE | PairHL

  /** Which part of its pair an eight-bit register is, or the whole pair. */
  datatype Part = High | Low | Whole

  function Home(r: Register): PairName
  {
    match r
    case A | F => PairAF
    case B | C | BC => PairBC
    case D | E | DE => PairDE
    case H | L | HL => PairHL
  }

  function PartOf(r: Register): (k: Part)
    ensures k == Whole <==> r.IsPair()
  {
    match r
    case A | B | D | H => High
    case F | C | E | L => Low
    case BC | DE | HL => Whole
  }

  /** Two registers share a byte: the same register, or a pair and one of its halves. */
  predicate Shares(q: Register, r: Register)
  {
    Home(q) == Home(r) && (q == r || q.IsPair() || r.IsPair())
  }

  /** Reading a part of a pair value, as `reg` does for each register. */
  function Read(x: u16, k: Part): u16
  {
    match k
    case High => Hi16(x) as u16
    case Low => Lo16(x) as u16
    case Whole => x
  }

  /** Writing a part of a pair value, as `set_reg` does for each register. */
  function Write(x: u16, k: Part, v: u16): u16
  {
    match k
    case High => SetHi16(x, Truncate8(v))
    case Low => SetLo16(x, Truncate8(v))
    case Whole => v
  }

  /** Writing one part of a pair leaves a different part as it was. */
  lemma ReadOtherPart(x: u16, k: Part, j: Part, v: u16)
    requires k != j && k != Whole && j != Whole
    ensures Read(Write(x, k, v), j) == Read(x, j)
  {
  }

  /** Widening a byte to 16 bits and truncating it back gives the byte. */
  lemma TruncateWiden(b: u8)
    ensures Truncate8(b as u16) == b
  {
  }

  /** Writing a part of a pair twice, and writing back what is there. */
  lemma WritePartLaws(x: u16, k: Part, v: u16, w: u16)
    ensures Write(Write(x, k, v), k, w) == Write(x, k, w)
    ensures Write(x, k, Read(x, k)) == x
  {
    match k
    case High =>
      SetHiLoCommute(x, Truncate8(v), 0, Truncate8(w), 0);
      TruncateWiden(Hi16(x));
      SetOwnHalves(x);
    case Low =>
      SetHiLoCommute(x, 0, Truncate8(v), 0, Truncate8(w));
      TruncateWiden(Lo16(x));
      SetOwnHalves(x);
    case Whole =>
  }

  /** The fields of the `Z80` structure, all of the width the source gives them. */
  datatype Regs = Regs(
    af: u16, af1: u16,
    bc: u16, bc1: u16,
    de: u16, de1: u16,
    hl: u16, hl1: u16,
    indexX: u16, indexY: u16,
    stackPtr: u16,
    interrupt: u8, refresh: u8,
    progCounter: u16)
  {
    /** The value of a pair of the main file. */
    function Pair(p: PairName): u16
    {
      match p
      case PairAF => af
      case PairBC => bc
      case PairDE => de
      case PairHL => hl
    }

    /** The state with one pair of the main file replaced. */
    function WithPair(p: PairName, x: u16): (s: Regs)
      ensures s.Pair(p) == x
      ensures forall o: PairName :: o != p ==> s.Pair(o) == Pair(o)
      ensures s == this.(af := s.af, bc := s.bc, de := s.de, hl := s.hl)
    {
      match p
      case PairAF => this.(af := x)
      case PairBC => this.(bc := x)
      case PairDE => this.(de := x)
      case PairHL => this.(hl := x)
    }

    /**
     * `reg` of the rz80 crate: a pair as it is, an eight-bit register as the
     * high or low byte of its pair, widened to 16 bits.
     */
    function Reg(r: Register): (v: u16)
      ensures v == Read(Pair(Home(r)), PartOf(r))
      ensures !r.IsPair() ==> v < 0x100
    {
      match r
      case A => Hi16(af) as u16
      case F => Lo16(af) as u16
      case B => Hi16(bc) as u16
      case C => Lo16(bc) as u16
      case BC => bc
      case D => Hi16(de) as u16
      case E => Lo16(de) as u16
      case DE => de
      case H => Hi16(hl) as u16
      case L => Lo16(hl) as u16
      case HL => hl
    }

    /**
     * The state after `set_reg(r, v)` of the rz80 crate: an eight-bit register
     * receives `v as u8` through `set_hi`/`set_lo`, a pair receives `v`.
     * Only the pair holding `r` changes, and `r` then reads `v` (its low
     * byte for an eight-bit register).
     */
    function WithReg(r: Register, v: u16): (s: Regs)
      ensures s == WithPair(Home(r), Write(Pair(Home(r)), PartOf(r), v))
      ensures s.Reg(r) == (if r.IsPair() then v else Truncate8(v) as u16)
    {
      match r
      case A => this.(af := SetHi16(af, Truncate8(v)))
      case F => this.(af := SetLo16(af, Truncate8(v)))
      case B => this.(bc := SetHi16(bc, Truncate8(v)))
      case C => this.(bc := SetLo16(bc, Truncate8(v)))
      case BC => this.(bc := v)
      case D => this.(de := SetHi16(de, Truncate8(v)))
      case E => this.(de := SetLo16(de, Truncate8(v)))
      case DE => this.(de := v)
      case H => this.(hl := SetHi16(hl, Truncate8(v)))
      case L => this.(hl := SetLo16(hl, Truncate8(v)))
      case HL => this.(hl := v)
    }

    /** `flag` of the rz80 crate: the low byte of AF and the discriminant share a set bit. */
    function GetFlag(f: Flag): bool
    {
      And8(Lo16(af), Mask(f)) != 0
    }

    /**
     * The state after `set_flag(f, v)` of the rz80 crate: F receives the new
     * flag byte; the accumulator and every other field keep their values.
     */
    function WithFlag(f: Flag, v: bool): (s: Regs)
      ensures Hi16(s.af) == Hi16(af)
      ensures s == this.(af := s.af)
    {
      this.(af := SetLo16(af, FlagUpdate(Lo16(af), Mask(f), v)))
    }
  }

  /** The flag byte computed by `set_flag`: the mask OR-ed in, or toggled and then cleared. */
  function FlagUpdate(prev: u8, mask: u8, v: bool): u8
  {
    if v then Or8(prev, mask) else And8(Xor8(prev, mask), Not8(mask))
  }

  /**
   * The flag byte computed by the older crate's `set_flag`, in 16 bits on the
   * widened low byte and the widened mask.
   */
  function FlagUpdateWide(prev: u16, mask: u16, v: bool): u16
  {
    if v then Or16(prev, mask) else And16(Xor16(prev, mask), Not16(mask))
  }

  /** On a byte and a byte mask, the 16-bit computation gives the 8-bit flag byte. */
  lemma FlagUpdateWideAgrees(prev: u8, mask: u8, v: bool)
    ensures FlagUpdateWide(prev as u16, mask as u16, v) as int == FlagUpdate(prev, mask, v) as int
  {
    PowValues();
    var a: nat, b: nat := FlagUpdateWide(prev as u16, mask as u16, v) as nat, FlagUpdate(prev, mask, v) as nat;
    forall i | 0 <= i < 16
      ensures Bit(a, i) == Bit(b, i)
    {
      FlagUpdateBit(prev, mask, v, i);
      if i >= 8 {
        BitOfSmall(prev as nat, 8, i);
        BitOfSmall(mask as nat, 8, i);
      }
      if v {
        BitOfCombine(BitOp.Or, prev as nat, mask as nat, 16, i);
      } else {
        var t := Xor16(prev as u16, mask as u16);
        BitOfCombine(BitOp.And, t as nat, Not16(mask as u16) as nat, 16, i);
        BitOfCombine(BitOp.Xor, prev as nat, mask as nat, 16, i);
        BitOfCombine(BitOp.Xor, mask as nat, 0xffff, 16, i);
        BitOfLowOnes(16, i);
      }
    }
    Extensional(a, b, 16);
  }

  /** Each bit of the mask is set to `v` by `set_flag`; every other bit keeps its value. */
  lemma FlagUpdateBit(prev: u8, mask: u8, v: bool, i: nat)
    ensures Bit(FlagUpdate(prev, mask, v) as nat, i) == (if Bit(mask as nat, i) then v else Bit(prev as nat, i))
  {
    PowValues();
    if i >= 8 {
      BitOfSmall(FlagUpdate(prev, mask, v) as nat, 8, i);
      BitOfSmall(mask as nat, 8, i);
      BitOfSmall(prev as nat, 8, i);
    } else if v {
      BitOfCombine(BitOp.Or, prev as nat, mask as nat, 8, i);
    } else {
      var t := Xor8(prev, mask);
      BitOfCombine(BitOp.And, t as nat, Not8(mask) as nat, 8, i);
      BitOfCombine(BitOp.Xor, prev as nat, mask as nat, 8, i);
      BitOfCombine(BitOp.Xor, mask as nat, 0xff, 8, i);
      BitOfLowOnes(8, i);
    }
  }

  /** The discriminant of `f` has exactly the bits `MaskHas` names. */
  lemma MaskBits(f: Flag, i: nat)
    ensures Bit(Mask(f) as nat, i) == MaskHas(f, i)
  {
    if i >= 3 {
      assert Pow2(3) == 8;
      BitOfSmall(Mask(f) as nat, 3, i);
    } else if i == 0 {
      assert !Bit(0, 0) && Bit(1, 0) && !Bit(2, 0) && !Bit(4, 0) && !Bit(6, 0) && Bit(7, 0);
    } else if i == 1 {
      assert !Bit(0, 1) && !Bit(1, 1) && Bit(2, 1) && !Bit(4, 1) && Bit(6, 1) && Bit(7, 1);
    } else {
      assert !Bit(0, 2) && !Bit(1, 2) && !Bit(2, 2) && Bit(4, 2) && Bit(6, 2) && Bit(7, 2);
    }
  }

  /**
   * `flag(f)` is set exactly when one of the bits of F that the discriminant
   * covers is set. So C always reads false, and Z and S read more than one bit.
   */
  predicate TestsBits(x: u8, f: Flag)
  {
    (MaskHas(f, 0) && Bit(x as nat, 0)) || (MaskHas(f, 1) && Bit(x as nat, 1)) || (MaskHas(f, 2) && Bit(x as nat, 2))
  }

  lemma FlagReadsBits(s: Regs, f: Flag)
    ensures s.GetFlag(f) == TestsBits(Lo16(s.af), f)
  {
    PowValues();
    var x := Lo16(s.af);
    var a := And8(x, Mask(f));
    if a != 0 {
      NonZeroBit(a as nat, 8);
      var i :| 0 <= i < 8 && Bit(a as nat, i);
      BitOfCombine(BitOp.And, x as nat, Mask(f) as nat, 8, i);
      MaskBits(f, i);
    } else {
      forall i | 0 <= i < 3
        ensures !(MaskHas(f, i) && Bit(x as nat, i))
      {
        BitOfCombine(BitOp.And, x as nat, Mask(f) as nat, 8, i);
        BitOfSmall(0, 0, i);
        MaskBits(f, i);
      }
    }
  }

  /** After `set_flag(f, v)`, the bits of F that `f` covers read `v`; the other bits are unchanged. */
  lemma WithFlagBits(s: Regs, f: Flag, v: bool, i: nat)
    ensures Bit(Lo16(s.WithFlag(f, v).af) as nat, i) == (if MaskHas(f, i) then v else Bit(Lo16(s.af) as nat, i))
  {
    FlagUpdateBit(Lo16(s.af), Mask(f), v, i);
    MaskBits(f, i);
  }

  /**
   * `set_reg(r, v)` leaves every register that shares no byte with `r` as it
   * was: the other pairs, the other half of r's pair, and every field outside
   * the main file.
   */
  lemma {:induction false} WithRegFrame(s: Regs, r: Register, v: u16, q: Register)
    requires !Shares(q, r)
    ensures s.WithReg(r, v).Reg(q) == s.Reg(q)
  {
    var t := s.WithReg(r, v);
    if Home(q) == Home(r) {
      ReadOtherPart(s.Pair(Home(r)), PartOf(r), PartOf(q), v);
    } else {
      assert t.Pair(Home(q)) == s.Pair(Home(q));
    }
  }

  /** Writing a register twice: the second write wins; writing back its own value changes nothing. */
  lemma {:induction false} WithRegLaws(s: Regs, r: Register, v: u16, w: u16)
    ensures s.WithReg(r, v).WithReg(r, w) == s.WithReg(r, w)
    ensures s.WithReg(r, s.Reg(r)) == s
  {
    var h, k := Home(r), PartOf(r);
    WritePartLaws(s.Pair(h), k, v, w);
    var t := s.WithReg(r, v);
    WithPairLaws(s, h, Write(s.Pair(h), k, v), Write(t.Pair(h), k, w));
    WithPairLaws(s, h, s.Pair(h), s.Pair(h));
  }

  /** Replacing a pair twice keeps the second value; replacing it by itself changes nothing. */
  lemma WithPairLaws(s: Regs, p: PairName, x: u16, y: u16)
    ensures s.WithPair(p, x).WithPair(p, y) == s.WithPair(p, y)
    ensures s.WithPair(p, s.Pair(p)) == s
  {
    match p
    case PairAF =>
    case PairBC =>
    case PairDE =>
    case PairHL =>
  }

  /** The register table of the crates' tests: reading each register of AF=0123, BC=4567, DE=89ab, HL=cdef. */
  lemma RegExamples(s: Regs)
    requires s.af == 0x0123 && s.bc == 0x4567 && s.de == 0x89ab && s.hl == 0xcdef
    ensures s.Reg(Register.A) == 0x01 && s.Reg(Register.B) == 0x45 && s.Reg(Register.C) == 0x67
    ensures s.Reg(Register.BC) == 0x4567 && s.Reg(Register.D) == 0x89 && s.Reg(Register.E) == 0xab
    ensures s.Reg(Register.DE) == 0x89ab && s.Reg(Register.H) == 0xcd && s.Reg(Register.L) == 0xef
    ensures s.Reg(Register.HL) == 0xcdef
  {
  }

  /** The documentation example of `set_reg`: writing 0xabcd to C keeps only 0xcd. */
  lemma WithRegExample(s: Regs)
    ensures s.WithReg(Register.C, 0xabcd).Reg(Register.C) == 0xcd
  {
  }

  /**
   * After `set_flag(f, v)`, `flag(f)` reads `v`, except that C, whose mask
   * is 0, always reads false.
   */
  lemma FlagAfterSet(s: Regs, f: Flag, v: bool)
    ensures s.WithFlag(f, v).GetFlag(f) == (v && f != Flag.C)
  {
    var t := s.WithFlag(f, v);
    FlagReadsBits(t, f);
    WithFlagBits(s, f, v, 0);
    WithFlagBits(s, f, v, 1);
    WithFlagBits(s, f, v, 2);
  }

  /** `set_flag` is idempotent. */
  lemma WithFlagIdempotent(s: Regs, f: Flag, v: bool)
    ensures s.WithFlag(f, v).WithFlag(f, v) == s.WithFlag(f, v)
  {
    PowValues();
    var t := s.WithFlag(f, v);
    var x, y := Lo16(t.af), Lo16(t.WithFlag(f, v).af);
    var xn: nat, yn: nat := x as nat, y as nat;
    forall i | 0 <= i < 8
      ensures Bit(yn, i) == Bit(xn, i)
    {
      WithFlagBits(s, f, v, i);
      WithFlagBits(t, f, v, i);
    }
    Extensional(y as nat, x as nat, 8);
    SetHiLoCommute(s.af, 0, x, 0, y);
  }

  /** A flag whose mask shares no bit with the mask written keeps its value. */
  lemma WithFlagKeepsDisjoint(s: Regs, f: Flag, v: bool, g: Flag)
    requires And8(Mask(f), Mask(g)) == 0
    ensures s.WithFlag(f, v).GetFlag(g) == s.GetFlag(g)
  {
    PowValues();
    var x, y := Lo16(s.af), Lo16(s.WithFlag(f, v).af);
    var a, b := And8(x, Mask(g)), And8(y, Mask(g));
    var an: nat, bn: nat := a as nat, b as nat;
    forall i | 0 <= i < 8
      ensures Bit(bn, i) == Bit(an, i)
    {
      BitOfCombine(BitOp.And, x as nat, Mask(g) as nat, 8, i);
      BitOfCombine(BitOp.And, y as nat, Mask(g) as nat, 8, i);
      BitOfCombine(BitOp.And, Mask(f) as nat, Mask(g) as nat, 8, i);
      BitOfSmall(0, 0, i);
      FlagUpdateBit(x, Mask(f), v, i);
    }
    Extensional(b as nat, a as nat, 8);
  }

  /**
   * Because the masks overlap, writing one flag can change others: clearing
   * Z also clears PV and H, and setting N sets S.
   */
  lemma FlagMasksOverlap(s: Regs)
    ensures !s.WithFlag(Flag.Z, false).GetFlag(Flag.PV)
    ensures !s.WithFlag(Flag.Z, false).GetFlag(Flag.H)
    ensures s.WithFlag(Flag.N, true).GetFlag(Flag.S)
    ensures !s.WithFlag(Flag.C, true).GetFlag(Flag.C)
  {
    var z, n := s.WithFlag(Flag.Z, false), s.WithFlag(Flag.N, true);
    FlagReadsBits(z, Flag.PV);
    FlagReadsBits(z, Flag.H);
    FlagReadsBits(n, Flag.S);
    FlagReadsBits(s.WithFlag(Flag.C, true), Flag.C);
    WithFlagBits(s, Flag.Z, false, 1);
    WithFlagBits(s, Flag.Z, false, 2);
    WithFlagBits(s, Flag.N, true, 0);
  }

  /** The documentation example of `set_flag`: N set, then cleared. */
  lemma FlagExample(s: Regs)
    ensures s.WithFlag(Flag.N, true).GetFlag(Flag.N)
    ensures !s.WithFlag(Flag.N, true).WithFlag(Flag.N, false).GetFlag(Flag.N)
  {
    FlagAfterSet(s, Flag.N, true);
    FlagAfterSet(s.WithFlag(Flag.N, true), Flag.N, false);
  }
}
