/**
 * What the decoders of both crates share: the three masks that split an
 * opcode byte into its fields (two top bits, three middle bits, three low
 * bits), the tables from a three-bit field to a register or a condition,
 * and the little-endian reading of a 16-bit operand.
 *
 * The decoders test fields by arithmetic (`Top2`, `Mid3`, `Low3`);
 * `AndKeepsFields` shows that each `&` with a combination of the masks keeps
 * exactly the named fields, so those tests are the source's mask tests.
 */
module DecodeTables {
  import opened Bitwise
  import opened Bits
  import opened Registers
  import opened Choice

  /** `TOP_TWO`, `MID_THREE` and `LOW_THREE`. */
  const TopTwo: u8 := 0xc0
  const MidThree: u8 := 0x38
  const LowThree: u8 := 0x07

  /** Bits 7..6 of an opcode, bits 5..3 and bits 2..0. */
  function Top2(x: u8): (t: u8)
    ensures t < 4
  {
    x / 64
  }

  function Mid3(x: u8): (m: u8)
    ensures m < 8
  {
    (x / 8) % 8
  }

  function Low3(x: u8): (l: u8)
    ensures l < 8
  {
    x % 8
  }

  /** `x & TOP_TWO`, `x & (TOP_TWO | LOW_THREE)` and `x & (TOP_TWO | MID_THREE)`, by the fields they keep. */
  function MaskTop(x: u8): u8
  {
    64 * Top2(x)
  }

  function MaskTopLow(x: u8): u8
  {
    64 * Top2(x) + Low3(x)
  }

  function MaskTopMid(x: u8): u8
  {
    64 * Top2(x) + 8 * Mid3(x)
  }

  /** The byte that keeps the chosen fields of `x` and has zeroes elsewhere. */
  function KeepFields(x: u8, top: bool, mid: bool, low: bool): u8
  {
    (if top then 64 * Top2(x) else 0) + (if mid then 8 * Mid3(x) else 0) + (if low then Low3(x) else 0)
  }

  /** The three fields of a byte determine it. */
  lemma FieldsDetermine(x: u8)
    ensures x == 64 * Top2(x) + 8 * Mid3(x) + Low3(x)
  {
  }

  /** The fields of the byte `tt mmm lll`. */
  lemma FieldsOfByte(t: int, m: int, l: int)
    requires 0 <= t < 4 && 0 <= m < 8 && 0 <= l < 8
    ensures Top2((64 * t + 8 * m + l) as u8) as int == t
    ensures Mid3((64 * t + 8 * m + l) as u8) as int == m
    ensures Low3((64 * t + 8 * m + l) as u8) as int == l
  {
    var v := 64 * t + 8 * m + l;
    DivModUnique(v, 8, 8 * t + m, l);
    DivModUnique(v / 8, 8, t, m);
    DivModUnique(v, 64, t, 8 * m + l);
  }

  /** The fields of a byte built from fields. */
  lemma FieldsOfKept(x: u8, top: bool, mid: bool, low: bool)
    ensures Top2(KeepFields(x, top, mid, low)) == (if top then Top2(x) else 0)
    ensures Mid3(KeepFields(x, top, mid, low)) == (if mid then Mid3(x) else 0)
    ensures Low3(KeepFields(x, top, mid, low)) == (if low then Low3(x) else 0)
  {
    var t, m, l := (if top then Top2(x) else 0), (if mid then Mid3(x) else 0), (if low then Low3(x) else 0);
    var v := KeepFields(x, top, mid, low);
    assert v as int == 64 * t as int + 8 * m as int + l as int;
    DivModUnique(v as int, 8, 8 * t as int + m as int, l as int);
    DivModUnique(v as int / 8, 8, t as int, m as int);
    DivModUnique(v as int, 64, t as int, 8 * m as int + l as int);
  }

  /** Bit `i` of a byte, read from the field that holds it. */
  lemma FieldBit(x: u8, i: nat)
    requires i < 8
    ensures Bit(x as nat, i) == if i < 3 then Bit(Low3(x) as nat, i)
                                else if i < 6 then Bit(Mid3(x) as nat, i - 3)
                                else Bit(Top2(x) as nat, i - 6)
  {
    assert Pow2(3) == 8;
    var q: nat := x as nat / 8;
    assert x as nat == Pow2(3) * q + Low3(x) as nat;
    BitOfConcat(q, Low3(x) as nat, 3, i);
    if i >= 3 {
      QuotientFieldBit(x, i - 3);
    }
  }

  /** Bit `j` of `x / 8`: the middle field, then the top field. */
  lemma QuotientFieldBit(x: u8, j: nat)
    ensures Bit(x as nat / 8, j) == if j < 3 then Bit(Mid3(x) as nat, j) else Bit(Top2(x) as nat, j - 3)
  {
    assert Pow2(3) == 8;
    var q: nat := x as nat / 8;
    DivModUnique(q, 8, Top2(x) as int, Mid3(x) as int);
    assert q == Pow2(3) * Top2(x) as nat + Mid3(x) as nat;
    BitOfConcat(Top2(x) as nat, Mid3(x) as nat, 3, j);
  }

  /** Bit `j` of a field of the all-ones byte, and of a zero field. */
  lemma FieldOfOnesBit(j: nat, width: nat)
    ensures Bit(Pow2(width) - 1, j) == (j < width)
    ensures !Bit(0, j)
  {
    BitOfLowOnes(width, j);
    BitOfSmall(0, 0, j);
  }

  /** One bit of `x & mask` when each field of `mask` is all ones or all zeroes. */
  lemma AndFieldBit(x: u8, mask: u8, v: u8, i: nat)
    requires i < 8
    requires Top2(mask) in {0, 3} && Mid3(mask) in {0, 7} && Low3(mask) in {0, 7}
    requires Top2(v) == (if Top2(mask) == 3 then Top2(x) else 0)
    requires Mid3(v) == (if Mid3(mask) == 7 then Mid3(x) else 0)
    requires Low3(v) == (if Low3(mask) == 7 then Low3(x) else 0)
    ensures Bit(v as nat, i) == (Bit(x as nat, i) && Bit(mask as nat, i))
  {
    assert Pow2(2) - 1 == 3 && Pow2(3) - 1 == 7;
    FieldBit(x, i);
    FieldBit(mask, i);
    FieldBit(v, i);
    if i < 3 {
      FieldOfOnesBit(i, 3);
    } else if i < 6 {
      FieldOfOnesBit(i - 3, 3);
    } else {
      FieldOfOnesBit(i - 6, 2);
    }
  }

  /**
   * `x & mask`, where `mask` is one of the combinations of `TOP_TWO`,
   * `MID_THREE` and `LOW_THREE`, keeps exactly the fields the mask covers.
   */
  lemma AndKeepsFields(x: u8, top: bool, mid: bool, low: bool)
    ensures And8(x, KeepFields(0xff, top, mid, low)) == KeepFields(x, top, mid, low)
  {
    var mask := KeepFields(0xff, top, mid, low);
    var v := KeepFields(x, top, mid, low);
    FieldsOfKept(0xff, top, mid, low);
    FieldsOfKept(x, top, mid, low);
    var xn, mn, vn: nat := x as nat, mask as nat, v as nat;
    var a := Combine(BitOp.And, xn, mn, 8);
    forall i | 0 <= i < 8
      ensures Bit(a, i) == Bit(vn, i)
    {
      AndKeepsFieldsBit(x, top, mid, low, i);
    }
    assert Pow2(8) == 0x100;
    Extensional(a, vn, 8);
  }

  lemma AndKeepsFieldsBit(x: u8, top: bool, mid: bool, low: bool, i: nat)
    requires i < 8
    ensures Bit(Combine(BitOp.And, x as nat, KeepFields(0xff, top, mid, low) as nat, 8), i)
         == Bit(KeepFields(x, top, mid, low) as nat, i)
  {
    var mask := KeepFields(0xff, top, mid, low);
    FieldsOfKept(0xff, top, mid, low);
    FieldsOfKept(x, top, mid, low);
    BitOfCombine(BitOp.And, x as nat, mask as nat, 8, i);
    AndFieldBit(x, mask, KeepFields(x, top, mid, low), i);
  }

  /** The masks and the fields they cover. */
  lemma MaskValues()
    ensures TopTwo == KeepFields(0xff, true, false, false)
    ensures MidThree == KeepFields(0xff, false, true, false)
    ensures LowThree == KeepFields(0xff, false, false, true)
    ensures KeepFields(0xff, true, false, true) == 0xc7
    ensures KeepFields(0xff, true, true, false) == 0xf8
  {
  }

  /** The two unions of masks the decoders use. */
  lemma MaskUnions()
    ensures Or8(TopTwo, LowThree) == 0xc7
    ensures Or8(TopTwo, MidThree) == 0xf8
  {
  }

  /**
   * The mask tests of the decoders in field terms: `x & TOP_TWO`,
   * `x & (TOP_TWO | LOW_THREE)`, `x & (TOP_TWO | MID_THREE)`, and the
   * fields `(x & MID_THREE) >> 3` and `x & LOW_THREE` given to the tables.
   */
  lemma MaskTests(x: u8)
    ensures And8(x, TopTwo) == MaskTop(x)
    ensures And8(x, Or8(TopTwo, LowThree)) == MaskTopLow(x)
    ensures And8(x, Or8(TopTwo, MidThree)) == MaskTopMid(x)
    ensures And8(x, MidThree) / 8 == Mid3(x)
    ensures And8(x, LowThree) == Low3(x)
  {
    MaskValues();
    MaskUnions();
    AndKeepsFields(x, true, false, false);
    AndKeepsFields(x, false, true, false);
    AndKeepsFields(x, false, false, true);
    AndKeepsFields(x, true, false, true);
    AndKeepsFields(x, true, true, false);
  }

  /** `bits_to_reg`: the register a three-bit field names; 110 and anything wider name none. */
  function BitsToReg(bits: u8): Option<Register>
  {
    match bits
    case 7 => Some(Register.A)
    case 0 => Some(Register.B)
    case 1 => Some(Register.C)
    case 2 => Some(Register.D)
    case 3 => Some(Register.E)
    case 4 => Some(Register.H)
    case 5 => Some(Register.L)
    case _ => None
  }

  /** The seven eight-bit registers an opcode field can name. */
  predicate IsByteReg(r: Register)
  {
    r in {Register.A, Register.B, Register.C, Register.D, Register.E, Register.H, Register.L}
  }

  /** The opcode field of a register, as the Z80 instruction set assigns it. */
  function RegCode(r: Register): (b: u8)
    requires IsByteReg(r)
    ensures b < 8 && b != 6
  {
    match r
    case A => 7
    case B => 0
    case C => 1
    case D => 2
    case E => 3
    case H => 4
    case L => 5
  }

  /** `bits_to_reg` is the inverse of the register coding, in both directions. */
  lemma BitsToRegInverse(bits: u8, r: Register)
    ensures BitsToReg(bits) == Some(r) <==> IsByteReg(r) && bits == RegCode(r)
  {
  }

  /** `bits_to_reg` names no register exactly for 110 and for values above 7. */
  lemma BitsToRegNone(bits: u8)
    ensures BitsToReg(bits).None? <==> bits == 6 || bits >= 8
  {
  }

  /** `bits_to_condition`: the condition a three-bit field names. */
  function BitsToCondition(bits: u8): Option<Condition>
  {
    match bits
    case 0 => Some(Condition.NZ)
    case 1 => Some(Condition.Z)
    case 2 => Some(Condition.NC)
    case 3 => Some(Condition.C)
    case 4 => Some(Condition.PO)
    case 5 => Some(Condition.PE)
    case 6 => Some(Condition.P)
    case 7 => Some(Condition.M)
    case _ => None
  }

  /** The opcode field of a condition. */
  function CondCode(cc: Condition): (b: u8)
    ensures b < 8
  {
    match cc
    case NZ => 0
    case Z => 1
    case NC => 2
    case C => 3
    case PO => 4
    case PE => 5
    case P => 6
    case M => 7
  }

  /** `bits_to_condition` is the inverse of the condition coding; every three-bit field names one. */
  lemma BitsToConditionInverse(bits: u8, cc: Condition)
    ensures BitsToCondition(bits) == Some(cc) <==> bits == CondCode(cc)
    ensures BitsToCondition(bits).Some? <==> bits < 8
  {
  }

  /** A 16-bit operand stored low byte first. */
  function LittleEndian(lo: u8, hi: u8): (nn: u16)
    ensures Lo16(nn) == lo && Hi16(nn) == hi
  {
    lo as u16 + 0x100 * hi as u16
  }

  /** `lo as u16 | ((hi as u16) << 8)`, the load decoder's way of joining the operand bytes. */
  lemma LittleEndianJoin(lo: u8, hi: u8)
    ensures Or16(lo as u16, Shl16By8(hi as u16)) == LittleEndian(lo, hi)
  {
    JoinBytes(hi as u16, lo as u16);
  }
}
