/**
 * The 8-bit arithmetic decoders of both crates. Each matches slice
 * patterns for the immediate, (HL) and indexed forms, then tries helpers
 * for the register forms through `options!`. The rz80 decoder also knows
 * CP and DEC; its module is not declared by the rz80 decoder, so nothing
 * reaches it there. The register-form helpers are the same text in both
 * crates and are given once.
 */
module DecodeArith8 {
  import opened Bits
  import opened Registers
  import opened Choice
  import opened Insts
  import opened DecodeTables
  import opened Encoding

  // ---------------------------------------------------------------------
  // Register forms (the helpers after the slice patterns)

  /** `add_a_r`: tests only the top field, so it answers every `10 ooo rrr`. */
  function AddAR(mem: seq<u8>): DecodeResult
    requires |mem| >= 1
  {
    if MaskTop(mem[0]) != 0x80 then None
    else
      var r :- BitsToReg(Low3(mem[0]));
      Some((Arith(Alu(Add, OfReg(r))), 1))
  }

  /** `addc_a_r`, `sub_a_r`, `subc_a_r`, `and_a_r`, `or_a_r`, `xor_a_r`, `cp_r`: `10 ooo rrr` with the operation's field. */
  function AluAR(mem: seq<u8>, op: AluOp, pattern: u8): DecodeResult
    requires |mem| >= 1
  {
    if MaskTopMid(mem[0]) != pattern then None
    else
      var r :- BitsToReg(Low3(mem[0]));
      Some((Arith(Alu(op, OfReg(r))), 1))
  }

  /** `inc_r`: `00 rrr 100`. */
  function IncR(mem: seq<u8>): DecodeResult
    requires |mem| >= 1
  {
    if MaskTopLow(mem[0]) != 0x04 then None
    else
      var r :- BitsToReg(Mid3(mem[0]));
      Some((Arith(Inc(OfReg(r))), 1))
  }

  /** `dec_r`: `00 rrr 101`. */
  function DecR(mem: seq<u8>): DecodeResult
    requires |mem| >= 1
  {
    if MaskTopLow(mem[0]) != 0x05 then None
    else
      var r :- BitsToReg(Mid3(mem[0]));
      Some((Arith(Dec(OfReg(r))), 1))
  }

  /** The rz80 decoder's helpers for the register forms, in order. */
  function RegisterForms(mem: seq<u8>): DecodeResult
    requires |mem| >= 1
  {
    OrElse(AddAR(mem),
    OrElse(AluAR(mem, Adc, 0x88),
    OrElse(AluAR(mem, Sub, 0x90),
    OrElse(AluAR(mem, Sbc, 0x98),
    OrElse(AluAR(mem, And, 0xa0),
    OrElse(AluAR(mem, Or, 0xb0),
    OrElse(AluAR(mem, Xor, 0xa8),
    OrElse(AluAR(mem, Cp, 0xb8),
    OrElse(IncR(mem),
    DecR(mem))))))))))
  }

  /** The older decoder's helpers: no `cp_r` and no `dec_r`. */
  function RegisterFormsOld(mem: seq<u8>): DecodeResult
    requires |mem| >= 1
  {
    OrElse(AddAR(mem),
    OrElse(AluAR(mem, Adc, 0x88),
    OrElse(AluAR(mem, Sub, 0x90),
    OrElse(AluAR(mem, Sbc, 0x98),
    OrElse(AluAR(mem, And, 0xa0),
    OrElse(AluAR(mem, Or, 0xb0),
    OrElse(AluAR(mem, Xor, 0xa8),
    IncR(mem))))))))
  }

  // ---------------------------------------------------------------------
  // The decoders

  /** The rz80 table of second bytes after DD or FD; any other byte gives no instruction. */
  function Indexed(op: u8, s: Operand): Option<ArithInstr>
  {
    match op
    case 0x86 => Some(Alu(Add, s))
    case 0x8e => Some(Alu(Adc, s))
    case 0x96 => Some(Alu(Sub, s))
    case 0x9e => Some(Alu(Sbc, s))
    case 0x34 => Some(Inc(s))
    case 0xa6 => Some(Alu(And, s))
    case 0xb6 => Some(Alu(Or, s))
    case 0xae => Some(Alu(Xor, s))
    case 0xbe => Some(Alu(Cp, s))
    case 0x35 => Some(Dec(s))
    case _ => None
  }

  /** The older table: no CP and no DEC. */
  function IndexedOld(op: u8, s: Operand): Option<ArithInstr>
  {
    match op
    case 0x86 => Some(Alu(Add, s))
    case 0x8e => Some(Alu(Adc, s))
    case 0x96 => Some(Alu(Sub, s))
    case 0x9e => Some(Alu(Sbc, s))
    case 0x34 => Some(Inc(s))
    case 0xa6 => Some(Alu(And, s))
    case 0xb6 => Some(Alu(Or, s))
    case 0xae => Some(Alu(Xor, s))
    case _ => None
  }

  /** Three bytes from the table, or none. */
  function Three(a: Option<ArithInstr>): DecodeResult
  {
    match a
    case Some(x) => Some((Arith(x), 3))
    case None => None
  }

  /**
   * rz80 `arith8`: the slice patterns in order, then the register-form
   * helpers. The helpers index the opcode, so the memory may not be empty.
   */
  function Arith8(mem: seq<u8>): DecodeResult
    requires |mem| >= 1
  {
    if |mem| >= 2 && mem[0] == 0xc6 then Some((Arith(Alu(Add, Imm(mem[1]))), 2))
    else if mem[0] == 0x86 then Some((Arith(Alu(Add, AtHl)), 1))
    else if |mem| >= 3 && mem[0] == 0xdd then Three(Indexed(mem[1], AtIx(AsI8(mem[2]))))
    else if |mem| >= 3 && mem[0] == 0xfd then Three(Indexed(mem[1], AtIy(AsI8(mem[2]))))
    else if |mem| >= 2 && mem[0] == 0xce then Some((Arith(Alu(Adc, Imm(mem[1]))), 2))
    else if mem[0] == 0x8e then Some((Arith(Alu(Adc, AtHl)), 1))
    else if |mem| >= 2 && mem[0] == 0xd6 then Some((Arith(Alu(Sub, Imm(mem[1]))), 2))
    else if mem[0] == 0x96 then Some((Arith(Alu(Sub, AtHl)), 1))
    else if |mem| >= 2 && mem[0] == 0xde then Some((Arith(Alu(Sbc, Imm(mem[1]))), 2))
    else if mem[0] == 0x9e then Some((Arith(Alu(Sbc, AtHl)), 1))
    else if mem[0] == 0x34 then Some((Arith(Inc(AtHl)), 1))
    else if |mem| >= 2 && mem[0] == 0xe6 then Some((Arith(Alu(And, Imm(mem[1]))), 2))
    else if mem[0] == 0xa6 then Some((Arith(Alu(And, AtHl)), 1))
    else if |mem| >= 2 && mem[0] == 0xf6 then Some((Arith(Alu(Or, Imm(mem[1]))), 2))
    else if mem[0] == 0xb6 then Some((Arith(Alu(Or, AtHl)), 1))
    else if |mem| >= 2 && mem[0] == 0xee then Some((Arith(Alu(Xor, Imm(mem[1]))), 2))
    else if mem[0] == 0xae then Some((Arith(Alu(Xor, AtHl)), 1))
    else if |mem| >= 2 && mem[0] == 0xfe then Some((Arith(Alu(Cp, Imm(mem[1]))), 2))
    else if mem[0] == 0xbe then Some((Arith(Alu(Cp, AtHl)), 1))
    else if mem[0] == 0x35 then Some((Arith(Dec(AtHl)), 1))
    else RegisterForms(mem)
  }

  /** The older crate's `arith8`: the same without CP and DEC. */
  function Arith8Old(mem: seq<u8>): DecodeResult
    requires |mem| >= 1
  {
    if |mem| >= 2 && mem[0] == 0xc6 then Some((Arith(Alu(Add, Imm(mem[1]))), 2))
    else if mem[0] == 0x86 then Some((Arith(Alu(Add, AtHl)), 1))
    else if |mem| >= 3 && mem[0] == 0xdd then Three(IndexedOld(mem[1], AtIx(AsI8(mem[2]))))
    else if |mem| >= 3 && mem[0] == 0xfd then Three(IndexedOld(mem[1], AtIy(AsI8(mem[2]))))
    else if |mem| >= 2 && mem[0] == 0xce then Some((Arith(Alu(Adc, Imm(mem[1]))), 2))
    else if mem[0] == 0x8e then Some((Arith(Alu(Adc, AtHl)), 1))
    else if |mem| >= 2 && mem[0] == 0xd6 then Some((Arith(Alu(Sub, Imm(mem[1]))), 2))
    else if mem[0] == 0x96 then Some((Arith(Alu(Sub, AtHl)), 1))
    else if |mem| >= 2 && mem[0] == 0xde then Some((Arith(Alu(Sbc, Imm(mem[1]))), 2))
    else if mem[0] == 0x9e then Some((Arith(Alu(Sbc, AtHl)), 1))
    else if mem[0] == 0x34 then Some((Arith(Inc(AtHl)), 1))
    else if |mem| >= 2 && mem[0] == 0xe6 then Some((Arith(Alu(And, Imm(mem[1]))), 2))
    else if mem[0] == 0xa6 then Some((Arith(Alu(And, AtHl)), 1))
    else if |mem| >= 2 && mem[0] == 0xf6 then Some((Arith(Alu(Or, Imm(mem[1]))), 2))
    else if mem[0] == 0xb6 then Some((Arith(Alu(Or, AtHl)), 1))
    else if |mem| >= 2 && mem[0] == 0xee then Some((Arith(Alu(Xor, Imm(mem[1]))), 2))
    else if mem[0] == 0xae then Some((Arith(Alu(Xor, AtHl)), 1))
    else RegisterFormsOld(mem)
  }

  // ---------------------------------------------------------------------
  // What the answers mean

  /**
   * The register forms of ADC, SUB, SBC, AND, OR, XOR and CP are never
   * answered: `add_a_r` tests only the top field, so it answers first on
   * every byte their helpers match. The helper list acts as its first,
   * ninth and tenth entries alone.
   */
  lemma RegisterFormsShadowed(mem: seq<u8>)
    requires |mem| >= 1
    ensures RegisterForms(mem) == OrElse(AddAR(mem), OrElse(IncR(mem), DecR(mem)))
    ensures RegisterFormsOld(mem) == OrElse(AddAR(mem), IncR(mem))
  {
    var tail := OrElse(IncR(mem), DecR(mem));
    if AddAR(mem).None? {
      AluARShadowed(mem, Adc, 0x88);
      AluARShadowed(mem, Sub, 0x90);
      AluARShadowed(mem, Sbc, 0x98);
      AluARShadowed(mem, And, 0xa0);
      AluARShadowed(mem, Or, 0xb0);
      AluARShadowed(mem, Xor, 0xa8);
      AluARShadowed(mem, Cp, 0xb8);
      assert RegisterForms(mem) == tail;
      assert RegisterFormsOld(mem) == IncR(mem);
    }
  }

  /** A helper for `10 ooo rrr` answers nothing where `add_a_r` answers nothing. */
  lemma AluARShadowed(mem: seq<u8>, op: AluOp, pattern: u8)
    requires |mem| >= 1 && Top2(pattern) == 2 && Low3(pattern) == 0
    requires AddAR(mem).None?
    ensures AluAR(mem, op, pattern).None?
  {
    var x := mem[0];
    FieldsDetermine(x);
    FieldsDetermine(pattern);
    if MaskTop(x) == 0x80 {
      BitsToRegNone(Low3(x));
    }
  }

  /** Which instructions an answer names: CP or DEC, which only the rz80 decoder knows. */
  predicate IsCpOrDec(i: Instr)
  {
    i.Arith? && ((i.arith.Alu? && i.arith.op == Cp) || i.arith.Dec?)
  }

  /**
   * The arithmetic instructions the decoder reads back from their
   * encoding: all but the register forms of the accumulator operations
   * other than ADD.
   */
  predicate ReadBack(a: ArithInstr)
  {
    !(a.Alu? && a.s.OfReg? && a.op != Add)
  }

  /**
   * What an answer `(Arith(a), w)` says about the bytes. A register
   * operand of an accumulator operation is read as ADD with the register
   * of the low field, whatever operation the middle field names; every
   * other answer is an instruction the bytes begin with, `w` its length.
   */
  predicate Explains(mem: seq<u8>, a: ArithInstr, w: u8)
  {
    if a.Alu? && a.s.OfReg? then
      a.op == Add && IsByteReg(a.s.r) && |mem| >= 1 &&
      Top2(mem[0]) == 2 && Low3(mem[0]) == RegCode(a.s.r) && w == 1
    else
      Begins(mem, Arith(a)) && w as int == |EncodeArith(a)|
  }

  /** An answer is an arithmetic instruction that the bytes explain. */
  predicate Sound(mem: seq<u8>, o: DecodeResult)
  {
    o.Some? ==> o.value.0.Arith? && Explains(mem, o.value.0.arith, o.value.1)
  }

  lemma AddARSound(mem: seq<u8>)
    requires |mem| >= 1
    ensures Sound(mem, AddAR(mem))
  {
    if AddAR(mem).Some? {
      var r := BitsToReg(Low3(mem[0])).value;
      BitsToRegInverse(Low3(mem[0]), r);
    }
  }

  lemma IncDecRSound(mem: seq<u8>)
    requires |mem| >= 1
    ensures Sound(mem, IncR(mem)) && Sound(mem, DecR(mem))
  {
    var x := mem[0];
    if IncR(mem).Some? || DecR(mem).Some? {
      var r := BitsToReg(Mid3(x)).value;
      BitsToRegInverse(Mid3(x), r);
      FieldsDetermine(x);
      assert mem[..1] == [x];
    }
  }

  /** The answers of the indexed table. */
  lemma IndexedSound(mem: seq<u8>)
    requires |mem| >= 3 && (mem[0] == 0xdd || mem[0] == 0xfd)
    ensures var s := if mem[0] == 0xdd then AtIx(AsI8(mem[2])) else AtIy(AsI8(mem[2]));
      Sound(mem, Three(Indexed(mem[1], s)))
  {
    assert mem[..3] == [mem[0], mem[1], DispByte(AsI8(mem[2]))];
  }

  /** The answers of the two-byte patterns `11 ooo 110 n`. */
  lemma ImmediateSound(mem: seq<u8>)
    requires |mem| >= 2 && MaskTopLow(mem[0]) == 0xc6
    ensures Sound(mem, Arith8(mem))
  {
    assert mem[..2] == [mem[0], mem[1]];
  }

  /** The answers of the one-byte patterns on (HL). */
  lemma AtHlSound(mem: seq<u8>)
    requires |mem| >= 1 && (MaskTopLow(mem[0]) == 0x86 || mem[0] == 0x34 || mem[0] == 0x35)
    ensures Sound(mem, Arith8(mem))
  {
    assert mem[..1] == [mem[0]];
  }

  /** Bytes that no slice pattern takes go to the register-form helpers. */
  lemma NoPattern(mem: seq<u8>)
    requires |mem| >= 1 && !(|mem| >= 3 && (mem[0] == 0xdd || mem[0] == 0xfd))
    requires !(|mem| >= 2 && MaskTopLow(mem[0]) == 0xc6)
    requires !(MaskTopLow(mem[0]) == 0x86 || mem[0] == 0x34 || mem[0] == 0x35)
    ensures Arith8(mem) == RegisterForms(mem)
  {
  }

  /** Whatever `arith8` answers is an arithmetic instruction that the bytes explain. */
  lemma Arith8Sound(mem: seq<u8>)
    requires |mem| >= 1
    ensures Sound(mem, Arith8(mem))
  {
    if |mem| >= 3 && (mem[0] == 0xdd || mem[0] == 0xfd) {
      IndexedSound(mem);
    } else if |mem| >= 2 && MaskTopLow(mem[0]) == 0xc6 {
      ImmediateSound(mem);
    } else if MaskTopLow(mem[0]) == 0x86 || mem[0] == 0x34 || mem[0] == 0x35 {
      AtHlSound(mem);
    } else {
      NoPattern(mem);
      RegisterFormsShadowed(mem);
      AddARSound(mem);
      IncDecRSound(mem);
    }
  }

  // ---------------------------------------------------------------------
  // Reading encodings back

  lemma ReadsBackIncRegister(r: Register, rest: seq<u8>)
    requires IsByteReg(r)
    ensures Arith8(EncodeArith(Inc(OfReg(r))) + rest) == Some((Arith(Inc(OfReg(r))), 1))
  {
    var mem := EncodeArith(Inc(OfReg(r))) + rest;
    FieldsOfByte(0, RegCode(r) as int, 4);
    BitsToRegInverse(RegCode(r), r);
    NoPattern(mem);
    RegisterFormsShadowed(mem);
  }

  lemma ReadsBackDecRegister(r: Register, rest: seq<u8>)
    requires IsByteReg(r)
    ensures Arith8(EncodeArith(Dec(OfReg(r))) + rest) == Some((Arith(Dec(OfReg(r))), 1))
  {
    var mem := EncodeArith(Dec(OfReg(r))) + rest;
    FieldsOfByte(0, RegCode(r) as int, 5);
    BitsToRegInverse(RegCode(r), r);
    NoPattern(mem);
    RegisterFormsShadowed(mem);
  }

  lemma ReadsBackAddRegister(r: Register, rest: seq<u8>)
    requires IsByteReg(r)
    ensures Arith8(EncodeArith(Alu(Add, OfReg(r))) + rest) == Some((Arith(Alu(Add, OfReg(r))), 1))
  {
    Arith8RegisterOperandAsAdd(Add, r, rest);
  }

  lemma ReadsBackAccumulator(a: ArithInstr, rest: seq<u8>)
    requires a.Alu? && (a.s.Imm? || a.s.AtHl? || a.s.AtIx? || a.s.AtIy?)
    ensures Arith8(EncodeArith(a) + rest) == Some((Arith(a), |EncodeArith(a)| as u8))
  {
  }

  lemma ReadsBackMemory(a: ArithInstr, rest: seq<u8>)
    requires (a.Inc? || a.Dec?) && (a.m.AtHl? || a.m.AtIx? || a.m.AtIy?)
    ensures Arith8(EncodeArith(a) + rest) == Some((Arith(a), |EncodeArith(a)| as u8))
  {
  }

  /** Every instruction the decoder reads back is decoded from its encoding, whatever follows it, with the encoding's length. */
  lemma Arith8ReadsBack(a: ArithInstr, rest: seq<u8>)
    requires ArithEncodable(a) && ReadBack(a)
    ensures Arith8(EncodeArith(a) + rest) == Some((Arith(a), |EncodeArith(a)| as u8))
  {
    if a.Alu? {
      if a.s.OfReg? {
        ReadsBackAddRegister(a.s.r, rest);
      } else {
        ReadsBackAccumulator(a, rest);
      }
    } else if a.m.OfReg? {
      if a.Inc? {
        ReadsBackIncRegister(a.m.r, rest);
      } else {
        ReadsBackDecRegister(a.m.r, rest);
      }
    } else {
      ReadsBackMemory(a, rest);
    }
  }

  /**
   * ADC, SUB, SBC, AND, XOR, OR and CP on a register are decoded as ADD on
   * that register: the decoder cannot tell them from ADD.
   */
  lemma Arith8RegisterOperandAsAdd(op: AluOp, r: Register, rest: seq<u8>)
    requires IsByteReg(r)
    ensures Arith8(EncodeArith(Alu(op, OfReg(r))) + rest) == Some((Arith(Alu(Add, OfReg(r))), 1))
  {
    var mem := EncodeArith(Alu(op, OfReg(r))) + rest;
    FieldsOfByte(2, OpCode(op) as int, RegCode(r) as int);
    BitsToRegInverse(RegCode(r), r);
    assert mem[0] == 0x80 + 8 * OpCode(op) + RegCode(r);
    assert MaskTopLow(mem[0]) == 0x80 + RegCode(r);
    NoPattern(mem);
    RegisterFormsShadowed(mem);
  }

  // ---------------------------------------------------------------------
  // The two crates

  /**
   * The older decoder answers as the rz80 one does, except that where the
   * rz80 one answers CP or DEC it answers nothing.
   */
  lemma Arith8OldIsArith8WithoutCpDec(mem: seq<u8>)
    requires |mem| >= 1
    ensures Arith8Old(mem) ==
      (if Arith8(mem).Some? && IsCpOrDec(Arith8(mem).value.0) then None else Arith8(mem))
  {
    RegisterFormsShadowed(mem);
    var x := mem[0];
    if DecR(mem).Some? {
      assert MaskTop(x) == 0 && IncR(mem).None?;
    }
  }
}
