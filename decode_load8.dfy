/**
 * The 8-bit load decoder `load8` (the older crate's; the rz80 decoder
 * dispatches to a module of the same name). It tries nineteen helpers in
 * order, each recognising one opcode pattern by its fields.
 */
module DecodeLoad8 {
  import opened Bits
  import opened Registers
  import opened Choice
  import opened Insts
  import opened DecodeTables
  import opened Encoding

  predicate IsIndexPrefix(x: u8)
  {
    x == 0xdd || x == 0xfd
  }

  /**
   * The bytes the helpers index, so that none of them panics: the opcode;
   * after DD or FD the next byte, then the displacement when that byte is a
   * `01 rrr 110` or `01 110 rrr` pattern, and the immediate after DD 36 or
   * FD 36; the byte after `00 rrr 110` and after ED; two bytes after 3A and 32.
   */
  predicate InBounds(mem: seq<u8>)
  {
    && |mem| >= 1
    && (IsIndexPrefix(mem[0]) ==>
          && |mem| >= 2
          && (MaskTopLow(mem[1]) == 0x46 || MaskTopMid(mem[1]) == 0x70 ==> |mem| >= 3)
          && (mem[1] == 0x36 ==> |mem| >= 4))
    && (MaskTopLow(mem[0]) == 0x06 || mem[0] == 0xed ==> |mem| >= 2)
    && (mem[0] == 0x3a || mem[0] == 0x32 ==> |mem| >= 3)
  }

  function LoadRR(mem: seq<u8>): DecodeResult
    requires InBounds(mem)
  {
    if MaskTop(mem[0]) != 0x40 then None
    else
      var r :- BitsToReg(Mid3(mem[0]));
      var r1 :- BitsToReg(Low3(mem[0]));
      Some((Load(LdRR(r, r1)), 1))
  }

  function LoadRN(mem: seq<u8>): DecodeResult
    requires InBounds(mem)
  {
    if MaskTopLow(mem[0]) != 0x06 then None
    else
      var r :- BitsToReg(Mid3(mem[0]));
      Some((Load(LdRN(r, mem[1])), 2))
  }

  function LoadRHl(mem: seq<u8>): DecodeResult
    requires InBounds(mem)
  {
    if MaskTopLow(mem[0]) != 0x46 then None
    else
      var r :- BitsToReg(Mid3(mem[0]));
      Some((Load(LdRHl(r)), 1))
  }

  /** The register is taken from the middle field of the prefix byte, as the source does. */
  function LoadRIx(mem: seq<u8>): DecodeResult
    requires InBounds(mem)
  {
    if mem[0] != 0xdd then None
    else if MaskTopLow(mem[1]) != 0x46 then None
    else
      var r :- BitsToReg(Mid3(mem[0]));
      Some((Load(LdRIx(r, AsI8(mem[2]))), 3))
  }

  function LoadRIy(mem: seq<u8>): DecodeResult
    requires InBounds(mem)
  {
    if mem[0] != 0xfd then None
    else if MaskTopLow(mem[1]) != 0x46 then None
    else
      var r :- BitsToReg(Mid3(mem[0]));
      Some((Load(LdRIy(r, AsI8(mem[2]))), 3))
  }

  function LoadHlR(mem: seq<u8>): DecodeResult
    requires InBounds(mem)
  {
    if MaskTopMid(mem[0]) != 0x70 then None
    else
      var r :- BitsToReg(Low3(mem[0]));
      Some((Load(LdHlR(r)), 1))
  }

  /** The register is taken from the low field of the prefix byte, as the source does. */
  function LoadIxR(mem: seq<u8>): DecodeResult
    requires InBounds(mem)
  {
    if mem[0] != 0xdd then None
    else if MaskTopMid(mem[1]) != 0x70 then None
    else
      var r :- BitsToReg(Low3(mem[0]));
      Some((Load(LdIxR(AsI8(mem[2]), r)), 3))
  }

  function LoadIyR(mem: seq<u8>): DecodeResult
    requires InBounds(mem)
  {
    if mem[0] != 0xfd then None
    else if MaskTopMid(mem[1]) != 0x70 then None
    else
      var r :- BitsToReg(Low3(mem[0]));
      Some((Load(LdIyR(AsI8(mem[2]), r)), 3))
  }

  function LoadHlN(mem: seq<u8>): DecodeResult
    requires InBounds(mem)
  {
    if mem[0] != 0x36 then None else Some((Load(LdHlN(mem[1])), 2))
  }

  function LoadIxN(mem: seq<u8>): DecodeResult
    requires InBounds(mem)
  {
    if mem[0] != 0xdd || mem[1] != 0x36 then None else Some((Load(LdIxN(AsI8(mem[2]), mem[3])), 4))
  }

  function LoadIyN(mem: seq<u8>): DecodeResult
    requires InBounds(mem)
  {
    if mem[0] != 0xfd || mem[1] != 0x36 then None else Some((Load(LdIyN(AsI8(mem[2]), mem[3])), 4))
  }

  function LoadABc(mem: seq<u8>): DecodeResult
    requires InBounds(mem)
  {
    if mem[0] != 0x0a then None else Some((Load(LdABc), 1))
  }

  function LoadADe(mem: seq<u8>): DecodeResult
    requires InBounds(mem)
  {
    if mem[0] != 0x1a then None else Some((Load(LdADe), 1))
  }

  function LoadANn(mem: seq<u8>): DecodeResult
    requires InBounds(mem)
  {
    if mem[0] != 0x3a then None else Some((Load(LdANn(LittleEndian(mem[1], mem[2]))), 3))
  }

  function LoadBcA(mem: seq<u8>): DecodeResult
    requires InBounds(mem)
  {
    if mem[0] != 0x02 then None else Some((Load(LdBcA), 1))
  }

  function LoadDeA(mem: seq<u8>): DecodeResult
    requires InBounds(mem)
  {
    if mem[0] != 0x12 then None else Some((Load(LdDeA), 1))
  }

  function LoadNnA(mem: seq<u8>): DecodeResult
    requires InBounds(mem)
  {
    if mem[0] != 0x32 then None else Some((Load(LdNnA(LittleEndian(mem[1], mem[2]))), 3))
  }

  /** Recognises ED 57 but reports a width of one byte, as the source does. */
  function LoadAI(mem: seq<u8>): DecodeResult
    requires InBounds(mem)
  {
    if mem[0] != 0xed || mem[1] != 0x57 then None else Some((Load(LdAI), 1))
  }

  /** Recognises ED 5F but reports a width of one byte, as the source does. */
  function LoadAR(mem: seq<u8>): DecodeResult
    requires InBounds(mem)
  {
    if mem[0] != 0xed || mem[1] != 0x5f then None else Some((Load(LdAR), 1))
  }

  /** `load8`: the helpers in order, through `options!`; the first that recognises the bytes answers. */
  function Load8(mem: seq<u8>): DecodeResult
    requires InBounds(mem)
  {
    OrElse(LoadRR(mem),
    OrElse(LoadRN(mem),
    OrElse(LoadRHl(mem),
    OrElse(LoadRIx(mem),
    OrElse(LoadRIy(mem),
    OrElse(LoadHlR(mem),
    OrElse(LoadIxR(mem),
    OrElse(LoadIyR(mem),
    OrElse(LoadHlN(mem),
    OrElse(LoadIxN(mem),
    OrElse(LoadIyN(mem),
    OrElse(LoadABc(mem),
    OrElse(LoadADe(mem),
    OrElse(LoadANn(mem),
    OrElse(LoadBcA(mem),
    OrElse(LoadDeA(mem),
    OrElse(LoadNnA(mem),
    OrElse(LoadAI(mem),
    LoadAR(mem)))))))))))))))))))
  }

  // ---------------------------------------------------------------------
  // What the decoder reads

  /**
   * The loads the decoder reads back from their encoding: all but the four
   * indexed forms with a register operand and the four ED forms.
   */
  predicate ReadBack(l: LoadInstr)
  {
    !(l.LdRIx? || l.LdRIy? || l.LdIxR? || l.LdIyR? || l.LdAI? || l.LdAR? || l.LdIA? || l.LdRA?)
  }

  /**
   * What an answer `(Load(l), w)` says about the bytes: for most loads the
   * bytes begin with the encoding of `l` and `w` is its length. An indexed
   * load with a register operand names the register the prefix byte's field
   * names (E for DD, A for FD in the middle field, L for both in the low
   * field), whatever register the second byte names. LD A,I and LD A,R are
   * answered with a width of one byte. LD I,A and LD R,A are never answered.
   */
  predicate Explains(mem: seq<u8>, l: LoadInstr, w: u8)
  {
    match l
    case LdRIx(r, d) => r == Register.E && |mem| >= 3 && mem[0] == 0xdd && MaskTopLow(mem[1]) == 0x46 && d == AsI8(mem[2]) && w == 3
    case LdRIy(r, d) => r == Register.A && |mem| >= 3 && mem[0] == 0xfd && MaskTopLow(mem[1]) == 0x46 && d == AsI8(mem[2]) && w == 3
    case LdIxR(d, r) => r == Register.L && |mem| >= 3 && mem[0] == 0xdd && MaskTopMid(mem[1]) == 0x70 && d == AsI8(mem[2]) && w == 3
    case LdIyR(d, r) => r == Register.L && |mem| >= 3 && mem[0] == 0xfd && MaskTopMid(mem[1]) == 0x70 && d == AsI8(mem[2]) && w == 3
    case LdAI => Begins(mem, Load(l)) && w == 1
    case LdAR => Begins(mem, Load(l)) && w == 1
    case LdIA => false
    case LdRA => false
    case _ => Begins(mem, Load(l)) && w as int == |EncodeLoad(l)|
  }

  /** An answer of one helper is a load that the bytes explain. */
  predicate Sound(mem: seq<u8>, o: DecodeResult)
  {
    o.Some? ==> o.value.0.Load? && Explains(mem, o.value.0.load, o.value.1)
  }

  /** The answer of a helper that reads a register from a field of the opcode byte. */
  lemma LoadRRSound(mem: seq<u8>)
    requires InBounds(mem)
    ensures Sound(mem, LoadRR(mem))
  {
    var x := mem[0];
    if LoadRR(mem).Some? {
      var r, r1 := BitsToReg(Mid3(x)).value, BitsToReg(Low3(x)).value;
      BitsToRegInverse(Mid3(x), r);
      BitsToRegInverse(Low3(x), r1);
      FieldsDetermine(x);
      assert mem[..1] == [x];
    }
  }

  lemma LoadRNSound(mem: seq<u8>)
    requires InBounds(mem)
    ensures Sound(mem, LoadRN(mem))
  {
    var x := mem[0];
    if LoadRN(mem).Some? {
      var r := BitsToReg(Mid3(x)).value;
      BitsToRegInverse(Mid3(x), r);
      FieldsDetermine(x);
      assert mem[..2] == [x, mem[1]];
    }
  }

  lemma LoadRHlSound(mem: seq<u8>)
    requires InBounds(mem)
    ensures Sound(mem, LoadRHl(mem))
  {
    var x := mem[0];
    if LoadRHl(mem).Some? {
      var r := BitsToReg(Mid3(x)).value;
      BitsToRegInverse(Mid3(x), r);
      FieldsDetermine(x);
      assert mem[..1] == [x];
    }
  }

  lemma LoadHlRSound(mem: seq<u8>)
    requires InBounds(mem)
    ensures Sound(mem, LoadHlR(mem))
  {
    var x := mem[0];
    if LoadHlR(mem).Some? {
      var r := BitsToReg(Low3(x)).value;
      BitsToRegInverse(Low3(x), r);
      FieldsDetermine(x);
      assert mem[..1] == [x];
    }
  }

  /** The indexed forms with a register: the register comes from the prefix byte. */
  lemma LoadIndexedSound(mem: seq<u8>)
    requires InBounds(mem)
    ensures Sound(mem, LoadRIx(mem)) && Sound(mem, LoadRIy(mem))
    ensures Sound(mem, LoadIxR(mem)) && Sound(mem, LoadIyR(mem))
  {
  }

  lemma LoadImmediateSound(mem: seq<u8>)
    requires InBounds(mem)
    ensures Sound(mem, LoadHlN(mem)) && Sound(mem, LoadIxN(mem)) && Sound(mem, LoadIyN(mem))
  {
    if LoadHlN(mem).Some? {
      assert mem[..2] == [0x36, mem[1]];
    }
    if LoadIxN(mem).Some? {
      assert mem[..4] == [0xdd, 0x36, DispByte(AsI8(mem[2])), mem[3]];
    }
    if LoadIyN(mem).Some? {
      assert mem[..4] == [0xfd, 0x36, DispByte(AsI8(mem[2])), mem[3]];
    }
  }

  lemma LoadAbsoluteSound(mem: seq<u8>)
    requires InBounds(mem)
    ensures Sound(mem, LoadANn(mem)) && Sound(mem, LoadNnA(mem))
  {
    if LoadANn(mem).Some? {
      assert mem[..3] == [0x3a, mem[1], mem[2]];
    }
    if LoadNnA(mem).Some? {
      assert mem[..3] == [0x32, mem[1], mem[2]];
    }
  }

  lemma LoadFixedSound(mem: seq<u8>)
    requires InBounds(mem)
    ensures Sound(mem, LoadABc(mem)) && Sound(mem, LoadADe(mem)) && Sound(mem, LoadBcA(mem))
    ensures Sound(mem, LoadDeA(mem)) && Sound(mem, LoadAI(mem)) && Sound(mem, LoadAR(mem))
  {
    assert |mem| >= 1 ==> mem[..1] == [mem[0]];
    assert |mem| >= 2 ==> mem[..2] == [mem[0], mem[1]];
  }

  /** Whatever `load8` answers is a load that the bytes explain. */
  lemma Load8Sound(mem: seq<u8>)
    requires InBounds(mem)
    ensures Sound(mem, Load8(mem))
  {
    LoadRRSound(mem);
    LoadRNSound(mem);
    LoadRHlSound(mem);
    LoadHlRSound(mem);
    LoadIndexedSound(mem);
    LoadImmediateSound(mem);
    LoadAbsoluteSound(mem);
    LoadFixedSound(mem);
  }

  // ---------------------------------------------------------------------
  // Reading encodings back

  lemma ReadsBackRR(r: Register, r1: Register, rest: seq<u8>)
    requires IsByteReg(r) && IsByteReg(r1)
    ensures InBounds(EncodeLoad(LdRR(r, r1)) + rest)
    ensures Load8(EncodeLoad(LdRR(r, r1)) + rest) == Some((Load(LdRR(r, r1)), 1))
  {
    FieldsOfByte(1, RegCode(r) as int, RegCode(r1) as int);
    BitsToRegInverse(RegCode(r), r);
    BitsToRegInverse(RegCode(r1), r1);
  }

  lemma ReadsBackRN(r: Register, n: u8, rest: seq<u8>)
    requires IsByteReg(r)
    ensures InBounds(EncodeLoad(LdRN(r, n)) + rest)
    ensures Load8(EncodeLoad(LdRN(r, n)) + rest) == Some((Load(LdRN(r, n)), 2))
  {
    FieldsOfByte(0, RegCode(r) as int, 6);
    BitsToRegInverse(RegCode(r), r);
  }

  lemma ReadsBackRHl(r: Register, rest: seq<u8>)
    requires IsByteReg(r)
    ensures InBounds(EncodeLoad(LdRHl(r)) + rest)
    ensures Load8(EncodeLoad(LdRHl(r)) + rest) == Some((Load(LdRHl(r)), 1))
  {
    FieldsOfByte(1, RegCode(r) as int, 6);
    BitsToRegInverse(RegCode(r), r);
  }

  lemma ReadsBackHlR(r: Register, rest: seq<u8>)
    requires IsByteReg(r)
    ensures InBounds(EncodeLoad(LdHlR(r)) + rest)
    ensures Load8(EncodeLoad(LdHlR(r)) + rest) == Some((Load(LdHlR(r)), 1))
  {
    FieldsOfByte(1, 6, RegCode(r) as int);
    BitsToRegInverse(RegCode(r), r);
  }

  lemma ReadsBackImmediate(l: LoadInstr, rest: seq<u8>)
    requires l.LdHlN? || l.LdIxN? || l.LdIyN?
    ensures InBounds(EncodeLoad(l) + rest)
    ensures Load8(EncodeLoad(l) + rest) == Some((Load(l), |EncodeLoad(l)| as u8))
  {
  }

  lemma ReadsBackAbsolute(l: LoadInstr, rest: seq<u8>)
    requires l.LdANn? || l.LdNnA?
    ensures InBounds(EncodeLoad(l) + rest)
    ensures Load8(EncodeLoad(l) + rest) == Some((Load(l), 3))
  {
    HiLoDecompose(l.nn);
  }

  lemma ReadsBackIndirect(l: LoadInstr, rest: seq<u8>)
    requires l.LdABc? || l.LdADe? || l.LdBcA? || l.LdDeA?
    ensures InBounds(EncodeLoad(l) + rest)
    ensures Load8(EncodeLoad(l) + rest) == Some((Load(l), 1))
  {
  }

  /** Every load the decoder reads back is decoded from its encoding, whatever follows it, with the encoding's length. */
  lemma Load8ReadsBack(l: LoadInstr, rest: seq<u8>)
    requires LoadEncodable(l) && ReadBack(l)
    ensures InBounds(EncodeLoad(l) + rest)
    ensures Load8(EncodeLoad(l) + rest) == Some((Load(l), |EncodeLoad(l)| as u8))
  {
    match l
    case LdRR(r, r1) => ReadsBackRR(r, r1, rest);
    case LdRN(r, n) => ReadsBackRN(r, n, rest);
    case LdRHl(r) => ReadsBackRHl(r, rest);
    case LdHlR(r) => ReadsBackHlR(r, rest);
    case LdHlN(_) => ReadsBackImmediate(l, rest);
    case LdIxN(_, _) => ReadsBackImmediate(l, rest);
    case LdIyN(_, _) => ReadsBackImmediate(l, rest);
    case LdANn(_) => ReadsBackAbsolute(l, rest);
    case LdNnA(_) => ReadsBackAbsolute(l, rest);
    case LdABc => ReadsBackIndirect(l, rest);
    case LdADe => ReadsBackIndirect(l, rest);
    case LdBcA => ReadsBackIndirect(l, rest);
    case LdDeA => ReadsBackIndirect(l, rest);
  }

  /**
   * `LD r,(IX+d)` and `LD r,(IY+d)` are decoded with the register the
   * prefix byte's middle field names, E for DD and A for FD, whatever
   * register the instruction names.
   */
  lemma Load8IndexedSourceRegister(r: Register, d: i8, rest: seq<u8>)
    requires IsByteReg(r)
    ensures InBounds(EncodeLoad(LdRIx(r, d)) + rest) && InBounds(EncodeLoad(LdRIy(r, d)) + rest)
    ensures Load8(EncodeLoad(LdRIx(r, d)) + rest) == Some((Load(LdRIx(Register.E, d)), 3))
    ensures Load8(EncodeLoad(LdRIy(r, d)) + rest) == Some((Load(LdRIy(Register.A, d)), 3))
  {
    FieldsOfByte(1, RegCode(r) as int, 6);
  }

  /**
   * `LD (IX+d),r` and `LD (IY+d),r` are decoded with the register the
   * prefix byte's low field names, L for both, whatever register the
   * instruction names.
   */
  lemma Load8IndexedTargetRegister(r: Register, d: i8, rest: seq<u8>)
    requires IsByteReg(r)
    ensures InBounds(EncodeLoad(LdIxR(d, r)) + rest) && InBounds(EncodeLoad(LdIyR(d, r)) + rest)
    ensures Load8(EncodeLoad(LdIxR(d, r)) + rest) == Some((Load(LdIxR(d, Register.L)), 3))
    ensures Load8(EncodeLoad(LdIyR(d, r)) + rest) == Some((Load(LdIyR(d, Register.L)), 3))
  {
    FieldsOfByte(1, 6, RegCode(r) as int);
  }

  /**
   * Of the four ED loads, `LD A,I` and `LD A,R` are decoded with a width of
   * one byte although they occupy two, and `LD I,A` and `LD R,A` are not
   * decoded at all.
   */
  lemma Load8SpecialRegisters(rest: seq<u8>)
    ensures InBounds([0xed, 0x57] + rest) && Load8([0xed, 0x57] + rest) == Some((Load(LdAI), 1))
    ensures InBounds([0xed, 0x5f] + rest) && Load8([0xed, 0x5f] + rest) == Some((Load(LdAR), 1))
    ensures InBounds([0xed, 0x47] + rest) && Load8([0xed, 0x47] + rest) == None
    ensures InBounds([0xed, 0x4f] + rest) && Load8([0xed, 0x4f] + rest) == None
  {
  }
}
