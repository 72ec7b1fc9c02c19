/**
 * The jump decoder `jump` of the rz80 crate. The older crate holds the same
 * text in a file its decoder module does not declare, so this one model
 * stands for both.
 */
module DecodeJump {
  import opened Bits
  import opened Registers
  import opened Choice
  import opened Insts
  import opened DecodeTables
  import opened Encoding

  /** The opcodes of the relative jumps: JR e, JR C/NC/Z/NZ,e and DJNZ e. */
  predicate IsRelative(x: u8)
  {
    x == 0x18 || x == 0x38 || x == 0x30 || x == 0x28 || x == 0x20 || x == 0x10
  }

  /**
   * What `jump` needs not to panic: an opcode (the fallback `jp_cc_nn`
   * indexes it); two operand bytes after C3 and after `11 ccc 010`
   * (`LE::read_u16` panics on a shorter slice); and a displacement below
   * 126 after a relative opcode, since `(e as i8) + 2` overflows `i8`
   * otherwise.
   */
  predicate InBounds(mem: seq<u8>)
  {
    && |mem| >= 1
    && (mem[0] == 0xc3 || MaskTopLow(mem[0]) == 0xc2 ==> |mem| >= 3)
    && (IsRelative(mem[0]) && |mem| >= 2 ==> AsI8(mem[1]) < 126)
  }

  /** `(e as i8) + 2`: the offset from the jump's own address. */
  function Target(e: u8): (t: i8)
    requires AsI8(e) < 126
    ensures t as int == AsI8(e) as int + 2
  {
    AsI8(e) + 2
  }

  /** `jp_cc_nn`: `11 ccc 010` followed by the address. */
  function JumpCcNn(mem: seq<u8>): DecodeResult
    requires InBounds(mem)
  {
    if MaskTopLow(mem[0]) != 0xc2 then None
    else
      var cc :- BitsToCondition(Mid3(mem[0]));
      Some((Jmp(JpCcNn(cc, LittleEndian(mem[1], mem[2]))), 3))
  }

  /** `jump`: the slice patterns in order, then `jp_cc_nn`. */
  function Jump(mem: seq<u8>): DecodeResult
    requires InBounds(mem)
  {
    if mem[0] == 0xc3 then Some((Jmp(JpNn(LittleEndian(mem[1], mem[2]))), 3))
    else if |mem| >= 2 && mem[0] == 0x18 then Some((Jmp(JrE(Target(mem[1]))), 2))
    else if |mem| >= 2 && mem[0] == 0x38 then Some((Jmp(JrCE(Target(mem[1]))), 2))
    else if |mem| >= 2 && mem[0] == 0x30 then Some((Jmp(JrNcE(Target(mem[1]))), 2))
    else if |mem| >= 2 && mem[0] == 0x28 then Some((Jmp(JrZE(Target(mem[1]))), 2))
    else if |mem| >= 2 && mem[0] == 0x20 then Some((Jmp(JrNzE(Target(mem[1]))), 2))
    else if mem[0] == 0xe9 then Some((Jmp(JpHl), 1))
    else if |mem| >= 2 && mem[0] == 0xdd && mem[1] == 0xe9 then Some((Jmp(JpIx), 2))
    else if |mem| >= 2 && mem[0] == 0xfd && mem[1] == 0xe9 then Some((Jmp(JpIy), 2))
    else if |mem| >= 2 && mem[0] == 0x10 then Some((Jmp(DjnzE(Target(mem[1]))), 2))
    else JumpCcNn(mem)
  }

  /** Every jump is decoded from its encoding, whatever follows it, with the encoding's length. */
  lemma JumpReadsBack(j: JumpInstr, rest: seq<u8>)
    requires JumpEncodable(j)
    ensures InBounds(EncodeJump(j) + rest)
    ensures Jump(EncodeJump(j) + rest) == Some((Jmp(j), |EncodeJump(j)| as u8))
  {
    match j
    case JpNn(nn) =>
      HiLoDecompose(nn);
    case JpCcNn(cc, nn) =>
      HiLoDecompose(nn);
      FieldsOfByte(3, CondCode(cc) as int, 2);
      BitsToConditionInverse(CondCode(cc), cc);
    case _ =>
  }

  /** Whatever `jump` answers, the bytes begin with its encoding and the width is the encoding's length. */
  lemma JumpSound(mem: seq<u8>)
    requires InBounds(mem)
    ensures Jump(mem).Some? ==>
      var (i, w) := Jump(mem).value;
      i.Jmp? && Begins(mem, i) && w as int == |Encode(i)|
  {
    if Jump(mem).Some? {
      var x := mem[0];
      assert mem[..1] == [x];
      assert |mem| >= 2 ==> mem[..2] == [x, mem[1]];
      assert |mem| >= 3 ==> mem[..3] == [x, mem[1], mem[2]];
      if MaskTopLow(x) == 0xc2 && x != 0xc3 {
        var cc := BitsToCondition(Mid3(x)).value;
        BitsToConditionInverse(Mid3(x), cc);
        FieldsDetermine(x);
      }
    }
  }

  /**
   * A relative jump whose displacement byte is 0x7e or 0x7f, a jump 128 or
   * 129 bytes forward of its own address, makes `(e as i8) + 2` overflow:
   * the decoder panics on it.
   */
  lemma JumpFarForwardPanics(e: u8)
    requires e == 0x7e || e == 0x7f
    ensures !InBounds([0x18, e]) && !InBounds([0x10, e])
  {
  }
}
