/**
 * The machine code of each instruction, as the Z80 instruction set assigns
 * it: the reference against which the decoders of both crates are proved.
 * Register operands are the three-bit codes of `RegCode`, conditions those
 * of `CondCode`, displacements one two's-complement byte, and 16-bit
 * operands two bytes, low byte first.
 */
module Encoding {
  import opened Bits
  import opened Registers
  import opened Insts
  import opened DecodeTables

  /** The byte that holds displacement `d`; `AsI8` reads it back. */
  function DispByte(d: i8): (b: u8)
    ensures AsI8(b) == d
  {
    if d < 0 then (d as int + 0x100) as u8 else d as u8
  }

  /** The displacement byte of a relative jump to `e` bytes from the jump itself (the byte excludes the jump's own two bytes). */
  function RelByte(e: i8): (b: u8)
    requires e >= -126
    ensures AsI8(b) as int + 2 == e as int
  {
    DispByte((e as int - 2) as i8)
  }

  /** The opcode field of an accumulator operation. */
  function OpCode(op: AluOp): (c: u8)
    ensures c < 8
  {
    match op
    case Add => 0
    case Adc => 1
    case Sub => 2
    case Sbc => 3
    case And => 4
    case Xor => 5
    case Or => 6
    case Cp => 7
  }

  predicate LoadEncodable(l: LoadInstr)
  {
    match l
    case LdRR(r, r1) => IsByteReg(r) && IsByteReg(r1)
    case LdRN(r, _) => IsByteReg(r)
    case LdRHl(r) => IsByteReg(r)
    case LdRIx(r, _) => IsByteReg(r)
    case LdRIy(r, _) => IsByteReg(r)
    case LdHlR(r) => IsByteReg(r)
    case LdIxR(_, r) => IsByteReg(r)
    case LdIyR(_, r) => IsByteReg(r)
    case _ => true
  }

  predicate JumpEncodable(j: JumpInstr)
  {
    match j
    case JrE(e) => e >= -126
    case JrCE(e) => e >= -126
    case JrNcE(e) => e >= -126
    case JrZE(e) => e >= -126
    case JrNzE(e) => e >= -126
    case DjnzE(e) => e >= -126
    case _ => true
  }

  predicate ArithEncodable(a: ArithInstr)
  {
    match a
    case Alu(_, s) => s.OfReg? ==> IsByteReg(s.r)
    case Inc(m) => !m.Imm? && (m.OfReg? ==> IsByteReg(m.r))
    case Dec(m) => !m.Imm? && (m.OfReg? ==> IsByteReg(m.r))
  }

  /**
   * Instructions that have an encoding: register operands are eight-bit
   * registers, a relative jump's offset fits the displacement byte, and an
   * increment or decrement has no immediate operand. The older crate's
   * placeholder variants have none.
   */
  predicate Encodable(i: Instr)
  {
    match i
    case Load(l) => LoadEncodable(l)
    case Exch(_) => true
    case Jmp(j) => JumpEncodable(j)
    case Arith(a) => ArithEncodable(a)
    case _ => false
  }

  function EncodeLoad(l: LoadInstr): (code: seq<u8>)
    requires LoadEncodable(l)
    ensures 1 <= |code| <= 4
  {
    match l
    case LdRR(r, r1) => [0x40 + 8 * RegCode(r) + RegCode(r1)]
    case LdRN(r, n) => [0x06 + 8 * RegCode(r), n]
    case LdRHl(r) => [0x46 + 8 * RegCode(r)]
    case LdRIx(r, d) => [0xdd, 0x46 + 8 * RegCode(r), DispByte(d)]
    case LdRIy(r, d) => [0xfd, 0x46 + 8 * RegCode(r), DispByte(d)]
    case LdHlR(r) => [0x70 + RegCode(r)]
    case LdIxR(d, r) => [0xdd, 0x70 + RegCode(r), DispByte(d)]
    case LdIyR(d, r) => [0xfd, 0x70 + RegCode(r), DispByte(d)]
    case LdHlN(n) => [0x36, n]
    case LdIxN(d, n) => [0xdd, 0x36, DispByte(d), n]
    case LdIyN(d, n) => [0xfd, 0x36, DispByte(d), n]
    case LdABc => [0x0a]
    case LdADe => [0x1a]
    case LdANn(nn) => [0x3a, Lo16(nn), Hi16(nn)]
    case LdBcA => [0x02]
    case LdDeA => [0x12]
    case LdNnA(nn) => [0x32, Lo16(nn), Hi16(nn)]
    case LdAI => [0xed, 0x57]
    case LdAR => [0xed, 0x5f]
    case LdIA => [0xed, 0x47]
    case LdRA => [0xed, 0x4f]
  }

  function EncodeExchange(x: ExchangeInstr): (code: seq<u8>)
    ensures 1 <= |code| <= 2
  {
    match x
    case ExDeHl => [0xeb]
    case ExAfAf1 => [0x08]
    case Exx => [0xd9]
    case ExSpHl => [0xe3]
    case ExSpIx => [0xdd, 0xe3]
    case ExSpIy => [0xfd, 0xe3]
    case Ldi => [0xed, 0xa0]
    case Ldir => [0xed, 0xb0]
    case Ldd => [0xed, 0xa8]
    case Lddr => [0xed, 0xb8]
    case Cpi => [0xed, 0xa1]
    case Cpir => [0xed, 0xb1]
    case Cpd => [0xed, 0xa9]
    case Cpdr => [0xed, 0xb9]
  }

  function EncodeJump(j: JumpInstr): (code: seq<u8>)
    requires JumpEncodable(j)
    ensures 1 <= |code| <= 3
  {
    match j
    case JpNn(nn) => [0xc3, Lo16(nn), Hi16(nn)]
    case JpCcNn(cc, nn) => [0xc2 + 8 * CondCode(cc), Lo16(nn), Hi16(nn)]
    case JrE(e) => [0x18, RelByte(e)]
    case JrCE(e) => [0x38, RelByte(e)]
    case JrNcE(e) => [0x30, RelByte(e)]
    case JrZE(e) => [0x28, RelByte(e)]
    case JrNzE(e) => [0x20, RelByte(e)]
    case JpHl => [0xe9]
    case JpIx => [0xdd, 0xe9]
    case JpIy => [0xfd, 0xe9]
    case DjnzE(e) => [0x10, RelByte(e)]
  }

  /**
   * The accumulator operations: `10 ooo rrr` on a register, `11 ooo 110 n`
   * on an immediate, `10 ooo 110` on (HL), behind DD or FD on an indexed
   * byte. Increments `00 rrr 100` and decrements `00 rrr 101`, with 110 for
   * (HL).
   */
  function EncodeArith(a: ArithInstr): (code: seq<u8>)
    requires ArithEncodable(a)
    ensures 1 <= |code| <= 3
  {
    match a
    case Alu(op, s) =>
      (match s
       case OfReg(r) => [0x80 + 8 * OpCode(op) + RegCode(r)]
       case Imm(n) => [0xc6 + 8 * OpCode(op), n]
       case AtHl => [0x86 + 8 * OpCode(op)]
       case AtIx(d) => [0xdd, 0x86 + 8 * OpCode(op), DispByte(d)]
       case AtIy(d) => [0xfd, 0x86 + 8 * OpCode(op), DispByte(d)])
    case Inc(m) =>
      (match m
       case OfReg(r) => [0x04 + 8 * RegCode(r)]
       case AtHl => [0x34]
       case AtIx(d) => [0xdd, 0x34, DispByte(d)]
       case AtIy(d) => [0xfd, 0x34, DispByte(d)])
    case Dec(m) =>
      (match m
       case OfReg(r) => [0x05 + 8 * RegCode(r)]
       case AtHl => [0x35]
       case AtIx(d) => [0xdd, 0x35, DispByte(d)]
       case AtIy(d) => [0xfd, 0x35, DispByte(d)])
  }

  /** The bytes of an instruction. */
  function Encode(i: Instr): (code: seq<u8>)
    requires Encodable(i)
    ensures 1 <= |code| <= 4
  {
    match i
    case Load(l) => EncodeLoad(l)
    case Exch(x) => EncodeExchange(x)
    case Jmp(j) => EncodeJump(j)
    case Arith(a) => EncodeArith(a)
  }

  /** `mem` begins with the bytes of `i`. */
  predicate Begins(mem: seq<u8>, i: Instr)
  {
    Encodable(i) && |Encode(i)| <= |mem| && mem[..|Encode(i)|] == Encode(i)
  }
}
