/**
 * The instructions of both crates. The two `Instr` enums list the same
 * loads, exchanges and jumps; the arithmetic instructions appear only in the
 * older enum and in the variants the two arithmetic decoders construct.
 * Here the variants are grouped by the decoder and executor files that
 * handle them, and the arithmetic ones are an operation applied to an
 * operand, the `s` operand of the instruction set's notation:
 * `ADD_A_r(r)` is `Arith(Alu(Add, OfReg(r)))`, `SUB_A_IX(d)` is
 * `Arith(Alu(Sub, AtIx(d)))`, `INC_HL` is `Arith(Inc(AtHl))`.
 * Other constructor names follow the source's (`LD_r_IX` is `LdRIx`), with
 * the operands in the same order.
 */
module Insts {
  import opened Bits
  import opened Registers
  import opened Choice

  /** Rust's `i8`. */
  newtype i8 = x: int | -128 <= x < 128

  /** `b as i8`: the byte read as a two's-complement displacement. */
  function AsI8(b: u8): (d: i8)
    ensures d as int % 0x100 == b as int
    ensures (d < 0) == (b >= 0x80)
  {
    if b < 0x80 then b as i8 else (b as int - 0x100) as i8
  }

  /** The 8-bit loads. */
  datatype LoadInstr =
    | LdRR(r: Register, r1: Register)
    | LdRN(r: Register, n: u8)
    | LdRHl(r: Register)
    | LdRIx(r: Register, d: i8)
    | LdRIy(r: Register, d: i8)
    | LdHlR(r: Register)
    | LdIxR(d: i8, r: Register)
    | LdIyR(d: i8, r: Register)
    | LdHlN(n: u8)
    | LdIxN(d: i8, n: u8)
    | LdIyN(d: i8, n: u8)
    | LdABc
    | LdADe
    | LdANn(nn: u16)
    | LdBcA
    | LdDeA
    | LdNnA(nn: u16)
    | LdAI
    | LdAR
    | LdIA
    | LdRA

  /** The exchanges, block transfers and block searches. */
  datatype ExchangeInstr =
    | ExDeHl
    | ExAfAf1
    | Exx
    | ExSpHl
    | ExSpIx
    | ExSpIy
    | Ldi
    | Ldir
    | Ldd
    | Lddr
    | Cpi
    | Cpir
    | Cpd
    | Cpdr

  /** The jumps; a relative jump's `e` counts from the address of the jump itself. */
  datatype JumpInstr =
    | JpNn(nn: u16)
    | JpCcNn(cc: Condition, nn: u16)
    | JrE(e: i8)
    | JrCE(e: i8)
    | JrNcE(e: i8)
    | JrZE(e: i8)
    | JrNzE(e: i8)
    | JpHl
    | JpIx
    | JpIy
    | DjnzE(e: i8)

  /** The eight accumulator operations, in the order of their opcode field. */
  datatype AluOp = Add | Adc | Sub | Sbc | And | Xor | Or | Cp

  /** The operand `s` (or `m`) of an arithmetic instruction. */
  datatype Operand = OfReg(r: Register) | Imm(n: u8) | AtHl | AtIx(d: i8) | AtIy(d: i8)

  /** The 8-bit arithmetic instructions. */
  datatype ArithInstr =
    | Alu(op: AluOp, s: Operand)
    | Inc(m: Operand)
    | Dec(m: Operand)

  datatype Instr =
    | Load(load: LoadInstr)
    | Exch(exch: ExchangeInstr)
    | Jmp(jump: JumpInstr)
    | Arith(arith: ArithInstr)
    // Placeholders of the older enum, which no decoder constructs
    | SubS
    | SbcAS
    | AndS
    | OrS
    | XorS
    | CpS
    | DecM

  /** A decoder's answer: the instruction and the number of bytes it says it used. */
  type DecodeResult = Option<(Instr, u8)>
}
