/**
 * The top-level decoders, `Z80::decode` of both crates: the group
 * decoders tried in order through `options!`. The rz80 decoder tries the
 * loads, the exchanges and the jumps; the older one the loads, EX DE,HL
 * and the 8-bit arithmetic.
 */
module Decode {
  import opened Bits
  import opened Choice
  import opened Insts
  import opened DecodeTables
  import opened Encoding
  import DecodeLoad8
  import DecodeExchange
  import DecodeJump
  import DecodeArith8

  /**
   * rz80 `decode`. The macro evaluates a group only when the groups before
   * it declined; `DecodeNeedsBothBounds` shows that the jump decoder's bounds
   * are needed exactly where it is reached, so requiring both loses nothing.
   */
  function Decode(mem: seq<u8>): DecodeResult
    requires DecodeLoad8.InBounds(mem) && DecodeJump.InBounds(mem)
  {
    OrElse(DecodeLoad8.Load8(mem), OrElse(DecodeExchange.Exchange(mem), DecodeJump.Jump(mem)))
  }

  /** The older crate's `decode`. Its arithmetic decoder needs only the opcode, which the load decoder needs too. */
  function DecodeOld(mem: seq<u8>): DecodeResult
    requires DecodeLoad8.InBounds(mem)
  {
    OrElse(DecodeLoad8.Load8(mem), OrElse(DecodeExchange.ExchangeOld(mem), DecodeArith8.Arith8Old(mem)))
  }

  /**
   * Where the bytes break the jump decoder's bounds, the load and exchange
   * decoders both decline: the rz80 decoder then reaches the jump decoder
   * and panics.
   */
  lemma DecodeNeedsBothBounds(mem: seq<u8>)
    requires DecodeLoad8.InBounds(mem) && !DecodeJump.InBounds(mem)
    ensures DecodeLoad8.Load8(mem).None? && DecodeExchange.Exchange(mem).None?
  {
    var x := mem[0];
    FieldsDetermine(x);
  }

  // ---------------------------------------------------------------------
  // What the answers mean

  /** What an answer `(i, w)` says about the bytes, group by group. */
  predicate Explains(mem: seq<u8>, i: Instr, w: u8)
  {
    match i
    case Load(l) => DecodeLoad8.Explains(mem, l, w)
    case Arith(a) => DecodeArith8.Explains(mem, a, w)
    case _ => Begins(mem, i) && w as int == |Encode(i)|
  }

  /** Whatever the rz80 decoder answers the bytes explain, and it is never an arithmetic instruction. */
  lemma DecodeSound(mem: seq<u8>)
    requires DecodeLoad8.InBounds(mem) && DecodeJump.InBounds(mem)
    ensures Decode(mem).Some? ==>
      var (i, w) := Decode(mem).value;
      !i.Arith? && Explains(mem, i, w)
  {
    DecodeLoad8.Load8Sound(mem);
    DecodeExchange.ExchangeSound(mem);
    DecodeJump.JumpSound(mem);
  }

  /** Whatever the older decoder answers the bytes explain; it is never a jump, CP or DEC, and its only exchange is EX DE,HL. */
  lemma DecodeOldSound(mem: seq<u8>)
    requires DecodeLoad8.InBounds(mem)
    ensures DecodeOld(mem).Some? ==>
      var (i, w) := DecodeOld(mem).value;
      && Explains(mem, i, w)
      && !i.Jmp? && !DecodeArith8.IsCpOrDec(i)
      && (i.Exch? ==> i.exch == ExDeHl)
  {
    DecodeLoad8.Load8Sound(mem);
    DecodeExchange.ExchangeSound(mem);
    DecodeExchange.ExchangeOldIsDeHlOnly(mem);
    DecodeArith8.Arith8Sound(mem);
    DecodeArith8.Arith8OldIsArith8WithoutCpDec(mem);
  }

  // ---------------------------------------------------------------------
  // Reading encodings back

  /** The load decoder declines every exchange. */
  lemma Load8DeclinesExchange(x: ExchangeInstr, rest: seq<u8>)
    ensures DecodeLoad8.InBounds(EncodeExchange(x) + rest)
    ensures DecodeLoad8.Load8(EncodeExchange(x) + rest).None?
  {
  }

  /** The load decoder declines every jump. */
  lemma Load8DeclinesJump(j: JumpInstr, rest: seq<u8>)
    requires JumpEncodable(j)
    ensures DecodeLoad8.InBounds(EncodeJump(j) + rest)
    ensures DecodeLoad8.Load8(EncodeJump(j) + rest).None?
  {
    if j.JpCcNn? {
      FieldsOfByte(3, CondCode(j.cc) as int, 2);
    }
  }

  /** The exchange decoder declines every jump. */
  lemma ExchangeDeclinesJump(j: JumpInstr, rest: seq<u8>)
    requires JumpEncodable(j)
    ensures DecodeExchange.Exchange(EncodeJump(j) + rest).None?
  {
  }

  /** No load starts like a jump, so the jump decoder's bounds hold for it. */
  lemma JumpBoundsOfLoad(l: LoadInstr, rest: seq<u8>)
    requires LoadEncodable(l)
    ensures DecodeJump.InBounds(EncodeLoad(l) + rest)
  {
    var x := EncodeLoad(l)[0];
    FieldsDetermine(x);
  }

  /** The jump decoder's bounds hold for every exchange. */
  lemma JumpBoundsOfExchange(x: ExchangeInstr, rest: seq<u8>)
    ensures DecodeJump.InBounds(EncodeExchange(x) + rest)
  {
  }

  /**
   * The rz80 decoder reads back every load the load decoder reads back,
   * every exchange and every jump, with the encoding's length.
   */
  lemma DecodeReadsBack(i: Instr, rest: seq<u8>)
    requires Encodable(i) && (i.Load? || i.Exch? || i.Jmp?)
    requires i.Load? ==> DecodeLoad8.ReadBack(i.load)
    ensures DecodeLoad8.InBounds(Encode(i) + rest) && DecodeJump.InBounds(Encode(i) + rest)
    ensures Decode(Encode(i) + rest) == Some((i, |Encode(i)| as u8))
  {
    match i
    case Load(l) =>
      DecodeLoad8.Load8ReadsBack(l, rest);
      JumpBoundsOfLoad(l, rest);
    case Exch(x) =>
      Load8DeclinesExchange(x, rest);
      JumpBoundsOfExchange(x, rest);
      DecodeExchange.ExchangeReadsBack(x, rest);
    case Jmp(j) =>
      Load8DeclinesJump(j, rest);
      ExchangeDeclinesJump(j, rest);
      DecodeJump.JumpReadsBack(j, rest);
  }

  lemma Load8DeclinesAccumulator(a: ArithInstr, rest: seq<u8>)
    requires ArithEncodable(a) && a.Alu?
    ensures DecodeLoad8.InBounds(EncodeArith(a) + rest)
    ensures DecodeLoad8.Load8(EncodeArith(a) + rest).None?
  {
    var x := EncodeArith(a)[0];
    FieldsDetermine(x);
  }

  lemma Load8DeclinesIncDecRegister(a: ArithInstr, rest: seq<u8>)
    requires ArithEncodable(a) && !a.Alu? && a.m.OfReg?
    ensures DecodeLoad8.InBounds(EncodeArith(a) + rest)
    ensures DecodeLoad8.Load8(EncodeArith(a) + rest).None?
  {
    FieldsOfByte(0, RegCode(a.m.r) as int, if a.Inc? then 4 else 5);
  }

  lemma Load8DeclinesIncDecMemory(a: ArithInstr, rest: seq<u8>)
    requires ArithEncodable(a) && !a.Alu? && !a.m.OfReg?
    ensures DecodeLoad8.InBounds(EncodeArith(a) + rest)
    ensures DecodeLoad8.Load8(EncodeArith(a) + rest).None?
  {
  }

  /** The load decoder declines every arithmetic instruction. */
  lemma Load8DeclinesArith(a: ArithInstr, rest: seq<u8>)
    requires ArithEncodable(a)
    ensures DecodeLoad8.InBounds(EncodeArith(a) + rest)
    ensures DecodeLoad8.Load8(EncodeArith(a) + rest).None?
  {
    if a.Alu? {
      Load8DeclinesAccumulator(a, rest);
    } else if a.m.OfReg? {
      Load8DeclinesIncDecRegister(a, rest);
    } else {
      Load8DeclinesIncDecMemory(a, rest);
    }
  }

  /** The instructions the older decoder reads back. */
  predicate ReadBackOld(i: Instr)
  {
    match i
    case Load(l) => DecodeLoad8.ReadBack(l)
    case Exch(x) => x == ExDeHl
    case Arith(a) => DecodeArith8.ReadBack(a) && !DecodeArith8.IsCpOrDec(i)
    case _ => false
  }

  /** The older decoder reads back the loads, EX DE,HL and the arithmetic it knows, with the encoding's length. */
  lemma DecodeOldReadsBack(i: Instr, rest: seq<u8>)
    requires Encodable(i) && ReadBackOld(i)
    ensures DecodeLoad8.InBounds(Encode(i) + rest)
    ensures DecodeOld(Encode(i) + rest) == Some((i, |Encode(i)| as u8))
  {
    match i
    case Load(l) =>
      DecodeLoad8.Load8ReadsBack(l, rest);
    case Exch(x) =>
      Load8DeclinesExchange(x, rest);
    case Arith(a) =>
      DecodeOldReadsBackArith(a, rest);
  }

  /** The arithmetic part: the load and exchange decoders decline, and the older arithmetic decoder answers. */
  lemma DecodeOldReadsBackArith(a: ArithInstr, rest: seq<u8>)
    requires ArithEncodable(a) && DecodeArith8.ReadBack(a) && !DecodeArith8.IsCpOrDec(Arith(a))
    ensures DecodeLoad8.InBounds(EncodeArith(a) + rest)
    ensures DecodeOld(EncodeArith(a) + rest) == Some((Arith(a), |EncodeArith(a)| as u8))
  {
    var mem := EncodeArith(a) + rest;
    Load8DeclinesArith(a, rest);
    DecodeArith8.Arith8ReadsBack(a, rest);
    DecodeArith8.Arith8OldIsArith8WithoutCpDec(mem);
    assert DecodeArith8.Arith8Old(mem) == Some((Arith(a), |EncodeArith(a)| as u8));
    ExchangeOldDeclinesArith(a, rest);
  }

  lemma ExchangeOldDeclinesArith(a: ArithInstr, rest: seq<u8>)
    requires ArithEncodable(a)
    ensures DecodeExchange.ExchangeOld(EncodeArith(a) + rest).None?
  {
    var x := EncodeArith(a)[0];
    assert x != 0xeb;
  }

  /** LD I,A and LD R,A have encodings that neither decoder reads: both answer nothing. */
  lemma SpecialRegisterStoresUndecodable(l: LoadInstr, rest: seq<u8>)
    requires l == LdIA || l == LdRA
    ensures DecodeLoad8.InBounds(EncodeLoad(l) + rest) && DecodeJump.InBounds(EncodeLoad(l) + rest)
    ensures Decode(EncodeLoad(l) + rest).None?
    ensures DecodeOld(EncodeLoad(l) + rest).None?
  {
    DecodeLoad8.Load8SpecialRegisters(rest);
  }

  /** Where the rz80 decoder answers a load or EX DE,HL, the older decoder answers the same. */
  lemma DecodersAgree(mem: seq<u8>)
    requires DecodeLoad8.InBounds(mem) && DecodeJump.InBounds(mem)
    requires Decode(mem).Some? && (Decode(mem).value.0.Load? || Decode(mem).value.0 == Exch(ExDeHl))
    ensures DecodeOld(mem) == Decode(mem)
  {
    DecodeLoad8.Load8Sound(mem);
    DecodeJump.JumpSound(mem);
    DecodeExchange.ExchangeOldIsDeHlOnly(mem);
  }
}
