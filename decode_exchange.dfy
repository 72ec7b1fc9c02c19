/**
 * The exchange, block transfer and block search decoders: the rz80 one,
 * a table of slice patterns, and the older crate's, which knows only
 * EX DE,HL.
 */
module DecodeExchange {
  import opened Bits
  import opened Choice
  import opened Insts
  import opened Encoding

  /** rz80 `exchange`: the slice patterns in order. A pattern needs as many bytes as it names, so nothing can panic. */
  function Exchange(mem: seq<u8>): DecodeResult
  {
    if |mem| >= 1 && mem[0] == 0xeb then Some((Exch(ExDeHl), 1))
    else if |mem| >= 1 && mem[0] == 0x08 then Some((Exch(ExAfAf1), 1))
    else if |mem| >= 1 && mem[0] == 0xd9 then Some((Exch(Exx), 1))
    else if |mem| >= 1 && mem[0] == 0xe3 then Some((Exch(ExSpHl), 1))
    else if |mem| >= 2 && mem[0] == 0xdd && mem[1] == 0xe3 then Some((Exch(ExSpIx), 2))
    else if |mem| >= 2 && mem[0] == 0xfd && mem[1] == 0xe3 then Some((Exch(ExSpIy), 2))
    else if |mem| >= 2 && mem[0] == 0xed && mem[1] == 0xa0 then Some((Exch(Ldi), 2))
    else if |mem| >= 2 && mem[0] == 0xed && mem[1] == 0xb0 then Some((Exch(Ldir), 2))
    else if |mem| >= 2 && mem[0] == 0xed && mem[1] == 0xa8 then Some((Exch(Ldd), 2))
    else if |mem| >= 2 && mem[0] == 0xed && mem[1] == 0xb8 then Some((Exch(Lddr), 2))
    else if |mem| >= 2 && mem[0] == 0xed && mem[1] == 0xa1 then Some((Exch(Cpi), 2))
    else if |mem| >= 2 && mem[0] == 0xed && mem[1] == 0xb1 then Some((Exch(Cpir), 2))
    else if |mem| >= 2 && mem[0] == 0xed && mem[1] == 0xa9 then Some((Exch(Cpd), 2))
    else if |mem| >= 2 && mem[0] == 0xed && mem[1] == 0xb9 then Some((Exch(Cpdr), 2))
    else None
  }

  /** The older crate's `exchange_de_hl`, which indexes the opcode. */
  function ExchangeDeHl(mem: seq<u8>): DecodeResult
    requires |mem| >= 1
  {
    if mem[0] != 0xeb then None else Some((Exch(ExDeHl), 1))
  }

  /** The older crate's `exchange`: `options!` with its one helper. */
  function ExchangeOld(mem: seq<u8>): DecodeResult
    requires |mem| >= 1
  {
    ExchangeDeHl(mem)
  }

  /** Every exchange is decoded from its encoding, whatever follows it, with the encoding's length. */
  lemma ExchangeReadsBack(x: ExchangeInstr, rest: seq<u8>)
    ensures Exchange(EncodeExchange(x) + rest) == Some((Exch(x), |EncodeExchange(x)| as u8))
  {
  }

  /** Whatever `exchange` answers, the bytes begin with its encoding and the width is the encoding's length. */
  lemma ExchangeSound(mem: seq<u8>)
    ensures Exchange(mem).Some? ==>
      var (i, w) := Exchange(mem).value;
      i.Exch? && Begins(mem, i) && w as int == |Encode(i)|
  {
    if Exchange(mem).Some? {
      assert |mem| >= 1 ==> mem[..1] == [mem[0]];
      assert |mem| >= 2 ==> mem[..2] == [mem[0], mem[1]];
    }
  }

  /** The older decoder answers exactly where the rz80 one answers EX DE,HL, and answers the same. */
  lemma ExchangeOldIsDeHlOnly(mem: seq<u8>)
    requires |mem| >= 1
    ensures ExchangeOld(mem) == (if Exchange(mem) == Some((Exch(ExDeHl), 1)) then Exchange(mem) else None)
  {
  }
}
