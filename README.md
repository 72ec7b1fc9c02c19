# A verified model of the rs-spectrum Z80 core

This project models the Z80 processor core of the rs-spectrum ZX Spectrum
emulator in Dafny. The repository holds two generations of the core:

- the older `spectrum` crate under `src/`, with the `Z80` structure, its decoder and its execute handlers;
- the newer `rz80` crate, which brings the `HiLo` byte-slicing trait, the `ALU`
  primitives, the `AddCarry`/`SubBorrow` traits, a slice-pattern decoder and the
  `execute` dispatcher with its `min_time!` charges.

Both generations appear in the model, side by side where they differ.

The model is layered as the source is:

- **Bit slicing** (`Bits`, on top of a small bit-by-bit library `Bitwise`).
  It covers `hi`/`lo`/`set_hi`/`set_lo` for bytes and words, and the `upper!`,
  `lower!`, `set_upper!` and `set_lower!` macros of both generations. Each is
  defined by its arithmetic meaning, and the source's own mask-and-shift
  expressions are proved equal to it.
- **Arithmetic primitives**. `Alu` covers `ALU::add`, `ALU::increment` and `ALU::sub`;
  `CarryBorrow` covers `add_carry` and `sub_borrow`.
- **The CPU**. `Registers` is the register file as a value. `Cpu` has the `Z80` class,
  whose fields are updated in place, with the accessors of both crates
  (`reg`, `set_reg`, `flag`, `set_flag`, `fetch`), and the `RSSpectrum` machine.
- **The decoders**. `Choice` models the `options!` macro. `DecodeTables` holds the masks, the
  register and condition tables and the little-endian operands. There is one module
  per group decoder (`DecodeLoad8`, `DecodeExchange`, `DecodeJump`, `DecodeArith8`),
  and `Decode` holds the two top-level decoders. Each decoder is proved
  sound against the instruction set's encoding (`Encoding`). Each is also proved to read
  back the instructions it can read back, and the ones it cannot are pinned down.
- **The handlers**. Each handler file has two modules:
  - a module of pure functions on the register file and memory (`Load8Semantics`,
    `ExchangeSemantics`, `JumpSemantics`, `Arith8Semantics`), which carries the lemmas;
  - a module of methods that update the `Z80` object and the memory array in place
    (`ExecLoad8`, `ExecExchange`, `ExecJump`, `ExecArith8`), each proved to leave
    exactly the state its function describes.
- **The dispatcher and the run loop** (`Execute`). `execute` with the charge of every
  arm, and one iteration of `run` in both crates.

The model follows the code as written. Where the code does something other than the
Z80's documented behaviour, the model keeps the code's behaviour and a lemma states the
consequence:

- **Flag masks.** The flag discriminants (C = 0, N = 1, PV = 2, H = 4, Z = 6, S = 7) are used
  directly as bit masks. So `flag(C)` is false in every state (`Registers.FlagReadsBits`,
  `Arith8Semantics.CarryNeverReads`), writing one flag can change others
  (`Registers.FlagMasksOverlap`), and ADC is ADD (`Arith8Semantics.AddCarryIsAdd`).
- **ADD's flags.** The `add` flags read the carries: Z and S report whether a carry happened,
  not whether the sum is zero or negative, and PV reports the unsigned carry
  (`Arith8Semantics.ZeroSumLeavesZClear`, `Arith8Semantics.SignedOverflowNotInPv`).
- **Relative jumps.** The decoder stores `e + 2` for a relative jump, but `run` has already
  moved the counter past the jump, so JR lands 2 bytes beyond its target
  (`Execute.RelativeJumpOvershoots`). A displacement byte of 0x7e or 0x7f makes the
  decoder's `i8` addition overflow (`DecodeJump.JumpFarForwardPanics`).
- **Block instructions.** LDIR's handler needs BC of at least 2, so it never falls through
  (`ExchangeSemantics.LdirAlwaysRepeats`, `Execute.LdirRunsAgain`). The short 4000 ns
  charge of the repeating forms can never be paid (`Execute.RepeatsChargedInFull`).
- **Load decoding.** Indexed loads with a register operand take the register from the prefix byte
  (`DecodeLoad8.Load8IndexedSourceRegister`, `DecodeLoad8.Load8IndexedTargetRegister`).
  LD A,I and LD A,R are reported one byte wide, and LD I,A and LD R,A are never decoded
  (`DecodeLoad8.Load8SpecialRegisters`, `Decode.SpecialRegisterStoresUndecodable`).
- **Register forms of arithmetic.** `add_a_r` tests only the top field, so every register
  form of an accumulator operation decodes as ADD (`DecodeArith8.RegisterFormsShadowed`,
  `DecodeArith8.Arith8RegisterOperandAsAdd`).
- **Indexed store timing.** The dispatcher charges LD (IX+d),n 4750 ns but LD (IY+d),n only
  2500 ns, though every other IX load costs what its IY mirror does
  (`Execute.IndexedStoreChargesDiffer`).
- **Stack exchanges.** EX (SP),HL/IX/IY load the stack word and never write the stack
  (`ExchangeSemantics.ExSpHlLoadsWord`).

The `+= 1`, `-= 1` and `- 1` that Rust checks for overflow, slice indexing and the `?`
of `bits_to_reg` are modelled as preconditions: the source panics there, so the model
demands what keeps the source from panicking. Integer widths are `newtype`s `u8` and `u16`,
and every wrap-around the source performs (`as u8`, `overflowing_add`,
`overflowing_add_signed`, `as u16` of an `i32`) is written out.

## Model

| member | source | states |
|---|---|---|
| Bits.SetHi16 | rz80/src/hi_lo.rs:87-89 | `set_hi` on a word stores `v` as the high byte and keeps the low byte |
| Bits.SetLo16 | rz80/src/hi_lo.rs:97-99 | `set_lo` on a word stores `v` as the low byte and keeps the high byte |
| Bits.HiLoMasks | rz80/src/hi_lo.rs:80-100 | the word impl's masks and shifts compute the high byte, the low byte and the two setters |
| Bits.HiLoDecompose | rz80/src/hi_lo.rs:80-100 | a word is its high byte times 256 plus its low byte, and is rebuilt from them by the setters |
| Bits.SetHiLoCommute | rz80/src/hi_lo.rs:87-99 | setting both bytes commutes, and the last write to a byte wins |
| Bits.SetOwnHalves | rz80/src/hi_lo.rs:87-99 | writing a byte of a word with its own value changes nothing |
| Bits.SetHi8 | rz80/src/hi_lo.rs:65-67 | `set_hi` on a byte stores the low nibble of `v` as the high nibble and keeps the low nibble |
| Bits.SetLo8 | rz80/src/hi_lo.rs:75-77 | `set_lo` on a byte stores the low nibble of `v` and keeps the high nibble |
| Bits.NibbleMasks | rz80/src/hi_lo.rs:58-78 | the byte impl's masks and shifts compute the two nibbles and the two setters |
| Bits.SetNibblesCommute | rz80/src/hi_lo.rs:65-77 | setting both nibbles commutes, and the last write to a nibble wins |
| Bits.HiLoExamples | rz80/src/hi_lo.rs:14-53 | the values of the trait's documentation examples |
| Bits.SetUpper | src/lib.rs:10-14 | `set_upper!` stores the low byte of `n` as the high byte: the bits of `n` above 8 are shifted out |
| Bits.SetLower | src/lib.rs:22-26 | `set_lower!` with `n` below 256 replaces the low byte |
| Bits.SetUpperMasked | src/z80/mod.rs:24-32 | `upper!(set x => y)` stores the low byte of `y` as the high byte; masking `y` first gives the same value as `set_upper!` |
| Bits.SetLowerMasked | src/z80/mod.rs:46-54 | `lower!(set x => y)` stores the low byte of `y` as the low byte |
| Bits.MacroMasks | src/lib.rs:4-26 | every macro's mask-and-shift expression, computed bit by bit, equals the modelled value |
| Bits.SetUpperLowerKeepOtherByte | src/lib.rs:10-26 | with `n < 256` each crate-level setter replaces its byte and keeps the other |
| Bits.SetLowerWideCorruptsHighByte | src/lib.rs:22-26 | an `n` wider than a byte corrupts the high byte: 0xaa00 with 0x1ff gives 0xabff |
| Bits.MacroExamples | src/lib.rs:50-71 | the values asserted by the macros' tests |
| Alu.Add | rz80/src/alu.rs:42-50 | the sum is `lhs + rhs` mod 256; carry3 iff the low nibble of the sum is below that of `lhs`; carry7 iff the sum wrapped (sum < lhs); overflow equals carry7 |
| Alu.Increment | rz80/src/alu.rs:65-67 | adding one: half carry iff the low nibble was 0xf, carry iff the byte was 0xff |
| Alu.Sub | rz80/src/alu.rs:69-74 | the difference plus `rhs` is `lhs` mod 256; half borrow iff the low nibble of `lhs` is below that of `rhs`; borrow iff `lhs < rhs` |
| Alu.SubUndoesAdd | rz80/src/alu.rs:42-74 | `sub` undoes `add`, and borrows exactly when `add` carried out of bit 7 |
| Alu.AddExamples | rz80/src/alu.rs:37-62 | the values of the documentation examples of `add` and `increment`, plus the edge cases 0xf0 + 0xff and 0xff + 1 |
| CarryBorrow.AddCarry | rz80/src/carry_borrow.rs:24-34 | the sum mod 256, the carry out of the low nibble, and the carry out of the byte |
| CarryBorrow.SubBorrow | rz80/src/carry_borrow.rs:56-61 | defined only without underflow; the difference and the borrow into bit 4 |
| CarryBorrow.AddCarryAgreesWithAlu | rz80/src/carry_borrow.rs:24-34 | `add_carry` and `ALU::add` give the same sum and carries |
| CarryBorrow.SubBorrowAgreesWithAlu | rz80/src/carry_borrow.rs:56-61 | `sub_borrow` and `ALU::sub` agree wherever `sub_borrow` does not panic |
| CarryBorrow.CarryBorrowExamples | rz80/src/carry_borrow.rs:16-52 | the values of the traits' documentation examples |
| Registers.Reg | rz80/src/lib.rs:56-70 | `reg` reads a pair whole, and an eight-bit register as its byte of the pair |
| Registers.WithReg | rz80/src/lib.rs:89-103 | `set_reg` changes only the pair holding `r`, after which `r` reads `v` (its low byte for an eight-bit register) |
| Registers.WithFlag | rz80/src/lib.rs:128-137 | `set_flag` changes only F: A and every other field keep their values |
| Registers.FlagUpdateWideAgrees | src/z80/mod.rs:169-178 | the older `set_flag`, computing in 16 bits, gives the same flag byte as the rz80 one |
| Registers.FlagUpdateBit | rz80/src/lib.rs:128-137 | `set_flag` sets every bit of the mask to `v` and keeps every other bit |
| Registers.MaskBits | src/z80/mod.rs:291-304 | the discriminant of each flag covers exactly the bits named (none for C, 0 for N, 1 for PV, 2 for H, 1-2 for Z, 0-2 for S) |
| Registers.FlagReadsBits | rz80/src/lib.rs:109-111 | `flag(f)` holds iff one of the bits of F that f's discriminant covers is set |
| Registers.WithFlagBits | rz80/src/lib.rs:128-137 | after `set_flag(f, v)` the bits f covers read `v` and all others are unchanged |
| Registers.WithRegFrame | rz80/src/lib.rs:89-103 | `set_reg(r, v)` keeps every register that shares no byte with `r` |
| Registers.WithRegLaws | rz80/src/lib.rs:89-103 | a second `set_reg` to the same register wins, and writing back a register's value changes nothing |
| Registers.RegExamples | rz80/src/lib.rs:175-191 | the register table of the crate's test of `reg` |
| Registers.WithRegExample | rz80/src/lib.rs:82-88 | the documentation example: setting C to 0xabcd keeps 0xcd |
| Registers.FlagAfterSet | rz80/src/lib.rs:128-137 | after `set_flag(f, v)`, `flag(f)` reads `v`, except C, which always reads false |
| Registers.WithFlagIdempotent | rz80/src/lib.rs:128-137 | `set_flag` twice with the same arguments is `set_flag` once |
| Registers.WithFlagKeepsDisjoint | rz80/src/lib.rs:128-137 | a flag whose mask is disjoint from the written one keeps its value |
| Registers.FlagMasksOverlap | rz80/src/lib.rs:109-137 | clearing Z also clears PV and H; setting N sets S; setting C does not make it read set |
| Registers.FlagExample | rz80/src/lib.rs:118-127 | the documentation example: N set, then cleared |
| Cpu.Z80.constructor | src/z80/mod.rs:57-87 | `Default::default()`: every field is zero |
| Cpu.Z80.RegMacro | src/z80/mod.rs:97-111 | the older `reg` through `upper!`/`lower!` returns the same value as the rz80 `reg` |
| Cpu.Z80.SetReg | rz80/src/lib.rs:89-103 | the rz80 `set_reg` leaves the register file `WithReg` describes |
| Cpu.Z80.SetRegMacro | src/z80/mod.rs:130-144 | the older `set_reg` through the macros leaves the same state as the rz80 one |
| Cpu.Z80.FlagMacro | src/z80/mod.rs:150-152 | the older `flag` returns the same answer as the rz80 `flag` |
| Cpu.Z80.SetFlag | rz80/src/lib.rs:128-137 | the rz80 `set_flag` leaves the register file `WithFlag` describes |
| Cpu.Z80.SetFlagMacro | src/z80/mod.rs:169-178 | the older `set_flag` leaves the same state as the rz80 one |
| Cpu.Z80.Fetch | rz80/src/lib.rs:143-145 | `fetch` returns the memory from the program counter to the end; the counter may not exceed the length |
| Cpu.Spectrum.constructor | src/lib.rs:38-43 | `RSSpectrum::new`: a zeroed CPU and `MEM_SIZE` zero bytes |
| Cpu.FlagByteMacro | src/z80/mod.rs:169-178 | the older `lower!(set af => ..)` with the 16-bit flag byte stores the rz80 flag byte |
| Cpu.MemSizeCoversAddresses | src/lib.rs:30 | `MEM_SIZE` is 65536, one byte per 16-bit address |
| Choice.OrElse | rz80/src/decode.rs:67-86 | one step of `options!`: `None` exactly when both alternatives are `None` |
| Choice.OrElseLaws | rz80/src/decode.rs:67-86 | grouping the alternatives does not matter, and `None` contributes nothing |
| Choice.Options | rz80/src/decode.rs:67-86 | `options!` yields one of its arguments: the first `Some`, and `None` exactly when all are `None` |
| Choice.OptionsUnwrap | rz80/src/decode.rs:83-85 | the `unwrap` form yields the payload of the first `Some` |
| Choice.OptionsExamples | rz80/src/decode.rs:93-102 | the values of the macro's tests |
| DecodeTables.Top2 | rz80/src/decode.rs:108 | the `TOP_TWO` field is below 4 |
| DecodeTables.Mid3 | rz80/src/decode.rs:109 | the `MID_THREE` field is below 8 |
| DecodeTables.Low3 | rz80/src/decode.rs:110 | the `LOW_THREE` field is below 8 |
| DecodeTables.AndKeepsFields | rz80/src/decode.rs:108-110 | `&` with a union of the masks keeps exactly the fields the masks cover |
| DecodeTables.MaskValues | rz80/src/decode.rs:108-110 | the three masks cover the two top, three middle and three low bits |
| DecodeTables.MaskUnions | rz80/src/decode/jump.rs:29 | `TOP_TWO \| LOW_THREE` is 0xc7 and `TOP_TWO \| MID_THREE` is 0xf8 |
| DecodeTables.MaskTests | src/z80/decode/load8.rs:33-58 | the decoders' mask tests and field extractions, in field terms |
| DecodeTables.BitsToRegInverse | rz80/src/decode.rs:17-28 | `bits_to_reg` and the register coding are inverse, in both directions |
| DecodeTables.BitsToRegNone | rz80/src/decode.rs:17-28 | `bits_to_reg` names no register exactly for 110 and for values above 7 |
| DecodeTables.BitsToConditionInverse | rz80/src/decode.rs:31-43 | `bits_to_condition` and the condition coding are inverse; every three-bit field names one |
| DecodeTables.LittleEndian | rz80/src/decode/jump.rs:12 | a 16-bit operand read low byte first has those low and high bytes |
| DecodeTables.LittleEndianJoin | src/z80/decode/load8.rs:167 | the load decoder's `lo \| (hi << 8)` is the little-endian word |
| Insts.AsI8 | src/z80/decode/load8.rs:71 | `b as i8` is congruent to `b` mod 256 and negative iff `b >= 0x80` |
| MachineState.WrapAddWraps | rz80/src/execute/arith8.rs:63 | a wrapped signed add is the plain sum when it fits, and otherwise goes once around the address space |
| DecodeLoad8.LoadRRSound | src/z80/decode/load8.rs:33-41 | `load_r_r` answers only `01 rrr rrr` with both fields naming registers, as LD r,r' of 1 byte |
| DecodeLoad8.LoadRNSound | src/z80/decode/load8.rs:43-50 | `load_r_n` answers only `00 rrr 110 n`, as LD r,n of 2 bytes |
| DecodeLoad8.LoadRHlSound | src/z80/decode/load8.rs:52-59 | `load_r_hl` answers only `01 rrr 110`, as LD r,(HL) of 1 byte |
| DecodeLoad8.LoadHlRSound | src/z80/decode/load8.rs:87-94 | `load_hl_r` answers only `01 110 rrr`, as LD (HL),r of 1 byte |
| DecodeLoad8.LoadIndexedSound | src/z80/decode/load8.rs:61-120 | the four indexed helpers answer only DD/FD patterns, naming the register the prefix byte's field names |
| DecodeLoad8.LoadImmediateSound | src/z80/decode/load8.rs:122-144 | `load_hl_n`, `load_ix_n` and `load_iy_n` answer only their encodings, with their lengths |
| DecodeLoad8.LoadAbsoluteSound | src/z80/decode/load8.rs:162-194 | `load_a_nn` and `load_nn_a` answer only 3A/32 with the little-endian address, 3 bytes |
| DecodeLoad8.LoadFixedSound | src/z80/decode/load8.rs:146-210 | the six one-pattern helpers answer only their opcodes; the ED ones claim one byte |
| DecodeLoad8.Load8Sound | src/z80/decode/load8.rs:9-31 | whatever `load8` answers is a load that the bytes explain |
| DecodeLoad8.ReadsBackRR | src/z80/decode/load8.rs:33-41 | LD r,r' is decoded from its encoding, whatever follows |
| DecodeLoad8.ReadsBackRN | src/z80/decode/load8.rs:43-50 | LD r,n is decoded from its encoding, whatever follows |
| DecodeLoad8.ReadsBackRHl | src/z80/decode/load8.rs:52-59 | LD r,(HL) is decoded from its encoding, whatever follows |
| DecodeLoad8.ReadsBackHlR | src/z80/decode/load8.rs:87-94 | LD (HL),r is decoded from its encoding, whatever follows |
| DecodeLoad8.ReadsBackImmediate | src/z80/decode/load8.rs:122-144 | LD (HL)/(IX+d)/(IY+d),n are decoded from their encodings with their lengths |
| DecodeLoad8.ReadsBackAbsolute | src/z80/decode/load8.rs:162-194 | LD A,(nn) and LD (nn),A are decoded from their encodings, 3 bytes |
| DecodeLoad8.ReadsBackIndirect | src/z80/decode/load8.rs:146-185 | LD A,(BC), LD A,(DE), LD (BC),A and LD (DE),A are decoded from their encodings |
| DecodeLoad8.Load8ReadsBack | src/z80/decode/load8.rs:9-31 | every load other than the register-indexed and ED forms is decoded from its encoding with the encoding's length |
| DecodeLoad8.Load8IndexedSourceRegister | src/z80/decode/load8.rs:61-85 | LD r,(IX+d) decodes with register E and LD r,(IY+d) with A, whatever r is |
| DecodeLoad8.Load8IndexedTargetRegister | src/z80/decode/load8.rs:96-120 | LD (IX+d),r and LD (IY+d),r decode with register L, whatever r is |
| DecodeLoad8.Load8SpecialRegisters | src/z80/decode/load8.rs:196-210 | ED 57 and ED 5F decode as LD A,I and LD A,R of width 1; ED 47 and ED 4F are not decoded |
| DecodeExchange.ExchangeReadsBack | rz80/src/decode/exchange.rs:8-26 | every exchange is decoded from its encoding with its length, whatever follows |
| DecodeExchange.ExchangeSound | rz80/src/decode/exchange.rs:8-26 | whatever `exchange` answers, the bytes begin with its encoding and the width is its length |
| DecodeExchange.ExchangeOldIsDeHlOnly | src/z80/decode/exchange.rs:4-16 | the older decoder answers exactly where the rz80 one answers EX DE,HL, and the same |
| DecodeJump.Target | rz80/src/decode/jump.rs:15-23 | `(e as i8) + 2` is the signed byte plus 2, defined only where it does not overflow |
| DecodeJump.JumpReadsBack | rz80/src/decode/jump.rs:9-36 | every jump is decoded from its encoding with its length, whatever follows |
| DecodeJump.JumpSound | rz80/src/decode/jump.rs:9-36 | whatever `jump` answers, the bytes begin with its encoding and the width is its length |
| DecodeJump.JumpFarForwardPanics | rz80/src/decode/jump.rs:15-23 | a displacement byte of 0x7e or 0x7f overflows `(e as i8) + 2`: JR and DJNZ panic there |
| DecodeArith8.RegisterFormsShadowed | rz80/src/decode/arith8.rs:55-158 | the register-form helper list acts as `add_a_r`, `inc_r`, `dec_r` alone (old: `add_a_r`, `inc_r`) |
| DecodeArith8.AddARSound | rz80/src/decode/arith8.rs:70-77 | `add_a_r` answers only `10 ooo rrr`, as ADD A,r with the low field's register |
| DecodeArith8.IncDecRSound | rz80/src/decode/arith8.rs:142-158 | `inc_r` and `dec_r` answer only their encodings |
| DecodeArith8.IndexedSound | rz80/src/decode/arith8.rs:13-38 | the DD/FD table answers only the operation its second byte encodes, 3 bytes |
| DecodeArith8.ImmediateSound | rz80/src/decode/arith8.rs:11-52 | the `11 ooo 110 n` patterns answer the operation on the immediate, 2 bytes |
| DecodeArith8.AtHlSound | rz80/src/decode/arith8.rs:11-54 | the one-byte (HL) patterns answer the operation on (HL), 1 byte |
| DecodeArith8.NoPattern | rz80/src/decode/arith8.rs:55-66 | bytes no slice pattern takes go to the register-form helpers |
| DecodeArith8.Arith8Sound | rz80/src/decode/arith8.rs:9-68 | whatever `arith8` answers is an arithmetic instruction that the bytes explain |
| DecodeArith8.ReadsBackIncRegister | rz80/src/decode/arith8.rs:142-149 | INC r is decoded from its encoding |
| DecodeArith8.ReadsBackDecRegister | rz80/src/decode/arith8.rs:151-158 | DEC r is decoded from its encoding |
| DecodeArith8.ReadsBackAddRegister | rz80/src/decode/arith8.rs:70-77 | ADD A,r is decoded from its encoding |
| DecodeArith8.ReadsBackAccumulator | rz80/src/decode/arith8.rs:11-54 | every accumulator operation on n, (HL), (IX+d) or (IY+d) is decoded from its encoding with its length |
| DecodeArith8.ReadsBackMemory | rz80/src/decode/arith8.rs:11-54 | INC and DEC of (HL), (IX+d) and (IY+d) are decoded from their encodings |
| DecodeArith8.Arith8ReadsBack | rz80/src/decode/arith8.rs:9-68 | every arithmetic instruction other than a non-ADD register form is decoded from its encoding with its length |
| DecodeArith8.Arith8RegisterOperandAsAdd | rz80/src/decode/arith8.rs:70-140 | ADC, SUB, SBC, AND, XOR, OR and CP on a register decode as ADD on that register |
| DecodeArith8.Arith8OldIsArith8WithoutCpDec | src/z80/decode/arith8.rs:8-58 | the older decoder answers as the rz80 one, except that it answers nothing for CP and DEC |
| Decode.DecodeNeedsBothBounds | rz80/src/decode.rs:117-119 | where the jump decoder's bounds fail, loads and exchanges decline, so `decode` reaches `jump` and panics |
| Decode.DecodeSound | rz80/src/decode.rs:117-119 | whatever `decode` answers the bytes explain, and it is never arithmetic |
| Decode.DecodeOldSound | src/z80/decode.rs:89-91 | whatever the older `decode` answers the bytes explain; never a jump, CP or DEC, and EX DE,HL is its only exchange |
| Decode.Load8DeclinesExchange | rz80/src/decode.rs:117-119 | `load8` declines every exchange encoding, so `decode` reaches `exchange` |
| Decode.Load8DeclinesJump | rz80/src/decode.rs:117-119 | `load8` declines every jump encoding |
| Decode.ExchangeDeclinesJump | rz80/src/decode.rs:117-119 | `exchange` declines every jump encoding |
| Decode.JumpBoundsOfLoad | rz80/src/decode.rs:117-119 | the jump decoder's bounds hold on every load encoding |
| Decode.JumpBoundsOfExchange | rz80/src/decode.rs:117-119 | the jump decoder's bounds hold on every exchange encoding |
| Decode.DecodeReadsBack | rz80/src/decode.rs:117-119 | `decode` reads back every load `load8` reads back, every exchange and every jump |
| Decode.Load8DeclinesAccumulator | src/z80/decode.rs:89-91 | `load8` declines every accumulator operation |
| Decode.Load8DeclinesIncDecRegister | src/z80/decode.rs:89-91 | `load8` declines INC r and DEC r |
| Decode.Load8DeclinesIncDecMemory | src/z80/decode.rs:89-91 | `load8` declines INC and DEC of a memory operand |
| Decode.Load8DeclinesArith | src/z80/decode.rs:89-91 | `load8` declines every arithmetic instruction, so the older `decode` reaches `arith8` |
| Decode.DecodeOldReadsBack | src/z80/decode.rs:89-91 | the older `decode` reads back the loads, EX DE,HL and the arithmetic it knows |
| Decode.SpecialRegisterStoresUndecodable | src/z80/decode/load8.rs:9-31 | LD I,A and LD R,A are decoded by neither decoder |
| Decode.DecodersAgree | src/z80/decode.rs:89-91 | where the rz80 `decode` answers a load or EX DE,HL, the older one answers the same |
| Load8Semantics.LoadRRWritesTarget | src/z80/execute/load8.rs:5-8 | `r` receives `r1` (its low byte for an eight-bit target) and every register sharing no byte with `r` is kept |
| Load8Semantics.LoadsKeepFlags | src/z80/execute/load8.rs:5-127 | no encodable load changes F, so every flag reads as before |
| Load8Semantics.LoadsTouchOneCell | src/z80/execute/load8.rs:37-107 | a store writes only the cell it addresses and no register; other loads leave the memory alone |
| Load8Semantics.StoreThenLoadA | src/z80/execute/load8.rs:87-107 | LD (nn),A then LD A,(nn) restores the registers |
| Load8Semantics.StoreThenLoadPairA | src/z80/execute/load8.rs:73-102 | LD (BC),A then LD A,(BC), and the DE forms, restore the registers |
| Load8Semantics.StoreThenLoadHl | src/z80/execute/load8.rs:16-40 | LD (HL),r then LD r,(HL) restores the registers |
| Load8Semantics.StoreThenLoadIndexed | src/z80/execute/load8.rs:23-52 | LD (IX+d),r then LD r,(IX+d), and the IY forms, restore the registers |
| Load8Semantics.SpecialRegisterRoundTrip | src/z80/execute/load8.rs:110-127 | LD I,A copies A into I and LD A,I after it changes nothing; the same for R |
| ExecLoad8.LoadRR | src/z80/execute/load8.rs:5-8 | the CPU is left as `Load8Semantics.LoadRR` describes |
| ExecLoad8.LoadRN | src/z80/execute/load8.rs:11-13 | the CPU is left as `Load8Semantics.LoadRN` describes |
| ExecLoad8.LoadRHl | src/z80/execute/load8.rs:16-20 | HL in the memory; the CPU is left as `LoadRHl` describes |
| ExecLoad8.LoadRIx | src/z80/execute/load8.rs:23-27 | IX + d in the memory; the CPU is left as `LoadRIx` describes |
| ExecLoad8.LoadRIy | src/z80/execute/load8.rs:30-34 | IY + d in the memory; the CPU is left as `LoadRIy` describes |
| ExecLoad8.LoadHlR | src/z80/execute/load8.rs:37-40 | the memory is left as `LoadHlR` describes, the CPU unchanged |
| ExecLoad8.LoadIxR | src/z80/execute/load8.rs:43-46 | the memory is left as `LoadIxR` describes, the CPU unchanged |
| ExecLoad8.LoadIyR | src/z80/execute/load8.rs:49-52 | the memory is left as `LoadIyR` describes, the CPU unchanged |
| ExecLoad8.LoadHlN | src/z80/execute/load8.rs:55-58 | the memory is left as `LoadHlN` describes |
| ExecLoad8.LoadIxN | src/z80/execute/load8.rs:61-64 | the memory is left as `LoadIxN` describes |
| ExecLoad8.LoadIyN | src/z80/execute/load8.rs:67-70 | the memory is left as `LoadIyN` describes |
| ExecLoad8.LoadABc | src/z80/execute/load8.rs:73-77 | the CPU is left as `LoadABc` describes |
| ExecLoad8.LoadADe | src/z80/execute/load8.rs:80-84 | the CPU is left as `LoadADe` describes |
| ExecLoad8.LoadANn | src/z80/execute/load8.rs:87-90 | the CPU is left as `LoadANn` describes |
| ExecLoad8.LoadBcA | src/z80/execute/load8.rs:93-96 | the memory is left as `LoadBcA` describes |
| ExecLoad8.LoadDeA | src/z80/execute/load8.rs:99-102 | the memory is left as `LoadDeA` describes |
| ExecLoad8.LoadNnA | src/z80/execute/load8.rs:105-107 | the memory is left as `LoadNnA` describes |
| ExecLoad8.LoadAI | src/z80/execute/load8.rs:110-112 | the CPU is left as `LoadAI` describes |
| ExecLoad8.LoadAR | src/z80/execute/load8.rs:115-117 | the CPU is left as `LoadAR` describes |
| ExecLoad8.LoadIA | src/z80/execute/load8.rs:120-122 | the CPU is left as `LoadIA` describes |
| ExecLoad8.LoadRA | src/z80/execute/load8.rs:125-127 | the CPU is left as `LoadRA` describes |
| ExchangeSemantics.ExchangesAreInvolutions | src/z80/execute/exchange.rs:6-20 | EX DE,HL, EX AF,AF' and EXX each undo themselves; EXX keeps AF and AF' |
| ExchangeSemantics.ExSpHlLoadsWord | src/z80/execute/exchange.rs:23-28 | EX (SP),HL loads the little-endian word at SP into HL, changes nothing else and never writes the stack |
| ExchangeSemantics.ExSpIxLoadsWord | src/z80/execute/exchange.rs:31-36 | EX (SP),IX loads the word at SP into IX and changes nothing else |
| ExchangeSemantics.ExSpIyLoadsWord | src/z80/execute/exchange.rs:39-44 | EX (SP),IY loads the word at SP into IY and changes nothing else |
| ExchangeSemantics.TransferFlags | src/z80/execute/exchange.rs:55-57 | after the transfers' writes H and N read clear, and PV, Z and S read the PV value |
| ExchangeSemantics.SearchWritesBits | src/z80/execute/exchange.rs:117-122 | the searches' last writes: bit 0 set by N, bit 1 the PV value, bit 2 the Z value |
| ExchangeSemantics.SearchFlags | src/z80/execute/exchange.rs:117-122 | after CPI/CPD's writes N and S read set, and Z reads a match or a non-zero BC |
| ExchangeSemantics.RepeatSearchFlags | src/z80/execute/exchange.rs:130-131 | after CPIR's writes N reads A < byte; Z, PV and H read a match; S reads A <= byte |
| ExchangeSemantics.LdiEffect | src/z80/execute/exchange.rs:47-58 | LDI copies one cell and changes no other, moves DE/HL up and BC down, and PV reads BC >= 3 on entry |
| ExchangeSemantics.LddEffect | src/z80/execute/exchange.rs:79-90 | LDD copies one cell, moves DE/HL down and BC down, and PV reads BC != 1 on entry |
| ExchangeSemantics.LdirAlwaysRepeats | src/z80/execute/exchange.rs:61-76 | LDIR is LDI followed by a rewind of the counter by 2, which always happens |
| ExchangeSemantics.LddrRepeatsUntilCountDone | src/z80/execute/exchange.rs:93-108 | LDDR is LDD followed by a rewind exactly when BC has not reached zero |
| ExchangeSemantics.CpiEffect | src/z80/execute/exchange.rs:111-123 | CPI moves HL up and BC down, writes no memory and sets the search flags of `A - (HL)` |
| ExchangeSemantics.CpdMirrorsCpi | src/z80/execute/exchange.rs:111-153 | CPD is CPI with HL moved down instead of up |
| ExchangeSemantics.CpirEffect | src/z80/execute/exchange.rs:126-138 | CPIR steps HL and BC, keeps A and bits 3 to 7 of F, sets N and Z from `A - (HL)`, and rewinds unless BC reached zero and the byte matched |
| ExchangeSemantics.CpdrRepeats | src/z80/execute/exchange.rs:156-172 | CPDR is CPD followed by a rewind unless BC reached zero and the byte matched |
| ExchangeSemantics.ExchangesWriteOnlyDe | src/z80/execute/exchange.rs:47-108 | only the four transfers write memory, each the one cell at DE |
| ExecExchange.ExDeHl | src/z80/execute/exchange.rs:6-8 | the CPU is left as `ExchangeSemantics.ExDeHl` describes |
| ExecExchange.ExAfAf1 | src/z80/execute/exchange.rs:11-13 | the CPU is left as `ExAfAf1` describes |
| ExecExchange.Exx | src/z80/execute/exchange.rs:16-20 | the CPU is left as `Exx` describes |
| ExecExchange.ExSpHl | src/z80/execute/exchange.rs:23-28 | the CPU is left as `ExSpHl` describes |
| ExecExchange.ExSpIx | src/z80/execute/exchange.rs:31-36 | the CPU is left as `ExSpIx` describes, through the two macro writes |
| ExecExchange.ExSpIy | src/z80/execute/exchange.rs:39-44 | the CPU is left as `ExSpIy` describes |
| ExecExchange.TransferFlags | src/z80/execute/exchange.rs:55-57 | the three `set_flag` calls of the transfers make the writes `TransferWrites` lists |
| ExecExchange.SearchFlags | src/z80/execute/exchange.rs:117-122 | the four `set_flag` calls of CPI, CPD and CPDR make the writes `SearchWrites` lists |
| ExecExchange.RepeatSearchFlags | src/z80/execute/exchange.rs:130-131 | CPIR's two `set_flag` calls make the writes `RepeatSearchWrites` lists |
| ExecExchange.Ldi | src/z80/execute/exchange.rs:47-58 | the CPU and memory are left as `Ldi` describes |
| ExecExchange.Ldir | src/z80/execute/exchange.rs:61-76 | the CPU and memory are left as `Ldir` describes |
| ExecExchange.Ldd | src/z80/execute/exchange.rs:79-90 | the CPU and memory are left as `Ldd` describes |
| ExecExchange.Lddr | src/z80/execute/exchange.rs:93-108 | the CPU and memory are left as `Lddr` describes |
| ExecExchange.Cpi | src/z80/execute/exchange.rs:111-123 | the CPU is left as `Cpi` describes |
| ExecExchange.Cpir | src/z80/execute/exchange.rs:126-138 | the CPU is left as `Cpir` describes |
| ExecExchange.Cpd | src/z80/execute/exchange.rs:141-153 | the CPU is left as `Cpd` describes |
| ExecExchange.Cpdr | src/z80/execute/exchange.rs:156-172 | the CPU is left as `Cpdr` describes |
| JumpSemantics.ConditionPairs | src/z80/execute/jump.rs:9-23 | NZ, PE and M negate Z, PO and P; C never holds and NC always does |
| JumpSemantics.JumpCcTakenIff | src/z80/execute/jump.rs:9-24 | JP cc,nn changes only the counter, lands at nn iff the condition holds, and otherwise changes nothing |
| JumpSemantics.JrOnCarry | src/z80/execute/jump.rs:33-44 | JR C never jumps and JR NC always does; JR Z and JR NZ take opposite branches |
| JumpSemantics.RelativeJumpTarget | src/z80/execute/jump.rs:27-30 | a relative jump moves the counter by `e`, wrapping around the address space |
| JumpSemantics.DjnzCountsDown | src/z80/execute/jump.rs:62-68 | DJNZ decrements B, keeps C and all else, and jumps iff B was not 1 |
| JumpSemantics.JumpsWriteNoFlags | src/z80/execute/jump.rs:4-68 | no jump writes memory or AF; every jump but DJNZ changes only the counter |
| ExecJump.JumpNn | src/z80/execute/jump.rs:4-6 | the CPU is left as `JumpSemantics.JumpNn` describes |
| ExecJump.JumpCcNn | src/z80/execute/jump.rs:9-24 | the CPU is left as `JumpCcNn` describes |
| ExecJump.JumprE | src/z80/execute/jump.rs:27-30 | the CPU is left as `JumprE` describes: the `i32` sum cast back to `u16` |
| ExecJump.JrFlagE | src/z80/execute/jump.rs:33-37 | the CPU is left as `JrFlagE` describes |
| ExecJump.JrNflagE | src/z80/execute/jump.rs:40-44 | the CPU is left as `JrNflagE` describes |
| ExecJump.JumpHl | src/z80/execute/jump.rs:47-49 | the CPU is left as `JumpHl` describes |
| ExecJump.JumpIx | src/z80/execute/jump.rs:52-54 | the CPU is left as `JumpIx` describes |
| ExecJump.JumpIy | src/z80/execute/jump.rs:57-59 | the CPU is left as `JumpIy` describes |
| ExecJump.DjnzE | src/z80/execute/jump.rs:62-68 | B at least 1; the CPU is left as `DjnzE` describes |
| Arith8Semantics.AddWritesBits | rz80/src/execute/arith8.rs:16-21 | after `add`'s six calls, bit 0 is clear, bit 1 holds the overflow and bit 2 the half carry |
| Arith8Semantics.AddFlags | rz80/src/execute/arith8.rs:16-21 | after `add`'s calls every flag reads as `ArithReading` of the overflow and the half carry |
| Arith8Semantics.IncWritesBits | rz80/src/execute/arith8.rs:87-91 | after the increments' calls, bit 0 is clear, bit 1 holds `sum == 0x80` and bit 2 the half carry |
| Arith8Semantics.IncFlags | rz80/src/execute/arith8.rs:87-91 | after the increments' calls every flag reads as `ArithReading` of those values |
| Arith8Semantics.AddToASum | rz80/src/execute/arith8.rs:7-22 | `add` makes A the sum of A and `rhs` mod 256 and changes nothing outside AF |
| Arith8Semantics.AddToAFlags | rz80/src/execute/arith8.rs:7-22 | after `add`, PV reads the unsigned carry, H the half carry, N and C clear, Z and S either carry |
| Arith8Semantics.CarryNeverReads | rz80/src/lib.rs:109-111 | `flag(C)` reads false in every state |
| Arith8Semantics.AddCarryIsAdd | rz80/src/execute/arith8.rs:25-29 | `add_carry` is `add`, and the handlers' `carry` argument makes no difference |
| Arith8Semantics.AddRegFormsReadOperand | rz80/src/execute/arith8.rs:32-48 | ADD A,r adds the register's low byte and ADD A,n adds n |
| Arith8Semantics.AddAHlReadsHl | rz80/src/execute/arith8.rs:51-59 | ADD A,(HL) adds the byte at HL |
| Arith8Semantics.AddIndexedFormsReadWrapped | rz80/src/execute/arith8.rs:62-81 | ADD A,(IX+d) and ADD A,(IY+d) add the byte at the wrapped address |
| Arith8Semantics.ZeroSumLeavesZClear | rz80/src/execute/arith8.rs:16-17 | 0 + 0 leaves A zero with Z reading clear |
| Arith8Semantics.SignedOverflowNotInPv | rz80/src/execute/arith8.rs:19 | 0x7f + 1 gives 0x80 with PV reading clear |
| Arith8Semantics.IncREffect | rz80/src/execute/arith8.rs:84-92 | INC r raises r by one and keeps every register sharing no byte with r and every field outside the main file |
| Arith8Semantics.IncRFlags | rz80/src/execute/arith8.rs:84-92 | after INC r, PV reads an operand of 0x7f, H a low nibble of 0xf, and the rest as `ArithReading` |
| Arith8Semantics.IncHlEffect | rz80/src/execute/arith8.rs:95-104 | INC (HL) increments the byte at HL and no other cell, changes only F, and sets the flags as INC r |
| ExecArith8.SignZeroHalfFlags | rz80/src/execute/arith8.rs:16-18 | the S, Z and H calls make the writes `SignZeroHalfWrites` lists |
| ExecArith8.AddFlags | rz80/src/execute/arith8.rs:16-21 | the six calls of `add` make the writes `AddWrites` lists |
| ExecArith8.Add | rz80/src/execute/arith8.rs:7-22 | the CPU is left as `Arith8Semantics.AddToA` describes |
| ExecArith8.AddCarry | rz80/src/execute/arith8.rs:25-29 | the CPU is left as `AddCarryToA` describes |
| ExecArith8.AddAR | rz80/src/execute/arith8.rs:32-39 | the CPU is left as `AddAR` describes |
| ExecArith8.AddAN | rz80/src/execute/arith8.rs:42-48 | the CPU is left as `AddAN` describes |
| ExecArith8.AddAHl | rz80/src/execute/arith8.rs:51-59 | HL in the memory; the CPU is left as `AddAHl` describes |
| ExecArith8.AddAIx | rz80/src/execute/arith8.rs:62-70 | the wrapped IX + d in the memory; the CPU is left as `AddAIx` describes |
| ExecArith8.AddAIy | rz80/src/execute/arith8.rs:73-81 | the wrapped IY + d in the memory; the CPU is left as `AddAIy` describes |
| ExecArith8.IncFlags | rz80/src/execute/arith8.rs:87-91 | the five calls of the increments make the writes `IncWrites` lists |
| ExecArith8.IncR | rz80/src/execute/arith8.rs:84-92 | an operand other than 0xff; the CPU is left as `IncR` describes |
| ExecArith8.IncHl | rz80/src/execute/arith8.rs:95-104 | the CPU and memory are left as `IncHl` describes |
| Execute.OkIsHandled | rz80/src/execute.rs:59-140 | an instruction whose arm does not panic has an arm (it is not sent to `todo!`) |
| Execute.Duration | rz80/src/execute.rs:62-137 | every arm's charge lies between 1000 and 5750 ns |
| Execute.IndexedStoreChargesDiffer | rz80/src/execute.rs:65-72 | LD (IX+d),n is charged 4750 ns but LD (IY+d),n only the 2500 ns of LD (HL),n, while the other IX and IY loads are charged alike |
| Execute.DurationFixedOutsideRepeats | rz80/src/execute.rs:62-137 | only the repeating block instructions' charges depend on BC |
| Execute.RepeatCostsMoreIffBcNonZero | rz80/src/execute.rs:91-121 | a repeating form costs its single form's 4000 ns when BC is zero and 1250 ns more otherwise |
| Execute.RepeatsChargedInFull | rz80/src/execute.rs:91-121 | whenever a repeating form's handler does not panic, the arm charges 5250 ns |
| Execute.LastLddrChargedAsRepeat | rz80/src/execute.rs:99-105 | LDDR with BC = 1 does not rewind, yet is charged 5250 ns |
| Execute.ExecuteLoad | rz80/src/execute.rs:62-82 | the load arms leave the machine as `Load8Semantics.Step` describes |
| Execute.ExecuteExchange | rz80/src/execute.rs:84-121 | the exchange arms leave the machine as `ExchangeSemantics.Step` describes |
| Execute.ExecuteJump | rz80/src/execute.rs:123-137 | the jump arms and DJNZ leave the machine as `JumpSemantics.Step` describes |
| Execute.ExecuteArith | rz80/src/execute.rs:134-136 | the arithmetic arms leave the machine as `Arith8Semantics.Step` describes |
| Execute.Execute | rz80/src/execute.rs:59-140 | `execute` leaves the machine `Step` describes and returns the arm's charge for BC before the step |
| Execute.StepKeepsCounter | rz80/src/execute.rs:60-137 | every arm other than the jumps and the repeating forms leaves the counter as it was |
| Execute.RunOnce | rz80/src/lib.rs:153-161 | one iteration of `run`: when the window does not decode nothing changes; otherwise the machine is `RunStep`'s |
| Execute.DecodedInstructionsHandled | rz80/src/execute.rs:138 | every instruction the rz80 decoder yields has an arm: `todo!` is unreachable from `run` |
| Execute.RunStepAdvancesPastInstruction | rz80/src/lib.rs:155-157 | an instruction that does not assign the counter leaves it just past its decoded width |
| Execute.RelativeJumpOvershoots | rz80/src/decode/jump.rs:15 | JR at address a with displacement byte e lands at a + 4 + e (wrapped), not a + 2 + e |
| Execute.LdirRunsAgain | rz80/src/execute.rs:91-97 | an iteration on LDIR always returns the counter to the LDIR itself |
| Execute.RunOnceOld | src/z80/mod.rs:194-202 | one iteration of the older `run`: decode, then move the counter past the instruction; nothing else changes |
| Execute.RunStepOldWalksForward | src/z80/mod.rs:194-202 | in the older `run` the counter strictly increases whenever the bytes decode, and nothing else changes |

## Left out

- `thread::sleep(CLOCK_SPEED)` in `run` and the busy-wait of `min_time!` are wall-clock waits. The model returns each arm's charge in nanoseconds (`Execute.Duration`) instead of waiting.
- `run` loops until decoding fails. The model gives one iteration (`Execute.RunOnce`, `Execute.RunOnceOld`), because the loop need not terminate.
- The older crate's `execute` (`src/z80/execute.rs`) is a stub that does nothing, and it takes only the instruction although `run` passes the memory too. The older run step therefore only decodes and advances the counter.
- The older crate's arithmetic handlers (`src/z80/execute/arith8.rs`) are a `todo!`, so the arithmetic semantics follow the rz80 handlers.
- The rz80 load, exchange and jump handlers and the rz80 `decode/load8.rs` are not part of this model. The rz80 dispatcher calls handlers of the same names, which are modelled from the older crate's files.
- The rz80 decoder does not declare the arithmetic decoder, so `DecodeArith8.Arith8` is reached only from the older `decode` and from its own lemmas.
- The older crate's `decode/jump.rs` is not declared by its decoder module. It has the same text as the rz80 file, which `DecodeJump` models once.
- `Choice.OrElse`: `options!` evaluates its alternatives lazily. The model evaluates them all, so every alternative's bounds are required (`Decode.DecodeNeedsBothBounds` shows the rz80 decoder loses nothing by this).
- Panics (slice indexing, integer overflow in debug builds, `unwrap`) are modelled as preconditions rather than as an error result.
- `LE::read_u16` of the `byteorder` crate is modelled as `DecodeTables.LittleEndian` on the first two bytes.
- Registers of the machine are modelled with the unbounded integers `u8`/`u16` as bounded `newtype`s, not as bit-vectors; bitwise operators are defined bit by bit in `Bitwise`.
- `set_hi`/`set_lo` and the setter macros assign a place. The model gives them as functions that return the new value of the place.
- The `upper!(set x => y)`/`lower!(set x => y)` macros are invoked as `lower!(set cpu.index_x; lo as u16)` in the exchange handlers, a form the macro does not declare. The model takes the evidently intended write of the low (high) byte.
- `add_a_r` is called with two arguments in the dispatcher although it takes three. The model calls it with `carry = false`; by `Arith8Semantics.AddCarryIsAdd` the choice makes no difference.
- `Arith8Semantics.IncREffect`: stated for the eight-bit registers other than F. INC on a register pair or on F is not produced by any decoder.
- `ExecExchange.ExSpIx` and `ExecExchange.ExSpIy` read the stack through a `seq` of the memory, as the handlers take it by shared reference.
- `sub_borrow`/`ALU::sub` have no caller in the modelled handlers; they are modelled and related to each other but not used by an instruction.
- The `rspectrum` wrapper crate, `main.rs` and the crates' test scaffolding are not part of this model; the values the tests assert are stated as example lemmas.
- Memory is any length in the decoders and handlers. `RSSpectrum::new` allocates `MEM_SIZE` bytes, which `Cpu.MemSizeCoversAddresses` shows is one per address.
