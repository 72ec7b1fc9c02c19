/**
 * The CPU structure `Z80` with its fields updated in place, as both crates
 * declare it, and the machine that owns it (`RSSpectrum`). Each accessor is
 * given in both generations: the rz80 one through `HiLo`, the older one
 * through the `upper!`/`lower!` macros. Both are specified by the value-level
 * register file, which shows that they behave identically.
 */
module Cpu {
  import opened Bits
  import opened Registers

  /** `MEM_SIZE`: 16K of ROM and 48K of RAM. */
  const MemSize: int := (16 + 48) * 1024

  class Z80 {
    var af: u16
    var af1: u16
    var bc: u16
    var bc1: u16
    var de: u16
    var de1: u16
    var hl: u16
    var hl1: u16
    var indexX: u16
    var indexY: u16
    var stackPtr: u16
    var interrupt: u8
    var refresh: u8
    var progCounter: u16

    /** The fields as a value. */
    function State(): Regs
      reads this
    {
      Regs(af, af1, bc, bc1, de, de1, hl, hl1, indexX, indexY, stackPtr, interrupt, refresh, progCounter)
    }

    /** `Default::default()`: every field zero. */
    constructor ()
      ensures State() == Regs(0, 0, 0, 0, 0, 0, 0, 0, 0, 0, 0, 0, 0, 0)
    {
      af, af1, bc, bc1, de, de1, hl, hl1 := 0, 0, 0, 0, 0, 0, 0, 0;
      indexX, indexY, stackPtr := 0, 0, 0;
      interrupt, refresh := 0, 0;
      progCounter := 0;
    }

    /** `reg` of the older crate, through `upper!(get ..)` and `lower!(get ..)`; the same value as the rz80 `reg`. */
    function RegMacro(r: Register): (v: u16)
      reads this
      ensures v == State().Reg(r)
    {
      match r
      case A => Upper(af)
      case F => Lower(af)
      case B => Upper(bc)
      case C => Lower(bc)
      case BC => bc
      case D => Upper(de)
      case E => Lower(de)
      case DE => de
      case H => Upper(hl)
      case L => Lower(hl)
      case HL => hl
    }

    /** `set_reg` of the rz80 crate, through `set_hi`/`set_lo` on the pair fields. */
    method SetReg(r: Register, v: u16)
      modifies this
      ensures State() == old(State()).WithReg(r, v)
    {
      match r
      case A => af := SetHi16(af, Truncate8(v));
      case F => af := SetLo16(af, Truncate8(v));
      case B => bc := SetHi16(bc, Truncate8(v));
      case C => bc := SetLo16(bc, Truncate8(v));
      case BC => bc := v;
      case D => de := SetHi16(de, Truncate8(v));
      case E => de := SetLo16(de, Truncate8(v));
      case DE => de := v;
      case H => hl := SetHi16(hl, Truncate8(v));
      case L => hl := SetLo16(hl, Truncate8(v));
      case HL => hl := v;
    }

    /** `set_reg` of the older crate, through `upper!(set ..)`/`lower!(set ..)`: the same new state. */
    method SetRegMacro(r: Register, v: u16)
      modifies this
      ensures State() == old(State()).WithReg(r, v)
    {
      match r
      case A => af := SetUpperMasked(af, v);
      case F => af := SetLowerMasked(af, v);
      case B => bc := SetUpperMasked(bc, v);
      case C => bc := SetLowerMasked(bc, v);
      case BC => bc := v;
      case D => de := SetUpperMasked(de, v);
      case E => de := SetLowerMasked(de, v);
      case DE => de := v;
      case H => hl := SetUpperMasked(hl, v);
      case L => hl := SetLowerMasked(hl, v);
      case HL => hl := v;
    }

    /** `flag` of the older crate, on the widened low byte; the same answer as the rz80 `flag`. */
    function FlagMacro(f: Flag): (b: bool)
      reads this
      ensures b == State().GetFlag(f)
    {
      AndWiden(Lo16(af), Mask(f));
      And16(Lower(af), Mask(f) as u16) != 0
    }

    /** `set_flag` of the rz80 crate. */
    method SetFlag(f: Flag, v: bool)
      modifies this
      ensures State() == old(State()).WithFlag(f, v)
    {
      var mask := Mask(f);
      var prev := Lo16(af);
      af := SetLo16(af, FlagUpdate(prev, mask, v));
    }

    /** `set_flag` of the older crate, computing in 16 bits: the same new state. */
    method SetFlagMacro(f: Flag, v: bool)
      modifies this
      ensures State() == old(State()).WithFlag(f, v)
    {
      var mask := Mask(f) as u16;
      var prev := Lower(af);
      var next := FlagUpdateWide(prev, mask, v);
      FlagByteMacro(af, Mask(f), v);
      af := SetLowerMasked(af, next);
    }

    /**
     * `fetch` (identical in both crates): the memory from the program counter
     * on. Slicing past the end panics, so the counter may not exceed the length.
     */
    function Fetch(mem: seq<u8>): (window: seq<u8>)
      reads this
      requires progCounter as int <= |mem|
      ensures |window| == |mem| - progCounter as int
      ensures forall i :: 0 <= i < |window| ==> window[i] == mem[progCounter as int + i]
    {
      mem[progCounter as int..]
    }
  }

  /** `RSSpectrum`: the CPU and its 64K of memory. */
  class Spectrum {
    var cpu: Z80
    var memory: array<u8>

    /** `RSSpectrum::new`: a zeroed CPU and `MEM_SIZE` zero bytes. */
    constructor ()
      ensures fresh(cpu) && fresh(memory)
      ensures memory.Length == MemSize && forall i :: 0 <= i < memory.Length ==> memory[i] == 0
      ensures cpu.State() == Regs(0, 0, 0, 0, 0, 0, 0, 0, 0, 0, 0, 0, 0, 0)
    {
      cpu := new Z80();
      memory := new u8[MemSize](_ => 0);
    }
  }

  /** The older crate's `lower!(set af => new)` with the 16-bit flag byte stores the rz80 flag byte. */
  lemma FlagByteMacro(af: u16, mask: u8, v: bool)
    ensures SetLowerMasked(af, FlagUpdateWide(Lower(af), mask as u16, v)) == SetLo16(af, FlagUpdate(Lo16(af), mask, v))
  {
    var prev := Lo16(af);
    assert Lower(af) == prev as u16;
    var w := FlagUpdateWide(prev as u16, mask as u16, v);
    FlagUpdateWideAgrees(prev, mask, v);
    assert Truncate8(w) == FlagUpdate(prev, mask, v);
  }

  /** The memory has one byte for every 16-bit address. */
  lemma MemSizeCoversAddresses()
    ensures MemSize == 0x1_0000
  {
  }

  /** The test of `fetch`: from counter 2 of 12 34 56 78 9a the window starts 56 78 9a. */
  method FetchExample()
  {
    var z := new Z80();
    z.progCounter := 2;
    var w := z.Fetch([0x12, 0x34, 0x56, 0x78, 0x9a]);
    assert w == [0x56, 0x78, 0x9a];
  }
}
