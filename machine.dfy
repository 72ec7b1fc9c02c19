/** The state an instruction acts on: the register file and the memory. */
module MachineState {
  import opened Bits
  import opened Registers

  datatype Machine = Machine(regs: Regs, mem: seq<u8>)

  /**
   * `base as i32 + d as i32`, used as an index: the older handlers add the
   * displacement without wrapping, so a sum outside the memory panics.
   */
  function Offset(base: u16, d: int): int
  {
    base as int + d
  }

  /**
   * A 16-bit value plus a signed displacement, wrapped to 16 bits: what
   * `u16::overflowing_add_signed` keeps, and what an `i32` sum cast back
   * with `as u16` keeps.
   */
  function WrapAdd(base: u16, d: int): u16
  {
    ((base as int + d) % 0x10000) as u16
  }

  /** The wrapped sum is the plain sum when that fits, and otherwise goes once around the address space. */
  lemma WrapAddWraps(base: u16, d: int)
    requires -0x10000 < d < 0x10000
    ensures 0 <= base as int + d < 0x10000 ==> WrapAdd(base, d) as int == base as int + d
    ensures base as int + d >= 0x10000 ==> WrapAdd(base, d) as int == base as int + d - 0x10000
    ensures base as int + d < 0 ==> WrapAdd(base, d) as int == base as int + d + 0x10000
  {
  }
}
