/**
 * The arithmetic primitives of the rz80 crate: `ALU::add`, `ALU::increment`
 * and `ALU::sub` on bytes, with the carries out of bit 3 and bit 7.
 */
module Alu {
  import opened Bits

  /** `ALUAdd`: the sum, the carry out of bit 3, the carry out of bit 7, and `overflow`. */
  datatype AluAdd = AluAdd(sum: u8, carry3: bool, carry7: bool, overflow: bool)

  /** `ALUSub`: the difference, the borrow into bit 4 ("half borrow") and the borrow out of bit 7. */
  datatype AluSub = AluSub(diff: u8, halfBorrow: bool, borrow: bool)

  /** `u8::overflowing_add`: the wrapped sum and whether it wrapped. */
  function OverflowingAdd(a: u8, b: u8): (u8, bool)
  {
    (((a as int + b as int) % 0x100) as u8, a as int + b as int > 0xff)
  }

  /** `u8::overflowing_sub`: the wrapped difference and whether it wrapped. */
  function OverflowingSub(a: u8, b: u8): (u8, bool)
  {
    (((a as int - b as int) % 0x100) as u8, a < b)
  }

  /**
   * `ALU::add`. The half carry compares the sum of the low nibbles (`x & 0x0f`,
   * the byte's `lo()`) with 0x0f; the bit-7 carry is the flag of
   * `overflowing_add`, and the same flag is stored as `overflow`.
   * A carry left bit 3 exactly when the low nibble of the sum is below that
   * of `lhs`, and bit 7 exactly when the sum is below `lhs`.
   */
  function Add(lhs: u8, rhs: u8): (r: AluAdd)
    ensures r.sum as int == (lhs as int + rhs as int) % 0x100
    ensures r.carry3 <==> Lo8(r.sum) < Lo8(lhs)
    ensures r.carry7 <==> r.sum < lhs
    ensures r.carry7 <==> lhs as int + rhs as int > 0xff
    ensures r.overflow == r.carry7
  {
    var loSum := Lo8(lhs) as int + Lo8(rhs) as int;
    var carry3 := loSum > 0x0f;
    var (sum, overflow) := OverflowingAdd(lhs, rhs);
    AluAdd(sum, carry3, overflow, overflow)
  }

  /** `ALU::increment`: adding one. The half carry is a low nibble of 0xf, the carry a byte of 0xff. */
  function Increment(lhs: u8): (r: AluAdd)
    ensures r.sum as int == (lhs as int + 1) % 0x100
    ensures r.carry3 <==> Lo8(lhs) == 0xf
    ensures r.carry7 <==> lhs == 0xff
    ensures r.overflow == r.carry7
  {
    Add(lhs, 1)
  }

  /** `ALU::sub`. The borrow is the flag of `overflowing_sub`. */
  function Sub(lhs: u8, rhs: u8): (r: AluSub)
    ensures (r.diff as int + rhs as int) % 0x100 == lhs as int
    ensures r.halfBorrow <==> Lo8(lhs) < Lo8(rhs)
    ensures r.borrow <==> lhs < rhs
    ensures !r.borrow ==> r.diff as int == lhs as int - rhs as int
  {
    var lo1 := Lo8(lhs);
    var lo2 := Lo8(rhs);
    var (diff, overflow) := OverflowingSub(lhs, rhs);
    AluSub(diff, lo1 < lo2, overflow)
  }

  /**
   * Subtraction undoes addition, and subtracting the addend again borrows
   * exactly when the addition carried out of bit 7.
   */
  lemma SubUndoesAdd(l: u8, r: u8)
    ensures Sub(Add(l, r).sum, r).diff == l
    ensures Sub(Add(l, r).sum, r).borrow == Add(l, r).carry7
  {
  }

  /** The examples of the documentation of `add` and `increment`. */
  lemma AddExamples()
    ensures Add(2, 3) == AluAdd(5, false, false, false)
    ensures Add(0x0f, 2) == AluAdd(0x11, true, false, false)
    ensures Add(0xf0, 0xff) == AluAdd(0xef, false, true, true)
    ensures Add(0xff, 0xff) == AluAdd(0xfe, true, true, true)
    ensures Increment(1) == AluAdd(2, false, false, false)
    ensures Increment(0x0f) == AluAdd(0x10, true, false, false)
    ensures Increment(0xff) == AluAdd(0, true, true, true)
  {
  }
}
