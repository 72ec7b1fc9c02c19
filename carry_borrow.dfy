/**
 * The `AddCarry` and `SubBorrow` traits of the rz80 crate, implemented for
 * bytes: an addition that reports the carries out of bits 3 and 7, and a
 * subtraction that reports the borrow into bit 4.
 */
module CarryBorrow {
  import opened Bits
  import Alu

  /**
   * `u8::add_carry`: the sum is computed in 16 bits and its low byte kept
   * (`(hi_sum & 0xff) as u8`, the `u16`'s `lo()`).
   */
  function AddCarry(a: u8, b: u8): (r: (u8, bool, bool))
    ensures r.0 as int == (a as int + b as int) % 0x100
    ensures r.1 <==> Lo8(a) as int + Lo8(b) as int > 0x0f
    ensures r.2 <==> a as int + b as int > 0xff
  {
    var loSum := Lo8(a) as int + Lo8(b) as int;
    var carry3 := loSum > 0x0f;
    var hiSum := a as u16 + b as u16;
    var carry7 := hiSum > 0xff;
    (Lo16(hiSum), carry3, carry7)
  }

  /**
   * `u8::sub_borrow`. `self - rhs` is a plain `u8` subtraction, which panics
   * on underflow, so the subtrahend may not exceed the minuend.
   */
  function SubBorrow(a: u8, b: u8): (r: (u8, bool))
    requires b <= a
    ensures r.0 as int + b as int == a as int
    ensures r.1 <==> Lo8(a) < Lo8(b)
  {
    var lo1 := Lo8(a);
    var lo2 := Lo8(b);
    (a - b, lo1 < lo2)
  }

  /** `add_carry` and `ALU::add` compute the same sum and the same two carries. */
  lemma AddCarryAgreesWithAlu(a: u8, b: u8)
    ensures AddCarry(a, b).0 == Alu.Add(a, b).sum
    ensures AddCarry(a, b).1 == Alu.Add(a, b).carry3
    ensures AddCarry(a, b).2 == Alu.Add(a, b).carry7
  {
  }

  /** `sub_borrow` and `ALU::sub` agree wherever `sub_borrow` is defined, and `ALU::sub` does not borrow there. */
  lemma SubBorrowAgreesWithAlu(a: u8, b: u8)
    requires b <= a
    ensures SubBorrow(a, b).0 == Alu.Sub(a, b).diff
    ensures SubBorrow(a, b).1 == Alu.Sub(a, b).halfBorrow
    ensures !Alu.Sub(a, b).borrow
  {
  }

  /** The examples of the traits' documentation. */
  lemma CarryBorrowExamples()
    ensures AddCarry(0x1f, 0x21) == (0x40, true, false)
    ensures SubBorrow(0x17, 0x08) == (0x0f, true)
  {
  }
}
