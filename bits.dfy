/**
 * Bit slicing of register values.
 *
 * The rz80 crate splits values with the `HiLo` trait: a `u16` into its two
 * bytes and a `u8` into its two nibbles. The older `spectrum` crate does the
 * same job with the `upper!`/`lower!` macros (two generations of them: the
 * crate-level `set_upper!`/`set_lower!` and the `upper!(set x => y)` forms of
 * the CPU module).
 *
 * Each accessor is defined here by its arithmetic meaning (quotient and
 * remainder by 256 or 16); the `...Masks` lemmas prove that the source's own
 * mask-and-shift expressions, computed bit by bit, give the same values.
 */
module Bits {
  import opened Bitwise

  newtype u8 = x: int | 0 <= x < 0x100
  newtype u16 = x: int | 0 <= x < 0x1_0000

  // ---------------------------------------------------------------------
  // The bitwise operators of the two integer types

  function And16(x: u16, y: u16): u16
  {
    PowValues();
    Combine(BitOp.And, x as nat, y as nat, 16) as u16
  }

  function Or16(x: u16, y: u16): u16
  {
    PowValues();
    Combine(BitOp.Or, x as nat, y as nat, 16) as u16
  }

  function Xor16(x: u16, y: u16): u16
  {
    PowValues();
    Combine(BitOp.Xor, x as nat, y as nat, 16) as u16
  }

  /** `!x` on a `u16`: every one of the sixteen bits flipped. */
  function Not16(x: u16): u16
  {
    Xor16(x, 0xffff)
  }

  function And8(x: u8, y: u8): u8
  {
    PowValues();
    Combine(BitOp.And, x as nat, y as nat, 8) as u8
  }

  function Or8(x: u8, y: u8): u8
  {
    PowValues();
    Combine(BitOp.Or, x as nat, y as nat, 8) as u8
  }

  function Xor8(x: u8, y: u8): u8
  {
    PowValues();
    Combine(BitOp.Xor, x as nat, y as nat, 8) as u8
  }

  /** `!x` on a `u8`: every one of the eight bits flipped. */
  function Not8(x: u8): u8
  {
    Xor8(x, 0xff)
  }

  /** `x << 8` on a `u16`: the bits shifted past bit 15 are lost. */
  function Shl16By8(x: u16): u16
  {
    (x as int * 0x100 % 0x1_0000) as u16
  }

  /** `x << 4` on a `u8`: the bits shifted past bit 7 are lost. */
  function Shl8By4(x: u8): u8
  {
    (x as int * 16 % 0x100) as u8
  }

  /** Rust's `v as u8` on a `u16`: the low byte. */
  function Truncate8(v: u16): u8
  {
    (v % 0x100) as u8
  }

  // ---------------------------------------------------------------------
  // HiLo for u16: the two bytes of a register pair

  /** `hi`: the high byte. */
  function Hi16(x: u16): u8
  {
    (x / 0x100) as u8
  }

  /** `lo`: the low byte. */
  function Lo16(x: u16): u8
  {
    (x % 0x100) as u8
  }

  /** `set_hi`: the new value of the place after `x.set_hi(v)`. */
  function SetHi16(x: u16, v: u8): (y: u16)
    ensures Hi16(y) == v && Lo16(y) == Lo16(x)
  {
    (v as int * 0x100 + x as int % 0x100) as u16
  }

  /** `set_lo`: the new value of the place after `x.set_lo(v)`. */
  function SetLo16(x: u16, v: u8): (y: u16)
    ensures Lo16(y) == v && Hi16(y) == Hi16(x)
  {
    (x as int / 0x100 * 0x100 + v as int) as u16
  }

  /**
   * The source's expressions: `hi` is `((x & 0xff00) >> 8) as u8`, `lo` is
   * `(x & 0x00ff) as u8`, `set_hi` stores `(x & 0x00ff) | ((v as u16) << 8)`
   * and `set_lo` stores `(x & 0xff00) | (v as u16)`.
   */
  lemma HiLoMasks(x: u16, v: u8)
    ensures Hi16(x) as int == And16(x, 0xff00) as int / 0x100
    ensures Lo16(x) as int == And16(x, 0x00ff) as int
    ensures SetHi16(x, v) == Or16(And16(x, 0x00ff), Shl16By8(v as u16))
    ensures SetLo16(x, v) == Or16(And16(x, 0xff00), v as u16)
  {
    ByteMasks(x);
    JoinBytes(v as u16, x % 0x100);
    JoinBytes(x / 0x100, v as u16);
  }

  /** A pair is its high byte times 256 plus its low byte, and is determined by them. */
  lemma HiLoDecompose(x: u16)
    ensures x as int == Hi16(x) as int * 0x100 + Lo16(x) as int
    ensures SetLo16(SetHi16(0, Hi16(x)), Lo16(x)) == x
  {
  }

  /** Writing both halves: the order does not matter, and the last write to a half wins. */
  lemma SetHiLoCommute(x: u16, h: u8, l: u8, h2: u8, l2: u8)
    ensures SetHi16(SetLo16(x, l), h) == SetLo16(SetHi16(x, h), l)
    ensures SetHi16(SetHi16(x, h), h2) == SetHi16(x, h2)
    ensures SetLo16(SetLo16(x, l), l2) == SetLo16(x, l2)
  {
  }

  /** Writing a half with its own value changes nothing. */
  lemma SetOwnHalves(x: u16)
    ensures SetHi16(x, Hi16(x)) == x && SetLo16(x, Lo16(x)) == x
  {
  }

  // ---------------------------------------------------------------------
  // HiLo for u8: the two nibbles of a byte

  /** `hi` of a byte: the high nibble. */
  function Hi8(x: u8): u8
  {
    x / 16
  }

  /** `lo` of a byte: the low nibble. */
  function Lo8(x: u8): u8
  {
    x % 16
  }

  /** `set_hi` of a byte: only the low nibble of `v` is stored, in the top nibble. */
  function SetHi8(x: u8, v: u8): (y: u8)
    ensures Hi8(y) == v % 16 && Lo8(y) == Lo8(x)
  {
    (v % 16) * 16 + x % 16
  }

  /** `set_lo` of a byte: the low nibble of `v` replaces the low nibble. */
  function SetLo8(x: u8, v: u8): (y: u8)
    ensures Lo8(y) == v % 16 && Hi8(y) == Hi8(x)
  {
    x / 16 * 16 + v % 16
  }

  /**
   * The source's expressions: `hi` is `(x & 0xf0) >> 4`, `lo` is `x & 0x0f`,
   * `set_hi` stores `(x & 0x0f) | ((v & 0x0f) << 4)` and `set_lo` stores
   * `(x & 0xf0) | (v & 0x0f)`.
   */
  lemma NibbleMasks(x: u8, v: u8)
    ensures Hi8(x) as int == And8(x, 0xf0) as int / 16
    ensures Lo8(x) == And8(x, 0x0f)
    ensures SetHi8(x, v) == Or8(And8(x, 0x0f), Shl8By4(And8(v, 0x0f)))
    ensures SetLo8(x, v) == Or8(And8(x, 0xf0), And8(v, 0x0f))
  {
    NibbleMaskValues(x);
    SetHi8Masks(x, v);
    SetLo8Masks(x, v);
  }

  lemma SetHi8Masks(x: u8, v: u8)
    ensures SetHi8(x, v) == Or8(And8(x, 0x0f), Shl8By4(And8(v, 0x0f)))
  {
    NibbleMaskValues(x);
    NibbleMaskValues(v);
    var hi, lo := And8(v, 0x0f), And8(x, 0x0f);
    assert hi == v % 16 && lo == x % 16;
    JoinNibbles(hi, lo);
  }

  lemma SetLo8Masks(x: u8, v: u8)
    ensures SetLo8(x, v) == Or8(And8(x, 0xf0), And8(v, 0x0f))
  {
    NibbleMaskValues(x);
    NibbleMaskValues(v);
    var hi, lo := x / 16, And8(v, 0x0f);
    assert lo == v % 16;
    JoinNibbles(hi, lo);
    assert And8(x, 0xf0) == Shl8By4(hi);
  }

  lemma SetNibblesCommute(x: u8, h: u8, l: u8, h2: u8, l2: u8)
    ensures SetHi8(SetLo8(x, l), h) == SetLo8(SetHi8(x, h), l)
    ensures SetHi8(SetHi8(x, h), h2) == SetHi8(x, h2)
    ensures SetLo8(SetLo8(x, l), l2) == SetLo8(x, l2)
  {
  }

  /** The examples of the trait's documentation. */
  lemma HiLoExamples()
    ensures Hi8(0x12) == 0x1 && Lo8(0x12) == 0x2
    ensures Hi16(0x1234) == 0x12 && Lo16(0x1234) == 0x34
    ensures SetHi8(0xab, 0x4) == 0x4b
    ensures SetLo16(0xfedc, 0x10) == 0xfe10
  {
  }

  // ---------------------------------------------------------------------
  // The macros of the older crate

  /**
   * `upper!(x)` of the crate root, and `upper!(get x)` of the CPU module,
   * which expand to the same expression `(x & 0xff00) >> 8`: the high byte,
   * still as a `u16`.
   */
  function Upper(x: u16): u16
  {
    x / 0x100
  }

  /** `lower!(x)` / `lower!(get x)`, the expression `x & 0x00ff`: the low byte, still as a `u16`. */
  function Lower(x: u16): u16
  {
    x % 0x100
  }

  /**
   * `set_upper!(x, n)` of the crate root, `(x & 0x00ff) | (n << 8)`: `n` is
   * shifted unmasked, so the bits of `n` above its low byte are shifted out.
   */
  function SetUpper(x: u16, n: u16): (y: u16)
    ensures y == SetHi16(x, Truncate8(n))
  {
    (n as int % 0x100 * 0x100 + x as int % 0x100) as u16
  }

  /** `set_lower!(x, n)` of the crate root, `(x & 0xff00) | n`: `n` is OR-ed in unmasked. */
  function SetLower(x: u16, n: u16): (y: u16)
    ensures n < 0x100 ==> y == SetLo16(x, n as u8)
  {
    PowValues();
    var high := x as int / 0x100 * 0x100;
    if n < 0x100 then
      Join(x as nat / 0x100, n as nat, 8, 16);
      Or16(high as u16, n)
    else
      Or16(high as u16, n)
  }

  /**
   * `upper!(set x => y)` of the CPU module, `(x & 0x00ff) | ((y & 0x00ff) << 8)`.
   * Masking `y` first changes nothing, since the shift drops its high byte
   * anyway: the value is that of `set_upper!` (`MacroMasks` proves both
   * expressions).
   */
  function SetUpperMasked(x: u16, y: u16): (r: u16)
    ensures r == SetHi16(x, Truncate8(y))
  {
    SetUpper(x, y)
  }

  /** `lower!(set x => y)` of the CPU module, `(x & 0xff00) | (y & 0x00ff)`. */
  function SetLowerMasked(x: u16, y: u16): (r: u16)
    ensures r == SetLo16(x, Truncate8(y))
  {
    (x as int / 0x100 * 0x100 + y as int % 0x100) as u16
  }

  /** `y << 8` on a `u16` is the low byte of `y` moved up. */
  lemma Shl16By8Value(y: u16)
    ensures Shl16By8(y) as int == (y as int % 0x100) * 0x100
  {
    var v := y as int;
    DivModUnique(v * 0x100, 0x1_0000, v / 0x100, (v % 0x100) * 0x100);
  }

  /** OR-ing the low byte of `x` with a word whose low byte is clear is adding them. */
  lemma JoinHighByte(x: u16, h: u16)
    requires h as int % 0x100 == 0
    ensures Or16(And16(x, 0x00ff), h) as int == h as int + x as int % 0x100
  {
    ByteMasks(x);
    PowValues();
    Join(h as nat / 0x100, x as nat % 0x100, 8, 16);
  }

  /** The setters of the high byte: `x & 0x00ff` OR-ed with the low byte of `y` shifted left by 8. */
  lemma SetUpperMasks(x: u16, y: u16)
    ensures SetUpper(x, y) == Or16(And16(x, 0x00ff), Shl16By8(y))
    ensures SetUpperMasked(x, y) == Or16(And16(x, 0x00ff), Shl16By8(And16(y, 0x00ff)))
  {
    ByteMasks(y);
    var lo, h := And16(y, 0x00ff), Shl16By8(y);
    assert lo as int == y as int % 0x100 < 0x100;
    assert lo as int % 0x100 == lo as int;
    Shl16By8Value(y);
    Shl16By8Value(lo);
    assert Shl16By8(lo) == h;
    JoinHighByte(x, h);
  }

  /** The setters of the low byte: `x & 0xff00` OR-ed with `y`, masked or not. */
  lemma SetLowerMasks(x: u16, y: u16)
    ensures SetLower(x, y) == Or16(And16(x, 0xff00), y)
    ensures SetLowerMasked(x, y) == Or16(And16(x, 0xff00), And16(y, 0x00ff))
  {
    ByteMasks(x);
    ByteMasks(y);
    PowValues();
    Join(x as nat / 0x100, y as nat % 0x100, 8, 16);
  }

  /** The macros' expressions, computed bit by bit, give the values above. */
  lemma MacroMasks(x: u16, y: u16)
    ensures Upper(x) as int == And16(x, 0xff00) as int / 0x100
    ensures Lower(x) == And16(x, 0x00ff)
    ensures SetUpper(x, y) == Or16(And16(x, 0x00ff), Shl16By8(y))
    ensures SetLower(x, y) == Or16(And16(x, 0xff00), y)
    ensures SetUpperMasked(x, y) == Or16(And16(x, 0x00ff), Shl16By8(And16(y, 0x00ff)))
    ensures SetLowerMasked(x, y) == Or16(And16(x, 0xff00), And16(y, 0x00ff))
  {
    ByteMasks(x);
    SetUpperMasks(x, y);
    SetLowerMasks(x, y);
  }

  /**
   * With `n < 256` (the only way the crate uses them) the crate-level setters
   * replace one byte and keep the other.
   */
  lemma SetUpperLowerKeepOtherByte(x: u16, n: u16)
    requires n < 0x100
    ensures Upper(SetUpper(x, n)) == n && Lower(SetUpper(x, n)) == Lower(x)
    ensures Lower(SetLower(x, n)) == n && Upper(SetLower(x, n)) == Upper(x)
  {
  }

  /** A wider `n` passed to `set_lower!` corrupts the high byte instead: 0xaa00 with 0x1ff gives 0xabff. */
  lemma SetLowerWideCorruptsHighByte()
    ensures SetLower(0xaa00, 0x1ff) == 0xabff
    ensures Upper(SetLower(0xaa00, 0x1ff)) != Upper(0xaa00)
  {
    PowValues();
    assert 0xaa00 == Pow2(9) * 0x55;
    Join(0x55, 0x1ff, 9, 16);
  }

  /** The values asserted by the crate's tests and examples of the macros. */
  lemma MacroExamples()
    ensures Upper(0xabcd) == 0xab && Lower(0xabcd) == 0xcd
    ensures SetUpper(0xabcd, 0x12) == 0x12cd
    ensures SetLower(0xabcd, 0x01) == 0xab01
    ensures Upper(SetUpperMasked(0xabcd, 0xef)) == 0xef
    ensures Lower(SetLowerMasked(0xabcd, 0xef)) == 0xef
  {
  }

  // ---------------------------------------------------------------------
  // The masks of the two integer types in arithmetic terms

  /** `x & 0x00ff` is the low byte and `x & 0xff00` the high byte in place. */
  lemma ByteMasks(x: u16)
    ensures And16(x, 0x00ff) as int == x as int % 0x100
    ensures And16(x, 0xff00) as int == 0x100 * (x as int / 0x100)
  {
    PowValues();
    assert 0x00ff == Pow2(8) - 1 && 0xff00 == Pow2(8) * (Pow2(16 - 8) - 1);
    LowMask(x as nat, 8, 16);
    HighMask(x as nat, 8, 16);
  }

  /** `(hi << 8) | lo` and `lo | (hi << 8)` are `hi * 256 + lo` when both are bytes. */
  lemma JoinBytes(hi: u16, lo: u16)
    requires hi < 0x100 && lo < 0x100
    ensures Or16(Shl16By8(hi), lo) as int == hi as int * 0x100 + lo as int
    ensures Or16(lo, Shl16By8(hi)) as int == hi as int * 0x100 + lo as int
    ensures Shl16By8(hi) == hi * 0x100
  {
    PowValues();
    assert Shl16By8(hi) as int == Pow2(8) * hi as int;
    Join(hi as nat, lo as nat, 8, 16);
  }

  /** `(hi << 4) | lo` and `lo | (hi << 4)` are `hi * 16 + lo` when both are nibbles. */
  lemma JoinNibbles(hi: u8, lo: u8)
    requires hi < 16 && lo < 16
    ensures Or8(Shl8By4(hi), lo) as int == hi as int * 16 + lo as int
    ensures Or8(lo, Shl8By4(hi)) as int == hi as int * 16 + lo as int
    ensures Shl8By4(hi) == hi * 16
  {
    PowValues();
    assert Shl8By4(hi) as int == Pow2(4) * hi as int;
    Join(hi as nat, lo as nat, 4, 8);
  }

  /** `x & 0x0f` is the low nibble and `x & 0xf0` the high nibble in place. */
  lemma NibbleMaskValues(x: u8)
    ensures And8(x, 0x0f) as int == x as int % 16
    ensures And8(x, 0xf0) as int == 16 * (x as int / 16)
  {
    PowValues();
    assert 0x0f == Pow2(4) - 1 && 0xf0 == Pow2(4) * (Pow2(8 - 4) - 1);
    LowMask(x as nat, 4, 8);
    HighMask(x as nat, 4, 8);
  }

  /** `&` on two bytes widened to `u16` is the byte `&`, widened. */
  lemma AndWiden(x: u8, y: u8)
    ensures And16(x as u16, y as u16) as int == And8(x, y) as int
  {
    PowValues();
    CombineWiden(BitOp.And, x as nat, y as nat, 8, 16);
  }
}
