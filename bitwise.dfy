/**
 * Bitwise operators on non-negative integers.
 *
 * The crates compute on `u8` and `u16` with `&`, `|`, `^` and `!`. Here a
 * value is an integer and those operators are defined one bit at a time;
 * `Bit(x, i)` reads bit `i`. The lemmas characterise every operator by the
 * bits it produces, so that two values can be compared bit by bit.
 */
module Bitwise {

  function Pow2(n: nat): (p: nat)
    ensures p >= 1
  {
    if n == 0 then 1 else 2 * Pow2(n - 1)
  }

  /** Bit `i` of `x`, counting from the least significant. */
  function Bit(x: int, i: nat): bool
    decreases i
  {
    if i == 0 then x % 2 == 1 else Bit(x / 2, i - 1)
  }

  /** The three binary operators, applied to one bit. */
  datatype BitOp = And | Or | Xor
  {
    function Apply(a: bool, b: bool): bool
    {
      match this
      case And => a && b
      case Or => a || b
      case Xor => a != b
    }
  }

  /** `x op y` on the low `n` bits: `&`, `|` or `^` of an `n`-bit integer type. */
  function Combine(op: BitOp, x: nat, y: nat, n: nat): (z: nat)
    ensures z < Pow2(n)
  {
    if n == 0 then 0
    else 2 * Combine(op, x / 2, y / 2, n - 1) + (if op.Apply(x % 2 == 1, y % 2 == 1) then 1 else 0)
  }

  /** A value below `2^n` has no bit at position `n` or above. */
  lemma {:induction false} BitOfSmall(x: nat, n: nat, i: nat)
    requires x < Pow2(n) && n <= i
    ensures !Bit(x, i)
  {
    if i > 0 {
      if n == 0 {
        BitOfSmall(x / 2, 0, i - 1);
      } else {
        BitOfSmall(x / 2, n - 1, i - 1);
      }
    }
  }

  /** Each bit of `x op y` is `op` of the two bits, below `n`, and clear from `n` on. */
  lemma {:induction false} BitOfCombine(op: BitOp, x: nat, y: nat, n: nat, i: nat)
    ensures Bit(Combine(op, x, y, n), i) == (i < n && op.Apply(Bit(x, i), Bit(y, i)))
  {
    if n == 0 {
      BitOfSmall(0, 0, i);
    } else {
      var rest := Combine(op, x / 2, y / 2, n - 1);
      var low := if op.Apply(x % 2 == 1, y % 2 == 1) then 1 else 0;
      assert Combine(op, x, y, n) == 2 * rest + low;
      assert (2 * rest + low) / 2 == rest && (2 * rest + low) % 2 == low;
      if i > 0 {
        BitOfCombine(op, x / 2, y / 2, n - 1, i - 1);
      }
    }
  }

  /** Two values below `2^n` with the same `n` low bits are equal. */
  lemma {:induction false} Extensional(x: nat, y: nat, n: nat)
    requires x < Pow2(n) && y < Pow2(n)
    requires forall i :: 0 <= i < n ==> Bit(x, i) == Bit(y, i)
    ensures x == y
  {
    if n > 0 {
      assert Bit(x, 0) == Bit(y, 0);
      forall i | 0 <= i < n - 1
        ensures Bit(x / 2, i) == Bit(y / 2, i)
      {
        assert Bit(x, i + 1) == Bit(y, i + 1);
      }
      Extensional(x / 2, y / 2, n - 1);
    }
  }

  /** A value below `2^n` is non-zero exactly when one of its `n` low bits is set. */
  lemma {:induction false} NonZeroBit(x: nat, n: nat)
    requires x < Pow2(n)
    ensures x != 0 ==> exists i :: 0 <= i < n && Bit(x, i)
    ensures x == 0 ==> forall i :: 0 <= i < n ==> !Bit(x, i)
  {
    if n == 0 {
    } else if x % 2 == 1 {
      var i: nat := 0;
      assert 0 <= i < n && Bit(x, i);
    } else {
      NonZeroBit(x / 2, n - 1);
      if x != 0 {
        var i :| 0 <= i < n - 1 && Bit(x / 2, i);
        var j := i + 1;
        assert 0 <= j < n && Bit(x, j);
      } else {
        forall i | 0 <= i < n
          ensures !Bit(x, i)
        {
          BitOfSmall(0, 0, i);
        }
      }
    }
  }

  /** Quotient and remainder by `d` are the unique `q` and `r` with `x == d * q + r`, `0 <= r < d`. */
  lemma DivModUnique(x: int, d: int, q: int, r: int)
    requires d > 0 && 0 <= r < d && x == d * q + r
    ensures x / d == q && x % d == r
  {
    var k := x / d - q;
    assert d * k == r - x % d;
  }

  /** Dividing by `2 * m` is halving, then dividing by `m`. */
  lemma DivMod2(x: nat, m: nat)
    requires m >= 1
    ensures x / (2 * m) == (x / 2) / m
    ensures x % (2 * m) == 2 * ((x / 2) % m) + x % 2
  {
    var q, r := x / 2, x % 2;
    var a, b := q / m, q % m;
    assert x == (2 * m) * a + (2 * b + r);
    DivModUnique(x, 2 * m, a, 2 * b + r);
  }

  /** Bit `j` of `x / 2^k` (of `x >> k`) is bit `j + k` of `x`. */
  lemma {:induction false} BitOfDiv(x: nat, k: nat, j: nat)
    ensures Bit(x / Pow2(k), j) == Bit(x, j + k)
  {
    if k > 0 {
      DivMod2(x, Pow2(k - 1));
      BitOfDiv(x / 2, k - 1, j);
    }
  }

  /** The remainder by `2^k` keeps exactly the bits below `k`. */
  lemma {:induction false} BitOfMod(x: nat, k: nat, i: nat)
    ensures Bit(x % Pow2(k), i) == (i < k && Bit(x, i))
  {
    if k == 0 {
      BitOfSmall(0, 0, i);
    } else {
      DivMod2(x, Pow2(k - 1));
      var m := (x / 2) % Pow2(k - 1);
      assert x % Pow2(k) == 2 * m + x % 2;
      assert (2 * m + x % 2) / 2 == m && (2 * m + x % 2) % 2 == x % 2;
      if i > 0 {
        BitOfMod(x / 2, k - 1, i - 1);
      }
    }
  }

  /** `2^k * q + r` with `r < 2^k` has the bits of `r` below `k` and the bits of `q` from `k` on. */
  lemma BitOfConcat(q: nat, r: nat, k: nat, i: nat)
    requires r < Pow2(k)
    ensures Bit(Pow2(k) * q + r, i) == if i < k then Bit(r, i) else Bit(q, i - k)
  {
    var x := Pow2(k) * q + r;
    DivModUnique(x, Pow2(k), q, r);
    if i < k {
      BitOfMod(x, k, i);
    } else {
      BitOfDiv(x, k, i - k);
    }
  }

  /** `2^k - 1`, the mask of the `k` low bits. */
  lemma {:induction false} BitOfLowOnes(k: nat, i: nat)
    ensures Bit(Pow2(k) - 1, i) == (i < k)
  {
    if k == 0 {
      BitOfSmall(0, 0, i);
    } else if i > 0 {
      assert (Pow2(k) - 1) / 2 == Pow2(k - 1) - 1;
      BitOfLowOnes(k - 1, i - 1);
    }
  }

  /** `2^k * (2^m - 1)`, the mask of the `m` bits from bit `k` on. */
  lemma BitOfHighOnes(m: nat, k: nat, i: nat)
    ensures Bit(Pow2(k) * (Pow2(m) - 1), i) == (k <= i < k + m)
  {
    BitOfConcat(Pow2(m) - 1, 0, k, i);
    if i < k {
      BitOfSmall(0, 0, i);
    } else {
      BitOfLowOnes(m, i - k);
    }
  }

  /** `2^n` grows with `n`. */
  lemma {:induction false} Pow2Monotone(n: nat, m: nat)
    requires n <= m
    ensures Pow2(n) <= Pow2(m)
  {
    if n < m {
      Pow2Monotone(n, m - 1);
    }
  }

  /** On values below `2^n`, an operator computed on `m >= n` bits gives the `n`-bit result. */
  lemma CombineWiden(op: BitOp, x: nat, y: nat, n: nat, m: nat)
    requires x < Pow2(n) && y < Pow2(n) && n <= m
    ensures Combine(op, x, y, m) == Combine(op, x, y, n)
  {
    var a, b := Combine(op, x, y, m), Combine(op, x, y, n);
    forall i | 0 <= i < m
      ensures Bit(a, i) == Bit(b, i)
    {
      BitOfCombine(op, x, y, m, i);
      BitOfCombine(op, x, y, n, i);
      if i >= n {
        BitOfSmall(x, n, i);
        BitOfSmall(y, n, i);
      }
    }
    Pow2Monotone(n, m);
    Extensional(a, b, m);
  }

  // ---------------------------------------------------------------------
  // Masks and shifts in arithmetic terms

  /** The powers of two the crates' masks and shifts use. */
  lemma PowValues()
    ensures Pow2(4) == 16 && Pow2(8) == 0x100 && Pow2(16) == 0x1_0000
  {
  }

  /** The remainder and `d` times the quotient both lie between 0 and `x`. */
  lemma DivModBounds(x: nat, d: nat)
    requires d >= 1
    ensures x / d >= 0 && d * (x / d) == x - x % d
    ensures 0 <= x % d <= x && 0 <= d * (x / d) <= x
  {
    var q := x / d;
    assert d * q >= 0;
  }

  /** `x & (2^k - 1)` keeps the `k` low bits: the remainder by `2^k`. */
  lemma LowMask(x: nat, k: nat, n: nat)
    requires x < Pow2(n) && k <= n
    ensures Combine(BitOp.And, x, Pow2(k) - 1, n) == x % Pow2(k)
  {
    var a, b := Combine(BitOp.And, x, Pow2(k) - 1, n), x % Pow2(k);
    forall i | 0 <= i < n
      ensures Bit(a, i) == Bit(b, i)
    {
      BitOfCombine(BitOp.And, x, Pow2(k) - 1, n, i);
      BitOfLowOnes(k, i);
      BitOfMod(x, k, i);
    }
    DivModBounds(x, Pow2(k));
    Extensional(a, b, n);
  }

  /** Shifting left by `k` moves bit `i - k` to bit `i` and clears the `k` low bits. */
  lemma BitOfShifted(q: nat, k: nat, i: nat)
    ensures Bit(Pow2(k) * q, i) == (k <= i && Bit(q, i - k))
  {
    BitOfConcat(q, 0, k, i);
    if i < k {
      BitOfSmall(0, 0, i);
    }
  }

  /** `x & (2^n - 2^k)` clears the `k` low bits: `2^k` times the quotient by `2^k`. */
  lemma HighMask(x: nat, k: nat, n: nat)
    requires x < Pow2(n) && k <= n
    ensures Combine(BitOp.And, x, Pow2(k) * (Pow2(n - k) - 1), n) == Pow2(k) * (x / Pow2(k))
  {
    var mask := Pow2(k) * (Pow2(n - k) - 1);
    var a, b := Combine(BitOp.And, x, mask, n), Pow2(k) * (x / Pow2(k));
    forall i | 0 <= i < n
      ensures Bit(a, i) == Bit(b, i)
    {
      HighMaskBit(x, k, n, i);
    }
    DivModBounds(x, Pow2(k));
    Extensional(a, b, n);
  }

  lemma HighMaskBit(x: nat, k: nat, n: nat, i: nat)
    requires k <= n && i < n
    ensures Bit(Combine(BitOp.And, x, Pow2(k) * (Pow2(n - k) - 1), n), i) == Bit(Pow2(k) * (x / Pow2(k)), i)
  {
    DivModBounds(x, Pow2(k));
    var q := x / Pow2(k);
    BitOfCombine(BitOp.And, x, Pow2(k) * (Pow2(n - k) - 1), n, i);
    BitOfHighOnes(n - k, k, i);
    BitOfShifted(q, k, i);
    if k <= i {
      var j := i - k;
      BitOfDiv(x, k, j);
      assert j + k == i;
    }
  }

  /** OR-ing a value shifted left by `k` with a value below `2^k` is adding them. */
  lemma Join(hi: nat, lo: nat, k: nat, n: nat)
    requires lo < Pow2(k) && Pow2(k) * hi + lo < Pow2(n)
    ensures Combine(BitOp.Or, Pow2(k) * hi, lo, n) == Pow2(k) * hi + lo
    ensures Combine(BitOp.Or, lo, Pow2(k) * hi, n) == Pow2(k) * hi + lo
  {
    JoinHighFirst(hi, lo, k, n);
    JoinLowFirst(hi, lo, k, n);
  }

  lemma JoinHighFirst(hi: nat, lo: nat, k: nat, n: nat)
    requires lo < Pow2(k) && Pow2(k) * hi + lo < Pow2(n)
    ensures Combine(BitOp.Or, Pow2(k) * hi, lo, n) == Pow2(k) * hi + lo
  {
    var a, c := Combine(BitOp.Or, Pow2(k) * hi, lo, n), Pow2(k) * hi + lo;
    forall i | 0 <= i < n
      ensures Bit(a, i) == Bit(c, i)
    {
      JoinBit(hi, lo, k, n, i);
    }
    Extensional(a, c, n);
  }

  lemma JoinLowFirst(hi: nat, lo: nat, k: nat, n: nat)
    requires lo < Pow2(k) && Pow2(k) * hi + lo < Pow2(n)
    ensures Combine(BitOp.Or, lo, Pow2(k) * hi, n) == Pow2(k) * hi + lo
  {
    var b, c := Combine(BitOp.Or, lo, Pow2(k) * hi, n), Pow2(k) * hi + lo;
    forall i | 0 <= i < n
      ensures Bit(b, i) == Bit(c, i)
    {
      JoinBit(hi, lo, k, n, i);
    }
    Extensional(b, c, n);
  }

  lemma JoinBit(hi: nat, lo: nat, k: nat, n: nat, i: nat)
    requires lo < Pow2(k) && i < n
    ensures Bit(Combine(BitOp.Or, Pow2(k) * hi, lo, n), i) == Bit(Pow2(k) * hi + lo, i)
    ensures Bit(Combine(BitOp.Or, lo, Pow2(k) * hi, n), i) == Bit(Pow2(k) * hi + lo, i)
  {
    var shifted := Pow2(k) * hi;
    BitOfCombine(BitOp.Or, shifted, lo, n, i);
    BitOfCombine(BitOp.Or, lo, shifted, n, i);
    BitOfShifted(hi, k, i);
    BitOfConcat(hi, lo, k, i);
    if k <= i {
      BitOfSmall(lo, k, i);
    }
  }
}
