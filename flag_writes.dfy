/**
 * A sequence of `set_flag` calls, as the executors make them one after
 * the other. Because the discriminants are used as masks and the masks of
 * Z and S overlap those of N, PV and H, a later call can overwrite bits
 * an earlier one set: each bit of F ends up with the value of the last
 * call whose mask covers it.
 */
module FlagWrites {
  import opened Bitwise
  import opened Bits
  import opened Registers

  /** `set_flag(f, v)` for each `(f, v)` in order: only F changes, A and every other field are kept. */
  function WithFlags(s: Regs, ws: seq<(Flag, bool)>): (r: Regs)
    ensures r == s.(af := r.af)
    ensures Hi16(r.af) == Hi16(s.af)
    decreases |ws|
  {
    if |ws| == 0 then s else WithFlags(s.WithFlag(ws[0].0, ws[0].1), ws[1..])
  }

  /** Flag writes leave every register other than F as it was. */
  lemma WithFlagsKeepsReg(s: Regs, ws: seq<(Flag, bool)>, q: Register)
    requires q != Register.F
    ensures WithFlags(s, ws).Reg(q) == s.Reg(q)
  {
    var w := WithFlags(s, ws);
    assert w == s.(af := w.af) && Hi16(w.af) == Hi16(s.af);
  }

  /** The value bit `i` of F holds after the writes `ws`, starting from `b`. */
  function LastWrite(ws: seq<(Flag, bool)>, i: nat, b: bool): bool
    decreases |ws|
  {
    if |ws| == 0 then b else LastWrite(ws[1..], i, if MaskHas(ws[0].0, i) then ws[0].1 else b)
  }

  /** `flag(f)` read from the three low bits of F as they stand after the writes. */
  function ReadAfter(s: Regs, ws: seq<(Flag, bool)>, f: Flag): bool
  {
    var x := Lo16(s.af) as nat;
    || (MaskHas(f, 0) && LastWrite(ws, 0, Bit(x, 0)))
    || (MaskHas(f, 1) && LastWrite(ws, 1, Bit(x, 1)))
    || (MaskHas(f, 2) && LastWrite(ws, 2, Bit(x, 2)))
  }

  /** Each bit of F holds the value of the last write that covers it. */
  lemma {:induction false} WithFlagsBits(s: Regs, ws: seq<(Flag, bool)>, i: nat)
    ensures Bit(Lo16(WithFlags(s, ws).af) as nat, i) == LastWrite(ws, i, Bit(Lo16(s.af) as nat, i))
    decreases |ws|
  {
    if |ws| > 0 {
      var t := s.WithFlag(ws[0].0, ws[0].1);
      WithFlagBits(s, ws[0].0, ws[0].1, i);
      WithFlagsBits(t, ws[1..], i);
    }
  }

  /** What `flag(f)` reads after the writes. */
  lemma FlagAfterWrites(s: Regs, ws: seq<(Flag, bool)>, f: Flag)
    ensures WithFlags(s, ws).GetFlag(f) == ReadAfter(s, ws, f)
  {
    FlagReadsBits(WithFlags(s, ws), f);
    WithFlagsBits(s, ws, 0);
    WithFlagsBits(s, ws, 1);
    WithFlagsBits(s, ws, 2);
  }

  /** Bits 3 to 7 of F are covered by no mask, so no sequence of writes changes them. */
  lemma {:induction false} HighFlagBitsKept(ws: seq<(Flag, bool)>, i: nat, b: bool)
    requires i >= 3
    ensures LastWrite(ws, i, b) == b
    decreases |ws|
  {
    if |ws| > 0 {
      HighFlagBitsKept(ws[1..], i, b);
    }
  }

  /** Bits 3 to 7 of F, the part of F above the bits the masks cover, survive any sequence of writes. */
  lemma WithFlagsKeepsHighBits(s: Regs, ws: seq<(Flag, bool)>)
    ensures Lo16(WithFlags(s, ws).af) as int / 8 == Lo16(s.af) as int / 8
  {
    var x := Lo16(WithFlags(s, ws).af) as nat;
    var y := Lo16(s.af) as nat;
    assert Pow2(3) == 8 && Pow2(5) == 32;
    forall j | 0 <= j < 5
      ensures Bit(x / 8, j) == Bit(y / 8, j)
    {
      BitOfDiv(x, 3, j);
      BitOfDiv(y, 3, j);
      WithFlagsBits(s, ws, j + 3);
      HighFlagBitsKept(ws, j + 3, Bit(y, j + 3));
    }
    Extensional(x / 8, y / 8, 5);
  }

  /** The writes read and change only AF: two states that agree on it end with the same AF. */
  lemma {:induction false} WithFlagsReadsOnlyAf(s: Regs, t: Regs, ws: seq<(Flag, bool)>)
    requires s.af == t.af
    ensures WithFlags(s, ws).af == WithFlags(t, ws).af
    decreases |ws|
  {
    if |ws| > 0 {
      WithFlagsReadsOnlyAf(s.WithFlag(ws[0].0, ws[0].1), t.WithFlag(ws[0].0, ws[0].1), ws[1..]);
    }
  }

  /** Once the last writes to bits 0, 1 and 2 are known, `flag(f)` reads the bits its mask covers. */
  lemma ReadingFromBits(s: Regs, ws: seq<(Flag, bool)>, f: Flag, b0: bool, b1: bool, b2: bool)
    requires LastWrite(ws, 0, Bit(Lo16(s.af) as nat, 0)) == b0
    requires LastWrite(ws, 1, Bit(Lo16(s.af) as nat, 1)) == b1
    requires LastWrite(ws, 2, Bit(Lo16(s.af) as nat, 2)) == b2
    ensures WithFlags(s, ws).GetFlag(f) == ((MaskHas(f, 0) && b0) || (MaskHas(f, 1) && b1) || (MaskHas(f, 2) && b2))
  {
    FlagAfterWrites(s, ws, f);
  }

  /** One more `set_flag` call extends the sequence of writes at its end. */
  lemma {:induction false} WithFlagsSnoc(s: Regs, ws: seq<(Flag, bool)>, f: Flag, v: bool)
    ensures WithFlags(s, ws + [(f, v)]) == WithFlags(s, ws).WithFlag(f, v)
    decreases |ws|
  {
    if |ws| == 0 {
      assert ws + [(f, v)] == [(f, v)];
      assert [(f, v)][1..] == [];
    } else {
      assert (ws + [(f, v)])[1..] == ws[1..] + [(f, v)];
      WithFlagsSnoc(s.WithFlag(ws[0].0, ws[0].1), ws[1..], f, v);
    }
  }

  /** A bit that no write covers keeps its value. */
  lemma {:induction false} LastWriteUncovered(ws: seq<(Flag, bool)>, i: nat, b: bool)
    requires forall j :: 0 <= j < |ws| ==> !MaskHas(ws[j].0, i)
    ensures LastWrite(ws, i, b) == b
    decreases |ws|
  {
    if |ws| > 0 {
      assert forall j :: 0 <= j < |ws[1..]| ==> ws[1..][j] == ws[j + 1];
      LastWriteUncovered(ws[1..], i, b);
    }
  }

  /** A bit ends with the value of the last write `ws[k]` that covers it. */
  lemma {:induction false} LastWriteCovered(ws: seq<(Flag, bool)>, i: nat, b: bool, k: nat)
    requires k < |ws| && MaskHas(ws[k].0, i)
    requires forall j :: k < j < |ws| ==> !MaskHas(ws[j].0, i)
    ensures LastWrite(ws, i, b) == ws[k].1
    decreases |ws|
  {
    assert forall j :: 0 <= j < |ws[1..]| ==> ws[1..][j] == ws[j + 1];
    if k == 0 {
      LastWriteUncovered(ws[1..], i, ws[0].1);
    } else {
      LastWriteCovered(ws[1..], i, if MaskHas(ws[0].0, i) then ws[0].1 else b, k - 1);
    }
  }

  /** Writes made in two runs are the writes of the two runs in order. */
  lemma {:induction false} WithFlagsAppend(s: Regs, a: seq<(Flag, bool)>, b: seq<(Flag, bool)>)
    ensures WithFlags(WithFlags(s, a), b) == WithFlags(s, a + b)
    decreases |a|
  {
    if |a| == 0 {
      assert a + b == b;
    } else {
      assert (a + b)[0] == a[0] && (a + b)[1..] == a[1..] + b;
      WithFlagsAppend(s.WithFlag(a[0].0, a[0].1), a[1..], b);
    }
  }
}
