/** codec/aacdecode/dequant.c: the magnitude of a dequantized sample. Its tables and its polynomial are
    the source's; what is proved is that every intermediate value stays in a word and that the result
    is never negative and clipped to 31 bits. How close it is to a power of 4/3 is in DequantLaw. */
module Power43 {
  import opened Fixed

  const SF_OFFSET := 100
  const FBITS_OUT_DQ_OFF := 5
  const SQRTHALF := 0x5a82799a

  /** pow43_14 */
  function Pow4314(r: nat, j: nat): (y: nat)
    ensures y <= INT_MAX
  {
    match r
    case 0 => Pick(j, 0x0, 0x10000000, 0x285145f3, 0x453a5cdb, 0xcb2ff53, 0x111989d6, 0x15ce31c8, 0x1ac7f203,
                    0x20000000, 0x257106b9, 0x2b16b4a3, 0x30ed74b4, 0x36f23fa5, 0x3d227bd3, 0x437be656, 0x49fc823c)
    case 1 => Pick(j, 0x0, 0x1306fe0a, 0x2ff221af, 0x52538f52, 0xf1a1bf4, 0x1455ccc2, 0x19ee62a8, 0x1fd92396,
                    0x260dfc14, 0x2c8694d8, 0x333dcb29, 0x3a2f5c7a, 0x4157aed5, 0x48b3aaa3, 0x50409f76, 0x57fc3010)
    case 2 => Pick(j, 0x0, 0x16a09e66, 0x39047c0f, 0x61e734aa, 0x11f59ac4, 0x182ec633, 0x1ed66a45, 0x25dfc55a,
                    0x2d413ccd, 0x34f3462d, 0x3cefc603, 0x4531ab69, 0x4db4adf8, 0x56752054, 0x5f6fcfcd, 0x68a1eca1)
    case _ => Pick(j, 0x0, 0x1ae89f99, 0x43ce3e4b, 0x746d57b2, 0x155b8109, 0x1cc21cdc, 0x24ac1839, 0x2d0a479e,
                    0x35d13f33, 0x3ef80748, 0x48775c93, 0x524938cd, 0x5c68841d, 0x66d0df0a, 0x717e7bfe, 0x7c6e0305)
  }

  /** pow43, from 16 on */
  function Pow43(i: nat): int
  {
    match i / 16
    case 0 => Pick(i % 16, 0x1428a2fa, 0x15db1bd6, 0x1796302c, 0x19598d85, 0x1b24e8bb, 0x1cf7fcfa, 0x1ed28af2, 0x20b4582a,
                         0x229d2e6e, 0x248cdb55, 0x26832fda, 0x28800000, 0x2a832287, 0x2c8c70a8, 0x2e9bc5d8, 0x30b0ff99)
    case 1 => Pick(i % 16, 0x32cbfd4a, 0x34eca001, 0x3712ca62, 0x393e6088, 0x3b6f47e0, 0x3da56717, 0x3fe0a5fc, 0x4220ed72,
                         0x44662758, 0x46b03e7c, 0x48ff1e87, 0x4b52b3f3, 0x4daaebfd, 0x5007b497, 0x5268fc62, 0x54ceb29c)
    case _ => Pick(i % 16, 0x5738c721, 0x59a72a59, 0x5c19cd35, 0x5e90a129, 0x610b9821, 0x638aa47f, 0x660db90f, 0x6894c90b,
                         0x6b1fc80c, 0x6daeaa0d, 0x70416360, 0x72d7e8b0, 0x75722ef9, 0x78102b85, 0x7ab1d3ec, 0x7d571e09)
  }

  function Pow14(r: nat): int { Pick(r, 0x40000000, 0x4c1bf829, 0x5a82799a, 0x6ba27e65) }
  function Pow2Exp(i: nat): int { Pick(i, 14, 13, 11, 10, 9, 7, 6, 5) }
  function Pow2Frac(i: nat): int
  {
    Pick(i, 0x6597fa94, 0x50a28be6, 0x7fffffff, 0x6597fa94, 0x50a28be6, 0x7fffffff, 0x6597fa94, 0x50a28be6)
  }

  /** poly43lo and poly43hi */
  function Coef(lo: bool, i: nat): int
  {
    if lo then Pick(i, 0x29a0bda9, 0xb02e4828 - TWO32, 0x5957aa1b, 0x236c498d, 0xff581859 - TWO32)
    else Pick(i, 0x10852163, 0xd333f6a4 - TWO32, 0x46e9408b, 0x27c2cef0, 0xfef577b4 - TWO32)
  }

  lemma Tables(r: nat, i: nat)
    ensures 0 <= Pow4314(r, i) <= INT_MAX && 0 <= Pow43(i) <= INT_MAX && 0 <= Pow14(r) <= 0x6ba27e65
    ensures 0 <= Pow2Exp(i) <= 14 && 0 <= Pow2Frac(i) <= 0x7fffffff
    ensures i != 2 && i != 5 ==> Pow2Frac(i) <= 0x6597fa94
  {
  }

  // ---- the polynomial, for 64 and more ----

  /** The value moved up until bit 30 is its highest, and how far beyond 17 places. */
  function Normalized(x: nat): (nat, nat)
  {
    var x0 := x * 0x2_0000;
    var (x1, s1) := if x0 < 0x800_0000 then (x0 * 16, 4) else (x0, 0);
    var (x2, s2) := if x1 < 0x2000_0000 then (x1 * 4, s1 + 2) else (x1, s1);
    if x2 < 0x4000_0000 then (x2 * 2, s2 + 1) else (x2, s2)
  }

  lemma NormalizedRange(x: nat)
    requires 64 <= x <= 16383
    ensures var (m, shift) := Normalized(x);
      0x4000_0000 <= m <= INT_MAX && shift <= 7 && (shift == 2 || shift == 5 ==> m <= 4095 * 0x8_0000)
  {
  }

  function Horner(x: int, lo: bool): int
  {
    MulShift32(MulShift32(MulShift32(MulShift32(Coef(lo, 0), x) + Coef(lo, 1), x) + Coef(lo, 2), x) + Coef(lo, 3), x) + Coef(lo, 4)
  }

  /** Every sum of the evaluation is a word. */
  predicate InWords(x: int, lo: bool)
  {
    var y1 := MulShift32(Coef(lo, 0), x) + Coef(lo, 1);
    var y2 := MulShift32(y1, x) + Coef(lo, 2);
    var y3 := MulShift32(y2, x) + Coef(lo, 3);
    IsInt32(y1) && IsInt32(y2) && IsInt32(y3) && IsInt32(Horner(x, lo))
  }

  lemma MulRange(y: int, x: nat, a: nat, b: nat, lo: nat, hi: nat)
    requires a <= y <= b && lo <= x <= hi
    ensures (a * lo) / TWO32 <= MulShift32(y, x) <= (b * hi) / TWO32
  {
    ScaledUp(a, lo, y, x);
    ScaledUp(y, x, b, hi);
  }

  lemma MulRangeBelow(y: int, x: nat, a: nat, b: nat, lo: nat, hi: nat)
    requires a <= -y <= b && lo <= x <= hi
    ensures -(b * hi) / TWO32 <= MulShift32(y, x) <= -(a * lo) / TWO32
  {
    ScaledUp(a, lo, -y, x);
    ScaledUp(-y, x, b, hi);
    assert y * x == -((-y) * x);
  }

  /** Below the square root of a half. */
  lemma HornerLow(x: nat)
    requires 0x4000_0000 <= x <= SQRTHALF
    ensures 200_000_000 <= Horner(x, true) <= 360_000_000 && InWords(x, true)
  {
    hide MulShift32;
    var y1 := MulShift32(Coef(true, 0), x) + Coef(true, 1);
    MulRange(Coef(true, 0), x, 0x29a0bda9, 0x29a0bda9, 0x4000_0000, SQRTHALF);
    var y2 := MulShift32(y1, x) + Coef(true, 2);
    MulRangeBelow(y1, x, 1_090_000_000, 1_170_000_000, 0x4000_0000, SQRTHALF);
    var y3 := MulShift32(y2, x) + Coef(true, 3);
    MulRange(y2, x, 1_080_000_000, 1_230_000_000, 0x4000_0000, SQRTHALF);
    MulRange(y3, x, 860_000_000, 1_030_000_000, 0x4000_0000, SQRTHALF);
  }

  /** Above it: below 2^29 as long as x is short of 2^31 by 2^19, which the last step needs. */
  lemma HornerHigh(x: nat)
    requires SQRTHALF <= x <= INT_MAX
    ensures 200_000_000 <= Horner(x, false) <= 560_000_000 && InWords(x, false) && (x <= 4095 * 0x8_0000 ==> Horner(x, false) <= 0x2000_0000)
  {
    hide MulShift32;
    var y1 := MulShift32(Coef(false, 0), x) + Coef(false, 1);
    MulRange(Coef(false, 0), x, 0x10852163, 0x10852163, SQRTHALF, INT_MAX);
    var y2 := MulShift32(y1, x) + Coef(false, 2);
    MulRangeBelow(y1, x, 612_000_000, 654_000_000, SQRTHALF, INT_MAX);
    var y3 := MulShift32(y2, x) + Coef(false, 3);
    MulRange(y2, x, 862_000_000, 974_000_000, SQRTHALF, INT_MAX);
    MulRange(y3, x, 971_000_000, 1_155_000_000, SQRTHALF, INT_MAX);
    Near(Coef(false, 0), x);
    Near(y1, x);
    Near(y2, x);
    Near(y3, x);
    var u: nat := 0x8000_0000 - x;
    ScaledUp(-y1, u, 654_000_000, u);
    ScaledUp(862_000_000, u, y2, u);
    ScaledUp(971_000_000, u, y3, u);
    assert (-y1) * u == -(y1 * u);
  }

  /** A product near half its first factor. */
  lemma Near(y: int, x: nat)
    ensures TWO32 * MulShift32(y, x) <= y * 0x8000_0000 - y * (0x8000_0000 - x) < TWO32 * MulShift32(y, x) + TWO32
  {
    assert y * x == y * 0x8000_0000 - y * (0x8000_0000 - x);
  }

  /** The polynomial with its power-of-two factor, in a word before and after the shift by 3. */
  function Power(x: nat): int
  {
    var (m, shift) := Normalized(x);
    MulShift32(Horner(m, m < SQRTHALF), Pow2Frac(shift)) * 8
  }

  lemma PowerFits(x: nat)
    requires 64 <= x <= 16383
    ensures 0 <= Power(x) <= INT_MAX && var m := Normalized(x).0; InWords(m, m < SQRTHALF)
  {
    hide Horner, InWords, Pow2Frac, MulShift32, Normalized;
    var (m, shift) := Normalized(x);
    NormalizedRange(x);
    Tables(0, shift);
    if m < SQRTHALF { HornerLow(m); } else { HornerHigh(m); }
    var y, f: nat := Horner(m, m < SQRTHALF), Pow2Frac(shift);
    if shift == 2 || shift == 5 {
      MulRange(y, f, 0, 0x2000_0000, 0, 0x7fff_ffff);
    } else {
      MulRange(y, f, 0, 560_000_000, 0, 0x6597_fa94);
    }
  }

  // ---- the magnitude ----

  function Least(a: int, b: int): int { if a <= b then a else b }

  /** The integer scale: a shift of at most 31 places, clipped when it is to the left. */
  function Scaled(y: nat, shift: int): nat
  {
    if shift <= 0 then
      var s: nat := Least(-shift, 31);
      if y > Down(INT_MAX, s) then INT_MAX else Up(y, s)
    else Down(y, Least(shift, 31))
  }

  lemma {:induction false} UpFits(y: nat, n: nat, most: nat)
    requires y <= Down(most, n)
    ensures Up(y, n) <= most
    decreases n
  {
    if n > 0 {
      DownHalf(most, n - 1);
      UpFits(2 * y, n - 1, most);
      DoubleUp(y, n - 1);
    }
  }

  lemma {:induction false} DoubleUp(y: nat, n: nat)
    ensures Up(2 * y, n) == 2 * Up(y, n)
  {
    if n > 0 { DoubleUp(y, n - 1); }
  }

  lemma {:induction false} DownSmaller(y: nat, n: nat)
    ensures Down(y, n) <= y
  {
    if n > 0 { DownSmaller(y / 2, n - 1); }
  }

  lemma ScaledFits(y: nat, shift: int)
    requires y <= INT_MAX
    ensures Scaled(y, shift) <= INT_MAX
  {
    if shift <= 0 {
      var s: nat := Least(-shift, 31);
      if y <= Down(INT_MAX, s) { UpFits(y, s, INT_MAX); }
    } else {
      DownSmaller(y, Least(shift, 31));
    }
  }

  /** A word moved down by its whole width. */
  lemma {:induction false} DownAway(y: nat, n: nat)
    requires y < Pow2(n)
    ensures Down(y, n) == 0
  {
    if n > 0 { DownAway(y / 2, n - 1); }
  }

  /** The unscaled magnitude and the shift it is still to be moved right. */
  function Unscaled(x: nat, r: nat, scalei: int): (int, int)
  {
    if x < 4 then (Pow4314(r, x), 28 - scalei)
    else if x < 16 then (Pow4314(r, x), 25 - scalei)
    else if x < 64 then (MulShift32(Pow43(x - 16), Pow14(r)), 21 - scalei)
    else (MulShift32(Power(x), Pow14(r)), 24 - scalei - Pow2Exp(Normalized(x).1))
  }

  lemma UnscaledFits(x: nat, r: nat, scalei: int)
    requires x <= 16383
    ensures 0 <= Unscaled(x, r, scalei).0 <= INT_MAX
  {
    hide Pow4314, Pow43, Pow14, Power, Normalized, Pow2Exp, MulShift32;
    Tables(r, x);
    if 16 <= x {
      Tables(r, x - 16);
      if x >= 64 { PowerFits(x); }
      var y, f: nat := if x < 64 then Pow43(x - 16) else Power(x), Pow14(r);
      MulRange(y, f, 0, INT_MAX, 0, 0x6ba2_7e65);
    }
  }

  /** The clipped magnitude of a quantized x at a scalefactor. No coefficient is above 8191, and four pulses
      of at most 15 each on one of them do not raise it above 16383. */
  function Magnitude(x: nat, scale: int): (y: nat)
    ensures y <= INT_MAX
  {
    if x > 16383 then 0
    else
      var r, scalei := (scale - SF_OFFSET) % 4, (scale - SF_OFFSET) / 4 + FBITS_OUT_DQ_OFF;
      UnscaledFits(x, r, scalei);
      var (y, shift) := Unscaled(x, r, scalei);
      ScaledFits(y, shift);
      Scaled(y, shift)
  }

  // ---- what it means ----

  /** Silence stays silence. */
  lemma ZeroStays(scale: int)
    ensures Magnitude(0, scale) == 0
  {
    hide Scaled;
    var r, shift := (scale - SF_OFFSET) % 4, 28 - ((scale - SF_OFFSET) / 4 + FBITS_OUT_DQ_OFF);
    ScaledZero(shift);
  }

  lemma ScaledZero(shift: int)
    ensures Scaled(0, shift) == 0
  {
    UpZero(if shift > 0 then Least(shift, 31) else Least(-shift, 31));
  }

  /** Four steps of the scalefactor are one power of two, until the larger magnitude is clipped. */
  lemma FourSteps(x: nat, scale: int)
    requires x <= 16383 && Magnitude(x, scale + 4) < INT_MAX
    ensures Magnitude(x, scale) == Magnitude(x, scale + 4) / 2
  {
    hide Scaled, Pow4314, Pow43, Pow14, Power, Normalized, Pow2Exp, MulShift32;
    var r, scalei := (scale - SF_OFFSET) % 4, (scale - SF_OFFSET) / 4 + FBITS_OUT_DQ_OFF;
    assert (scale + 4 - SF_OFFSET) % 4 == r && (scale + 4 - SF_OFFSET) / 4 + FBITS_OUT_DQ_OFF == scalei + 1;
    UnscaledFits(x, r, scalei);
    UnscaledFits(x, r, scalei + 1);
    assert Unscaled(x, r, scalei + 1) == (Unscaled(x, r, scalei).0, Unscaled(x, r, scalei).1 - 1);
    OnePlace(Unscaled(x, r, scalei).0, Unscaled(x, r, scalei).1);
  }

  lemma OnePlace(y: nat, shift: int)
    requires y <= INT_MAX && Scaled(y, shift - 1) < INT_MAX
    ensures Scaled(y, shift) == Scaled(y, shift - 1) / 2
  {
    if shift > 31 {
      ScaledAway(y, shift);
      if shift == 32 {
        ScaledAway(y, 32);
        AwayAt31(y);
      } else {
        ScaledAway(y, shift - 1);
      }
    } else if shift > 1 {
      DownHalf(y, shift - 1);
    } else if shift == 1 {
      DownHalf(y, 0);
    } else if -shift < 31 {
      UpHalf(y, -shift);
      DownHalf(INT_MAX, -shift);
    } else {
      AwayAt31(INT_MAX);
      ScaledZero(shift);
      ScaledZero(shift - 1);
    }
  }

  lemma AwayAt31(y: nat)
    requires y <= INT_MAX
    ensures Down(y, 31) == 0
  {
    assert Pow2(31) == 0x8000_0000 by { UpEight(1); Pow2Of32(); }
    DownAway(y, 31);
  }

  lemma UpHalf(y: nat, n: nat)
    ensures Up(y, n + 1) / 2 == Up(y, n)
  {
  }

  /** At scalefactor 100 the cubes 1, 8 and 27, which take different branches, come out as 1, 16 and
      81 with five fraction bits. */
  lemma Cubes()
    ensures Magnitude(1, 100) == 1 * 32 && Magnitude(8, 100) == 16 * 32 && Magnitude(27, 100) == 81 * 32
  {
    assert Up(0x20, 7) == 0x1000 && Up(0x200, 4) == 0x2000 && Up(0xa20, 0) == 0xa20;
    DownBy(0x20, 7);
    DownBy(0x200, 4);
    DownBy(0xa20, 0);
  }

  /** Moving down what was moved up by n and two bytes. */
  lemma DownBy(q: nat, n: nat)
    ensures Down(Up(q, n) * 0x1_0000, n + 16) == q
  {
    UpEight(Up(q, n));
    UpEight(Up(q, n) * 0x100);
    UpUp(Up(q, n), 8, 8);
    UpUp(q, n, 16);
    DownField(q, 0, n + 16);
  }

  // ---- the code ----

  /** The first four magnitudes, computed once for a block. */
  method Cache(scale: int) returns (tab4: seq<nat>)
    ensures |tab4| == 4 && forall x :: 0 <= x < 4 ==> tab4[x] == Magnitude(x, scale)
  {
    hide Pow4314, Scaled, Pow43, Pow14, Power, Normalized, Pow2Exp, MulShift32;
    var r: nat, scalei := (scale - SF_OFFSET) % 4, (scale - SF_OFFSET) / 4 + FBITS_OUT_DQ_OFF;
    var shift := 28 - scalei;
    ghost var wanted := shift;
    forall x: nat | x < 4 ensures Magnitude(x, scale) == Scaled(Pow4314(r, x), wanted) { Tables(r, x); }
    tab4 := [];
    if shift > 31 {
      tab4 := [0, 0, 0, 0];
      forall x: nat | x < 4 ensures Scaled(Pow4314(r, x), wanted) == 0 { Tables(r, x); ScaledAway(Pow4314(r, x), wanted); }
    } else if shift <= 0 {
      shift := -shift;
      if shift > 31 { shift := 31; }
      while |tab4| < 4
        invariant |tab4| <= 4 && forall x :: 0 <= x < |tab4| ==> tab4[x] == Scaled(Pow4314(r, x), wanted)
      {
        Tables(r, |tab4|);
        var y := Pow4314(r, |tab4|);
        ScaledLeft(y, wanted);
        if y > Down(INT_MAX, shift) { y := INT_MAX; } else { y := Up(y, shift); }
        tab4 := tab4 + [y];
      }
    } else {
      Tables(r, 1);
      Tables(r, 2);
      Tables(r, 3);
      ScaledRight(wanted);
      FirstIsZero(r);
      tab4 := [0, Down(Pow4314(r, 1), shift), Down(Pow4314(r, 2), shift), Down(Pow4314(r, 3), shift)];
    }
  }

  lemma FirstIsZero(r: nat)
    ensures Pow4314(r, 0) == 0
  {
  }

  lemma ScaledAway(y: nat, shift: int)
    requires y <= INT_MAX && shift > 31
    ensures Scaled(y, shift) == 0
  {
    assert Pow2(31) == 0x8000_0000 by { UpEight(1); Pow2Of32(); }
    DownAway(y, 31);
  }

  lemma ScaledLeft(y: nat, shift: int)
    requires shift <= 0
    ensures Scaled(y, shift) == if y > Down(INT_MAX, Least(-shift, 31)) then INT_MAX else Up(y, Least(-shift, 31))
  {
  }

  lemma ScaledRight(shift: int)
    requires 0 < shift <= 31
    ensures forall y: nat :: Scaled(y, shift) == Down(y, shift)
    ensures Scaled(0, shift) == 0
  {
    UpZero(shift);
  }

  /** One sample, from its size on; tab4 is the block's cache. */
  method Sample(x: nat, scale: int, tab4: seq<nat>) returns (y: nat)
    requires x <= 16383 && |tab4| == 4 && forall x :: 0 <= x < 4 ==> tab4[x] == Magnitude(x, scale)
    ensures y == Magnitude(x, scale)
  {
    hide Pow4314, Scaled, Pow43, Pow14, Horner, Normalized, Pow2Exp, Pow2Frac, Coef;
    if x < 4 { return tab4[x]; }
    var r: nat, scalei := (scale - SF_OFFSET) % 4, (scale - SF_OFFSET) / 4 + FBITS_OUT_DQ_OFF;
    UnscaledFits(x, r, scalei);
    var v: int, shift: int;
    if x < 16 {
      v, shift := Pow4314(r, x), 25 - scalei;
    } else if x < 64 {
      v, shift := MulShift32(Pow43(x - 16), Pow14(r)), 21 - scalei;
    } else {
      var m, s := Normalized(x).0, Normalized(x).1;
      v := Evaluate(m, m < SQRTHALF);
      v := MulShift32(v, Pow2Frac(s)) * 8;
      v, shift := MulShift32(v, Pow14(r)), 24 - scalei - Pow2Exp(s);
    }
    y := Scaled(v, shift);
  }

  /** The polynomial, coefficient by coefficient. */
  method Evaluate(x: int, lo: bool) returns (y: int)
    ensures y == Horner(x, lo)
  {
    hide MulShift32, Coef;
    y := Coef(lo, 0);
    y := MulShift32(y, x) + Coef(lo, 1);
    y := MulShift32(y, x) + Coef(lo, 2);
    y := MulShift32(y, x) + Coef(lo, 3);
    y := MulShift32(y, x) + Coef(lo, 4);
  }
}
