/** The formula that codec/aacdecode/dequant.c stands for: a dequantized magnitude is the power 4/3 of the
    size times the scalefactor's power of two, rounded down. Powers are compared to the twelfth. */
module DequantLaw {
  import opened Fixed
  import opened Power43
  import opened Closeness
  import opened Polynomial43
  import Dequant

  // ---- the evaluation of the polynomial ----

  lemma Step(z: int, y: int, s: nat, m: nat, k: int)
    requires y * s <= z < (y + 2) * s && m < 0x8000_0000
    ensures var y' := MulShift32(y, m) + k; y' * (TWO32 * s) <= z * m + k * (TWO32 * s) < (y' + 2) * (TWO32 * s)
  {
    var q, rem := y * m / TWO32, y * m % TWO32;
    Below(m, z - y * s, 2 * s);
    Weight(m, z, y, s);
    assert y * m == TWO32 * q + rem;
    assert (y * m) * s == q * (TWO32 * s) + rem * s;
    assert rem * s < TWO32 * s by { Strictly(rem, TWO32, s); }
    Spread(q, k, TWO32 * s);
    ScaledUp(m, 2 * s, 0x8000_0000, 2 * s);
  }

  lemma Below(m: nat, a: nat, b: nat)
    requires a < b
    ensures 0 <= m * a <= m * b
  {
  }

  lemma Strictly(a: nat, b: nat, s: nat)
    requires a < b && 0 < s
    ensures a * s < b * s
  {
  }

  lemma Weight(m: int, z: int, y: int, s: int)
    ensures z * m == (y * m) * s + m * (z - y * s)
  {
  }

  lemma Spread(q: int, k: int, t: int)
    ensures (q + k) * t == q * t + k * t && (q + k + 2) * t == q * t + k * t + 2 * t
  {
  }

  lemma Step1(a: int, b: int, m: nat, y: int)
    requires m < 0x8000_0000 && y == MulShift32(a, m) + b
    ensures y * TWO32 <= Form1(a, b * 0x80, m, STEP) < (y + 2) * TWO32
  {
    hide MulShift32;
    Step(a, a, 1, m, b);
  }

  lemma Step2(a: int, b: int, c: int, m: nat, y: int, y': int)
    requires m < 0x8000_0000 && y == MulShift32(a, m) + b && y' == MulShift32(y, m) + c
    ensures y' * (TWO32 * TWO32) <= Form2(a, b * 0x80, c * 0x4000, m, STEP) < (y' + 2) * (TWO32 * TWO32)
  {
    hide MulShift32, Form1;
    Step1(a, b, m, y);
    Step(Form1(a, b * 0x80, m, STEP), y, TWO32, m, c);
  }

  lemma Step3(a: int, b: int, c: int, e: int, m: nat, y: int, y': int, y'': int)
    requires m < 0x8000_0000 && y == MulShift32(a, m) + b && y' == MulShift32(y, m) + c && y'' == MulShift32(y', m) + e
    ensures y'' * (TWO32 * (TWO32 * TWO32)) <= Form3(a, b * 0x80, c * 0x4000, e * 0x20_0000, m, STEP) < (y'' + 2) * (TWO32 * (TWO32 * TWO32))
  {
    hide MulShift32, Form1, Form2;
    Step2(a, b, c, m, y, y');
    Step(Form2(a, b * 0x80, c * 0x4000, m, STEP), y', TWO32 * TWO32, m, e);
  }

  /** The evaluation is the polynomial, cut off by less than two. */
  lemma HornerIs(lo: bool, m: nat)
    requires m < 0x8000_0000
    ensures Horner(m, lo) * K128 <= Form(lo, m) < (Horner(m, lo) + 2) * K128
  {
    hide MulShift32, Coef, Form1, Form2, Form3;
    var a, b, c, e := Coef(lo, 0), Coef(lo, 1), Coef(lo, 2), Coef(lo, 3);
    var y := MulShift32(a, m) + b;
    var y' := MulShift32(y, m) + c;
    var y'' := MulShift32(y', m) + e;
    Step3(a, b, c, e, m, y, y', y'');
    Step(Form3(a, b * 0x80, c * 0x4000, e * 0x20_0000, m, STEP), y'', TWO32 * (TWO32 * TWO32), m, Coef(lo, 4));
  }

  const K32 := 0x1_0000_0000
  const K128 := 0x1_0000_0000_0000_0000_0000_0000_0000_0000
  const K37 := 0x20_0000_0000

  /** Whichever polynomial it takes, the cube of the word evaluated is the fourth power of m. */
  lemma HornerNear(m: nat)
    requires 0x4000_0000 <= m < 0x8000_0000
    ensures var y := Horner(m, m < SQRTHALF); 200_000_000 <= y && 0 <= Cube(y) && Rel(Cube(y) * K37, Fourth(m), 48)
  {
    hide Form4, Fine, Rel, Cube, Fourth, InWords, Horner, Pow2;
    var lo := m < SQRTHALF;
    if lo { HornerLow(m); } else { HornerHigh(m); }
    HornerIs(lo, m);
    Scale347();
    assert Form(true, m) == Form4(0x29a0bda9, -0x4fd1b7d8 * 0x80, 0x5957aa1b * 0x4000, 0x236c498d * 0x20_0000, -0xa7e7a7 * 0x1000_0000, m, STEP);
    assert Form(false, m) == Form4(0x10852163, -0x2ccc095c * 0x80, 0x46e9408b * 0x4000, 0x27c2cef0 * 0x20_0000, -0x10a884c * 0x1000_0000, m, STEP);
    if m < SQRTHALF {
      Low33(); Low35(); Low37(); Low39(); Low41(); Low43(); Low44();
      var n := if m <= 1089 * 0x10_0000 then 33 else if m <= 1155 * 0x10_0000 then 35 else if m <= 1221 * 0x10_0000 then 37
        else if m <= 1287 * 0x10_0000 then 39 else if m <= 1353 * 0x10_0000 then 41 else if m <= 1419 * 0x10_0000 then 43 else 44;
      FormCube(0x29a0bda9, -0x4fd1b7d8 * 0x80, 0x5957aa1b * 0x4000, 0x236c498d * 0x20_0000, -0xa7e7a7 * 0x1000_0000, n, STEP, m - n * STEP, Pow2(347));
    } else {
      High46(); High48(); High51(); High54(); High57(); High60(); High63();
      var n := if m <= 1518 * 0x10_0000 then 46 else if m <= 1584 * 0x10_0000 then 48 else if m <= 1683 * 0x10_0000 then 51
        else if m <= 1782 * 0x10_0000 then 54 else if m <= 1881 * 0x10_0000 then 57 else if m <= 1980 * 0x10_0000 then 60 else 63;
      FormCube(0x10852163, -0x2ccc095c * 0x80, 0x46e9408b * 0x4000, 0x27c2cef0 * 0x20_0000, -0x10a884c * 0x1000_0000, n, STEP, m - n * STEP, Pow2(347));
    }
    hide Form;
    CubeOfK128();
    Relieved(Horner(m, lo), Form(lo, m), Fourth(m), K128, Pow2(347), K37);
  }

  lemma Relieved(y: nat, z: nat, m4: nat, k: nat, t: nat, g: nat)
    requires 200_000_000 <= y && y * k <= z < (y + 2) * k && 0 <= Cube(z) && Rel(Cube(z), t * m4, 42)
    requires Cube(k) == t * g && 0 < t
    ensures 0 <= Cube(y) && Rel(Cube(y) * g, m4, 48)
  {
    hide Rel, Cube;
    RelCut(y, k, z);
    CubeIsNat(y);
    RelCube(y * k, z, 1);
    CubeTimes(y, k);
    RelTrans(Cube(y * k), Cube(z), 5, t * m4, 42);
    Moving(Cube(y), t, g);
    RelCancel(t, Cube(y) * g, m4, 48);
  }

  lemma CubeOfK128()
    ensures Cube(K128) == Pow2(347) * K37
  {
    hide Pow2;
    Scale347();
  }

  lemma Moving(a: int, b: int, c: int)
    ensures a * (b * c) == b * (a * c)
  {
  }

  // ---- from 64 on ----

  const K69 := 0x20_0000_0000_0000_0000
  const K78 := 0x4000_0000_0000_0000_0000
  const K134 := 0x40_0000_0000_0000_0000_0000_0000_0000_0000

  lemma NormalizedIs(x: nat)
    requires 64 <= x <= 16383
    ensures var (m, shift) := Normalized(x); m == x * (0x2_0000 * Pow2(shift)) && shift <= 7
  {
    assert Pow2(1) == 2 && Pow2(2) == 4 && Pow2(3) == 8 && Pow2(4) == 16 && Pow2(5) == 32 && Pow2(6) == 64 && Pow2(7) == 128;
  }

  lemma Fractions()
    ensures Rel(0x6597fa94 * 0x6597fa94 * 0x6597fa94 * 0x400_0000_0000, K134, 1)
    ensures Rel(0x50a28be6 * 0x50a28be6 * 0x50a28be6 * 0x800_0000_0000, K134, 1)
    ensures Rel(0x7fffffff * 0x7fffffff * 0x7fffffff * 0x200_0000_0000, K134, 1)
  {
  }

  function Places(s: nat): nat { if s % 3 == 0 then 0x400_0000_0000 else if s % 3 == 1 then 0x800_0000_0000 else 0x200_0000_0000 }

  lemma PlacesAre(s: nat)
    requires s <= 7
    ensures 0 <= Pow2Exp(s) && Fourth(Pow2(s)) * Cube(Pow2(Pow2Exp(s))) == Places(s)
  {
    assert Pow2(1) == 2 && Pow2(2) == 4 && Pow2(3) == 8 && Pow2(4) == 16 && Pow2(5) == 0x20 && Pow2(6) == 0x40 && Pow2(7) == 0x80
      && Pow2(9) == 0x200 && Pow2(10) == 0x400 && Pow2(11) == 0x800 && Pow2(13) == 0x2000 && Pow2(14) == 0x4000;
  }

  /** The exponent and the fraction make the power 4/3 of the places moved up. */
  lemma FractionNear(s: nat, f: nat, p: nat)
    requires s <= 7 && f == Pow2Frac(s) && p == Places(s)
    ensures 0x50a2_8be6 <= f && 0 <= Cube(f) && Rel(Cube(f) * p, K134, 1)
  {
    hide Rel;
    Fractions();
    CubeIsNat(f);
    assert (f, p) in {(0x6597fa94, 0x400_0000_0000), (0x50a28be6, 0x800_0000_0000), (0x7fffffff, 0x200_0000_0000)};
  }

  /** The cube of a power is the fourth power of the size, at the place the exponent says. */
  lemma PowerNear(x: nat)
    requires 64 <= x <= 16383
    ensures var e := Pow2Exp(Normalized(x).1);
      0x1000_0000 <= Power(x) && 0 <= e && 0 <= Cube(Power(x)) && 0 <= Cube(Pow2(e)) && Rel(Cube(Power(x)) * Cube(Pow2(e)), Fourth(x) * K78, 56)
  {
    hide Horner, InWords, Pow2Frac, Pow2Exp, Normalized, Rel, Cube, Fourth, Pow2, Places, MulShift32;
    var (m, s) := Normalized(x);
    NormalizedIs(x);
    Power43.NormalizedRange(x);
    PlacesAre(s);
    HornerNear(m);
    Tables(0, s);
    var y, f: nat := Horner(m, m < SQRTHALF), Pow2Frac(s);
    FractionNear(s, f, Places(s));
    var p := MulShift32(y, f);
    PowerCut(y, f, p);
    CubeIsNat(p);
    CubeIsNat(8 * p);
    CubeIsNat(Pow2(Pow2Exp(s)));
    FourthTimes(x, 0x2_0000 * Pow2(s));
    FourthTimes(0x2_0000, Pow2(s));
    assert Fourth(0x2_0000) == 0x10_0000_0000_0000_0000 by { FourthOf17(); }
    CubeTimes(8, p);
    assert Cube(8) == 512 by { CubeOf8(); }
    PositiveFourth(Pow2(s));
    Joined(Cube(p), Cube(y), Cube(f), Fourth(Pow2(s)), Cube(Pow2(Pow2Exp(s))), Fourth(x), Fourth(m));
  }

  lemma FourthOf17()
    ensures Fourth(0x2_0000) == 0x10_0000_0000_0000_0000
  {
  }

  lemma CubeOf8()
    ensures Cube(8) == 512
  {
  }

  lemma PositiveFourth(a: nat)
    requires a > 0
    ensures Fourth(a) > 0
  {
    AtLeastOnce(a, a);
    AtLeastOnce(a * a, a * a);
  }

  lemma PowerCut(y: nat, f: nat, p: int)
    requires 200_000_000 <= y && 0x50a2_8be6 <= f && p == MulShift32(y, f)
    ensures 0x200_0000 <= p && 0 <= Cube(p) && 0 <= Cube(y) && 0 <= Cube(f)
    ensures Rel(Cube(p) * 0x1_0000_0000_0000_0000_0000_0000, Cube(y) * Cube(f), 5)
  {
    hide Rel;
    ScaledUp(200_000_000, 0x50a2_8be6, y, f);
    RelCut(p, K32, y * f);
    RelCube(p * K32, y * f, 1);
    CubeIsNat(p);
    CubeIsNat(y);
    CubeIsNat(f);
    CubeTimes(p, K32);
    CubeTimes(y, f);
    assert Cube(K32) == 0x1_0000_0000_0000_0000_0000_0000;
  }

  lemma Joined(p: nat, y: nat, f: nat, a: nat, b: nat, x4: nat, m4: nat)
    requires Rel(p * 0x1_0000_0000_0000_0000_0000_0000, y * f, 5) && Rel(y * K37, m4, 48) && 0 <= f * (a * b) && Rel(f * (a * b), K134, 1)
    requires m4 == x4 * (0x10_0000_0000_0000_0000 * a) && a > 0
    ensures Rel((512 * p) * b, x4 * K78, 56)
  {
    hide Rel;
    var k96, k68 := 0x1_0000_0000_0000_0000_0000_0000, 0x10_0000_0000_0000_0000;
    var t, k := K37 * (a * b), a * (K37 * k96);
    RelTimes(y * K37, m4, 48, f * (a * b), K134, 1);
    RelScale(t, p * k96, y * f, 5);
    Shuffled(y, K37, f, a * b);
    RelTrans(t * (p * k96), t * (y * f), 5, m4 * K134, 50);
    Sorted(a, b, p, K37, k96);
    Widened(x4, a, k68, K134, K37 * k96, K69);
    RelCancel(k, p * b, x4 * K69, 56);
    RelScale(512, p * b, x4 * K69, 56);
    assert 512 * (x4 * K69) == x4 * K78 && 512 * (p * b) == (512 * p) * b;
  }

  lemma Shuffled(y: int, k: int, f: int, c: int)
    ensures (y * k) * (f * c) == (k * c) * (y * f)
  {
  }

  lemma Sorted(a: int, b: int, p: int, k: int, l: int)
    ensures (k * (a * b)) * (p * l) == (a * (k * l)) * (p * b)
  {
  }

  lemma Widened(x: int, a: int, k: int, l: int, q: int, r: int)
    requires k * l == q * r
    ensures (x * (k * a)) * l == (a * q) * (x * r)
  {
    assert (x * (k * a)) * l == (x * a) * (k * l) && (a * q) * (x * r) == (x * a) * (q * r);
  }

  // ---- the tables ----

  function Sixteenth(x: int): nat { Fourth(Fourth(x)) }

  const K300 := 0x1000_0000_0000_0000_0000_0000_0000_0000_0000_0000_0000_0000_0000_0000_0000_0000_0000_0000_0000

  /** y is the integer nearest the power 4/3 of x, times the 12th root of 2^300 n. */
  predicate Rooted(y: int, x: int, n: int) { Twelfth(2 * y - 1) < 0x1000 * (Sixteenth(x) * (K300 * n)) < Twelfth(2 * y + 1) }

  lemma Row0From1()
    ensures Rooted(0x10000000, 1, 0x1000000000) && Rooted(0x285145f3, 2, 0x1000000000) && Rooted(0x453a5cdb, 3, 0x1000000000)
    ensures Rooted(0xcb2ff53, 4, 0x1) && Rooted(0x111989d6, 5, 0x1)
  {
  }

  lemma Row0From6()
    ensures Rooted(0x15ce31c8, 6, 0x1) && Rooted(0x1ac7f203, 7, 0x1) && Rooted(0x20000000, 8, 0x1)
    ensures Rooted(0x257106b9, 9, 0x1) && Rooted(0x2b16b4a3, 10, 0x1)
  {
  }

  lemma Row0From11()
    ensures Rooted(0x30ed74b4, 11, 0x1) && Rooted(0x36f23fa5, 12, 0x1) && Rooted(0x3d227bd3, 13, 0x1)
    ensures Rooted(0x437be656, 14, 0x1) && Rooted(0x49fc823c, 15, 0x1)
  {
  }

  lemma Row1From1()
    ensures Rooted(0x1306fe0a, 1, 0x8000000000) && Rooted(0x2ff221af, 2, 0x8000000000) && Rooted(0x52538f52, 3, 0x8000000000)
    ensures Rooted(0xf1a1bf4, 4, 0x8) && Rooted(0x1455ccc2, 5, 0x8)
  {
  }

  lemma Row1From6()
    ensures Rooted(0x19ee62a8, 6, 0x8) && Rooted(0x1fd92396, 7, 0x8) && Rooted(0x260dfc14, 8, 0x8)
    ensures Rooted(0x2c8694d8, 9, 0x8) && Rooted(0x333dcb29, 10, 0x8)
  {
  }

  lemma Row1From11()
    ensures Rooted(0x3a2f5c7a, 11, 0x8) && Rooted(0x4157aed5, 12, 0x8) && Rooted(0x48b3aaa3, 13, 0x8)
    ensures Rooted(0x50409f76, 14, 0x8) && Rooted(0x57fc3010, 15, 0x8)
  {
  }

  lemma Row2From1()
    ensures Rooted(0x16a09e66, 1, 0x40000000000) && Rooted(0x39047c0f, 2, 0x40000000000) && Rooted(0x61e734aa, 3, 0x40000000000)
    ensures Rooted(0x11f59ac4, 4, 0x40) && Rooted(0x182ec633, 5, 0x40)
  {
  }

  lemma Row2From6()
    ensures Rooted(0x1ed66a45, 6, 0x40) && Rooted(0x25dfc55a, 7, 0x40) && Rooted(0x2d413ccd, 8, 0x40)
    ensures Rooted(0x34f3462d, 9, 0x40) && Rooted(0x3cefc603, 10, 0x40)
  {
  }

  lemma Row2From11()
    ensures Rooted(0x4531ab69, 11, 0x40) && Rooted(0x4db4adf8, 12, 0x40) && Rooted(0x56752054, 13, 0x40)
    ensures Rooted(0x5f6fcfcd, 14, 0x40) && Rooted(0x68a1eca1, 15, 0x40)
  {
  }

  lemma Row3From1()
    ensures Rooted(0x1ae89f99, 1, 0x200000000000) && Rooted(0x43ce3e4b, 2, 0x200000000000) && Rooted(0x746d57b2, 3, 0x200000000000)
    ensures Rooted(0x155b8109, 4, 0x200) && Rooted(0x1cc21cdc, 5, 0x200)
  {
  }

  lemma Row3From6()
    ensures Rooted(0x24ac1839, 6, 0x200) && Rooted(0x2d0a479e, 7, 0x200) && Rooted(0x35d13f33, 8, 0x200)
    ensures Rooted(0x3ef80748, 9, 0x200) && Rooted(0x48775c93, 10, 0x200)
  {
  }

  lemma Row3From11()
    ensures Rooted(0x524938cd, 11, 0x200) && Rooted(0x5c68841d, 12, 0x200) && Rooted(0x66d0df0a, 13, 0x200)
    ensures Rooted(0x717e7bfe, 14, 0x200) && Rooted(0x7c6e0305, 15, 0x200)
  {
  }

  /** y is the integer nearest the power 4/3 of i, at 23 binary places. */
  predicate CubeRooted(y: int, i: int) { Cube(2 * y - 1) < 8 * (Fourth(i) * K69) < Cube(2 * y + 1) }

  lemma Size16()
    ensures CubeRooted(0x1428a2fa, 16) && CubeRooted(0x15db1bd6, 17) && CubeRooted(0x1796302c, 18) && CubeRooted(0x19598d85, 19)
    ensures CubeRooted(0x1b24e8bb, 20) && CubeRooted(0x1cf7fcfa, 21) && CubeRooted(0x1ed28af2, 22) && CubeRooted(0x20b4582a, 23)
    ensures CubeRooted(0x229d2e6e, 24) && CubeRooted(0x248cdb55, 25) && CubeRooted(0x26832fda, 26) && CubeRooted(0x28800000, 27)
    ensures CubeRooted(0x2a832287, 28) && CubeRooted(0x2c8c70a8, 29) && CubeRooted(0x2e9bc5d8, 30) && CubeRooted(0x30b0ff99, 31)
  {
  }

  lemma Size32()
    ensures CubeRooted(0x32cbfd4a, 32) && CubeRooted(0x34eca001, 33) && CubeRooted(0x3712ca62, 34) && CubeRooted(0x393e6088, 35)
    ensures CubeRooted(0x3b6f47e0, 36) && CubeRooted(0x3da56717, 37) && CubeRooted(0x3fe0a5fc, 38) && CubeRooted(0x4220ed72, 39)
    ensures CubeRooted(0x44662758, 40) && CubeRooted(0x46b03e7c, 41) && CubeRooted(0x48ff1e87, 42) && CubeRooted(0x4b52b3f3, 43)
    ensures CubeRooted(0x4daaebfd, 44) && CubeRooted(0x5007b497, 45) && CubeRooted(0x5268fc62, 46) && CubeRooted(0x54ceb29c, 47)
  {
  }

  lemma Size48()
    ensures CubeRooted(0x5738c721, 48) && CubeRooted(0x59a72a59, 49) && CubeRooted(0x5c19cd35, 50) && CubeRooted(0x5e90a129, 51)
    ensures CubeRooted(0x610b9821, 52) && CubeRooted(0x638aa47f, 53) && CubeRooted(0x660db90f, 54) && CubeRooted(0x6894c90b, 55)
    ensures CubeRooted(0x6b1fc80c, 56) && CubeRooted(0x6daeaa0d, 57) && CubeRooted(0x70416360, 58) && CubeRooted(0x72d7e8b0, 59)
    ensures CubeRooted(0x75722ef9, 60) && CubeRooted(0x78102b85, 61) && CubeRooted(0x7ab1d3ec, 62) && CubeRooted(0x7d571e09, 63)
  {
  }

  /** The quarter powers of two are the nearest integers at 30 binary places. */
  lemma Quarters()
    ensures Fourth(2 * 0x40000000 - 1) < 16 * 0x1000000000000000000000000000000 < Fourth(2 * 0x40000000 + 1)
    ensures Fourth(2 * 0x4c1bf829 - 1) < 16 * 0x2000000000000000000000000000000 < Fourth(2 * 0x4c1bf829 + 1)
    ensures Fourth(2 * 0x5a82799a - 1) < 16 * 0x4000000000000000000000000000000 < Fourth(2 * 0x5a82799a + 1)
    ensures Fourth(2 * 0x6ba27e65 - 1) < 16 * 0x8000000000000000000000000000000 < Fourth(2 * 0x6ba27e65 + 1)
  {
  }

  // ---- powers of two ----

  lemma {:induction false} CubeOfPow2(n: nat)
    ensures Cube(Pow2(n)) == Pow2(3 * n)
  {
    hide Pow2;
    Pow2Sum(n, n);
    Pow2Sum(2 * n, n);
  }

  lemma {:induction false} FourthOfPow2(n: nat)
    ensures Fourth(Pow2(n)) == Pow2(4 * n)
  {
    hide Pow2;
    Pow2Sum(n, n);
    Pow2Sum(2 * n, 2 * n);
  }

  lemma FirstPowers()
    ensures Pow2(0) == 1 && Pow2(1) == 2 && Pow2(2) == 4 && Pow2(3) == 8 && Pow2(5) == 0x20 && Pow2(12) == 0x1000 && Pow2(14) == 0x4000
  {
  }

  lemma Powers()
    ensures Pow2(69) == K69 && Pow2(78) == K78 && Pow2(120) == 0x100_0000_0000_0000_0000_0000_0000_0000 && Pow2(300) == K300
  {
    hide Pow2;
    FirstPowers();
    Pow2Of32();
    Pow2Sum(32, 32);
    Pow2Sum(64, 5);
    Pow2Sum(64, 14);
    Pow2Sum(64, 32);
    Pow2Sum(96, 24);
    Pow2Sum(96, 96);
    Pow2Sum(192, 96);
    Pow2Sum(288, 12);
  }

  // ---- the law before the integer scale ----

  /** A value at g binary places less e, times a quarter power. */
  lemma ScaledRoot(u: int, a: nat, p: nat, r: nat, x: nat, e: nat, g: nat)
    requires u == MulShift32(a, p) && 0x200_0000 <= u && e + 2 <= g
    requires 0 <= Cube(a) && 0 <= Cube(Pow2(e)) && Rel(Cube(a) * Cube(Pow2(e)), Fourth(x) * Pow2(3 * g), 56)
    requires Rel(Fourth(p), Pow2(120 + r), 8)
    ensures Rel(Twelfth(u), Sixteenth(x) * Pow2(3 * r + 12 * (g - e - 2)), 278)
  {
    hide Rel, Cube, Fourth, Pow2;
    RelCut(u, K32, a * p);
    RelTwelfth(u * K32, a * p, 1);
    TwelfthTimes(u, K32);
    TwelfthTimes(a, p);
    Pow2Of32();
    CubeOfPow2(32);
    FourthOfPow2(96);
    RelFourth(Cube(a) * Cube(Pow2(e)), Fourth(x) * Pow2(3 * g), 56);
    FourthTimes(Cube(a), Cube(Pow2(e)));
    FourthTimes(Fourth(x), Pow2(3 * g));
    CubeOfPow2(e);
    FourthOfPow2(3 * e);
    FourthOfPow2(3 * g);
    RelCube(Fourth(p), Pow2(120 + r), 8);
    FourthTimes(p, p);
    CubeOfPow2(120 + r);
    Pow2Sum(12 * g, 360 + 3 * r);
    Pow2Sum(12 * e, 384);
    Pow2Sum(12 * e + 384, 3 * r + 12 * (g - e - 2));
    Composed(Twelfth(u), Twelfth(a), Twelfth(p), Sixteenth(x), Pow2(12 * e), Pow2(384), Pow2(12 * g), Pow2(360 + 3 * r),
             Pow2(3 * r + 12 * (g - e - 2)));
  }

  lemma Composed(u: nat, a: nat, p: nat, x: nat, e: nat, k: nat, g: nat, q: nat, z: nat)
    requires Rel(u * k, a * p, 23) && Rel(a * e, x * g, 227) && Rel(p, q, 26) && g * q == e * k * z && 0 < e && 0 < k
    ensures Rel(u, x * z, 278)
  {
    hide Rel;
    RelTimes(a * e, x * g, 227, p, q, 26);
    RelScale(e, u * k, a * p, 23);
    Turned(a, e, p);
    RelTrans(e * (u * k), e * (a * p), 23, (x * g) * q, 254);
    Turned(u, k, e);
    Turned(x, g, q);
    Turned(x, z, e * k);
    AtLeastOnce(e, k);
    RelCancel(e * k, u, x * z, 278);
  }

  lemma Turned(a: int, b: int, c: int)
    ensures (a * b) * c == b * (a * c) == a * (b * c) == a * (c * b) == c * (a * b) == (c * b) * a
  {
  }

  lemma RowHolds(r: nat, x: nat)
    requires r < 4 && 1 <= x < 16
    ensures Rooted(Pow4314(r, x), x, (if x < 4 then 0x10_0000_0000 else 1) * (if r == 0 then 1 else if r == 1 then 8 else if r == 2 then 0x40 else 0x200))
    ensures 0x100_0000 <= Pow4314(r, x)
  {
    hide Rooted;
    Row0From1(); Row0From6(); Row0From11();
    Row1From1(); Row1From6(); Row1From11();
    Row2From1(); Row2From6(); Row2From11();
    Row3From1(); Row3From6(); Row3From11();
  }

  function TablePlaces(x: nat): nat { if x < 4 then 28 else 25 }

  /** Every entry below 16 is the integer nearest the power 4/3 of the size times the quarter power, at the
      entry's binary places. */
  lemma TableNear(r: nat, x: nat)
    requires r < 4 && 1 <= x < 16
    ensures var y := Pow4314(r, x);
      Twelfth(2 * y - 1) < 0x1000 * (Sixteenth(x) * Pow2(3 * r + 12 * TablePlaces(x))) < Twelfth(2 * y + 1)
  {
    hide Pow4314, Cube, Fourth, Pow2;
    RowHolds(r, x);
    Powers();
    Pow2Of32();
    assert Pow2(0) == 1 && Pow2(3) == 8 && Pow2(6) == 0x40 && Pow2(9) == 0x200 && Pow2(36) == 0x10_0000_0000 by { Eights(); }
    Pow2Sum(300, 3 * r);
    Pow2Sum(300 + 3 * r, 36);
    if x >= 4 { Pow2Sum(300, 3 * r); }
  }

  lemma Eights()
    ensures Pow2(0) == 1 && Pow2(3) == 8 && Pow2(6) == 0x40 && Pow2(9) == 0x200 && Pow2(36) == 0x10_0000_0000
  {
    Pow2Of32();
  }

  lemma SizeHolds(i: nat)
    requires 16 <= i < 64
    ensures CubeRooted(Pow43(i - 16), i) && 0x1000_0000 <= Pow43(i - 16)
  {
    hide CubeRooted;
    Size16();
    Size32();
    Size48();
  }

  /** Every entry from 16 to 63 is the integer nearest the power 4/3 of its size at 23 binary places. */
  lemma SizeNear(i: nat)
    requires 16 <= i < 64
    ensures var y := Pow43(i - 16); Cube(2 * y - 1) < 8 * (Fourth(i) * Pow2(69)) < Cube(2 * y + 1)
  {
    hide Pow43, Cube, Fourth, Pow2;
    SizeHolds(i);
    Powers();
  }

  /** Every quarter power is the nearest integer to the fourth root of 2^(120 + r). */
  lemma QuarterNear(r: nat)
    requires r < 4
    ensures var p := Pow14(r); Fourth(2 * p - 1) < 16 * Pow2(120 + r) < Fourth(2 * p + 1)
  {
    hide Fourth, Pow2;
    Quarters();
    Powers();
    FirstPowers();
    Pow2Sum(120, r);
  }

  lemma UnscaledOfTable(r: nat, x: nat)
    requires r < 4 && 1 <= x < 16
    ensures Rel(Twelfth(Pow4314(r, x)), Sixteenth(x) * Pow2(3 * r + 12 * TablePlaces(x)), 300)
  {
    hide Rel, Pow4314, Twelfth, Sixteenth, Pow2, Rooted;
    RowHolds(r, x);
    TableNear(r, x);
    NearestTwelfth(Pow4314(r, x), Sixteenth(x) * Pow2(3 * r + 12 * TablePlaces(x)));
    RelLoose(Twelfth(Pow4314(r, x)), Sixteenth(x) * Pow2(3 * r + 12 * TablePlaces(x)), 24, 300);
  }

  lemma UnscaledOfSize(r: nat, x: nat)
    requires r < 4 && 16 <= x < 64
    ensures Rel(Twelfth(MulShift32(Pow43(x - 16), Pow14(r))), Sixteenth(x) * Pow2(3 * r + 12 * 21), 300)
  {
    hide Rel, Pow43, Pow14, Cube, Fourth, Pow2, CubeRooted, MulShift32;
    var a, p, t := Pow43(x - 16), Pow14(r), Fourth(x) * Pow2(69);
    SizeHolds(x);
    SizeNear(x);
    NearestCube(a, t);
    RelLoose(Cube(a), t, 6, 56);
    QuarterOf(r);
    Wide(a, p);
    assert Pow2(0) == 1 && Cube(1) == 1 by { One(); }
    ScaledRoot(MulShift32(a, p), a, p, r, x, 0, 23);
    RelLoose(Twelfth(MulShift32(a, p)), Sixteenth(x) * Pow2(3 * r + 12 * 21), 278, 300);
  }

  lemma One()
    ensures Pow2(0) == 1 && Cube(1) == 1
  {
  }

  lemma QuarterOf(r: nat)
    requires r < 4
    ensures 0x4000_0000 <= Pow14(r) && Rel(Fourth(Pow14(r)), Pow2(120 + r), 8)
  {
    hide Rel, Fourth, Pow2;
    QuarterNear(r);
    NearestFourth(Pow14(r), Pow2(120 + r));
  }

  lemma Wide(a: nat, p: nat)
    requires 0x1000_0000 <= a && 0x4000_0000 <= p
    ensures 0x200_0000 <= MulShift32(a, p)
  {
    ScaledUp(0x1000_0000, 0x4000_0000, a, p);
  }

  lemma UnscaledOfPower(r: nat, x: nat, e: nat)
    requires r < 4 && 64 <= x <= 16383 && e == Pow2Exp(Normalized(x).1)
    ensures e <= 24 && Rel(Twelfth(MulShift32(Power(x), Pow14(r))), Sixteenth(x) * Pow2(3 * r + 12 * (24 - e)), 300)
  {
    hide Rel, Power, Pow14, Cube, Fourth, Pow2, Pow2Exp, MulShift32, Normalized;
    var p := Pow14(r);
    Tables(r, Normalized(x).1);
    PowerNear(x);
    Powers();
    QuarterOf(r);
    Wide(Power(x), p);
    ScaledRoot(MulShift32(Power(x), p), Power(x), p, r, x, e, 26);
    RelLoose(Twelfth(MulShift32(Power(x), p)), Sixteenth(x) * Pow2(3 * r + 12 * (24 - e)), 278, 300);
  }

  /** The twelfth power of the unscaled magnitude, whichever branch makes it, is the sixteenth power of the
      size at the branch's binary places, but for 300 parts in 2^24. */
  lemma UnscaledNear(x: nat, r: nat, scalei: int, q: nat, u: nat)
    requires r < 4 && 1 <= x <= 16383 && (u, q - scalei) == Unscaled(x, r, scalei)
    ensures Rel(Twelfth(u), Sixteenth(x) * Pow2(3 * r + 12 * q), 300)
  {
    hide Rel, Power, Pow14, Twelfth, Sixteenth, Pow2, Pow2Exp, MulShift32, Pow43, Pow4314;
    if x < 16 {
      UnscaledOfTable(r, x);
    } else if x < 64 {
      UnscaledOfSize(r, x);
    } else {
      Tables(r, Normalized(x).1);
      UnscaledOfPower(r, x, Pow2Exp(Normalized(x).1));
    }
  }

  // ---- the law of the magnitude ----

  /** The integer scale divides or multiplies by a power of two and rounds down, unless it clips. */
  lemma ScaledIs(u: nat, shift: int, y: nat)
    requires u <= INT_MAX && y == Scaled(u, shift)
    ensures y * Loss(-shift) <= u * Gain(-shift) && (y < INT_MAX ==> u * Gain(-shift) < (y + 1) * Loss(-shift))
  {
    hide Up, Down, Pow2;
    assert Pow2(0) == 1 by { One(); }
    if shift > 31 {
      ScaledAway(u, shift);
      Pow2Of32();
      Pow2Mono(32, shift);
    } else if shift > 0 {
      UpDown(u, shift);
      UpTimes(y, shift);
      OneMore(y, Pow2(shift));
    } else {
      ScaledLeft(u, shift);
      var s: nat := Least(-shift, 31);
      Pow2Mono(s, -shift);
      UpDown(INT_MAX, s);
      UpTimes(u, s);
      UpTimes(Down(INT_MAX, s), s);
      AwayAt31(INT_MAX);
      if u > Down(INT_MAX, s) {
        ScaledUp(Down(INT_MAX, s) + 1, Pow2(s), u, Pow2(s));
        OneMore(Down(INT_MAX, s), Pow2(s));
        ScaledUp(u, Pow2(s), u, Pow2(-shift));
      } else if -shift > 31 {
        UpZero(s);
      }
    }
  }

  /** The powers of two on both sides of the law. */
  lemma Exponents(a: nat, s: int)
    ensures 0 < Twelfth(Loss(s)) && Pow2(a) * Twelfth(Gain(s)) * Loss(a + 12 * s) == Gain(a + 12 * s) * Twelfth(Loss(s))
  {
    hide Pow2, Cube, Fourth;
    assert Pow2(0) == 1 && Twelfth(1) == 1 by { Ones(); }
    if s >= 0 {
      CubeOfPow2(s);
      FourthOfPow2(3 * s);
      Pow2Sum(a, 12 * s);
    } else {
      CubeOfPow2(-s);
      FourthOfPow2(3 * -s);
      if a + 12 * s >= 0 { Pow2Sum(a + 12 * s, 12 * -s); } else { Pow2Sum(a, -(a + 12 * s)); }
    }
  }

  lemma Ones()
    ensures Pow2(0) == 1 && Twelfth(1) == 1
  {
  }

  const ERROR := 300

  /** From the law of the unscaled value to that of the scaled one. */
  lemma Carried(u: nat, y: nat, g: nat, l: nat, x: nat, t: nat, gain: nat, loss: nat)
    requires Rel(u, x * t, ERROR) && 0 < l && 0 < loss && t * g * loss == gain * l && y * l <= u * g
    ensures U * (y * loss) <= (U + ERROR) * (x * gain)
  {
    ScaledUp(y * l, U * loss, u * g, U * loss);
    ScaledUp(U * u, g * loss, (U + ERROR) * (x * t), g * loss);
    Turning(u, g, loss, y, l);
    Turning2(x, t, g, loss, gain, l);
    Cancelled(l, U * (y * loss), (U + ERROR) * (x * gain));
  }

  lemma Turning(u: int, g: int, loss: int, y: int, l: int)
    ensures (y * l) * (U * loss) == l * (U * (y * loss)) && (u * g) * (U * loss) == (U * u) * (g * loss)
  {
  }

  lemma Turning2(x: int, t: int, g: int, loss: int, gain: int, l: int)
    requires t * g * loss == gain * l
    ensures forall k: int :: (k * (x * t)) * (g * loss) == l * (k * (x * gain))
  {
    forall k: int ensures (k * (x * t)) * (g * loss) == l * (k * (x * gain)) {
      assert (k * (x * t)) * (g * loss) == (k * x) * (t * g * loss);
      assert (k * x) * (gain * l) == l * (k * (x * gain));
    }
  }

  lemma CarriedBelow(u: nat, y: nat, g: nat, l: nat, x: nat, t: nat, gain: nat, loss: nat)
    requires Rel(u, x * t, ERROR) && 0 < l && 0 < loss && t * g * loss == gain * l && u * g < y * l
    ensures (U - ERROR) * (x * gain) < U * (y * loss)
  {
    StrictlyUp(u * g, y * l, U * loss);
    ScaledUp((U - ERROR) * (x * t), g * loss, U * u, g * loss);
    Turning(u, g, loss, y, l);
    Turning2(x, t, g, loss, gain, l);
    if (U - ERROR) * (x * gain) >= U * (y * loss) { ScaledUp(l, U * (y * loss), l, (U - ERROR) * (x * gain)); }
  }

  lemma StrictlyUp(a: nat, b: nat, k: nat)
    requires a < b && 0 < k
    ensures a * k < b * k
  {
  }

  /** The law: the magnitude's twelfth power does not pass that of the formula by more than 300 parts in
      2^24, and the next integer's does not fall short of it by more, unless the magnitude is clipped. */
  lemma MagnitudeLaw(x: nat, scale: int)
    requires 1 <= x <= 16383
    ensures var y, exponent := Magnitude(x, scale), 3 * (scale - 100) + 60;
      0x100_0000 * (Twelfth(y) * Loss(exponent)) <= (0x100_0000 + 300) * (Sixteenth(x) * Gain(exponent))
      && (y < INT_MAX ==> (0x100_0000 - 300) * (Sixteenth(x) * Gain(exponent)) < 0x100_0000 * (Twelfth(y + 1) * Loss(exponent)))
  {
    hide Rel, Scaled, Twelfth, Sixteenth, Pow2, Gain, Loss, Unscaled;
    var r: nat, scalei := (scale - SF_OFFSET) % 4, (scale - SF_OFFSET) / 4 + FBITS_OUT_DQ_OFF;
    UnscaledFits(x, r, scalei);
    PlacesNat(x, r, scalei);
    var u: nat, shift := Unscaled(x, r, scalei).0, Unscaled(x, r, scalei).1;
    var q: nat, y, e := shift + scalei, Magnitude(x, scale), -shift;
    UnscaledNear(x, r, scalei, q, u);
    ScaledIs(u, shift, y);
    Exponents(3 * r + 12 * q, e);
    assert 3 * r + 12 * q + 12 * e == 3 * (scale - 100) + 60;
    var exponent := 3 * (scale - 100) + 60;
    TwelfthTimes(y, Loss(e));
    TwelfthTimes(u, Gain(e));
    TwelfthTimes(y + 1, Loss(e));
    TwelfthOrder(y * Loss(e), u * Gain(e));
    TwelfthOrder(u * Gain(e), (y + 1) * Loss(e));
    LossPositive(exponent);
    Carried(Twelfth(u), Twelfth(y), Twelfth(Gain(e)), Twelfth(Loss(e)), Sixteenth(x), Pow2(3 * r + 12 * q),
              Gain(exponent), Loss(exponent));
    if y < INT_MAX {
      CarriedBelow(Twelfth(u), Twelfth(y + 1), Twelfth(Gain(e)), Twelfth(Loss(e)), Sixteenth(x), Pow2(3 * r + 12 * q),
              Gain(exponent), Loss(exponent));
    }
  }

  lemma LossPositive(e: int)
    ensures 0 < Loss(e) && 0 < Gain(e)
  {
  }

  lemma PlacesNat(x: nat, r: nat, scalei: int)
    requires x <= 16383
    ensures 0 <= Unscaled(x, r, scalei).1 + scalei
  {
    hide Pow4314, Pow43, Pow14, Power, Pow2Exp, MulShift32;
    if x >= 64 { Tables(r, Normalized(x).1); }
  }

  /** Larger coefficients come out no smaller. */
  lemma Grows(x: nat, scale: int)
    requires x < 16383
    ensures Magnitude(x, scale) <= Magnitude(x + 1, scale)
  {
    hide Magnitude, Twelfth, Sixteenth, Gain, Loss;
    var y, y', e := Magnitude(x, scale), Magnitude(x + 1, scale), 3 * (scale - 100) + 60;
    if x == 0 {
      ZeroStays(scale);
    } else if y' < y {
      MagnitudeLaw(x, scale);
      MagnitudeLaw(x + 1, scale);
      TwelfthOrder(y' + 1, y);
      ScaledUp(Twelfth(y' + 1), Loss(e), Twelfth(y), Loss(e));
      LossPositive(e);
      NextSixteenth(x);
      ScaledUp((U + 300) * Sixteenth(x), Gain(e), (U - 300) * Sixteenth(x + 1), Gain(e));
      Turned((U + 300), Sixteenth(x), Gain(e));
      Turned((U - 300), Sixteenth(x + 1), Gain(e));
    }
  }

  /** The next size's sixteenth power is larger by more than the law's error. */
  lemma NextSixteenth(x: nat)
    requires 1 <= x < 16383
    ensures (U + 300) * Sixteenth(x) <= (U - 300) * Sixteenth(x + 1)
  {
    NextSquare(x, x, x + 1, 1);
    NextSquare(x, x * x, (x + 1) * (x + 1), 2);
    NextSquare(x, Fourth(x), Fourth(x + 1), 4);
    hide Fourth;
    NextSquare(x, Fourth(x) * Fourth(x), Fourth(x + 1) * Fourth(x + 1), 8);
    SixteenthIs(x);
    SixteenthIs(x + 1);
    hide Sixteenth;
    Apart(x, Sixteenth(x), Sixteenth(x + 1));
  }

  lemma SixteenthIs(x: int)
    ensures Sixteenth(x) == (Fourth(x) * Fourth(x)) * (Fourth(x) * Fourth(x))
  {
  }

  lemma NextSquare(x: nat, p: nat, q: nat, k: nat)
    requires 1 <= x && (x + k) * p <= x * q
    ensures (x + 2 * k) * (p * p) <= x * (q * q)
  {
    ScaledUp((x + k) * p, (x + k) * p, x * q, x * q);
    Crossed(x + k, p, x + k, p);
    Crossed(x, q, x, q);
    Lessened(x, k, p * p, q * q);
  }

  lemma Lessened(x: nat, k: nat, p: nat, q: nat)
    requires 1 <= x && ((x + k) * (x + k)) * p <= (x * x) * q
    ensures (x + 2 * k) * p <= x * q
  {
    assert (x + k) * (x + k) == x * (x + 2 * k) + k * k;
    ScaledUp(x * (x + 2 * k), p, (x + k) * (x + k), p);
    Cancelled(x, (x + 2 * k) * p, x * q);
  }

  lemma Apart(x: nat, p: nat, q: nat)
    requires 1 <= x < 16383 && (x + 16) * p <= x * q
    ensures (U + 300) * p <= (U - 300) * q
  {
    ScaledUp(U - 300, (x + 16) * p, U - 300, x * q);
    ScaledUp((U + 300) * x, p, (U - 300) * (x + 16), p);
    Turned(U - 300, x + 16, p);
    Turned(U - 300, x, q);
    Turned(U + 300, x, p);
    Cancelled(x, (U + 300) * p, (U - 300) * q);
  }

  lemma {:induction false} Ordered(x: nat, x': nat, scale: int)
    requires x <= x' <= 16383
    ensures Magnitude(x, scale) <= Magnitude(x', scale)
    decreases x'
  {
    hide Magnitude;
    if x < x' {
      Ordered(x, x' - 1, scale);
      Grows(x' - 1, scale);
    }
  }

  /** A dequantized sample from its coefficient, sign and all, neither falls as the coefficient rises nor
      differs, but for sign, between a coefficient and its negative. */
  lemma SamplesOrdered(v: int, w: int, scale: int)
    requires -16383 <= v <= w <= 16383
    ensures Dequant.Signed(v, Magnitude(Abs(v), scale)) <= Dequant.Signed(w, Magnitude(Abs(w), scale))
    ensures Dequant.Signed(-v, Magnitude(Abs(-v), scale)) == -Dequant.Signed(v, Magnitude(Abs(v), scale))
  {
    hide Magnitude;
    ZeroStays(scale);
    if v >= 0 {
      Ordered(v, w, scale);
    } else if w < 0 {
      Ordered(-w, -v, scale);
    }
  }

  /** The source's word for its polynomials is a relative error below one in 10^7; at 4239 it is above. */
  lemma BeyondTenMillionth()
    ensures Normalized(4239).0 == 0x423c_0000
    ensures 1_000_000_000_000_000_000_000 * Cube(Form(true, 0x423c_0000)) > 1_000_000_300_000_030_000_001 * (Pow2(347) * Fourth(0x423c_0000))
  {
    Scale347();
  }
}
