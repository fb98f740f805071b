/** codec/aacdecode/dequant.c: the two polynomials that stand for the power 4/3 of a word in [2^30, 2^31),
    and how close their cubes come to its fourth power. */
module Polynomial43 {
  import opened Fixed
  import opened Power43
  import opened Closeness

  // ---- forms of two variables ----

  function Form1(a: int, b: int, m: int, y: int): int { a * m + b * y }
  function Form2(a: int, b: int, c: int, m: int, y: int): int { Form1(a, b, m, y) * m + c * (y * y) }
  function Form3(a: int, b: int, c: int, e: int, m: int, y: int): int { Form2(a, b, c, m, y) * m + e * (y * y * y) }
  function Form4(a: int, b: int, c: int, e: int, f: int, m: int, y: int): int { Form3(a, b, c, e, m, y) * m + f * (y * y * y * y) }

  function Real4(a: real, b: real, c: real, e: real, f: real, m: real, y: real): real
  {
    (((a * m + b * y) * m + c * (y * y)) * m + e * (y * y * y)) * m + f * (y * y * y * y)
  }

  lemma FormIsReal(a: int, b: int, c: int, e: int, f: int, m: int, y: int)
    ensures Form4(a, b, c, e, f, m, y) as real == Real4(a as real, b as real, c as real, e as real, f as real, m as real, y as real)
  {
  }

  lemma RealMoved(a: real, b: real, c: real, e: real, f: real, n: real, y: real, d: real)
    ensures Real4(a, b, c, e, f, n * y + d, y)
      == Real4(a, 4.0 * a * n + b, (6.0 * a * n + 3.0 * b) * n + c, ((4.0 * a * n + 3.0 * b) * n + 2.0 * c) * n + e,
               (((a * n + b) * n + c) * n + e) * n + f, d, y)
  {
  }

  lemma RealCoefs(a: int, b: int, c: int, e: int, f: int, n: int)
    ensures (4 * a * n + b) as real == 4.0 * a as real * n as real + b as real
    ensures ((6 * a * n + 3 * b) * n + c) as real == (6.0 * a as real * n as real + 3.0 * b as real) * n as real + c as real
    ensures (((4 * a * n + 3 * b) * n + 2 * c) * n + e) as real
      == ((4.0 * a as real * n as real + 3.0 * b as real) * n as real + 2.0 * c as real) * n as real + e as real
    ensures ((((a * n + b) * n + c) * n + e) * n + f) as real
      == (((a as real * n as real + b as real) * n as real + c as real) * n as real + e as real) * n as real + f as real
  {
  }

  /** A form about n y. */
  lemma Moved(a: int, b: int, c: int, e: int, f: int, n: int, y: int, d: int)
    ensures Form4(a, b, c, e, f, n * y + d, y)
      == Form4(a, 4 * a * n + b, (6 * a * n + 3 * b) * n + c, ((4 * a * n + 3 * b) * n + 2 * c) * n + e,
               (((a * n + b) * n + c) * n + e) * n + f, d, y)
  {
    hide Form4, Real4;
    RealMoved(a as real, b as real, c as real, e as real, f as real, n as real, y as real, d as real);
    RealCoefs(a, b, c, e, f, n);
    assert (n * y + d) as real == n as real * y as real + d as real;
    FormIsReal(a, b, c, e, f, n * y + d, y);
    var s3, s2 := 4 * a * n + b, (6 * a * n + 3 * b) * n + c;
    var s1, s0 := ((4 * a * n + 3 * b) * n + 2 * c) * n + e, (((a * n + b) * n + c) * n + e) * n + f;
    FormIsReal(a, s3, s2, s1, s0, d, y);
  }

  /** A multiple of one form less a multiple of another. */
  lemma Combined(g: int, h: int, a: int, b: int, c: int, e: int, f: int, a': int, b': int, c': int, e': int, f': int, d: int, y: int)
    ensures g * Form4(a, b, c, e, f, d, y) - h * Form4(a', b', c', e', f', d, y)
      == Form4(g * a - h * a', g * b - h * b', g * c - h * c', g * e - h * e', g * f - h * f', d, y)
  {
    Pairwise(g, h, a, a', b, b', d, y);
    Pairwise(g, h, Form1(a, b, d, y), Form1(a', b', d, y), c, c', d, y * y);
    Pairwise(g, h, Form2(a, b, c, d, y), Form2(a', b', c', d, y), e, e', d, y * y * y);
    Pairwise(g, h, Form3(a, b, c, e, d, y), Form3(a', b', c', e', d, y), f, f', d, y * y * y * y);
  }

  lemma Pairwise(g: int, h: int, x: int, x': int, e: int, e': int, d: int, z: int)
    ensures g * (x * d + e * z) - h * (x' * d + e' * z) == (g * x - h * x') * d + (g * e - h * e') * z
  {
    assert g * (x * d + e * z) == (g * x) * d + (g * e) * z;
    assert h * (x' * d + e' * z) == (h * x') * d + (h * e') * z;
  }

  // ---- how large a form is near zero ----

  function More(most: int, n: int, s: int, e: int): int { most * n + s * Abs(e) }

  /** The most, times y^4 / 2^20, that a form is within n y / 32 of zero. */
  function Most(a: int, b: int, c: int, e: int, f: int, n: nat): int
  {
    More(More(More(More(Abs(a), n, 0x20, b), n, 0x400, c), n, 0x8000, e), n, 0x10_0000, f)
  }

  lemma Grown(x: int, most: int, z: nat, s: nat, e: int, d: int, n: nat, y: nat)
    requires s * Abs(x) <= z * most && 0x20 * Abs(d) <= n * y
    ensures 0x20 * s * Abs(x * d + e * (z * y)) <= z * y * More(most, n, 0x20 * s, e)
  {
    ScaledUp(s * Abs(x), 0x20 * Abs(d), z * most, n * y);
    AbsSum(x, d, e, z * y);
    ScaledUp(0x20 * s, Abs(x * d + e * (z * y)), 0x20 * s, Abs(x) * Abs(d) + Abs(e) * (z * y));
    Regrouped(s, Abs(x), Abs(d), Abs(e), z, y, most, n);
  }

  lemma AbsSum(x: int, d: int, e: int, z: nat)
    ensures Abs(x * d + e * z) <= Abs(x) * Abs(d) + Abs(e) * z
  {
    AbsTimes(x, d);
    AbsTimes(e, z);
  }

  lemma AbsTimes(x: int, d: int)
    ensures Abs(x * d) == Abs(x) * Abs(d)
  {
    assert x * d == (-x) * (-d) && (-x) * d == -(x * d) == x * (-d);
  }

  lemma Regrouped(s: int, x: int, d: int, e: int, z: int, y: int, most: int, n: int)
    ensures 0x20 * s * (x * d + e * (z * y)) == s * x * (0x20 * d) + z * y * (0x20 * s * e)
    ensures z * y * (most * n + 0x20 * s * e) == z * most * (n * y) + z * y * (0x20 * s * e)
  {
  }

  lemma Bounded1(a: int, b: int, d: int, n: nat, y: nat)
    requires 0x20 * Abs(d) <= n * y
    ensures 0x20 * Abs(Form1(a, b, d, y)) <= y * More(Abs(a), n, 0x20, b)
  {
    hide More, Abs;
    Grown(a, Abs(a), 1, 1, b, d, n, y);
  }

  lemma Bounded2(a: int, b: int, c: int, d: int, n: nat, y: nat)
    requires 0x20 * Abs(d) <= n * y
    ensures 0x400 * Abs(Form2(a, b, c, d, y)) <= y * y * More(More(Abs(a), n, 0x20, b), n, 0x400, c)
  {
    hide Abs, More, Form1;
    Bounded1(a, b, d, n, y);
    Grown(Form1(a, b, d, y), More(Abs(a), n, 0x20, b), y, 0x20, c, d, n, y);
  }

  lemma Bounded3(a: int, b: int, c: int, e: int, d: int, n: nat, y: nat)
    requires 0x20 * Abs(d) <= n * y
    ensures 0x8000 * Abs(Form3(a, b, c, e, d, y)) <= y * y * y * More(More(More(Abs(a), n, 0x20, b), n, 0x400, c), n, 0x8000, e)
  {
    hide Abs, More, Form1, Form2;
    Bounded2(a, b, c, d, n, y);
    Grown(Form2(a, b, c, d, y), More(More(Abs(a), n, 0x20, b), n, 0x400, c), y * y, 0x400, e, d, n, y);
  }

  lemma Bounded(a: int, b: int, c: int, e: int, f: int, d: int, n: nat, y: nat)
    requires 0x20 * Abs(d) <= n * y
    ensures 0x10_0000 * Abs(Form4(a, b, c, e, f, d, y)) <= y * y * y * y * Most(a, b, c, e, f, n)
  {
    hide Abs, More, Form1, Form2, Form3;
    var m3 := More(More(More(Abs(a), n, 0x20, b), n, 0x400, c), n, 0x8000, e);
    Bounded3(a, b, c, e, d, n, y);
    Grown(Form3(a, b, c, e, d, y), m3, y * y * y, 0x8000, f, d, n, y);
  }

  // ---- the cubic that the power 4/3 is near ----

  /** 81 c^3 (1 + d/c)^(4/3), up to the fourth power of d/c. */
  function Model(c: int, d: int): int { ((-4 * d + 18 * c) * d + 108 * (c * c)) * d + 81 * (c * c * c) }

  /** What the model's cube lacks of the fourth power, but for d^4. */
  function Lack(c: int, d: int): int { Form4(64, -864, -1296, 36936, 69984, d, c) * d + 32805 * (c * c * c * c * c) }

  lemma RealCubed(c: real, d: real, m: real, k: real, c5: real)
    requires m == ((-4.0 * d + 18.0 * c) * d + 108.0 * (c * c)) * d + 81.0 * (c * c * c)
    requires k == ((((64.0 * d - 864.0 * c) * d - 1296.0 * (c * c)) * d + 36936.0 * (c * c * c)) * d + 69984.0 * (c * c * c * c)) * d
      + 32805.0 * (c * c * c * c * c)
    requires c5 == c * c * c * c * c
    ensures RealCube(m) + RealFourth(d) * k == 531441.0 * c5 * RealFourth(c + d)
  {
  }

  lemma Cubed(c: int, d: int)
    ensures Cube(Model(c, d)) + Fourth(d) * Lack(c, d) == 531441 * (c * c * c * c * c) * Fourth(c + d)
  {
    ModelIsReal(c, d);
    FifthIsReal(c);
    hide Model, Lack, Cube, Fourth, RealCube, RealFourth;
    var m, k, c5 := Model(c, d), Lack(c, d), c * c * c * c * c;
    RealCubed(c as real, d as real, m as real, k as real, c5 as real);
    CastBack(m, k, c, d, c5);
  }

  lemma FifthIsReal(c: int)
    ensures (c * c * c * c * c) as real == c as real * c as real * c as real * c as real * c as real
  {
  }

  lemma CastBack(m: int, k: int, c: int, d: int, c5: int)
    requires RealCube(m as real) + RealFourth(d as real) * k as real == 531441.0 * c5 as real * RealFourth(c as real + d as real)
    ensures Cube(m) + Fourth(d) * k == 531441 * c5 * Fourth(c + d)
  {
    hide Cube, Fourth, RealCube, RealFourth;
    CubeIsReal(m);
    FourthIsReal(d);
    FourthIsReal(c + d);
    Times(Fourth(d), k);
    Times(531441 * c5, Fourth(c + d));
  }

  lemma ModelIsReal(c: int, d: int)
    ensures Model(c, d) as real
      == ((-4.0 * d as real + 18.0 * c as real) * d as real + 108.0 * (c as real * c as real)) * d as real + 81.0 * (c as real * c as real * c as real)
    ensures Lack(c, d) as real
      == ((((64.0 * d as real - 864.0 * c as real) * d as real - 1296.0 * (c as real * c as real)) * d as real
           + 36936.0 * (c as real * c as real * c as real)) * d as real + 69984.0 * (c as real * c as real * c as real * c as real)) * d as real
         + 32805.0 * (c as real * c as real * c as real * c as real * c as real)
  {
  }

  function RealCube(a: real): real { a * a * a }
  function RealFourth(a: real): real { (a * a) * (a * a) }

  lemma Times(a: int, b: int)
    ensures (a * b) as real == a as real * b as real
  {
  }

  lemma CubeIsReal(a: int)
    ensures Cube(a) as real == RealCube(a as real)
  {
  }

  lemma FourthIsReal(a: int)
    ensures Fourth(a) as real == RealFourth(a as real)
  {
  }

  lemma ModelIsPositive(c: nat, d: int)
    requires 0x20 * Abs(d) <= c
    ensures Model(c, d) >= 77 * (c * c * c)
  {
    hide More;
    Bounded2(-4, 18, 108, d, 1, c);
    assert More(More(Abs(-4), 1, 0x20, 18), 1, 0x400, 108) == 0x1_b244 by { Numbers(); }
    Grown(Form2(-4, 18, 108, d, c), 0x1_b244, c * c, 0x400, 0, d, 1, c);
    assert More(0x1_b244, 1, 0x8000, 0) == 0x1_b244 by { Numbers(); }
  }

  lemma Numbers()
    ensures More(More(Abs(-4), 1, 0x20, 18), 1, 0x400, 108) == 0x1_b244
    ensures More(0x1_b244, 1, 0x8000, 0) == 0x1_b244
    ensures Most(64, -864, -1296, 36936, 69984, 1) == 74_595_216_448
    ensures More(74_595_216_448, 1, 0x200_0000, 0) == 74_595_216_448
  {
  }

  lemma LackIsSmall(c: nat, d: int)
    requires 0x20 * Abs(d) <= c
    ensures 0 <= Lack(c, d) <= 35030 * (c * c * c * c * c)
  {
    hide More, Most, Form4;
    Bounded(64, -864, -1296, 36936, 69984, d, 1, c);
    Numbers();
    Grown(Form4(64, -864, -1296, 36936, 69984, d, c), 74_595_216_448, c * c * c * c, 0x10_0000, 0, d, 1, c);
  }

  lemma ModelNear(c: nat, d: int, q: nat, c5: nat)
    requires 0x20 * Abs(d) <= c && q == Model(c, d) && c5 == c * c * c * c * c
    ensures 0 <= Cube(q) && Rel(Cube(q), 531441 * c5 * Fourth(c + d), 2)
  {
    LackOfModel(c, d, q, c5);
    hide Model, Lack, Cube, Fourth;
    CubeIsNat(q);
    FourthOrder(0x20 * Abs(d), c);
    FourthOrder(31 * c, 0x20 * (c + d));
    FourthScaled(d);
    FourthScaled(c + d);
    FourthOf31(c);
    Weighed(c5, Fourth(c), Fourth(d), Fourth(c + d), Lack(c, d), Cube(q));
  }

  lemma LackOfModel(c: nat, d: int, q: int, c5: int)
    requires 0x20 * Abs(d) <= c && q == Model(c, d) && c5 == c * c * c * c * c
    ensures Cube(q) + Fourth(d) * Lack(c, d) == 531441 * c5 * Fourth(c + d) && 0 <= Lack(c, d) <= 35030 * c5
  {
    hide Model, Lack, Cube, Fourth;
    Cubed(c, d);
    LackIsSmall(c, d);
  }

  lemma FourthScaled(d: int)
    ensures Fourth(0x20 * Abs(d)) == 0x10_0000 * Fourth(d) && Fourth(0x20 * d) == 0x10_0000 * Fourth(d)
  {
    FourthTimes(0x20, d);
    FourthTimes(-0x20, d);
    assert Fourth(0x20) == 0x10_0000 == Fourth(-0x20);
  }

  lemma FourthOf31(c: int)
    ensures Fourth(31 * c) == 923_521 * Fourth(c)
  {
    FourthTimes(31, c);
    assert Fourth(31) == 923_521;
  }

  lemma Weighed(c5: nat, c4: nat, d4: nat, m4: nat, k: nat, q: nat)
    requires q + d4 * k == 531441 * c5 * m4 && 0x10_0000 * d4 <= c4 && k <= 35030 * c5 && 923_521 * c4 <= 0x10_0000 * m4
    ensures Rel(q, 531441 * c5 * m4, 2)
  {
    ScaledUp(0x10_0000 * d4, k, c4, 35030 * c5);
    ScaledUp(923_521 * c4, c5, 0x10_0000 * m4, c5);
  }

  // ---- the two polynomials ----

  const STEP := 0x200_0000
  const SCALE := 0x8_0000_0000_0000_0000_0000_0000_0000_0000_0000    // 2^147

  /** About n the form is the model times its value there, but for ten parts in 2^24, and that value is
      right but for six. */
  predicate Fine(a: int, b: int, c: int, e: int, f: int, n: nat)
  {
    var s3, s2 := 4 * a * n + b, (6 * a * n + 3 * b) * n + c;
    var s1, s0 := ((4 * a * n + 3 * b) * n + 2 * c) * n + e, (((a * n + b) * n + c) * n + e) * n + f;
    var g := 81 * (n * n * n);
    0 < s0 && 0 < n
    && 16 * Most(g * a - s0 * 0, g * s3 - s0 * -4, g * s2 - s0 * (18 * n), g * s1 - s0 * (108 * (n * n)), g * s0 - s0 * g, n)
       <= 770 * (n * n * n) * s0
    && 0xff_fffa * (n * n * n * n * SCALE) <= 0x100_0000 * (s0 * s0 * s0) <= 0x100_0006 * (n * n * n * n * SCALE)
  }

  lemma ModelIsForm(n: int, y: int, d: int)
    ensures Form4(0, -4, 18 * n, 108 * (n * n), 81 * (n * n * n), d, y) == y * Model(n * y, d)
  {
    var c, z := n * y, -4 * d + 18 * (n * y);
    assert 0 * d + -4 * y == -4 * y;
    assert (-4 * y) * d + 18 * n * (y * y) == y * z;
    assert (y * z) * d + 108 * (n * n) * (y * y * y) == y * (z * d + 108 * (c * c)) by {
      assert (n * n) * (y * y * y) == y * (c * c);
      Pulled(y, z, d, 108 * (c * c));
    }
    assert 81 * (n * n * n) * (y * y * y * y) == y * (81 * (c * c * c)) by {
      assert (n * n * n) * (y * y * y * y) == y * (c * c * c);
    }
    Pulled(y, z * d + 108 * (c * c), d, 81 * (c * c * c));
  }

  lemma Pulled(y: int, z: int, d: int, k: int)
    ensures (y * z) * d + y * k == y * (z * d + k)
  {
  }

  /** Near n y the form is the model times its value at n. */
  lemma FormNear(a: int, b: int, c: int, e: int, f: int, n: nat, y: nat, d: int, s0: nat, g: nat, v: int, q: nat, p: nat)
    requires Fine(a, b, c, e, f, n) && 0 < y && 0x20 * Abs(d) <= n * y && s0 == (((a * n + b) * n + c) * n + e) * n + f
    requires g == 81 * (n * n * n) && v == Form4(a, b, c, e, f, n * y + d, y) && q == Model(n * y, d)
    requires p == s0 * (y * q)
    ensures 0 <= v && 0 <= g * v && Rel(g * v, p, 10)
  {
    hide Form4, Model, Most;
    var s3, s2, s1 := 4 * a * n + b, (6 * a * n + 3 * b) * n + c, ((4 * a * n + 3 * b) * n + 2 * c) * n + e;
    Moved(a, b, c, e, f, n, y, d);
    ModelIsForm(n, y, d);
    Combined(g, s0, a, s3, s2, s1, s0, 0, -4, 18 * n, 108 * (n * n), g, d, y);
    Bounded(g * a - s0 * 0, g * s3 - s0 * -4, g * s2 - s0 * (18 * n), g * s1 - s0 * (108 * (n * n)), g * s0 - s0 * g, d, n, y);
    ModelIsPositive(n * y, d);
    Gathered(g * v - s0 * (y * q),
             Most(g * a - s0 * 0, g * s3 - s0 * -4, g * s2 - s0 * (18 * n), g * s1 - s0 * (108 * (n * n)), g * s0 - s0 * g, n), n, y, s0, q);
    ProductIsNat(y, q);
    Closing(g, v, s0, y * q);
  }

  lemma Gathered(diff: int, most: int, n: nat, y: nat, s0: nat, model: nat)
    requires 0x10_0000 * Abs(diff) <= y * y * y * y * most && 16 * most <= 770 * (n * n * n) * s0
    requires model >= 77 * ((n * y) * (n * y) * (n * y))
    ensures 0x100_0000 * Abs(diff) <= 10 * (s0 * (y * model))
  {
    var z, k := y * y * y * y, (n * n * n) * s0;
    Lifted(n, y, s0, model);
    assert 770 * (n * n * n) * s0 == 770 * k;
    Compared(z, most, 770 * k);
    assert 77 * (k * z) <= s0 * (y * model);
  }

  lemma Lifted(n: nat, y: nat, s0: nat, model: nat)
    requires model >= 77 * ((n * y) * (n * y) * (n * y))
    ensures 77 * (((n * n * n) * s0) * (y * y * y * y)) <= s0 * (y * model)
  {
    Product(y, n);
    ScaledUp(s0 * y, 77 * ((n * n * n) * (y * y * y)), s0 * y, model);
    Rearranged(s0, y, n * n * n, y * y * y, model);
  }

  lemma Product(y: nat, n: nat)
    ensures (n * y) * (n * y) * (n * y) == (n * n * n) * (y * y * y) && (y * y * y) * y == y * y * y * y
  {
    CubeTimes(n, y);
  }

  lemma Rearranged(s: int, y: int, n: int, z: int, model: int)
    ensures (s * y) * (77 * (n * z)) == 77 * ((n * s) * (z * y)) && (s * y) * model == s * (y * model)
  {
    assert (s * y) * (n * z) == (n * s) * (z * y);
  }

  lemma Compared(z: nat, most: int, k: int)
    requires 16 * most <= k
    ensures 16 * (z * most) <= z * k
  {
    assert z * (k - 16 * most) >= 0;
  }

  lemma Closing(g: nat, v: int, s0: nat, q: nat)
    requires g > 0 && 0x100_0000 * Abs(g * v - s0 * q) <= 10 * (s0 * q)
    ensures 0 <= v && Rel(g * v, s0 * q, 10)
  {
    assert g * v >= 0;
  }

  /** And its cube is the fourth power, in a fixed scale. */
  lemma FormCube(a: int, b: int, c: int, e: int, f: int, n: nat, y: nat, d: int, t: nat)
    requires Fine(a, b, c, e, f, n) && 0 < y && 0x20 * Abs(d) <= n * y
    requires t == SCALE * (y * y * y * y * (y * y * y * y))
    ensures var v := Form4(a, b, c, e, f, n * y + d, y);
      0 <= v && 0 <= Cube(v) && Rel(Cube(v), t * Fourth(n * y + d), 42)
  {
    hide Form4, Model, Most, Rel, Cube, Fourth;
    var s0, v, g := (((a * n + b) * n + c) * n + e) * n + f, Form4(a, b, c, e, f, n * y + d, y), 81 * (n * n * n);
    ModelIsPositive(n * y, d);
    Scales(n, y);
    AtCentre(a, b, c, e, f, n, s0);
    var q: nat := Model(n * y, d);
    ProductIsNat(y, q);
    ProductIsNat(s0, y * q);
    FormNear(a, b, c, e, f, n, y, d, s0, g, v, q, s0 * (y * q));
    hide Fine;
    Assembled(n, y, d, s0, g, v, q, (n * y) * (n * y) * (n * y) * (n * y) * (n * y));
  }

  lemma Scales(n: nat, y: nat)
    ensures n * y >= 0 && (n * y) * (n * y) * (n * y) >= 0 && (n * y) * (n * y) * (n * y) * (n * y) * (n * y) >= 0
  {
    CubeIsNat(n * y);
    ScaledUp(n * y, n * y, n * y, n * y);
    ScaledUp((n * y) * (n * y) * (n * y), (n * y) * (n * y), (n * y) * (n * y) * (n * y), (n * y) * (n * y));
  }

  lemma Assembled(n: nat, y: nat, d: int, s0: nat, g: nat, v: nat, q: nat, c5: nat)
    requires 0 < n && 0 < y && 0x20 * Abs(d) <= n * y && q == Model(n * y, d) && c5 == (n * y) * (n * y) * (n * y) * (n * y) * (n * y)
    requires g == 81 * (n * n * n) && 0 <= Cube(s0) && Rel(Cube(s0), n * n * n * n * SCALE, 6) && Rel(g * v, s0 * (y * q), 10)
    ensures 0 <= Cube(v) && Rel(Cube(v), SCALE * (y * y * y * y * (y * y * y * y)) * Fourth(n * y + d), 42)
  {
    hide Model, Rel, Cube, Fourth;
    ModelNear(n * y, d, q, c5);
    var n4, m4 := n * n * n * n, Fourth(n * y + d);
    RelCube(g * v, s0 * (y * q), 10);
    CubeTimes(g, v);
    CubeTimes(s0, y * q);
    CubeTimes(y, q);
    CubeIsNat(y);
    CubeIsNat(v);
    CubeIsNat(g);
    RelTimes(Cube(s0), n4 * SCALE, 6, Cube(q), 531441 * c5 * m4, 2);
    ProductIsNat(531441 * c5, m4);
    ProductIsNat(n4 * SCALE, 531441 * c5 * m4);
    Linked(Cube(g), Cube(v), Cube(y), Cube(s0), Cube(q), n4 * SCALE * (531441 * c5 * m4));
    Weights(n, y, m4, g);
    RelCancel(Cube(g), Cube(v), SCALE * (y * y * y * y * (y * y * y * y)) * m4, 42);
  }

  lemma Linked(g: nat, v: nat, y: nat, s: nat, q: nat, t: nat)
    requires Rel(g * v, s * (y * q), 32) && Rel(s * q, t, 9)
    ensures Rel(g * v, y * t, 42)
  {
    hide Rel;
    RelScale(y, s * q, t, 9);
    assert s * (y * q) == y * (s * q);
    RelTrans(g * v, y * (s * q), 32, y * t, 9);
  }

  lemma AtCentre(a: int, b: int, c: int, e: int, f: int, n: nat, s0: nat)
    requires Fine(a, b, c, e, f, n) && s0 == (((a * n + b) * n + c) * n + e) * n + f
    ensures 0 <= Cube(s0) && Rel(Cube(s0), n * n * n * n * SCALE, 6)
  {
    hide Most;
  }

  lemma Weights(n: nat, y: nat, m4: nat, g: nat)
    requires g == 81 * (n * n * n) && 0 < n
    ensures 0 < Cube(g)
    ensures Cube(y) * (n * n * n * n * SCALE * (531441 * ((n * y) * (n * y) * (n * y) * (n * y) * (n * y)) * m4))
      == Cube(g) * (SCALE * (y * y * y * y * (y * y * y * y)) * m4)
  {
    var n3, n5, y5 := n * n * n, n * n * n * n * n, y * y * y * y * y;
    Fifth(n, y);
    CubeTimes(81, n3);
    assert n3 > 0;
    AtLeastOnce(n3, n3);
    AtLeastOnce(n3 * n3, n3);
    Regathered(y * y * y, n * n * n * n, SCALE, n5, y5, m4);
    Ninth(n);
    Eighth(y);
  }

  lemma Fifth(n: int, y: int)
    ensures (n * y) * (n * y) * (n * y) * (n * y) * (n * y) == (n * n * n * n * n) * (y * y * y * y * y)
  {
    Crossed(n, y, n, y);
    Crossed(n * n, y * y, n, y);
    Crossed(n * n * n, y * y * y, n, y);
    Crossed(n * n * n * n, y * y * y * y, n, y);
  }

  lemma Ninth(n: int)
    ensures (n * n * n * n) * (n * n * n * n * n) == Cube(n * n * n)
  {
  }

  lemma Eighth(y: int)
    ensures (y * y * y) * (y * y * y * y * y) == y * y * y * y * (y * y * y * y)
  {
  }

  lemma Regathered(y3: int, n4: int, s: int, n5: int, y5: int, m: int)
    ensures y3 * (n4 * s * (531441 * (n5 * y5) * m)) == 531441 * (n4 * n5) * (s * (y3 * y5) * m)
  {
    assert (n5 * y5) * m == n5 * (y5 * m);
    assert n4 * s * (531441 * (n5 * (y5 * m))) == 531441 * (n4 * n5) * (s * (y5 * m));
  }

  // ---- the source's coefficients, centre by centre ----

  lemma Low33()
    ensures Fine(0x29a0bda9, -0x4fd1b7d8 * 0x80, 0x5957aa1b * 0x4000, 0x236c498d * 0x20_0000, -0xa7e7a7 * 0x1000_0000, 33)
  {
  }

  lemma Low35()
    ensures Fine(0x29a0bda9, -0x4fd1b7d8 * 0x80, 0x5957aa1b * 0x4000, 0x236c498d * 0x20_0000, -0xa7e7a7 * 0x1000_0000, 35)
  {
  }

  lemma Low37()
    ensures Fine(0x29a0bda9, -0x4fd1b7d8 * 0x80, 0x5957aa1b * 0x4000, 0x236c498d * 0x20_0000, -0xa7e7a7 * 0x1000_0000, 37)
  {
  }

  lemma Low39()
    ensures Fine(0x29a0bda9, -0x4fd1b7d8 * 0x80, 0x5957aa1b * 0x4000, 0x236c498d * 0x20_0000, -0xa7e7a7 * 0x1000_0000, 39)
  {
  }

  lemma Low41()
    ensures Fine(0x29a0bda9, -0x4fd1b7d8 * 0x80, 0x5957aa1b * 0x4000, 0x236c498d * 0x20_0000, -0xa7e7a7 * 0x1000_0000, 41)
  {
  }

  lemma Low43()
    ensures Fine(0x29a0bda9, -0x4fd1b7d8 * 0x80, 0x5957aa1b * 0x4000, 0x236c498d * 0x20_0000, -0xa7e7a7 * 0x1000_0000, 43)
  {
  }

  lemma Low44()
    ensures Fine(0x29a0bda9, -0x4fd1b7d8 * 0x80, 0x5957aa1b * 0x4000, 0x236c498d * 0x20_0000, -0xa7e7a7 * 0x1000_0000, 44)
  {
  }

  lemma High46()
    ensures Fine(0x10852163, -0x2ccc095c * 0x80, 0x46e9408b * 0x4000, 0x27c2cef0 * 0x20_0000, -0x10a884c * 0x1000_0000, 46)
  {
  }

  lemma High48()
    ensures Fine(0x10852163, -0x2ccc095c * 0x80, 0x46e9408b * 0x4000, 0x27c2cef0 * 0x20_0000, -0x10a884c * 0x1000_0000, 48)
  {
  }

  lemma High51()
    ensures Fine(0x10852163, -0x2ccc095c * 0x80, 0x46e9408b * 0x4000, 0x27c2cef0 * 0x20_0000, -0x10a884c * 0x1000_0000, 51)
  {
  }

  lemma High54()
    ensures Fine(0x10852163, -0x2ccc095c * 0x80, 0x46e9408b * 0x4000, 0x27c2cef0 * 0x20_0000, -0x10a884c * 0x1000_0000, 54)
  {
  }

  lemma High57()
    ensures Fine(0x10852163, -0x2ccc095c * 0x80, 0x46e9408b * 0x4000, 0x27c2cef0 * 0x20_0000, -0x10a884c * 0x1000_0000, 57)
  {
  }

  lemma High60()
    ensures Fine(0x10852163, -0x2ccc095c * 0x80, 0x46e9408b * 0x4000, 0x27c2cef0 * 0x20_0000, -0x10a884c * 0x1000_0000, 60)
  {
  }

  lemma High63()
    ensures Fine(0x10852163, -0x2ccc095c * 0x80, 0x46e9408b * 0x4000, 0x27c2cef0 * 0x20_0000, -0x10a884c * 0x1000_0000, 63)
  {
  }

  /** The coefficients as the evaluation weighs them: each step of it drops 32 bits, 25 of them the step's. */
  function Form(lo: bool, m: int): int
  {
    Form4(Coef(lo, 0), Coef(lo, 1) * 0x80, Coef(lo, 2) * 0x4000, Coef(lo, 3) * 0x20_0000, Coef(lo, 4) * 0x1000_0000, m, STEP)
  }

  lemma Scale347()
    ensures Pow2(347) == SCALE * (STEP * STEP * STEP * STEP * (STEP * STEP * STEP * STEP))
  {
    hide Pow2;
    assert Pow2(19) == 0x8_0000 && Pow2(25) == STEP by { SmallPowers(); }
    Pow2Of32();
    Pow2Sum(32, 32);
    Pow2Sum(64, 64);
    Pow2Sum(128, 19);
    Pow2Sum(25, 25);
    Pow2Sum(50, 50);
    Pow2Sum(100, 100);
    Pow2Sum(147, 200);
  }

  lemma SmallPowers()
    ensures Pow2(19) == 0x8_0000 && Pow2(25) == STEP
  {
    assert Pow2(3) == 8 && Pow2(1) == 2;
    UpEight(1);
    Pow2Of32();
    Pow2Sum(8, 8);
    Pow2Sum(16, 3);
    Pow2Sum(24, 1);
  }
}
