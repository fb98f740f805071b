/** Numbers that agree but for a few parts in 2^24, and their products, powers and truncations. */
module Closeness {
  import opened Fixed

  const U := 0x100_0000    // 2^24

  /** a is b but for e parts in 2^24. */
  predicate Rel(a: nat, b: nat, e: nat) { (U - e) * b <= U * a <= (U + e) * b }

  lemma Crossed(a: int, b: int, c: int, d: int)
    ensures (a * b) * (c * d) == (a * c) * (b * d)
  {
  }

  lemma RelTimes(a: nat, b: nat, e: nat, c: nat, d: nat, f: nat)
    requires Rel(a, b, e) && Rel(c, d, f) && e + f <= 0x1000
    ensures Rel(a * c, b * d, e + f + 1)
  {
    ScaledUp(e, f, 0x1000, 0x1000);
    Margins(e, f);
    ProductIsNat(b, d);
    var q, g := b * d, e + f + 1;
    TimesBoth(U, a, U + e, b, U, c, U + f, d);
    TimesBoth(U - e, b, U, a, U - f, d, U, c);
    ScaledUp((U + e) * (U + f), q, U * (U + g), q);
    ScaledUp(U * (U - g), q, (U - e) * (U - f), q);
    Divided(a * c, q, g);
  }

  lemma TimesBoth(u: nat, a: nat, v: nat, b: nat, w: nat, c: nat, x: nat, d: nat)
    requires u * a <= v * b && w * c <= x * d
    ensures (u * w) * (a * c) <= (v * x) * (b * d)
  {
    ScaledUp(u * a, w * c, v * b, x * d);
    Crossed(u, a, w, c);
    Crossed(v, b, x, d);
  }

  lemma Margins(e: nat, f: nat)
    requires e + f <= 0x1000 && e * f <= 0x1000 * 0x1000
    ensures (U + e) * (U + f) <= U * (U + (e + f + 1)) && U * (U - (e + f + 1)) <= (U - e) * (U - f)
  {
    assert (U + e) * (U + f) == U * U + U * (e + f) + e * f;
    assert (U - e) * (U - f) == U * U - U * (e + f) + e * f;
  }

  lemma Divided(p: nat, q: nat, g: nat)
    requires g <= U && U * (U - g) * q <= U * U * p <= U * (U + g) * q
    ensures Rel(p, q, g)
  {
    assert U * (U - g) * q == U * ((U - g) * q) && U * (U + g) * q == U * ((U + g) * q) by { Pulled(U - g, q); Pulled(U + g, q); }
  }

  lemma Pulled(k: int, q: int)
    ensures U * k * q == U * (k * q)
  {
  }

  lemma RelTrans(a: nat, b: nat, e: nat, c: nat, f: nat)
    requires Rel(a, b, e) && Rel(b, c, f) && e + f <= 0x1000
    ensures Rel(a, c, e + f + 1)
  {
    ScaledUp(U + e, U * b, U + e, (U + f) * c);
    ScaledUp(U - e, (U - f) * c, U - e, U * b);
    ScaledUp(e, f, 0x1000, 0x1000);
    Margins(e, f);
    ScaledUp((U + e) * (U + f), c, U * (U + (e + f + 1)), c);
    ScaledUp(U * (U - (e + f + 1)), c, (U - e) * (U - f), c);
    Moved(e, f, b, c);
    Divided(a, c, e + f + 1);
  }

  lemma Moved(e: int, f: int, b: int, c: int)
    ensures (U + e) * (U * b) == U * ((U + e) * b) && (U - e) * (U * b) == U * ((U - e) * b)
    ensures (U + e) * ((U + f) * c) == (U + e) * (U + f) * c && (U - e) * ((U - f) * c) == (U - e) * (U - f) * c
  {
  }

  lemma RelCancel(k: nat, a: nat, b: nat, e: nat)
    requires k > 0 && Rel(k * a, k * b, e) && e <= U
    ensures Rel(a, b, e)
  {
    Swapped(U, k, a);
    Swapped(U + e, k, b);
    Swapped(U - e, k, b);
    Cancelled(k, U * a, (U + e) * b);
    Cancelled(k, (U - e) * b, U * a);
  }

  lemma Swapped(u: int, k: int, a: int)
    ensures u * (k * a) == k * (u * a)
  {
  }

  lemma Cancelled(k: nat, p: int, q: int)
    requires k > 0 && k * p <= k * q
    ensures p <= q
  {
    assert k * (p - q) == k * p - k * q;
    if q < p { AtLeastOnce(k, p - q); }
  }

  lemma ProductIsNat(a: nat, b: nat)
    ensures 0 <= a * b
  {
  }

  lemma AtLeastOnce(k: nat, d: nat)
    requires k > 0 && d > 0
    ensures k * d > 0
  {
  }

  lemma RelBack(a: nat, b: nat, e: nat)
    requires Rel(a, b, e) && e <= 0x400
    ensures Rel(b, a, e + 1)
  {
    ScaledUp(e, e, 0x400, 0x400);
    BackMargins(e);
    Raised(U + e + 1, U - e, b, U, a);
    Raised(U - e - 1, U, a, U + e, b);
    ScaledUp(U * U, b, (U + e + 1) * (U - e), b);
    ScaledUp((U - e - 1) * (U + e), b, U * U, b);
    Divided(b, a, e + 1);
  }

  lemma Raised(u: nat, v: nat, b: nat, w: nat, a: nat)
    requires v * b <= w * a
    ensures (u * v) * b <= (u * w) * a
  {
    ScaledUp(u, v * b, u, w * a);
    assert (u * v) * b == u * (v * b) && (u * w) * a == u * (w * a);
  }

  lemma BackMargins(e: nat)
    requires e * e <= 0x400 * 0x400 && e <= 0x400
    ensures U * U <= (U + e + 1) * (U - e) && (U - e - 1) * (U + e) <= U * U
  {
    assert (U + e + 1) * (U - e) == U * U + U - e * e - e;
    assert (U - e - 1) * (U + e) == U * U - U - e * e - e;
  }

  lemma RelLoose(a: nat, b: nat, e: nat, f: nat)
    requires Rel(a, b, e) && e <= f
    ensures Rel(a, b, f)
  {
    ScaledUp(U + e, b, U + f, b);
    assert (U - f) * b == (U - e) * b - (f - e) * b && (f - e) * b >= 0 by { ScaledUp(f - e, b, f - e, b); }
  }

  lemma RelScale(k: nat, a: nat, b: nat, e: nat)
    requires Rel(a, b, e) && e <= U
    ensures Rel(k * a, k * b, e)
  {
    Swapped(U, k, a);
    Swapped(U + e, k, b);
    Swapped(U - e, k, b);
    ScaledUp(k, U * a, k, (U + e) * b);
    ScaledUp(k, (U - e) * b, k, U * a);
  }

  /** A product cut off below a step s, and less than two steps below it. */
  lemma RelCut(q: nat, s: nat, a: nat)
    requires 2 * U <= q && q * s <= a < (q + 2) * s
    ensures Rel(q * s, a, 1)
  {
    ScaledUp(2 * U, s, q, s);
    assert (q + 2) * s == q * s + 2 * s;
  }

  // ---- powers ----

  function Cube(a: int): int { a * a * a }
  function Fourth(a: int): nat { SquareIsNat(a); SquareIsNat(a * a); (a * a) * (a * a) }

  lemma SquareIsNat(a: int)
    ensures a * a >= 0
  {
  }

  lemma RelCube(a: nat, b: nat, e: nat)
    requires Rel(a, b, e) && e <= 0x400
    ensures 0 <= Cube(a) && 0 <= Cube(b) && Rel(Cube(a), Cube(b), 3 * e + 2)
  {
    hide Rel;
    RelTimes(a, b, e, a, b, e);
    RelTimes(a * a, b * b, 2 * e + 1, a, b, e);
  }

  lemma RelFourth(a: nat, b: nat, e: nat)
    requires Rel(a, b, e) && e <= 0x300
    ensures Rel(Fourth(a), Fourth(b), 4 * e + 3)
  {
    hide Rel;
    RelTimes(a, b, e, a, b, e);
    RelTimes(a * a, b * b, 2 * e + 1, a * a, b * b, 2 * e + 1);
  }

  lemma CubeTimes(a: int, b: int)
    ensures Cube(a * b) == Cube(a) * Cube(b)
  {
    RealPowers(a as real, b as real);
  }

  lemma FourthTimes(a: int, b: int)
    ensures Fourth(a * b) == Fourth(a) * Fourth(b) && Fourth(Cube(a)) == Cube(Fourth(a))
  {
    RealPowers(a as real, b as real);
  }

  lemma RealPowers(a: real, b: real)
    ensures (a * b) * (a * b) * (a * b) == (a * a * a) * (b * b * b)
    ensures (a * b) * (a * b) * ((a * b) * (a * b)) == (a * a) * (a * a) * ((b * b) * (b * b))
  {
  }

  // ---- integers nearest a root ----

  lemma RelBetween(a: nat, t: nat, c: nat, b: nat, e: nat)
    requires Rel(a, b, e) && Rel(c, b, e) && a <= t <= c
    ensures Rel(t, b, e)
  {
  }

  lemma Beside(y: nat)
    requires U <= y
    ensures Rel(2 * y - 1, 2 * y, 1) && Rel(2 * y + 1, 2 * y, 1)
  {
  }

  lemma CubeIsNat(a: nat)
    ensures 0 <= Cube(a)
  {
  }

  lemma NearestCube(y: nat, t: nat)
    requires U <= y && Cube(2 * y - 1) <= 8 * t <= Cube(2 * y + 1)
    ensures 0 <= Cube(y) && Rel(Cube(y), t, 6)
  {
    hide Rel, Cube;
    Beside(y);
    RelCube(2 * y - 1, 2 * y, 1);
    RelCube(2 * y + 1, 2 * y, 1);
    RelBetween(Cube(2 * y - 1), 8 * t, Cube(2 * y + 1), Cube(2 * y), 5);
    RelBack(8 * t, Cube(2 * y), 5);
    CubeTimes(2, y);
    assert Cube(2) == 8 by { SmallCube(); }
    CubeIsNat(y);
    RelCancel(8, Cube(y), t, 6);
  }

  lemma SmallCube()
    ensures Cube(2) == 8 && Fourth(2) == 16 && Fourth(8) == 0x1000
  {
  }

  lemma NearestFourth(y: nat, t: nat)
    requires U <= y && Fourth(2 * y - 1) <= 16 * t <= Fourth(2 * y + 1)
    ensures Rel(Fourth(y), t, 8)
  {
    hide Rel, Fourth;
    Beside(y);
    RelFourth(2 * y - 1, 2 * y, 1);
    RelFourth(2 * y + 1, 2 * y, 1);
    RelBetween(Fourth(2 * y - 1), 16 * t, Fourth(2 * y + 1), Fourth(2 * y), 7);
    RelBack(16 * t, Fourth(2 * y), 7);
    FourthTimes(2, y);
    SmallCube();
    RelCancel(16, Fourth(y), t, 8);
  }

  function Twelfth(y: int): nat { Fourth(Cube(y)) }

  lemma RelTwelfth(a: nat, b: nat, e: nat)
    requires Rel(a, b, e) && e <= 0x80
    ensures Rel(Twelfth(a), Twelfth(b), 12 * e + 11)
  {
    hide Rel, Cube, Fourth;
    RelCube(a, b, e);
    RelFourth(Cube(a), Cube(b), 3 * e + 2);
  }

  lemma TwelfthTimes(a: int, b: int)
    ensures Twelfth(a * b) == Twelfth(a) * Twelfth(b)
  {
    hide Cube, Fourth;
    CubeTimes(a, b);
    FourthTimes(Cube(a), Cube(b));
  }

  lemma NearestTwelfth(y: nat, t: nat)
    requires U <= y && Twelfth(2 * y - 1) <= 0x1000 * t <= Twelfth(2 * y + 1)
    ensures Rel(Twelfth(y), t, 24)
  {
    hide Rel, Cube, Fourth;
    Beside(y);
    RelTwelfth(2 * y - 1, 2 * y, 1);
    RelTwelfth(2 * y + 1, 2 * y, 1);
    RelBetween(Twelfth(2 * y - 1), 0x1000 * t, Twelfth(2 * y + 1), Twelfth(2 * y), 23);
    RelBack(0x1000 * t, Twelfth(2 * y), 23);
    TwelfthTimes(2, y);
    SmallCube();
    RelCancel(0x1000, Twelfth(y), t, 24);
  }

  lemma TwelfthOrder(a: nat, b: nat)
    ensures a <= b ==> Twelfth(a) <= Twelfth(b)
    ensures a < b ==> Twelfth(a) < Twelfth(b)
  {
    hide Cube, Fourth;
    CubeIsNat(a);
    CubeIsNat(b);
    if a <= b {
      CubeOrder(a, b);
      FourthOrder(Cube(a), Cube(b));
    }
  }

  lemma CubeOrder(a: nat, b: nat)
    requires a <= b
    ensures 0 <= Cube(a) <= Cube(b) && (a < b ==> Cube(a) < Cube(b))
  {
    ScaledUp(a, a, b, b);
    ScaledUp(a * a, a, b * b, b);
    if a < b {
      ScaledUp(a * a, a, b * b, b - 1);
      AtLeastOnce(b, b);
      assert (b * b) * (b - 1) == b * b * b - b * b;
    }
  }

  lemma FourthOrder(a: nat, b: nat)
    requires a <= b
    ensures Fourth(a) <= Fourth(b) && (a < b ==> Fourth(a) < Fourth(b))
  {
    SquareOrder(a, b);
    SquareOrder(a * a, b * b);
  }

  lemma SquareOrder(a: nat, b: nat)
    requires a <= b
    ensures 0 <= a * a <= b * b && (a < b ==> a * a < b * b)
  {
    ScaledUp(a, a, b, b);
    if a < b {
      ScaledUp(a, a, b, b - 1);
      assert b * (b - 1) == b * b - b;
    }
  }
}
