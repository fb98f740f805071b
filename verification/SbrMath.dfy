/** codec/aacdecode/sbrmath.c: the Newton reciprocal and the integer square root. */
module SbrMath {
  import opened Fixed

  const Q28_2 := 0x2000_0000
  const Q28_15 := 0x3000_0000
  const NUM_ITER_IRN := 5
  const TWO60 := 0x1000_0000_0000_0000

  // ---- reciprocal ----

  /** How far r times x is from one, in units of 2^-60: r is Q31 and x is Q29. */
  function Error(r: int, x: int): int { TWO60 - r * x }

  /** One step as computed: two truncated products. */
  function NewtonStep(r: int, x: int): int { 16 * MulShift32(x, Q28_2 - MulShift32(r, x)) }

  lemma HighWord(r: int, x: int, t: int, rho: int, a: int, q: int, sigma: int)
    requires r * x == TWO32 * t + rho && a == Q28_2 - t && x * a == TWO32 * q + sigma
    ensures TWO32 * (r * q) == r * x * a - r * sigma
    ensures TWO32 * a == 2 * TWO60 - r * x + rho
  {
    calc {
      TWO32 * (r * q);
      r * (TWO32 * q);
      r * (x * a - sigma);
      r * (x * a) - r * sigma;
      { assert r * (x * a) == r * x * a; }
      r * x * a - r * sigma;
    }
  }

  lemma SquareOfError(p: int, a: int, rho: int)
    requires a == TWO60 - p
    ensures p * (2 * TWO60 - p + rho) == TWO60 * TWO60 - a * a + p * rho
  {
    assert a * a == TWO60 * TWO60 - 2 * TWO60 * p + p * p;
    assert p * (2 * TWO60 - p + rho) == 2 * TWO60 * p - p * p + p * rho;
  }

  /** A step squares the relative error, up to what the two truncations rho and sigma add. */
  lemma ErrorSquares(r: int, x: int)
    ensures var e, e' := Error(r, x), Error(r, NewtonStep(r, x));
      var rho, sigma := (r * x) % TWO32, (x * (Q28_2 - MulShift32(r, x))) % TWO32;
      TWO60 * e' == e * e - r * x * rho + TWO32 * (r * sigma)
  {
    var p := r * x;
    var t := MulShift32(r, x);
    var a := Q28_2 - t;
    var q := MulShift32(x, a);
    var rho, sigma, e := p % TWO32, (x * a) % TWO32, TWO60 - p;
    HighWord(r, x, t, rho, a, q, sigma);
    SquareOfError(p, e, rho);
    assert p * (TWO32 * a) == TWO32 * (p * a);
    assert r * (16 * q) == 16 * (r * q);
    assert TWO60 * (16 * (r * q)) == TWO32 * (TWO32 * (r * q));
  }

  lemma SquareBound(e: int, k: nat)
    requires 0 - k <= e <= k
    ensures 0 <= e * e <= k * k
  {
    var a: nat := if e < 0 then -e else e;
    ScaledUp(a, a, k, k);
    assert e * e == a * a;
  }

  /** The truncation terms, for any value the iteration visits. */
  lemma TruncationBound(r: int, x: int, rho: int, sigma: int)
    requires 0 <= r < 0x8000_0000 && 0 <= r * x <= 2 * TWO60 && 0 <= rho < TWO32 && 0 <= sigma < TWO32
    ensures 0 <= r * x * rho <= TWO60 * 0x2_0000_0000
    ensures 0 <= TWO32 * (r * sigma) <= TWO60 * 0x8_0000_0000
  {
    ScaledUp(r * x, rho, 2 * TWO60, TWO32);
    ScaledUp(r, sigma, 0x8000_0000, TWO32);
  }

  /** Bounds on the error after n steps. */
  function Above(n: nat): nat
  {
    if n == 0 then 0x800_0000_0000_0000 else if n == 1 then 0x400_0008_0000_0001 else if n == 2 then 0x100_000c_0000_0401
    else if n == 3 then 0x10_0009_8000_0981 else if n == 4 then 0x1008_1300_05b8 else 0x8_1010_2a14
  }

  function Below(n: nat): nat { if n == 0 then 0x800_0000_0000_0000 else 0x4_0000_0000 }

  ghost predicate Near(r: int, x: int, n: nat)
  {
    0 - Below(n) <= Error(r, x) <= Above(n)
  }

  lemma StepBound(r: int, x: int, n: nat)
    requires 0x4000_0000 <= r < 0x8000_0000 && n < NUM_ITER_IRN && Near(r, x, n)
    ensures Near(r, NewtonStep(r, x), n + 1)
  {
    hide NewtonStep, MulShift32;
    var e, e' := Error(r, x), Error(r, NewtonStep(r, x));
    var rho, sigma := (r * x) % TWO32, (x * (Q28_2 - MulShift32(r, x))) % TWO32;
    ErrorSquares(r, x);
    TruncationBound(r, x, rho, sigma);
    var k := if n == 0 then Above(0) else Above(n);
    SquareBound(e, k);
    BoundsSquare(n);
    FromScaled(e', k * k, n);
  }

  lemma BoundsSquare(n: nat)
    requires n < NUM_ITER_IRN
    ensures Above(n) * Above(n) + TWO60 * 0x8_0000_0000 < TWO60 * (Above(n + 1) + 1)
    ensures Below(n) <= Above(n) && 0x2_0000_0000 <= Below(n + 1)
  {
  }

  lemma FromScaled(e: int, square: nat, n: nat)
    requires square + TWO60 * 0x8_0000_0000 < TWO60 * (Above(n + 1) + 1) && 0x2_0000_0000 <= Below(n + 1)
    requires -(TWO60 * 0x2_0000_0000) <= TWO60 * e <= square + TWO60 * 0x8_0000_0000
    ensures 0 - Below(n + 1) <= e <= Above(n + 1)
  {
  }

  /** While the error is bounded, nothing leaves 32 bits. */
  lemma StepFits(r: int, x: int, n: nat)
    requires 0x4000_0000 <= r < 0x8000_0000 && n <= NUM_ITER_IRN && Near(r, x, n)
    ensures 0 <= x < 0x7000_0000 && 0 <= MulShift32(r, x) <= 0x1800_0000
  {
    FactorRange(r, x, r * x);
  }

  lemma FactorRange(r: int, x: int, p: int)
    requires 0x4000_0000 <= r && p == r * x && 0 < p <= 0x1800_0000_0000_0000
    ensures 0 <= x < 0x7000_0000
  {
    assert r * x == -(r * (-x));
    if x < 0 { ScaledUp(r, -x, r, -x); }
    if x >= 0x7000_0000 {
      ScaledUp(0x4000_0000, 0x7000_0000, r, x);
    }
  }

  /** InvRNormalized. After five steps r x is within 2^36 of 2^60: 24 bits of the reciprocal. */
  method InvRNormalized(r: int) returns (xn: int)
    requires 0x4000_0000 <= r < 0x8000_0000
    ensures -0x10_0000_0000 <= r * xn - TWO60 <= 0x10_0000_0000
    ensures 0 <= xn < 0x8000_0000
  {
    hide MulShift32, NewtonStep, Near;
    xn := Q28_15;
    var i := NUM_ITER_IRN;
    assert Near(r, xn, 0) by { FirstGuess(r); }
    while i != 0
      invariant 0 <= i <= NUM_ITER_IRN && Near(r, xn, NUM_ITER_IRN - i)
      decreases i
    {
      StepFits(r, xn, NUM_ITER_IRN - i);
      StepBound(r, xn, NUM_ITER_IRN - i);
      StepIs(r, xn);
      var t := MulShift32(r, xn);
      t := Q28_2 - t;
      assert IsInt32(t);
      xn := 16 * MulShift32(xn, t);
      i := i - 1;
    }
    StepFits(r, xn, NUM_ITER_IRN);
    LastError(r, xn);
  }

  lemma StepIs(r: int, x: int)
    ensures NewtonStep(r, x) == 16 * MulShift32(x, Q28_2 - MulShift32(r, x))
  {
  }

  lemma FirstGuess(r: int)
    requires 0x4000_0000 <= r < 0x8000_0000
    ensures Near(r, Q28_15, 0)
  {
  }

  lemma LastError(r: int, x: int)
    requires Near(r, x, NUM_ITER_IRN)
    ensures -0x10_0000_0000 <= r * x - TWO60 <= 0x10_0000_0000
  {
  }

  // ---- square root ----

  lemma {:induction false} UpOdd(v: nat, z: nat)
    requires z % 2 == 1
    ensures Up(v, z) == 2 * Up(v, z - 1)
  {
  }

  lemma TopPowers()
    ensures Pow2(31) == 0x8000_0000 && Pow2(30) == 0x4000_0000
  {
    Pow2Of32();
    assert Pow2(32) == 2 * Pow2(31) && Pow2(31) == 2 * Pow2(30);
  }

  /** An even shift that leaves one or two leading zeros. */
  lemma Normalized(q: nat, lead: nat, z: nat)
    requires 1 <= lead <= 31 && Pow2(31 - lead) <= q < Pow2(32 - lead) && z == (lead - 1) / 2
    ensures 0x2000_0000 <= Up(q, 2 * z) < 0x8000_0000
  {
    hide Up, Pow2;
    var n := lead - 1;
    TopPowers();
    UpPow2(31 - lead, n);
    UpPow2(32 - lead, n);
    UpOrder(q, Pow2(32 - lead), n);
    if Pow2(31 - lead) < q { UpOrder(Pow2(31 - lead), q, n); }
    assert 0x4000_0000 <= Up(q, n) < 0x8000_0000;
    if n % 2 == 1 { UpOdd(q, n); }
  }

  lemma Larger(a: nat, b: nat)
    requires a <= b
    ensures a * a <= b * b
  {
    ScaledUp(a, a, b, b);
  }

  /** SqrtFix: the exact floor of the square root of the input normalized by an even shift, and
      fraction bits that account for the shift. An odd number of fraction bits first costs one bit. */
  method SqrtFix(q: int, fBitsIn: int) returns (root: nat, fBitsOut: int)
    requires IsInt32(q)
    ensures q <= 0 ==> root == 0 && fBitsOut == fBitsIn
    ensures q > 0 ==>
      var s, shift := if fBitsIn % 2 == 1 then q / 2 else q, 2 * fBitsOut - (fBitsIn - fBitsIn % 2);
      && shift >= 0 && shift % 2 == 0 && root * root <= Up(s, shift) < (root + 1) * (root + 1)
      && (s > 0 ==> 0x2000_0000 <= Up(s, shift) < 0x8000_0000)
  {
    hide Up, Pow2;
    if q <= 0 { return 0, fBitsIn; }
    var z := fBitsIn % 2;
    var s: nat := if z == 1 then q / 2 else q;
    var f := fBitsIn - z;
    z := CLZ(s);
    ghost var lead := z;
    z := (z - 1) / 2;
    if s > 0 { Normalized(s, lead, z); } else { UpZero(2 * z); }
    root := FloorRoot(Up(s, 2 * z));
    fBitsOut := (f + 2 * z) / 2;
    ShiftIs(fBitsIn, f / 2, z);
  }

  /** The fraction bits that go out account for the shift. */
  lemma ShiftIs(fBitsIn: int, half: int, z: int)
    requires half == (fBitsIn - fBitsIn % 2) / 2
    ensures fBitsIn - fBitsIn % 2 == 2 * half && 2 * ((fBitsIn - fBitsIn % 2 + 2 * z) / 2) == 2 * half + 2 * z && 2 * z % 2 == 0
  {
    assert fBitsIn == 2 * (fBitsIn / 2) + fBitsIn % 2;
    Halves(fBitsIn / 2);
    Halves(fBitsIn / 2 + z);
    Halves(z);
  }

  lemma Halves(n: int)
    ensures 2 * n / 2 == n && 2 * n % 2 == 0
  {
  }

  /** The binary search. Every mid is squared within 32 bits. */
  method FloorRoot(q: nat) returns (lo: nat)
    requires q == 0 || 0x2000_0000 <= q < 0x8000_0000
    ensures lo * lo <= q < (lo + 1) * (lo + 1)
  {
    lo := 1;
    if q >= 0x1000_0000 { lo := 16384; }
    var hi: int := 46340;
    while hi >= lo
      invariant 1 <= lo <= hi + 1 <= 46341
      invariant (lo - 1) * (lo - 1) <= q < (hi + 1) * (hi + 1)
      decreases hi - lo + 1
    {
      var mid := (lo + hi) / 2;
      Larger(mid, 46340);
      assert mid * mid <= INT_MAX;
      if mid * mid > q { hi := mid - 1; } else { lo := mid + 1; }
    }
    lo := lo - 1;
  }
}
