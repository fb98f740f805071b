/** codec/aacdecode/pns.c, InvRootR and ScaleNoiseVector: a band of noise brought to the energy its
    scalefactor asks for, through Newton's method for an inverse square root. */
module NoiseScale {
  import opened Fixed
  import opened Power43

  // ---- the inverse square root ----

  const N := 0x1_0000_0000_0000_0000_000000                // 2^88, one in r * x * x
  const STEP := 4 * N * N                                  // 2^178, the scale of one step's square
  const SLACK := 0x8_0000_0000_0000_0000                   // 2^67
  const ETA := 0x2_0000_0000_0000_0000                     // 2^65
  const UNIT := 0x10_0000_0000_0000_0000                   // 2^68
  const X0_COEF_2 := -0x4000_0000
  const X0_OFF_2 := 0x6000_0000
  const Q26_3 := 0xc00_0000
  const NUM_ITER_INVSQRT := 4

  /** The first guess, 3 - 2 r. */
  function Guess(r: int): int { MulShift32(r, X0_COEF_2) * 4 + X0_OFF_2 }

  /** 3 - r x^2 */
  function Factor(r: int, x: int): int { Q26_3 - MulShift32(r, MulShift32(x, x)) * 4 }

  /** One step of Newton's method. */
  function Newton(r: int, x: int): int { MulShift32(x, Factor(r, x)) * 32 }

  /** With rho and sigma the truncated parts, the factor is exactly 3 - r x^2 and a little. */
  lemma FactorIs(r: int, x: int) returns (eta: int)
    requires 0 <= r <= 0x4000_0000
    ensures Factor(r, x) * 0x4000_0000_0000_0000 == 3 * N - r * x * x + eta && 0 <= eta <= ETA
  {
    var rho, sigma := (x * x) % TWO32, (r * MulShift32(x, x)) % TWO32;
    assert x * x == TWO32 * MulShift32(x, x) + rho;
    assert r * MulShift32(x, x) == TWO32 * MulShift32(r, MulShift32(x, x)) + sigma;
    ScaledUp(r, rho, 0x4000_0000, TWO32);
    assert r * (x * x) == r * (TWO32 * MulShift32(x, x)) + r * rho;
    eta := r * rho + sigma * TWO32;
  }

  lemma NewtonIs(r: int, x: int) returns (kappa: int)
    ensures Newton(r, x) * 0x800_0000 == x * Factor(r, x) - kappa && 0 <= kappa < TWO32 && Newton(r, x) % 32 == 0
  {
    kappa := (x * Factor(r, x)) % TWO32;
  }

  /** How far a step can be from the root, exactly: 4 n^3 - w (3 n - w)^2 is a square times a factor. */
  lemma Cubic(n: int, w: int)
    ensures 4 * n * n * n - w * (3 * n - w) * (3 * n - w) == (n - w) * (n - w) * (4 * n - w)
  {
  }

  lemma Expand(w: int, d: int, e: int)
    ensures w * (d + e) * (d + e) == w * d * d + w * (2 * d * e + e * e)
  {
  }

  lemma SquareTimes(a: int, k: nat)
    ensures 0 <= a * a * k
  {
    assert a * a >= 0;
    ScaledUp(a * a, 0, a * a, k);
  }

  lemma CubicBound(n: nat, w: nat)
    requires w <= 3 * n
    ensures w * (3 * n - w) * (3 * n - w) <= 4 * n * n * n
  {
    Cubic(n, w);
    SquareTimes(n - w, 4 * n - w);
  }

  lemma ExtraBound(w: nat, d: nat, eta: nat, ws: nat, ds: nat, es: nat)
    requires w <= ws && d <= ds && eta <= es
    ensures 0 <= w * (2 * d * eta + eta * eta) <= ws * (2 * (ds * es) + es * es)
  {
    ScaledUp(d, eta, ds, es);
    ScaledUp(eta, eta, es, es);
    var g, gs := 2 * (d * eta) + eta * eta, 2 * (ds * es) + es * es;
    ScaledUp(w, g, ws, gs);
    assert 2 * d * eta == 2 * (d * eta);
  }

  /** From above: the next r x^2 is at most one and a little, wherever the last was up to 5/2. */
  lemma StepAbove(w: nat, d: nat, eta: nat, w': int)
    requires w <= 5 * N / 2 && d == 3 * N - w && eta <= ETA
    requires w' * STEP <= w * (d + eta) * (d + eta)
    ensures w' <= N + SLACK
  {
    CubicBound(N, w);
    Expand(w, d, eta);
    ExtraBound(w, d, eta, 5 * N / 2, 3 * N, ETA);
    FromScaled(w * (d + eta) * (d + eta), w * d * d, w * (2 * d * eta + eta * eta), w');
  }

  lemma FromScaled(sum: int, main: int, extra: int, w': int)
    requires sum == main + extra && main <= 4 * N * N * N && extra <= (5 * N / 2) * (2 * (3 * N * ETA) + ETA * ETA) && w' * STEP <= sum
    ensures w' <= N + SLACK
  {
  }

  /** From below: the step loses the square of the distance times (4 n - w), and a little. */
  lemma StepBelow(w: nat, d: nat, eta: nat, w': int, loss: nat)
    requires w <= 3 * N && d == 3 * N - w && w * (d + eta) * (d + eta) - loss <= w' * STEP
    ensures N * STEP - (N - w) * (N - w) * (4 * N - w) - loss <= w' * STEP
  {
    CubicExact(N, w, d);
    Expand(w, d, eta);
    ExtraBound(w, d, eta, w, d, eta);
    FromScaledBelow(w * (d + eta) * (d + eta), w * d * d, w * (2 * d * eta + eta * eta), (N - w) * (N - w) * (4 * N - w), loss, w');
  }

  lemma CubicExact(n: int, w: int, d: int)
    requires d == 3 * n - w
    ensures w * d * d == 4 * n * n * n - (n - w) * (n - w) * (4 * n - w)
  {
    Cubic(n, w);
  }

  lemma FromScaledBelow(sum: int, main: int, extra: int, off: int, loss: nat, w': int)
    requires sum == main + extra && extra >= 0 && main == 4 * N * N * N - off && sum - loss <= w' * STEP
    ensures N * STEP - off - loss <= w' * STEP
  {
  }

  /** The squared step, with what its truncation loses. */
  lemma SquaredStep(r: nat, x: nat, a: nat, kappa: nat, x': nat)
    requires x' * (2 * N) == x * a - kappa
    ensures r * x' * x' * STEP <= r * x * x * a * a
    ensures r * x * x * a * a - 2 * kappa * (r * x * a) <= r * x' * x' * STEP
  {
    var y, z := x * a, x' * (2 * N);
    var s, k: nat := z * z, kappa * kappa;
    assert r * x' * x' * STEP == r * s;
    assert r * x * x * a * a == r * (y * y);
    ScaledUp(z, z, y, y);
    ScaledUp(r, s, r, y * y);
    ScaledUp(r, k, r, k);
    assert s == y * y - 2 * kappa * y + k;
    TimesEach(r, y * y, 2 * kappa * y, k);
    assert r * (2 * kappa * y) == 2 * kappa * (r * x * a);
  }

  lemma TimesEach(r: int, a: int, b: int, c: int)
    ensures r * (a - b + c) == r * a - r * b + r * c
  {
  }

  /** For the first guess: up to one above, the loss is at most a half. */
  lemma FirstLoss(w: nat)
    requires N - SLACK <= w <= 2 * N
    ensures (N - w) * (N - w) * (4 * N - w) <= 2 * N * N * N
  {
    var d := w - N;
    if d >= 0 {
      FirstCubic(N, d);
      ScaledUp(d, d, d, N);
      ScaledUp(N - d, 2 * N * N + 2 * N * d - d * d, N - d, 2 * N * N + 2 * N * d - d * d);
      assert (N - w) * (N - w) * (4 * N - w) == d * d * (3 * N - d);
    } else {
      LaterLoss(N, w, SLACK, SLACK);
    }
  }

  lemma FirstCubic(n: int, d: int)
    ensures 2 * n * n * n - d * d * (3 * n - d) == (n - d) * (2 * n * n + 2 * n * d - d * d)
  {
  }

  /** Later: the loss shrinks with the square of the distance. */
  lemma LaterLoss(n: nat, w: nat, most: nat, above: nat)
    requires n - most <= w <= n + above && above <= most <= n
    ensures (n - w) * (n - w) * (4 * n - w) <= most * most * (3 * n + most)
  {
    var a: nat := Abs(n - w);
    ScaledUp(a, a, most, most);
    assert (n - w) * (n - w) == a * a;
    ScaledUp(a * a, 4 * n - w, most * most, 3 * n + most);
  }

  /** The values of one step are words, and where it ends. */
  lemma OneStep(r: nat, x: nat)
    requires 0x1000_0000 <= r <= 0x4000_0000 && x <= 0x5000_0000 && r * x * x <= 5 * N / 2
    ensures var x' := Newton(r, x);
      && 0 <= x' <= 0x4000_0200 && 0 <= Factor(r, x) <= Q26_3 + 8 && r * x' * x' <= N + SLACK
      && N * STEP - (N - r * x * x) * (N - r * x * x) * (4 * N - r * x * x) - SLACK * STEP <= r * x' * x' * STEP
  {
    hide Factor, Newton;
    var eta := FactorIs(r, x);
    var kappa := NewtonIs(r, x);
    var w, d, a := Weights(r, x, eta);
    FactorRange(Factor(r, x), d, eta);
    var x' := NewtonScaled(x, Newton(r, x), Factor(r, x), a, kappa);
    var k: nat := kappa * 0x4000_0000_0000_0000;
    SquaredStep(r, x, a, k, x');
    StepAbove(w, d, eta, r * x' * x');
    LossBound(r, x, a, k);
    StepBelow(w, d, eta, r * x' * x', 2 * k * (r * x * a));
    NotTooFar(r, x');
  }

  lemma Weights(r: nat, x: nat, eta: nat) returns (w: nat, d: nat, a: nat)
    requires r * x * x <= 5 * N / 2
    ensures w == r * x * x && d == 3 * N - w && a == d + eta
  {
    ScaledUp(r, x, r, x);
    ScaledUp(r * x, x, r * x, x);
    w := r * x * x;
    d := 3 * N - w;
    a := d + eta;
  }

  lemma FactorRange(factor: int, d: nat, eta: nat)
    requires factor * 0x4000_0000_0000_0000 == d + eta && d <= 3 * N && eta <= ETA
    ensures 0 <= factor <= Q26_3 + 8
  {
  }

  lemma NewtonScaled(x: nat, next: int, factor: int, a: nat, kappa: nat) returns (x': nat)
    requires factor * 0x4000_0000_0000_0000 == a && next * 0x800_0000 == x * factor - kappa && kappa < TWO32 && next % 32 == 0
    ensures x' == next && x' * (2 * N) == x * a - kappa * 0x4000_0000_0000_0000
  {
    ScaledUp(x, 0, x, factor);
    assert x * a == x * factor * 0x4000_0000_0000_0000;
    x' := next;
  }

  lemma LossBound(r: nat, x: nat, a: nat, k: nat)
    requires r <= 0x4000_0000 && x <= 0x5000_0000 && a <= 3 * N + ETA && k <= 0x4000_0000_0000_0000_0000_0000
    ensures 0 <= 2 * k * (r * x * a) <= SLACK * STEP
  {
    ScaledUp(r, x, 0x4000_0000, 0x5000_0000);
    ScaledUp(r * x, a, 0x4000_0000 * 0x5000_0000, 3 * N + ETA);
    ScaledUp(2 * k, r * x * a, 2 * 0x4000_0000_0000_0000_0000_0000, 0x4000_0000 * 0x5000_0000 * (3 * N + ETA));
  }

  lemma NotTooFar(r: nat, x: nat)
    requires r >= 0x1000_0000 && r * x * x <= N + SLACK
    ensures x <= 0x4000_0200
  {
    if x > 0x4000_0200 {
      ScaledUp(0x1000_0000, 0x4000_0201, r, x);
      ScaledUp(0x1000_0000 * 0x4000_0201, 0x4000_0201, r * x, x);
    }
  }

  /** Where the r x^2 of a guess or an iterate lies: at most this far below one, and no further above. */
  predicate Near(r: nat, x: nat, most: nat)
  {
    x <= 0x4000_0200 && N - most <= r * x * x <= N + SLACK
  }

  /** The distances after each step, in units of 2^68: one is 2^20 of them. */
  function Distance(n: nat): nat
  {
    (if n <= 1 then 524289 else if n == 2 then 229378 else if n == 3 then 40378 else 1182) * UNIT
  }

  lemma FirstStep(r: nat, x: nat)
    requires 0x1000_0000 <= r <= 0x4000_0000 && x <= 0x5000_0000 && N - SLACK <= r * x * x <= 2 * N
    ensures Newton(r, x) >= 0 && Near(r, Newton(r, x), Distance(1))
  {
    hide Newton;
    OneStep(r, x);
    FirstLoss(r * x * x);
    Lands((N - r * x * x) * (N - r * x * x) * (4 * N - r * x * x), 2 * N * N * N, r * Newton(r, x) * Newton(r, x), Distance(1));
  }

  lemma Lands(off: int, most: int, w: int, distance: nat)
    requires N * STEP - off - SLACK * STEP <= w * STEP && off <= most && most + SLACK * STEP <= distance * STEP
    ensures N - distance <= w
  {
  }

  lemma LaterStep(r: nat, x: nat, n: nat)
    requires 0x1000_0000 <= r <= 0x4000_0000 && 1 <= n < NUM_ITER_INVSQRT && Near(r, x, Distance(n))
    ensures Newton(r, x) >= 0 && Near(r, Newton(r, x), Distance(n + 1))
  {
    hide Newton;
    OneStep(r, x);
    LaterLoss(N, r * x * x, Distance(n), SLACK);
    DistanceShrinks(n);
    Lands((N - r * x * x) * (N - r * x * x) * (4 * N - r * x * x), Distance(n) * Distance(n) * (3 * N + Distance(n)),
          r * Newton(r, x) * Newton(r, x), Distance(n + 1));
  }

  lemma DistanceShrinks(n: nat)
    requires 1 <= n < NUM_ITER_INVSQRT
    ensures Distance(n) * Distance(n) * (3 * N + Distance(n)) + SLACK * STEP <= Distance(n + 1) * STEP
  {
  }

  /** The first guess is at or above the root, by a factor whose square is at most two. */
  lemma GuessNear(r: nat)
    requires 0x1000_0000 <= r <= 0x4000_0000
    ensures 0 <= Guess(r) <= 0x5000_0000 && N - SLACK <= r * Guess(r) * Guess(r) <= 2 * N
  {
    var m, x: nat := 0x2000_0000, Guess(r);
    var s: nat := 3 * m - r;
    assert s - 3 <= x <= s;
    CubicBound(m, r);
    GuessCubic(m, r, s);
    ScaledUp(x, x, s, s);
    ScaledUp(r, x * x, r, s * s);
    ScaledUp(s, s - x, s, 3);
    assert x * x >= s * s - 2 * (s * (s - x)) by { SquareBack(s, s - x); }
    ScaledUp(r, 6 * s, 0x4000_0000, 6 * 0x5000_0000);
    GuessSums(r, x, s);
  }

  lemma SquareBack(s: int, e: int)
    ensures (s - e) * (s - e) >= s * s - 2 * (s * e)
  {
    assert e * e >= 0;
  }

  lemma GuessSums(r: nat, x: nat, s: nat)
    requires 2 * 0x2000_0000 * 0x2000_0000 * 0x2000_0000 <= r * s * s <= 4 * 0x2000_0000 * 0x2000_0000 * 0x2000_0000
    requires r * (x * x) <= r * (s * s) && x * x >= s * s - 6 * s && r * (6 * s) <= 0x4000_0000 * (6 * 0x5000_0000)
    ensures N - SLACK <= r * x * x <= 2 * N
  {
    ScaledUp(r, 0, r, x * x - (s * s - 6 * s));
    assert r * (x * x - (s * s - 6 * s)) == r * (x * x) - r * (s * s) + r * (6 * s);
    assert r * (x * x) == r * x * x && r * (s * s) == r * s * s;
  }

  lemma GuessCubic(m: nat, r: nat, s: nat)
    requires m <= 2 * r && r <= 2 * m && s == 3 * m - r
    ensures 2 * m * m * m <= r * s * s <= 4 * m * m * m
  {
    CubicBound(m, r);
    var a := 2 * m - r;
    var b := Positive(m, r);
    assert r * s * s - 2 * m * m * m == a * b by { GuessFactors(m, r); }
    ScaledUp(a, 0, a, b);
  }

  lemma Positive(m: nat, r: nat) returns (b: nat)
    requires m <= 2 * r && r <= 2 * m
    ensures b == 4 * m * r - r * r - m * m
  {
    ScaledUp(2 * r - m, 0, 2 * r - m, 2 * m - r);
    ScaledUp(m, 0, m, r);
    assert (2 * r - m) * (2 * m - r) == 5 * (m * r) - 2 * (r * r) - 2 * (m * m);
    b := 4 * m * r - r * r - m * m;
  }

  lemma GuessFactors(m: int, r: int)
    ensures r * (3 * m - r) * (3 * m - r) - 2 * m * m * m == (2 * m - r) * (4 * m * r - r * r - m * m)
  {
  }

  function Iterate(r: int, n: nat): int
  {
    if n == 0 then Guess(r) else Newton(r, Iterate(r, n - 1))
  }

  /** The root the four steps arrive at, clipped below two. */
  function Root(r: int): int
  {
    if Iterate(r, NUM_ITER_INVSQRT) >= 0x4000_0000 then 0x3fff_ffff else Iterate(r, NUM_ITER_INVSQRT)
  }

  lemma {:induction false} IterateNear(r: nat, n: nat)
    requires 0x1000_0000 <= r <= 0x4000_0000 && n <= NUM_ITER_INVSQRT
    ensures var x := Iterate(r, n);
      x >= 0 && if n == 0 then x <= 0x5000_0000 && N - SLACK <= r * x * x <= 2 * N else Near(r, x, Distance(n))
  {
    hide Guess, Newton, Distance;
    if n == 0 {
      GuessNear(r);
    } else {
      IterateNear(r, n - 1);
      if n == 1 { FirstStep(r, Iterate(r, 0)); } else { LaterStep(r, Iterate(r, n - 1), n - 1); }
    }
  }

  /** The inverse square root of any r from 1/4 to 1: r x^2 is at most 1182 2^-20 below one and no more
      than 2^-21 above. */
  lemma RootNear(r: nat)
    requires 0x1000_0000 <= r <= 0x4000_0000
    ensures var x := Root(r); 0 < x < 0x4000_0000 && N - 1182 * UNIT <= r * x * x <= N + SLACK
  {
    hide Iterate, Newton;
    IterateNear(r, NUM_ITER_INVSQRT);
    var x: nat := Iterate(r, NUM_ITER_INVSQRT);
    if x >= 0x4000_0000 { ClippedRoot(r, x); }
  }

  lemma RootPositive(r: nat)
    requires 0x1000_0000 <= r <= 0x4000_0000
    ensures 0 < Root(r) < 0x4000_0000
  {
    hide Root;
    RootNear(r);
  }

  /** At one half the first guess is furthest off, and the root comes out 427692 2^-29 too small. That is
      the bound of RootNear to its last unit, and about twice the difference of 3.9832e-4 (213847 2^-29)
      that the code's comment gives for four steps. */
  lemma AtOneHalf()
    ensures var r, x := 0x2000_0000, Root(0x2000_0000);
      r * x * x < N - 1181 * UNIT && r * (x + 427692) * (x + 427692) < N < r * (x + 427693) * (x + 427693)
  {
    var x0, x1, x2, x3, x4 := 0x4000_0000, 0x2000_0000, 0x2800_0000, 0x2c60_0000, 0x2d3a_b620;
    assert Guess(0x2000_0000) == x0;
    assert Newton(0x2000_0000, x0) == x1 && Newton(0x2000_0000, x1) == x2;
    assert Newton(0x2000_0000, x2) == x3 && Newton(0x2000_0000, x3) == x4;
    assert Iterate(0x2000_0000, 1) == x1 && Iterate(0x2000_0000, 2) == x2 && Iterate(0x2000_0000, 3) == x3;
    assert Iterate(0x2000_0000, 4) == x4;
  }

  /** InvRootR. Every value of every step is a word. */
  method InvRootR(r: nat) returns (x: nat)
    requires 0x1000_0000 <= r <= 0x4000_0000
    ensures x == Root(r)
  {
    hide Guess, Newton, Distance;
    IterateNear(r, 0);
    var xn: nat := Guess(r);
    var i := 0;
    while i < NUM_ITER_INVSQRT
      invariant 0 <= i <= NUM_ITER_INVSQRT && xn == Iterate(r, i)
    {
      IterateNear(r, i);
      IterateNear(r, i + 1);
      StepInWords(r, xn);
      var t := Factor(r, xn);
      NewtonFrom(r, xn);
      xn := MulShift32(xn, t) * 32;
      i := i + 1;
    }
    if xn >= 0x4000_0000 { xn := 0x3fff_ffff; }
    x := xn;
  }

  lemma NewtonFrom(r: int, x: int)
    ensures Newton(r, x) == MulShift32(x, Factor(r, x)) * 32
  {
  }

  lemma StepInWords(r: nat, x: nat)
    requires 0x1000_0000 <= r <= 0x4000_0000 && x <= 0x5000_0000 && r * x * x <= 5 * N / 2
    ensures IsInt32(MulShift32(x, x)) && IsInt32(MulShift32(r, MulShift32(x, x)) * 4) && IsInt32(Factor(r, x)) && IsInt32(Newton(r, x))
  {
    hide Newton;
    OneStep(r, x);
    MulRange(x, x, 0, 0x5000_0000, 0, 0x5000_0000);
  }

  lemma ClippedRoot(r: nat, x: nat)
    requires 0x1000_0000 <= r && 0x4000_0000 <= x && r * x * x <= N + SLACK
    ensures N - 0x8000_0000 * 0x8000_0000 <= r * 0x3fff_ffff * 0x3fff_ffff <= N + SLACK
  {
    ScaledUp(0x3fff_ffff, 0x3fff_ffff, x, x);
    ScaledUp(r, 0x3fff_ffff * 0x3fff_ffff, r, x * x);
    assert r * (x * x) == r * x * x;
    ScaledUp(0x1000_0000, 0x3fff_ffff * 0x3fff_ffff, r, 0x3fff_ffff * 0x3fff_ffff);
  }

  // ---- the scaling of a band ----

  /** The number of bits of e. */
  function Len(e: nat): nat
  {
    if e == 0 then 0 else 1 + Len(e / 2)
  }

  lemma {:induction false} LenBounds(e: nat)
    requires e > 0
    ensures Len(e) >= 1 && Pow2(Len(e) - 1) <= e < Pow2(Len(e))
  {
    if e > 1 { LenBounds(e / 2); }
  }

  lemma {:induction false} Pow2Grows(a: nat, b: nat)
    requires a < b
    ensures 2 * Pow2(a) <= Pow2(b)
  {
    if a + 1 < b { Pow2Grows(a, b - 1); }
  }

  lemma LenIs(e: nat, n: nat)
    requires 1 <= n && Pow2(n - 1) <= e < Pow2(n)
    ensures Len(e) == n
  {
    hide Len, Pow2;
    LenBounds(e);
    if Len(e) < n { if Len(e) < n - 1 { Pow2Grows(Len(e), n - 1); } }
    if n < Len(e) { if n < Len(e) - 1 { Pow2Grows(n, Len(e) - 1); } }
  }

  lemma {:induction false} UpLower(v: nat, a: nat, n: nat)
    requires Pow2(a) <= v
    ensures Pow2(a + n) <= Up(v, n)
  {
    if n > 0 { UpLower(v, a, n - 1); }
  }

  lemma Moved(e: nat, n: nat)
    requires e > 0
    ensures Len(e) >= 1 && Pow2(Len(e) - 1 + n) <= Up(e, n) < Pow2(Len(e) + n)
  {
    hide Up, Pow2, Len;
    LenBounds(e);
    UpLower(e, Len(e) - 1, n);
    UpBound(e, Len(e), n);
  }

  /** The energy of a band, each square less its eight low bits. */
  function Energy(v: seq<int>): nat
  {
    if v == [] then 0 else Energy(v[..|v| - 1]) + Square(v[|v| - 1])
  }

  function Square(a: int): nat
  {
    SquarePositive(a);
    a * a / 0x100
  }

  lemma SquarePositive(a: int)
    ensures a * a >= 0
  {
  }

  predicate Noise16(v: seq<int>) { forall i :: 0 <= i < |v| ==> -0x8000 <= v[i] < 0x8000 }

  lemma SquareRange(a: int)
    requires -0x8000 <= a < 0x8000
    ensures Square(a) <= 0x40_0000 && (Square(a) == 0 <==> Abs(a) < 16)
  {
    var m := Abs(a);
    assert a * a == m * m;
    ScaledUp(m, m, 0x8000, 0x8000);
    if m < 16 { ScaledUp(m, m, 15, 15); } else { ScaledUp(16, 16, m, m); }
  }

  /** 255 samples of 16 bits leave two leading zeros. */
  lemma {:induction false} EnergyFits(v: seq<int>)
    requires Noise16(v)
    ensures Energy(v) <= |v| * 0x40_0000
    decreases |v|
  {
    hide Square;
    if v != [] {
      EnergyFits(v[..|v| - 1]);
      SquareRange(v[|v| - 1]);
    }
  }

  /** A band without energy need not be silent: it has none exactly when every sample is below 16. */
  lemma {:induction false} NoEnergy(v: seq<int>)
    requires Noise16(v)
    ensures Energy(v) == 0 <==> forall i :: 0 <= i < |v| ==> Abs(v[i]) < 16
    decreases |v|
  {
    hide Square, Abs;
    if v != [] {
      NoEnergy(v[..|v| - 1]);
      SquareRange(v[|v| - 1]);
      assert forall i :: 0 <= i < |v| - 1 ==> v[..|v| - 1][i] == v[i];
    }
  }

  /** The even shift that normalizes an energy. */
  function EvenShift(e: nat): int { (30 - Len(e)) / 2 * 2 }

  lemma NormalEnergy(e: nat)
    requires 0 < e < 0x4000_0000
    ensures 0 <= EvenShift(e) <= 28 && 0x1000_0000 <= Up(e, EvenShift(e)) < 0x4000_0000
  {
    hide Len, Up, Pow2;
    LenBounds(e);
    PowersHere();
    if Len(e) > 30 { if Len(e) > 31 { Pow2Grows(30, Len(e) - 1); } }
    var z: nat := EvenShift(e);
    Moved(e, z);
    if Len(e) + z == 29 { } else { assert Len(e) + z == 30; }
  }

  lemma PowersHere()
    ensures Pow2(28) == 0x1000_0000 && Pow2(29) == 0x2000_0000 && Pow2(30) == 0x4000_0000 && Pow2(31) == 0x8000_0000
  {
    UpEight(1);
    Pow2Of32();
  }

  /** The normalized root, the mantissa and the exponent a band of energy e is scaled with. */
  function BandRoot(e: nat): nat
    requires 0 < e < 0x4000_0000
  {
    NormalEnergy(e);
    RootPositive(Up(e, EvenShift(e)));
    Root(Up(e, EvenShift(e)))
  }

  function Mantissa(e: nat, sf: int): int
    requires 0 < e < 0x4000_0000
  {
    RootLen(e);
    MulShift32(Pow14(sf % 4), Up(BandRoot(e), 31 - Len(BandRoot(e))))
  }

  function Exponent(e: nat, sf: int): int
    requires 0 < e < 0x4000_0000
  {
    sf / 4 + FBITS_OUT_DQ_OFF - (15 - EvenShift(e) / 2 + 4) - (31 - Len(BandRoot(e)) - 3 - 2)
  }

  lemma RootLen(e: nat)
    requires 0 < e < 0x4000_0000
    ensures 0 < BandRoot(e) < 0x4000_0000 && 1 <= Len(BandRoot(e)) <= 30
    ensures 0x4000_0000 <= Up(BandRoot(e), 31 - Len(BandRoot(e))) < 0x8000_0000
  {
    hide Len, Up, Pow2, Root;
    NormalEnergy(e);
    RootPositive(Up(e, EvenShift(e)));
    var x := BandRoot(e);
    LenBounds(x);
    PowersHere();
    if Len(x) > 30 { if Len(x) > 31 { Pow2Grows(30, Len(x) - 1); } }
    Moved(x, 31 - Len(x));
  }

  lemma MantissaRange(e: nat, sf: int)
    requires 0 < e < 0x4000_0000
    ensures 0x1000_0000 <= Mantissa(e, sf) < 0x4000_0000
  {
    hide Len, Up, Pow14, MulShift32;
    RootLen(e);
    Pow14Range(sf % 4);
    MulRange(Pow14(sf % 4), Up(BandRoot(e), 31 - Len(BandRoot(e))), 0x4000_0000, 0x6ba2_7e65, 0x4000_0000, 0x7fff_ffff);
  }

  lemma Pow14Range(r: nat)
    requires r < 4
    ensures 0x4000_0000 <= Pow14(r) <= 0x6ba2_7e65
  {
  }

  // ---- the energy reached ----

  lemma SquareOf(p: int, x: int, a: int)
    ensures (p * (x * a)) * (p * (x * a)) == p * p * x * x * (a * a)
  {
  }

  lemma Swapped(e: int, f: int, q: int, s: int)
    ensures e * f * (q * s) == e * q * (s * f)
  {
  }

  lemma Gathered(e: int, p: int, x: int, k: int, z: int)
    ensures e * (p * p * x * x) * (k * z) == p * p * (e * z * x * x) * k
  {
    var q := p * p;
    assert e * (p * p * x * x) == q * (e * x * x);
    assert q * (e * x * x) * (k * z) == q * ((e * x * x) * z) * k;
    assert (e * x * x) * z == e * z * x * x;
  }

  lemma SquaresBetween(low: nat, u: nat, high: nat, k: nat)
    requires low <= u <= high
    ensures k * (low * low) <= k * (u * u) <= k * (high * high)
  {
    ScaledUp(low, low, u, u);
    ScaledUp(u, u, high, high);
    ScaledUp(k, low * low, k, u * u);
    ScaledUp(k, u * u, k, high * high);
  }

  lemma WeightsBetween(low: nat, w: nat, high: nat, q: nat, k: nat)
    requires low <= w <= high
    ensures q * low * k <= q * w * k <= q * high * k
  {
    ScaledUp(q, low, q, w);
    ScaledUp(q, w, q, high);
    ScaledUp(q * low, k, q * w, k);
    ScaledUp(q * w, k, q * high, k);
  }

  /** What a mantissa m, truncated from p times the normalized root x a, makes of the energy e. */
  lemma Balanced(e: nat, z: nat, x: nat, a: nat, p: nat, k: nat, f: nat, m: nat, t: nat, low: nat, high: nat)
    requires a * a * f == k * z && m * t <= p * (x * a) <= (m + 1) * t && low <= e * z * x * x <= high
    ensures e * f * ((m * t) * (m * t)) <= p * p * high * k
    ensures p * p * low * k <= e * f * (((m + 1) * t) * ((m + 1) * t))
  {
    var u := p * (x * a);
    SquareOf(p, x, a);
    Swapped(e, f, p * p * x * x, a * a);
    Gathered(e, p, x, k, z);
    SquaresBetween(m * t, u, (m + 1) * t, e * f);
    WeightsBetween(low, e * z * x * x, high, p * p, k);
  }

  /** The shift from a band's scalefactor to its exponent. */
  function Drop(e: nat, sf: int): int
    requires 0 < e < 0x4000_0000
  {
    sf / 4 + FBITS_OUT_DQ_OFF - Exponent(e, sf)
  }

  lemma ShiftsBalance(e: nat, sf: int)
    requires 0 < e < 0x4000_0000
    ensures Drop(e, sf) >= 1 && var l := 31 - Len(BandRoot(e));
      l >= 0 && EvenShift(e) >= 0 && Pow2(l) * Pow2(l) * Pow2(28) == Pow2(2 * Drop(e, sf)) * Pow2(EvenShift(e))
  {
    hide Pow2, Len, BandRoot;
    RootLen(e);
    NormalEnergy(e);
    var l, n, z: nat := 31 - Len(BandRoot(e)), Drop(e, sf), EvenShift(e);
    Pow2Sum(l, l);
    Pow2Sum(l + l, 28);
    Pow2Sum(2 * n, z);
    assert l + l + 28 == 2 * n + z;
  }

  /** A band is brought to the energy its scalefactor asks for, whatever energy it had. A sample is scaled
      by m 2^-32 and the exponent, which is n below the integer part of sf / 4; p 2^-30 is the power of two
      of the rest. The energy after that, e m^2 2^-56 4^-n, is p^2 2^-60: at most 2^-21 of it above, and
      but for the truncation of m at most 1182 2^-20 of it below. Exponents outside [-31, 16] are cut off
      afterwards. */
  lemma EnergyReached(e: nat, sf: int)
    requires 0 < e < 0x4000_0000
    ensures var n, p, m := Drop(e, sf), Pow14(sf % 4), Mantissa(e, sf);
      && n >= 1 && m >= 0 && e * Pow2(28) * ((m * TWO32) * (m * TWO32)) <= p * p * (N + SLACK) * Pow2(2 * n)
      && p * p * (N - 1182 * UNIT) * Pow2(2 * n) <= e * Pow2(28) * (((m + 1) * TWO32) * ((m + 1) * TWO32))
  {
    hide Pow2, Len, Root, Up, Drop, EvenShift, Pow14;
    ShiftsBalance(e, sf);
    MantissaRange(e, sf);
    Pow14Range(sf % 4);
    var x, l, p, z: nat := BandRoot(e), 31 - Len(BandRoot(e)), Pow14(sf % 4), EvenShift(e);
    NormalEnergy(e);
    RootNear(Up(e, z));
    UpTimes(e, z);
    UpTimes(x, l);
    MantissaIs(p, x * Pow2(l));
    Balanced(e, Pow2(z), x, Pow2(l), p, Pow2(2 * Drop(e, sf)), Pow2(28), Mantissa(e, sf), TWO32, N - 1182 * UNIT, N + SLACK);
  }

  lemma MantissaIs(p: nat, u: nat)
    ensures MulShift32(p, u) * TWO32 <= p * u <= (MulShift32(p, u) + 1) * TWO32
  {
  }

  /** A sample times the mantissa at the exponent; large exponents are cut off. */
  function ScaledSample(c: int, mantissa: int, exponent: int): int
  {
    if exponent < 0 then MulShift32(c, mantissa) / Pow2(Least(-exponent, 31))
    else MulShift32(c * Pow2(Least(exponent, 16)), mantissa)
  }

  /** The 16-bit sample moved up is a word, and no scaled one needs clipping: all are below 2^29. */
  lemma SampleFits(c: int, mantissa: int, exponent: int)
    requires -0x8000 <= c < 0x8000 && 0 <= mantissa < 0x4000_0000
    ensures exponent >= 0 ==> IsInt32(c * Pow2(Least(exponent, 16)))
    ensures Abs(ScaledSample(c, mantissa, exponent)) <= 0x2000_0000
  {
    hide Pow2;
    if exponent < 0 {
      MantissaTimes(c, mantissa, 0x8000);
      Shrinks(MulShift32(c, mantissa), Pow2(Least(-exponent, 31)), 0x2000_0000);
    } else {
      SmallPower(Least(exponent, 16));
      var k: nat := Pow2(Least(exponent, 16));
      if c >= 0 {
        ScaledUp(c, k, 0x7fff, 0x1_0000);
      } else {
        ScaledUp(-c, k, 0x8000, 0x1_0000);
        assert c * k == -((-c) * k);
      }
      MantissaTimes(c * k, mantissa, 0x8000_0000);
    }
  }

  lemma {:induction false} SmallPower(n: nat)
    requires n <= 16
    ensures Pow2(n) <= 0x1_0000
  {
    hide Pow2;
    if n < 16 { Pow2Grows(n, 16); }
    assert Pow2(16) == 0x1_0000 by { SixteenPlaces(); }
  }

  lemma SixteenPlaces()
    ensures Pow2(16) == 0x1_0000
  {
    assert Pow2(4) == 16 && Pow2(8) == 256 && Pow2(12) == 4096;
  }

  lemma MantissaTimes(c: int, mantissa: nat, most: nat)
    requires Abs(c) <= most && mantissa < 0x4000_0000 && most <= 0x8000_0000
    ensures Abs(MulShift32(c, mantissa)) <= 0x2000_0000
  {
    ScaledUp(Abs(c), mantissa, most, 0x4000_0000);
    assert c * mantissa == Abs(c) * mantissa || c * mantissa == -(Abs(c) * mantissa);
  }

  lemma Shrinks(v: int, k: nat, most: nat)
    requires k > 0 && Abs(v) <= most
    ensures Abs(v / k) <= most
  {
    var q := v / k;
    assert v == q * k + v % k;
    if q > most { ScaledUp(1, q, k, q); }
    if q < 0 - most {
      ScaledUp(1, -q - 1, k, -q - 1);
      assert q * k == -((-q - 1) * k) - k;
    }
  }

  /** Sample i of a band's noise after ScaleNoiseVector, as a function of the unscaled vector and the
      band's scalefactor. A band without energy stays as it is. No band has 2^30 of it. */
  function Scale(v: seq<int>, sf: int, i: nat): int
    requires i < |v|
  {
    var e := Energy(v);
    if e == 0 || e >= 0x4000_0000 then v[i] else ScaledSample(v[i], Mantissa(e, sf), Exponent(e, sf))
  }

  // ---- the samples put out ----

  lemma FloorOfFloor(a: int, k: nat)
    requires k >= 1
    ensures var f := a / TWO32 / k; f * (TWO32 * k) <= a < (f + 1) * (TWO32 * k)
  {
    var q := a / TWO32;
    var f := q / k;
    assert q == f * k + q % k && a == q * TWO32 + a % TWO32;
    Grouped(f, k);
    Grouped(f + 1, k);
    assert (f + 1) * k == f * k + k;
  }

  lemma Grouped(f: int, k: int)
    ensures f * (TWO32 * k) == TWO32 * (f * k)
  {
  }

  /** A sample put out is the product of sample and mantissa, moved by the exponent less 32 places, and
      rounded down to a unit once, in either direction. */
  lemma SampleIs(c: int, mantissa: int, exponent: int)
    requires -31 <= exponent <= 16
    ensures var o := ScaledSample(c, mantissa, exponent);
      o * (0x1_0000_0000 * Loss(exponent)) <= c * mantissa * Gain(exponent) < (o + 1) * (0x1_0000_0000 * Loss(exponent))
  {
    hide Pow2;
    if exponent >= 0 {
      FloorOfFloor(c * Pow2(exponent) * mantissa, 1);
      assert c * Pow2(exponent) * mantissa == c * mantissa * Pow2(exponent) by { Commuted(c, Pow2(exponent), mantissa); }
    } else {
      FloorOfFloor(c * mantissa, Pow2(-exponent));
    }
  }

  lemma Commuted(a: int, b: int, c: int)
    ensures a * b * c == a * c * b
  {
  }

  /** Beyond that the exponent is cut off. */
  lemma ExponentCut(c: int, mantissa: int, exponent: int)
    ensures exponent > 16 ==> ScaledSample(c, mantissa, exponent) == ScaledSample(c, mantissa, 16)
    ensures exponent < -31 ==> ScaledSample(c, mantissa, exponent) == ScaledSample(c, mantissa, -31)
  {
    hide Pow2, MulShift32;
  }

  /** The squares of a sequence of samples, each taken d larger in magnitude, but not below zero. */
  function Squares(v: seq<int>, d: int): nat
  {
    if v == [] then 0 else Squares(v[..|v| - 1], d) + SquareOff(v[|v| - 1], d)
  }

  function SquareOff(a: int, d: int): nat { if Abs(a) + d < 0 then 0 else (Abs(a) + d) * (Abs(a) + d) }

  /** The energy is the sum of the squares in units of 256, each square rounded down. */
  lemma {:induction false} EnergyIs(v: seq<int>)
    ensures 256 * Energy(v) <= Squares(v, 0) <= 256 * Energy(v) + 255 * |v|
    decreases |v|
  {
    hide Square;
    if v != [] {
      EnergyIs(v[..|v| - 1]);
      SquareIs(v[|v| - 1]);
    }
  }

  lemma SquareIs(a: int)
    ensures 256 * Square(a) <= SquareOff(a, 0) <= 256 * Square(a) + 255
  {
    assert Abs(a) * Abs(a) == a * a;
  }

  /** What one sample put out says about the square it stands for. */
  lemma SquareNear(o: int, a: int, unit: nat)
    requires o * unit <= a < (o + 1) * unit
    ensures unit * unit * SquareOff(o, -1) <= a * a <= unit * unit * SquareOff(o, 1)
  {
    Magnitudes(o, a, unit);
    SizeSquared(Abs(a), Abs(o) + 1, unit);
    if Abs(o) >= 1 { SizeSquared(Abs(a), Abs(o) - 1, unit); }
    assert a * a == Abs(a) * Abs(a);
  }

  lemma Magnitudes(o: int, a: int, unit: nat)
    requires o * unit <= a < (o + 1) * unit
    ensures Abs(a) <= (Abs(o) + 1) * unit && (Abs(o) >= 1 ==> (Abs(o) - 1) * unit <= Abs(a))
  {
    Opposed(o, unit);
    Opposed(o + 1, unit);
  }

  lemma SizeSquared(a: nat, k: nat, unit: nat)
    ensures a <= k * unit ==> a * a <= unit * unit * (k * k)
    ensures k * unit <= a ==> unit * unit * (k * k) <= a * a
  {
    SquaredProduct(k, unit);
    if a <= k * unit { ScaledUp(a, a, k * unit, k * unit); }
    if k * unit <= a { ScaledUp(k * unit, k * unit, a, a); }
  }

  lemma Opposed(o: int, unit: nat)
    ensures Abs(o) * unit == if o >= 0 then o * unit else -(o * unit)
    ensures (Abs(o) + 1) * unit == Abs(o) * unit + unit && (o + 1) * unit == o * unit + unit
    ensures Abs(o) >= 1 ==> (Abs(o) - 1) * unit == Abs(o) * unit - unit
  {
    if o < 0 { assert (-o) * unit == -(o * unit); }
  }

  lemma SquaredProduct(k: int, unit: int)
    ensures (k * unit) * (k * unit) == unit * unit * (k * k)
  {
  }

  /** The same of a whole band, k being what every sample is multiplied by. */
  lemma {:induction false} SquaresNear(v: seq<int>, o: seq<int>, k: int, unit: nat)
    requires |v| == |o| && forall i :: 0 <= i < |v| ==> o[i] * unit <= v[i] * k < (o[i] + 1) * unit
    ensures unit * unit * Squares(o, -1) <= k * k * Squares(v, 0) <= unit * unit * Squares(o, 1)
    decreases |v|
  {
    hide SquareOff;
    if v != [] {
      var n := |v| - 1;
      forall i | 0 <= i < n ensures o[..n][i] * unit <= v[..n][i] * k < (o[..n][i] + 1) * unit { }
      SquaresNear(v[..n], o[..n], k, unit);
      SquareNear(o[n], v[n] * k, unit);
      SquaredScale(v[n], k);
      AddedTo(unit * unit, Squares(o[..n], -1), SquareOff(o[n], -1));
      AddedTo(unit * unit, Squares(o[..n], 1), SquareOff(o[n], 1));
      AddedTo(k * k, Squares(v[..n], 0), SquareOff(v[n], 0));
    }
  }

  lemma SquaredScale(v: int, k: int)
    ensures (v * k) * (v * k) == k * k * SquareOff(v, 0)
  {
    assert Abs(v) * Abs(v) == v * v;
  }

  lemma AddedTo(k: int, a: int, b: int)
    ensures k * (a + b) == k * a + k * b
  {
  }

  /** The mantissa's truncation, in the square. */
  lemma MantissaSquare(m: nat, x: nat)
    requires m >= 0x1000_0000
    ensures 0x7ff_ffff * (x * ((m + 1) * (m + 1))) <= 0x800_0000 * (x * (m * m))
  {
    var a, b: nat := 0x7ff_ffff * ((m + 1) * (m + 1)), 0x800_0000 * (m * m);
    assert (m + 1) * (m + 1) == m * m + 2 * m + 1;
    ScaledUp(0x1000_0000, m, m, m);
    assert a <= b;
    ScaledUp(x, a, x, b);
    assert x * a == 0x7ff_ffff * (x * ((m + 1) * (m + 1))) && x * b == 0x800_0000 * (x * (m * m));
  }

  /** From the shares to the whole: q is what is asked for, g and l the squares of gain and loss. */
  lemma ReachedBelow(e: nat, m: nat, q: nat, g: nat, l: nat, sum: nat, outer: nat)
    requires m >= 0x1000_0000 && 256 * e <= sum
    requires m * m * g * sum <= TWO32 * TWO32 * l * outer
    requires q * (N - 1182 * UNIT) <= e * 0x1000_0000 * (((m + 1) * TWO32) * ((m + 1) * TWO32))
    ensures q * g * (0x10_0000 - 1183) <= 0x10_0000 * (0x1000_0000_0000_0000 * (l * outer))
  {
    MantissaSquare(m, e);
    var a, b, c: nat := e * (m * m), e * ((m + 1) * (m + 1)), q * UNIT;
    assert e * 0x1000_0000 * (((m + 1) * TWO32) * ((m + 1) * TWO32)) == 0x1000_0000 * TWO32 * TWO32 * b by { SixtyFour(e, m + 1); }
    assert q * (N - 1182 * UNIT) == (0x10_0000 - 1182) * c by { PullUnit(q); }
    assert (0x10_0000 - 1183) * c <= 0x1000_0000 * TWO32 * TWO32 * a by { Weaker(a, b, c); }
    MoreOf(m * m * g, 256 * e, sum);
    assert m * m * g * (256 * e) == 256 * (a * g) by { Sorted(m * m, g, e); }
    ScaledUp((0x10_0000 - 1183) * c, g, 0x1000_0000 * TWO32 * TWO32 * a, g);
    Finish(c * g, a * g, l * outer, q * g, c, a, g, l, outer, q);
  }

  lemma SixtyFour(e: int, k: int)
    ensures e * 0x1000_0000 * ((k * TWO32) * (k * TWO32)) == 0x1000_0000 * TWO32 * TWO32 * (e * (k * k))
  {
    SquaredProduct(k, TWO32);
  }

  lemma PullUnit(q: int)
    ensures q * (N - 1182 * UNIT) == (0x10_0000 - 1182) * (q * UNIT) && q * (N + SLACK) == 0x20_0001 * (q * SLACK) && UNIT == 2 * SLACK
  {
    assert N == 0x10_0000 * UNIT && N == 0x20_0000 * SLACK;
  }

  lemma Weaker(a: nat, b: nat, c: nat)
    requires 0x7ff_ffff * b <= 0x800_0000 * a && (0x10_0000 - 1182) * c <= 0x1000_0000 * TWO32 * TWO32 * b
    ensures (0x10_0000 - 1183) * c <= 0x1000_0000 * TWO32 * TWO32 * a
  {
  }

  lemma MoreOf(k: nat, a: nat, b: nat)
    requires a <= b
    ensures k * a <= k * b
  {
    ScaledUp(k, a, k, b);
  }

  lemma Sorted(m: int, g: int, e: int)
    ensures m * g * (256 * e) == 256 * (e * m * g)
  {
  }

  lemma Finish(cg: nat, ag: nat, lo: nat, qg: nat, c: nat, a: nat, g: nat, l: nat, outer: nat, q: nat)
    requires cg == c * g && ag == a * g && lo == l * outer && qg == q * g && c == q * UNIT
    requires (0x10_0000 - 1183) * c * g <= 0x1000_0000 * TWO32 * TWO32 * a * g && 256 * ag <= TWO32 * TWO32 * l * outer
    ensures qg * (0x10_0000 - 1183) <= 0x10_0000 * (0x1000_0000_0000_0000 * lo)
  {
    assert cg == qg * UNIT by { Commuted(q, UNIT, g); }
    assert (0x10_0000 - 1183) * c * g == (0x10_0000 - 1183) * cg;
    assert 0x1000_0000 * TWO32 * TWO32 * a * g == 0x1000_0000 * TWO32 * TWO32 * ag;
    assert TWO32 * TWO32 * l * outer == TWO32 * TWO32 * lo;
  }

  lemma ReachedAbove(e: nat, m: nat, q: nat, g: nat, l: nat, sum: nat, n: nat, inner: nat)
    requires sum <= 256 * e + 255 * n && TWO32 * TWO32 * l * inner <= m * m * g * sum
    requires e * 0x1000_0000 * ((m * TWO32) * (m * TWO32)) <= q * (N + SLACK)
    ensures 0x20_0000 * (0x1000_0000_0000_0000 * (l * inner * e)) <= 0x20_0001 * (q * g * (e + n))
  {
    var a, c: nat := e * (m * m), q * SLACK;
    SixtyFour(e, m);
    PullUnit(q);
    assert 0x1000_0000 * TWO32 * TWO32 * a <= 0x20_0001 * c;
    MoreOf(m * m * g, sum, 256 * (e + n));
    ScaledUp(TWO32 * TWO32 * l * inner, e, m * m * g * (256 * (e + n)), e);
    assert m * m * g * (256 * (e + n)) * e == 256 * (a * (g * (e + n))) by { Sifted(m * m, g, e + n, e); }
    ScaledUp(0x1000_0000 * TWO32 * TWO32 * a, g * (e + n), 0x20_0001 * c, g * (e + n));
    FinishAbove(l * inner * e, a * (g * (e + n)), c * (g * (e + n)), q * g * (e + n), a, c, g * (e + n), l, inner, e, q, g, e + n);
  }

  lemma Sifted(m: int, g: int, k: int, e: int)
    ensures m * g * (256 * k) * e == 256 * (e * m * (g * k))
  {
    assert m * g * (256 * k) == 256 * (m * (g * k));
    assert m * (g * k) * e == e * m * (g * k);
  }

  lemma FinishAbove(lie: nat, ak: nat, ck: nat, qk: nat, a: nat, c: nat, k: nat, l: nat, inner: nat, e: nat, q: nat, g: nat, n: nat)
    requires lie == l * inner * e && ak == a * k && ck == c * k && k == g * n && qk == q * g * n && c == q * SLACK
    requires TWO32 * TWO32 * l * inner * e <= 256 * ak && 0x1000_0000 * TWO32 * TWO32 * a * k <= 0x20_0001 * c * k
    ensures 0x20_0000 * (0x1000_0000_0000_0000 * lie) <= 0x20_0001 * qk
  {
    assert ck == qk * SLACK by { assert q * SLACK * (g * n) == q * (g * n) * SLACK; assert q * (g * n) == q * g * n; }
    assert TWO32 * TWO32 * l * inner * e == TWO32 * TWO32 * lie;
    assert 0x1000_0000 * TWO32 * TWO32 * a * k == 0x1000_0000 * TWO32 * TWO32 * ak;
    assert 0x20_0001 * c * k == 0x20_0001 * ck;
  }

  /** The samples ScaleNoiseVector makes of a band. */
  function Shaped(v: seq<int>, sf: int): (o: seq<int>)
    ensures |o| == |v| && forall i :: 0 <= i < |v| ==> o[i] == Scale(v, sf, i)
  {
    seq(|v|, i requires 0 <= i < |v| => Scale(v, sf, i))
  }

  /** Every sample of the band is the same multiple of what it was, rounded. */
  lemma ShapedNear(v: seq<int>, sf: int)
    requires 0 < Energy(v) < 0x4000_0000 && -31 <= Exponent(Energy(v), sf) <= 16
    ensures var x := Exponent(Energy(v), sf);
      var k, unit := Mantissa(Energy(v), sf) * Gain(x), TWO32 * Loss(x);
      forall i :: 0 <= i < |v| ==> Shaped(v, sf)[i] * unit <= v[i] * k < (Shaped(v, sf)[i] + 1) * unit
  {
    hide Energy, Mantissa, Exponent, Gain, Loss, ScaledSample;
    var m, x := Mantissa(Energy(v), sf), Exponent(Energy(v), sf);
    forall i | 0 <= i < |v|
      ensures Shaped(v, sf)[i] * (TWO32 * Loss(x)) <= v[i] * (m * Gain(x)) < (Shaped(v, sf)[i] + 1) * (TWO32 * Loss(x))
    {
      assert Shaped(v, sf)[i] == ScaledSample(v[i], m, x);
      SampleIs(v[i], m, x);
      Associated(v[i], m, Gain(x));
    }
  }

  lemma Associated(a: int, b: int, c: int)
    ensures a * b * c == a * (b * c)
  {
  }

  lemma Shares(v: seq<int>, o: seq<int>, m: nat, g: nat, l: nat)
    requires |v| == |o|
    requires forall i :: 0 <= i < |v| ==> o[i] * (TWO32 * l) <= v[i] * (m * g) < (o[i] + 1) * (TWO32 * l)
    ensures TWO32 * TWO32 * (l * l) * Squares(o, -1) <= m * m * (g * g) * Squares(v, 0) <= TWO32 * TWO32 * (l * l) * Squares(o, 1)
  {
    hide Squares;
    SquaresNear(v, o, m * g, TWO32 * l);
    SquaredProduct(TWO32, l);
    assert (m * g) * (m * g) == m * m * (g * g) by { SquaredProduct(m, g); }
    assert (TWO32 * l) * (TWO32 * l) == TWO32 * TWO32 * (l * l);
  }

  /** What the scalefactor asks of the mantissa. */
  lemma Asked(e: nat, sf: int)
    requires 0 < e < 0x4000_0000
    ensures Drop(e, sf) >= 1 && Mantissa(e, sf) >= 0x1000_0000 && Pow14(sf % 4) > 0
    ensures var q, m := Pow14(sf % 4) * Pow14(sf % 4) * Pow2(2 * Drop(e, sf)), Mantissa(e, sf);
      && q >= 0 && e * 0x1000_0000 * ((m * TWO32) * (m * TWO32)) <= q * (N + SLACK)
      && q * (N - 1182 * UNIT) <= e * 0x1000_0000 * (((m + 1) * TWO32) * ((m + 1) * TWO32))
  {
    hide Mantissa, Drop, Pow14;
    EnergyReached(e, sf);
    MantissaRange(e, sf);
    Pow14Range(sf % 4);
    PowersHere();
    var p, k := Pow14(sf % 4), Pow2(2 * Drop(e, sf));
    Commuted(p * p, N + SLACK, k);
    Commuted(p * p, N - 1182 * UNIT, k);
    SquarePositive(p);
    ScaledUp(p * p, 0, p * p, k);
  }

  lemma ExponentIs(e: nat, sf: int)
    requires 0 < e < 0x4000_0000
    ensures Exponent(e, sf) == sf / 4 + 5 - Drop(e, sf)
  {
    hide BandRoot, Len;
  }

  /** The energy asked for: p 2^-30 is the fractional power of two, and n what the exponent is below the
      integer part; with the exponent's gain over its loss this is p^2 2^-60 4^n times their square. */
  function Wish(e: nat, sf: int): (w: nat)
    requires 0 < e < 0x4000_0000
  {
    Asked(e, sf);
    Pow14(sf % 4) * Pow14(sf % 4) * Pow2(2 * Drop(e, sf))
  }

  /** The energy put out is the one the scalefactor asks for, whatever the band's own: each sample is off by
      the one unit its rounding can take, from below the energy is then reached but for 1183 2^-20, and from
      above it is passed by at most 2^-21 and what the energy misses of the squares. */
  lemma BandReaches(v: seq<int>, sf: int)
    requires 0 < Energy(v) < 0x4000_0000 && -31 <= Exponent(Energy(v), sf) <= 16
    ensures var e, o, x := Energy(v), Shaped(v, sf), Exponent(Energy(v), sf);
      var w, g, l := Wish(e, sf), Gain(x) * Gain(x), Loss(x) * Loss(x);
      && x == sf / 4 + 5 - Drop(e, sf)
      && w * g * (0x10_0000 - 1183) <= 0x10_0000 * (0x1000_0000_0000_0000 * (l * Squares(o, 1)))
      && 0x20_0000 * (0x1000_0000_0000_0000 * (l * Squares(o, -1) * e)) <= 0x20_0001 * (w * g * (e + |v|))
  {
    hide Energy, Mantissa, Exponent, Drop, Squares, Pow14, Gain, Loss;
    var e, o, x := Energy(v), Shaped(v, sf), Exponent(Energy(v), sf);
    Asked(e, sf);
    var m: nat, w, g, l := Mantissa(e, sf), Wish(e, sf), Gain(x) * Gain(x), Loss(x) * Loss(x);
    ExponentIs(e, sf);
    ShapedNear(v, sf);
    Shares(v, o, m, Gain(x), Loss(x));
    EnergyIs(v);
    ReachedBelow(e, m, w, g, l, Squares(v, 0), Squares(o, 1));
    ReachedAbove(e, m, w, g, l, Squares(v, 0), |v|, Squares(o, -1));
  }

  /** The normalization of an energy. */
  method Normalize(energy: nat, sf: int) returns (scalef: int, scalei: int)
    requires 0 < energy < 0x4000_0000
    ensures scalef == Mantissa(energy, sf) && scalei == Exponent(energy, sf)
  {
    hide Len, Up, Pow2, Root, Pow14, MulShift32;
    scalef, scalei := Pow14(sf % 4), sf / 4 + FBITS_OUT_DQ_OFF;
    var z: int := CLZ(energy);
    LenIs(energy, 32 - z);
    z := z - 2;
    z := z / 2 * 2;
    NormalEnergy(energy);
    var invSqrtEnergy := InvRootR(Up(energy, z));
    scalei := scalei - (15 - z / 2 + 4);
    RootLen(energy);
    z := CLZ(invSqrtEnergy);
    LenIs(invSqrtEnergy, 32 - z);
    z := z - 1;
    invSqrtEnergy := Up(invSqrtEnergy, z);
    scalei := scalei - (z - 3 - 2);
    scalef := MulShift32(scalef, invSqrtEnergy);
  }
}
