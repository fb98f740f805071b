/** What the 32-point FFT of codec/aacdecode/sbrfft.c is for: an eighth of the discrete Fourier transform
    of its input, over the reals, and how far the words it puts out can be from that. */
module Fourier {
  import opened Fixed
  import opened Fft32

  // ---- complex numbers over the reals ----

  datatype Point = Point(x: real, y: real)

  const ZERO := Point(0.0, 0.0)
  const ONE := Point(1.0, 0.0)

  function Add(a: Point, b: Point): Point { Point(a.x + b.x, a.y + b.y) }
  function Times(a: Point, b: Point): Point { Point(a.x * b.x - a.y * b.y, a.x * b.y + a.y * b.x) }
  function Of(z: Complex): Point { Point(z.re as real, z.im as real) }
  function Half(p: Point): Point { Point(p.x / 2.0, p.y / 2.0) }
  function Eighth(p: Point): Point { Point(p.x / 8.0, p.y / 8.0) }

  /** p turned back by m quarter turns. */
  function Back(p: Point, m: nat): Point
    decreases m
  {
    if m == 0 then p else Back(Point(p.y, -p.x), m - 1)
  }

  function Power(w: Point, n: nat): Point
  {
    if n == 0 then ONE else Times(w, Power(w, n - 1))
  }

  /** The first root of one of order 32, clockwise: on the unit circle, in the octant below the real axis,
      and a quarter turn back after eight steps. */
  ghost predicate FirstRoot(w: Point)
  {
    0.0 < -w.y < w.x && w.x * w.x + w.y * w.y == 1.0 && Power(w, 8) == Point(0.0, -1.0)
  }

  lemma TimesAssoc(a: Point, b: Point, c: Point)
    ensures Times(Times(a, b), c) == Times(a, Times(b, c))
  {
  }

  lemma TimesAdd(a: Point, b: Point, c: Point)
    ensures Times(a, Add(b, c)) == Add(Times(a, b), Times(a, c))
  {
  }

  lemma TimesOne(a: Point)
    ensures Times(ONE, a) == Times(a, ONE) == a
  {
  }

  lemma {:induction false} PowerAdd(w: Point, a: nat, b: nat)
    ensures Power(w, a + b) == Times(Power(w, a), Power(w, b))
  {
    hide Times;
    if a == 0 {
      TimesOne(Power(w, b));
    } else {
      PowerAdd(w, a - 1, b);
      TimesAssoc(w, Power(w, a - 1), Power(w, b));
    }
  }

  /** Every eight steps are a quarter turn. */
  lemma {:induction false} QuarterTurns(w: Point, q: nat, p: Point)
    requires FirstRoot(w)
    ensures Times(Power(w, 8 * q), p) == Back(p, q)
    decreases q
  {
    if q == 0 {
      TimesOne(p);
    } else {
      PowerAdd(w, 8 * (q - 1), 8);
      TimesAssoc(Power(w, 8 * (q - 1)), Power(w, 8), p);
      QuarterTurns(w, q - 1, Point(p.y, -p.x));
    }
  }

  lemma {:induction false} BackSteps(p: Point, a: nat, b: nat)
    ensures Back(Back(p, a), b) == Back(p, a + b)
    decreases a
  {
    if a > 0 { BackSteps(Point(p.y, -p.x), a - 1, b); }
  }

  lemma BackFour(p: Point, m: nat)
    ensures Back(p, m + 4) == Back(p, m)
  {
    BackSteps(p, 4, m);
    assert Back(p, 4) == p by { BackSteps(p, 2, 2); }
  }

  lemma {:induction false} BackAdd(a: Point, b: Point, m: nat)
    ensures Back(Add(a, b), m) == Add(Back(a, m), Back(b, m))
    decreases m
  {
    if m > 0 { BackAdd(Point(a.y, -a.x), Point(b.y, -b.x), m - 1); }
  }

  lemma {:induction false} BackTurned(z: Complex, m: nat)
    ensures Back(Of(z), m) == Of(Turned(z, m))
    decreases m
  {
    if m > 0 { BackTurned(Complex(z.im, -z.re), m - 1); }
  }

  lemma {:induction false} BackWhole(p: Point, q: nat)
    ensures Back(p, 4 * q) == p
  {
    if q > 0 { BackFour(p, 4 * (q - 1)); BackWhole(p, q - 1); }
  }

  // ---- the transform ----

  /** Term n of output k of the discrete Fourier transform. */
  ghost function Term(w: Point, x: seq<Complex>, k: nat, n: nat): Point
    requires n < |x|
  {
    Times(Power(w, n * k), Of(x[n]))
  }

  /** The first n terms of the output. */
  ghost function Sum(w: Point, x: seq<Complex>, k: nat, n: nat): Point
    requires n <= |x|
  {
    if n == 0 then ZERO else Add(Sum(w, x, k, n - 1), Term(w, x, k, n - 1))
  }

  /** Every fourth term from r. */
  ghost function Comb(w: Point, x: seq<Complex>, k: nat, r: nat, n: nat): Point
    requires r < 4 && 4 * n <= |x|
  {
    if n == 0 then ZERO
    else Add(Comb(w, x, k, r, n - 1), Term(w, x, k, r + 4 * (n - 1)))
  }

  lemma {:induction false} Combed(w: Point, x: seq<Complex>, k: nat, n: nat)
    requires 4 * n <= |x|
    ensures Sum(w, x, k, 4 * n) ==
      Add(Add(Comb(w, x, k, 0, n), Comb(w, x, k, 1, n)), Add(Comb(w, x, k, 2, n), Comb(w, x, k, 3, n)))
    decreases n
  {
    hide Term, Sum, Add, Comb;
    if n == 0 {
      Empty(w, x, k);
    } else {
      Combed(w, x, k, n - 1);
      FourMore(w, x, k, 4 * (n - 1));
      CombNext(w, x, k, 0, n - 1);
      CombNext(w, x, k, 1, n - 1);
      CombNext(w, x, k, 2, n - 1);
      CombNext(w, x, k, 3, n - 1);
      var m := 4 * (n - 1);
      Regroup(Comb(w, x, k, 0, n - 1), Comb(w, x, k, 1, n - 1), Comb(w, x, k, 2, n - 1), Comb(w, x, k, 3, n - 1),
              Term(w, x, k, m), Term(w, x, k, m + 1), Term(w, x, k, m + 2), Term(w, x, k, m + 3));
    }
  }

  lemma Empty(w: Point, x: seq<Complex>, k: nat)
    ensures Sum(w, x, k, 0) == Comb(w, x, k, 0, 0) == Comb(w, x, k, 1, 0) == Comb(w, x, k, 2, 0) == Comb(w, x, k, 3, 0) == ZERO
    ensures Add(Add(ZERO, ZERO), Add(ZERO, ZERO)) == ZERO
  {
  }

  lemma CombNext(w: Point, x: seq<Complex>, k: nat, r: nat, n: nat)
    requires r < 4 && 4 * n + 4 <= |x|
    ensures Comb(w, x, k, r, n + 1) == Add(Comb(w, x, k, r, n), Term(w, x, k, 4 * n + r))
  {
  }

  lemma Regroup(a: Point, b: Point, c: Point, d: Point, e: Point, f: Point, g: Point, h: Point)
    ensures Add(Add(Add(Add(Add(Add(a, b), Add(c, d)), e), f), g), h) == Add(Add(Add(a, e), Add(b, f)), Add(Add(c, g), Add(d, h)))
  {
  }

  lemma FourMore(w: Point, x: seq<Complex>, k: nat, n: nat)
    requires n + 4 <= |x|
    ensures Sum(w, x, k, n + 4) ==
      Add(Add(Add(Add(Sum(w, x, k, n), Term(w, x, k, n)), Term(w, x, k, n + 1)), Term(w, x, k, n + 2)), Term(w, x, k, n + 3))
  {
    hide Term, Add;
    OneMoreTerm(w, x, k, n);
    OneMoreTerm(w, x, k, n + 1);
    OneMoreTerm(w, x, k, n + 2);
    OneMoreTerm(w, x, k, n + 3);
  }

  lemma OneMoreTerm(w: Point, x: seq<Complex>, k: nat, n: nat)
    requires n < |x|
    ensures Sum(w, x, k, n + 1) == Add(Sum(w, x, k, n), Term(w, x, k, n))
  {
  }

  /** The 8-point transform of every fourth sample from r. */
  ghost function Inner(w: Point, x: seq<Complex>, j: nat, r: nat, n: nat): Point
    requires r < 4 && 4 * n <= |x|
  {
    if n == 0 then ZERO
    else Add(Inner(w, x, j, r, n - 1), Times(Power(w, 4 * (n - 1) * j), Of(x[r + 4 * (n - 1)])))
  }

  /** For output 8 g + j the term's root splits, but for whole turns. */
  lemma RootSplits(w: Point, r: nat, m: nat, g: nat, j: nat, p: Point)
    requires FirstRoot(w)
    ensures Times(Power(w, (r + 4 * m) * (8 * g + j)), p) == Times(Power(w, r * (8 * g + j)), Times(Power(w, 4 * m * j), p))
  {
    hide Times, Power, Back, FirstRoot;
    var a, b, q := r * (8 * g + j), 4 * m * j, m * g;
    assert (r + 4 * m) * (8 * g + j) == a + b + 8 * (4 * q);
    PowerAdd(w, a + b, 8 * (4 * q));
    TimesAssoc(Power(w, a + b), Power(w, 8 * (4 * q)), p);
    QuarterTurns(w, 4 * q, p);
    BackWhole(p, q);
    PowerAdd(w, a, b);
    TimesAssoc(Power(w, a), Power(w, b), p);
  }

  lemma {:induction false} Factored(w: Point, x: seq<Complex>, g: nat, j: nat, r: nat, n: nat)
    requires FirstRoot(w) && r < 4 && 4 * n <= |x|
    ensures Comb(w, x, 8 * g + j, r, n) == Times(Power(w, r * (8 * g + j)), Inner(w, x, j, r, n))
    decreases n
  {
    hide Power, Of, FirstRoot, Times, Add;
    if n == 0 {
      TimesZero(Power(w, r * (8 * g + j)));
    } else {
      Factored(w, x, g, j, r, n - 1);
      RootSplits(w, r, n - 1, g, j, Of(x[r + 4 * (n - 1)]));
      TimesAdd(Power(w, r * (8 * g + j)), Inner(w, x, j, r, n - 1), Times(Power(w, 4 * (n - 1) * j), Of(x[r + 4 * (n - 1)])));
    }
  }

  lemma TimesZero(p: Point)
    ensures Times(p, ZERO) == ZERO
  {
  }

  /** What residue r contributes to outputs j, 8 + j, 16 + j and 24 + j, up to quarter turns. */
  ghost function Spun(w: Point, x: seq<Complex>, j: nat, r: nat): Point
    requires |x| == 32 && r < 4
  {
    Times(Power(w, r * j), Inner(w, x, j, r, 8))
  }

  /** The decimation in time: the 32-point transform as a 4-point transform of four 8-point ones. */
  lemma FourierSplits(w: Point, x: seq<Complex>, g: nat, j: nat)
    requires FirstRoot(w) && |x| == 32
    ensures Sum(w, x, 8 * g + j, 32) == Add(Add(Spun(w, x, j, 0), Back(Spun(w, x, j, 1), g)),
      Add(Back(Spun(w, x, j, 2), 2 * g), Back(Spun(w, x, j, 3), 3 * g)))
  {
    hide Power, FirstRoot, Times, Add, Sum, Comb, Inner, Back;
    Combed(w, x, 8 * g + j, 8);
    Residue(w, x, g, j, 0);
    Residue(w, x, g, j, 1);
    Residue(w, x, g, j, 2);
    Residue(w, x, g, j, 3);
    BackNone(Spun(w, x, j, 0));
  }

  lemma BackNone(p: Point)
    ensures Back(p, 0) == p
  {
  }

  lemma Residue(w: Point, x: seq<Complex>, g: nat, j: nat, r: nat)
    requires FirstRoot(w) && |x| == 32 && r < 4
    ensures Comb(w, x, 8 * g + j, r, 8) == Back(Spun(w, x, j, r), r * g)
  {
    hide Power, FirstRoot, Times, Comb, Inner, Back;
    var e := Inner(w, x, j, r, 8);
    Factored(w, x, g, j, r, 8);
    assert r * (8 * g + j) == 8 * (r * g) + r * j;
    PowerAdd(w, 8 * (r * g), r * j);
    TimesAssoc(Power(w, 8 * (r * g)), Power(w, r * j), e);
    QuarterTurns(w, r * g, Times(Power(w, r * j), e));
  }

  // ---- the 8-point transform ----

  /** The 4-point sum for output j. */
  function Quad(a: Complex, b: Complex, c: Complex, d: Complex, j: nat): Complex
  {
    Sum4(a, Turned(b, j), Turned(c, 2 * j), Turned(d, 3 * j))
  }

  lemma QuadIs(a: Complex, b: Complex, c: Complex, d: Complex, j: nat)
    requires j < 8
    ensures Quad(a, b, c, d, j) == Part(Dft4(a, c, b, d), j % 4)
  {
    hide Turned, Dft4, Sum4;
    Dft4IsTransform(a, b, c, d);
    TurnedNone(b);
    TurnedNone(c);
    TurnedNone(d);
    if j >= 4 {
      var i: nat := j - 4;
      TurnedFour(b, i);
      TurnedFour(c, 2 * i);
      TurnedFour(c, 2 * i + 4);
      TurnedFour(d, 3 * i);
      TurnedFour(d, 3 * i + 4);
      TurnedFour(d, 3 * i + 8);
    }
  }

  lemma TurnedNone(z: Complex)
    ensures Turned(z, 0) == z
  {
  }

  /** An even and an odd term of the 8-point transform. */
  lemma InnerPair(w: Point, x: seq<Complex>, j: nat, r: nat, u: nat)
    requires FirstRoot(w) && r < 4 && |x| == 32 && u < 4
    ensures Inner(w, x, j, r, 2 * u + 2) == Add(Add(Inner(w, x, j, r, 2 * u), Of(Turned(x[r + 8 * u], u * j))),
      Times(Power(w, 4 * j), Of(Turned(x[r + 8 * u + 4], u * j))))
  {
    hide Power, FirstRoot, Times, Add, Back, Turned, Of;
    var a, b := x[r + 8 * u], x[r + 8 * u + 4];
    assert 4 * (2 * u) * j == 8 * (u * j) && 4 * (2 * u + 1) * j == 4 * j + 8 * (u * j);
    InnerNext(w, x, j, r, 2 * u);
    InnerNext(w, x, j, r, 2 * u + 1);
    QuarterTurns(w, u * j, Of(a));
    QuarterTurns(w, u * j, Of(b));
    BackTurned(a, u * j);
    BackTurned(b, u * j);
    PowerAdd(w, 4 * j, 8 * (u * j));
    TimesAssoc(Power(w, 4 * j), Power(w, 8 * (u * j)), Of(b));
  }

  lemma InnerNext(w: Point, x: seq<Complex>, j: nat, r: nat, n: nat)
    requires r < 4 && 4 * n + 4 <= |x|
    ensures Inner(w, x, j, r, n + 1) == Add(Inner(w, x, j, r, n), Times(Power(w, 4 * n * j), Of(x[r + 4 * n])))
  {
  }

  /** The 8-point transform from the 4-point ones of the even and the odd samples. */
  lemma InnerIs(w: Point, x: seq<Complex>, j: nat, r: nat)
    requires FirstRoot(w) && r < 4 && |x| == 32
    ensures Inner(w, x, j, r, 8) == Add(Of(Quad(x[r], x[r + 8], x[r + 16], x[r + 24], j)),
      Times(Power(w, 4 * j), Of(Quad(x[r + 4], x[r + 12], x[r + 20], x[r + 28], j))))
  {
    hide Power, FirstRoot, Turned, Times, Add, Of;
    InnerPair(w, x, j, r, 0);
    InnerPair(w, x, j, r, 1);
    InnerPair(w, x, j, r, 2);
    InnerPair(w, x, j, r, 3);
    assert Inner(w, x, j, r, 0) == ZERO;
    TurnedNone(x[r]);
    TurnedNone(x[r + 4]);
    Assemble(Power(w, 4 * j), x[r], Turned(x[r + 8], j), Turned(x[r + 16], 2 * j), Turned(x[r + 24], 3 * j),
             x[r + 4], Turned(x[r + 12], j), Turned(x[r + 20], 2 * j), Turned(x[r + 28], 3 * j));
  }

  lemma Assemble(p: Point, a: Complex, b: Complex, c: Complex, d: Complex, e: Complex, f: Complex, g: Complex, h: Complex)
    ensures Add(Of(Sum4(a, b, c, d)), Times(p, Of(Sum4(e, f, g, h)))) ==
      Add(Add(Add(Add(Add(Add(Add(Add(ZERO, Of(a)), Times(p, Of(e))), Of(b)), Times(p, Of(f))), Of(c)), Times(p, Of(g))), Of(d)), Times(p, Of(h)))
  {
    hide Times;
    TimesAdd(p, Add(Of(e), Of(f)), Add(Of(g), Of(h)));
    TimesAdd(p, Of(e), Of(f));
    TimesAdd(p, Of(g), Of(h));
    assert Of(Sum4(e, f, g, h)) == Add(Add(Of(e), Of(f)), Add(Of(g), Of(h)));
    assert Of(Sum4(a, b, c, d)) == Add(Add(Of(a), Of(b)), Add(Of(c), Of(d)));
  }

  // ---- where the roots lie ----

  const SCALE := 1099511627776.0    // 2^40

  ghost predicate OnCircle(p: Point) { p.x * p.x + p.y * p.y == 1.0 }

  /** v is n 2^-40, but for e units. */
  ghost predicate About(v: real, n: int, e: real) { -e <= v * SCALE - n as real <= e }

  lemma SquareIs(p: Point)
    requires OnCircle(p)
    ensures OnCircle(Times(p, p))
    ensures Times(p, p) == Point(2.0 * (p.x * p.x) - 1.0, 2.0 * (p.x * p.y)) == Point(1.0 - 2.0 * (p.y * p.y), 2.0 * (p.x * p.y))
  {
    Norms(p, p);
    assert p.y * p.x == p.x * p.y;
  }

  lemma Norms(p: Point, q: Point)
    requires OnCircle(p) && OnCircle(q)
    ensures OnCircle(Times(p, q))
  {
    var r := Times(p, q);
    assert r.x * r.x + r.y * r.y == (p.x * p.x + p.y * p.y) * (q.x * q.x + q.y * q.y);
  }

  lemma {:induction false} PowerOnCircle(w: Point, n: nat)
    requires OnCircle(w)
    ensures OnCircle(Power(w, n))
  {
    hide Times, OnCircle;
    if n == 0 {
      OneOnCircle();
    } else {
      PowerOnCircle(w, n - 1);
      Norms(w, Power(w, n - 1));
    }
  }

  lemma OneOnCircle()
    ensures OnCircle(ONE)
  {
  }

  lemma SquaresOrdered(a: real, b: real)
    requires 0.0 <= a < b
    ensures a * a < b * b
  {
    var d := b - a;
    assert b * b == a * a + 2.0 * (a * d) + d * d;
    assert a * d >= 0.0 && d * d > 0.0;
  }

  lemma Between(v: real, lo: real, hi: real)
    requires v >= 0.0 && lo >= 0.0 && hi >= 0.0 && lo * lo <= v * v <= hi * hi
    ensures lo <= v <= hi
  {
    if v < lo { SquaresOrdered(v, lo); }
    if hi < v { SquaresOrdered(hi, v); }
  }

  lemma Doubling(w: Point)
    ensures var p := Power(w, 2); p == Times(w, w) && Power(w, 4) == Times(p, p)
    ensures var p := Power(w, 4); Power(w, 8) == Times(p, p)
  {
    hide Times;
    PowerAdd(w, 1, 1);
    PowerAdd(w, 2, 2);
    PowerAdd(w, 4, 4);
    PowerOne(w);
  }

  lemma PowerOne(w: Point)
    ensures Power(w, 1) == w && Power(w, 0) == ONE
  {
    TimesOne(w);
  }

  lemma Negative(x: real, y: real)
    requires x > 0.0
    ensures y < 0.0 <==> x * y < 0.0
  {
  }

  lemma Opposite(x: real, y: real)
    requires x * x == y * y == 0.5 && x * y == -0.5 && y < 0.0
    ensures x == -y
  {
    assert y * (x + y) == x * y + y * y;
    if x + y > 0.0 { Negative(x + y, y); }
    if x + y < 0.0 { Negative(-(x + y), y); }
  }

  /** Signs and squares of the first, second and fourth root, from the eighth. */
  lemma Quadrants(w: Point)
    requires FirstRoot(w)
    ensures var p, q := Power(w, 2), Power(w, 4);
      && p.x > 0.0 && p.y < 0.0 && q.x > 0.0 && q.y == -q.x && q.x * q.x == 0.5
      && p.x * p.x == (1.0 + q.x) / 2.0 && p.y * p.y == (1.0 - q.x) / 2.0
      && w.x * w.x == (1.0 + p.x) / 2.0 && w.y * w.y == (1.0 - p.x) / 2.0
  {
    hide Power, Times;
    Doubling(w);
    var p, q := Power(w, 2), Power(w, 4);
    SquareIs(w);
    SquareIs(p);
    SquareIs(q);
    assert w.x * w.x > w.y * w.y by { SquaresOrdered(-w.y, w.x); }
    Negative(w.x, w.y);
    Negative(p.x, p.y);
    assert q.x * q.y == -0.5 && q.x * q.x == 0.5 && q.y * q.y == 0.5;
    Opposite(q.x, q.y);
  }

  lemma RootThree(v: real, s: real)
    requires v > 0.0 && v * v == (1.0 + s) / 2.0 && About(s, 420764883643, 2.0)
    ensures About(v, 914210506869, 2.0)
  {
    Between(v, 914210506867.0 / SCALE, 914210506871.0 / SCALE);
  }

  lemma RootThreeBelow(v: real, s: real)
    requires v > 0.0 && v * v == (1.0 - s) / 2.0 && About(s, 420764883643, 2.0)
    ensures About(v, 610855931251, 2.0)
  {
    Between(v, 610855931249.0 / SCALE, 610855931253.0 / SCALE);
  }

  lemma RootFour(v: real)
    requires v > 0.0 && v * v == 0.5
    ensures About(v, 777472127994, 1.0)
  {
    Between(v, 777472127993.0 / SCALE, 777472127995.0 / SCALE);
  }

  lemma RootTwo(v: real, q: real)
    requires v > 0.0 && v * v == (1.0 + q) / 2.0 && About(q, 777472127994, 1.0)
    ensures About(v, 1015816288660, 2.0)
  {
    Between(v, 1015816288658.0 / SCALE, 1015816288662.0 / SCALE);
  }

  lemma RootTwoBelow(v: real, q: real)
    requires v > 0.0 && v * v == (1.0 - q) / 2.0 && About(q, 777472127994, 1.0)
    ensures About(v, 420764883643, 2.0)
  {
    Between(v, 420764883641.0 / SCALE, 420764883645.0 / SCALE);
  }

  lemma RootOne(v: real, p: real)
    requires v > 0.0 && v * v == (1.0 + p) / 2.0 && About(p, 1015816288660, 2.0)
    ensures About(v, 1078384820155, 2.0)
  {
    Between(v, 1078384820153.0 / SCALE, 1078384820157.0 / SCALE);
  }

  lemma RootOneBelow(v: real, p: real)
    requires v > 0.0 && v * v == (1.0 - p) / 2.0 && About(p, 1015816288660, 2.0)
    ensures About(v, 214504077523, 4.0)
  {
    Between(v, 214504077519.0 / SCALE, 214504077527.0 / SCALE);
  }

  /** The first eight roots, in units of 2^-40. */
  function Octant(k: nat): Complex
  {
    match k
    case 0 => Complex(0x100_0000_0000, 0)
    case 1 => Complex(1078384820155, -214504077523)
    case 2 => Complex(1015816288660, -420764883643)
    case 3 => Complex(914210506869, -610855931251)
    case 4 => Complex(777472127994, -777472127994)
    case 5 => Complex(610855931251, -914210506869)
    case 6 => Complex(420764883643, -1015816288660)
    case _ => Complex(214504077523, -1078384820155)
  }

  /** The k-th root. */
  function Unit(k: nat): Complex
  {
    if k < 8 then Octant(k)
    else if k < 16 then Complex(Octant(k - 8).im, -Octant(k - 8).re)
    else Complex(-Octant(k - 16).re, -Octant(k - 16).im)
  }

  lemma UnitStep(k: nat)
    requires k < 16
    ensures Unit(k + 8) == Complex(Unit(k).im, -Unit(k).re)
  {
    hide Octant;
  }

  lemma UnitMirror(k: nat)
    requires 1 <= k <= 4
    ensures Unit(8 - k) == Complex(-Unit(k).im, -Unit(k).re)
  {
  }

  ghost predicate AboutUnit(p: Point, k: nat) { About(p.x, Unit(k).re, 4.0) && About(p.y, Unit(k).im, 4.0) }

  lemma NotNegative(a: real, b: real)
    requires a >= 0.0 && b >= 0.0
    ensures a * b >= 0.0
  {
  }

  lemma SmallProduct(a: real, b: real, d: real)
    requires -1.0 <= a <= 1.0 && -d <= b <= d
    ensures -d <= a * b <= d
    decreases a < 0.0
  {
    if a < 0.0 {
      SmallProduct(-a, -b, d);
    } else {
      NotNegative(a, d - b);
      NotNegative(a, d + b);
      NotNegative(1.0 - a, d);
    }
  }

  lemma PartsSmall(p: Point)
    requires OnCircle(p)
    ensures -1.0 <= p.x <= 1.0 && -1.0 <= p.y <= 1.0
  {
    assert p.x * p.x >= 0.0 && p.y * p.y >= 0.0;
    if p.x >= 0.0 { Between(p.x, 0.0, 1.0); } else { Between(-p.x, 0.0, 1.0); }
    if p.y >= 0.0 { Between(p.y, 0.0, 1.0); } else { Between(-p.y, 0.0, 1.0); }
  }

  /** The roots at a quarter turn from each other's mirror image. */
  lemma Mirrored(w: Point, k: nat)
    requires FirstRoot(w) && k <= 8
    ensures Power(w, 8 - k) == Point(-Power(w, k).y, -Power(w, k).x)
  {
    var p, q := Power(w, k), Power(w, 8 - k);
    PowerAdd(w, 8 - k, k);
    PowerOnCircle(w, k);
    var c := Point(p.x, -p.y);
    Conjugate(p);
    TimesOne(q);
    MinusITimes(c);
    hide Power, Times, OnCircle;
    TimesAssoc(q, p, c);
  }

  lemma Conjugate(p: Point)
    requires OnCircle(p)
    ensures Times(p, Point(p.x, -p.y)) == ONE
  {
    assert p.y * p.x == p.x * p.y;
  }

  lemma MinusITimes(c: Point)
    ensures Times(Point(0.0, -1.0), c) == Point(c.y, -c.x)
  {
  }

  /** The small roots: each by square roots. */
  lemma SmallRoots(w: Point)
    requires FirstRoot(w)
    ensures AboutUnit(ONE, 0) && AboutUnit(w, 1) && AboutUnit(Power(w, 2), 2)
    ensures AboutUnit(Power(w, 3), 3) && AboutUnit(Power(w, 4), 4)
  {
    hide Power, Times, Unit;
    Quadrants(w);
    var p, q := Power(w, 2), Power(w, 4);
    RootFour(q.x);
    RootTwo(p.x, q.x);
    RootTwoBelow(-p.y, q.x);
    RootOne(w.x, p.x);
    RootOneBelow(-w.y, p.x);
    ThirdRoot(w);
    RootThree(Power(w, 3).x, -p.y);
    RootThreeBelow(-Power(w, 3).y, -p.y);
    SmallUnits();
  }

  lemma SmallUnits()
    ensures Unit(0) == Complex(0x100_0000_0000, 0) && Unit(1) == Complex(1078384820155, -214504077523)
    ensures Unit(2) == Complex(1015816288660, -420764883643) && Unit(3) == Complex(914210506869, -610855931251)
    ensures Unit(4) == Complex(777472127994, -777472127994)
  {
  }

  lemma ThirdRoot(w: Point)
    requires FirstRoot(w) && Power(w, 2).x > 0.0 && Power(w, 2).y < 0.0
    ensures var p, q := Power(w, 2), Power(w, 3); q.x > 0.0 && q.y < 0.0 && q.x * q.x == (1.0 - p.y) / 2.0 && q.y * q.y == (1.0 + p.y) / 2.0
  {
    hide Power, Times;
    var p, q := Power(w, 2), Power(w, 3);
    PowerAdd(w, 1, 2);
    PowerAdd(w, 3, 3);
    PowerOne(w);
    Mirrored(w, 2);
    PowerOnCircle(w, 3);
    SquareIs(q);
    BothNegative(w, p);
    Negative(-q.y, -q.x);
    assert q.x * q.y == -p.x / 2.0;
  }

  lemma BothNegative(w: Point, p: Point)
    requires w.x > 0.0 && w.y < 0.0 && p.x > 0.0 && p.y < 0.0
    ensures Times(w, p).y < 0.0
  {
    Negative(w.x, p.y);
    Negative(p.x, w.y);
  }

  lemma {:induction false} RootAbout(w: Point, k: nat)
    requires FirstRoot(w) && k < 24
    ensures AboutUnit(Power(w, k), k)
  {
    hide Power, Times, FirstRoot, Unit;
    if k <= 4 {
      SmallRoots(w);
      PowerOne(w);
    } else if k < 8 {
      RootAbout(w, 8 - k);
      Mirrored(w, 8 - k);
      UnitMirror(8 - k);
    } else {
      RootAbout(w, k - 8);
      UnitStep(k - 8);
      QuarterTurns(w, 1, Power(w, k - 8));
      PowerAdd(w, 8, k - 8);
    }
  }

  /** The root a twiddle factor stands for. */
  function Order(j: nat, n: nat): nat { if n == 0 then 2 * j else if n == 1 then j else 3 * j }

  lemma TableNear(j: nat, n: nat)
    requires j < 8 && n < 3
    ensures Abs(Twid(j, n).re * 1024 - Unit(Order(j, n)).re) <= 699 && Abs(Twid(j, n).im * 1024 - Unit(Order(j, n)).im) <= 699
  {
    if j == 0 { TableNear0(n); } else if j == 1 { TableNear1(j, n); } else if j < 4 { TableNear23(j, n); } else if j == 4 { TableNear4(j, n); }
    else if j == 5 { TableNear5(j, n); } else if j == 6 { TableNear6(j, n); }
    else { TableNear7(j, n); }
  }

  lemma TableNear0(n: nat)
    requires n < 3
    ensures Twid(0, n) == Complex(0x4000_0000, 0) && Unit(0) == Complex(0x100_0000_0000, 0)
  {
  }

  lemma TableNear1(j: nat, n: nat)
    requires j == 1 && n < 3
    ensures Abs(Twid(j, n).re * 1024 - Unit(Order(j, n)).re) <= 699 && Abs(Twid(j, n).im * 1024 - Unit(Order(j, n)).im) <= 699
  {
    hide Unit;
    Units();
  }

  lemma TableNear23(j: nat, n: nat)
    requires 2 <= j <= 3 && n < 3
    ensures Abs(Twid(j, n).re * 1024 - Unit(Order(j, n)).re) <= 699 && Abs(Twid(j, n).im * 1024 - Unit(Order(j, n)).im) <= 699
  {
    hide Unit;
    Units();
  }

  lemma TableNear4(j: nat, n: nat)
    requires j == 4 && n < 3
    ensures Abs(Twid(j, n).re * 1024 - Unit(Order(j, n)).re) <= 699 && Abs(Twid(j, n).im * 1024 - Unit(Order(j, n)).im) <= 699
  {
    hide Unit;
    Units();
  }

  lemma TableNear5(j: nat, n: nat)
    requires j == 5 && n < 3
    ensures Abs(Twid(j, n).re * 1024 - Unit(Order(j, n)).re) <= 699 && Abs(Twid(j, n).im * 1024 - Unit(Order(j, n)).im) <= 699
  {
    hide Unit;
    Units();
  }

  lemma TableNear6(j: nat, n: nat)
    requires j == 6 && n < 3
    ensures Abs(Twid(j, n).re * 1024 - Unit(Order(j, n)).re) <= 699 && Abs(Twid(j, n).im * 1024 - Unit(Order(j, n)).im) <= 699
  {
    hide Unit;
    Units();
  }

  lemma TableNear7(j: nat, n: nat)
    requires j == 7 && n < 3
    ensures Abs(Twid(j, n).re * 1024 - Unit(Order(j, n)).re) <= 699 && Abs(Twid(j, n).im * 1024 - Unit(Order(j, n)).im) <= 699
  {
    hide Unit;
    Units();
  }

  lemma Units()
    ensures Unit(0) == Complex(1099511627776, 0) && Unit(1) == Complex(1078384820155, -214504077523)
    ensures Unit(2) == Complex(1015816288660, -420764883643) && Unit(3) == Complex(914210506869, -610855931251)
    ensures Unit(4) == Complex(777472127994, -777472127994) && Unit(5) == Complex(610855931251, -914210506869)
    ensures Unit(6) == Complex(420764883643, -1015816288660) && Unit(7) == Complex(214504077523, -1078384820155)
    ensures Unit(8) == Complex(0, -1099511627776) && Unit(9) == Complex(-214504077523, -1078384820155)
    ensures Unit(10) == Complex(-420764883643, -1015816288660) && Unit(11) == Complex(-610855931251, -914210506869)
    ensures Unit(12) == Complex(-777472127994, -777472127994) && Unit(13) == Complex(-914210506869, -610855931251)
    ensures Unit(14) == Complex(-1015816288660, -420764883643) && Unit(15) == Complex(-1078384820155, -214504077523)
    ensures Unit(16) == Complex(-1099511627776, 0) && Unit(17) == Complex(-1078384820155, 214504077523)
    ensures Unit(18) == Complex(-1015816288660, 420764883643) && Unit(19) == Complex(-914210506869, 610855931251)
    ensures Unit(20) == Complex(-777472127994, 777472127994) && Unit(21) == Complex(-610855931251, 914210506869)
  {
  }

  const TWO30 := 1073741824.0

  /** Every entry of the table is within 0.7 units of 2^30 times its root. */
  lemma TwidNear(w: Point, j: nat, n: nat)
    requires FirstRoot(w) && j < 8 && n < 3
    ensures var t, p := Twid(j, n), Power(w, Order(j, n));
      -0.7 <= t.re as real - TWO30 * p.x <= 0.7 && -0.7 <= t.im as real - TWO30 * p.y <= 0.7
  {
    hide Power, FirstRoot, Unit, Twid;
    TableNear(j, n);
    RootAbout(w, Order(j, n));
  }

  // ---- what truncation costs ----

  /** An integer sample is this close to a point. */
  ghost predicate Near(z: Complex, p: Point, e: real)
  {
    -e <= z.re as real - p.x <= e && -e <= z.im as real - p.y <= e
  }

  lemma {:induction false} NearTurned(z: Complex, p: Point, e: real, m: nat)
    requires Near(z, p, e)
    ensures Near(Turned(z, m), Back(p, m), e)
    decreases m
  {
    if m > 0 { NearTurned(Complex(z.im, -z.re), Point(p.y, -p.x), e, m - 1); }
  }

  /** The eighth of a turn, halved as it is. */
  lemma TurnNear(v: int, h: real)
    requires -8 * M <= v <= 8 * M && About(h, 777472127994, 4.0)
    ensures -1.5 <= MulShift32(SQRT1_2, v) as real - h * v as real / 2.0 <= 1.5
  {
    var d := (SQRT1_2 as real - h * 2147483648.0) / 0.1;
    assert -1.0 <= d <= 1.0;
    var f := MulShift32(SQRT1_2, v);
    assert SQRT1_2 * v - TWO32 < f * TWO32 <= SQRT1_2 * v;
    SmallProduct(d, v as real, (8 * M) as real);
    assert SQRT1_2 as real * v as real == h * 2147483648.0 * v as real + 0.1 * (d * v as real);
    RealProduct(SQRT1_2, v);
  }

  lemma RealProduct(a: int, b: int)
    ensures (a * b) as real == a as real * b as real
  {
  }

  // ---- the passes ----

  lemma IntHalf(v: int)
    ensures (v / 2) as real <= v as real / 2.0 <= (v / 2) as real + 0.5
  {
  }

  lemma IntQuarter(v: int)
    ensures (v / 4) as real <= v as real / 4.0 <= (v / 4) as real + 0.75
  {
  }

  /** The fourth root of real part h times a sample. */
  ghost function Fourth(h: real, z: Complex): Point
  {
    Point(h * (z.re + z.im) as real, -(h * (z.re - z.im) as real))
  }

  lemma FourthTimes(q: Point, z: Complex)
    requires q.y == -q.x
    ensures Times(q, Of(z)) == Fourth(q.x, z)
  {
  }

  /** What the root of output j makes of an odd 4-point sum. */
  lemma OddTerm(w: Point, j: nat, o: Complex)
    requires FirstRoot(w) && j < 8
    ensures Times(Power(w, 4 * j), Of(o)) == Back(if j % 2 == 0 then Of(o) else Fourth(Power(w, 4).x, o), j / 2)
  {
    hide Power, Times, Of, Back, Fourth;
    var q := j / 2;
    if j % 2 == 0 {
      QuarterTurns(w, q, Of(o));
      assert 4 * j == 8 * q;
    } else {
      assert 4 * j == 8 * q + 4;
      PowerAdd(w, 8 * q, 4);
      TimesAssoc(Power(w, 8 * q), Power(w, 4), Of(o));
      QuarterTurns(w, q, Times(Power(w, 4), Of(o)));
      Quadrants(w);
      FourthTimes(Power(w, 4), o);
    }
  }

  lemma BackThree(p: Point)
    ensures Back(p, 0) == p && Back(p, 1) == Point(p.y, -p.x) && Back(p, 2) == Point(-p.x, -p.y) && Back(p, 3) == Point(-p.y, p.x)
  {
    assert Back(p, 2) == Back(Point(p.y, -p.x), 1);
    assert Back(p, 3) == Back(Point(p.y, -p.x), 2) == Back(Point(-p.x, -p.y), 1);
  }

  /** Output j of the 8-point transform from the sums of the even and the odd samples. */
  function Eight(e: Complex, o: Complex, j: nat): Complex
    requires j < 8
  {
    match j
    case 0 => Plus(Halved(e), Halved(o))
    case 1 => Minus(Halved(e), TimesI(EighthTurn(o)))
    case 2 => Minus(Halved(e), TimesI(Halved(o)))
    case 3 => Minus(Halved(e), EighthTurn(o))
    case 4 => Minus(Halved(e), Halved(o))
    case 5 => Plus(Halved(e), TimesI(EighthTurn(o)))
    case 6 => Plus(Halved(e), TimesI(Halved(o)))
    case _ => Plus(Halved(e), EighthTurn(o))
  }

  lemma EightIs(z: seq<Complex>, j: nat)
    requires |z| == 8 && j < 8
    ensures Dft8(z)[j] == Eight(Part(Dft4(z[0], z[1], z[2], z[3]), j % 4), Part(Dft4(z[4], z[5], z[6], z[7]), j % 4), j)
  {
    hide Plus, Minus, TimesI, Halved, EighthTurn, Dft4;
  }

  lemma EvenNear(e: Complex, o: Complex, j: nat)
    requires j < 8 && j % 2 == 0
    ensures Near(Eight(e, o, j), Half(Add(Of(e), Back(Of(o), j / 2))), 2.0)
  {
    IntHalf(e.re);
    IntHalf(e.im);
    IntHalf(o.re);
    IntHalf(o.im);
    BackThree(Of(o));
  }

  lemma OddNear(e: Complex, o: Complex, j: nat, f: Point)
    requires j < 8 && j % 2 == 1
    requires -1.5 <= EighthTurn(o).re as real + f.y / 2.0 <= 1.5 && -1.5 <= EighthTurn(o).im as real - f.x / 2.0 <= 1.5
    ensures Near(Eight(e, o, j), Half(Add(Of(e), Back(f, j / 2))), 2.0)
  {
    hide EighthTurn;
    IntHalf(e.re);
    IntHalf(e.im);
    BackThree(f);
  }

  lemma FourthNear(o: Complex, h: real)
    requires Bounded(o, 4 * M) && About(h, 777472127994, 4.0)
    ensures -1.5 <= EighthTurn(o).re as real + Fourth(h, o).y / 2.0 <= 1.5
    ensures -1.5 <= EighthTurn(o).im as real - Fourth(h, o).x / 2.0 <= 1.5
  {
    hide MulShift32;
    TurnNear(o.re - o.im, h);
    TurnNear(o.re + o.im, h);
  }

  /** Halving loses half a unit, and the eighth of a turn one and a half. */
  lemma EightNear(w: Point, e: Complex, o: Complex, j: nat)
    requires FirstRoot(w) && j < 8 && Bounded(o, 4 * M)
    ensures Near(Eight(e, o, j), Half(Add(Of(e), Times(Power(w, 4 * j), Of(o)))), 2.0)
  {
    hide Power, Times, FirstRoot, Unit, EighthTurn, Fourth, Near, Half, Add, Back, Eight;
    OddTerm(w, j, o);
    if j % 2 == 0 {
      EvenNear(e, o, j);
    } else {
      RootAbout(w, 4);
      SmallUnits();
      FourthNear(o, Power(w, 4).x);
      OddNear(e, o, j, Fourth(Power(w, 4).x, o));
    }
  }

  lemma EightBound(e: Complex, o: Complex, j: nat)
    requires j < 8 && Bounded(e, 4 * M) && Bounded(o, 4 * M)
    ensures Bounded(Eight(e, o, j), 7 * M)
  {
  }

  lemma Dft4Bound(a: Complex, b: Complex, c: Complex, d: Complex, j: nat)
    requires j < 4 && Bounded(a, M) && Bounded(b, M) && Bounded(c, M) && Bounded(d, M)
    ensures Bounded(Part(Dft4(a, b, c, d), j), 4 * M)
  {
  }

  /** The samples of residue r, as the bit reversal leaves them. */
  function Block(x: seq<Complex>, r: nat): (z: seq<Complex>)
    requires |x| == 32 && r < 4
    ensures |z| == 8
  {
    [x[r], x[r + 16], x[r + 8], x[r + 24], x[r + 4], x[r + 20], x[r + 12], x[r + 28]]
  }

  lemma SliceOfReversed(x: seq<Complex>, q: nat, r: nat)
    requires |x| == 32 && q < 4 && r == 2 * (q % 2) + q / 2
    ensures BitReversed(x)[8 * q..8 * q + 8] == Block(x, r)
  {
    hide Reversed5;
    forall i: nat | i < 8 ensures BitReversed(x)[8 * q + i] == Block(x, r)[i] { ReversedIndex(q, i); }
  }

  lemma ReversedIndex(q: nat, i: nat)
    requires q < 4 && i < 8
    ensures Reversed5(8 * q + i) == 2 * (q % 2) + q / 2 +
      (if i == 0 then 0 else if i == 1 then 16 else if i == 2 then 8 else if i == 3 then 24
       else if i == 4 then 4 else if i == 5 then 20 else if i == 6 then 12 else 28)
  {
  }

  lemma FirstPassIs(x: seq<Complex>, j: nat)
    requires |x| == 32 && j < 8
    ensures var y := FirstPass(BitReversed(x));
      y[j] == Dft8(Block(x, 0))[j] && y[8 + j] == Dft8(Block(x, 2))[j]
      && y[16 + j] == Dft8(Block(x, 1))[j] && y[24 + j] == Dft8(Block(x, 3))[j]
  {
    hide Dft8, BitReversed, Block;
    SliceOfReversed(x, 0, 0);
    SliceOfReversed(x, 1, 2);
    SliceOfReversed(x, 2, 1);
    SliceOfReversed(x, 3, 3);
  }

  /** A sample after the first pass is within two units of half the transform of its residue. */
  lemma BlockNear(w: Point, x: seq<Complex>, r: nat, j: nat)
    requires FirstRoot(w) && |x| == 32 && r < 4 && j < 8 && forall n :: 0 <= n < 32 ==> Bounded(x[n], M)
    ensures Near(Dft8(Block(x, r))[j], Half(Inner(w, x, j, r, 8)), 2.0) && Bounded(Dft8(Block(x, r))[j], 7 * M)
  {
    hide Dft8, Dft4, Power, Times, FirstRoot, Quad, Eight, Near, Bounded, Inner;
    InnerIs(w, x, j, r);
    QuadIs(x[r], x[r + 8], x[r + 16], x[r + 24], j);
    QuadIs(x[r + 4], x[r + 12], x[r + 20], x[r + 28], j);
    EightIs(Block(x, r), j);
    Dft4Bound(x[r], x[r + 16], x[r + 8], x[r + 24], j % 4);
    Dft4Bound(x[r + 4], x[r + 20], x[r + 12], x[r + 28], j % 4);
    var e, o := Part(Dft4(x[r], x[r + 16], x[r + 8], x[r + 24]), j % 4), Part(Dft4(x[r + 4], x[r + 20], x[r + 12], x[r + 28]), j % 4);
    EightNear(w, e, o, j);
    EightBound(e, o, j);
  }

  lemma QuarterNear(y: Complex, p: Point)
    requires Near(y, Half(p), 2.0)
    ensures Near(Quartered(y), Eighth(p), 1.25)
  {
    IntQuarter(y.re);
    IntQuarter(y.im);
  }

  /** One part of a product with a twiddle factor. */
  lemma PartNear(f: int, a: real, b: real, a0: real, b0: real)
    requires f as real * 4294967296.0 <= a + b < f as real * 4294967296.0 + 4294967296.0
    requires -0.81 <= a / 4294967296.0 - a0 / 8.0 <= 0.81 && -0.81 <= b / 4294967296.0 - b0 / 8.0 <= 0.81
    ensures -2.65 <= f as real - (a0 + b0) / 8.0 <= 2.65
  {
  }

  ghost function Mul(a: real, b: real): real { a * b }

  lemma TermNear(t: int, y: int, p: real, e: real)
    requires -0.7 <= t as real - TWO30 * p <= 0.7 && -1.0 <= p <= 1.0 && -7 * M <= y <= 7 * M && -2.0 <= y as real - e / 2.0 <= 2.0
    ensures -0.81 <= Mul(t as real, y as real) / 4294967296.0 - Mul(p, e) / 8.0 <= 0.81
  {
    var d, a := (t as real - TWO30 * p) / 0.7, y as real - e / 2.0;
    SmallProduct(d, y as real, (7 * M) as real);
    SmallProduct(p, a, 2.0);
    Expanded(t as real, y as real, p, e, d, a);
  }

  lemma Expanded(t: real, y: real, p: real, e: real, d: real, a: real)
    requires t == TWO30 * p + 0.7 * d && y == e / 2.0 + a
    ensures t * y == TWO30 * (p * e / 2.0 + p * a) + 0.7 * (d * y)
  {
    assert t * y == TWO30 * (p * y) + 0.7 * (d * y);
    assert p * y == p * e / 2.0 + p * a;
  }

  lemma WordOf(n: int)
    ensures var f := n / TWO32; f as real * 4294967296.0 <= n as real < f as real * 4294967296.0 + 4294967296.0
  {
    assert n / TWO32 * TWO32 <= n < n / TWO32 * TWO32 + TWO32;
  }

  lemma Parts(t: Complex, q: Point, y: Complex, p: Point)
    ensures Times(q, p) == Point(Mul(q.x, p.x) - Mul(q.y, p.y), Mul(q.x, p.y) + Mul(q.y, p.x))
    ensures (t.re * y.re - t.im * y.im) as real == Mul(t.re as real, y.re as real) - Mul(t.im as real, y.im as real)
    ensures (t.re * y.im + t.im * y.re) as real == Mul(t.re as real, y.im as real) + Mul(t.im as real, y.re as real)
  {
    RealProduct(t.re, y.re);
    RealProduct(t.im, y.im);
    RealProduct(t.re, y.im);
    RealProduct(t.im, y.re);
  }

  lemma ProductNear(t: Complex, q: Point, y: Complex, p: Point)
    requires -0.7 <= t.re as real - TWO30 * q.x <= 0.7 && -0.7 <= t.im as real - TWO30 * q.y <= 0.7
    requires -1.0 <= q.x <= 1.0 && -1.0 <= q.y <= 1.0 && Near(y, Half(p), 2.0) && Bounded(y, 7 * M)
    ensures Near(Twiddled(t, y), Eighth(Times(q, p)), 2.65)
  {
    hide Mul, Times;
    Parts(t, q, y, p);
    TermNear(t.re, y.re, q.x, p.x);
    TermNear(t.im, y.im, q.y, p.y);
    TermNear(t.re, y.im, q.x, p.y);
    TermNear(t.im, y.re, q.y, p.x);
    WordOf(t.re * y.re - t.im * y.im);
    WordOf(t.re * y.im + t.im * y.re);
    PartNear((t.re * y.re - t.im * y.im) / TWO32, Mul(t.re as real, y.re as real), -Mul(t.im as real, y.im as real),
             Mul(q.x, p.x), -Mul(q.y, p.y));
    PartNear((t.re * y.im + t.im * y.re) / TWO32, Mul(t.re as real, y.im as real), Mul(t.im as real, y.re as real),
             Mul(q.x, p.y), Mul(q.y, p.x));
  }

  lemma TwiddleNear(w: Point, j: nat, n: nat, y: Complex, p: Point)
    requires FirstRoot(w) && j < 8 && n < 3 && Near(y, Half(p), 2.0) && Bounded(y, 7 * M)
    ensures Near(Twiddled(Twid(j, n), y), Eighth(Times(Power(w, Order(j, n)), p)), 2.65)
  {
    hide FirstRoot, Power, Twid, OnCircle, Order, Times, Twiddled;
    var t, q := Twid(j, n), Power(w, Order(j, n));
    TwidNear(w, j, n);
    RootOnCircle(w, Order(j, n));
    PartsSmall(q);
    ProductNear(t, q, y, p);
  }

  lemma RootOnCircle(w: Point, n: nat)
    requires FirstRoot(w)
    ensures OnCircle(Power(w, n))
  {
    PowerOnCircle(w, n);
  }

  lemma {:induction false} BackEighth(p: Point, m: nat)
    ensures Back(Eighth(p), m) == Eighth(Back(p, m))
    decreases m
  {
    if m > 0 { BackEighth(Point(p.y, -p.x), m - 1); }
  }

  lemma TurnedNear(z: Complex, p: Point, e: real, m: nat)
    requires Near(z, Eighth(p), e)
    ensures Near(Turned(z, m), Eighth(Back(p, m)), e)
  {
    hide Near, Eighth, Back, Turned;
    NearTurned(z, Eighth(p), e, m);
    BackEighth(p, m);
  }

  lemma SumNear(a: Complex, b: Complex, c: Complex, d: Complex, p: Point, q: Point, r: Point, s: Point)
    requires Near(a, Eighth(p), 1.25) && Near(b, Eighth(q), 2.65) && Near(c, Eighth(r), 2.65) && Near(d, Eighth(s), 2.65)
    ensures Near(Sum4(a, b, c, d), Eighth(Add(Add(p, q), Add(r, s))), 9.2)
  {
  }

  lemma SpunNone(w: Point, x: seq<Complex>, j: nat)
    requires |x| == 32
    ensures Spun(w, x, j, 0) == Inner(w, x, j, 0, 8)
  {
    TimesOne(Inner(w, x, j, 0, 8));
  }

  /** The transform FFT32C is proved to compute is an eighth of the discrete Fourier transform of the input:
      for every input with three guard bits every part of every output is within 9.2 units of it. */
  lemma IsFourier(w: Point, x: seq<Complex>, k: nat)
    requires FirstRoot(w) && |x| == 32 && k < 32 && forall n :: 0 <= n < 32 ==> Bounded(x[n], M)
    ensures Near(SecondPass(FirstPass(BitReversed(x)))[k], Eighth(Sum(w, x, k, |x|)), 9.2)
  {
    hide Power, Times, FirstRoot, Sum, Inner, Near, Bounded, Dft8, Dft4, Twid, Twiddled, FirstPass, BitReversed, SecondPass;
    hide Back, Turned, Add, Eighth, Sum4, Half, Block, Quartered, Spun;
    var y := FirstPass(BitReversed(x));
    var g, j := k / 8, k % 8;
    FirstPassIs(x, j);
    SecondPassAt(y, g, j);
    BlockNear(w, x, 0, j);
    BlockNear(w, x, 1, j);
    BlockNear(w, x, 2, j);
    BlockNear(w, x, 3, j);
    SpunNone(w, x, j);
    QuarterNear(y[j], Inner(w, x, j, 0, 8));
    var n0, n1, n2, n3 := Quartered(y[j]), Twiddled(Twid(j, 1), y[16 + j]), Twiddled(Twid(j, 0), y[8 + j]), Twiddled(Twid(j, 2), y[24 + j]);
    SpunNear(w, x, j, 1, 1, y[16 + j]);
    SpunNear(w, x, j, 2, 0, y[8 + j]);
    SpunNear(w, x, j, 3, 2, y[24 + j]);
    TurnedNear(n1, Spun(w, x, j, 1), 2.65, g);
    TurnedNear(n2, Spun(w, x, j, 2), 2.65, 2 * g);
    TurnedNear(n3, Spun(w, x, j, 3), 2.65, 3 * g);
    SumNear(n0, Turned(n1, g), Turned(n2, 2 * g), Turned(n3, 3 * g),
            Spun(w, x, j, 0), Back(Spun(w, x, j, 1), g), Back(Spun(w, x, j, 2), 2 * g), Back(Spun(w, x, j, 3), 3 * g));
    FourierSplits(w, x, g, j);
    QuadIs(n0, n1, n2, n3, g);
  }

  /** The twiddle factor of residue r. */
  lemma SpunNear(w: Point, x: seq<Complex>, j: nat, r: nat, n: nat, y: Complex)
    requires FirstRoot(w) && |x| == 32 && j < 8 && r < 4 && n < 3 && Order(j, n) == r * j
    requires Near(y, Half(Inner(w, x, j, r, 8)), 2.0) && Bounded(y, 7 * M)
    ensures Near(Twiddled(Twid(j, n), y), Eighth(Spun(w, x, j, r)), 2.65)
  {
    hide Power, Times, FirstRoot, Inner, Near, Bounded, Twid, Twiddled, Half, Eighth;
    TwiddleNear(w, j, n, y, Inner(w, x, j, r, 8));
  }
}
