/** codec/aacdecode/sbrfft.c: the 32-point complex FFT on 32-bit words, and the radix-8 pass of
    codec/aacdecode/fft.c it is a rescheduling of. Every operation on Word values is checked to stay
    in 32 bits. */
module Fft32 {
  import opened Fixed

  newtype Word = x: int | -0x8000_0000 <= x < 0x8000_0000

  const SQRT1_2 := 0x5a82_799a

  /** Inputs have three guard bits: they are below 2^28. Bounds on what the passes make of them, in
      the same unit: 2.83 for an eighth of a turn, 4.83
      after the first pass, 1.71 for a product with a twiddle factor, 6.33 after the second pass. */
  const M := 0xfff_ffff
  const TURNED := 0x2d41_3ccd
  const FIRST := 0x4d41_3ccd
  const SPUN := 0x1b50_4f34
  const SECOND := 0x6541_3cd0

  // ---- complex arithmetic with the source's truncation ----

  datatype Complex = Complex(re: int, im: int)

  function Plus(a: Complex, b: Complex): Complex { Complex(a.re + b.re, a.im + b.im) }
  function Minus(a: Complex, b: Complex): Complex { Complex(a.re - b.re, a.im - b.im) }

  /** i times z. */
  function TimesI(z: Complex): Complex { Complex(-z.im, z.re) }

  function Halved(z: Complex): Complex { Complex(z.re / 2, z.im / 2) }
  function Quartered(z: Complex): Complex { Complex(z.re / 4, z.im / 4) }

  /** A quarter turn halved is (1 + i) z; scaled by sqrt(1/2) it is an eighth of a turn. */
  function EighthTurn(z: Complex): Complex
  {
    Complex(MulShift32(SQRT1_2, z.re - z.im), MulShift32(SQRT1_2, z.re + z.im))
  }

  /** The product with a twiddle factor, each part summed before it is truncated. */
  function Twiddled(w: Complex, z: Complex): Complex
  {
    Complex((w.re * z.re - w.im * z.im) / TWO32, (w.re * z.im + w.im * z.re) / TWO32)
  }

  // ---- the radix-8 pass ----

  /** The four outputs of a 4-point transform of bit-reversed inputs. */
  datatype Four = Four(k0: Complex, k1: Complex, k2: Complex, k3: Complex)

  function Dft4(x0: Complex, x1: Complex, x2: Complex, x3: Complex): Four
  {
    var a, b, c, d := Plus(x0, x1), Minus(x0, x1), Plus(x2, x3), Minus(x2, x3);
    Four(Plus(a, c), Minus(b, TimesI(d)), Minus(a, c), Plus(b, TimesI(d)))
  }

  /** z turned back by m quarter turns. */
  function Turned(z: Complex, m: nat): Complex
    decreases m
  {
    if m == 0 then z else Turned(Complex(z.im, -z.re), m - 1)
  }

  function Sum4(a: Complex, b: Complex, c: Complex, d: Complex): Complex { Plus(Plus(a, b), Plus(c, d)) }

  lemma TurnedFour(z: Complex, m: nat)
    ensures Turned(z, 1) == Complex(z.im, -z.re) && Turned(z, 2) == Complex(-z.re, -z.im) && Turned(z, 3) == Complex(-z.im, z.re)
    ensures Turned(z, m + 4) == Turned(z, m)
  {
    assert Turned(z, 2) == Turned(Turned(z, 1), 1) && Turned(z, 3) == Turned(Turned(z, 1), 2);
    assert Turned(z, m + 4) == Turned(Turned(Complex(z.im, -z.re), 1), m + 2);
  }

  /** Each output of Dft4 is the sum of the inputs in natural order, input n of output k turned back
      by n k quarter turns: the discrete Fourier transform. */
  lemma Dft4IsTransform(n0: Complex, n1: Complex, n2: Complex, n3: Complex)
    ensures var y := Dft4(n0, n2, n1, n3);
      && y.k0 == Sum4(n0, n1, n2, n3)
      && y.k1 == Sum4(n0, Turned(n1, 1), Turned(n2, 2), Turned(n3, 3))
      && y.k2 == Sum4(n0, Turned(n1, 2), Turned(n2, 4), Turned(n3, 6))
      && y.k3 == Sum4(n0, Turned(n1, 3), Turned(n2, 6), Turned(n3, 9))
  {
    TurnedFour(n1, 0);
    TurnedFour(n2, 0);
    TurnedFour(n2, 2);
    TurnedFour(n3, 2);
    TurnedFour(n3, 5);
    TurnedFour(n3, 1);
  }

  /** The 8-point transform of bit-reversed inputs, halved. */
  function Dft8(x: seq<Complex>): (y: seq<Complex>)
    requires |x| == 8
    ensures |y| == 8
  {
    var e, o := Dft4(x[0], x[1], x[2], x[3]), Dft4(x[4], x[5], x[6], x[7]);
    Joined(e, o, EighthTurn(o.k1), EighthTurn(o.k3))
  }

  /** The halved transform from the two halves' transforms, the odd ones' second and fourth turned. */
  function Joined(e: Four, o: Four, o1: Complex, o3: Complex): (y: seq<Complex>)
    ensures |y| == 8
  {
    [Plus(Halved(e.k0), Halved(o.k0)), Minus(Halved(e.k1), TimesI(o1)),
     Minus(Halved(e.k2), TimesI(Halved(o.k2))), Minus(Halved(e.k3), o3),
     Minus(Halved(e.k0), Halved(o.k0)), Plus(Halved(e.k1), TimesI(o1)),
     Plus(Halved(e.k2), TimesI(Halved(o.k2))), Plus(Halved(e.k3), o3)]
  }

  // ---- buffers ----

  /** Complex sample k of a buffer of words. */
  function At(a: seq<Word>, k: nat): Complex
    requires 2 * k + 1 < |a|
  {
    Complex(a[2 * k] as int, a[2 * k + 1] as int)
  }

  function Samples(a: seq<Word>, k: nat, n: nat): (s: seq<Complex>)
    requires 2 * (k + n) <= |a|
    ensures |s| == n && forall i :: 0 <= i < n ==> s[i] == At(a, k + i)
  {
    seq(n, i requires 0 <= i < n => At(a, k + i))
  }

  /** A word no larger than k. */
  predicate Within(x: Word, k: int) { -k <= x as int <= k }

  ghost predicate Small(a: seq<Word>, k: int)
  {
    forall i :: 0 <= i < |a| ==> Within(a[i], k)
  }

  function MULSHIFT32(x: Word, y: Word): (r: Word)
    ensures r as int == MulShift32(x as int, y as int)
  {
    HighWordFits(x as int, y as int);
    MulShift32(x as int, y as int) as Word
  }

  lemma HighWordFits(x: int, y: int)
    requires IsInt32(x) && IsInt32(y)
    ensures -0x8000_0000 <= MulShift32(x, y) < 0x8000_0000
  {
    var a: nat, b: nat := if x < 0 then -x else x, if y < 0 then -y else y;
    ScaledUp(a, b, 0x8000_0000, 0x8000_0000);
    assert x * y == a * b || x * y == -(a * b);
  }

  lemma TurnBound(x: Word, r: Word)
    requires Within(x, 8 * M) && r == MULSHIFT32(SQRT1_2 as Word, x)
    ensures Within(r, TURNED)
  {
  }

  // ---- the register-scheduled radix-8 pass ----

  function Z(re: Word, im: Word): Complex { Complex(re as int, im as int) }

  /** The upper half of the group: its two even outputs, and its odd ones turned. */
  ghost predicate UpperIs(x8: Word, x9: Word, x10: Word, x11: Word, x12: Word, x13: Word, x14: Word, x15: Word,
                          r2: Word, r3: Word, r4: Word, r5: Word, r6: Word, r7: Word, r8: Word, r9: Word)
  {
    var o := Dft4(Z(x8, x9), Z(x10, x11), Z(x12, x13), Z(x14, x15));
    Z(r4, r8) == o.k0 && Z(r5, r9) == o.k2 && Z(r2, r3) == EighthTurn(o.k3) && Z(r6, r7) == EighthTurn(o.k1)
  }

  method UpperHalf(x8: Word, x9: Word, x10: Word, x11: Word, x12: Word, x13: Word, x14: Word, x15: Word)
    returns (r2: Word, r3: Word, r4: Word, r5: Word, r6: Word, r7: Word, r8: Word, r9: Word)
    requires Within(x8, M) && Within(x9, M) && Within(x10, M) && Within(x11, M)
    requires Within(x12, M) && Within(x13, M) && Within(x14, M) && Within(x15, M)
    ensures UpperIs(x8, x9, x10, x11, x12, x13, x14, x15, r2, r3, r4, r5, r6, r7, r8, r9)
    ensures Within(r4, 4 * M) && Within(r8, 4 * M) && Within(r5, 4 * M) && Within(r9, 4 * M)
    ensures Within(r2, TURNED) && Within(r3, TURNED) && Within(r6, TURNED) && Within(r7, TURNED)
  {
    hide MULSHIFT32, MulShift32;
    var r10, r11, r12, r14 := x8 + x10, x9 + x11, x12 + x14, x13 + x15;
    r2, r3, r6, r7 := x8 - x10, x9 - x11, x12 - x14, x13 - x15;
    r4 := r2 - r7;
    r5 := r2 + r7;
    r8 := r3 - r6;
    r9 := r3 + r6;
    var s2, s3, s6, s7 := r4 - r9, r4 + r9, r5 - r8, r5 + r8;
    r2 := MULSHIFT32(SQRT1_2 as Word, s2);
    r3 := MULSHIFT32(SQRT1_2 as Word, s3);
    r6 := MULSHIFT32(SQRT1_2 as Word, s6);
    r7 := MULSHIFT32(SQRT1_2 as Word, s7);
    TurnBound(s2, r2);
    TurnBound(s3, r3);
    TurnBound(s6, r6);
    TurnBound(s7, r7);
    r4 := r10 + r12;
    r5 := r10 - r12;
    r8 := r11 + r14;
    r9 := r11 - r14;
  }

  /** The real parts of the lower half, and the outputs that need only them. */
  ghost predicate RealIs(x0: Word, x2: Word, x4: Word, x6: Word, r4: Word, r9: Word,
                         y0: Word, y8: Word, y4: Word, y12: Word, r10: Word, r12: Word)
  {
    var k0, k2 := (x0 as int + x2 as int) + (x4 as int + x6 as int), (x0 as int + x2 as int) - (x4 as int + x6 as int);
    && y0 as int == k0 / 2 + r4 as int / 2 && y8 as int == k0 / 2 - r4 as int / 2
    && y4 as int == k2 / 2 + r9 as int / 2 && y12 as int == k2 / 2 - r9 as int / 2
    && r10 as int == x0 as int - x2 as int && r12 as int == x4 as int - x6 as int
  }

  method LowerReal(x0: Word, x2: Word, x4: Word, x6: Word, r4_0: Word, r9_0: Word)
    returns (y0: Word, y8: Word, y4: Word, y12: Word, r10: Word, r12: Word)
    requires Within(x0, M) && Within(x2, M) && Within(x4, M) && Within(x6, M) && Within(r4_0, 4 * M) && Within(r9_0, 4 * M)
    ensures RealIs(x0, x2, x4, x6, r4_0, r9_0, y0, y8, y4, y12, r10, r12)
    ensures Within(r10, 2 * M) && Within(r12, 2 * M)
    ensures Within(y0, FIRST) && Within(y8, FIRST) && Within(y4, FIRST) && Within(y12, FIRST)
  {
    var r4, r9 := r4_0, r9_0;
    r10 := x0;
    var r11 := x2;
    r12 := x4;
    var r14 := x6;
    r10 := r10 + r11;
    r12 := r12 + r14;
    r4 := r4 / 2;
    r10 := r10 + r12;
    r4 := r4 + r10 / 2;
    y0 := r4;
    r4 := r4 - r10 / 2;
    r4 := r10 / 2 - r4;
    y8 := r4;
    r9 := r9 / 2;
    r10 := r10 - 2 * r12;
    r4 := r10 / 2 + r9;
    y4 := r4;
    r4 := r10 / 2 - r9;
    y12 := r4;
    r10 := r10 + r12;
    r10 := r10 - 2 * r11;
    r12 := r12 - 2 * r14;
  }

  /** The same of the imaginary parts. */
  ghost predicate ImagIs(x1: Word, x3: Word, x5: Word, x7: Word, r8: Word, r5: Word,
                         y1: Word, y9: Word, y5: Word, y13: Word, r4: Word, r11: Word)
  {
    var k0, k2 := (x1 as int + x3 as int) + (x5 as int + x7 as int), (x1 as int + x3 as int) - (x5 as int + x7 as int);
    && y1 as int == k0 / 2 + r8 as int / 2 && y9 as int == k0 / 2 - r8 as int / 2
    && y5 as int == k2 / 2 - r5 as int / 2 && y13 as int == k2 / 2 + r5 as int / 2
    && r4 as int == x1 as int - x3 as int && r11 as int == x5 as int - x7 as int
  }

  method LowerImag(x1: Word, x3: Word, x5: Word, x7: Word, r8_0: Word, r5_0: Word)
    returns (y1: Word, y9: Word, y5: Word, y13: Word, r4: Word, r11: Word)
    requires Within(x1, M) && Within(x3, M) && Within(x5, M) && Within(x7, M) && Within(r8_0, 4 * M) && Within(r5_0, 4 * M)
    ensures ImagIs(x1, x3, x5, x7, r8_0, r5_0, y1, y9, y5, y13, r4, r11)
    ensures Within(r4, 2 * M) && Within(r11, 2 * M)
    ensures Within(y1, FIRST) && Within(y9, FIRST) && Within(y5, FIRST) && Within(y13, FIRST)
  {
    var r8, r5 := r8_0, r5_0;
    r4 := x1;
    var r9 := x3;
    r11 := x5;
    var r14 := x7;
    r4 := r4 + r9;
    r11 := r11 + r14;
    r8 := r8 / 2;
    r4 := r4 + r11;
    r8 := r8 + r4 / 2;
    y1 := r8;
    r8 := r8 - r4 / 2;
    r8 := r4 / 2 - r8;
    y9 := r8;
    r5 := r5 / 2;
    r4 := r4 - 2 * r11;
    r8 := r4 / 2 - r5;
    y5 := r8;
    r8 := r4 / 2 + r5;
    y13 := r8;
    r4 := r4 + r11;
    r4 := r4 - 2 * r9;
    r11 := r11 - 2 * r14;
  }

  /** The odd outputs. */
  ghost predicate OddIs(r10: Word, r11: Word, r12: Word, r4: Word, r2: Word, r3: Word, r6: Word, r7: Word,
                        y2: Word, y3: Word, y6: Word, y7: Word, y10: Word, y11: Word, y14: Word, y15: Word)
  {
    var b, d := Z(r10, r4), Z(r12, r11);
    var t, v, x, z := Halved(Plus(b, TimesI(d))), Halved(Minus(b, TimesI(d))), Z(r2, r3), Z(r6, r7);
    && Z(y2, y3) == Minus(v, TimesI(z)) && Z(y6, y7) == Minus(t, x)
    && Z(y10, y11) == Plus(v, TimesI(z)) && Z(y14, y15) == Plus(t, x)
  }

  method OddOutputs(r10_0: Word, r11_0: Word, r12: Word, r4_0: Word, r2: Word, r3: Word, r6: Word, r7: Word)
    returns (y2: Word, y3: Word, y6: Word, y7: Word, y10: Word, y11: Word, y14: Word, y15: Word)
    requires Within(r10_0, 2 * M) && Within(r11_0, 2 * M) && Within(r12, 2 * M) && Within(r4_0, 2 * M)
    requires Within(r2, TURNED) && Within(r3, TURNED) && Within(r6, TURNED) && Within(r7, TURNED)
    ensures OddIs(r10_0, r11_0, r12, r4_0, r2, r3, r6, r7, y2, y3, y6, y7, y10, y11, y14, y15)
    ensures Within(y2, FIRST) && Within(y3, FIRST) && Within(y6, FIRST) && Within(y7, FIRST)
    ensures Within(y10, FIRST) && Within(y11, FIRST) && Within(y14, FIRST) && Within(y15, FIRST)
  {
    var r9 := r10_0 - r11_0;
    var r10 := r10_0 + r11_0;
    var r14 := r4_0 + r12;
    var r4 := r4_0 - r12;
    y2 := r10 / 2 + r7;
    y3 := r4 / 2 - r6;
    y6 := r9 / 2 - r2;
    y7 := r14 / 2 - r3;
    y10 := r10 / 2 - r7;
    y11 := r4 / 2 + r6;
    y14 := r9 / 2 + r2;
    y15 := r14 / 2 + r3;
  }

  /** What the registers hold, put together. */
  lemma OutputsAre(x0: Complex, x1: Complex, x2: Complex, x3: Complex, y: seq<Complex>, o: Four, o1: Complex, o3: Complex)
    requires |y| == 8
    requires var k0 := Plus(Plus(x0, x1), Plus(x2, x3));
      y[0] == Plus(Halved(k0), Halved(o.k0)) && y[4] == Minus(Halved(k0), Halved(o.k0))
    requires var k2 := Minus(Plus(x0, x1), Plus(x2, x3));
      y[2] == Minus(Halved(k2), TimesI(Halved(o.k2))) && y[6] == Plus(Halved(k2), TimesI(Halved(o.k2)))
    requires var b, d := Minus(x0, x1), Minus(x2, x3);
      var t, v := Halved(Plus(b, TimesI(d))), Halved(Minus(b, TimesI(d)));
      && y[1] == Minus(v, TimesI(o1)) && y[5] == Plus(v, TimesI(o1)) && y[3] == Minus(t, o3) && y[7] == Plus(t, o3)
    ensures y == Joined(Dft4(x0, x1, x2, x3), o, o1, o3)
  {
    hide Plus, Minus, TimesI, Halved;
  }

  /** The outputs that LowerReal and LowerImag make between them. */
  lemma EvenOutputs(x0: Complex, x1: Complex, x2: Complex, x3: Complex, o: Four, y0: Complex, y2: Complex, y4: Complex, y6: Complex)
    requires var k0, k2 := (x0.re + x1.re) + (x2.re + x3.re), (x0.re + x1.re) - (x2.re + x3.re);
      && y0.re == k0 / 2 + o.k0.re / 2 && y4.re == k0 / 2 - o.k0.re / 2
      && y2.re == k2 / 2 + o.k2.im / 2 && y6.re == k2 / 2 - o.k2.im / 2
    requires var k0, k2 := (x0.im + x1.im) + (x2.im + x3.im), (x0.im + x1.im) - (x2.im + x3.im);
      && y0.im == k0 / 2 + o.k0.im / 2 && y4.im == k0 / 2 - o.k0.im / 2
      && y2.im == k2 / 2 - o.k2.re / 2 && y6.im == k2 / 2 + o.k2.re / 2
    ensures var k0 := Plus(Plus(x0, x1), Plus(x2, x3));
      y0 == Plus(Halved(k0), Halved(o.k0)) && y4 == Minus(Halved(k0), Halved(o.k0))
    ensures var k2 := Minus(Plus(x0, x1), Plus(x2, x3));
      y2 == Minus(Halved(k2), TimesI(Halved(o.k2))) && y6 == Plus(Halved(k2), TimesI(Halved(o.k2)))
  {
  }

  lemma DifferenceIs(a: Complex, b: Complex, re: Word, im: Word)
    requires re as int == a.re - b.re && im as int == a.im - b.im
    ensures Z(re, im) == Minus(a, b)
  {
  }

  /** The pieces make one transform. */
  lemma GroupIs(before: seq<Word>, now: seq<Word>, p: nat, r2: Word, r3: Word, r4: Word, r5: Word, r6: Word, r7: Word,
                r8: Word, r9: Word, r10: Word, r11: Word, r12: Word, s4: Word)
    requires p % 2 == 0 && p + 16 <= |before| == |now|
    requires UpperIs(before[p + 8], before[p + 9], before[p + 10], before[p + 11], before[p + 12], before[p + 13], before[p + 14],
                     before[p + 15], r2, r3, r4, r5, r6, r7, r8, r9)
    requires RealIs(before[p], before[p + 2], before[p + 4], before[p + 6], r4, r9, now[p], now[p + 8], now[p + 4], now[p + 12], r10, r12)
    requires ImagIs(before[p + 1], before[p + 3], before[p + 5], before[p + 7], r8, r5, now[p + 1], now[p + 9], now[p + 5], now[p + 13], s4, r11)
    requires OddIs(r10, r11, r12, s4, r2, r3, r6, r7, now[p + 2], now[p + 3], now[p + 6], now[p + 7], now[p + 10], now[p + 11], now[p + 14], now[p + 15])
    ensures Samples(now, p / 2, 8) == Dft8(Samples(before, p / 2, 8))
  {
    hide Dft4, Dft8, EighthTurn, Plus, Minus, TimesI, Halved, Joined;
    var x, y := Samples(before, p / 2, 8), Samples(now, p / 2, 8);
    var o := Dft4(x[4], x[5], x[6], x[7]);
    EvenOutputs(x[0], x[1], x[2], x[3], o, y[0], y[2], y[4], y[6]);
    DifferenceIs(x[0], x[1], r10, s4);
    DifferenceIs(x[2], x[3], r12, r11);
    OutputsAre(x[0], x[1], x[2], x[3], y, o, EighthTurn(o.k1), EighthTurn(o.k3));
    JoinedIs(x);
  }

  /** Four stores. */
  method Store(r0: array<Word>, i: nat, j: nat, k: nat, l: nat, a: Word, b: Word, c: Word, d: Word)
    requires i < r0.Length && j < r0.Length && k < r0.Length && l < r0.Length
    requires i != j && i != k && i != l && j != k && j != l && k != l
    modifies r0
    ensures r0[..] == old(r0[..])[i := a][j := b][k := c][l := d]
  {
    r0[i], r0[j], r0[k], r0[l] := a, b, c, d;
  }

  /** One group of the pass, in place. */
  method R8Group(r0: array<Word>, p: nat)
    requires p % 2 == 0 && p + 16 <= r0.Length && forall i :: p <= i < p + 16 ==> Within(r0[i], M)
    modifies r0
    ensures forall i :: 0 <= i < r0.Length && !(p <= i < p + 16) ==> r0[i] == old(r0[i])
    ensures forall i :: p <= i < p + 16 ==> Within(r0[i], FIRST)
    ensures Samples(r0[..], p / 2, 8) == Dft8(old(Samples(r0[..], p / 2, 8)))
  {
    hide UpperIs, RealIs, ImagIs, OddIs, Dft8, Samples;
    ghost var before := r0[..];
    var r2, r3, r4, r5, r6, r7, r8, r9 :=
      UpperHalf(r0[p + 8], r0[p + 9], r0[p + 10], r0[p + 11], r0[p + 12], r0[p + 13], r0[p + 14], r0[p + 15]);
    var y0, y8, y4, y12, r10, r12 := LowerReal(r0[p], r0[p + 2], r0[p + 4], r0[p + 6], r4, r9);
    Store(r0, p, p + 8, p + 4, p + 12, y0, y8, y4, y12);
    var y1, y9, y5, y13, s4, r11 := LowerImag(r0[p + 1], r0[p + 3], r0[p + 5], r0[p + 7], r8, r5);
    Store(r0, p + 1, p + 9, p + 5, p + 13, y1, y9, y5, y13);
    var y2, y3, y6, y7, y10, y11, y14, y15 := OddOutputs(r10, r11, r12, s4, r2, r3, r6, r7);
    Store(r0, p + 2, p + 3, p + 6, p + 7, y2, y3, y6, y7);
    Store(r0, p + 10, p + 11, p + 14, p + 15, y10, y11, y14, y15);
    GroupIs(before, r0[..], p, r2, r3, r4, r5, r6, r7, r8, r9, r10, r11, r12, s4);
  }

  // ---- the whole first pass ----

  /** Four 8-point transforms side by side. */
  function FirstPass(x: seq<Complex>): (y: seq<Complex>)
    requires |x| == 32
    ensures |y| == 32
  {
    Dft8(x[0..8]) + Dft8(x[8..16]) + Dft8(x[16..24]) + Dft8(x[24..32])
  }

  function View(a: seq<Word>): (s: seq<Complex>)
    requires |a| == 64
    ensures |s| == 32
  {
    Samples(a, 0, 32)
  }

  lemma SliceIs(a: seq<Word>, g: nat)
    requires |a| == 64 && g < 4
    ensures View(a)[8 * g..8 * g + 8] == Samples(a, 8 * g, 8)
  {
  }

  lemma SamplesSame(a: seq<Word>, b: seq<Word>, g: nat)
    requires |a| == |b| == 64 && g < 4 && forall i :: 16 * g <= i < 16 * g + 16 ==> a[i] == b[i]
    ensures Samples(a, 8 * g, 8) == Samples(b, 8 * g, 8)
  {
  }

  ghost predicate GroupsDone(before: seq<Word>, now: seq<Word>, n: nat)
  {
    && |before| == |now| == 64 && n <= 4
    && (forall g: nat :: g < n ==> Samples(now, 8 * g, 8) == Dft8(Samples(before, 8 * g, 8)))
    && (forall i :: 0 <= i < 16 * n ==> Within(now[i], FIRST))
    && (forall i :: 16 * n <= i < 64 ==> now[i] == before[i])
  }

  lemma GroupsStep(before: seq<Word>, mid: seq<Word>, now: seq<Word>, n: nat)
    requires n < 4 && GroupsDone(before, mid, n) && |now| == 64
    requires forall i :: 0 <= i < 64 && !(16 * n <= i < 16 * n + 16) ==> now[i] == mid[i]
    requires forall i :: 16 * n <= i < 16 * n + 16 ==> Within(now[i], FIRST)
    requires forall g: nat :: g == n ==> Samples(now, 8 * g, 8) == Dft8(Samples(mid, 8 * g, 8))
    ensures GroupsDone(before, now, n + 1)
  {
    hide Dft8, Within, Samples;
    SamplesSame(mid, before, n);
    forall g: nat | g < n ensures Samples(now, 8 * g, 8) == Dft8(Samples(before, 8 * g, 8)) { SamplesSame(now, mid, g); }
  }

  lemma GroupsAll(before: seq<Word>, now: seq<Word>)
    requires GroupsDone(before, now, 4)
    ensures View(now) == FirstPass(View(before)) && Small(now, FIRST)
  {
    hide Dft8, Samples;
    SliceIs(before, 0); SliceIs(before, 1); SliceIs(before, 2); SliceIs(before, 3);
    SliceIs(now, 0); SliceIs(now, 1); SliceIs(now, 2); SliceIs(now, 3);
    var v := View(now);
    assert v == v[0..8] + v[8..16] + v[16..24] + v[24..32];
  }

  method R8FirstPass32(x: array<Word>)
    requires x.Length == 64 && Small(x[..], M)
    modifies x
    ensures View(x[..]) == FirstPass(View(old(x[..]))) && Small(x[..], FIRST)
  {
    hide Dft8, Samples, Within, GroupsDone;
    ghost var before := x[..];
    var r0, r1 := 0, 4;
    ghost var n := 0;
    assert GroupsDone(before, before, 0) by { NoGroups(before); }
    while r1 != 0
      invariant 0 <= n <= 4 && r0 == 16 * n && r1 == 4 - n && GroupsDone(before, x[..], n)
      decreases r1
    {
      ghost var mid := x[..];
      StillSmall(before, mid, n);
      R8Group(x, r0);
      GroupsStep(before, mid, x[..], n);
      r0, r1, n := r0 + 16, r1 - 1, n + 1;
    }
    GroupsAll(before, x[..]);
  }

  // ---- the readable radix-8 pass of fft.c ----

  /** Four samples of a group: sums and differences, then sums and differences of those. */
  method Quarter(x0: Word, x1: Word, x2: Word, x3: Word, x4: Word, x5: Word, x6: Word, x7: Word)
    returns (sr: Word, si: Word, ur: Word, ui: Word, tr: Word, ti: Word, vr: Word, vi: Word)
    requires Within(x0, M) && Within(x1, M) && Within(x2, M) && Within(x3, M)
    requires Within(x4, M) && Within(x5, M) && Within(x6, M) && Within(x7, M)
    ensures Four(Z(sr, si), Z(vr, vi), Z(ur, ui), Z(tr, ti)) == Dft4(Z(x0, x1), Z(x2, x3), Z(x4, x5), Z(x6, x7))
    ensures Within(sr, 4 * M) && Within(si, 4 * M) && Within(ur, 4 * M) && Within(ui, 4 * M)
    ensures Within(tr, 4 * M) && Within(ti, 4 * M) && Within(vr, 4 * M) && Within(vi, 4 * M)
  {
    var ar, br, ai, bi := x0 + x2, x0 - x2, x1 + x3, x1 - x3;
    var cr, dr, ci, di := x4 + x6, x4 - x6, x5 + x7, x5 - x7;
    sr, ur, si, ui := ar + cr, ar - cr, ai + ci, ai - ci;
    tr, vr, ti, vi := br - di, br + di, bi + dr, bi - dr;
  }

  /** An eighth of a turn of (re, im). */
  method Turn(re: Word, im: Word) returns (xr: Word, xi: Word)
    requires Within(re, 4 * M) && Within(im, 4 * M)
    ensures Z(xr, xi) == EighthTurn(Z(re, im)) && Within(xr, TURNED) && Within(xi, TURNED)
  {
    hide MULSHIFT32, MulShift32;
    xr := MULSHIFT32(SQRT1_2 as Word, re - im);
    xi := MULSHIFT32(SQRT1_2 as Word, re + im);
    TurnBound(re - im, xr);
    TurnBound(re + im, xi);
  }

  /** Two outputs from one sample of each half: sum and difference, or with the second a quarter turn on. */
  method Opposite(er: Word, ei: Word, xr: Word, xi: Word) returns (pr: Word, pi: Word, mr: Word, mi: Word)
    requires Within(er, 4 * M) && Within(ei, 4 * M) && Within(xr, TURNED) && Within(xi, TURNED)
    ensures Z(pr, pi) == Plus(Halved(Z(er, ei)), Z(xr, xi)) && Z(mr, mi) == Minus(Halved(Z(er, ei)), Z(xr, xi))
    ensures Within(pr, FIRST) && Within(pi, FIRST) && Within(mr, FIRST) && Within(mi, FIRST)
  {
    pr, mr := er / 2 + xr, er / 2 - xr;
    pi, mi := ei / 2 + xi, ei / 2 - xi;
  }

  method Crosswise(er: Word, ei: Word, xr: Word, xi: Word) returns (pr: Word, pi: Word, mr: Word, mi: Word)
    requires Within(er, 4 * M) && Within(ei, 4 * M) && Within(xr, TURNED) && Within(xi, TURNED)
    ensures Z(pr, pi) == Minus(Halved(Z(er, ei)), TimesI(Z(xr, xi))) && Z(mr, mi) == Plus(Halved(Z(er, ei)), TimesI(Z(xr, xi)))
    ensures Within(pr, FIRST) && Within(pi, FIRST) && Within(mr, FIRST) && Within(mi, FIRST)
  {
    pr, mr := er / 2 + xi, er / 2 - xi;
    pi, mi := ei / 2 - xr, ei / 2 + xr;
  }

  lemma HalvedIs(re: Word, im: Word, hr: Word, hi: Word)
    requires Within(re, 4 * M) && Within(im, 4 * M) && hr == re / 2 && hi == im / 2
    ensures Z(hr, hi) == Halved(Z(re, im)) && Within(hr, TURNED) && Within(hi, TURNED)
  {
  }

  lemma ReadableIs(y: seq<Complex>, e: Four, o: Four, x1: Complex, x3: Complex)
    requires |y| == 8
    requires y[0] == Plus(Halved(e.k0), Halved(o.k0)) && y[4] == Minus(Halved(e.k0), Halved(o.k0))
    requires y[2] == Minus(Halved(e.k2), TimesI(Halved(o.k2))) && y[6] == Plus(Halved(e.k2), TimesI(Halved(o.k2)))
    requires y[1] == Minus(Halved(e.k1), TimesI(x1)) && y[5] == Plus(Halved(e.k1), TimesI(x1))
    requires y[3] == Minus(Halved(e.k3), x3) && y[7] == Plus(Halved(e.k3), x3)
    ensures y == Joined(e, o, x1, x3)
  {
    hide Plus, Minus, TimesI, Halved;
  }

  lemma JoinedIs(x: seq<Complex>)
    requires |x| == 8
    ensures var o := Dft4(x[4], x[5], x[6], x[7]);
      Dft8(x) == Joined(Dft4(x[0], x[1], x[2], x[3]), o, EighthTurn(o.k1), EighthTurn(o.k3))
  {
    hide Dft4, EighthTurn, Joined;
  }

  lemma SamplesAre(a: seq<Word>, p: nat, s: seq<Complex>)
    requires p % 2 == 0 && p + 16 <= |a| && |s| == 8
    requires s[0] == Z(a[p], a[p + 1]) && s[1] == Z(a[p + 2], a[p + 3]) && s[2] == Z(a[p + 4], a[p + 5]) && s[3] == Z(a[p + 6], a[p + 7])
    requires s[4] == Z(a[p + 8], a[p + 9]) && s[5] == Z(a[p + 10], a[p + 11]) && s[6] == Z(a[p + 12], a[p + 13]) && s[7] == Z(a[p + 14], a[p + 15])
    ensures Samples(a, p / 2, 8) == s
  {
  }

  method ReadableGroup(x: array<Word>, p: nat)
    requires p % 2 == 0 && p + 16 <= x.Length && forall i :: p <= i < p + 16 ==> Within(x[i], M)
    modifies x
    ensures forall i :: 0 <= i < x.Length && !(p <= i < p + 16) ==> x[i] == old(x[i])
    ensures forall i :: p <= i < p + 16 ==> Within(x[i], FIRST)
    ensures Samples(x[..], p / 2, 8) == Dft8(old(Samples(x[..], p / 2, 8)))
  {
    hide Dft4, Dft8, EighthTurn, Plus, Minus, TimesI, Halved, Samples, Joined;
    ghost var before := [Z(x[p], x[p + 1]), Z(x[p + 2], x[p + 3]), Z(x[p + 4], x[p + 5]), Z(x[p + 6], x[p + 7]),
      Z(x[p + 8], x[p + 9]), Z(x[p + 10], x[p + 11]), Z(x[p + 12], x[p + 13]), Z(x[p + 14], x[p + 15])];
    SamplesAre(x[..], p, before);
    var sr, si, ur, ui, tr, ti, vr, vi := Quarter(x[p], x[p + 1], x[p + 2], x[p + 3], x[p + 4], x[p + 5], x[p + 6], x[p + 7]);
    var s1, s2, u1, u2, t1, t2, v1, v2 :=
      Quarter(x[p + 8], x[p + 9], x[p + 10], x[p + 11], x[p + 12], x[p + 13], x[p + 14], x[p + 15]);
    ghost var e, o := Four(Z(sr, si), Z(vr, vi), Z(ur, ui), Z(tr, ti)), Four(Z(s1, s2), Z(v1, v2), Z(u1, u2), Z(t1, t2));
    var wr, wi, yr, yi := s1 / 2, s2 / 2, u1 / 2, u2 / 2;
    HalvedIs(s1, s2, wr, wi);
    HalvedIs(u1, u2, yr, yi);
    var y0, y1, y8, y9 := Opposite(sr, si, wr, wi);
    var y4, y5, y12, y13 := Crosswise(ur, ui, yr, yi);
    var xr, xi := Turn(t1, t2);
    var zr, zi := Turn(v1, v2);
    var y14, y15, y6, y7 := Opposite(tr, ti, xr, xi);
    var y2, y3, y10, y11 := Crosswise(vr, vi, zr, zi);
    ghost var now := [Z(y0, y1), Z(y2, y3), Z(y4, y5), Z(y6, y7), Z(y8, y9), Z(y10, y11), Z(y12, y13), Z(y14, y15)];
    ReadableIs(now, e, o, Z(zr, zi), Z(xr, xi));
    JoinedIs(before);
    StoreGroup(x, p, y0, y1, y2, y3, y4, y5, y6, y7, y8, y9, y10, y11, y12, y13, y14, y15);
    SamplesAre(x[..], p, now);
  }

  /** The sixteen stores at the end of a group. */
  method StoreGroup(x: array<Word>, p: nat, y0: Word, y1: Word, y2: Word, y3: Word, y4: Word, y5: Word, y6: Word, y7: Word,
                    y8: Word, y9: Word, y10: Word, y11: Word, y12: Word, y13: Word, y14: Word, y15: Word)
    requires p + 16 <= x.Length
    modifies x
    ensures forall i :: 0 <= i < x.Length && !(p <= i < p + 16) ==> x[i] == old(x[i])
    ensures x[p] == y0 && x[p + 1] == y1 && x[p + 2] == y2 && x[p + 3] == y3 && x[p + 4] == y4 && x[p + 5] == y5
    ensures x[p + 6] == y6 && x[p + 7] == y7 && x[p + 8] == y8 && x[p + 9] == y9 && x[p + 10] == y10 && x[p + 11] == y11
    ensures x[p + 12] == y12 && x[p + 13] == y13 && x[p + 14] == y14 && x[p + 15] == y15
  {
    Store(x, p, p + 8, p + 1, p + 9, y0, y8, y1, y9);
    Store(x, p + 4, p + 12, p + 5, p + 13, y4, y12, y5, y13);
    Store(x, p + 6, p + 14, p + 7, p + 15, y6, y14, y7, y15);
    Store(x, p + 2, p + 10, p + 3, p + 11, y2, y10, y3, y11);
  }

  /** R8FirstPass on the same buffer: the register-scheduled pass computes exactly what it computes. */
  method R8FirstPass(x: array<Word>)
    requires x.Length == 64 && Small(x[..], M)
    modifies x
    ensures View(x[..]) == FirstPass(View(old(x[..]))) && Small(x[..], FIRST)
  {
    hide Dft8, Samples, Within, GroupsDone;
    ghost var before := x[..];
    var p, bg := 0, 4;
    ghost var n := 0;
    NoGroups(before);
    while bg != 0
      invariant 0 <= n <= 4 && p == 16 * n && bg == 4 - n && GroupsDone(before, x[..], n)
      decreases bg
    {
      ghost var mid := x[..];
      StillSmall(before, mid, n);
      ReadableGroup(x, p);
      GroupsStep(before, mid, x[..], n);
      p, bg, n := p + 16, bg - 1, n + 1;
    }
    GroupsAll(before, x[..]);
  }

  lemma NoGroups(a: seq<Word>)
    requires |a| == 64
    ensures GroupsDone(a, a, 0)
  {
  }

  lemma StillSmall(before: seq<Word>, now: seq<Word>, n: nat)
    requires n < 4 && GroupsDone(before, now, n) && Small(before, M)
    ensures forall i :: 16 * n <= i < 16 * n + 16 ==> Within(now[i], M)
  {
    hide Within;
  }

  // ---- bit reversal ----

  /** The five bits of k in reverse. */
  function Reversed5(k: nat): nat
    requires k < 32
  {
    16 * (k % 2) + 8 * (k / 2 % 2) + 4 * (k / 4 % 2) + 2 * (k / 8 % 2) + k / 16
  }

  function BitReversed(x: seq<Complex>): (y: seq<Complex>)
    requires |x| == 32
    ensures |y| == 32
  {
    seq(32, k requires 0 <= k < 32 => x[Reversed5(k)])
  }

  /** Complex samples p and q change places. */
  function Swapped(x: seq<Complex>, p: nat, q: nat): seq<Complex>
    requires p < |x| && q < |x|
  {
    x[p := x[q]][q := x[p]]
  }

  /** swapcplx on the samples at words p0 and p1. */
  method SwapCplx(inout: array<Word>, p0: nat, p1: nat)
    requires inout.Length == 64 && p0 % 2 == p1 % 2 == 0 && p0 < p1 < 64
    modifies inout
    ensures View(inout[..]) == Swapped(View(old(inout[..])), p0 / 2, p1 / 2)
  {
    var t, t1 := inout[p0], inout[p0 + 1];
    inout[p0] := inout[p1];
    inout[p0 + 1] := inout[p1 + 1];
    inout[p1] := t;
    inout[p1 + 1] := t1;
  }

  /** Sample k after the twelve swaps, computed by cases. */
  lemma TwelveSwaps(x: seq<Complex>)
    requires |x| == 32
    ensures var y := Swapped(Swapped(Swapped(Swapped(x, 1, 16), 2, 8), 3, 24), 5, 20);
      var z := Swapped(Swapped(Swapped(Swapped(y, 6, 12), 7, 28), 9, 18), 11, 26);
      Swapped(Swapped(Swapped(Swapped(z, 13, 22), 15, 30), 19, 25), 23, 29) == BitReversed(x)
  {
  }

  method BitReverse32(inout: array<Word>)
    requires inout.Length == 64
    modifies inout
    ensures View(inout[..]) == BitReversed(View(old(inout[..])))
  {
    hide View, Swapped, BitReversed;
    ghost var x := View(inout[..]);
    SwapCplx(inout, 2, 32);
    SwapCplx(inout, 4, 16);
    SwapCplx(inout, 6, 48);
    SwapCplx(inout, 10, 40);
    SwapCplx(inout, 12, 24);
    SwapCplx(inout, 14, 56);
    SwapCplx(inout, 18, 36);
    SwapCplx(inout, 22, 52);
    SwapCplx(inout, 26, 44);
    SwapCplx(inout, 30, 60);
    SwapCplx(inout, 38, 50);
    SwapCplx(inout, 46, 58);
    TwelveSwaps(x);
  }

  // ---- the radix-4 pass ----

  function TwidEntry(i: nat): nat
    requires i < 48
  {
    match i / 6
    case 0 => Pick(i % 6, 0x40000000, 0x00000000, 0x40000000, 0x00000000, 0x40000000, 0x00000000)
    case 1 => Pick(i % 6, 0x3b20d79e, 0xe7821d59, 0x3ec52fa0, 0xf383a3e2, 0x3536cc52, 0xdc71898d)
    case 2 => Pick(i % 6, 0x2d413ccd, 0xd2bec333, 0x3b20d79e, 0xe7821d59, 0x187de2a7, 0xc4df2862)
    case 3 => Pick(i % 6, 0x187de2a7, 0xc4df2862, 0x3536cc52, 0xdc71898d, 0xf383a3e2, 0xc13ad060)
    case 4 => Pick(i % 6, 0x00000000, 0xc0000000, 0x2d413ccd, 0xd2bec333, 0xd2bec333, 0xd2bec333)
    case 5 => Pick(i % 6, 0xe7821d5a, 0xc4df2862, 0x238e7673, 0xcac933ae, 0xc13ad060, 0xf383a3e2)
    case 6 => Pick(i % 6, 0xd2bec333, 0xd2bec333, 0x187de2a7, 0xc4df2862, 0xc4df2862, 0x187de2a7)
    case _ => Pick(i % 6, 0xc4df2861, 0xe7821d59, 0x0c7c5c1e, 0xc13ad060, 0xdc71898d, 0x3536cc52)
  }

  /** twidTabOdd32, as signed words. */
  function TwidTabOdd32(i: nat): Word
    requires i < 48
  {
    Signed(TwidEntry(i))
  }

  function Signed(u: nat): Word
  {
    (if u % TWO32 >= 0x8000_0000 then u % TWO32 - TWO32 else u % TWO32) as Word
  }

  /** Twiddle factor n of butterfly j. */
  function Twid(j: nat, n: nat): Complex
    requires j < 8 && n < 3
  {
    Z(TwidTabOdd32(6 * j + 2 * n), TwidTabOdd32(6 * j + 2 * n + 1))
  }

  /** The table's bound on the sum of the magnitudes of a factor's parts. */
  lemma TwidBound(j: nat, n: nat)
    requires j < 8 && n < 3
    ensures Abs(Twid(j, n).re) + Abs(Twid(j, n).im) <= SQRT1_2
  {
    if j < 3 { TwidBoundLow(j, n); } else if j < 6 { TwidBoundMid(j, n); }
  }

  lemma TwidBoundLow(j: nat, n: nat)
    requires j < 3 && n < 3
    ensures Abs(Twid(j, n).re) + Abs(Twid(j, n).im) <= SQRT1_2
  {
  }

  lemma TwidBoundMid(j: nat, n: nat)
    requires 3 <= j < 6 && n < 3
    ensures Abs(Twid(j, n).re) + Abs(Twid(j, n).im) <= SQRT1_2
  {
  }

  lemma ProductBound(a: int, x: int, k: nat)
    requires Abs(x) <= k
    ensures -(Abs(a) * k) <= a * x <= Abs(a) * k
  {
    ScaledUp(Abs(a), Abs(x), Abs(a), k);
    if a >= 0 && x >= 0 { assert a * x == Abs(a) * Abs(x); }
    else if a >= 0 { assert a * x == -(Abs(a) * Abs(x)); }
    else if x >= 0 { assert a * x == -(Abs(a) * Abs(x)); }
    else { assert a * x == Abs(a) * Abs(x); }
  }

  lemma ProductSumBound(a: int, b: int, x: int, y: int, k: nat)
    requires Abs(a) + Abs(b) <= SQRT1_2 && Abs(x) <= k && Abs(y) <= k
    ensures -(SQRT1_2 * k) <= a * x + b * y <= SQRT1_2 * k && -(SQRT1_2 * k) <= a * x - b * y <= SQRT1_2 * k
  {
    ProductBound(a, x, k);
    ProductBound(b, y, k);
    PartsOfSum(Abs(a), Abs(b), k);
  }

  lemma PartsOfSum(a: nat, b: nat, k: nat)
    requires a + b <= SQRT1_2
    ensures a * k + b * k <= SQRT1_2 * k
  {
    assert a * k + b * k == (a + b) * k;
    ScaledUp(a + b, k, SQRT1_2, k);
  }

  function MULSHIFT32_ADD(a: Word, b: Word, c: Word, d: Word): Word
    requires IsInt32((a as int * b as int + c as int * d as int) / TWO32)
  {
    ((a as int * b as int + c as int * d as int) / TWO32) as Word
  }

  function MULSHIFT32_SUB(a: Word, b: Word, c: Word, d: Word): Word
    requires IsInt32((a as int * b as int - c as int * d as int) / TWO32)
  {
    ((a as int * b as int - c as int * d as int) / TWO32) as Word
  }

  lemma HighWordBound(v: int)
    requires -(SQRT1_2 * FIRST) <= v <= SQRT1_2 * FIRST
    ensures -SPUN <= v / TWO32 <= SPUN
  {
  }

  /** A sample times a twiddle factor, as the registers go. */
  method Spin(r2: Word, r3: Word, x: Word, y: Word) returns (re: Word, im: Word)
    requires Abs(r2 as int) + Abs(r3 as int) <= SQRT1_2 && Within(x, FIRST) && Within(y, FIRST)
    ensures Z(re, im) == Twiddled(Z(r2, r3), Z(x, y)) && Within(re, SPUN) && Within(im, SPUN)
  {
    ProductSumBound(r2 as int, r3 as int, y as int, x as int, FIRST);
    ProductSumBound(r2 as int, r3 as int, x as int, y as int, FIRST);
    HighWordBound(r2 as int * y as int + r3 as int * x as int);
    HighWordBound(r2 as int * x as int - r3 as int * y as int);
    im := MULSHIFT32_ADD(r2, y, r3, x);
    re := MULSHIFT32_SUB(r2, x, r3, y);
  }

  /** The additions of a radix-4 butterfly. */
  method Radix4(r2_0: Word, r3_0: Word, r4_0: Word, r5_0: Word, r6_0: Word, r7_0: Word, r8_0: Word, r9_0: Word)
    returns (y0: Word, y1: Word, y16: Word, y17: Word, y32: Word, y33: Word, y48: Word, y49: Word)
    requires Within(r2_0, FIRST) && Within(r3_0, FIRST) && Within(r4_0, SPUN) && Within(r5_0, SPUN)
    requires Within(r6_0, SPUN) && Within(r7_0, SPUN) && Within(r8_0, SPUN) && Within(r9_0, SPUN)
    ensures Four(Z(y0, y1), Z(y16, y17), Z(y32, y33), Z(y48, y49))
         == Dft4(Quartered(Z(r2_0, r3_0)), Z(r4_0, r5_0), Z(r6_0, r7_0), Z(r8_0, r9_0))
    ensures Within(y0, SECOND) && Within(y1, SECOND) && Within(y16, SECOND) && Within(y17, SECOND)
    ensures Within(y32, SECOND) && Within(y33, SECOND) && Within(y48, SECOND) && Within(y49, SECOND)
  {
    var r2, r3, r4, r5, r8, r9 := r2_0, r3_0, r4_0, r5_0, r8_0, r9_0;
    var r12 := r6_0 + r8;
    r8 := r6_0 - r8;
    var r14 := r9 - r7_0;
    r9 := r9 + r7_0;
    var r6 := r2 / 4 - r4;
    var r7 := r3 / 4 - r5;
    r4 := r4 + r2 / 4;
    r5 := r5 + r3 / 4;
    y0, y1 := r4 + r12, r5 + r9;
    y16, y17 := r6 - r14, r7 - r8;
    y32, y33 := r4 - r12, r5 - r9;
    y48, y49 := r6 + r14, r7 + r8;
  }

  // ---- the whole second pass ----

  function Butterfly(x: seq<Complex>, j: nat): Four
    requires |x| == 32 && j < 8
  {
    Dft4(Quartered(x[j]), Twiddled(Twid(j, 0), x[8 + j]), Twiddled(Twid(j, 1), x[16 + j]), Twiddled(Twid(j, 2), x[24 + j]))
  }

  function Part(y: Four, g: nat): Complex
    requires g < 4
  {
    if g == 0 then y.k0 else if g == 1 then y.k1 else if g == 2 then y.k2 else y.k3
  }

  function SecondPass(x: seq<Complex>): (y: seq<Complex>)
    requires |x| == 32
    ensures |y| == 32
  {
    seq(32, k requires 0 <= k < 32 => Part(Butterfly(x, k % 8), k / 8))
  }

  ghost predicate Bounded(z: Complex, k: int) { -k <= z.re <= k && -k <= z.im <= k }

  lemma SmallView(a: seq<Word>, k: int)
    requires |a| == 64
    ensures Small(a, k) <==> forall i :: 0 <= i < 32 ==> Bounded(View(a)[i], k)
  {
    if forall i :: 0 <= i < 32 ==> Bounded(View(a)[i], k) {
      forall i: nat | i < 64 ensures Within(a[i], k) { assert Bounded(View(a)[i / 2], k); }
    }
  }

  /** Butterfly j in place. */
  method ButterflyAt(r0: array<Word>, j: nat)
    requires r0.Length == 64 && j < 8
    requires var v := View(r0[..]); Bounded(v[j], FIRST) && Bounded(v[8 + j], FIRST) && Bounded(v[16 + j], FIRST) && Bounded(v[24 + j], FIRST)
    modifies r0
    ensures var v, y := View(old(r0[..])), Butterfly(View(old(r0[..])), j);
      && View(r0[..]) == v[j := y.k0][8 + j := y.k1][16 + j := y.k2][24 + j := y.k3]
      && Bounded(y.k0, SECOND) && Bounded(y.k1, SECOND) && Bounded(y.k2, SECOND) && Bounded(y.k3, SECOND)
  {
    hide Dft4, Twiddled, TwidTabOdd32;
    var p, r1 := 2 * j, 6 * j;
    ghost var v := View(r0[..]);
    TwidBound(j, 0);
    TwidBound(j, 1);
    TwidBound(j, 2);
    var r4, r5 := Spin(TwidTabOdd32(r1), TwidTabOdd32(r1 + 1), r0[p + 16], r0[p + 17]);
    var r6, r7 := Spin(TwidTabOdd32(r1 + 2), TwidTabOdd32(r1 + 3), r0[p + 32], r0[p + 33]);
    var r8, r9 := Spin(TwidTabOdd32(r1 + 4), TwidTabOdd32(r1 + 5), r0[p + 48], r0[p + 49]);
    var y0, y1, y16, y17, y32, y33, y48, y49 := Radix4(r0[p], r0[p + 1], r4, r5, r6, r7, r8, r9);
    StoreCplx(r0, p, y0, y1);
    StoreCplx(r0, p + 16, y16, y17);
    StoreCplx(r0, p + 32, y32, y33);
    StoreCplx(r0, p + 48, y48, y49);
  }

  method StoreCplx(r0: array<Word>, p: nat, re: Word, im: Word)
    requires r0.Length == 64 && p % 2 == 0 && p < 64
    modifies r0
    ensures View(r0[..]) == View(old(r0[..]))[p / 2 := Z(re, im)]
  {
    r0[p] := re;
    r0[p + 1] := im;
  }

  lemma ButterflySame(x: seq<Complex>, y: seq<Complex>, j: nat)
    requires |x| == |y| == 32 && j < 8
    requires x[j] == y[j] && x[8 + j] == y[8 + j] && x[16 + j] == y[16 + j] && x[24 + j] == y[24 + j]
    ensures Butterfly(x, j) == Butterfly(y, j)
  {
    hide Dft4, Twiddled, Twid, Quartered;
  }

  lemma SecondPassAt(x: seq<Complex>, g: nat, j: nat)
    requires |x| == 32 && g < 4 && j < 8
    ensures SecondPass(x)[8 * g + j] == Part(Butterfly(x, j), g)
  {
    hide Butterfly, Part;
    assert (8 * g + j) % 8 == j && (8 * g + j) / 8 == g;
  }

  ghost predicate CoreAt(x: seq<Complex>, now: seq<Complex>, j: nat, k: nat)
    requires |x| == |now| == 32 && k < 32
  {
    && now[k] == (if k % 8 < j then SecondPass(x)[k] else x[k])
    && (k % 8 < j ==> Bounded(now[k], SECOND))
  }

  /** j butterflies are done. */
  ghost predicate CoreDone(x: seq<Complex>, now: seq<Complex>, j: nat)
  {
    |x| == |now| == 32 && j <= 8 && forall k :: 0 <= k < 32 ==> CoreAt(x, now, j, k)
  }

  lemma CoreStep(x: seq<Complex>, mid: seq<Complex>, now: seq<Complex>, j: nat)
    requires j < 8 && CoreDone(x, mid, j)
    requires var y := Butterfly(mid, j); now == mid[j := y.k0][8 + j := y.k1][16 + j := y.k2][24 + j := y.k3]
    requires var y := Butterfly(mid, j); Bounded(y.k0, SECOND) && Bounded(y.k1, SECOND) && Bounded(y.k2, SECOND) && Bounded(y.k3, SECOND)
    ensures CoreDone(x, now, j + 1)
  {
    hide Butterfly, Bounded, SecondPass;
    assert CoreAt(x, mid, j, j) && CoreAt(x, mid, j, 8 + j) && CoreAt(x, mid, j, 16 + j) && CoreAt(x, mid, j, 24 + j);
    ButterflySame(x, mid, j);
    SecondPassAt(x, 0, j);
    SecondPassAt(x, 1, j);
    SecondPassAt(x, 2, j);
    SecondPassAt(x, 3, j);
    var done := j + 1;
    forall k: nat | k < 32 ensures CoreAt(x, now, done, k) {
      assert CoreAt(x, mid, j, k);
      if k % 8 == j { assert k == j || k == 8 + j || k == 16 + j || k == 24 + j; }
    }
  }

  lemma CoreStart(x: seq<Complex>)
    requires |x| == 32
    ensures CoreDone(x, x, 0)
  {
  }

  lemma CoreEnd(x: seq<Complex>, now: seq<Complex>)
    requires CoreDone(x, now, 8)
    ensures now == SecondPass(x) && forall k :: 0 <= k < 32 ==> Bounded(now[k], SECOND)
  {
    hide SecondPass, Bounded;
    forall k: nat | k < 32 ensures now[k] == SecondPass(x)[k] && Bounded(now[k], SECOND) { assert CoreAt(x, now, 8, k); }
  }

  /** The four samples of a butterfly still to be done are as they came. */
  lemma CoreBounds(x: seq<Complex>, now: seq<Complex>, j: nat)
    requires j < 8 && CoreDone(x, now, j) && forall k :: 0 <= k < 32 ==> Bounded(x[k], FIRST)
    ensures Bounded(now[j], FIRST) && Bounded(now[8 + j], FIRST) && Bounded(now[16 + j], FIRST) && Bounded(now[24 + j], FIRST)
  {
    hide SecondPass, Bounded;
    assert CoreAt(x, now, j, j) && CoreAt(x, now, j, 8 + j) && CoreAt(x, now, j, 16 + j) && CoreAt(x, now, j, 24 + j);
  }

  method R4Core32(x: array<Word>)
    requires x.Length == 64 && Small(x[..], FIRST)
    modifies x
    ensures View(x[..]) == SecondPass(View(old(x[..]))) && Small(x[..], SECOND)
  {
    hide View, Butterfly, SecondPass, Bounded, Small, CoreDone;
    ghost var before := View(x[..]);
    SmallView(x[..], FIRST);
    CoreStart(before);
    var j, r10 := 0, 8;
    while r10 != 0
      invariant 0 <= j <= 8 && r10 == 8 - j && CoreDone(before, View(x[..]), j)
      decreases r10
    {
      ghost var mid := View(x[..]);
      CoreBounds(before, mid, j);
      ButterflyAt(x, j);
      CoreStep(before, mid, View(x[..]), j);
      j, r10 := j + 1, r10 - 1;
    }
    CoreEnd(before, View(x[..]));
    SmallView(x[..], SECOND);
  }

  /** FFT32C. With three guard bits in, no operation of any pass leaves 32 bits, and the outputs are
      below 6.33 times 2^28. */
  method FFT32C(x: array<Word>)
    requires x.Length == 64 && Small(x[..], M)
    modifies x
    ensures View(x[..]) == SecondPass(FirstPass(BitReversed(View(old(x[..])))))
    ensures Small(x[..], SECOND)
  {
    hide View, FirstPass, SecondPass, Bounded, Small;
    SmallView(x[..], M);
    BitReverse32(x);
    SmallView(x[..], M);
    R8FirstPass32(x);
    R4Core32(x);
  }
}
