/** Fixed-point primitives of codec/aacdecode/assembly.h, over unbounded integers.
    Dafny's `/` rounds toward minus infinity for a positive divisor, which is the
    arithmetic right shift of the original. */
module Fixed {

  const INT_MIN := -0x8000_0000
  const INT_MAX := 0x7fff_ffff
  const TWO32 := 0x1_0000_0000

  predicate IsInt32(x: int) { INT_MIN <= x <= INT_MAX }

  predicate IsUint32(x: int) { 0 <= x < TWO32 }

  function Abs(x: int): nat { if x < 0 then -x else x }

  // ---- tables ----

  /** Entry i of a table row. */
  function Pick(i: nat, a0: int := 0, a1: int := 0, a2: int := 0, a3: int := 0, a4: int := 0, a5: int := 0,
                a6: int := 0, a7: int := 0, a8: int := 0, a9: int := 0, a10: int := 0, a11: int := 0,
                a12: int := 0, a13: int := 0, a14: int := 0, a15: int := 0, a16: int := 0): int
  {
    match i
    case 0 => a0 case 1 => a1 case 2 => a2 case 3 => a3 case 4 => a4 case 5 => a5 case 6 => a6 case 7 => a7
    case 8 => a8 case 9 => a9 case 10 => a10 case 11 => a11 case 12 => a12 case 13 => a13 case 14 => a14
    case 15 => a15 case _ => a16
  }

  // ---- shifts, as repeated doubling and halving ----

  /** v * 2^n */
  function Up(v: nat, n: nat): nat
  {
    if n == 0 then v else 2 * Up(v, n - 1)
  }

  /** floor(v / 2^n) */
  function Down(v: nat, n: nat): nat
  {
    if n == 0 then v else Down(v / 2, n - 1)
  }

  /** 2^n */
  function Pow2(n: nat): (r: nat)
    ensures r > 0
  {
    if n == 0 then 1 else 2 * Pow2(n - 1)
  }

  /** 2^exponent, as what it multiplies by and what it divides by. */
  function Gain(exponent: int): nat { if exponent >= 0 then Pow2(exponent) else 1 }
  function Loss(exponent: int): nat { if exponent >= 0 then 1 else Pow2(-exponent) }

  // The shifts of a C `unsigned int`. C leaves a shift by 32 or more undefined; the requires
  // clauses record that the decoder only reaches one with a zero operand, which every
  // reading of the shift maps to zero.

  function Shr32(x: nat, n: int): nat
    requires IsUint32(x) && (0 <= n < 32 || x == 0)
  {
    if 0 <= n then Down(x, n) else 0
  }

  function Shl32(x: nat, n: nat): (r: nat)
    requires IsUint32(x) && (n < 32 || x == 0)
    ensures IsUint32(r)
  {
    Up(x, n) % TWO32
  }

  /** Bitwise or of two words with no bit in common: the low k bits of `hi` are clear,
      `lo` fits in them. */
  function OrBits(hi: nat, lo: nat, ghost top: nat, ghost k: nat): nat
    requires hi == Up(top, k) && lo < Pow2(k)
  {
    hi + lo
  }

  lemma {:induction false} UpAdd(v: nat, w: nat, n: nat)
    ensures Up(v + w, n) == Up(v, n) + Up(w, n)
  {
    if n > 0 { UpAdd(v, w, n - 1); }
  }

  lemma {:induction false} UpUp(v: nat, a: nat, b: nat)
    ensures Up(Up(v, a), b) == Up(v, a + b)
  {
    if b > 0 { UpUp(v, a, b - 1); }
  }

  lemma {:induction false} DownDown(v: nat, a: nat, b: nat)
    ensures Down(Down(v, a), b) == Down(v, a + b)
  {
    if a > 0 { DownDown(v / 2, a - 1, b); }
  }

  lemma {:induction false} DownHalf(v: nat, n: nat)
    ensures Down(v, n + 1) == Down(v, n) / 2
  {
    if n > 0 { DownHalf(v / 2, n - 1); }
  }

  lemma {:induction false} UpOne(n: nat)
    ensures Up(1, n) == Pow2(n)
  {
    if n > 0 { UpOne(n - 1); }
  }

  lemma {:induction false} UpZero(n: nat)
    ensures Up(0, n) == 0 && Down(0, n) == 0
  {
    if n > 0 { UpZero(n - 1); }
  }

  /** A value below 2^a, moved up n places, leaves room for 2^n below 2^(a+n). */
  lemma {:induction false} UpBound(v: nat, a: nat, n: nat)
    requires v < Pow2(a)
    ensures Up(v, n) + Pow2(n) <= Pow2(a + n)
  {
    if n > 0 { UpBound(v, a, n - 1); }
  }

  /** Reading back the upper field of a word. */
  lemma {:induction false} DownField(hi: nat, lo: nat, n: nat)
    requires lo < Pow2(n)
    ensures Down(Up(hi, n) + lo, n) == hi
  {
    if n > 0 { DownField(hi, lo / 2, n - 1); }
  }

  lemma {:induction false} DownBound(v: nat, a: nat, n: nat)
    requires v < Pow2(a + n)
    ensures Down(v, n) < Pow2(a)
  {
    if n > 0 { DownBound(v / 2, a, n - 1); }
  }

  lemma {:induction false} DownLe(v: nat, n: nat)
    ensures Down(v, n) <= v
  {
    if n > 0 { DownLe(v / 2, n - 1); }
  }

  /** The decoder's `>> (31 - n)`, then `>> 1`: one shift by 32 - n that also works for n == 0. */
  lemma ShrTwice(x: nat, n: nat)
    requires IsUint32(x) && n < 32
    ensures Down(x, 31 - n) <= x
    ensures Shr32(Shr32(x, 31 - n), 1) == Down(x, 32 - n)
  {
    DownLe(x, 31 - n);
    DownDown(x, 31 - n, 1);
  }

  /** A word is its upper field and the rest. */
  lemma {:induction false} UpDown(v: nat, n: nat)
    ensures Up(Down(v, n), n) <= v < Up(Down(v, n), n) + Pow2(n)
  {
    if n > 0 {
      UpDown(v / 2, n - 1);
    }
  }

  lemma {:induction false} UpOrder(v: nat, w: nat, n: nat)
    requires v < w
    ensures Up(v, n) < Up(w, n)
  {
    if n > 0 { UpOrder(v, w, n - 1); }
  }

  lemma {:induction false} UpTimes(v: nat, n: nat)
    ensures Up(v, n) == v * Pow2(n)
  {
    if n > 0 { UpTimes(v, n - 1); }
  }

  lemma {:induction false} Pow2Sum(a: nat, b: nat)
    ensures Pow2(a + b) == Pow2(a) * Pow2(b)
  {
    if b > 0 { Pow2Sum(a, b - 1); }
  }

  lemma {:induction false} UpPow2(a: nat, n: nat)
    ensures Up(Pow2(a), n) == Pow2(a + n)
  {
    if n > 0 { UpPow2(a, n - 1); }
  }

  lemma {:induction false} Pow2Mono(a: nat, b: nat)
    requires a <= b
    ensures Pow2(a) <= Pow2(b)
  {
    if a < b { Pow2Mono(a, b - 1); }
  }

  lemma UpEight(v: nat)
    ensures Up(v, 8) == 0x100 * v && Pow2(8) == 0x100
  {
    assert Up(v, 1) == 2 * v && Up(v, 3) == 4 * Up(v, 1) && Up(v, 5) == 4 * Up(v, 3) && Up(v, 7) == 4 * Up(v, 5);
    assert Pow2(2) == 4 && Pow2(4) == 16 && Pow2(6) == 64;
  }

  lemma UpThirtyTwo(v: nat)
    ensures Up(v, 32) == v * TWO32
  {
    UpEight(v);
    UpEight(v * 0x100);
    UpEight(v * 0x1_0000);
    UpEight(v * 0x100_0000);
    UpUp(v, 8, 8);
    UpUp(v, 16, 8);
    UpUp(v, 24, 8);
  }

  /** Shifting a left-justified word drops its upper field off the top. */
  lemma ShlDropsField(hi: nat, lo: nat, q: nat, n: nat)
    requires n <= 32 && Up(lo, q + n) < TWO32
    ensures Up(Up(hi, 32 - n) + Up(lo, q), n) % TWO32 == Up(lo, q + n)
  {
    UpAdd(Up(hi, 32 - n), Up(lo, q), n);
    UpUp(hi, 32 - n, n);
    UpUp(lo, q, n);
    UpThirtyTwo(hi);
  }

  lemma Pow2Of32()
    ensures Pow2(24) == 0x100_0000 && Pow2(32) == TWO32
  {
    UpEight(1);
    UpEight(0x100);
    UpEight(0x1_0000);
    UpEight(0x100_0000);
    UpUp(1, 8, 8);
    UpUp(1, 16, 8);
    UpUp(1, 24, 8);
    UpOne(24);
    UpOne(32);
  }

  // ---- products ----

  /** floor(x * y / 2^32) */
  function MulShift32(x: int, y: int): int { (x * y) / TWO32 }

  lemma ScaledUp(a: nat, x: nat, top: nat, k: nat)
    requires a <= top && x <= k
    ensures 0 <= a * x <= top * k
  {
    assert a * x <= top * x <= top * k;
  }

  /** Quotient and remainder are unique. */
  lemma QuotientIs(n: nat, base: nat, res: nat, rem: nat)
    requires n == res * base + rem && rem < base
    ensures res == n / base && rem == n % base
  {
    var q, r := n / base, n % base;
    assert n == q * base + r;
    assert (res + 1) * base == res * base + base && (q + 1) * base == q * base + base;
    if res < q { ScaledUp(res + 1, base, q, base); }
    if q < res { ScaledUp(q + 1, base, res, base); }
  }

  /** Between multiples of a step there is room for a step. */
  lemma NextMultiple(size: nat, step: nat, idx: nat)
    requires step >= 1 && size % step == 0 && idx % step == 0 && idx < size
    ensures idx + step <= size && (idx + step) % step == 0
  {
    var p, q := size / step, idx / step;
    MultipleOf(size, step, p);
    MultipleOf(idx, step, q);
    if p <= q { ScaledUp(p, step, q, step); }
    ScaledUp(q + 1, step, if q + 1 <= p then p else q + 1, step);
    OneMore(q, step);
    QuotientIs(idx + step, step, q + 1, 0);
  }

  lemma MultipleOf(n: nat, step: nat, q: nat)
    requires step >= 1 && n % step == 0 && q == n / step
    ensures n == q * step
  {
  }

  lemma OneMore(q: nat, step: nat)
    ensures (q + 1) * step == q * step + step
  {
  }

  /** A word shifted up s places until its top or second bit is set. */
  lemma NormalizedRange(x: nat, s: nat)
    requires s <= 31 && 0x4000_0000 <= Up(x, s) < TWO32
    ensures Up(x, s) >= 0x8000_0000 ==> Pow2(31 - s) <= x < Pow2(32 - s)
    ensures Up(x, s) < 0x8000_0000 ==> s <= 30 && Pow2(30 - s) <= x < Pow2(31 - s)
  {
    Pow2Of32();
    assert Pow2(32) == 2 * Pow2(31) && Pow2(31) == 2 * Pow2(30);
    UpPow2(31 - s, s);
    UpPow2(32 - s, s);
    if x < Pow2(31 - s) { UpOrder(x, Pow2(31 - s), s); }
    if x >= Pow2(32 - s) {
      if x > Pow2(32 - s) { UpOrder(Pow2(32 - s), x, s); }
    }
    if x >= Pow2(31 - s) {
      if x > Pow2(31 - s) { UpOrder(Pow2(31 - s), x, s); }
    }
    if s <= 30 {
      UpPow2(30 - s, s);
      if x < Pow2(30 - s) { UpOrder(x, Pow2(30 - s), s); }
    } else {
      UpOne(31);
      UpZero(31);
    }
  }

  /** One step of the search: if the word is below `limit`, shift it up by s places. */
  method NormalizeStep(u: nat, n: nat, s: nat, mult: nat, limit: nat, ghost low: nat, ghost v: nat)
    returns (u': nat, n': nat)
    requires (s, mult, limit, low) in {(16, 0x1_0000, 0x1_0000, 1), (8, 0x100, 0x100_0000, 0x1_0000),
                                       (4, 0x10, 0x1000_0000, 0x100_0000), (2, 4, 0x4000_0000, 0x1000_0000)}
    requires n >= 1 && u == Up(v, n - 1) && low <= u < TWO32
    ensures n <= n' <= n + s && u' == Up(v, n' - 1) && limit <= u' < TWO32
  {
    hide Up;
    u', n' := u, n;
    if u / limit == 0 {
      UpConst(v, n - 1);
      n' := n + s;
      u' := (u * mult) % TWO32;
    }
  }

  /** CLZ: the number of leading zero bits of the word. */
  method CLZ(x: int) returns (numZeros: nat)
    requires IsInt32(x)
    ensures x == 0 ==> numZeros == 32
    ensures x < 0 ==> numZeros == 0
    ensures x > 0 ==> 1 <= numZeros <= 31 && Pow2(31 - numZeros) <= x < Pow2(32 - numZeros)
  {
    hide Up, Pow2;
    if x == 0 { return 32; }
    var u: nat := if x < 0 then x + TWO32 else x;
    ghost var v: nat := u;
    var n: nat := 1;
    UpNone(v);
    u, n := NormalizeStep(u, n, 16, 0x1_0000, 0x1_0000, 1, v);
    u, n := NormalizeStep(u, n, 8, 0x100, 0x100_0000, 0x1_0000, v);
    u, n := NormalizeStep(u, n, 4, 0x10, 0x1000_0000, 0x100_0000, v);
    u, n := NormalizeStep(u, n, 2, 4, 0x4000_0000, 0x1000_0000, v);
    NormalizedRange(v, n - 1);
    if v >= 0x8000_0000 { TopWord(v, n - 1); UpNone(v); }
    numZeros := n - u / 0x8000_0000;
  }

  /** A word with its sign bit set needs no normalizing. */
  lemma TopWord(v: nat, s: nat)
    requires v >= 0x8000_0000 && Up(v, s) < TWO32
    ensures s == 0
  {
    if s > 0 { UpUp(v, 1, s - 1); assert Up(v, 1) == 2 * v; UpGrows(2 * v, s - 1); }
  }

  lemma {:induction false} UpGrows(v: nat, n: nat)
    ensures Up(v, n) >= v
  {
    if n > 0 { UpGrows(v, n - 1); }
  }

  lemma UpNone(v: nat)
    ensures Up(v, 0) == v
  {
  }

  lemma UpConst(v: nat, s: nat)
    ensures Up(v, s + 2) == 4 * Up(v, s) && Up(v, s + 4) == 0x10 * Up(v, s)
    ensures Up(v, s + 8) == 0x100 * Up(v, s) && Up(v, s + 16) == 0x1_0000 * Up(v, s)
  {
    assert Up(v, s + 1) == 2 * Up(v, s);
    UpUp(v, s, 8);
    UpUp(v, s + 8, 8);
    UpEight(Up(v, s));
    UpEight(Up(v, s + 8));
    assert Up(v, s + 3) == 2 * Up(v, s + 2);
  }
}
