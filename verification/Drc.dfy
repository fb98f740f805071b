/** codec/aacdecode/drc.c: the 64 by 32 bit division, and the dynamic range control that carries a
    gain ramp from block to block. */
module Division {
  import opened Fixed

  const TWO63 := 0x8000_0000_0000_0000
  const TWO64 := 0x1_0000_0000_0000_0000

  /** What the two loops keep: the quotient so far, and a multiple of the base that is a power of two. */
  ghost predicate Dividing(n: nat, base: nat, res: nat, rem: nat, b: nat, d: nat, k: nat)
  {
    && n == res * base + rem && b == base * d && d == Pow2(k)
    && rem < TWO64 && b < TWO64 && d < TWO64 && res < TWO64
  }

  lemma Doubled(base: nat, d: nat)
    ensures base * (2 * d) == 2 * (base * d)
  {
  }

  lemma MultipleFits(base: nat, d: nat)
    requires base > 0
    ensures d <= base * d
  {
    ScaledUp(1, d, base, d);
  }

  lemma Subtracted(n: nat, base: nat, res: nat, rem: nat, b: nat, d: nat)
    requires n == res * base + rem && b == base * d && b <= rem
    ensures n == (res + d) * base + (rem - b)
  {
    assert (res + d) * base == res * base + base * d;
  }

  lemma QuotientFits(n: nat, base: nat, res: nat, rem: nat)
    requires base > 0 && n == res * base + rem
    ensures res <= n
  {
    ScaledUp(res, 1, res, base);
  }

  /** The first reduction: divide the high word. */
  lemma HighReduced(n: nat, base: nat, high: nat, q: nat)
    requires base > 0 && n < TWO64 && high == n / TWO32 && q == high / base
    ensures q * base <= high && n == TWO32 * q * base + (n - TWO32 * (q * base)) && n - TWO32 * (q * base) >= 0
    ensures TWO32 * q < TWO64
  {
    assert high == q * base + high % base;
    assert TWO32 * q * base == TWO32 * (q * base);
    QuotientFits(high, base, q, high % base);
  }

  /** The first step takes the high word alone. */
  method ReduceHigh(n: nat, base: nat) returns (res: nat, rem: nat)
    requires n < TWO64 && 0 < base < TWO32
    ensures n == res * base + rem && res < TWO64
  {
    rem := n;
    var high: nat := rem / TWO32;
    res := 0;
    if high >= base {
      HighReduced(n, base, high, high / base);
      high := high / base;
      res := high * TWO32;
      rem := rem - (high * base) * TWO32;
    }
  }

  /** The quotient of any 64-bit number by any positive 32-bit one. */
  method Div64_32(n: nat, base: nat) returns (res: nat)
    requires n < TWO64 && 0 < base < TWO32
    ensures res == n / base
  {
    hide Pow2, Dividing;
    var rem: nat, b: nat, d: nat := n, base, 1;
    res, rem := ReduceHigh(n, base);
    ghost var k: nat := 0;
    Started(n, base, res, rem);
    while b < TWO63 && b < rem
      invariant Dividing(n, base, res, rem, b, d, k) && 0 < b < TWO64
      decreases TWO64 - b
    {
      DoubleStep(n, base, res, rem, b, d, k);
      b := b + b;
      d := d + d;
      k := k + 1;
    }
    RemainderFits(n, base, res, rem, b, d, k);
    res := Collect(n, base, res, rem, b, d, k);
  }

  /** The second loop: subtract the multiple where it fits, and halve it. */
  method Collect(ghost n: nat, ghost base: nat, res_0: nat, rem_0: nat, b_0: nat, d_0: nat, ghost k_0: nat) returns (res: nat)
    requires n < TWO64 && base > 0 && Dividing(n, base, res_0, rem_0, b_0, d_0, k_0) && rem_0 < 2 * b_0
    ensures res == n / base
  {
    hide Pow2, Dividing;
    res := res_0;
    var rem: nat, b: nat, d: nat := rem_0, b_0, d_0;
    ghost var k: nat := k_0;
    PowerPositive(n, base, res, rem, b, d, k);
    while d != 0
      invariant d != 0 ==> Dividing(n, base, res, rem, b, d, k) && rem < 2 * b
      invariant d == 0 ==> res == n / base
      decreases d
    {
      if rem >= b {
        TakeStep(n, base, res, rem, b, d, k);
        rem := rem - b;
        res := res + d;
      }
      HalveStep(n, base, res, rem, b, d, k);
      if k > 0 { k := k - 1; }
      b := b / 2;
      d := d / 2;
    }
  }

  lemma Started(n: nat, base: nat, res: nat, rem: nat)
    requires n < TWO64 && base < TWO32 && n == res * base + rem && rem <= n && res < TWO64
    ensures Dividing(n, base, res, rem, base, 1, 0)
  {
  }

  /** Doubling stays within 64 bits. */
  lemma DoubleStep(n: nat, base: nat, res: nat, rem: nat, b: nat, d: nat, k: nat)
    requires Dividing(n, base, res, rem, b, d, k) && b < TWO63 && base > 0
    ensures Dividing(n, base, res, rem, b + b, d + d, k + 1) && b + b < TWO64 && d + d < TWO64
  {
    Doubled(base, d);
    MultipleFits(base, d);
  }

  lemma RemainderFits(n: nat, base: nat, res: nat, rem: nat, b: nat, d: nat, k: nat)
    requires Dividing(n, base, res, rem, b, d, k) && b > 0 && (b >= TWO63 || b >= rem)
    ensures rem < 2 * b
  {
  }

  lemma PowerPositive(n: nat, base: nat, res: nat, rem: nat, b: nat, d: nat, k: nat)
    requires Dividing(n, base, res, rem, b, d, k)
    ensures d > 0
  {
  }

  lemma TakeStep(n: nat, base: nat, res: nat, rem: nat, b: nat, d: nat, k: nat)
    requires Dividing(n, base, res, rem, b, d, k) && base > 0 && b <= rem < 2 * b && n < TWO64
    ensures Dividing(n, base, res + d, rem - b, b, d, k)
  {
    Subtracted(n, base, res, rem, b, d);
    QuotientFits(n, base, res + d, rem - b);
  }

  /** Halving the multiple, or having the quotient. */
  lemma HalveStep(n: nat, base: nat, res: nat, rem: nat, b: nat, d: nat, k: nat)
    requires Dividing(n, base, res, rem, b, d, k) && base > 0 && rem < b
    ensures k == 0 ==> d == 1 && res == n / base
    ensures k > 0 ==> d / 2 > 0 && Dividing(n, base, res, rem, b / 2, d / 2, k - 1) && rem < 2 * (b / 2)
  {
    if k == 0 {
      QuotientIs(n, base, res, rem);
    } else {
      Doubled(base, d / 2);
      assert d == 2 * (d / 2);
    }
  }
}

/** The gain of each block is limited by its peak and by how fast it may rise; between the peaks of
    two blocks it runs along a straight ramp, carried over the block boundary. */
module Drc {
  import opened Fixed
  import Division

  const GLOBAL_GAIN := 0x1000_0000    // 1 << DRC_SHIFT
  const PEAK := 32767

  /** Statistics of one channel: gains and peaks of the block being put out and the block after it,
      and the ramp carried into the first of them. */
  datatype Gains = Gains(prvMinGain: int, curMinGain: int, prvMinGainIdx: nat, curMinGainIdx: nat, n0gain: int, n0delta: int)

  /** A sample times a gain. */
  function Scaled(val: int, gain: int): int { (val * gain) / GLOBAL_GAIN }

  /** The gain j samples along a ramp. */
  function RampAt(start: int, delta: int, j: nat): int { start + delta * j }

  /** C's division, truncating toward zero. */
  function TruncDiv(a: int, b: int): int
    requires b > 0
  {
    if a < 0 then -((-a) / b) else a / b
  }

  /** The largest gain that keeps the peak in 16 bits, at most the global gain. */
  function Limit(maxval: nat): int
  {
    if maxval >= PEAK then PEAK * GLOBAL_GAIN / maxval else GLOBAL_GAIN
  }

  function Min(a: int, b: int): int { if a <= b then a else b }

  // ---- ramps ----

  predicate Between(a: int, x: int, b: int) { (a <= x <= b) || (b <= x <= a) }

  /** The ramp from start, over idx samples, stays between two gains. */
  ghost predicate RampWithin(a: int, start: int, delta: int, idx: nat, b: int)
  {
    forall j: nat :: j <= idx ==> Between(a, RampAt(start, delta, j), b)
  }

  lemma RampStep(start: int, delta: int, j: nat)
    ensures RampAt(start, delta, 0) == start && RampAt(start, delta, j + 1) == RampAt(start, delta, j) + delta
  {
    assert delta * (j + 1) == delta * j + delta;
  }

  lemma RampCarried(start: int, delta: int, n: nat, j: nat)
    ensures RampAt(RampAt(start, delta, n), delta, j) == RampAt(start, delta, n + j)
  {
    assert delta * (n + j) == delta * n + delta * j;
  }

  /** A quotient times less than its divisor stays below the dividend. */
  lemma PartWay(diff: nat, span: nat, j: nat)
    requires 0 < span && j <= span
    ensures 0 <= (diff / span) * j <= diff
  {
    var q := diff / span;
    ScaledUp(q, j, q, span);
    assert diff == q * span + diff % span;
  }

  /** A truncated slope never overshoots the gain it heads for. */
  lemma NeverOvershoots(a: int, b: int, span: nat, j: nat)
    requires 0 < span && j <= span
    ensures Between(a, RampAt(a, TruncDiv(b - a, span), j), b)
  {
    if b >= a {
      PartWay(b - a, span, j);
    } else {
      PartWay(a - b, span, j);
      Negated((a - b) / span, j);
    }
  }

  /** It arrives: at the end of its span what is missing is less than a unit for every sample of it. */
  lemma Arrival(a: int, b: int, span: nat)
    requires 0 < span
    ensures Abs(b - RampAt(a, TruncDiv(b - a, span), span)) < span
  {
    var n := Abs(b - a);
    assert n == (n / span) * span + n % span;
    if b < a { Negated(n / span, span); }
  }

  lemma Negated(q: int, j: int)
    ensures (-q) * j == -(q * j)
  {
  }

  // ---- what a gain does ----

  /** A sample put out is the product, rounded down to a unit. */
  lemma ScaledIs(val: int, gain: int)
    ensures Scaled(val, gain) * 0x1000_0000 <= val * gain < Scaled(val, gain) * 0x1000_0000 + 0x1000_0000
    ensures Scaled(val, GLOBAL_GAIN) == val
  {
  }

  /** No larger gain, up to the global one, keeps the peak at 32767. */
  lemma LimitLargest(maxval: nat, gain: nat)
    ensures gain <= Limit(maxval) <==> gain <= 0x1000_0000 && (maxval <= 32767 || maxval * gain <= 32767 * 0x1000_0000)
  {
    if maxval >= PEAK {
      var n := PEAK * GLOBAL_GAIN;
      var q := n / maxval;
      assert n == q * maxval + n % maxval;
      if gain <= q { ScaledUp(maxval, gain, maxval, q); } else { ScaledUp(maxval, q + 1, maxval, gain); Spread(maxval, q); }
    }
  }

  lemma Spread(a: nat, q: nat)
    ensures a * (q + 1) == q * a + a
  {
  }

  // ---- peaks ----

  /** The first of the loudest samples. */
  ghost predicate IsPeak(block: seq<int>, idx: nat)
  {
    && idx < |block| && (forall j :: 0 <= j < |block| ==> Abs(block[j]) <= Abs(block[idx]))
    && forall j :: 0 <= j < idx ==> Abs(block[j]) < Abs(block[idx])
  }

  lemma LimitRange(maxval: nat)
    requires maxval <= INT_MAX
    ensures 0 < Limit(maxval) <= GLOBAL_GAIN
  {
    if maxval >= PEAK {
      var q := PEAK * GLOBAL_GAIN / maxval;
      assert PEAK * GLOBAL_GAIN == q * maxval + PEAK * GLOBAL_GAIN % maxval;
      if q > GLOBAL_GAIN { ScaledUp(GLOBAL_GAIN + 1, PEAK, q, maxval); }
    }
  }

  /** At its own gain or less, the peak leaves in 16 bits. */
  lemma PeakFits(val: int, gain: int)
    requires 0 < gain <= Limit(Abs(val))
    ensures Abs(Scaled(val, gain)) <= PEAK
  {
    var a := Abs(val);
    assert a * gain <= PEAK * GLOBAL_GAIN by {
      if a >= PEAK {
        var q := PEAK * GLOBAL_GAIN / a;
        assert PEAK * GLOBAL_GAIN == q * a + PEAK * GLOBAL_GAIN % a;
        ScaledUp(a, gain, a, q);
      } else {
        ScaledUp(a, gain, PEAK, GLOBAL_GAIN);
      }
    }
    ScaledUp(a, gain, a, gain);
    assert val * gain == a * gain || val * gain == -(a * gain);
  }

  // ---- the gain along a block ----

  function Delta(g: Gains, blksize: nat): int
    requires g.prvMinGainIdx < blksize
  {
    TruncDiv(g.curMinGain - g.prvMinGain, g.curMinGainIdx + blksize - g.prvMinGainIdx)
  }

  /** The gain of sample j of the block put out: the carried ramp up to its peak, the new one from there. */
  function GainAt(g: Gains, blksize: nat, j: nat): int
    requires g.prvMinGainIdx < blksize
  {
    if j < g.prvMinGainIdx then RampAt(g.n0gain, g.n0delta, j)
    else RampAt(g.prvMinGain, Delta(g, blksize), j - g.prvMinGainIdx)
  }

  /** A channel whose control has just been switched on: no ramp leads into its first block. */
  predicate Fresh(g: Gains) { g.prvMinGain == g.n0gain == GLOBAL_GAIN && g.n0delta == 0 }

  /** The carried ramp comes within a unit for every sample between the two peaks of the gain at the
      second. */
  predicate Arrives(g: Gains, blksize: nat)
  {
    Abs(g.curMinGain - RampAt(g.n0gain, g.n0delta, g.curMinGainIdx)) < g.curMinGainIdx + blksize - g.prvMinGainIdx
  }

  /** A channel between calls: block is the last one seen. */
  ghost predicate Settled(g: Gains, block: seq<int>)
  {
    && (Fresh(g) || Arrives(g, |block|))
    && 0 < g.prvMinGain <= GLOBAL_GAIN && 0 < g.curMinGain <= GLOBAL_GAIN
    && IsPeak(block, g.curMinGainIdx) && g.curMinGain <= Limit(Abs(block[g.curMinGainIdx]))
    && RampWithin(g.prvMinGain, g.n0gain, g.n0delta, g.curMinGainIdx, g.curMinGain)
  }

  predicate NoRamp(g: Gains, start: int) { start == g.n0gain == GLOBAL_GAIN && g.n0delta == 0 }

  /** A channel after its statistics have moved on: block is being put out, next has been measured;
      start is the gain at the peak before. */
  ghost predicate Measured(g: Gains, start: int, block: seq<int>, next: seq<int>)
  {
    && |block| == |next| && 0 < start <= GLOBAL_GAIN && 0 < g.prvMinGain <= GLOBAL_GAIN && 0 < g.curMinGain <= GLOBAL_GAIN
    && g.curMinGain <= g.prvMinGain + GLOBAL_GAIN / 4
    && IsPeak(block, g.prvMinGainIdx) && g.prvMinGain <= Limit(Abs(block[g.prvMinGainIdx]))
    && IsPeak(next, g.curMinGainIdx) && g.curMinGain <= Limit(Abs(next[g.curMinGainIdx]))
    && (NoRamp(g, start)
        || Abs(g.prvMinGain - RampAt(g.n0gain, g.n0delta, g.prvMinGainIdx)) < g.prvMinGainIdx + |block|)
    && RampWithin(start, g.n0gain, g.n0delta, g.prvMinGainIdx, g.prvMinGain)
  }

  /** Every gain along the block is positive and at most the global gain, and the peak stays in range. */
  lemma GainsInRange(g: Gains, start: int, block: seq<int>, next: seq<int>, j: nat)
    requires Measured(g, start, block, next) && j < |block|
    ensures 0 < GainAt(g, |block|, j) <= GLOBAL_GAIN
    ensures Abs(Scaled(block[g.prvMinGainIdx], GainAt(g, |block|, g.prvMinGainIdx))) <= PEAK
  {
    hide RampAt, Scaled, Limit, Abs, TruncDiv;
    if j >= g.prvMinGainIdx {
      NeverOvershoots(g.prvMinGain, g.curMinGain, g.curMinGainIdx + |block| - g.prvMinGainIdx, j - g.prvMinGainIdx);
    }
    RampStep(g.prvMinGain, Delta(g, |block|), 0);
    PeakFits(block[g.prvMinGainIdx], g.prvMinGain);
  }

  /** The ramp left behind leads to the next peak without overshooting its gain, and arrives there. */
  lemma CarriedRamp(g: Gains, start: int, block: seq<int>, next: seq<int>)
    requires Measured(g, start, block, next)
    ensures var d, n := Delta(g, |block|), |block| - g.prvMinGainIdx;
      var g' := g.(n0gain := RampAt(g.prvMinGain, d, n), n0delta := d); Settled(g', next) && Arrives(g', |next|)
  {
    hide RampAt, Limit, Abs, TruncDiv;
    var d, n := Delta(g, |block|), |block| - g.prvMinGainIdx;
    RampCarried(g.prvMinGain, d, n, g.curMinGainIdx);
    Arrival(g.prvMinGain, g.curMinGain, g.curMinGainIdx + n);
    forall j: nat | j <= g.curMinGainIdx
      ensures Between(g.prvMinGain, RampAt(RampAt(g.prvMinGain, d, n), d, j), g.curMinGain)
    {
      RampCarried(g.prvMinGain, d, n, j);
      NeverOvershoots(g.prvMinGain, g.curMinGain, g.curMinGainIdx + n, n + j);
    }
  }

  /** The largest step between the gains of samples j and j + 1: the ramp's slope and, into the peak, what
      the carried ramp may be short of. */
  function MostStep(g: Gains, n: nat, j: nat): int
    requires g.prvMinGainIdx < n
  {
    if j < g.prvMinGainIdx then Abs(g.n0delta) + (if j + 1 == g.prvMinGainIdx then g.prvMinGainIdx + n - 1 else 0) else Abs(Delta(g, n))
  }

  /** No gain jumps along a block. */
  ghost predicate Smooth(g: Gains, n: nat)
  {
    g.prvMinGainIdx < n && forall j: nat :: j + 1 < n ==> Abs(GainAt(g, n, j + 1) - GainAt(g, n, j)) <= MostStep(g, n, j)
  }

  /** Along a block that a ramp leads into, the gain makes no step larger than that. */
  lemma NoJump(g: Gains, start: int, block: seq<int>, next: seq<int>)
    requires Measured(g, start, block, next) && !NoRamp(g, start)
    ensures Smooth(g, |block|)
  {
    hide RampAt, Limit, TruncDiv, RampWithin;
    var n, k := |block|, g.prvMinGainIdx;
    forall j: nat | j + 1 < n ensures Abs(GainAt(g, n, j + 1) - GainAt(g, n, j)) <= MostStep(g, n, j) {
      if j < k { RampStep(g.n0gain, g.n0delta, j); } else { RampStep(g.prvMinGain, Delta(g, n), j - k); }
      RampStep(g.prvMinGain, Delta(g, n), 0);
    }
  }

  /** Nor from the last sample of a block to the first of the next; g' is the channel one call later. */
  lemma NoJumpBetween(g: Gains, start: int, block: seq<int>, next: seq<int>, g': Gains, last: seq<int>)
    requires Measured(g, start, block, next)
    requires var d := Delta(g, |block|); g'.n0delta == d && g'.n0gain == RampAt(g.prvMinGain, d, |block| - g.prvMinGainIdx)
    requires Moved(Carried(g, |block|), g', last) && |last| == |block|
    ensures var n := |block|;
      Abs(GainAt(g', n, 0) - GainAt(g, n, n - 1)) <= Abs(Delta(g, n)) + if g'.prvMinGainIdx == 0 then n - 1 - g.prvMinGainIdx else 0
  {
    hide RampAt, Limit, TruncDiv, RampWithin;
    var n := |block|;
    CarriedRamp(g, start, block, next);
    RampStep(g.prvMinGain, Delta(g, n), n - 1 - g.prvMinGainIdx);
    RampStep(g'.n0gain, g'.n0delta, 0);
    RampStep(g'.prvMinGain, Delta(g', n), 0);
  }

  /** Into the first block after the switch no ramp leads: its gain falls to the peak's in one step, and that
      is no jump if and only if the peak comes first or wants next to nothing. */
  lemma FreshJump(g: Gains, n: nat)
    requires g.prvMinGainIdx < n && g.n0gain == GLOBAL_GAIN && g.n0delta == 0 && g.prvMinGain <= GLOBAL_GAIN
    ensures g.prvMinGainIdx > 0 ==>
      GainAt(g, n, g.prvMinGainIdx - 1) == GLOBAL_GAIN && GainAt(g, n, g.prvMinGainIdx) == g.prvMinGain
    ensures Smooth(g, n) <==> g.prvMinGainIdx == 0 || GLOBAL_GAIN - g.prvMinGain < g.prvMinGainIdx + n
  {
    hide TruncDiv, RampAt;
    var k := g.prvMinGainIdx;
    if k > 0 {
      RampStep(g.n0gain, 0, k - 1);
      RampStep(g.prvMinGain, Delta(g, n), 0);
      LevelRamp(g.n0gain, k - 1);
      assert MostStep(g, n, k - 1) == k + n - 1;
      assert k - 1 + 1 < n;
    }
    if k == 0 || GLOBAL_GAIN - g.prvMinGain < k + n {
      forall j: nat | j + 1 < n ensures Abs(GainAt(g, n, j + 1) - GainAt(g, n, j)) <= MostStep(g, n, j) {
        if j < k { RampStep(g.n0gain, 0, j); LevelRamp(g.n0gain, j); } else { RampStep(g.prvMinGain, Delta(g, n), j - k); }
      }
    }
  }

  lemma LevelRamp(gain: int, j: nat)
    ensures RampAt(gain, 0, j) == gain
  {
  }

  // ---- the samples beside the peak ----

  predicate InShort(x: int) { -0x8000 <= x <= 0x7fff }

  /** Samples up to p at this gain stay below 2^15. */
  predicate Held(p: nat, gain: int) { p * gain < 0x8000 * GLOBAL_GAIN }

  lemma LimitAntitone(a: nat, b: nat)
    requires a <= b
    ensures Limit(b) <= Limit(a)
  {
    if b >= PEAK { QuotientAntitone(PEAK * GLOBAL_GAIN, if a >= PEAK then a else PEAK, b); }
  }

  lemma QuotientAntitone(n: nat, a: nat, b: nat)
    requires 0 < a <= b
    ensures n / b <= n / a
  {
    var q, r := n / b, n / a;
    assert n == q * b + n % b && n == r * a + n % a;
    ScaledUp(q, a, q, b);
    assert (r + 1) * a == r * a + a > n;
    if q > r { ScaledUp(r + 1, a, q, a); }
  }

  /** A block with no lower a gain than the blocks around it is held whole: the ramps on both sides of
      its peak stay at or below the peak's gain. */
  lemma HeldWhole(g: Gains, start: int, block: seq<int>, next: seq<int>, j: nat)
    requires Measured(g, start, block, next) && start <= g.prvMinGain && g.curMinGain <= g.prvMinGain && j < |block|
    ensures Abs(Scaled(block[j], GainAt(g, |block|, j))) <= PEAK
  {
    hide RampAt, Scaled, Limit, Abs, TruncDiv;
    GainsInRange(g, start, block, next, j);
    if j >= g.prvMinGainIdx {
      NeverOvershoots(g.prvMinGain, g.curMinGain, g.curMinGainIdx + |block| - g.prvMinGainIdx, j - g.prvMinGainIdx);
    }
    assert GainAt(g, |block|, j) <= g.prvMinGain;
    LimitAntitone(Abs(block[j]), Abs(block[g.prvMinGainIdx]));
    PeakFits(block[j], GainAt(g, |block|, j));
  }

  /** All samples up to p fit 16 bits at a gain if and only if p does below 2^15. */
  lemma HeldIff(p: nat, gain: int)
    requires 0 < gain
    ensures (forall v :: Abs(v) <= p ==> InShort(Scaled(v, gain))) <==> Held(p, gain)
  {
    if Held(p, gain) {
      forall v | Abs(v) <= p ensures InShort(Scaled(v, gain)) {
        ScaledUp(Abs(v), gain, p, gain);
        Negated(Abs(v), gain);
        assert v * gain == Abs(v) * gain || v * gain == -(Abs(v) * gain);
      }
    } else {
      assert Abs(p) <= p && !InShort(Scaled(p, gain));
    }
  }

  /** Every sample of the block, put out along the ramps, is in 16 bits. */
  ghost predicate AllShort(g: Gains, b: seq<int>)
    requires g.prvMinGainIdx < |b|
  {
    forall j :: 0 <= j < |b| ==> InShort(Scaled(b[j], GainAt(g, |b|, j)))
  }

  /** A block whose first loudest sample is the k-th, of size p. */
  ghost predicate PeaksAt(b: seq<int>, k: nat, p: nat)
  {
    IsPeak(b, k) && Abs(b[k]) == p
  }

  /** The gains at the ends of the two ramps are the largest along them. */
  lemma LargestAtEnds(start: int, delta: int, a: nat, j: nat, b: nat)
    requires a <= j <= b
    ensures RampAt(start, delta, j) <= RampAt(start, delta, a) || RampAt(start, delta, j) <= RampAt(start, delta, b)
  {
    if delta >= 0 { ScaledUp(j, delta, b, delta); } else {
      ScaledUp(a, -delta, j, -delta);
      Negated(-delta, a);
      Negated(-delta, j);
    }
  }

  /** The largest sample a block with peak p can have at j: before the peak all are smaller. */
  function Largest(k: nat, p: nat, j: nat): int { if j < k then p - 1 else p }

  /** Whether the largest possible samples fit at the ends of the ramps: at the last sample, and, if the
      peak is not the first, at the first sample and the one right before the peak. */
  predicate EndsHeld(g: Gains, n: nat, p: nat)
    requires g.prvMinGainIdx < n
  {
    var k := g.prvMinGainIdx;
    Held(p, GainAt(g, n, n - 1)) && (k > 0 ==> p > 0 && Held(p - 1, GainAt(g, n, 0)) && Held(p - 1, GainAt(g, n, k - 1)))
  }

  lemma HeldBelow(p: nat, small: int, large: int)
    requires Held(p, large) && 0 < small <= large
    ensures Held(p, small)
  {
    ScaledUp(p, small, p, large);
  }

  lemma EndsHoldAll(g: Gains, start: int, block: seq<int>, next: seq<int>, j: nat)
    requires Measured(g, start, block, next) && EndsHeld(g, |block|, Abs(block[g.prvMinGainIdx])) && j < |block|
    ensures var most := Largest(g.prvMinGainIdx, Abs(block[g.prvMinGainIdx]), j); most >= 0 && Held(most, GainAt(g, |block|, j))
  {
    hide RampAt, Scaled, Limit, Abs, TruncDiv, Held;
    var n, k, p := |block|, g.prvMinGainIdx, Abs(block[g.prvMinGainIdx]);
    GainsInRange(g, start, block, next, j);
    PeakHeld(p, g.prvMinGain);
    RampStep(g.prvMinGain, Delta(g, n), 0);
    if j < k {
      LargestAtEnds(g.n0gain, g.n0delta, 0, j, k - 1);
      if GainAt(g, n, j) <= GainAt(g, n, 0) { HeldBelow(p - 1, GainAt(g, n, j), GainAt(g, n, 0)); }
      else { HeldBelow(p - 1, GainAt(g, n, j), GainAt(g, n, k - 1)); }
    } else {
      LargestAtEnds(g.prvMinGain, Delta(g, n), 0, j - k, n - 1 - k);
      if GainAt(g, n, j) <= g.prvMinGain { HeldBelow(p, GainAt(g, n, j), g.prvMinGain); }
      else { HeldBelow(p, GainAt(g, n, j), GainAt(g, n, n - 1)); }
    }
  }

  lemma PeakHeld(p: nat, gain: int)
    requires 0 < gain <= Limit(p)
    ensures Held(p, gain)
  {
    if p >= PEAK {
      var q := PEAK * GLOBAL_GAIN / p;
      assert PEAK * GLOBAL_GAIN == q * p + PEAK * GLOBAL_GAIN % p;
      ScaledUp(p, gain, p, q);
    } else {
      ScaledUp(p, gain, PEAK, GLOBAL_GAIN);
    }
  }

  lemma PeakBefore(g: Gains, start: int, block: seq<int>, next: seq<int>)
    requires Measured(g, start, block, next)
    ensures var k := g.prvMinGainIdx; k < |block| && IsPeak(block, k) && (k > 0 ==> Abs(block[k]) > 0)
    ensures Held(Abs(block[g.prvMinGainIdx]), GainAt(g, |block|, g.prvMinGainIdx))
  {
    hide RampAt, Scaled, Limit, TruncDiv, Held;
    var k := g.prvMinGainIdx;
    if k > 0 { assert Abs(block[0]) < Abs(block[k]); }
    RampStep(g.prvMinGain, Delta(g, |block|), 0);
    PeakHeld(Abs(block[k]), g.prvMinGain);
  }

  /** A block that is silent but for its peak and one other sample. */
  function TwoSamples(n: nat, k: nat, p: nat, j: nat, v: int): seq<int>
  {
    seq(n, i => if i == k then p else if i == j then v else 0)
  }

  lemma TwoSamplesPeak(n: nat, k: nat, p: nat, j: nat, v: int)
    requires k < n && j < n && j != k && Abs(v) <= Largest(k, p, j) && p > 0
    ensures PeaksAt(TwoSamples(n, k, p, j, v), k, p)
  {
  }

  /** The exact condition: every block with its first loudest sample at this place and of this size
      leaves in 16 bits along these gains if and only if a sample of that size would at the end of the
      block and, where there are samples before the peak, one smaller would at both ends of theirs. */
  lemma BesideThePeak(g: Gains, start: int, block: seq<int>, next: seq<int>)
    requires Measured(g, start, block, next)
    ensures var k := g.prvMinGainIdx; var p := Abs(block[k]);
      (forall b: seq<int> | |b| == |block| && PeaksAt(b, k, p) :: AllShort(g, b)) <==> EndsHeld(g, |block|, p)
  {
    hide RampAt, Scaled, Limit, TruncDiv, Held, GainAt, InShort, Measured, Abs;
    PeakBefore(g, start, block, next);
    var n, k, p := |block|, g.prvMinGainIdx, Abs(block[g.prvMinGainIdx]);
    if EndsHeld(g, n, p) {
      forall b: seq<int> | |b| == n && PeaksAt(b, k, p) ensures AllShort(g, b) {
        forall j: nat | j < n ensures InShort(Scaled(b[j], GainAt(g, n, j))) {
          EndsHoldAll(g, start, block, next, j);
          GainsInRange(g, start, block, next, j);
          HeldIff(Largest(k, p, j), GainAt(g, n, j));
        }
      }
    } else {
      var j: nat := if !Held(p, GainAt(g, n, n - 1)) then n - 1 else if !Held(p - 1, GainAt(g, n, 0)) then 0 else k - 1;
      GainsInRange(g, start, block, next, j);
      HeldIff(Largest(k, p, j), GainAt(g, n, j));
      var v :| Abs(v) <= Largest(k, p, j) && !InShort(Scaled(v, GainAt(g, n, j)));
      NotSilent(p, j, k, GainAt(g, n, j));
      TwoSamplesPeak(n, k, p, j, v);
      var b := TwoSamples(n, k, p, j, v);
      assert b[j] == v && !AllShort(g, b);
    }
  }

  lemma NotSilent(p: nat, j: nat, k: nat, gain: int)
    requires !Held(p, gain) || (j < k && p > 0)
    ensures p > 0
  {
  }

  /** A channel's statistics after a call, with the ramp that led into the block put out. */
  function WithRamp(g: Gains, before: Gains): Gains
  {
    g.(n0gain := before.n0gain, n0delta := before.n0delta)
  }

  class DrcInfo {
    const nch: nat
    const blksize: nat
    const blkcnt: nat
    const buffer: array3<int>    // channel, block, sample: the decoder's ring of blocks
    var chan: seq<Gains>
    var statenow: bool
    var stateprv: bool
    var prvblk: nat
    var curblk: nat

    /** initDRC */
    constructor (buffer: array3<int>)
      requires buffer.Length1 >= 2 && buffer.Length2 >= 1
      ensures Valid() && this.buffer == buffer && nch == buffer.Length0 && !stateprv && curblk == 0
    {
      this.buffer := buffer;
      nch, blkcnt, blksize := buffer.Length0, buffer.Length1, buffer.Length2;
      chan := seq(buffer.Length0, _ => Gains(0, 0, 0, 0, 0, 0));
      statenow, stateprv := true, false;
      curblk, prvblk := 0, buffer.Length1 - 1;
    }

    /** One channel's samples of one block. */
    ghost function Block(i: nat, blk: nat): (s: seq<int>)
      requires i < buffer.Length0 && blk < buffer.Length1
      reads buffer
      ensures |s| == buffer.Length2
    {
      seq(buffer.Length2, j requires 0 <= j < buffer.Length2 reads buffer => buffer[i, blk, j])
    }

    ghost predicate Shaped()
      reads this
    {
      && nch == buffer.Length0 && blkcnt == buffer.Length1 >= 2 && blksize == buffer.Length2 >= 1 && |chan| == nch
      && curblk < blkcnt && prvblk < blkcnt && prvblk != curblk
      && curblk == if prvblk + 1 == blkcnt then 0 else prvblk + 1
    }

    ghost predicate Valid()
      reads this, buffer
    {
      Shaped() && (stateprv ==> forall i :: 0 <= i < nch ==> Settled(chan[i], Block(i, prvblk)))
    }

    /** The loudest sample of a channel's current block, the first of them. */
    method FindPeak(i: nat) returns (maxval: nat, minGainIdx: nat)
      requires Shaped() && i < nch
      ensures IsPeak(Block(i, curblk), minGainIdx) && maxval == Abs(Block(i, curblk)[minGainIdx])
    {
      maxval, minGainIdx := 0, 0;
      var j := 0;
      while j < blksize
        invariant 0 <= j <= blksize && minGainIdx < blksize
        invariant j == 0 ==> maxval == 0 && minGainIdx == 0
        invariant j > 0 ==> maxval == Abs(buffer[i, curblk, minGainIdx]) && minGainIdx < j
        invariant forall k :: 0 <= k < j ==> Abs(buffer[i, curblk, k]) <= maxval
        invariant forall k :: 0 <= k < minGainIdx ==> Abs(buffer[i, curblk, k]) < maxval
      {
        var val := buffer[i, curblk, j];
        if val < 0 { val := -val; }
        if val > maxval { maxval, minGainIdx := val, j; }
        j := j + 1;
      }
    }

    method MeasureChannel(i: nat)
      requires Shaped() && i < nch && forall j :: 0 <= j < blksize ==> Abs(buffer[i, curblk, j]) <= INT_MAX
      modifies this`chan
      ensures Shaped() && Moved(old(chan[i]), chan[i], Block(i, curblk))
      ensures forall k :: 0 <= k < nch && k != i ==> chan[k] == old(chan[k])
    {
      hide Abs;
      var g := chan[i];
      var maxval, minGainIdx := FindPeak(i);
      var minGain: int;
      if (maxval * GLOBAL_GAIN) / GLOBAL_GAIN >= PEAK {
        minGain := Division.Div64_32(PEAK * GLOBAL_GAIN, maxval);
      } else {
        minGain := GLOBAL_GAIN;
      }
      var maxAdjGain := g.curMinGain + GLOBAL_GAIN / 4;
      if minGain > maxAdjGain { minGain := maxAdjGain; }
      chan := chan[i := g.(prvMinGain := g.curMinGain, prvMinGainIdx := g.curMinGainIdx, curMinGain := minGain, curMinGainIdx := minGainIdx)];
    }

    /** computeDrcGain */
    method ComputeDrcGain()
      requires Shaped() && forall i, j :: 0 <= i < nch && 0 <= j < blksize ==> Abs(buffer[i, curblk, j]) <= INT_MAX
      modifies this`chan
      ensures Shaped() && forall i :: 0 <= i < nch ==> Moved(old(chan[i]), chan[i], Block(i, curblk))
    {
      hide Moved, Abs;
      var i := 0;
      while i < nch
        invariant 0 <= i <= nch && Shaped()
        invariant forall k :: 0 <= k < i ==> Moved(old(chan[k]), chan[k], Block(k, curblk))
        invariant forall k :: i <= k < nch ==> chan[k] == old(chan[k])
      {
        MeasureChannel(i);
        i := i + 1;
      }
    }

    /** The carried ramp, up to the peak of the block put out. */
    method LeadRamp(i: nat, outbuf: array2<int>)
      requires Shaped() && i < nch && outbuf.Length0 == nch && outbuf.Length1 >= blksize && chan[i].prvMinGainIdx < blksize
      modifies outbuf
      ensures forall j :: 0 <= j < chan[i].prvMinGainIdx ==> outbuf[i, j] == Scaled(buffer[i, prvblk, j], GainAt(chan[i], blksize, j))
      ensures forall k, j :: 0 <= k < nch && 0 <= j < outbuf.Length1 && k != i ==> outbuf[k, j] == old(outbuf[k, j])
    {
      hide Scaled, RampAt;
      var g := chan[i];
      var dynamicGain, delta, j := g.n0gain, g.n0delta, 0;
      RampStep(g.n0gain, delta, 0);
      while j < g.prvMinGainIdx
        invariant 0 <= j <= g.prvMinGainIdx && dynamicGain == RampAt(g.n0gain, delta, j)
        invariant forall k :: 0 <= k < j ==> outbuf[i, k] == Scaled(buffer[i, prvblk, k], RampAt(g.n0gain, delta, k))
        invariant forall k, j :: 0 <= k < nch && 0 <= j < outbuf.Length1 && k != i ==> outbuf[k, j] == old(outbuf[k, j])
      {
        var val := Scaled(buffer[i, prvblk, j], dynamicGain);
        RampStep(g.n0gain, delta, j);
        dynamicGain := dynamicGain + delta;
        outbuf[i, j] := val;
        j := j + 1;
      }
    }

    /** The ramp from that peak toward the next block's. */
    method MainRamp(i: nat, outbuf: array2<int>)
      requires Shaped() && i < nch && outbuf.Length0 == nch && outbuf.Length1 >= blksize && chan[i].prvMinGainIdx < blksize
      modifies outbuf, this`chan
      ensures Shaped() && chan == old(chan)[i := Carried(old(chan[i]), blksize)]
      ensures forall j :: old(chan[i]).prvMinGainIdx <= j < blksize ==>
        outbuf[i, j] == Scaled(buffer[i, prvblk, j], GainAt(old(chan[i]), blksize, j))
      ensures forall k, j :: 0 <= k < nch && 0 <= j < outbuf.Length1 && (k != i || j < old(chan[i]).prvMinGainIdx) ==>
        outbuf[k, j] == old(outbuf[k, j])
    {
      hide Scaled, RampAt, TruncDiv;
      var g := chan[i];
      var dynamicGain := g.prvMinGain;
      var delta := TruncDiv(g.curMinGain - g.prvMinGain, g.curMinGainIdx + blksize - g.prvMinGainIdx);
      var j := g.prvMinGainIdx;
      RampStep(g.prvMinGain, delta, 0);
      while j < blksize
        invariant g.prvMinGainIdx <= j <= blksize && dynamicGain == RampAt(g.prvMinGain, delta, j - g.prvMinGainIdx)
        invariant forall k :: g.prvMinGainIdx <= k < j ==>
          outbuf[i, k] == Scaled(buffer[i, prvblk, k], RampAt(g.prvMinGain, delta, k - g.prvMinGainIdx))
        invariant forall k, j :: 0 <= k < nch && 0 <= j < outbuf.Length1 && (k != i || j < g.prvMinGainIdx) ==>
          outbuf[k, j] == old(outbuf[k, j])
        modifies outbuf
      {
        var val := Scaled(buffer[i, prvblk, j], dynamicGain);
        RampStep(g.prvMinGain, delta, j - g.prvMinGainIdx);
        dynamicGain := dynamicGain + delta;
        outbuf[i, j] := val;
        j := j + 1;
      }
      chan := chan[i := g.(n0gain := dynamicGain, n0delta := delta)];
    }

    /** adjustRange: the two ramps of every channel. */
    method AdjustRange(outbuf: array2<int>)
      requires Shaped() && outbuf.Length0 == nch && outbuf.Length1 >= blksize
      requires forall i :: 0 <= i < nch ==> chan[i].prvMinGainIdx < blksize
      modifies outbuf, this`chan
      ensures Shaped() && forall i :: 0 <= i < nch ==> chan[i] == Carried(old(chan[i]), blksize)
      ensures forall i, j :: 0 <= i < nch && 0 <= j < blksize ==>
        outbuf[i, j] == Scaled(buffer[i, prvblk, j], GainAt(old(chan[i]), blksize, j))
    {
      hide Scaled, GainAt, Carried;
      var i := 0;
      while i < nch
        invariant 0 <= i <= nch
        invariant forall k, j :: 0 <= k < i && 0 <= j < chan[k].prvMinGainIdx ==>
          outbuf[k, j] == Scaled(buffer[k, prvblk, j], GainAt(chan[k], blksize, j))
        modifies outbuf
      {
        LeadRamp(i, outbuf);
        i := i + 1;
      }
      i := 0;
      while i < nch
        invariant 0 <= i <= nch && Shaped()
        invariant forall k :: 0 <= k < i ==> chan[k] == Carried(old(chan[k]), blksize)
        invariant forall k :: i <= k < nch ==> chan[k] == old(chan[k])
        invariant forall k, j :: 0 <= k < nch && 0 <= j < blksize && (k < i || j < old(chan[k]).prvMinGainIdx) ==>
          outbuf[k, j] == Scaled(buffer[k, prvblk, j], GainAt(old(chan[k]), blksize, j))
      {
        MainRamp(i, outbuf);
        i := i + 1;
      }
    }

    /** A channel's gains as the switch from disabled to enabled resets them. */
    static function Reset(): Gains { Gains(GLOBAL_GAIN, GLOBAL_GAIN, 0, 0, GLOBAL_GAIN, 0) }

    /** DRCData. The block before the current one is put out; every gain along it is positive and at
        most the global gain, its peak leaves in 16 bits, and the next block's gain rises by at most
        a quarter of the global gain. The invariant carries the ramp to the next call. */
    method DRCData(enable: bool, outbuf: array2<int>)
      requires Valid() && outbuf.Length0 == nch && outbuf.Length1 >= blksize
      requires forall i, j :: 0 <= i < nch && 0 <= j < blksize ==> Abs(buffer[i, curblk, j]) <= INT_MAX
      modifies this, outbuf
      ensures Valid() && stateprv == enable && prvblk == old(curblk)
      ensures enable ==> forall i :: 0 <= i < nch ==> (
        var g := if old(stateprv) then old(chan[i]) else Reset();
        && chan[i].prvMinGain == g.curMinGain && chan[i].prvMinGainIdx == g.curMinGainIdx
        && chan[i].curMinGain == Min(Limit(Abs(Block(i, prvblk)[chan[i].curMinGainIdx])), g.curMinGain + GLOBAL_GAIN / 4))
      ensures enable && old(stateprv) ==> forall i, j :: 0 <= i < nch && 0 <= j < blksize ==> (
        var gain := GainAt(WithRamp(chan[i], old(chan[i])), blksize, j);
        outbuf[i, j] == Scaled(buffer[i, old(prvblk), j], gain) && 0 < gain <= GLOBAL_GAIN)
      ensures enable && old(stateprv) ==> forall i :: 0 <= i < nch ==>
        Measured(WithRamp(chan[i], old(chan[i])), old(chan[i]).prvMinGain, Block(i, old(prvblk)), Block(i, prvblk))
      ensures enable && old(stateprv) ==> forall i :: 0 <= i < nch ==>
        Arrives(chan[i], blksize) && (Fresh(old(chan[i])) || Smooth(WithRamp(chan[i], old(chan[i])), blksize))
      ensures enable && old(stateprv) ==> forall i, j :: (0 <= i < nch && 0 <= j < blksize
        && old(chan[i]).prvMinGain <= chan[i].prvMinGain && chan[i].curMinGain <= chan[i].prvMinGain) ==> Abs(outbuf[i, j]) <= PEAK
      ensures enable && old(stateprv) ==> forall i :: 0 <= i < nch ==>
        IsPeak(Block(i, old(prvblk)), chan[i].prvMinGainIdx) && Abs(outbuf[i, chan[i].prvMinGainIdx]) <= PEAK
      ensures !(enable && old(stateprv)) ==> forall i, j :: 0 <= i < nch && 0 <= j < outbuf.Length1 ==> outbuf[i, j] == old(outbuf[i, j])
    {
      hide Settled, GainAt, Scaled, Abs, Limit, IsPeak, Arrives, Smooth, Measured;
      statenow := enable;
      if !stateprv && statenow {
        chan := seq(nch, _ => Reset());
      }
      if statenow {
        MeasureAndPutOut(outbuf);
      }
      prvblk := curblk;
      curblk := curblk + 1;
      if curblk == blkcnt { curblk := 0; }
      stateprv := statenow;
    }

    /** The enabled part of a call. */
    method MeasureAndPutOut(outbuf: array2<int>)
      requires Shaped() && outbuf.Length0 == nch && outbuf.Length1 >= blksize
      requires forall i, j :: 0 <= i < nch && 0 <= j < blksize ==> Abs(buffer[i, curblk, j]) <= INT_MAX
      requires forall i :: 0 <= i < nch ==> if stateprv then Settled(chan[i], Block(i, prvblk)) else chan[i] == Reset()
      modifies this`chan, outbuf
      ensures Shaped() && forall i :: 0 <= i < nch ==> Settled(chan[i], Block(i, curblk))
      ensures forall i :: 0 <= i < nch ==> (
        && chan[i].prvMinGain == old(chan[i]).curMinGain && chan[i].prvMinGainIdx == old(chan[i]).curMinGainIdx < blksize
        && chan[i].curMinGainIdx < blksize
        && chan[i].curMinGain == Min(Limit(Abs(Block(i, curblk)[chan[i].curMinGainIdx])), old(chan[i]).curMinGain + GLOBAL_GAIN / 4))
      ensures stateprv ==> forall i, j :: 0 <= i < nch && 0 <= j < blksize ==> (
        var gain := GainAt(WithRamp(chan[i], old(chan[i])), blksize, j);
        outbuf[i, j] == Scaled(buffer[i, prvblk, j], gain) && 0 < gain <= GLOBAL_GAIN)
      ensures stateprv ==> forall i :: 0 <= i < nch ==>
        Measured(WithRamp(chan[i], old(chan[i])), old(chan[i]).prvMinGain, Block(i, prvblk), Block(i, curblk))
      ensures stateprv ==> forall i :: 0 <= i < nch ==>
        Arrives(chan[i], blksize) && (Fresh(old(chan[i])) || Smooth(WithRamp(chan[i], old(chan[i])), blksize))
      ensures stateprv ==> forall i, j :: (0 <= i < nch && 0 <= j < blksize
        && old(chan[i]).prvMinGain <= chan[i].prvMinGain && chan[i].curMinGain <= chan[i].prvMinGain) ==> Abs(outbuf[i, j]) <= PEAK
      ensures stateprv ==> forall i :: 0 <= i < nch ==>
        IsPeak(Block(i, prvblk), chan[i].prvMinGainIdx) && Abs(outbuf[i, chan[i].prvMinGainIdx]) <= PEAK
      ensures !stateprv ==> forall i, j :: 0 <= i < nch && 0 <= j < outbuf.Length1 ==> outbuf[i, j] == old(outbuf[i, j])
    {
      hide Settled, Measured, Moved, GainAt, Carried, Scaled, Abs, Limit, IsPeak, Arrives, Smooth;
      ghost var before := chan;
      ComputeDrcGain();
      ghost var mid := chan;
      MovedAll(before, mid, curblk);
      if stateprv {
        forall i: nat | i < nch ensures Measured(mid[i], before[i].prvMinGain, Block(i, prvblk), Block(i, curblk)) {
          MovedIsMeasured(before[i], mid[i], Block(i, prvblk), Block(i, curblk));
        }
        MeasuredAll(before, mid, prvblk, curblk);
        AdjustRange(outbuf);
        forall i: nat, j: nat | i < nch && j < blksize
            && before[i].prvMinGain <= mid[i].prvMinGain && mid[i].curMinGain <= mid[i].prvMinGain
          ensures Abs(outbuf[i, j]) <= PEAK
        {
          HeldWhole(mid[i], before[i].prvMinGain, Block(i, prvblk), Block(i, curblk), j);
        }
        forall i: nat | i < nch
          ensures Settled(chan[i], Block(i, curblk)) && Arrives(chan[i], blksize)
          ensures Fresh(before[i]) || Smooth(mid[i], blksize)
          ensures chan[i] == mid[i].(n0gain := chan[i].n0gain, n0delta := chan[i].n0delta)
        {
          CarriedRamp(mid[i], before[i].prvMinGain, Block(i, prvblk), Block(i, curblk));
          CarriedIs(mid[i], blksize);
          if !Fresh(before[i]) { NoJump(mid[i], before[i].prvMinGain, Block(i, prvblk), Block(i, curblk)); }
        }
      } else {
        forall i: nat | i < nch ensures Settled(chan[i], Block(i, curblk)) {
          FirstSettled(mid[i], Block(i, curblk));
        }
      }
    }

    /** What the measurements mean, channel by channel. */
    lemma MovedAll(before: seq<Gains>, now: seq<Gains>, blk: nat)
      requires Shaped() && |before| == |now| == nch && blk < blkcnt
      requires forall i :: 0 <= i < nch ==> Moved(before[i], now[i], Block(i, blk))
      requires forall i, j :: 0 <= i < nch && 0 <= j < blksize ==> Abs(buffer[i, blk, j]) <= INT_MAX
      ensures forall i :: 0 <= i < nch ==> (
        && now[i].curMinGainIdx < blksize && Abs(Block(i, blk)[now[i].curMinGainIdx]) <= INT_MAX
        && now[i].prvMinGain == before[i].curMinGain && now[i].prvMinGainIdx == before[i].curMinGainIdx
        && now[i].n0gain == before[i].n0gain && now[i].n0delta == before[i].n0delta
        && now[i].curMinGain == Min(Limit(Abs(Block(i, blk)[now[i].curMinGainIdx])), before[i].curMinGain + GLOBAL_GAIN / 4))
    {
      hide Limit, Abs;
    }

    lemma MeasuredAll(before: seq<Gains>, mid: seq<Gains>, prv: nat, cur: nat)
      requires Shaped() && |before| == |mid| == nch && prv < blkcnt && cur < blkcnt
      requires forall i :: 0 <= i < nch ==> Measured(mid[i], before[i].prvMinGain, Block(i, prv), Block(i, cur))
      ensures forall i :: 0 <= i < nch ==> mid[i].prvMinGainIdx < blksize && IsPeak(Block(i, prv), mid[i].prvMinGainIdx)
      ensures forall i, j :: 0 <= i < nch && 0 <= j < blksize ==> 0 < GainAt(mid[i], blksize, j) <= GLOBAL_GAIN
      ensures forall i :: 0 <= i < nch ==>
        Abs(Scaled(Block(i, prv)[mid[i].prvMinGainIdx], GainAt(mid[i], blksize, mid[i].prvMinGainIdx))) <= PEAK
    {
      hide GainAt, Scaled, Abs, Limit;
      forall i: nat | i < nch ensures mid[i].prvMinGainIdx < blksize { assert Measured(mid[i], before[i].prvMinGain, Block(i, prv), Block(i, cur)); }
      forall i: nat, j: nat | i < nch && j < blksize
        ensures 0 < GainAt(mid[i], blksize, j) <= GLOBAL_GAIN
      {
        GainsInRange(mid[i], before[i].prvMinGain, Block(i, prv), Block(i, cur), j);
      }
      forall i: nat | i < nch
        ensures Abs(Scaled(Block(i, prv)[mid[i].prvMinGainIdx], GainAt(mid[i], blksize, mid[i].prvMinGainIdx))) <= PEAK
      {
        GainsInRange(mid[i], before[i].prvMinGain, Block(i, prv), Block(i, cur), mid[i].prvMinGainIdx);
      }
    }
  }

  ghost predicate IsBlock(info: DrcInfo, data: seq<seq<int>>)
  {
    |data| == info.nch && forall i :: 0 <= i < |data| ==> (
      |data[i]| == info.blksize && forall j :: 0 <= j < |data[i]| ==> Abs(data[i][j]) <= INT_MAX)
  }

  /** The decoder fills the current block; the block before it, still to be put out, stays. */
  method Fill(info: DrcInfo, data: seq<seq<int>>)
    requires info.Valid() && IsBlock(info, data)
    modifies info.buffer
    ensures info.Valid()
    ensures forall i, j :: 0 <= i < info.nch && 0 <= j < info.blksize ==> info.buffer[i, info.curblk, j] == data[i][j]
    ensures forall i, b, j :: 0 <= i < info.nch && 0 <= b < info.blkcnt && b != info.curblk && 0 <= j < info.blksize ==>
      info.buffer[i, b, j] == old(info.buffer[i, b, j])
  {
    hide Settled, Abs;
    var i := 0;
    while i < info.nch
      invariant 0 <= i <= info.nch
      invariant forall k, j :: 0 <= k < i && 0 <= j < info.blksize ==> info.buffer[k, info.curblk, j] == data[k][j]
      invariant forall k, b, j :: 0 <= k < info.nch && 0 <= b < info.blkcnt && b != info.curblk && 0 <= j < info.blksize ==>
        info.buffer[k, b, j] == old(info.buffer[k, b, j])
    {
      var j := 0;
      while j < info.blksize
        invariant 0 <= j <= info.blksize
        invariant forall k, l :: 0 <= k < info.nch && 0 <= l < info.blksize && (k < i || (k == i && l < j)) ==>
          info.buffer[k, info.curblk, l] == data[k][l]
        invariant forall k, b, j :: 0 <= k < info.nch && 0 <= b < info.blkcnt && b != info.curblk && 0 <= j < info.blksize ==>
          info.buffer[k, b, j] == old(info.buffer[k, b, j])
      {
        info.buffer[i, info.curblk, j] := data[i][j];
        j := j + 1;
      }
      i := i + 1;
    }
    SameBlocks(info);
  }

  twostate lemma SameBlocks(info: DrcInfo)
    requires old(info.Shaped()) && unchanged(info)
    requires forall i, b, j :: 0 <= i < info.nch && 0 <= b < info.blkcnt && b != info.curblk && 0 <= j < info.blksize ==>
      info.buffer[i, b, j] == old(info.buffer[i, b, j])
    ensures forall i :: 0 <= i < info.nch ==> info.Block(i, info.prvblk) == old(info.Block(i, info.prvblk))
  {
  }

  /** One block: its gains, and the peaks of the block put out (silence on the first call). */
  method NextBlock(info: DrcInfo, data: seq<seq<int>>, outbuf: array2<int>) returns (gains: seq<int>, peaks: seq<int>)
    requires info.Valid() && IsBlock(info, data) && outbuf.Length0 == info.nch && outbuf.Length1 >= info.blksize
    modifies info, info.buffer, outbuf
    ensures info.Valid() && info.stateprv && |gains| == |peaks| == info.nch
    ensures forall i :: 0 <= i < info.nch ==> gains[i] == info.chan[i].curMinGain && 0 < gains[i] <= GLOBAL_GAIN && Abs(peaks[i]) <= PEAK
    ensures old(info.stateprv) ==> forall i :: 0 <= i < info.nch ==> gains[i] <= old(info.chan)[i].curMinGain + GLOBAL_GAIN / 4
  {
    hide GainAt, Scaled, Limit, IsPeak, RampWithin;
    var lead := info.stateprv;
    Fill(info, data);
    info.DRCData(true, outbuf);
    gains := seq(info.nch, i requires 0 <= i < |info.chan| reads info => info.chan[i].curMinGain);
    peaks := seq(info.nch, i requires 0 <= i < |info.chan| && 0 <= i < outbuf.Length0 reads info, outbuf =>
      if lead && info.chan[i].prvMinGainIdx < outbuf.Length1 then outbuf[i, info.chan[i].prvMinGainIdx] else 0);
    forall i: nat | i < info.nch ensures 0 < gains[i] <= GLOBAL_GAIN {
      assert Settled(info.chan[i], info.Block(i, info.prvblk));
    }
  }

  /** Any run of blocks with the control enabled: every block's gain is positive and at most the
      global gain, rises by at most a quarter of it from the block before, and brings the block's
      peak into 16 bits when the block is put out, one call later. */
  method Run(info: DrcInfo, blocks: seq<seq<seq<int>>>, outbuf: array2<int>) returns (gains: seq<seq<int>>, peaks: seq<seq<int>>)
    requires info.Valid() && !info.stateprv && outbuf.Length0 == info.nch && outbuf.Length1 >= info.blksize
    requires forall t :: 0 <= t < |blocks| ==> IsBlock(info, blocks[t])
    modifies info, info.buffer, outbuf
    ensures |gains| == |peaks| == |blocks|
    ensures forall t :: 0 <= t < |blocks| ==> |gains[t]| == |peaks[t]| == info.nch
    ensures forall t, i :: 0 <= t < |blocks| && 0 <= i < info.nch ==> 0 < gains[t][i] <= GLOBAL_GAIN && Abs(peaks[t][i]) <= PEAK
    ensures forall s, t, i :: 0 <= s < |blocks| && t == s + 1 < |blocks| && 0 <= i < info.nch ==>
      gains[t][i] <= gains[s][i] + GLOBAL_GAIN / 4
  {
    hide Abs, Settled, IsBlock;
    gains, peaks := [], [];
    var t := 0;
    while t < |blocks|
      invariant 0 <= t <= |blocks| && |gains| == |peaks| == t && info.Valid() && (info.stateprv <==> t > 0)
      invariant forall u :: 0 <= u < t ==> |gains[u]| == |peaks[u]| == info.nch
      invariant forall u, i :: 0 <= u < t && 0 <= i < info.nch ==> 0 < gains[u][i] <= GLOBAL_GAIN && Abs(peaks[u][i]) <= PEAK
      invariant forall s, u, i :: 0 <= s < t && u == s + 1 < t && 0 <= i < info.nch ==> gains[u][i] <= gains[s][i] + GLOBAL_GAIN / 4
      invariant t > 0 ==> forall i :: 0 <= i < info.nch ==> gains[t - 1][i] == info.chan[i].curMinGain
    {
      var gain, peak := NextBlock(info, blocks[t], outbuf);
      gains, peaks := gains + [gain], peaks + [peak];
      t := t + 1;
    }
  }

  // ---- a run that leaves 16 bits ----

  /** A loud pair of samples and silence after it. */
  function LoudPair(n: nat): seq<int>
    requires n >= 2
  {
    seq(n, j => if j == 0 then 65534 else if j == 1 then -65533 else 0)
  }

  /** The gain rises toward the silent block, and takes the second sample out of 16 bits. */
  lemma SecondSample(g: Gains, n: nat)
    requires 2 <= n <= 1024 && g.prvMinGainIdx == 0 && g.curMinGainIdx < n
    requires g.prvMinGain == 0x800_0000 && g.curMinGain == 0xc00_0000
    ensures Scaled(-65533, GainAt(g, n, 1)) < -0x8000
  {
    var span := g.curMinGainIdx + n;
    var d := 0x400_0000 / span;
    assert d >= 0x8000 by {
      assert 0x400_0000 == d * span + 0x400_0000 % span;
      if d < 0x8000 { ScaledUp(d, span, 0x7fff, 2047); }
    }
    assert GainAt(g, n, 1) == 0x800_0000 + d;
  }

  lemma Shape(info: DrcInfo)
    requires info.Valid()
    ensures info.Shaped()
    ensures info.stateprv ==> forall i :: 0 <= i < info.nch ==> info.chan[i].curMinGainIdx < info.blksize
    ensures info.stateprv ==> forall i :: 0 <= i < info.nch ==> IsPeak(info.Block(i, info.prvblk), info.chan[i].curMinGainIdx)
  {
    hide Abs, Limit, RampWithin;
  }

  /** The gains of the two blocks. */
  lemma PairGains(loud: seq<int>, n: nat, k: nat)
    requires n >= 2 && loud == LoudPair(n) && IsPeak(loud, k)
    ensures k == 0 && Min(Limit(Abs(loud[k])), GLOBAL_GAIN + GLOBAL_GAIN / 4) == 0x800_0000
    ensures Min(Limit(0), 0x800_0000 + GLOBAL_GAIN / 4) == 0xc00_0000
  {
    assert Abs(loud[0]) == 65534;
  }

  /** From a fresh start, with frames of up to 1024 samples: after a block with two loud samples and a
      silent one, the second loud sample is put out below -2^15. */
  method PeakNeighbourRun(info: DrcInfo, outbuf: array2<int>)
    requires info.Valid() && !info.stateprv && info.nch == 1 && 2 <= info.blksize <= 1024
    requires outbuf.Length0 == 1 && outbuf.Length1 >= info.blksize
    modifies info, info.buffer, outbuf
    ensures outbuf[0, 1] < -0x8000
  {
    hide DrcInfo.Valid, Scaled, GainAt, Measured, Settled, IsPeak, Limit, Min;
    Shape(info);
    var n := info.blksize;
    var loud, quiet := LoudPair(n), seq(n, _ => 0);
    Fill(info, [loud]);
    Shape(info);
    ghost var blk := info.curblk;
    info.DRCData(true, outbuf);
    Shape(info);
    assert info.Block(0, blk) == loud;
    PairGains(loud, n, info.chan[0].curMinGainIdx);
    Fill(info, [quiet]);
    Shape(info);
    assert info.Block(0, info.curblk) == quiet;
    ghost var cur := info.curblk;
    ghost var before := info.chan[0];
    info.DRCData(true, outbuf);
    Shape(info);
    assert info.Block(0, cur) == quiet && info.buffer[0, blk, 1] == loud[1];
    SecondSample(WithRamp(info.chan[0], before), n);
  }

  /** A channel's statistics move on by a block. */
  ghost predicate Moved(g: Gains, g': Gains, block: seq<int>)
  {
    && g'.prvMinGain == g.curMinGain && g'.prvMinGainIdx == g.curMinGainIdx && g'.n0gain == g.n0gain && g'.n0delta == g.n0delta
    && IsPeak(block, g'.curMinGainIdx)
    && g'.curMinGain == Min(Limit(Abs(block[g'.curMinGainIdx])), g.curMinGain + GLOBAL_GAIN / 4)
  }

  /** The ramp a block leaves to the next. */
  function Carried(g: Gains, blksize: nat): Gains
    requires g.prvMinGainIdx < blksize
  {
    var d := Delta(g, blksize);
    g.(n0gain := RampAt(g.prvMinGain, d, blksize - g.prvMinGainIdx), n0delta := d)
  }

  lemma CarriedIs(g: Gains, blksize: nat)
    requires g.prvMinGainIdx < blksize
    ensures var d := Delta(g, blksize);
      Carried(g, blksize) == g.(n0gain := RampAt(g.prvMinGain, d, blksize - g.prvMinGainIdx), n0delta := d)
  {
  }

  /** The first block after the switch is on. */
  lemma FirstSettled(g: Gains, block: seq<int>)
    requires Moved(DrcInfo.Reset(), g, block) && Abs(block[g.curMinGainIdx]) <= INT_MAX
    ensures Settled(g, block)
  {
    LimitRange(Abs(block[g.curMinGainIdx]));
  }

  lemma MovedIsMeasured(g: Gains, g': Gains, block: seq<int>, next: seq<int>)
    requires Settled(g, block) && |block| == |next|
    requires Moved(g, g', next) && Abs(next[g'.curMinGainIdx]) <= INT_MAX
    ensures Measured(g', g.prvMinGain, block, next)
  {
    hide Limit, RampAt;
    LimitRange(Abs(next[g'.curMinGainIdx]));
  }
}
