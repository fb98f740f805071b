/** What the windowing of codec/aacdecode/imdct.c is for, after subclause 4.6.11 of ISO/IEC 14496-3: when
    window sequences follow each other as they may, the slope one frame falls on is the one the next
    rises on, and the overlapped halves of folded blocks of a signal give that signal back. */
module Aliasing {
  import opened Fixed
  import opened Windowing
  import opened Imdct
  import ShortBlocks

  type Signal = int -> int

  // ---- the windows of the standard ----

  /** The sequences that may follow one another: 0 only long, 1 long start, 2 eight short, 3 long stop. */
  predicate Follows(a: nat, b: nat)
  {
    match a
    case 0 => b == 0 || b == 1
    case 1 => b == 2 || b == 3
    case 2 => b == 2 || b == 3
    case 3 => b == 0 || b == 1
    case _ => false
  }

  /** The tables by shape: 0 sine, 1 Kaiser-Bessel derived. */
  function ShortTable(wnd: Windows, shape: nat): seq<int> { if shape == 1 then wnd.kbdShort else wnd.sinShort }
  function LongTable(wnd: Windows, shape: nat): seq<int> { if shape == 1 then wnd.kbdLong else wnd.sinLong }

  /** The rising half of a table, in order. */
  function Rising(table: seq<int>): (w: seq<int>)
    requires |table| % 2 == 0
    ensures |w| == |table|
  {
    seq(|table|, n requires 0 <= n < |table| => Natural(table, n))
  }

  /** A short slope in the middle of a long one. */
  function Placed(table: seq<int>): (w: seq<int>)
    requires |table| == 128
    ensures |w| == 1024
  {
    seq(1024, n requires 0 <= n < 1024 => if n < 448 then 0 else if n < 576 then Rising(table)[n - 448] else 0x8000_0000)
  }

  /** The slope the first half of a long window rises on, by the shape of the frame before. */
  function LeftSlope(wnd: Windows, code: nat, prevShape: nat): (w: seq<int>)
    requires wnd.Valid()
    ensures |w| == 1024
  {
    if code == 3 then Placed(ShortTable(wnd, prevShape)) else Rising(LongTable(wnd, prevShape))
  }

  /** The slope whose mirror image the second half falls on. */
  function RightSlope(wnd: Windows, code: nat, shape: nat): (w: seq<int>)
    requires wnd.Valid()
    ensures |w| == 1024
  {
    if code == 1 then Placed(ShortTable(wnd, shape)) else Rising(LongTable(wnd, shape))
  }

  /** The slope between two frames: a short one, placed, beside short blocks. */
  function Meeting(wnd: Windows, a: nat, b: nat, shape: nat): (w: seq<int>)
    requires wnd.Valid()
    ensures |w| == 1024
  {
    if a == 2 || b == 2 then Placed(ShortTable(wnd, shape)) else RightSlope(wnd, a, shape)
  }

  lemma PlacedIs(table: seq<int>)
    requires |table| == 128
    ensures Steep(table).Valid() && forall n :: 0 <= n < 1024 ==> Steep(table).At(n) == Placed(table)[n]
  {
    hide Natural;
    forall n | 0 <= n < 1024 ensures Steep(table).At(n) == Placed(table)[n] {
      if 448 <= n < 576 { assert Rising(table)[n - 448] == Natural(table, n - 448); }
    }
  }

  lemma RisingIs(table: seq<int>)
    requires |table| % 2 == 0
    ensures Plain(table).Valid() && forall n :: 0 <= n < |table| ==> Plain(table).At(n) == Rising(table)[n]
  {
  }

  /** Where neither of two frames that may follow each other is short, the first falls on the mirror image
      of the slope the second rises on, and these are the slopes the decoder chooses. */
  lemma SlopesMeet(wnd: Windows, a: nat, b: nat, shape: nat)
    requires wnd.Valid() && Follows(a, b)
    ensures a != 2 && b != 2 ==> RightSlope(wnd, a, shape) == LeftSlope(wnd, b, shape)
    ensures a != 2 ==> RightSlope(wnd, a, shape) == Meeting(wnd, a, b, shape) && Same(Fall(wnd, a, shape), RightSlope(wnd, a, shape))
    ensures b != 2 ==> LeftSlope(wnd, b, shape) == Meeting(wnd, a, b, shape) && Same(Rise(wnd, b, shape), LeftSlope(wnd, b, shape))
  {
    hide Placed, Rising;
    PlacedIs(ShortTable(wnd, shape));
    RisingIs(LongTable(wnd, shape));
  }

  ghost predicate Same(w: Slope, v: seq<int>)
  {
    w.Valid() && w.Size() == |v| && forall n :: 0 <= n < |v| ==> w.At(n) == v[n]
  }

  // ---- folded blocks ----

  /** v is t 2^-31, rounded to the nearest. */
  predicate Rounded(v: int, t: int) { Abs(0x8000_0000 * v - t) <= 0x4000_0000 }

  /** The upper half of b is the first half of a windowed block of the signal from at on, folded at its
      middle. */
  ghost predicate FoldedHead(w: seq<int>, b: seq<int>, s: Signal, at: int)
  {
    |w| == |b| && |b| % 2 == 0 && forall j: nat :: j < |b| / 2 ==>
      Rounded(b[|b| / 2 + j], w[|b| - 1 - j] * s(at + (|b| - 1 - j)) - w[j] * s(at + j))
  }

  /** The lower half is the second half, which falls on the mirror image of w. */
  ghost predicate FoldedTail(w: seq<int>, b: seq<int>, s: Signal, at: int)
  {
    |w| == |b| && |b| % 2 == 0 && forall j: nat :: j < |b| / 2 ==>
      Rounded(b[|b| / 2 - 1 - j], w[|b| - 1 - j] * s(at + j) + w[j] * s(at + (|b| - 1 - j)))
  }

  /** A frame made from 2048 samples of the signal from at on. */
  ghost predicate Analysed(wnd: Windows, prevShape: nat, fr: Frame, s: Signal, at: int)
    requires wnd.Valid() && fr.Valid()
  {
    if fr.winSequence == 2 then
      forall k: nat {:trigger fr.b[128 * k..128 * k + 128]} :: k < 8 ==>
        && FoldedHead(Rising(ShortTable(wnd, if k == 0 then prevShape else fr.winShape)), fr.b[128 * k..128 * k + 128], s, at + (448 + 128 * k))
        && FoldedTail(Rising(ShortTable(wnd, fr.winShape)), fr.b[128 * k..128 * k + 128], s, at + (576 + 128 * k))
    else
      FoldedHead(LeftSlope(wnd, fr.winSequence, prevShape), fr.b, s, at)
      && FoldedTail(RightSlope(wnd, fr.winSequence, fr.winShape), fr.b, s, at + 1024)
  }

  // ---- one half ----

  const UNIT := 0x8000_0000_0000_0000    // 2^63
  const SLACK := 0xa000_0000_0000_0000   // 2^63 + 2^61

  /** A windowed sample: weight a on sample y, whose mirror image m comes in by a times b. */
  ghost predicate Rises(v: int, a: int, b: int, y: int, m: int) { Abs(UNIT * v - (a * a * y - a * b * m)) <= SLACK }
  ghost predicate Falls(v: int, a: int, b: int, y: int, m: int) { Abs(UNIT * v - (a * a * y + a * b * m)) <= SLACK }

  lemma Product(w: int, b: int, t: int)
    requires Abs(w) <= 0x8000_0000 && Rounded(b, t)
    ensures Abs(UNIT * MulShift32(w, b) - w * t) <= SLACK
  {
    var e := 0x8000_0000 * b - t;
    ScaledUp(Abs(w), Abs(e), 0x8000_0000, 0x4000_0000);
    assert Abs(w * e) == Abs(w) * Abs(e) by { SizeOfProduct(w, e); }
    assert w * (0x8000_0000 * b) == w * t + w * e by { assert 0x8000_0000 * b == t + e; }
    assert w * (0x8000_0000 * b) == 0x8000_0000 * (w * b);
    assert w * b == TWO32 * MulShift32(w, b) + (w * b) % TWO32;
  }

  lemma SizeOfProduct(a: int, b: int)
    ensures Abs(a * b) == Abs(a) * Abs(b)
  {
    if a >= 0 && b >= 0 { } else if a >= 0 { assert a * b == -(a * (-b)); ScaledUp(a, 0, a, -b); }
    else if b >= 0 { assert a * b == -((-a) * b); ScaledUp(-a, 0, -a, b); }
    else { assert a * b == (-a) * (-b); }
  }

  lemma Weighted(a: int, b: int, y: int, m: int)
    ensures a * (a * y - b * m) == a * a * y - a * b * m && a * (b * m - a * y) == -(a * a * y - a * b * m)
    ensures a * (a * y + b * m) == a * a * y + a * b * m && a * (b * m + a * y) == a * a * y + a * b * m
  {
  }

  lemma HeadRises(w: Slope, v: seq<int>, b: seq<int>, s: Signal, at: int, n: nat)
    requires Same(w, v) && FoldedHead(v, b, s, at) && n < |b| && forall i :: 0 <= i < |v| ==> Abs(v[i]) <= 0x8000_0000
    ensures Rises(Head(w, b, n), v[n], v[|b| - 1 - n], s(at + n), s(at + (|b| - 1 - n)))
  {
    hide MulShift32, Rounded;
    var h := |b|;
    var j := if n < h / 2 then n else h - 1 - n;
    var a, c, y, m := v[n], v[h - 1 - n], s(at + n), s(at + (h - 1 - n));
    assert Rounded(b[h / 2 + j], v[h - 1 - j] * s(at + (h - 1 - j)) - v[j] * s(at + j));
    Weighted(a, c, y, m);
    if n < h / 2 {
      Product(a, b[h / 2 + n], c * m - a * y);
    } else {
      assert h / 2 + j == h + h / 2 - 1 - n;
      Product(a, b[h / 2 + j], a * y - c * m);
    }
  }

  lemma TailFalls(w: Slope, v: seq<int>, b: seq<int>, s: Signal, at: int, n: nat)
    requires Same(w, v) && FoldedTail(v, b, s, at) && n < |b| && forall i :: 0 <= i < |v| ==> Abs(v[i]) <= 0x8000_0000
    ensures Falls(Tail(w, b, n), v[|b| - 1 - n], v[n], s(at + n), s(at + (|b| - 1 - n)))
  {
    hide MulShift32, Rounded;
    var h := |b|;
    var j := if n < h / 2 then n else h - 1 - n;
    var a, c, y, m := v[h - 1 - n], v[n], s(at + n), s(at + (h - 1 - n));
    assert Rounded(b[h / 2 - 1 - j], v[h - 1 - j] * s(at + j) + v[j] * s(at + (h - 1 - j)));
    Weighted(a, c, y, m);
    if n < h / 2 {
      Product(a, b[h / 2 - 1 - n], a * y + c * m);
    } else {
      assert h / 2 - 1 - j == n - h / 2;
      Product(a, b[h / 2 - 1 - j], c * m + a * y);
    }
  }

  // ---- both halves ----

  /** The result is the sample, halved, but for the roundings. */
  predicate Restored(v: int, y: int) { Abs(2 * v - y) <= 5 }

  /** The mirror images cancel, and the squared weights add up to one but for off. */
  lemma Cancels(u: int, v: int, a: int, b: int, y: int, m: int, off: nat)
    requires Rises(u, a, b, y, m) && Falls(v, b, a, y, m)
    requires Abs(a * a + b * b - UNIT / 2) <= off && off * Abs(y) < UNIT / 2
    ensures Restored(u + v, y)
  {
    Mirrored(a, b, y, m);
    LeftOver(a * a + b * b - UNIT / 2, y, off);
    Together(u, v, a * a * y, a * b * m, b * b * y, (a * a + b * b - UNIT / 2) * y, y);
  }

  lemma Mirrored(a: int, b: int, y: int, m: int)
    ensures b * a * m == a * b * m && a * a * y + b * b * y == UNIT / 2 * y + (a * a + b * b - UNIT / 2) * y
  {
    var k := a * a + b * b;
    assert a * a * y + b * b * y == k * y && (k - UNIT / 2) * y == k * y - UNIT / 2 * y;
  }

  lemma LeftOver(d: int, y: int, off: nat)
    requires Abs(d) <= off && off * Abs(y) < UNIT / 2
    ensures Abs(d * y) < UNIT / 2
  {
    SizeOfProduct(d, y);
    ScaledUp(Abs(d), Abs(y), off, Abs(y));
  }

  lemma Together(u: int, v: int, p: int, q: int, r: int, d: int, y: int)
    requires Abs(UNIT * u - (p - q)) <= SLACK && Abs(UNIT * v - (r + q)) <= SLACK && p + r == UNIT / 2 * y + d && Abs(d) < UNIT / 2
    ensures Restored(u + v, y)
  {
    Close(u + v, y, UNIT * u - (p - q), UNIT * v - (r + q), d);
  }

  lemma Close(w: int, y: int, e: int, f: int, g: int)
    requires UNIT * w == UNIT / 2 * y + e + f + g && Abs(e) <= SLACK && Abs(f) <= SLACK && Abs(g) < UNIT / 2
    ensures Restored(w, y)
  {
    var k: nat, t := 0x4000_0000_0000_0000, e + f + g;
    assert k * (2 * w - y) == t && -6 * k < t < 6 * k;
    Fewer(k, 2 * w - y, t);
  }

  lemma Fewer(k: nat, d: int, t: int)
    requires k * d == t && -6 * k < t < 6 * k
    ensures Abs(d) <= 5
  {
    if d >= 6 { ScaledUp(k, 6, k, d); }
    if d <= -6 { ScaledUp(k, 6, k, -d); }
  }

  /** Where a slope is at zero and one there is nothing to cancel. */
  lemma AloneRising(u: int, y: int, m: int)
    requires Rises(u, 0x8000_0000, 0, y, m)
    ensures Restored(u, y)
  {
    Close(u, y, UNIT * u - UNIT / 2 * y, 0, 0);
  }

  lemma AloneFalling(u: int, y: int, m: int)
    requires Falls(u, 0x8000_0000, 0, y, m)
    ensures Restored(u, y)
  {
    Close(u, y, UNIT * u - UNIT / 2 * y, 0, 0);
  }

  lemma NoWeight(w: Slope, v: seq<int>, b: seq<int>, n: nat)
    requires Same(w, v) && |v| == |b| && |b| % 2 == 0 && n < |b|
    ensures v[n] == 0 ==> Head(w, b, n) == 0
    ensures v[|b| - 1 - n] == 0 ==> Tail(w, b, n) == 0
  {
  }

  // ---- windows that are power complementary ----

  /** The squares of a slope and its mirror image add up to one, but for off 2^-62. */
  ghost predicate Complements(v: seq<int>, off: nat)
  {
    forall n :: 0 <= n < |v| ==> Abs(v[n]) <= 0x8000_0000 && Abs(v[n] * v[n] + v[|v| - 1 - n] * v[|v| - 1 - n] - UNIT / 2) <= off
  }

  ghost predicate Paired(wnd: Windows, off: nat)
  {
    wnd.Valid() && forall shape: nat :: Complements(Rising(ShortTable(wnd, shape)), off) && Complements(Rising(LongTable(wnd, shape)), off)
  }

  lemma PlacedComplements(table: seq<int>, off: nat)
    requires |table| == 128 && Complements(Rising(table), off)
    ensures Complements(Placed(table), off)
  {
    var v, w := Placed(table), Rising(table);
    forall n | 0 <= n < 1024 ensures Abs(v[n]) <= 0x8000_0000 && Abs(v[n] * v[n] + v[1023 - n] * v[1023 - n] - UNIT / 2) <= off {
      if 448 <= n < 576 { assert v[n] == w[n - 448] && v[1023 - n] == w[127 - (n - 448)]; }
    }
  }

  lemma SlopeComplements(wnd: Windows, code: nat, shape: nat, off: nat)
    requires Paired(wnd, off)
    ensures Complements(LeftSlope(wnd, code, shape), off) && Complements(RightSlope(wnd, code, shape), off)
  {
    hide Complements, Rising, Placed;
    PlacedComplements(ShortTable(wnd, shape), off);
    assert Complements(Rising(LongTable(wnd, shape)), off);
  }

  // ---- one frame ----

  lemma LongParts(wnd: Windows, prevShape: nat, fr: Frame, s: Signal, at: int)
    requires wnd.Valid() && fr.Valid() && fr.winSequence != 2 && Analysed(wnd, prevShape, fr, s, at)
    ensures FoldedHead(LeftSlope(wnd, fr.winSequence, prevShape), fr.b, s, at)
    ensures FoldedTail(RightSlope(wnd, fr.winSequence, fr.winShape), fr.b, s, at + 1024)
  {
    hide LeftSlope, RightSlope, FoldedHead, FoldedTail;
  }

  lemma LongIs(wnd: Windows, prevShape: nat, fr: Frame, n: nat)
    requires wnd.Valid() && fr.Valid() && fr.winSequence != 2 && n < 1024
    ensures First(wnd, prevShape, fr, n) == Head(Rise(wnd, fr.winSequence, prevShape), fr.b, n)
    ensures Second(wnd, fr, n) == Tail(Fall(wnd, fr.winSequence, fr.winShape), fr.b, n)
  {
    hide Head, Tail;
  }

  lemma Weights(v: seq<int>, off: nat)
    requires Complements(v, off)
    ensures forall i :: 0 <= i < |v| ==> Abs(v[i]) <= 0x8000_0000
  {
  }

  lemma PairedValid(wnd: Windows, off: nat)
    requires Paired(wnd, off)
    ensures wnd.Valid()
  {
  }

  /** The old frame's second half, where it is long. */
  lemma LongSecond(wnd: Windows, prevShape: nat, fr: Frame, s: Signal, at: int, n: nat, off: nat)
    requires Paired(wnd, off) && fr.Valid() && fr.winSequence != 2 && n < 1024 && Analysed(wnd, prevShape, fr, s, at - 1024)
    ensures var v := RightSlope(wnd, fr.winSequence, fr.winShape);
      Falls(Second(wnd, fr, n), v[1023 - n], v[n], s(at + n), s(at + (1023 - n))) && (v[1023 - n] == 0 ==> Second(wnd, fr, n) == 0)
  {
    hide LeftSlope, RightSlope, Tail, Falls, Analysed, FoldedHead, FoldedTail, Same, Slope.At, Rise, Fall, Meeting, Rising;
    hide Paired, Complements, First, Second, Windows.Valid;
    PairedValid(wnd, off);
    LongIs(wnd, prevShape, fr, n);
    LongParts(wnd, prevShape, fr, s, at - 1024);
    SlopesMeet(wnd, fr.winSequence, if fr.winSequence == 1 then 3 else 0, fr.winShape);
    SlopeComplements(wnd, fr.winSequence, fr.winShape, off);
    Weights(RightSlope(wnd, fr.winSequence, fr.winShape), off);
    var w := Fall(wnd, fr.winSequence, fr.winShape);
    TailFalls(w, RightSlope(wnd, fr.winSequence, fr.winShape), fr.b, s, at, n);
    NoWeight(w, RightSlope(wnd, fr.winSequence, fr.winShape), fr.b, n);
  }

  /** The new frame's first half, where it is long. */
  lemma LongFirst(wnd: Windows, prevShape: nat, fr: Frame, s: Signal, at: int, n: nat, off: nat)
    requires Paired(wnd, off) && fr.Valid() && fr.winSequence != 2 && n < 1024 && Analysed(wnd, prevShape, fr, s, at)
    ensures var v := LeftSlope(wnd, fr.winSequence, prevShape);
      Rises(First(wnd, prevShape, fr, n), v[n], v[1023 - n], s(at + n), s(at + (1023 - n))) && (v[n] == 0 ==> First(wnd, prevShape, fr, n) == 0)
  {
    hide LeftSlope, RightSlope, Head, Rises, Analysed, FoldedHead, FoldedTail, Same, Slope.At, Rise, Fall, Meeting, Rising;
    hide Paired, Complements, First, Second, Windows.Valid;
    PairedValid(wnd, off);
    LongIs(wnd, prevShape, fr, n);
    LongParts(wnd, prevShape, fr, s, at);
    SlopesMeet(wnd, if fr.winSequence == 3 then 1 else 0, fr.winSequence, prevShape);
    SlopeComplements(wnd, fr.winSequence, prevShape, off);
    Weights(LeftSlope(wnd, fr.winSequence, prevShape), off);
    var w := Rise(wnd, fr.winSequence, prevShape);
    HeadRises(w, LeftSlope(wnd, fr.winSequence, prevShape), fr.b, s, at, n);
    NoWeight(w, LeftSlope(wnd, fr.winSequence, prevShape), fr.b, n);
  }

  lemma BlockRises(wnd: Windows, prevShape: nat, fr: Frame, s: Signal, at: int, k: nat, i: nat, off: nat)
    requires Paired(wnd, off) && fr.Valid() && fr.winSequence == 2 && Analysed(wnd, prevShape, fr, s, at) && k < 8 && i < 128
    ensures var v := Rising(ShortTable(wnd, if k == 0 then prevShape else fr.winShape));
      Rises(Shorts(wnd, prevShape, fr).BlockHead(k, i), v[i], v[127 - i], s(at + (448 + 128 * k) + i), s(at + (448 + 128 * k) + (127 - i)))
  {
    hide Rising, Head, Rises, FoldedHead, FoldedTail;
    var shape := if k == 0 then prevShape else fr.winShape;
    var b := fr.b[128 * k..128 * k + 128];
    RisingIs(ShortTable(wnd, shape));
    assert Complements(Rising(ShortTable(wnd, shape)), off);
    HeadRises(Plain(ShortTable(wnd, shape)), Rising(ShortTable(wnd, shape)), b, s, at + (448 + 128 * k), i);
  }

  lemma BlockFalls(wnd: Windows, prevShape: nat, anyShape: nat, fr: Frame, s: Signal, at: int, k: nat, i: nat, off: nat)
    requires Paired(wnd, off) && fr.Valid() && fr.winSequence == 2 && Analysed(wnd, prevShape, fr, s, at) && k < 8 && i < 128
    ensures var v := Rising(ShortTable(wnd, fr.winShape));
      Falls(Shorts(wnd, anyShape, fr).BlockTail(k, i), v[127 - i], v[i], s(at + (576 + 128 * k) + i), s(at + (576 + 128 * k) + (127 - i)))
  {
    hide Rising, Tail, Falls, FoldedHead, FoldedTail;
    var b := fr.b[128 * k..128 * k + 128];
    RisingIs(ShortTable(wnd, fr.winShape));
    assert Complements(Rising(ShortTable(wnd, fr.winShape)), off);
    TailFalls(Plain(ShortTable(wnd, fr.winShape)), Rising(ShortTable(wnd, fr.winShape)), b, s, at + (576 + 128 * k), i);
  }

  /** Between two short blocks of a frame the signal comes back. */
  lemma BetweenBlocks(wnd: Windows, prevShape: nat, anyShape: nat, fr: Frame, s: Signal, at: int, k: nat, i: nat, off: nat)
    requires Paired(wnd, off) && fr.Valid() && fr.winSequence == 2 && Analysed(wnd, prevShape, fr, s, at) && 1 <= k < 8 && i < 128
    requires off * Abs(s(at + (448 + 128 * k + i))) < UNIT / 2
    ensures Restored(Shorts(wnd, anyShape, fr).Sum(8, 448 + 128 * k + i), s(at + (448 + 128 * k + i)))
  {
    hide Rising, Rises, Falls, Restored, Analysed, Head, Tail;
    var x := Shorts(wnd, anyShape, fr);
    TwoBlocks(x, k, i);
    BlockRises(wnd, prevShape, fr, s, at, k, i, off);
    BlockFalls(wnd, prevShape, anyShape, fr, s, at, k - 1, i, off);
    assert x.BlockHead(k, i) == Shorts(wnd, prevShape, fr).BlockHead(k, i);
    var v := Rising(ShortTable(wnd, fr.winShape));
    assert Complements(v, off);
    assert at + (576 + 128 * (k - 1)) == at + (448 + 128 * k);
    Cancels(x.BlockHead(k, i), x.BlockTail(k - 1, i), v[i], v[127 - i], s(at + (448 + 128 * k + i)), s(at + (448 + 128 * k) + (127 - i)), off);
  }

  /** The old frame's second half, where it is of short blocks: restored, then the last tail, then over. */
  lemma ShortSecond(wnd: Windows, prevShape: nat, fr: Frame, s: Signal, at: int, n: nat, off: nat)
    requires Paired(wnd, off) && fr.Valid() && fr.winSequence == 2 && n < 1024 && Analysed(wnd, prevShape, fr, s, at - 1024)
    requires off * Abs(s(at + n)) < UNIT / 2
    ensures n < 448 ==> Restored(Second(wnd, fr, n), s(at + n))
    ensures 448 <= n < 576 ==> var v, i := Rising(ShortTable(wnd, fr.winShape)), n - 448;
      Falls(Second(wnd, fr, n), v[127 - i], v[i], s(at + n), s(at + (1023 - n)))
    ensures n >= 576 ==> Second(wnd, fr, n) == 0
  {
    hide Rising, Rises, Falls, Restored, Analysed, ShortBlocks.Call.Sum, ShortBlocks.Call.BlockTail;
    var x := Shorts(wnd, fr.winShape, fr);
    if n < 448 {
      var k, i := (576 + n) / 128, (576 + n) % 128;
      assert at - 1024 + (448 + 128 * k + i) == at + n;
      BetweenBlocks(wnd, prevShape, fr.winShape, fr, s, at - 1024, k, i, off);
    } else if n < 576 {
      x.SumStep(7, n - 448);
      BlockFalls(wnd, prevShape, fr.winShape, fr, s, at - 1024, 7, n - 448, off);
      assert at - 1024 + (576 + 128 * 7) + (n - 448) == at + n && at - 1024 + (576 + 128 * 7) + (127 - (n - 448)) == at + (1023 - n);
    } else {
      x.SumAfter(8, 1024 + n);
    }
  }

  /** The new frame's first half: nothing, then the first head, then restored. */
  lemma ShortFirst(wnd: Windows, prevShape: nat, fr: Frame, s: Signal, at: int, n: nat, off: nat)
    requires Paired(wnd, off) && fr.Valid() && fr.winSequence == 2 && n < 1024 && Analysed(wnd, prevShape, fr, s, at)
    requires off * Abs(s(at + n)) < UNIT / 2
    ensures n < 448 ==> First(wnd, prevShape, fr, n) == 0
    ensures 448 <= n < 576 ==> var v, i := Rising(ShortTable(wnd, prevShape)), n - 448;
      Rises(First(wnd, prevShape, fr, n), v[i], v[127 - i], s(at + n), s(at + (1023 - n)))
    ensures n >= 576 ==> Restored(First(wnd, prevShape, fr, n), s(at + n))
  {
    hide Rising, Rises, Falls, Restored, Analysed, ShortBlocks.Call.Sum, ShortBlocks.Call.BlockHead;
    var x := Shorts(wnd, prevShape, fr);
    if n < 448 {
      x.SumBefore(8, n);
    } else if n < 576 {
      TwoBlocks(x, 0, n - 448);
      BlockRises(wnd, prevShape, fr, s, at, 0, n - 448, off);
      assert at + (448 + 128 * 0) + (n - 448) == at + n && at + (448 + 128 * 0) + (127 - (n - 448)) == at + (1023 - n);
    } else {
      var k, i := (n - 448) / 128, (n - 448) % 128;
      assert 448 + 128 * k + i == n;
      BetweenBlocks(wnd, prevShape, prevShape, fr, s, at, k, i, off);
    }
  }

  lemma PlacedAt(table: seq<int>, n: nat)
    requires |table| == 128 && n < 1024
    ensures var p, w := Placed(table), Rising(table);
      && (n < 448 ==> p[n] == 0 && p[1023 - n] == 0x8000_0000) && (n >= 576 ==> p[n] == 0x8000_0000 && p[1023 - n] == 0)
      && (448 <= n < 576 ==> p[n] == w[n - 448] && p[1023 - n] == w[127 - (n - 448)])
  {
  }

  /** Two frames that may follow each other, made from one signal, restore it where they overlap. */
  lemma Restores(wnd: Windows, shape: nat, p: Frame, c: Frame, s: Signal, at: int, n: nat, off: nat)
    requires Paired(wnd, off) && p.Valid() && c.Valid() && Follows(p.winSequence, c.winSequence) && n < 1024
    requires Analysed(wnd, shape, p, s, at - 1024) && Analysed(wnd, p.winShape, c, s, at) && off * Abs(s(at + n)) < UNIT / 2
    ensures Restored(Second(wnd, p, n) + First(wnd, p.winShape, c, n), s(at + n))
  {
    hide Rising, Placed, Rises, Falls, Restored, Analysed, First, Second, LeftSlope, RightSlope;
    var table := ShortTable(wnd, p.winShape);
    var u, v, y, m := First(wnd, p.winShape, c, n), Second(wnd, p, n), s(at + n), s(at + (1023 - n));
    SlopesMeet(wnd, p.winSequence, c.winSequence, p.winShape);
    PlacedAt(table, n);
    var w := Meeting(wnd, p.winSequence, c.winSequence, p.winShape);
    if p.winSequence == 2 { ShortSecond(wnd, shape, p, s, at, n, off); } else { LongSecond(wnd, shape, p, s, at, n, off); }
    if c.winSequence == 2 { ShortFirst(wnd, p.winShape, c, s, at, n, off); } else { LongFirst(wnd, p.winShape, c, s, at, n, off); }
    if p.winSequence != 2 && c.winSequence != 2 {
      SlopeComplements(wnd, p.winSequence, p.winShape, off);
      Cancels(u, v, w[n], w[1023 - n], y, m, off);
    } else if n < 448 {
      if p.winSequence != 2 { AloneFalling(v, y, m); }
    } else if n < 576 {
      assert Complements(Rising(table), off);
      Cancels(u, v, w[n], w[1023 - n], y, m, off);
    } else {
      if c.winSequence != 2 { AloneRising(u, y, m); }
    }
  }

  // ---- whole runs ----

  /** The shape before frame t. */
  function ShapeBefore(shape: nat, frames: seq<Frame>, t: nat): nat
    requires t < |frames|
  {
    if t == 0 then shape else frames[t - 1].winShape
  }

  /** Frames that may follow each other, each made from the next 2048 samples of the signal. */
  ghost predicate Coded(wnd: Windows, shape: nat, frames: seq<Frame>, s: Signal)
    requires wnd.Valid()
  {
    && (forall t :: 0 <= t < |frames| ==> frames[t].Valid() && Analysed(wnd, ShapeBefore(shape, frames, t), frames[t], s, 1024 * t))
    && forall t, u :: 0 <= t < |frames| && u == t + 1 < |frames| ==> Follows(frames[t].winSequence, frames[u].winSequence)
  }

  /** The output of any run of such frames, whatever their sequences and shapes, is the signal from the
      second frame on: a sixteenth of it as a 16-bit sample, the window's half and the three fraction bits
      off, within 13 of the signal's units where the clip leaves it alone. */
  lemma RunRestores(wnd: Windows, start: seq<int>, shape: nat, frames: seq<Frame>, s: Signal, t: nat, n: nat, off: nat)
    requires Paired(wnd, off) && |start| == 1024 && Coded(wnd, shape, frames, s) && 1 <= t < |frames| && n < 1024
    requires off * Abs(s(1024 * t + n)) < UNIT / 2
    ensures var y, o := s(1024 * t + n), Sample(wnd, start, shape, frames, t, n);
      Abs(16 * o - y) <= 13 || (o == 0x7fff && y > 16 * 0x7fff) || (o == -0x8000 && y < 16 * -0x8000)
  {
    hide Analysed, First, Second, Follows, Out;
    var i := t - 1;
    var p, c := frames[i], frames[t];
    assert Follows(p.winSequence, c.winSequence);
    assert p.Valid() && Analysed(wnd, ShapeBefore(shape, frames, i), p, s, 1024 * i);
    assert c.Valid() && Analysed(wnd, ShapeBefore(shape, frames, t), c, s, 1024 * t);
    assert 1024 * i == 1024 * t - 1024;
    Restores(wnd, ShapeBefore(shape, frames, i), p, c, s, 1024 * t, n, off);
    OutNear(Second(wnd, p, n) + First(wnd, p.winShape, c, n), s(1024 * t + n));
  }

  lemma OutNear(v: int, y: int)
    requires Restored(v, y)
    ensures Abs(16 * Out(v) - y) <= 13 || (Out(v) == 0x7fff && y > 16 * 0x7fff) || (Out(v) == -0x8000 && y < 16 * -0x8000)
  {
  }
}
