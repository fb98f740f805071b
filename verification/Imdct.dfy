/** codec/aacdecode/imdct.c, IMDCT: the routine for each window sequence, and what a run of frames
    of any mix of sequences and shapes puts out. The DCT-IV before it is not part of this model. */
module Imdct {
  import opened Fixed
  import opened Windowing
  import LongWindows
  import ShortBlocks

  const LONG := 0
  const LONG_START := 1
  const EIGHT_SHORT := 2
  const LONG_STOP := 3

  /** One channel's frame: window sequence and shape, and the output of its DCT-IV. */
  datatype Frame = Frame(winSequence: nat, winShape: nat, b: seq<int>)
  {
    predicate Valid() { winSequence <= 3 && |b| == 1024 }
  }

  /** The slope a frame rises on, chosen by the previous frame's shape, and the one it falls on. */
  function Rise(wnd: Windows, winSequence: nat, prevShape: nat): Slope
  {
    if winSequence == LONG_STOP then Steep(wnd.Short(prevShape))
    else if winSequence == EIGHT_SHORT then Plain(wnd.Short(prevShape)) else Plain(wnd.Long(prevShape))
  }

  function Fall(wnd: Windows, winSequence: nat, shape: nat): Slope
  {
    if winSequence == LONG_START then Steep(wnd.Short(shape))
    else if winSequence == EIGHT_SHORT then Plain(wnd.Short(shape)) else Plain(wnd.Long(shape))
  }

  function Shorts(wnd: Windows, prevShape: nat, fr: Frame): (x: ShortBlocks.Call)
    requires wnd.Valid() && fr.Valid()
    ensures x.Valid()
  {
    var none := seq(1024, _ => 0);
    ShortBlocks.Call(none, none, Plain(wnd.Short(prevShape)), Plain(wnd.Short(fr.winShape)), fr.b)
  }

  /** The frame's windowed block over its own 1024 samples, and over the next 1024. */
  function First(wnd: Windows, prevShape: nat, fr: Frame, n: nat): int
    requires wnd.Valid() && fr.Valid() && n < 1024
  {
    if fr.winSequence == EIGHT_SHORT then Shorts(wnd, prevShape, fr).Sum(8, n)
    else Head(Rise(wnd, fr.winSequence, prevShape), fr.b, n)
  }

  function Second(wnd: Windows, fr: Frame, n: nat): int
    requires wnd.Valid() && fr.Valid() && n < 1024
  {
    if fr.winSequence == EIGHT_SHORT then Shorts(wnd, fr.winShape, fr).Sum(8, 1024 + n)
    else Tail(Fall(wnd, fr.winSequence, fr.winShape), fr.b, n)
  }

  /** The sum of the short blocks depends on the blocks and slopes alone, and past the first block
      not on the slope that rises. */
  lemma {:induction false} SameSum(x: ShortBlocks.Call, y: ShortBlocks.Call, k: nat, n: nat)
    requires x.Valid() && y.Valid() && k <= 8 && x.b == y.b && x.curr == y.curr && (x.prev == y.prev || n >= 576)
    ensures x.Sum(k, n) == y.Sum(k, n)
  {
    hide Head, Tail;
    if k > 0 { SameSum(x, y, k - 1, n); }
  }

  class Channel {
    const overlap: array<int>
    var prevWinShape: nat

    /** A channel starts with nothing to overlap and the sine shape. */
    constructor ()
      ensures fresh(overlap) && Valid() && prevWinShape == 0 && forall n :: 0 <= n < 1024 ==> overlap[n] == 0
    {
      overlap := new int[1024](_ => 0);
      prevWinShape := 0;
    }

    ghost predicate Valid()
    {
      overlap.Length == 1024
    }

    /** The output is the rounded, clipped sum of the old overlap and the frame's first half; the
        overlap becomes its second half, and the shape is remembered. */
    method IMDCT(fr: Frame, wnd: Windows, pcm: array2<int>, ch: nat)
      requires Valid() && fr.Valid() && wnd.Valid() && pcm.Length0 == 1024 && ch < pcm.Length1
      modifies this, overlap, pcm
      ensures prevWinShape == fr.winShape
      ensures forall n :: 0 <= n < 1024 ==> pcm[n, ch] == Out(old(overlap[n]) + First(wnd, old(prevWinShape), fr, n))
      ensures forall n :: 0 <= n < 1024 ==> overlap[n] == Second(wnd, fr, n)
      ensures forall n, c :: 0 <= n < 1024 && 0 <= c < pcm.Length1 && c != ch ==> pcm[n, c] == old(pcm[n, c])
    {
      hide Out, Head, Tail, Column;
      ghost var o, col, prev := overlap[..], Column(pcm, ch), prevWinShape;
      if fr.winSequence == LONG {
        LongWindows.DecWindowOverlap(fr.b, overlap, pcm, ch, wnd, fr.winShape, prevWinShape);
      } else if fr.winSequence == LONG_START {
        LongWindows.DecWindowOverlapLongStart(fr.b, overlap, pcm, ch, wnd, fr.winShape, prevWinShape);
      } else if fr.winSequence == EIGHT_SHORT {
        ShortBlocks.DecWindowOverlapShort(fr.b, overlap, pcm, ch, wnd, fr.winShape, prevWinShape);
        ShortResult(wnd, prev, fr, o, col);
      } else if fr.winSequence == LONG_STOP {
        LongWindows.DecWindowOverlapLongStop(fr.b, overlap, pcm, ch, wnd, fr.winShape, prevWinShape);
      }
      prevWinShape := fr.winShape;
    }
  }

  lemma ShortResult(wnd: Windows, prevShape: nat, fr: Frame, o: seq<int>, col: seq<int>)
    requires wnd.Valid() && fr.Valid() && fr.winSequence == EIGHT_SHORT && |o| == |col| == 1024
    ensures var x := ShortBlocks.Call(o, col, Plain(wnd.Short(prevShape)), Plain(wnd.Short(fr.winShape)), fr.b);
      && x.Valid() && (forall n :: 0 <= n < 1024 ==> x.Sum(8, n) == First(wnd, prevShape, fr, n))
      && (forall n :: 1024 <= n < 2048 ==> x.Sum(8, n) == Second(wnd, fr, n - 1024))
  {
    hide ShortBlocks.Call.Sum;
    var x := ShortBlocks.Call(o, col, Plain(wnd.Short(prevShape)), Plain(wnd.Short(fr.winShape)), fr.b);
    forall n: nat | n < 1024 ensures x.Sum(8, n) == First(wnd, prevShape, fr, n) {
      SameSum(x, Shorts(wnd, prevShape, fr), 8, n);
    }
    forall n: nat | 1024 <= n < 2048 ensures x.Sum(8, n) == Second(wnd, fr, n - 1024) {
      SameSum(x, Shorts(wnd, fr.winShape, fr), 8, n);
    }
  }

  // ---- runs ----

  /** Sample n of frame t: the second half of the frame before and the first half of this one. */
  function Sample(wnd: Windows, start: seq<int>, shape: nat, frames: seq<Frame>, t: nat, n: nat): int
    requires wnd.Valid() && |start| == 1024 && t < |frames| && n < 1024 && forall i :: 0 <= i < |frames| ==> frames[i].Valid()
  {
    if t == 0 then Out(start[n] + First(wnd, shape, frames[0], n))
    else Out(Second(wnd, frames[t - 1], n) + First(wnd, frames[t - 1].winShape, frames[t], n))
  }

  /** A run of frames on one channel: overlap-add leaves no trace of any frame but the last. */
  method DecodeRun(c: Channel, wnd: Windows, frames: seq<Frame>, pcm: array2<int>, ch: nat) returns (out: seq<seq<int>>)
    requires c.Valid() && wnd.Valid() && pcm.Length0 == 1024 && ch < pcm.Length1
    requires forall i :: 0 <= i < |frames| ==> frames[i].Valid()
    modifies c, c.overlap, pcm
    ensures |out| == |frames| && forall t :: 0 <= t < |out| ==> |out[t]| == 1024
    ensures forall t, n :: 0 <= t < |out| && 0 <= n < 1024 ==>
      out[t][n] == Sample(wnd, old(c.overlap[..]), old(c.prevWinShape), frames, t, n)
    ensures frames != [] ==> forall n :: 0 <= n < 1024 ==> c.overlap[n] == Second(wnd, frames[|frames| - 1], n)
  {
    hide Out, First, Second, Frame.Valid;
    ghost var start, shape := c.overlap[..], c.prevWinShape;
    out := [];
    var i := 0;
    while i < |frames|
      invariant 0 <= i <= |frames| && |out| == i && forall t :: 0 <= t < i ==> |out[t]| == 1024
      invariant forall t, n :: 0 <= t < i && 0 <= n < 1024 ==> out[t][n] == Sample(wnd, start, shape, frames, t, n)
      invariant c.prevWinShape == if i == 0 then shape else frames[i - 1].winShape
      invariant forall n :: 0 <= n < 1024 ==> c.overlap[n] == if i == 0 then start[n] else Second(wnd, frames[i - 1], n)
    {
      c.IMDCT(frames[i], wnd, pcm, ch);
      out := out + [seq(1024, n requires 0 <= n < 1024 reads pcm => pcm[n, ch])];
      i := i + 1;
    }
  }

  // ---- word sizes ----

  /** Window values are words. */
  ghost predicate Words(w: Slope)
  {
    w.Valid() && forall n :: 0 <= n < w.Size() ==> -ONE <= w.At(n) <= ONE
  }

  ghost predicate Within(s: seq<int>, k: nat)
  {
    forall i :: 0 <= i < |s| ==> 0 - k <= s[i] <= k
  }

  lemma HalfBound(w: Slope, b: seq<int>, n: nat, k: nat)
    requires Words(w) && |b| == w.Size() && |b| % 2 == 0 && n < |b| && Within(b, k) && k % 2 == 0
    ensures 0 - k / 2 <= Head(w, b, n) <= k / 2 && 0 - k / 2 <= Tail(w, b, n) <= k / 2
  {
    hide MulShift32, Slope.At;
    var h := |b|;
    ProductBound(w.At(n), b[if n < h / 2 then h / 2 + n else h + h / 2 - 1 - n], k);
    ProductBound(w.At(h - 1 - n), b[if n < h / 2 then h / 2 - 1 - n else n - h / 2], k);
  }

  /** At any sample at most two of the eight short blocks meet. */
  lemma TwoBlocks(x: ShortBlocks.Call, k: nat, i: nat)
    requires x.Valid() && k < 8 && i < 128
    ensures x.Sum(8, 448 + 128 * k + i) == x.BlockHead(k, i) + if k == 0 then 0 else x.BlockTail(k - 1, i)
  {
    hide ShortBlocks.Call.BlockHead, ShortBlocks.Call.BlockTail;
    x.SumStep(k, i);
    if k > 0 { x.SumStep(k - 1, i); }
    SettledFrom(x, k + 1, 8, 448 + 128 * k + i);
  }

  lemma {:induction false} SettledFrom(x: ShortBlocks.Call, k: nat, m: nat, n: nat)
    requires x.Valid() && k <= m <= 8 && n < 448 + 128 * k
    ensures x.Sum(m, n) == x.Sum(k, n)
  {
    if k < m {
      SettledFrom(x, k, m - 1, n);
      x.SumSettled(m - 1, n);
    }
  }

  lemma ShortBound(x: ShortBlocks.Call, n: nat, k: nat)
    requires x.Valid() && Words(x.prev) && Words(x.curr) && Within(x.b, k) && k % 2 == 0
    ensures 0 - k <= x.Sum(8, n) <= k
  {
    hide ShortBlocks.Call.Sum, Words, Head, Tail;
    if n < 448 { x.SumBefore(8, n); return; }
    if n >= 1600 { x.SumAfter(8, n); return; }
    var j, i := (n - 448) / 128, (n - 448) % 128;
    if j == 8 {
      x.SumStep(7, i);
      HalfBound(x.curr, x.b[896..1024], i, k);
      return;
    }
    TwoBlocks(x, j, i);
    HalfBound(if j == 0 then x.prev else x.curr, x.b[128 * j..128 * j + 128], i, k);
    if j > 0 { HalfBound(x.curr, x.b[128 * (j - 1)..128 * (j - 1) + 128], i, k); }
  }

  /** Every partial sum of the short-block routine, as it stands in the overlap buffer after any number
      of blocks, has the bound of the final one: it is final, a single tail, or not begun. */
  lemma PartialBound(x: ShortBlocks.Call, m: nat, n: nat, k: nat)
    requires x.Valid() && m <= 8 && Words(x.prev) && Words(x.curr) && Within(x.b, k) && k % 2 == 0
    ensures 0 - k <= x.Sum(m, n) <= k
  {
    hide ShortBlocks.Call.BlockHead, Words, Tail, Head;
    if n < 448 + 128 * m {
      SettledFrom(x, m, 8, n);
      ShortBound(x, n, k);
    } else if m > 0 && n < 576 + 128 * m {
      var i := n - (448 + 128 * m);
      x.SumStep(m - 1, i);
      HalfBound(x.curr, x.b[128 * (m - 1)..128 * (m - 1) + 128], i, k);
    } else if m > 0 {
      x.SumAfter(m, n);
    }
  }

  /** So no sum on the way leaves a 32-bit word either: the old overlap with the blocks so far, before
      and after rounding, for any number of blocks. */
  lemma PartialFits(wnd: Windows, last: Frame, fr: Frame, m: nat, n: nat)
    requires wnd.Valid() && last.Valid() && fr.Valid() && n < 1024 && m <= 8 && fr.winSequence == EIGHT_SHORT
    requires Words(Rise(wnd, EIGHT_SHORT, last.winShape)) && Words(Fall(wnd, EIGHT_SHORT, fr.winShape))
    requires Words(Rise(wnd, last.winSequence, last.winShape)) && Words(Fall(wnd, last.winSequence, last.winShape))
    requires Within(last.b, 0x4000_0000 - 4) && Within(fr.b, 0x4000_0000 - 4)
    ensures var s := Shorts(wnd, last.winShape, fr).Sum(m, n);
      IsInt32(s) && IsInt32(Second(wnd, last, n) + s) && IsInt32(Second(wnd, last, n) + s + RND_VAL)
    ensures IsInt32(Shorts(wnd, last.winShape, fr).Sum(m, 1024 + n))
  {
    hide Words, Head, Tail, ShortBlocks.Call.Sum;
    var k := 0x4000_0000 - 4;
    PartialBound(Shorts(wnd, last.winShape, fr), m, n, k);
    PartialBound(Shorts(wnd, last.winShape, fr), m, 1024 + n, k);
    if last.winSequence == EIGHT_SHORT { ShortBound(Shorts(wnd, last.winShape, last), 1024 + n, k); }
    else { HalfBound(Fall(wnd, last.winSequence, last.winShape), last.b, n, k); }
  }

  /** With DCT outputs below 2^30 - 4 in magnitude no accumulated sample leaves a 32-bit word. */
  lemma RunFits(wnd: Windows, last: Frame, fr: Frame, n: nat)
    requires wnd.Valid() && last.Valid() && fr.Valid() && n < 1024
    requires Words(Rise(wnd, fr.winSequence, last.winShape)) && Words(Fall(wnd, fr.winSequence, fr.winShape))
    requires Words(Rise(wnd, last.winSequence, last.winShape)) && Words(Fall(wnd, last.winSequence, last.winShape))
    requires Within(last.b, 0x4000_0000 - 4) && Within(fr.b, 0x4000_0000 - 4)
    ensures IsInt32(Second(wnd, last, n) + First(wnd, last.winShape, fr, n) + RND_VAL)
  {
    hide Words, Head, Tail, ShortBlocks.Call.Sum;
    var k := 0x4000_0000 - 4;
    if fr.winSequence == EIGHT_SHORT { ShortBound(Shorts(wnd, last.winShape, fr), n, k); }
    else { HalfBound(Rise(wnd, fr.winSequence, last.winShape), fr.b, n, k); }
    if last.winSequence == EIGHT_SHORT { ShortBound(Shorts(wnd, last.winShape, last), 1024 + n, k); }
    else { HalfBound(Fall(wnd, last.winSequence, last.winShape), last.b, n, k); }
  }
}
