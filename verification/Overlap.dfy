/** codec/aacdecode/imdct.c: windowing and overlap-add, after the in-place DCT-IV. The specification
    is the sum of windowed blocks of ISO/IEC 14496-3, subclause 4.6.11, with every product truncated
    by itself. */
module Windowing {
  import opened Fixed

  const RND_VAL := 4    // 1 << (FBITS_OUT_IMDCT - 1)

  /** 1.0 as a window value: multiplying by it is a shift right by one. */
  const ONE := 0x8000_0000

  // ---- PCM output ----

  /** The clip as the source writes it, with the sign bit spread over the word. */
  function CLIPTOSHORT(x: int): (r: int)
    ensures r == if x < -0x8000 then -0x8000 else if x > 0x7fff then 0x7fff else x
  {
    var sign := if x < 0 then -1 else 0;
    if sign != x / 0x8000 then (if sign == 0 then 0x7fff else -0x7fff - 1) else x
  }

  /** The PCM sample of an accumulated value. */
  function Out(v: int): int { CLIPTOSHORT((v + RND_VAL) / 8) }

  /** One channel of the interleaved output: row n holds sample n of every channel. */
  ghost function Column(pcm: array2<int>, ch: nat): (s: seq<int>)
    requires pcm.Length0 == 1024 && ch < pcm.Length1
    reads pcm
    ensures |s| == 1024
  {
    seq(1024, n requires 0 <= n < 1024 reads pcm => pcm[n, ch])
  }

  // ---- windows ----

  /** A window in order; it is stored with values from both ends in turn. */
  function Natural(table: seq<int>, n: nat): int
    requires n < |table| && |table| % 2 == 0
  {
    if n < |table| / 2 then table[2 * n] else table[2 * (|table| - 1 - n) + 1]
  }

  /** A window half: its length and its rising values in order. */
  datatype Slope = Plain(table: seq<int>) | Steep(short: seq<int>)
  {
    predicate Valid()
    {
      if Plain? then |table| % 2 == 0 else |short| == 128
    }

    function Size(): nat { if Plain? then |table| else 1024 }

    /** Value n; the steep slope is a short window between 448 zeros and 448 ones. */
    function At(n: nat): int
      requires Valid() && n < Size()
    {
      if Plain? then Natural(table, n)
      else if n < 448 then 0 else if n < 576 then Natural(short, n - 448) else ONE
    }
  }

  // ---- windowed blocks ----

  /** Sample n of the first half of the inverse transform of a block, windowed: b is the DCT-IV
      output, and h = |b| is the half length. */
  function Head(w: Slope, b: seq<int>, n: nat): int
    requires w.Valid() && |b| == w.Size() && n < |b|
  {
    var h := |b|;
    if n < h / 2 then -MulShift32(w.At(n), b[h / 2 + n]) else MulShift32(w.At(n), b[h + h / 2 - 1 - n])
  }

  /** Sample n of the second half, windowed by the slope reversed in time. */
  function Tail(w: Slope, b: seq<int>, n: nat): int
    requires w.Valid() && |b| == w.Size() && n < |b|
  {
    var h := |b|;
    if n < h / 2 then MulShift32(w.At(h - 1 - n), b[h / 2 - 1 - n]) else MulShift32(w.At(h - 1 - n), b[n - h / 2])
  }

  /** The window flanks meet the samples of a pass in pairs from both ends. */
  lemma PairOfHead(w: Slope, b: seq<int>, j: nat)
    requires w.Valid() && |b| == w.Size() && |b| % 2 == 0 && j < |b| / 2
    ensures Head(w, b, j) == -MulShift32(w.At(j), b[|b| / 2 + j])
    ensures Head(w, b, |b| - 1 - j) == MulShift32(w.At(|b| - 1 - j), b[|b| / 2 + j])
  {
  }

  lemma PairOfTail(w: Slope, b: seq<int>, j: nat)
    requires w.Valid() && |b| == w.Size() && |b| % 2 == 0 && j < |b| / 2
    ensures Tail(w, b, |b| - 1 - j) == MulShift32(w.At(j), b[|b| / 2 - 1 - j])
    ensures Tail(w, b, j) == MulShift32(w.At(|b| - 1 - j), b[|b| / 2 - 1 - j])
  {
  }

  lemma StoredPair(table: seq<int>, j: nat)
    requires |table| % 2 == 0 && j < |table| / 2
    ensures Natural(table, j) == table[2 * j] && Natural(table, |table| - 1 - j) == table[2 * j + 1]
  {
  }

  /** On the steep slope's zeros and ones no multiplication is needed. */
  lemma SteepEnds(w: Slope, j: nat, x: int)
    requires w.Steep? && w.Valid() && j < 448
    ensures MulShift32(w.At(j), x) == 0 && MulShift32(w.At(1023 - j), x) == x / 2
  {
  }

  lemma SteepMiddle(w: Slope, j: nat)
    requires w.Steep? && w.Valid() && j < 64
    ensures w.At(448 + j) == w.short[2 * j] && w.At(1023 - (448 + j)) == w.short[2 * j + 1]
  {
    StoredPair(w.short, j);
  }

  /** The window tables: sine and Kaiser-Bessel derived, for 128 and for 1024 samples. */
  datatype Windows = Windows(sinShort: seq<int>, sinLong: seq<int>, kbdShort: seq<int>, kbdLong: seq<int>)
  {
    predicate Valid() { |sinShort| == |kbdShort| == 128 && |sinLong| == |kbdLong| == 1024 }
    function Short(winType: nat): seq<int> { if winType == 1 then kbdShort else sinShort }
    function Long(winType: nat): seq<int> { if winType == 1 then kbdLong else sinLong }
  }

  // ---- word sizes ----

  /** A windowed sample has half the size of the sample. */
  lemma ProductBound(w: int, x: int, k: nat)
    requires -ONE <= w <= ONE && 0 - k <= x <= k && k % 2 == 0
    ensures 0 - k / 2 <= MulShift32(w, x) <= k / 2
  {
    var a: nat, b: nat := if w < 0 then -w else w, if x < 0 then -x else x;
    ScaledUp(a, b, ONE, k);
    assert w * x == a * b || w * x == -(a * b);
  }
}

/** The three routines for windows of 2048 samples. */
module LongWindows {
  import opened Fixed
  import opened Windowing

  /** What one call knows: old overlap, old output column, slopes and DCT output. */
  datatype Call = Call(o: seq<int>, col: seq<int>, left: Slope, right: Slope, b: seq<int>)
  {
    ghost predicate Valid()
    {
      && |o| == |col| == |b| == 1024 && left.Valid() && right.Valid() && left.Size() == right.Size() == 1024
    }

    function Pcm(n: nat): int
      requires Valid() && n < 1024
    {
      Out(o[n] + Head(left, b, n))
    }

    function Over(n: nat): int
      requires Valid() && n < 1024
    {
      Tail(right, b, n)
    }
  }

  ghost predicate Outer(i: int, n: int) { n < i || n > 1023 - i }

  /** After i passes the outer i samples on each side are done, the others untouched. */
  ghost predicate Passed(x: Call, i: nat, over: array<int>, pcm: array2<int>, ch: nat)
    reads over, pcm
  {
    && x.Valid() && i <= 512 && over.Length == pcm.Length0 == 1024 && ch < pcm.Length1
    && (forall n :: 0 <= n < 1024 ==> over[n] == if Outer(i, n) then x.Over(n) else x.o[n])
    && (forall n :: 0 <= n < 1024 ==> pcm[n, ch] == if Outer(i, n) then x.Pcm(n) else x.col[n])
  }

  ghost predicate Done(x: Call, over: array<int>, pcm: array2<int>, ch: nat)
    reads over, pcm
  {
    && x.Valid() && over.Length == pcm.Length0 == 1024 && ch < pcm.Length1
    && (forall n :: 0 <= n < 1024 ==> over[n] == x.Over(n))
    && (forall n :: 0 <= n < 1024 ==> pcm[n, ch] == x.Pcm(n))
  }

  /** One pass: two output samples, then two overlaps in the slots just read. */
  method Pass(ghost x: Call, i: nat, f0: int, f1: int, t0: int, t1: int, over: array<int>, pcm: array2<int>, ch: nat)
    requires Passed(x, i, over, pcm, ch) && i < 512
    requires Head(x.left, x.b, i) == -f0 && Head(x.left, x.b, 1023 - i) == f1
    requires x.Over(1023 - i) == t0 && x.Over(i) == t1
    modifies over, pcm
    ensures Passed(x, i + 1, over, pcm, ch)
    ensures forall n, c :: 0 <= n < 1024 && 0 <= c < pcm.Length1 && c != ch ==> pcm[n, c] == old(pcm[n, c])
  {
    hide Head, Out, Call.Over;
    var sample := over[i];
    pcm[i, ch] := Out(sample - f0);
    sample := over[1023 - i];
    pcm[1023 - i, ch] := Out(sample + f1);
    over[1023 - i] := t0;
    over[i] := t1;
  }

  lemma PassesStart(x: Call, over: array<int>, pcm: array2<int>, ch: nat)
    requires x.Valid() && over.Length == pcm.Length0 == 1024 && ch < pcm.Length1
    requires x.o == over[..] && x.col == Column(pcm, ch)
    ensures Passed(x, 0, over, pcm, ch)
  {
  }

  lemma PassesEnd(x: Call, over: array<int>, pcm: array2<int>, ch: nat)
    requires Passed(x, 512, over, pcm, ch)
    ensures Done(x, over, pcm, ch)
  {
  }

  /** What a pass computes on each flank of a plain slope. */
  lemma PlainHead(x: Call, i: nat, w0: int, w1: int, f0: int, f1: int)
    requires x.Valid() && i < 512 && x.left.Plain? && w0 == x.left.table[2 * i] && w1 == x.left.table[2 * i + 1]
    requires f0 == MulShift32(w0, x.b[512 + i]) && f1 == MulShift32(w1, x.b[512 + i])
    ensures Head(x.left, x.b, i) == -f0 && Head(x.left, x.b, 1023 - i) == f1
  {
    StoredPair(x.left.table, i);
    PairOfHead(x.left, x.b, i);
  }

  lemma PlainTail(x: Call, i: nat, w0: int, w1: int, t0: int, t1: int)
    requires x.Valid() && i < 512 && x.right.Plain? && w0 == x.right.table[2 * i] && w1 == x.right.table[2 * i + 1]
    requires t0 == MulShift32(w0, x.b[511 - i]) && t1 == MulShift32(w1, x.b[511 - i])
    ensures x.Over(1023 - i) == t0 && x.Over(i) == t1
  {
    StoredPair(x.right.table, i);
    PairOfTail(x.right, x.b, i);
  }

  /** And on a steep one, before and after its short window begins. */
  lemma SteepHead(x: Call, i: nat, f0: int, f1: int)
    requires x.Valid() && i < 512 && x.left.Steep?
    requires if i < 448 then f0 == 0 && f1 == x.b[512 + i] / 2
             else f0 == MulShift32(x.left.short[2 * (i - 448)], x.b[512 + i]) && f1 == MulShift32(x.left.short[2 * (i - 448) + 1], x.b[512 + i])
    ensures Head(x.left, x.b, i) == -f0 && Head(x.left, x.b, 1023 - i) == f1
  {
    hide MulShift32;
    PairOfHead(x.left, x.b, i);
    if i < 448 { SteepEnds(x.left, i, x.b[512 + i]); } else { SteepMiddle(x.left, i - 448); }
  }

  lemma SteepTail(x: Call, i: nat, t0: int, t1: int)
    requires x.Valid() && i < 512 && x.right.Steep?
    requires if i < 448 then t0 == 0 && t1 == x.b[511 - i] / 2
             else t0 == MulShift32(x.right.short[2 * (i - 448)], x.b[511 - i]) && t1 == MulShift32(x.right.short[2 * (i - 448) + 1], x.b[511 - i])
    ensures x.Over(1023 - i) == t0 && x.Over(i) == t1
  {
    hide MulShift32;
    PairOfTail(x.right, x.b, i);
    if i < 448 { SteepEnds(x.right, i, x.b[511 - i]); } else { SteepMiddle(x.right, i - 448); }
  }

  /** DecWindowOverlap: both slopes are long windows. */
  method DecWindowOverlap(b: seq<int>, over: array<int>, pcm: array2<int>, ch: nat, wnd: Windows, winTypeCurr: nat, winTypePrev: nat)
    requires |b| == over.Length == pcm.Length0 == 1024 && ch < pcm.Length1 && wnd.Valid()
    modifies over, pcm
    ensures Done(Call(old(over[..]), old(Column(pcm, ch)), Plain(wnd.Long(winTypePrev)), Plain(wnd.Long(winTypeCurr)), b), over, pcm, ch)
    ensures forall n, c :: 0 <= n < 1024 && 0 <= c < pcm.Length1 && c != ch ==> pcm[n, c] == old(pcm[n, c])
  {
    hide MulShift32, Head, Tail, Passed, Done, Column;
    ghost var x := Call(over[..], Column(pcm, ch), Plain(wnd.Long(winTypePrev)), Plain(wnd.Long(winTypeCurr)), b);
    PassesStart(x, over, pcm, ch);
    var buf0, buf1, over0, over1, wndPrev := 512, 511, 0, 1023, 0;
    var prev, curr := wnd.Long(winTypePrev), wnd.Long(winTypeCurr);
    if winTypeCurr == winTypePrev {
      while over0 < over1
        invariant 0 <= over0 <= 512 && over1 == 1023 - over0 && buf0 == 512 + over0 && buf1 == 511 - over0
        invariant wndPrev == 2 * over0 && Passed(x, over0, over, pcm, ch)
        invariant forall n, c :: 0 <= n < 1024 && 0 <= c < pcm.Length1 && c != ch ==> pcm[n, c] == old(pcm[n, c])
      {
        var w0, w1 := prev[wndPrev], prev[wndPrev + 1];
        wndPrev := wndPrev + 2;
        var f0, f1 := MulShift32(w0, b[buf0]), MulShift32(w1, b[buf0]);
        buf0 := buf0 + 1;
        var t0, t1 := MulShift32(w0, b[buf1]), MulShift32(w1, b[buf1]);
        buf1 := buf1 - 1;
        PlainHead(x, over0, w0, w1, f0, f1);
        PlainTail(x, over0, w0, w1, t0, t1);
        Pass(x, over0, f0, f1, t0, t1, over, pcm, ch);
        over0, over1 := over0 + 1, over1 - 1;
      }
    } else {
      var wndCurr := 0;
      while over0 < over1
        invariant 0 <= over0 <= 512 && over1 == 1023 - over0 && buf0 == 512 + over0 && buf1 == 511 - over0
        invariant wndPrev == wndCurr == 2 * over0 && Passed(x, over0, over, pcm, ch)
        invariant forall n, c :: 0 <= n < 1024 && 0 <= c < pcm.Length1 && c != ch ==> pcm[n, c] == old(pcm[n, c])
      {
        var w0, w1 := prev[wndPrev], prev[wndPrev + 1];
        wndPrev := wndPrev + 2;
        var f0, f1 := MulShift32(w0, b[buf0]), MulShift32(w1, b[buf0]);
        buf0 := buf0 + 1;
        PlainHead(x, over0, w0, w1, f0, f1);
        w0, w1 := curr[wndCurr], curr[wndCurr + 1];
        wndCurr := wndCurr + 2;
        var t0, t1 := MulShift32(w0, b[buf1]), MulShift32(w1, b[buf1]);
        buf1 := buf1 - 1;
        PlainTail(x, over0, w0, w1, t0, t1);
        Pass(x, over0, f0, f1, t0, t1, over, pcm, ch);
        over0, over1 := over0 + 1, over1 - 1;
      }
    }
    PassesEnd(x, over, pcm, ch);
  }

  /** DecWindowOverlapLongStart: the right slope is steep. */
  method DecWindowOverlapLongStart(b: seq<int>, over: array<int>, pcm: array2<int>, ch: nat, wnd: Windows, winTypeCurr: nat, winTypePrev: nat)
    requires |b| == over.Length == pcm.Length0 == 1024 && ch < pcm.Length1 && wnd.Valid()
    modifies over, pcm
    ensures Done(Call(old(over[..]), old(Column(pcm, ch)), Plain(wnd.Long(winTypePrev)), Steep(wnd.Short(winTypeCurr)), b), over, pcm, ch)
    ensures forall n, c :: 0 <= n < 1024 && 0 <= c < pcm.Length1 && c != ch ==> pcm[n, c] == old(pcm[n, c])
  {
    hide MulShift32, Head, Tail, Passed, Done, Column;
    ghost var x := Call(over[..], Column(pcm, ch), Plain(wnd.Long(winTypePrev)), Steep(wnd.Short(winTypeCurr)), b);
    PassesStart(x, over, pcm, ch);
    var buf0, buf1, over0, over1, wndPrev, i := 512, 511, 0, 1023, 0, 448;
    var prev, curr := wnd.Long(winTypePrev), wnd.Short(winTypeCurr);
    while i != 0
      invariant 0 <= i <= 448 && i + over0 == 448 && over1 == 1023 - over0 && buf0 == 512 + over0 && buf1 == 511 - over0
      invariant wndPrev == 2 * over0 && Passed(x, over0, over, pcm, ch)
      invariant forall n, c :: 0 <= n < 1024 && 0 <= c < pcm.Length1 && c != ch ==> pcm[n, c] == old(pcm[n, c])
      decreases i
    {
      var w0, w1 := prev[wndPrev], prev[wndPrev + 1];
      wndPrev := wndPrev + 2;
      var f0, f1 := MulShift32(w0, b[buf0]), MulShift32(w1, b[buf0]);
      buf0 := buf0 + 1;
      var t0, t1 := 0, b[buf1] / 2;
      buf1 := buf1 - 1;
      PlainHead(x, over0, w0, w1, f0, f1);
      SteepTail(x, over0, t0, t1);
      Pass(x, over0, f0, f1, t0, t1, over, pcm, ch);
      over0, over1, i := over0 + 1, over1 - 1, i - 1;
    }
    var wndCurr := 0;
    while over0 < over1
      invariant 448 <= over0 <= 512 && over1 == 1023 - over0 && buf0 == 512 + over0 && buf1 == 511 - over0
      invariant wndPrev == 2 * over0 && wndCurr == 2 * (over0 - 448) && Passed(x, over0, over, pcm, ch)
      invariant forall n, c :: 0 <= n < 1024 && 0 <= c < pcm.Length1 && c != ch ==> pcm[n, c] == old(pcm[n, c])
    {
      var w0, w1 := prev[wndPrev], prev[wndPrev + 1];
      wndPrev := wndPrev + 2;
      var f0, f1 := MulShift32(w0, b[buf0]), MulShift32(w1, b[buf0]);
      buf0 := buf0 + 1;
      PlainHead(x, over0, w0, w1, f0, f1);
      w0, w1 := curr[wndCurr], curr[wndCurr + 1];
      wndCurr := wndCurr + 2;
      var t0, t1 := MulShift32(w0, b[buf1]), MulShift32(w1, b[buf1]);
      buf1 := buf1 - 1;
      SteepTail(x, over0, t0, t1);
      Pass(x, over0, f0, f1, t0, t1, over, pcm, ch);
      over0, over1 := over0 + 1, over1 - 1;
    }
    PassesEnd(x, over, pcm, ch);
  }

  /** DecWindowOverlapLongStop: the left slope is steep. */
  method DecWindowOverlapLongStop(b: seq<int>, over: array<int>, pcm: array2<int>, ch: nat, wnd: Windows, winTypeCurr: nat, winTypePrev: nat)
    requires |b| == over.Length == pcm.Length0 == 1024 && ch < pcm.Length1 && wnd.Valid()
    modifies over, pcm
    ensures Done(Call(old(over[..]), old(Column(pcm, ch)), Steep(wnd.Short(winTypePrev)), Plain(wnd.Long(winTypeCurr)), b), over, pcm, ch)
    ensures forall n, c :: 0 <= n < 1024 && 0 <= c < pcm.Length1 && c != ch ==> pcm[n, c] == old(pcm[n, c])
  {
    hide MulShift32, Head, Tail, Passed, Done, Column;
    ghost var x := Call(over[..], Column(pcm, ch), Steep(wnd.Short(winTypePrev)), Plain(wnd.Long(winTypeCurr)), b);
    PassesStart(x, over, pcm, ch);
    var buf0, buf1, over0, over1, wndPrev, wndCurr, i := 512, 511, 0, 1023, 0, 0, 448;
    var prev, curr := wnd.Short(winTypePrev), wnd.Long(winTypeCurr);
    while i != 0
      invariant 0 <= i <= 448 && i + over0 == 448 && over1 == 1023 - over0 && buf0 == 512 + over0 && buf1 == 511 - over0
      invariant wndCurr == 2 * over0 && Passed(x, over0, over, pcm, ch)
      invariant forall n, c :: 0 <= n < 1024 && 0 <= c < pcm.Length1 && c != ch ==> pcm[n, c] == old(pcm[n, c])
      decreases i
    {
      var f1 := b[buf0] / 2;
      buf0 := buf0 + 1;
      SteepHead(x, over0, 0, f1);
      var w0, w1 := curr[wndCurr], curr[wndCurr + 1];
      wndCurr := wndCurr + 2;
      var t0, t1 := MulShift32(w0, b[buf1]), MulShift32(w1, b[buf1]);
      buf1 := buf1 - 1;
      PlainTail(x, over0, w0, w1, t0, t1);
      Pass(x, over0, 0, f1, t0, t1, over, pcm, ch);
      over0, over1, i := over0 + 1, over1 - 1, i - 1;
    }
    while over0 < over1
      invariant 448 <= over0 <= 512 && over1 == 1023 - over0 && buf0 == 512 + over0 && buf1 == 511 - over0
      invariant wndCurr == 2 * over0 && wndPrev == 2 * (over0 - 448) && Passed(x, over0, over, pcm, ch)
      invariant forall n, c :: 0 <= n < 1024 && 0 <= c < pcm.Length1 && c != ch ==> pcm[n, c] == old(pcm[n, c])
    {
      var w0, w1 := prev[wndPrev], prev[wndPrev + 1];
      wndPrev := wndPrev + 2;
      var f0, f1 := MulShift32(w0, b[buf0]), MulShift32(w1, b[buf0]);
      buf0 := buf0 + 1;
      SteepHead(x, over0, f0, f1);
      w0, w1 := curr[wndCurr], curr[wndCurr + 1];
      wndCurr := wndCurr + 2;
      var t0, t1 := MulShift32(w0, b[buf1]), MulShift32(w1, b[buf1]);
      buf1 := buf1 - 1;
      PlainTail(x, over0, w0, w1, t0, t1);
      Pass(x, over0, f0, f1, t0, t1, over, pcm, ch);
      over0, over1 := over0 + 1, over1 - 1;
    }
    PassesEnd(x, over, pcm, ch);
  }
}
