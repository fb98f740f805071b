/** codec/aacdecode/imdct.c, DecWindowOverlapShort: eight blocks of 256 windowed samples, 128 apart
    from sample 448 on, added in place in one overlap buffer. */
module ShortBlocks {
  import opened Fixed
  import opened Windowing

  /** What one call knows: old overlap, old output column, slopes and DCT outputs of the blocks. */
  datatype Call = Call(o: seq<int>, col: seq<int>, prev: Slope, curr: Slope, b: seq<int>)
  {
    ghost predicate Valid()
    {
      && |o| == |col| == |b| == 1024 && prev.Valid() && curr.Valid()
      && prev.Plain? && curr.Plain? && prev.Size() == curr.Size() == 128
    }

    function BlockHead(k: nat, i: nat): int
      requires Valid() && k < 8 && i < 128
    {
      Head(if k == 0 then prev else curr, b[128 * k..128 * k + 128], i)
    }

    function BlockTail(k: nat, i: nat): int
      requires Valid() && k < 8 && i < 128
    {
      Tail(curr, b[128 * k..128 * k + 128], i)
    }

    /** Windowed block k at sample i of its 256, nothing outside them. */
    function Block(k: nat, i: int): int
      requires Valid() && k < 8
    {
      if 0 <= i < 128 then BlockHead(k, i) else if 128 <= i < 256 then BlockTail(k, i - 128) else 0
    }

    /** The sum of the first k blocks at sample n of the frame and the next. */
    function Sum(k: nat, n: nat): int
      requires Valid() && k <= 8
    {
      if k == 0 then 0 else Sum(k - 1, n) + Block(k - 1, n - (448 + 128 * (k - 1)))
    }

    lemma {:induction false} SumBefore(k: nat, n: nat)
      requires Valid() && k <= 8 && n < 448
      ensures Sum(k, n) == 0
    {
      if k > 0 { SumBefore(k - 1, n); }
    }

    lemma {:induction false} SumAfter(k: nat, n: nat)
      requires Valid() && k <= 8 && n >= 576 + 128 * k
      ensures Sum(k, n) == 0
    {
      if k > 0 { SumAfter(k - 1, n); }
    }

    /** What block k adds: its head where the blocks before it still ring, its tail beyond them,
        nothing before its start. */
    lemma SumStep(k: nat, i: nat)
      requires Valid() && k < 8 && i < 128
      ensures Sum(k + 1, 448 + 128 * k + i) == Sum(k, 448 + 128 * k + i) + BlockHead(k, i)
      ensures Sum(k + 1, 576 + 128 * k + i) == BlockTail(k, i)
    {
      hide BlockHead, BlockTail;
      SumAfter(k, 576 + 128 * k + i);
      SumUnfold(k, 448 + 128 * k + i);
      SumUnfold(k, 576 + 128 * k + i);
    }

    lemma SumUnfold(k: nat, n: nat)
      requires Valid() && k < 8
      ensures Sum(k + 1, n) == Sum(k, n) + Block(k, n - (448 + 128 * k))
    {
    }

    lemma SumSettled(k: nat, n: nat)
      requires Valid() && k < 8 && n < 448 + 128 * k
      ensures Sum(k + 1, n) == Sum(k, n)
    {
    }
  }

  /** What a pass computes on block k. */
  lemma HeadPair(x: Call, k: nat, j: nat, w0: int, w1: int, f0: int, f1: int)
    requires x.Valid() && k < 8 && j < 64
    requires var t := (if k == 0 then x.prev else x.curr).table; w0 == t[2 * j] && w1 == t[2 * j + 1]
    requires f0 == MulShift32(w0, x.b[128 * k + 64 + j]) && f1 == MulShift32(w1, x.b[128 * k + 64 + j])
    ensures x.BlockHead(k, j) == -f0 && x.BlockHead(k, 127 - j) == f1
  {
    hide MulShift32;
    var w := if k == 0 then x.prev else x.curr;
    StoredPair(w.table, j);
    PairOfHead(w, x.b[128 * k..128 * k + 128], j);
  }

  lemma TailPair(x: Call, k: nat, j: nat, w0: int, w1: int, t0: int, t1: int)
    requires x.Valid() && k < 8 && j < 64 && w0 == x.curr.table[2 * j] && w1 == x.curr.table[2 * j + 1]
    requires t0 == MulShift32(w0, x.b[128 * k + 63 - j]) && t1 == MulShift32(w1, x.b[128 * k + 63 - j])
    ensures x.BlockTail(k, 127 - j) == t0 && x.BlockTail(k, j) == t1
  {
    hide MulShift32;
    StoredPair(x.curr.table, j);
    PairOfTail(x.curr, x.b[128 * k..128 * k + 128], j);
  }

  predicate Outer(j: nat, i: int) { i < j || i > 127 - j }

  // ---- the stages ----

  /** The output once k blocks are in: everything before the next block is final. */
  ghost predicate Sounded(x: Call, k: nat, pcm: array2<int>, ch: nat)
    reads pcm
  {
    && x.Valid() && k <= 8 && pcm.Length0 == 1024 && ch < pcm.Length1
    && forall n :: 0 <= n < 1024 ==> pcm[n, ch] == if n < 448 + 128 * k then Out(x.o[n] + x.Sum(k, n)) else x.col[n]
  }

  /** The overlap buffer while blocks still reach into this frame: the last tail sits in the slots
      just vacated, the old overlap beyond them is untouched. */
  ghost predicate Ringing(x: Call, k: nat, over: array<int>)
    reads over
  {
    && x.Valid() && k <= 4 && over.Length == 1024
    && (k > 0 ==> forall n :: 320 + 128 * k <= n < 448 + 128 * k ==> over[n] == x.Sum(k, n + 128))
    && (forall n :: 448 + 128 * k <= n < 1024 ==> over[n] == x.o[n])
  }

  /** Afterwards it holds the part of the sum past the frame. */
  ghost predicate Saved(x: Call, k: nat, over: array<int>)
    reads over
  {
    && x.Valid() && 5 <= k <= 8 && over.Length == 1024
    && forall m :: 0 <= m < 128 * k - 448 ==> over[m] == x.Sum(k, 1024 + m)
  }

  // ---- within one block ----

  /** j passes into block k < 4: the outer j samples on each side of its head are out, and their slots
      hold the block's tail. */
  ghost predicate Within(x: Call, k: nat, j: nat, over: array<int>, pcm: array2<int>, ch: nat)
    reads over, pcm
  {
    && x.Valid() && k < 4 && j <= 64 && over.Length == pcm.Length0 == 1024 && ch < pcm.Length1
    && (forall n :: 0 <= n < 1024 ==>
        pcm[n, ch] == if n < 448 + 128 * k || (n < 576 + 128 * k && Outer(j, n - (448 + 128 * k))) then Out(x.o[n] + x.Sum(k + 1, n)) else x.col[n])
    && (k > 0 ==> forall n :: 320 + 128 * k <= n < 448 + 128 * k ==> over[n] == x.Sum(k, n + 128))
    && (forall n :: 448 + 128 * k <= n < 1024 ==>
        over[n] == if n < 576 + 128 * k && Outer(j, n - (448 + 128 * k)) then x.Sum(k + 1, n + 128) else x.o[n])
  }

  lemma Enter(x: Call, k: nat, over: array<int>, pcm: array2<int>, ch: nat)
    requires k < 4 && Sounded(x, k, pcm, ch) && Ringing(x, k, over)
    ensures Within(x, k, 0, over, pcm, ch)
  {
    hide Call.Sum, Out;
    forall n: nat | n < 448 + 128 * k ensures x.Sum(k + 1, n) == x.Sum(k, n) { x.SumSettled(k, n); }
  }

  lemma Leave(x: Call, k: nat, over: array<int>, pcm: array2<int>, ch: nat)
    requires Within(x, k, 64, over, pcm, ch)
    ensures Sounded(x, k + 1, pcm, ch) && Ringing(x, k + 1, over)
  {
    hide Call.Sum, Out;
  }

  /** One pass in block k < 4. The carries are what the last short block left. */
  method Pass(ghost x: Call, ghost k: nat, ghost j: nat, over0: nat, over1: nat, carry0: int, carry1: int,
              f0: int, f1: int, t0: int, t1: int, over: array<int>, pcm: array2<int>, ch: nat)
    requires j < 64 && Within(x, k, j, over, pcm, ch) && over0 == 448 + 128 * k + j && over1 == 448 + 128 * k + (127 - j)
    requires carry0 == x.Sum(k, over0) && carry1 == x.Sum(k, over1)
    requires x.BlockHead(k, j) == -f0 && x.BlockHead(k, 127 - j) == f1
    requires x.BlockTail(k, 127 - j) == t0 && x.BlockTail(k, j) == t1
    modifies over, pcm
    ensures Within(x, k, j + 1, over, pcm, ch)
    ensures forall n, c :: 0 <= n < 1024 && 0 <= c < pcm.Length1 && c != ch ==> pcm[n, c] == old(pcm[n, c])
  {
    hide Call.Sum, Call.BlockHead, Call.BlockTail, Out;
    x.SumStep(k, j);
    x.SumStep(k, 127 - j);
    var sample := carry0 + over[over0];
    pcm[over0, ch] := Out(sample - f0);
    sample := carry1 + over[over1];
    pcm[over1, ch] := Out(sample + f1);
    over[over1] := t0;
    over[over0] := t1;
  }

  /** The samples before the first block: the old overlap alone. */
  method LeadIn(ghost x: Call, over: array<int>, pcm: array2<int>, ch: nat)
    requires x.Valid() && over.Length == pcm.Length0 == 1024 && ch < pcm.Length1
    requires (forall n :: 0 <= n < 1024 ==> over[n] == x.o[n] && pcm[n, ch] == x.col[n])
    modifies pcm
    ensures Sounded(x, 0, pcm, ch)
    ensures forall n, c :: 0 <= n < 1024 && 0 <= c < pcm.Length1 && c != ch ==> pcm[n, c] == old(pcm[n, c])
  {
    hide Out;
    var i, over0, pcm0 := 448, 0, 0;
    while i != 0
      invariant 0 <= i <= 448 && i % 2 == 0 && over0 == pcm0 == 448 - i
      invariant forall n :: 0 <= n < 1024 ==> pcm[n, ch] == if n < pcm0 then Out(x.o[n]) else x.col[n]
      invariant forall n, c :: 0 <= n < 1024 && 0 <= c < pcm.Length1 && c != ch ==> pcm[n, c] == old(pcm[n, c])
      decreases i
    {
      pcm[pcm0, ch] := Out(over[over0]);
      pcm[pcm0 + 1, ch] := Out(over[over0 + 1]);
      over0, pcm0, i := over0 + 2, pcm0 + 2, i - 2;
    }
  }

  /** Block 0 rises on the previous frame's window. */
  method FirstBlock(ghost x: Call, over: array<int>, pcm: array2<int>, ch: nat, b: seq<int>, prev: seq<int>, curr: seq<int>)
    requires Sounded(x, 0, pcm, ch) && Ringing(x, 0, over) && x.b == b && x.prev == Plain(prev) && x.curr == Plain(curr)
    modifies over, pcm
    ensures Sounded(x, 1, pcm, ch) && Ringing(x, 1, over)
    ensures forall n, c :: 0 <= n < 1024 && 0 <= c < pcm.Length1 && c != ch ==> pcm[n, c] == old(pcm[n, c])
  {
    hide Out, MulShift32, Call.Sum, Call.BlockHead, Call.BlockTail, Sounded, Ringing;
    Enter(x, 0, over, pcm, ch);
    var over0, over1, buf0, buf1, wndPrev, wndCurr := 448, 575, 64, 63, 0, 0;
    ghost var j := 0;
    while over0 < over1
      invariant 0 <= j <= 64 && over0 == 448 + j && over1 == 575 - j && buf0 == 64 + j && buf1 == 63 - j && wndPrev == wndCurr == 2 * j
      invariant Within(x, 0, j, over, pcm, ch)
      invariant forall n, c :: 0 <= n < 1024 && 0 <= c < pcm.Length1 && c != ch ==> pcm[n, c] == old(pcm[n, c])
    {
      hide Within;
      var w0, w1 := prev[wndPrev], prev[wndPrev + 1];
      wndPrev := wndPrev + 2;
      var f0, f1 := MulShift32(w0, b[buf0]), MulShift32(w1, b[buf0]);
      buf0 := buf0 + 1;
      HeadPair(x, 0, j, w0, w1, f0, f1);
      w0, w1 := curr[wndCurr], curr[wndCurr + 1];
      wndCurr := wndCurr + 2;
      var t0, t1 := MulShift32(w0, b[buf1]), MulShift32(w1, b[buf1]);
      buf1 := buf1 - 1;
      TailPair(x, 0, j, w0, w1, t0, t1);
      assert x.Sum(0, over0) == x.Sum(0, over1) == 0 by { SumNone(x, over0); SumNone(x, over1); }
      Pass(x, 0, j, over0, over1, 0, 0, f0, f1, t0, t1, over, pcm, ch);
      over0, over1, j := over0 + 1, over1 - 1, j + 1;
    }
    Leave(x, 0, over, pcm, ch);
  }

  lemma SumNone(x: Call, n: nat)
    requires x.Valid()
    ensures x.Sum(0, n) == 0
  {
  }

  /** Blocks 1 to 3. */
  method InnerBlock(ghost x: Call, k: nat, over: array<int>, pcm: array2<int>, ch: nat, b: seq<int>, curr: seq<int>)
    requires 1 <= k <= 3 && Sounded(x, k, pcm, ch) && Ringing(x, k, over) && x.b == b && x.curr == Plain(curr)
    modifies over, pcm
    ensures Sounded(x, k + 1, pcm, ch) && Ringing(x, k + 1, over)
    ensures forall n, c :: 0 <= n < 1024 && 0 <= c < pcm.Length1 && c != ch ==> pcm[n, c] == old(pcm[n, c])
  {
    hide Out, MulShift32, Call.Sum, Call.BlockHead, Call.BlockTail, Sounded, Ringing;
    Enter(x, k, over, pcm, ch);
    var over0, buf0, wndCurr := 448 + 128 * k, 128 * k + 64, 0;
    var over1, buf1 := over0 + 127, buf0 - 1;
    ghost var j := 0;
    while over0 < over1
      invariant 0 <= j <= 64 && over0 == 448 + 128 * k + j && over1 == 575 + 128 * k - j
      invariant buf0 == 128 * k + 64 + j && buf1 == 128 * k + 63 - j && wndCurr == 2 * j
      invariant Within(x, k, j, over, pcm, ch)
      invariant forall n, c :: 0 <= n < 1024 && 0 <= c < pcm.Length1 && c != ch ==> pcm[n, c] == old(pcm[n, c])
    {
      hide Within;
      var w0, w1 := curr[wndCurr], curr[wndCurr + 1];
      wndCurr := wndCurr + 2;
      var f0, f1 := MulShift32(w0, b[buf0]), MulShift32(w1, b[buf0]);
      buf0 := buf0 + 1;
      var t0, t1 := MulShift32(w0, b[buf1]), MulShift32(w1, b[buf1]);
      buf1 := buf1 - 1;
      HeadPair(x, k, j, w0, w1, f0, f1);
      TailPair(x, k, j, w0, w1, t0, t1);
      Carried(x, k, j, over, pcm, ch);
      Pass(x, k, j, over0, over1, over[over0 - 128], over[over1 - 128], f0, f1, t0, t1, over, pcm, ch);
      over0, over1, j := over0 + 1, over1 - 1, j + 1;
    }
    Leave(x, k, over, pcm, ch);
  }

  lemma Carried(x: Call, k: nat, j: nat, over: array<int>, pcm: array2<int>, ch: nat)
    requires 1 <= k && j < 64 && Within(x, k, j, over, pcm, ch)
    ensures over[320 + 128 * k + j] == x.Sum(k, 448 + 128 * k + j)
    ensures over[447 + 128 * k - j] == x.Sum(k, 575 + 128 * k - j)
  {
    hide Call.Sum, Out;
  }

  // ---- block 4, where the frame ends ----

  ghost predicate Within4(x: Call, j: nat, over: array<int>, pcm: array2<int>, ch: nat)
    reads over, pcm
  {
    && x.Valid() && j <= 64 && over.Length == pcm.Length0 == 1024 && ch < pcm.Length1
    && (forall n :: 0 <= n < 1024 ==> pcm[n, ch] == if n < 960 + j then Out(x.o[n] + x.Sum(5, n)) else x.col[n])
    && (forall n :: 832 <= n < 960 ==> over[n] == x.Sum(4, n + 128))
    && (forall n :: 960 <= n < 1024 ==> over[n] == x.o[n])
    && (forall m :: 0 <= m < 192 && (64 - j <= m < 64 + j || m > 191 - j) ==> over[m] == x.Sum(5, 1024 + m))
  }

  method Pass4(ghost x: Call, ghost j: nat, pcm0: nat, over0: nat, over1: nat, f0: int, f1: int, t0: int, t1: int,
               over: array<int>, pcm: array2<int>, ch: nat)
    requires j < 64 && Within4(x, j, over, pcm, ch) && pcm0 == 960 + j && over0 == 64 + j && over1 == 191 - j
    requires x.BlockHead(4, j) == -f0 && x.BlockHead(4, 127 - j) == f1
    requires x.BlockTail(4, 127 - j) == t0 && x.BlockTail(4, j) == t1
    modifies over, pcm
    ensures Within4(x, j + 1, over, pcm, ch)
    ensures forall n, c :: 0 <= n < 1024 && 0 <= c < pcm.Length1 && c != ch ==> pcm[n, c] == old(pcm[n, c])
  {
    hide Call.Sum, Call.BlockHead, Call.BlockTail, Out;
    x.SumStep(4, j);
    x.SumStep(4, 127 - j);
    var sample := over[over0 + 768] + over[over0 + 896];
    pcm[pcm0, ch] := Out(sample - f0);
    over[over1 - 128] := over[over1 + 768] + f1;
    over[over1] := t0;
    over[over0] := t1;
  }

  lemma Enter4(x: Call, over: array<int>, pcm: array2<int>, ch: nat)
    requires Sounded(x, 4, pcm, ch) && Ringing(x, 4, over)
    ensures Within4(x, 0, over, pcm, ch)
  {
    hide Call.Sum, Out;
    forall n: nat | n < 960 ensures x.Sum(5, n) == x.Sum(4, n) { x.SumSettled(4, n); }
  }

  method MiddleBlock(ghost x: Call, over: array<int>, pcm: array2<int>, ch: nat, b: seq<int>, curr: seq<int>)
    requires Sounded(x, 4, pcm, ch) && Ringing(x, 4, over) && x.b == b && x.curr == Plain(curr)
    modifies over, pcm
    ensures Sounded(x, 5, pcm, ch) && Saved(x, 5, over)
    ensures forall n, c :: 0 <= n < 1024 && 0 <= c < pcm.Length1 && c != ch ==> pcm[n, c] == old(pcm[n, c])
  {
    hide Out, MulShift32, Call.Sum, Call.BlockHead, Call.BlockTail;
    Enter4(x, over, pcm, ch);
    var pcm0, over0, over1, buf0, buf1, wndCurr := 960, 64, 191, 576, 575, 0;
    ghost var j := 0;
    while over0 < over1
      invariant 0 <= j <= 64 && pcm0 == 960 + j && over0 == 64 + j && over1 == 191 - j && buf0 == 576 + j && buf1 == 575 - j && wndCurr == 2 * j
      invariant Within4(x, j, over, pcm, ch)
      invariant forall n, c :: 0 <= n < 1024 && 0 <= c < pcm.Length1 && c != ch ==> pcm[n, c] == old(pcm[n, c])
    {
      hide Within4;
      var w0, w1 := curr[wndCurr], curr[wndCurr + 1];
      wndCurr := wndCurr + 2;
      var f0, f1 := MulShift32(w0, b[buf0]), MulShift32(w1, b[buf0]);
      buf0 := buf0 + 1;
      var t0, t1 := MulShift32(w0, b[buf1]), MulShift32(w1, b[buf1]);
      buf1 := buf1 - 1;
      HeadPair(x, 4, j, w0, w1, f0, f1);
      TailPair(x, 4, j, w0, w1, t0, t1);
      Pass4(x, j, pcm0, over0, over1, f0, f1, t0, t1, over, pcm, ch);
      pcm0, over0, over1, j := pcm0 + 1, over0 + 1, over1 - 1, j + 1;
    }
  }

  // ---- blocks 5 to 7, wholly past the frame ----

  ghost predicate WithinHigh(x: Call, k: nat, j: nat, over: array<int>)
    reads over
  {
    && x.Valid() && 5 <= k <= 7 && j <= 64 && over.Length == 1024
    && (forall m :: 0 <= m < 128 * k - 448 ==>
        over[m] == x.Sum(if m < 128 * k - 576 || Outer(j, m - (128 * k - 576)) then k + 1 else k, 1024 + m))
    && (forall m :: 128 * k - 448 <= m < 128 * k - 320 && Outer(j, m - (128 * k - 448)) ==> over[m] == x.Sum(k + 1, 1024 + m))
  }

  method PassHigh(ghost x: Call, ghost k: nat, ghost j: nat, over0: nat, over1: nat, f0: int, f1: int, t0: int, t1: int, over: array<int>)
    requires j < 64 && WithinHigh(x, k, j, over) && over0 == 128 * k - 448 + j && over1 == 128 * k - 321 - j
    requires x.BlockHead(k, j) == -f0 && x.BlockHead(k, 127 - j) == f1
    requires x.BlockTail(k, 127 - j) == t0 && x.BlockTail(k, j) == t1
    modifies over
    ensures WithinHigh(x, k, j + 1, over)
  {
    hide Call.Sum, Call.BlockHead, Call.BlockTail;
    x.SumStep(k, j);
    x.SumStep(k, 127 - j);
    over[over0 - 128] := over[over0 - 128] - f0;
    over[over1 - 128] := over[over1 - 128] + f1;
    over[over1] := t0;
    over[over0] := t1;
  }

  lemma EnterHigh(x: Call, k: nat, over: array<int>)
    requires k < 8 && Saved(x, k, over)
    ensures WithinHigh(x, k, 0, over)
  {
    hide Call.Sum;
    forall n: nat | n < 448 + 128 * k ensures x.Sum(k + 1, n) == x.Sum(k, n) { x.SumSettled(k, n); }
  }

  method HighBlock(ghost x: Call, k: nat, over: array<int>, b: seq<int>, curr: seq<int>)
    requires 5 <= k <= 7 && Saved(x, k, over) && x.b == b && x.curr == Plain(curr)
    modifies over
    ensures Saved(x, k + 1, over)
  {
    hide MulShift32, Call.Sum, Call.BlockHead, Call.BlockTail;
    EnterHigh(x, k, over);
    var over0, buf0, wndCurr := 128 * k - 448, 128 * k + 64, 0;
    var over1, buf1 := over0 + 127, buf0 - 1;
    ghost var j := 0;
    while over0 < over1
      invariant 0 <= j <= 64 && over0 == 128 * k - 448 + j && over1 == 128 * k - 321 - j
      invariant buf0 == 128 * k + 64 + j && buf1 == 128 * k + 63 - j && wndCurr == 2 * j
      invariant WithinHigh(x, k, j, over)
    {
      hide WithinHigh;
      var w0, w1 := curr[wndCurr], curr[wndCurr + 1];
      wndCurr := wndCurr + 2;
      var f0, f1 := MulShift32(w0, b[buf0]), MulShift32(w1, b[buf0]);
      buf0 := buf0 + 1;
      var t0, t1 := MulShift32(w0, b[buf1]), MulShift32(w1, b[buf1]);
      buf1 := buf1 - 1;
      HeadPair(x, k, j, w0, w1, f0, f1);
      TailPair(x, k, j, w0, w1, t0, t1);
      PassHigh(x, k, j, over0, over1, f0, f1, t0, t1, over);
      over0, over1, j := over0 + 1, over1 - 1, j + 1;
    }
  }

  method ClearRest(ghost x: Call, over: array<int>)
    requires Saved(x, 8, over)
    modifies over
    ensures forall m :: 0 <= m < 1024 ==> over[m] == x.Sum(8, 1024 + m)
  {
    hide Call.Sum;
    forall n: nat | 1600 <= n ensures x.Sum(8, n) == 0 { x.SumAfter(8, n); }
    var i, over0 := 448, 576;
    while i > 0
      invariant 0 <= i <= 448 && i % 4 == 0 && over0 == 1024 - i
      invariant forall m :: 0 <= m < over0 ==> over[m] == x.Sum(8, 1024 + m)
    {
      over[over0], over[over0 + 1], over[over0 + 2], over[over0 + 3] := 0, 0, 0, 0;
      over0, i := over0 + 4, i - 4;
    }
  }

  // ---- the whole routine ----

  /** The frame's output and what it leaves for the next. */
  ghost predicate Done(x: Call, over: array<int>, pcm: array2<int>, ch: nat)
    reads over, pcm
  {
    && x.Valid() && over.Length == pcm.Length0 == 1024 && ch < pcm.Length1
    && (forall n :: 0 <= n < 1024 ==> pcm[n, ch] == Out(x.o[n] + x.Sum(8, n)))
    && (forall n :: 0 <= n < 1024 ==> over[n] == x.Sum(8, 1024 + n))
  }

  lemma SoundedAll(x: Call, pcm: array2<int>, ch: nat)
    requires Sounded(x, 5, pcm, ch)
    ensures forall n :: 0 <= n < 1024 ==> pcm[n, ch] == Out(x.o[n] + x.Sum(8, n))
  {
    hide Call.Sum, Out;
    forall n: nat | n < 1024 ensures x.Sum(8, n) == x.Sum(5, n) {
      x.SumSettled(5, n);
      x.SumSettled(6, n);
      x.SumSettled(7, n);
    }
  }

  method DecWindowOverlapShort(b: seq<int>, over: array<int>, pcm: array2<int>, ch: nat, wnd: Windows, winTypeCurr: nat, winTypePrev: nat)
    requires |b| == over.Length == pcm.Length0 == 1024 && ch < pcm.Length1 && wnd.Valid()
    modifies over, pcm
    ensures Done(Call(old(over[..]), old(Column(pcm, ch)), Plain(wnd.Short(winTypePrev)), Plain(wnd.Short(winTypeCurr)), b), over, pcm, ch)
    ensures forall n, c :: 0 <= n < 1024 && 0 <= c < pcm.Length1 && c != ch ==> pcm[n, c] == old(pcm[n, c])
  {
    hide Out, Call.Sum, Sounded, Ringing, Saved;
    var prev, curr := wnd.Short(winTypePrev), wnd.Short(winTypeCurr);
    ghost var x := Call(over[..], Column(pcm, ch), Plain(prev), Plain(curr), b);
    LeadIn(x, over, pcm, ch);
    assert Ringing(x, 0, over) by { StillRinging(x, over); }
    FirstBlock(x, over, pcm, ch, b, prev, curr);
    var k := 1;
    while k <= 3
      invariant 1 <= k <= 4 && Sounded(x, k, pcm, ch) && Ringing(x, k, over)
      invariant forall n, c :: 0 <= n < 1024 && 0 <= c < pcm.Length1 && c != ch ==> pcm[n, c] == old(pcm[n, c])
    {
      InnerBlock(x, k, over, pcm, ch, b, curr);
      k := k + 1;
    }
    MiddleBlock(x, over, pcm, ch, b, curr);
    SoundedAll(x, pcm, ch);
    k := 5;
    while k <= 7
      invariant 5 <= k <= 8 && Saved(x, k, over)
      modifies over
    {
      HighBlock(x, k, over, b, curr);
      k := k + 1;
    }
    ClearRest(x, over);
  }

  lemma StillRinging(x: Call, over: array<int>)
    requires x.Valid() && over.Length == 1024 && x.o == over[..]
    ensures Ringing(x, 0, over)
  {
  }
}
