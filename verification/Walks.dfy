/** The walks over decoded coefficients: codec/aacdecode/dequant.c and codec/aacdecode/pns.c,
    and the M/S mask that codec/aacdecode/decelmnt.c packs and pns.c unpacks. All of them are
    specified over the layout the spectral decoder fills. */
module MsMask {
  import opened Fixed
  import opened Bitstream

  const MAX_MS_MASK_BYTES := 15

  /** Bit e of the packed mask, least significant bit of each byte first. */
  function MaskBit(mask: seq<nat>, e: nat): nat
    requires e / 8 < |mask|
  {
    Down(mask[e / 8], e % 8) % 2
  }

  lemma MaskAppend(byte: nat, off: nat, bit: nat, i: nat)
    requires byte < Pow2(off) && bit <= 1 && i <= off
    ensures byte + Up(bit, off) < Pow2(off + 1)
    ensures Down(byte + Up(bit, off), i) % 2 == if i == off then bit else Down(byte, i) % 2
  {
    UpBound(bit, 1, off);
    if i == off {
      DownField(bit, byte, off);
    } else {
      MaskLow(byte, off, bit, i);
    }
  }

  lemma {:induction false} MaskLow(byte: nat, off: nat, bit: nat, i: nat)
    requires i < off
    ensures Down(byte + Up(bit, off), i) % 2 == Down(byte, i) % 2
  {
    if i > 0 {
      MaskLow(byte / 2, off - 1, bit, i - 1);
      assert (byte + Up(bit, off)) / 2 == byte / 2 + Up(bit, off - 1);
    }
  }

  /** The mask packing of DecodeChannelPairElement: one bit for each band of each group, in order. The
      packer opens the next byte after every eighth bit, so it stays inside the bytes it has if and only
      if they hold more than the bits; with one byte too few the parse is given up at the store. */
  method PackMask(bsi: BitReader, numWinGroup: nat, maxSFB: nat, msMaskBits: array<nat>) returns (inside: bool)
    requires bsi.Valid() && msMaskBits.Length >= 1
    modifies bsi, msMaskBits
    ensures bsi.Valid() && bsi.View() == old(bsi.View())
    ensures inside <==> numWinGroup * maxSFB < 8 * msMaskBits.Length
    ensures var n := if inside then numWinGroup * maxSFB else 8 * msMaskBits.Length;
      bsi.Pos() == old(bsi.Pos()) + n && Packed(old(bsi.View()), old(bsi.Pos()), n, msMaskBits[..])
  {
    hide Bits, MaskBit, Packed;
    ghost var d, p := bsi.View(), bsi.Pos();
    var maskPtr, maskOffset := 0, 0;
    msMaskBits[0] := 0;
    NonePacked(d, p, msMaskBits[..]);
    inside := true;
    var gp := 0;
    ghost var e := 0;
    while gp < numWinGroup
      invariant 0 <= gp <= numWinGroup && e == gp * maxSFB && inside
      invariant PackState(bsi, d, p, e, maskPtr, maskOffset, msMaskBits)
    {
      RowFits(gp, numWinGroup, maxSFB);
      var sfb := 0;
      while sfb < maxSFB
        invariant 0 <= sfb <= maxSFB && e == gp * maxSFB + sfb && inside
        invariant PackState(bsi, d, p, e, maskPtr, maskOffset, msMaskBits)
      {
        maskPtr, maskOffset, inside := PackBit(bsi, d, p, e, maskPtr, maskOffset, msMaskBits);
        e := e + 1;
        if !inside { return; }
        sfb := sfb + 1;
      }
      gp := gp + 1;
    }
  }

  /** The 120 bands of eight groups of fifteen do not stay inside the decoder's fifteen bytes. */
  method FullMask(bsi: BitReader, msMaskBits: array<nat>) returns (inside: bool)
    requires bsi.Valid() && msMaskBits.Length == MAX_MS_MASK_BYTES
    modifies bsi, msMaskBits
    ensures !inside && bsi.Valid() && bsi.Pos() == old(bsi.Pos()) + 120
  {
    inside := PackMask(bsi, 8, 15, msMaskBits);
  }

  lemma RowFits(gp: nat, groups: nat, maxSFB: nat)
    requires gp < groups
    ensures gp * maxSFB + maxSFB == (gp + 1) * maxSFB <= groups * maxSFB
  {
  }

  /** The first n bits of the mask are those of the stream from p on. */
  ghost predicate Packed(d: seq<Byte>, p: nat, n: nat, mask: seq<nat>)
  {
    n <= 8 * |mask| && forall i :: 0 <= i < n ==> MaskBit(mask, i) == Bits(d, p + i, 1)
  }

  lemma NonePacked(d: seq<Byte>, p: nat, mask: seq<nat>)
    ensures Packed(d, p, 0, mask)
  {
  }

  ghost predicate PackState(bsi: BitReader, d: seq<Byte>, p: nat, e: nat, maskPtr: nat, maskOffset: nat, bits: array<nat>)
    reads bsi, bits
  {
    && bsi.Valid() && bsi.View() == d && bsi.Pos() == p + e
    && maskPtr == e / 8 < bits.Length && maskOffset == e % 8
    && bits[maskPtr] < Pow2(maskOffset)
    && Packed(d, p, e, bits[..])
  }

  /** One bit of the packing loop. */
  method PackBit(bsi: BitReader, ghost d: seq<Byte>, ghost p: nat, ghost e: nat, maskPtr: nat, maskOffset: nat, bits: array<nat>)
    returns (ptr: nat, off: nat, inside: bool)
    requires PackState(bsi, d, p, e, maskPtr, maskOffset, bits)
    modifies bsi, bits
    ensures inside <==> e + 1 < 8 * bits.Length
    ensures inside ==> PackState(bsi, d, p, e + 1, ptr, off, bits)
    ensures bsi.Valid() && bsi.View() == d && bsi.Pos() == p + e + 1 && Packed(d, p, e + 1, bits[..])
  {
    hide Bits, MaskBit, Packed, Pow2, Up;
    ghost var before := bits[..];
    var currBit := bsi.GetBits(1);
    assert currBit <= 1 by { FirstPower(); }
    ByteNext(before, bits.Length, d, p, e, maskPtr, maskOffset, currBit);
    bits[maskPtr] := bits[maskPtr] + Up(currBit, maskOffset);
    ptr, off := maskPtr, maskOffset + 1;
    inside := true;
    assert bits[..] == before[maskPtr := before[maskPtr] + Up(currBit, maskOffset)];
    if off == 8 {
      ptr, off := ptr + 1, 0;
      inside := ptr < bits.Length;
      if inside {
        LaterByte(bits[..], d, p, e + 1, ptr);
        bits[ptr] := 0;
        assert bits[..] == before[maskPtr := before[maskPtr] + Up(currBit, maskOffset)][ptr := 0];
      }
    }
  }

  lemma FirstPower()
    ensures Pow2(1) == 2
  {
  }

  /** The bit joins the mask. */
  lemma ByteNext(mask: seq<nat>, size: nat, d: seq<Byte>, p: nat, e: nat, ptr: nat, off: nat, bit: nat)
    requires |mask| == size && ptr == e / 8 < size && off == e % 8 && mask[ptr] < Pow2(off) && bit <= 1
    requires Packed(d, p, e, mask) && bit == Bits(d, p + e, 1)
    ensures Packed(d, p, e + 1, mask[ptr := mask[ptr] + Up(bit, off)]) && mask[ptr] + Up(bit, off) < Pow2(off + 1)
  {
    hide Bits, Pow2, Up, Down;
    var byte := mask[ptr];
    var now := mask[ptr := byte + Up(bit, off)];
    MaskAppend(byte, off, bit, off);
    forall i | 0 <= i <= e ensures MaskBit(now, i) == Bits(d, p + i, 1) {
      if i / 8 == ptr {
        MaskAppend(byte, off, bit, i % 8);
        if i < e { assert MaskBit(mask, i) == Bits(d, p + i, 1); }
      } else {
        assert MaskBit(mask, i) == Bits(d, p + i, 1) && now[i / 8] == mask[i / 8];
      }
    }
  }

  /** A byte no bit has reached yet can be cleared. */
  lemma LaterByte(mask: seq<nat>, d: seq<Byte>, p: nat, e: nat, ptr: nat)
    requires Packed(d, p, e, mask) && e <= 8 * ptr < 8 * |mask|
    ensures Packed(d, p, e, mask[ptr := 0])
  {
    hide Bits, Down;
    var now := mask[ptr := 0];
    forall i | 0 <= i < e ensures MaskBit(now, i) == Bits(d, p + i, 1) {
      assert MaskBit(mask, i) == Bits(d, p + i, 1) && now[i / 8] == mask[i / 8];
    }
  }
}

module Dequant {
  import opened Fixed
  import opened Layout
  import opened Power43

  // ---- guard bits ----

  /** Bitwise or. */
  function Or(a: nat, b: nat): nat
    decreases a + b
  {
    if a == 0 then b else if b == 0 then a
    else 2 * Or(a / 2, b / 2) + if a % 2 == 1 || b % 2 == 1 then 1 else 0
  }

  /** An or has exactly the leading zeros common to both words. */
  lemma {:induction false} OrBelow(a: nat, b: nat, k: nat)
    ensures Or(a, b) < Pow2(k) <==> a < Pow2(k) && b < Pow2(k)
    decreases k
  {
    if a != 0 && b != 0 {
      if k == 0 {
        OrPositive(a, b);
      } else {
        OrBelow(a / 2, b / 2, k - 1);
      }
    }
  }

  lemma OrPositive(a: nat, b: nat)
    requires a > 0 && b > 0
    ensures Or(a, b) > 0
    decreases a + b
  {
    if a / 2 == 0 || b / 2 == 0 { assert Or(0, b / 2) == b / 2; } else { OrPositive(a / 2, b / 2); }
  }

  /** Every selected sample from lo to hi is below 2^k in magnitude. */
  ghost predicate AllBelow(s: seq<int>, on: seq<bool>, lo: nat, hi: nat, k: nat)
    requires hi <= |s| && hi <= |on|
  {
    forall c :: lo <= c < hi && on[c] ==> Abs(s[c]) < Pow2(k)
  }

  /** The guard-bit mask m has exactly the leading zeros common to the selected samples. */
  ghost predicate MaskOf(m: nat, s: seq<int>, on: seq<bool>, lo: nat, hi: nat)
    requires hi <= |s| && hi <= |on|
  {
    forall k: nat :: m < Pow2(k) <==> AllBelow(s, on, lo, hi, k)
  }

  lemma MaskJoin(m: nat, m': nat, s: seq<int>, on: seq<bool>, lo: nat, mid: nat, hi: nat)
    requires lo <= mid <= hi <= |s| && hi <= |on|
    requires MaskOf(m, s, on, lo, mid) && MaskOf(m', s, on, mid, hi)
    ensures MaskOf(Or(m, m'), s, on, lo, hi)
  {
    forall k: nat ensures Or(m, m') < Pow2(k) <==> AllBelow(s, on, lo, hi, k) {
      OrBelow(m, m', k);
      assert m < Pow2(k) <==> AllBelow(s, on, lo, mid, k);
      assert m' < Pow2(k) <==> AllBelow(s, on, mid, hi, k);
    }
  }

  /** Samples that did not change keep their mask. */
  lemma MaskSame(m: nat, s: seq<int>, s': seq<int>, on: seq<bool>, lo: nat, hi: nat)
    requires hi <= |s| && hi <= |s'| && hi <= |on| && MaskOf(m, s, on, lo, hi)
    requires forall c :: lo <= c < hi ==> s[c] == s'[c]
    ensures MaskOf(m, s', on, lo, hi)
  {
    forall k: nat ensures m < Pow2(k) <==> AllBelow(s', on, lo, hi, k) {
      assert m < Pow2(k) <==> AllBelow(s, on, lo, hi, k);
    }
  }

  lemma MaskNone(s: seq<int>, on: seq<bool>, lo: nat, hi: nat)
    requires lo <= hi <= |s| && hi <= |on| && forall c :: lo <= c < hi ==> !on[c]
    ensures MaskOf(0, s, on, lo, hi)
  {
  }

  lemma MaskOne(s: seq<int>, on: seq<bool>, c: nat)
    requires c < |s| && c < |on| && on[c]
    ensures MaskOf(Abs(s[c]), s, on, c, c + 1)
  {
  }

  lemma OrBound(a: nat, b: nat)
    requires a <= INT_MAX && b <= INT_MAX
    ensures Or(a, b) <= INT_MAX
  {
    Pow2Of32();
    assert Pow2(32) == 2 * Pow2(31);
    OrBelow(a, b, 31);
  }

  // ---- one band ----

  /** Apply the sign of the quantized value. */
  function Signed(v: int, y: int): int { if v < 0 then -y else y }

  /** DequantBlock: each sample becomes its signed magnitude; the result is the guard-bit mask. */
  method DequantBlock(coef: array<int>, off: nat, nSamps: nat, scale: int, ghost on: seq<bool>)
    returns (gbMask: nat)
    requires off + nSamps <= coef.Length == |on|
    requires forall c :: off <= c < off + nSamps ==> on[c] && Abs(coef[c]) <= 16383
    modifies coef
    ensures forall c :: 0 <= c < coef.Length ==>
      coef[c] == if off <= c < off + nSamps then Signed(old(coef[c]), Magnitude(Abs(old(coef[c])), scale)) else old(coef[c])
    ensures gbMask <= INT_MAX && MaskOf(gbMask, coef[..], on, off, off + nSamps)
  {
    hide MaskOf, Or, Pow2, Magnitude;
    gbMask := 0;
    MaskNone(coef[..], on, off, off);
    if nSamps <= 0 { return; }
    var tab4 := Cache(scale);
    var i := off;
    while i < off + nSamps
      invariant off <= i <= off + nSamps
      invariant forall c :: 0 <= c < coef.Length ==>
        coef[c] == if off <= c < i then Signed(old(coef[c]), Magnitude(Abs(old(coef[c])), scale)) else old(coef[c])
      invariant gbMask <= INT_MAX && MaskOf(gbMask, coef[..], on, off, i)
    {
      ghost var before := coef[..];
      var iSamp := coef[i];
      var y := Sample(Abs(iSamp), scale, tab4);
      coef[i] := Signed(iSamp, y);
      MaskSame(gbMask, before, coef[..], on, off, i);
      MaskOne(coef[..], on, i);
      MaskJoin(gbMask, y, coef[..], on, off, i, i + 1);
      OrBound(gbMask, y);
      gbMask := Or(gbMask, y);
      i := i + 1;
    }
  }

  // ---- one channel ----

  /** The entry's coefficients are dequantized: codebooks 0 to 11, since a pulse may have been
      added in an uncoded band. */
  predicate Coded(books: seq<nat>, e: int)
  {
    0 <= e < |books| && books[e] <= 11
  }

  /** What Dequantize makes of coefficient c with quantized value v. */
  ghost function Wanted(f: Frame, books: seq<nat>, sf: seq<int>, c: nat, v: int): int
    requires f.Inside(c) && |books| == |sf|
  {
    if Coded(books, f.Owner(c)) then Signed(v, Magnitude(Abs(v), sf[f.Owner(c)])) else v
  }

  ghost function Selected(f: Frame, books: seq<nat>): (on: seq<bool>)
    requires f.Valid()
    ensures |on| == 1024 && forall c :: 0 <= c < 1024 ==> f.Inside(c) && on[c] == Coded(books, f.Owner(c))
  {
    assert forall c: nat | c < 1024 :: f.Inside(c) by { forall c: nat | c < 1024 ensures f.Inside(c) { f.AllInside(c); } }
    seq(1024, c requires 0 <= c < 1024 => Coded(books, f.Owner(c)))
  }

  /** Some coefficient before ptr belongs to an entry with codebook cb. */
  ghost predicate Used(f: Frame, books: seq<nat>, ptr: nat, cb: nat)
    requires f.Valid() && ptr <= 1024
  {
    exists c: nat :: c < ptr && f.Inside(c) && 0 <= f.Owner(c) < |books| && books[f.Owner(c)] == cb
  }

  /** The walk so far: everything before ptr is as wanted, everything from it on untouched. */
  ghost predicate Walked(f: Frame, books: seq<nat>, sf: seq<int>, before: seq<int>, now: seq<int>, ptr: nat)
  {
    && f.Valid() && |books| == |sf| && |now| == 1024 && Quantized(before) && ptr <= 1024
    && (forall c :: ptr <= c < 1024 ==> now[c] == before[c])
    && (forall c :: 0 <= c < ptr ==> f.Inside(c) && now[c] == Wanted(f, books, sf, c, before[c]))
  }

  /** Twice what the spectral decoder can put out, which leaves room for pulses. */
  ghost predicate Quantized(s: seq<int>)
  {
    |s| == 1024 && forall c :: 0 <= c < 1024 ==> Abs(s[c]) <= 16383
  }

  lemma StillQuantized(f: Frame, books: seq<nat>, sf: seq<int>, before: seq<int>, now: seq<int>, ptr: nat)
    requires Walked(f, books, sf, before, now, ptr)
    ensures |now| == 1024 && forall c :: ptr <= c < 1024 ==> Abs(now[c]) <= 16383
  {
    hide Wanted;
  }

  datatype Flags = Flags(pnsUsed: bool, intensityUsed: bool)

  ghost predicate FlagsOf(f: Frame, books: seq<nat>, ptr: nat, r: Flags)
  {
    && f.Valid() && ptr <= 1024
    && (r.pnsUsed <==> Used(f, books, ptr, 13))
    && (r.intensityUsed <==> Used(f, books, ptr, 14) || Used(f, books, ptr, 15))
  }

  lemma UsedStep(f: Frame, books: seq<nat>, g: nat, win: nat, sfb: nat, cb: nat)
    requires f.Valid() && g < |f.lens| && win < f.lens[g] && sfb < f.maxSFB
    requires |books| == |f.lens| * f.maxSFB
    ensures var lo, n := f.BandStart(g, win, sfb), f.Hi(sfb) - f.Lo(sfb);
      lo + n <= 1024 && 0 <= f.Entry(g, sfb) < |books|
      && (Used(f, books, lo + n, cb) <==> Used(f, books, lo, cb) || books[f.Entry(g, sfb)] == cb)
  {
    f.RegionInside(g, win, sfb);
    f.EntryInRange(g, sfb);
    var lo, n := f.BandStart(g, win, sfb), f.Hi(sfb) - f.Lo(sfb);
    forall c: nat | lo <= c < lo + n ensures f.Inside(c) && f.Owner(c) == f.Entry(g, sfb) {
      f.BandOwner(g, win, sfb, c);
    }
    assert f.Inside(lo) && f.Owner(lo) == f.Entry(g, sfb);
  }

  lemma WalkStep(f: Frame, books: seq<nat>, sf: seq<int>, before: seq<int>, mid: seq<int>, now: seq<int>,
                 g: nat, win: nat, sfb: nat)
    requires f.Valid() && g < |f.lens| && win < f.lens[g] && sfb <= f.maxSFB && |now| == 1024
    requires Walked(f, books, sf, before, mid, f.BandStart(g, win, sfb))
    requires var lo, n, e := f.BandStart(g, win, sfb), f.Hi(sfb) - f.Lo(sfb), f.Entry(g, sfb);
      forall c :: 0 <= c < 1024 ==>
        now[c] == if lo <= c < lo + n && Coded(books, e) then Signed(mid[c], Magnitude(Abs(mid[c]), sf[e])) else mid[c]
    ensures Walked(f, books, sf, before, now, f.BandStart(g, win, sfb) + (f.Hi(sfb) - f.Lo(sfb)))
  {
    f.RegionInside(g, win, sfb);
    var lo, n := f.BandStart(g, win, sfb), f.Hi(sfb) - f.Lo(sfb);
    forall c: nat | lo <= c < lo + n ensures f.Inside(c) && f.Owner(c) == f.Entry(g, sfb) {
      f.BandOwner(g, win, sfb, c);
    }
  }

  /** The mask over the band just written, joined to the mask before it. */
  lemma MaskStep(f: Frame, books: seq<nat>, m: nat, m': nat, mid: seq<int>, now: seq<int>, lo: nat, hi: nat)
    requires f.Valid() && lo <= hi <= 1024 == |mid| == |now|
    requires MaskOf(m, mid, Selected(f, books), 0, lo) && MaskOf(m', now, Selected(f, books), lo, hi)
    requires forall c :: 0 <= c < lo ==> now[c] == mid[c]
    ensures MaskOf(Or(m, m'), now, Selected(f, books), 0, hi)
  {
    hide MaskOf, Or;
    MaskSame(m, mid, now, Selected(f, books), 0, lo);
    MaskJoin(m, m', now, Selected(f, books), 0, lo, hi);
  }

  /** The whole state of Dequantize when it reaches coefficient ptr. */
  ghost predicate State(f: Frame, books: seq<nat>, sf: seq<int>, before: seq<int>, now: seq<int>,
                        ptr: nat, gbMask: nat, r: Flags)
  {
    && Walked(f, books, sf, before, now, ptr) && FlagsOf(f, books, ptr, r)
    && gbMask <= INT_MAX && MaskOf(gbMask, now, Selected(f, books), 0, ptr)
  }

  /** One scalefactor band in one window. */
  method DequantizeBand(coef: array<int>, f: Frame, books: seq<nat>, sf: seq<int>, cbPtr: nat,
                        ghost g: nat, ghost win: nat, sfb: nat, ptr: nat, gbMask: nat, r: Flags, ghost before: seq<int>)
    returns (ptr': nat, gbMask': nat, r': Flags)
    requires coef.Length == 1024
    requires f.Valid() && g < |f.lens| && win < f.lens[g] && sfb < f.maxSFB
    requires |books| == |sf| == |f.lens| * f.maxSFB && cbPtr == g * f.maxSFB
    requires ptr == f.BandStart(g, win, sfb) && State(f, books, sf, before, coef[..], ptr, gbMask, r)
    modifies coef
    ensures ptr' == f.BandStart(g, win, sfb) + (f.Hi(sfb) - f.Lo(sfb)) <= 1024
    ensures State(f, books, sf, before, coef[..], ptr', gbMask', r')
  {
    hide MaskOf, Or, Walked, Used, Selected;
    f.RegionInside(g, win, sfb);
    f.EntryInRange(g, sfb);
    ghost var mid, on := coef[..], Selected(f, books);
    var e := cbPtr + sfb;
    var cb := books[e];
    var width := f.tab[sfb + 1] - f.tab[sfb];
    SelectedBand(f, books, g, win, sfb);
    var m := 0;
    r' := r;
    if cb <= 11 {
      StillQuantized(f, books, sf, before, coef[..], ptr);
      m := DequantBlock(coef, ptr, width, sf[e], on);
    } else {
      MaskNone(coef[..], on, ptr, ptr + width);
      if cb == 13 { r' := r'.(pnsUsed := true); }
      else if cb == 14 || cb == 15 { r' := r'.(intensityUsed := true); }
    }
    BandDone(f, books, sf, g, win, sfb, before, mid, coef[..], m, gbMask, r, r');
    gbMask' := Or(gbMask, m);
    ptr' := ptr + width;
  }

  /** The walk's state behind a band. */
  lemma BandDone(f: Frame, books: seq<nat>, sf: seq<int>, g: nat, win: nat, sfb: nat, before: seq<int>, mid: seq<int>, now: seq<int>,
                 m: nat, gbMask: nat, r: Flags, r': Flags)
    requires f.Valid() && g < |f.lens| && win < f.lens[g] && sfb < f.maxSFB && |books| == |sf| == |f.lens| * f.maxSFB
    requires |mid| == |now| == 1024 && State(f, books, sf, before, mid, f.BandStart(g, win, sfb), gbMask, r)
    requires f.BandStart(g, win, sfb) + (f.Hi(sfb) - f.Lo(sfb)) <= 1024 && f.Entry(g, sfb) < |books|
    requires var lo, n, e := f.BandStart(g, win, sfb), f.Hi(sfb) - f.Lo(sfb), f.Entry(g, sfb);
      && (forall c :: 0 <= c < 1024 ==>
        now[c] == if lo <= c < lo + n && Coded(books, e) then Signed(mid[c], Magnitude(Abs(mid[c]), sf[e])) else mid[c])
      && m <= INT_MAX && MaskOf(m, now, Selected(f, books), lo, lo + n)
      && r' == Flags(r.pnsUsed || books[e] == 13, r.intensityUsed || books[e] == 14 || books[e] == 15)
    ensures State(f, books, sf, before, now, f.BandStart(g, win, sfb) + (f.Hi(sfb) - f.Lo(sfb)), Or(gbMask, m), r')
  {
    hide MaskOf, Or, Walked, Used, Selected, Magnitude, Signed;
    var lo, n := f.BandStart(g, win, sfb), f.Hi(sfb) - f.Lo(sfb);
    MaskStep(f, books, gbMask, m, mid, now, lo, lo + n);
    OrBound(gbMask, m);
    UsedStep(f, books, g, win, sfb, 13);
    UsedStep(f, books, g, win, sfb, 14);
    UsedStep(f, books, g, win, sfb, 15);
    WalkStep(f, books, sf, before, mid, now, g, win, sfb);
  }

  lemma SelectedBand(f: Frame, books: seq<nat>, g: nat, win: nat, sfb: nat)
    requires f.Valid() && g < |f.lens| && win < f.lens[g] && sfb <= f.maxSFB
    ensures var lo, n := f.BandStart(g, win, sfb), f.Hi(sfb) - f.Lo(sfb);
      lo + n <= 1024 && forall c :: lo <= c < lo + n ==> Selected(f, books)[c] == Coded(books, f.Entry(g, sfb))
  {
    f.RegionInside(g, win, sfb);
    var lo, n := f.BandStart(g, win, sfb), f.Hi(sfb) - f.Lo(sfb);
    forall c: nat | lo <= c < lo + n ensures Selected(f, books)[c] == Coded(books, f.Entry(g, sfb)) {
      f.BandOwner(g, win, sfb, c);
    }
  }

  /** Skipping the uncoded coefficients at the end of a window. */
  lemma SkipGap(f: Frame, books: seq<nat>, sf: seq<int>, before: seq<int>, now: seq<int>,
                g: nat, win: nat, gbMask: nat, r: Flags)
    requires f.Valid() && g < |f.lens| && win < f.lens[g] && |books| == |f.lens| * f.maxSFB
    requires State(f, books, sf, before, now, f.BandStart(g, win, f.maxSFB), gbMask, r)
    ensures f.BandStart(g, win, f.maxSFB) + (f.winLen - f.tab[f.maxSFB]) <= 1024
    ensures State(f, books, sf, before, now, f.BandStart(g, win, f.maxSFB) + (f.winLen - f.tab[f.maxSFB]), gbMask, r)
  {
    hide MaskOf, Or, Selected;
    var lo, n := f.BandStart(g, win, f.maxSFB), f.winLen - f.tab[f.maxSFB];
    f.RegionInside(g, win, f.maxSFB);
    WalkStep(f, books, sf, before, now, now, g, win, f.maxSFB);
    SelectedBand(f, books, g, win, f.maxSFB);
    MaskNone(now, Selected(f, books), lo, lo + n);
    MaskStep(f, books, gbMask, 0, now, now, lo, lo + n);
    OrZero(gbMask);
    forall c: nat | lo <= c < lo + n ensures f.Inside(c) && f.Owner(c) == -1 { f.BandOwner(g, win, f.maxSFB, c); }
  }

  lemma OrZero(a: nat)
    ensures Or(a, 0) == a
  {
  }

  /** One window: its coded bands, then the gap above them. */
  method DequantizeWindow(coef: array<int>, f: Frame, books: seq<nat>, sf: seq<int>, cbPtr: nat,
                          ghost g: nat, ghost win: nat, ptr: nat, gbMask: nat, r: Flags, ghost before: seq<int>)
    returns (ptr': nat, gbMask': nat, r': Flags)
    requires coef.Length == 1024
    requires f.Valid() && g < |f.lens| && win < f.lens[g]
    requires |books| == |sf| == |f.lens| * f.maxSFB && cbPtr == g * f.maxSFB
    requires ptr == f.BandStart(g, win, 0) && State(f, books, sf, before, coef[..], ptr, gbMask, r)
    modifies coef
    ensures ptr' == f.BandStart(g, win, 0) + f.winLen <= 1024
    ensures State(f, books, sf, before, coef[..], ptr', gbMask', r')
  {
    hide State;
    ptr', gbMask', r' := ptr, gbMask, r;
    var sfb := 0;
    while sfb < f.maxSFB
      invariant 0 <= sfb <= f.maxSFB && ptr' == f.BandStart(g, win, sfb)
      invariant State(f, books, sf, before, coef[..], ptr', gbMask', r')
    {
      ptr', gbMask', r' := DequantizeBand(coef, f, books, sf, cbPtr, g, win, sfb, ptr', gbMask', r', before);
      sfb := sfb + 1;
    }
    SkipGap(f, books, sf, before, coef[..], g, win, gbMask', r');
    f.RegionInside(g, win, f.maxSFB);
    ptr' := ptr' + (f.winLen - f.tab[f.maxSFB]);
  }

  /** Dequantize. Every coefficient is scaled by the scalefactor of the entry that owns it, the
      flags tell which substitution codebooks occur, and the guard-bit count is exact. */
  method Dequantize(coef: array<int>, f: Frame, books: seq<nat>, sf: seq<int>)
    returns (r: Flags, gbCurrent: int)
    requires coef.Length == 1024 && f.Valid() && |books| == |sf| == |f.lens| * f.maxSFB && Quantized(coef[..])
    modifies coef
    ensures Walked(f, books, sf, old(coef[..]), coef[..], 1024) && FlagsOf(f, books, 1024, r)
    ensures 0 <= gbCurrent <= 31 && AllBelow(coef[..], Selected(f, books), 0, 1024, 31 - gbCurrent)
    ensures gbCurrent <= 30 ==> !AllBelow(coef[..], Selected(f, books), 0, 1024, 30 - gbCurrent)
  {
    var gbMask;
    gbMask, r := DequantizeGroups(coef, f, books, sf, coef[..]);
    var lead := CLZ(gbMask);
    gbCurrent := lead - 1;
    if gbMask == 0 { assert gbMask < Pow2(0); }
    assert gbMask < Pow2(31 - gbCurrent) <==> AllBelow(coef[..], Selected(f, books), 0, 1024, 31 - gbCurrent);
    if gbCurrent <= 30 {
      assert gbMask < Pow2(30 - gbCurrent) <==> AllBelow(coef[..], Selected(f, books), 0, 1024, 30 - gbCurrent);
    }
  }

  /** The loops over groups and windows. */
  method DequantizeGroups(coef: array<int>, f: Frame, books: seq<nat>, sf: seq<int>, ghost before: seq<int>)
    returns (gbMask: nat, r: Flags)
    requires coef.Length == 1024 && f.Valid() && |books| == |sf| == |f.lens| * f.maxSFB
    requires before == coef[..] && Quantized(before)
    modifies coef
    ensures State(f, books, sf, before, coef[..], 1024, gbMask, r)
  {
    hide State;
    var ptr, cbPtr, gp := 0, 0, 0;
    gbMask, r := 0, Flags(false, false);
    StateStart(f, books, sf, before);
    while gp < |f.lens|
      invariant 0 <= gp <= |f.lens| && cbPtr == gp * f.maxSFB
      invariant ptr == if f.winLen == 128 then 128 * Start(f.lens, gp) else 1024 * gp
      invariant State(f, books, sf, before, coef[..], ptr, gbMask, r)
    {
      var win := 0;
      while win < f.lens[gp]
        invariant 0 <= win <= f.lens[gp]
        invariant ptr == if f.winLen == 128 then 128 * (Start(f.lens, gp) + win) else 1024 * (gp + win)
        invariant State(f, books, sf, before, coef[..], ptr, gbMask, r)
      {
        ptr, gbMask, r := DequantizeWindow(coef, f, books, sf, cbPtr, gp, win, ptr, gbMask, r, before);
        win := win + 1;
      }
      cbPtr := cbPtr + f.maxSFB;
      gp := gp + 1;
    }
  }

  lemma StateStart(f: Frame, books: seq<nat>, sf: seq<int>, before: seq<int>)
    requires f.Valid() && |books| == |sf| && Quantized(before)
    ensures State(f, books, sf, before, before, 0, 0, Flags(false, false))
  {
    MaskNone(before, Selected(f, books), 0, 0);
  }
}

module Pns {
  import opened Fixed
  import opened Bitstream
  import opened Layout
  import opened MsMask
  import opened Dequant
  import opened NoiseScale

  const NOISE_HCB := 13

  // ---- the generator ----

  function NextSeed(last: nat): nat { (1664525 * last + 1013904223) % TWO32 }

  /** The seed after n steps. */
  function SeedAfter(last: nat, n: nat): nat
    decreases n
  {
    if n == 0 then last else NextSeed(SeedAfter(last, n - 1))
  }

  /** A seed as a 16-bit noise sample: the high half of the signed word. */
  function NoiseSample(r: nat): int
  {
    (if r >= 0x8000_0000 then r - TWO32 else r) / 0x1_0000
  }

  method GenerateNoiseVector(coef: array<int>, off: nat, nVals: nat, last: nat) returns (last': nat)
    requires off + nVals <= coef.Length && IsUint32(last)
    modifies coef
    ensures IsUint32(last') && last' == SeedAfter(last, nVals)
    ensures forall c :: 0 <= c < coef.Length ==>
      coef[c] == if off <= c < off + nVals then NoiseSample(SeedAfter(last, c - off + 1)) else old(coef[c])
    ensures forall c :: off <= c < off + nVals ==> -0x8000 <= coef[c] < 0x8000
  {
    hide NextSeed, NoiseSample;
    last' := last;
    var i := 0;
    while i < nVals
      invariant 0 <= i <= nVals && IsUint32(last') && last' == SeedAfter(last, i)
      invariant forall c :: 0 <= c < coef.Length ==>
        coef[c] == if off <= c < off + i then NoiseSample(SeedAfter(last, c - off + 1)) else old(coef[c])
      invariant forall c :: off <= c < off + i ==> -0x8000 <= coef[c] < 0x8000
    {
      SampleRange(last');
      last' := NextSeed(last');
      coef[off + i] := NoiseSample(last');
      i := i + 1;
    }
  }

  /** The generator never takes two seeds to one: a step is undone by the multiplier's inverse. */
  lemma SeedUndone(last: nat)
    requires IsUint32(last)
    ensures (4276115653 * (NextSeed(last) + TWO32 - 1013904223)) % TWO32 == last
  {
    var k := (1664525 * last + 1013904223) / TWO32;
    assert NextSeed(last) == 1664525 * last + 1013904223 - k * TWO32;
    Wraps(last, 1657219 * last + 4276115653 * (1 - k));
  }

  lemma Wraps(last: nat, n: int)
    requires IsUint32(last)
    ensures (last + n * TWO32) % TWO32 == last
  {
  }

  /** A sample is the seed, as a signed word, without its low half. */
  lemma SampleOfSeed(r: nat)
    requires IsUint32(r)
    ensures -0x8000 <= NoiseSample(r) < 0x8000 && (NoiseSample(r) * 0x1_0000 + r % 0x1_0000 - r) % TWO32 == 0
  {
  }

  lemma SampleRange(last: nat)
    ensures IsUint32(NextSeed(last)) && -0x8000 <= NoiseSample(NextSeed(last)) < 0x8000
  {
  }

  lemma SampleAfter(last: nat, n: nat)
    ensures -0x8000 <= NoiseSample(SeedAfter(last, n + 1)) < 0x8000
  {
    hide NextSeed, NoiseSample;
    SampleRange(SeedAfter(last, n));
  }

  method CopyNoiseVector(coefL: array<int>, coefR: array<int>, off: nat, nVals: nat)
    requires coefL != coefR && off + nVals <= coefL.Length && off + nVals <= coefR.Length
    modifies coefR
    ensures forall c :: 0 <= c < coefR.Length ==> coefR[c] == if off <= c < off + nVals then coefL[c] else old(coefR[c])
  {
    var i := 0;
    while i < nVals
      invariant 0 <= i <= nVals
      invariant forall c :: 0 <= c < coefR.Length ==> coefR[c] == if off <= c < off + i then coefL[c] else old(coefR[c])
    {
      coefR[off + i] := coefL[off + i];
      i := i + 1;
    }
  }

  /** The energy loop of ScaleNoiseVector: every square and the sum fit a word. */
  method BandEnergy(coef: array<int>, off: nat, nVals: nat) returns (energy: nat)
    requires off + nVals <= coef.Length && nVals <= 96 && Noise16(coef[off..off + nVals])
    ensures energy == Energy(coef[off..off + nVals]) < 0x4000_0000
  {
    hide Energy, Square;
    ghost var v := coef[off..off + nVals];
    energy := 0;
    NoSamples();
    assert v[..0] == [];
    var i := 0;
    while i < nVals
      invariant 0 <= i <= nVals && energy == Energy(v[..i])
    {
      var spec := coef[off + i];
      SquareRange(spec);
      EnergyNext(v, i);
      energy := energy + Square(spec);
      i := i + 1;
    }
    assert v[..nVals] == v;
    EnergyFits(v);
  }

  lemma NoSamples()
    ensures Energy([]) == 0
  {
  }

  lemma EnergyNext(v: seq<int>, i: nat)
    requires i < |v|
    ensures Energy(v[..i + 1]) == Energy(v[..i]) + Square(v[i])
  {
    hide Square;
    assert v[..i + 1][..i] == v[..i];
  }

  /** ScaleNoiseVector. The result is the guard-bit mask; a band without energy stays as it is and has
      none. on selects the samples the mask is about. */
  method ScaleNoiseVector(coef: array<int>, off: nat, nVals: nat, sf: int, ghost on: seq<bool>) returns (gbMask: nat)
    requires off + nVals <= coef.Length == |on| && nVals <= 96 && Noise16(coef[off..off + nVals])
    requires forall c :: off <= c < off + nVals ==> (on[c] <==> Energy(coef[off..off + nVals]) != 0)
    modifies coef
    ensures forall c :: 0 <= c < coef.Length ==>
      coef[c] == if off <= c < off + nVals then Scale(old(coef[off..off + nVals]), sf, c - off) else old(coef[c])
    ensures gbMask <= INT_MAX && MaskOf(gbMask, coef[..], on, off, off + nVals)
  {
    hide MaskOf, Or, Pow2, Energy, ScaledSample, Mantissa, Exponent;
    ghost var v := coef[off..off + nVals];
    var energy := BandEnergy(coef, off, nVals);
    gbMask := 0;
    if energy == 0 {
      MaskNone(coef[..], on, off, off + nVals);
      return;
    }
    var scalef, scalei := Normalize(energy, sf);
    MantissaRange(energy, sf);
    MaskNone(coef[..], on, off, off);
    var i := off;
    while i < off + nVals
      invariant off <= i <= off + nVals
      invariant forall c :: 0 <= c < coef.Length ==>
        coef[c] == if off <= c < i then Scale(v, sf, c - off) else old(coef[c])
      invariant gbMask <= INT_MAX && MaskOf(gbMask, coef[..], on, off, i)
    {
      ghost var before := coef[..];
      assert coef[i] == v[i - off];
      SampleFits(coef[i], scalef, scalei);
      var c := ScaledSample(coef[i], scalef, scalei);
      coef[i] := c;
      MaskSame(gbMask, before, coef[..], on, off, i);
      MaskOne(coef[..], on, i);
      MaskJoin(gbMask, Abs(c), coef[..], on, off, i, i + 1);
      OrBound(gbMask, Abs(c));
      gbMask := Or(gbMask, Abs(c));
      i := i + 1;
    }
  }

  // ---- the walk ----

  lemma {:induction false} SeedsAdd(last: nat, a: nat, b: nat)
    ensures SeedAfter(SeedAfter(last, a), b) == SeedAfter(last, a + b)
  {
    if b > 0 { SeedsAdd(last, a, b - 1); }
  }

  /** What the walk reads besides coefficients: the layout, both channels' codebooks, this channel's
      scalefactors, and the M/S information of the pair. */
  datatype Channel = Channel(ch: nat, f: Frame, books0: seq<nat>, books1: seq<nat>, sf: seq<int>,
                             checkCorr: bool, msMaskPresent: nat, msMaskBits: seq<nat>)
  {
    ghost predicate Valid()
    {
      && f.Valid() && |books0| == |books1| == |sf| == |f.lens| * f.maxSFB
      && 1 <= |msMaskBits| && |f.lens| * f.maxSFB <= 8 * |msMaskBits|
    }

    function Books(): seq<nat> { if ch == 0 then books0 else books1 }

    /** Entry e of this channel is noise. */
    predicate IsNoise(e: int) { 0 <= e < |Books()| && Books()[e] == 13 }

    /** The packed M/S bit of the band, or the pair's blanket setting, ties the channels' noise. */
    predicate Correlated(e: int)
    {
      && checkCorr && 0 <= e < |books0| && books0[e] == 13 && e / 8 < |msMaskBits|
      && ((msMaskPresent == 1 && MaskBit(msMaskBits, e) == 1) || msMaskPresent == 2)
    }

    /** A noise entry that gets a vector of its own; the others keep what they were handed. */
    predicate Draws(e: int) { IsNoise(e) && !(ch != 0 && Correlated(e)) }

    /** An entry whose unscaled noise channel 0 hands to channel 1. */
    predicate Hands(e: int) { ch == 0 && checkCorr && IsNoise(e) && e < |books1| && books1[e] == 13 }

    ghost function OwnerOf(c: nat): int
      requires Valid() && c < 1024
    {
      f.AllInside(c);
      f.Owner(c)
    }

    /** The number of noise samples drawn for the coefficients before c. */
    ghost function Drawn(c: nat): nat
      requires Valid() && c <= 1024
    {
      if c == 0 then 0 else Drawn(c - 1) + if Draws(OwnerOf(c - 1)) then 1 else 0
    }

    /** The unscaled noise: drawn coefficients take consecutive samples of the generator. */
    ghost function Noise(before: seq<int>, last: nat): (s: seq<int>)
      requires Valid() && |before| == 1024
      ensures |s| == 1024
    {
      seq(1024, c requires 0 <= c < 1024 =>
        if Draws(OwnerOf(c)) then NoiseSample(SeedAfter(last, Drawn(c) + 1)) else before[c])
    }

    /** Noise that is kept, not drawn, is of 16 bits, as what the other channel hands over. */
    ghost predicate Keeps16(before: seq<int>)
    {
      Valid() && |before| == 1024 &&
      forall c {:trigger OwnerOf(c)} :: 0 <= c < 1024 && IsNoise(OwnerOf(c)) && !Draws(OwnerOf(c)) ==> -0x8000 <= before[c] < 0x8000
    }

    /** The coefficients that count for the guard bits: noise of a band with energy. */
    ghost function Loud(noise: seq<int>): (on: seq<bool>)
      requires Valid() && |noise| == 1024
      ensures |on| == 1024
    {
      seq(1024, c requires 0 <= c < 1024 =>
        BandAround(c); IsNoise(OwnerOf(c)) && Energy(noise[f.BandLo(c)..f.BandHi(c)]) != 0)
    }

    lemma NoiseIs16(before: seq<int>, last: nat, c: nat)
      requires Keeps16(before) && c < 1024 && IsNoise(OwnerOf(c))
      ensures -0x8000 <= Noise(before, last)[c] < 0x8000
    {
      hide SeedAfter, NoiseSample, OwnerOf, Drawn, Draws;
      if Draws(OwnerOf(c)) { SampleAfter(last, Drawn(c)); }
    }

    /** Coefficient c after the walk: its band's noise scaled by its band's scalefactor. */
    ghost predicate Settled(before: seq<int>, now: seq<int>, noise: seq<int>, ptr: nat, c: nat)
      requires Valid() && |before| == |now| == |noise| == 1024 && ptr <= 1024 && c < 1024
    {
      && f.Inside(c) && 0 <= f.BandLo(c) <= c < f.BandHi(c) <= ptr
      && now[c] == if 0 <= OwnerOf(c) < |sf| && IsNoise(OwnerOf(c))
                   then Scale(noise[f.BandLo(c)..f.BandHi(c)], sf[OwnerOf(c)], c - f.BandLo(c))
                   else before[c]
    }

    /** Every coefficient before ptr is settled; the others are as they were. */
    ghost predicate Walked(before: seq<int>, now: seq<int>, noise: seq<int>, ptr: nat)
    {
      && Valid() && |before| == |now| == |noise| == 1024 && ptr <= 1024
      && (forall c :: ptr <= c < 1024 ==> now[c] == before[c])
      && (forall c :: 0 <= c < ptr ==> Settled(before, now, noise, ptr, c))
    }

    /** What the other channel's coefficients become: handed noise, and nothing else. */
    ghost predicate Handed(before: seq<int>, now: seq<int>, noise: seq<int>, ptr: nat)
    {
      && Valid() && |before| == |now| == |noise| == 1024 && ptr <= 1024
      && (forall c :: ptr <= c < 1024 ==> now[c] == before[c])
      && (forall c :: 0 <= c < ptr ==> now[c] == if Hands(OwnerOf(c)) then noise[c] else before[c])
    }

    /** One band of entry e, settled: scaled if it is noise. */
    ghost predicate Shaped(was: seq<int>, now: seq<int>, noise: seq<int>, lo: nat, hi: nat, e: int)
    {
      |was| == |now| == |noise| == 1024 && lo <= hi <= 1024 && forall c :: 0 <= c < 1024 ==>
        now[c] == if lo <= c < hi && 0 <= e < |sf| && IsNoise(e) then Scale(noise[lo..hi], sf[e], c - lo) else was[c]
    }

    /** One band of entry e, handed on if the other channel's is noise too. */
    ghost predicate HandedOn(was: seq<int>, now: seq<int>, noise: seq<int>, lo: nat, hi: nat, e: int)
    {
      |was| == |now| == |noise| == 1024 && lo <= hi <= 1024 && forall c :: 0 <= c < 1024 ==>
        now[c] == if lo <= c < hi && Hands(e) then noise[c] else was[c]
    }

    // ---- the M/S bit reader ----

    /** The lowest bit of the running byte is the mask's bit of entry e. */
    ghost predicate Tests(e: nat, msMask: nat)
    {
      e / 8 < |msMaskBits| && msMask % 2 == MaskBit(msMaskBits, e)
    }

    /** The running M/S byte when the walk is at entry e: bit e is its lowest bit. Behind the last entry
        of a full mask it is of no account. */
    ghost predicate AtMask(e: nat, msMask: nat, msMaskOffset: nat, msMaskPtr: nat)
    {
      && e <= 8 * |msMaskBits| && msMaskOffset == e % 8 && msMaskPtr == e / 8 + 1
      && (e / 8 < |msMaskBits| ==> msMask == Down(msMaskBits[e / 8], e % 8))
    }

    /** The walk refills its M/S byte from inside the mask alone. */
    predicate MaskSuffices() { f.maxSFB == 0 || |f.lens| * f.maxSFB < 8 * |msMaskBits| }

    // ---- one band ----

    /** The coefficients from lo to hi are one band of one window, owned by entry e. */
    ghost predicate IsBand(lo: nat, hi: nat, e: int)
    {
      Valid() && hi <= 1024 && forall c {:trigger OwnerOf(c)} :: lo <= c < hi ==>
        OwnerOf(c) == e && f.Inside(c) && f.BandLo(c) == lo && f.BandHi(c) == hi
    }

    lemma BandEntry(g: nat, win: nat, sfb: nat)
      requires Valid() && g < |f.lens| && win < f.lens[g] && sfb <= f.maxSFB
      ensures f.Lo(sfb) <= f.Hi(sfb) && (sfb < f.maxSFB ==> 0 <= f.Entry(g, sfb) < |sf|)
      ensures var lo, hi := f.BandStart(g, win, sfb), f.BandStart(g, win, sfb) + (f.Hi(sfb) - f.Lo(sfb));
        IsBand(lo, hi, f.Entry(g, sfb)) && hi <= 1024 && (forall c {:trigger OwnerOf(c)} :: lo <= c < hi ==>
          && OwnerOf(c) == f.Entry(g, sfb) && f.Inside(c) && f.BandLo(c) == lo && f.BandHi(c) == hi)
    {
      hide Draws, Hands, Correlated;
      f.RegionInside(g, win, sfb);
      if sfb < f.maxSFB { f.EntryInRange(g, sfb); }
      forall c: nat | f.BandStart(g, win, sfb) <= c < f.BandStart(g, win, sfb) + (f.Hi(sfb) - f.Lo(sfb))
        ensures OwnerOf(c) == f.Entry(g, sfb) && f.Inside(c) && f.BandLo(c) == f.BandStart(g, win, sfb)
        ensures f.BandHi(c) == f.BandStart(g, win, sfb) + (f.Hi(sfb) - f.Lo(sfb))
      {
        f.BandOwner(g, win, sfb, c);
      }
    }

    /** The band around a coefficient, found from the coefficient alone. */
    lemma BandAround(c: nat)
      requires Valid() && c < 1024
      ensures f.Inside(c) && 0 <= f.BandLo(c) <= c < f.BandHi(c) <= 1024
    {
      f.AllInside(c);
      var g, sfb := f.GroupFrom(f.Win(c), 0), f.BandFrom(f.Off(c), 0);
      var win := f.Win(c) - Start(f.lens, g);
      f.RegionInside(g, win, sfb);
      f.OwnerIs(g, win, sfb, c);
    }

    lemma SameBand(c: nat, k: nat)
      requires Valid() && c < 1024 && f.Inside(c) && f.BandLo(c) <= k < f.BandHi(c)
      ensures k < 1024 && OwnerOf(k) == OwnerOf(c)
    {
      BandAround(c);
      var g, sfb := f.GroupFrom(f.Win(c), 0), f.BandFrom(f.Off(c), 0);
      var win := f.Win(c) - Start(f.lens, g);
      f.OwnerIs(g, win, sfb, c);
      f.BandOwner(g, win, sfb, k);
    }

    /** In a run of coefficients with one owner, every one draws a sample or none does. */
    lemma {:induction false} DrawnRun(lo: nat, c: nat, e: int)
      requires Valid() && lo <= c <= 1024 && forall k {:trigger OwnerOf(k)} :: lo <= k < c ==> OwnerOf(k) == e
      ensures Drawn(c) == Drawn(lo) + if Draws(e) then c - lo else 0
    {
      hide Draws, OwnerOf;
      if lo < c { DrawnRun(lo, c - 1, e); }
    }

    lemma NoiseRun(before: seq<int>, last: nat, lo: nat, hi: nat, e: int, c: nat)
      requires Valid() && |before| == 1024 && lo <= c < hi <= 1024
      requires forall k {:trigger OwnerOf(k)} :: lo <= k < hi ==> OwnerOf(k) == e
      ensures Noise(before, last)[c] ==
        if Draws(e) then NoiseSample(SeedAfter(SeedAfter(last, Drawn(lo)), c - lo + 1)) else before[c]
    {
      hide Draws, OwnerOf, SeedAfter, NoiseSample, Valid;
      DrawnRun(lo, c, e);
      SeedsAdd(last, Drawn(lo), c - lo + 1);
      assert OwnerOf(c) == e;
    }

    lemma NoiseScaled(e: int)
      requires Valid() && IsNoise(e)
      ensures 0 <= e < |sf|
    {
    }

    lemma NewlySettled(before: seq<int>, now: seq<int>, noise: seq<int>, lo: nat, hi: nat, c: nat, e: int)
      requires Valid() && |before| == |now| == |noise| == 1024 && lo <= c < hi <= 1024
      requires f.Inside(c) && f.BandLo(c) == lo && f.BandHi(c) == hi && OwnerOf(c) == e
      requires now[c] == if 0 <= e < |sf| && IsNoise(e) then Scale(noise[lo..hi], sf[e], c - lo) else before[c]
      ensures Settled(before, now, noise, hi, c)
    {
      hide Valid, OwnerOf, IsNoise, Frame.BandLo, Frame.BandHi, Frame.Inside;
    }

    lemma StaysSettled(before: seq<int>, mid: seq<int>, now: seq<int>, noise: seq<int>, lo: nat, hi: nat, c: nat)
      requires Valid() && |before| == |mid| == |now| == |noise| == 1024 && c < lo <= hi <= 1024 && now[c] == mid[c]
      requires Settled(before, mid, noise, lo, c)
      ensures Settled(before, now, noise, hi, c)
    {
      hide Valid, OwnerOf, IsNoise, Frame.BandLo, Frame.BandHi, Frame.Inside;
    }

    /** Settling one more band keeps the bands before it settled. */
    lemma WalkStep(before: seq<int>, mid: seq<int>, now: seq<int>, noise: seq<int>, lo: nat, hi: nat, e: int)
      requires IsBand(lo, hi, e) && Walked(before, mid, noise, lo) && Shaped(mid, now, noise, lo, hi, e)
      ensures Walked(before, now, noise, hi)
    {
      hide Frame.BandLo, Frame.BandHi, Frame.Inside, OwnerOf, Valid, IsNoise, Settled, Scale;
      forall c: nat | c < lo ensures Settled(before, now, noise, hi, c) {
        StaysSettled(before, mid, now, noise, lo, hi, c);
      }
      forall c: nat | lo <= c < hi ensures Settled(before, now, noise, hi, c) {
        assert OwnerOf(c) == e;
        NewlySettled(before, now, noise, lo, hi, c, e);
      }
    }
  }

  /** The whole state of the walk at coefficient ptr. */
  ghost predicate At(x: Channel, before: seq<int>, now: seq<int>, other: seq<int>, nowOther: seq<int>,
                     seed0: nat, seed: nat, ptr: nat)
  {
    && x.Valid() && |before| == |other| == 1024 && ptr <= 1024
    && x.Walked(before, now, x.Noise(before, seed0), ptr)
    && x.Handed(other, nowOther, x.Noise(before, seed0), ptr)
    && IsUint32(seed) && seed == SeedAfter(seed0, x.Drawn(ptr))
  }

  /** The guard-bit mask covers exactly the noise before coefficient ptr. */
  ghost predicate Guarded(x: Channel, before: seq<int>, now: seq<int>, seed0: nat, gbMask: nat, ptr: nat)
  {
    && x.Valid() && |before| == |now| == 1024 && ptr <= 1024 && gbMask <= INT_MAX
    && MaskOf(gbMask, now, x.Loud(x.Noise(before, seed0)), 0, ptr)
  }

  lemma LoudBand(x: Channel, noise: seq<int>, lo: nat, hi: nat, e: int)
    requires x.Valid() && |noise| == 1024 && lo <= hi <= 1024
    requires x.IsBand(lo, hi, e)
    ensures forall c :: lo <= c < hi ==> (x.Loud(noise)[c] <==> x.IsNoise(e) && Energy(noise[lo..hi]) != 0)
  {
    hide Energy, Channel.OwnerOf, Channel.IsNoise, Channel.Valid;
    forall c | lo <= c < hi ensures x.Loud(noise)[c] <==> x.IsNoise(e) && Energy(noise[lo..hi]) != 0 {
      assert x.OwnerOf(c) == e;
      x.BandAround(c);
    }
  }

  /** One more band, whose mask is m. */
  lemma GuardStep(x: Channel, before: seq<int>, mid: seq<int>, now: seq<int>, seed0: nat, gbMask: nat, m: nat, lo: nat, hi: nat)
    requires Guarded(x, before, mid, seed0, gbMask, lo) && lo <= hi <= 1024 == |now| && m <= INT_MAX
    requires forall c :: 0 <= c < lo ==> now[c] == mid[c]
    requires MaskOf(m, now, x.Loud(x.Noise(before, seed0)), lo, hi)
    ensures Guarded(x, before, now, seed0, Or(gbMask, m), hi)
  {
    hide MaskOf, Or, Channel.Loud, Channel.Noise, Channel.Valid;
    var on := x.Loud(x.Noise(before, seed0));
    MaskSame(gbMask, mid, now, on, 0, lo);
    MaskJoin(gbMask, m, now, on, 0, lo, hi);
    OrBound(gbMask, m);
  }

  /** A band that is not noise has no mask. */
  lemma GuardSkip(x: Channel, before: seq<int>, now: seq<int>, seed0: nat, gbMask: nat, lo: nat, hi: nat, e: int)
    requires Guarded(x, before, now, seed0, gbMask, lo) && lo <= hi <= 1024 && !x.IsNoise(e)
    requires x.IsBand(lo, hi, e)
    ensures Guarded(x, before, now, seed0, gbMask, hi)
  {
    hide MaskOf, Or, Channel.Loud, Channel.Noise, Channel.Valid, Channel.OwnerOf;
    var noise := x.Noise(before, seed0);
    LoudBand(x, noise, lo, hi, e);
    MaskNone(now, x.Loud(noise), lo, hi);
    GuardStep(x, before, now, now, seed0, gbMask, 0, lo, hi);
    OrNothing(gbMask);
  }

  lemma OrNothing(a: nat)
    ensures Or(a, 0) == a
  {
  }

  lemma GuardStart(x: Channel, before: seq<int>, seed0: nat)
    requires x.Valid() && |before| == 1024
    ensures Guarded(x, before, before, seed0, 0, 0)
  {
    hide Channel.Loud, Channel.Noise, Channel.Valid;
    MaskNone(before, x.Loud(x.Noise(before, seed0)), 0, 0);
  }

  /** Advancing the M/S byte to the next band. The refill after every eighth band leaves the mask if and
      only if the mask ends there; what it reads then is tested by no band. */
  method NextMaskBit(x: Channel, ghost e: nat, msMask: nat, msMaskOffset: nat, msMaskPtr: nat)
    returns (mask: nat, off: nat, ptr: nat, inside: bool)
    requires x.AtMask(e, msMask, msMaskOffset, msMaskPtr) && e < 8 * |x.msMaskBits|
    ensures x.AtMask(e + 1, mask, off, ptr) && (inside <==> e + 1 < 8 * |x.msMaskBits|)
  {
    DownHalf(x.msMaskBits[e / 8], e % 8);
    mask, off, ptr, inside := msMask / 2, msMaskOffset + 1, msMaskPtr, true;
    if off == 8 {
      inside := ptr < |x.msMaskBits|;
      if inside { mask := x.msMaskBits[ptr]; }
      ptr := ptr + 1;
      off := 0;
    }
  }

  /** With the mask as the packer leaves it, also a full one, the bit tested for a band is the stream's. */
  lemma TestedIsPacked(x: Channel, d: seq<Byte>, p: nat, e: nat)
    requires x.Valid() && e < |x.sf| && x.msMaskPresent == 1 && Packed(d, p, |x.sf|, x.msMaskBits)
    ensures x.Correlated(e) <==> x.checkCorr && x.books0[e] == NOISE_HCB && Bits(d, p + e, 1) == 1
  {
    hide Bits, MaskBit;
    assert MaskBit(x.msMaskBits, e) == Bits(d, p + e, 1);
  }

  /** The unscaled noise of one band: drawn, handed on, or kept. */
  method NoiseForBand(x: Channel, coef: array<int>, other: array<int>, e: nat, ptr: nat, width: nat, msMask: nat, last: nat)
    returns (last': nat)
    requires e < |x.books0| == |x.books1| && x.IsNoise(e) && coef != other && IsUint32(last)
    requires coef.Length == other.Length == 1024 && ptr + width <= 1024
    requires x.Tests(e, msMask)
    modifies coef, other
    ensures IsUint32(last') && last' == SeedAfter(last, if x.Draws(e) then width else 0)
    ensures forall c :: 0 <= c < 1024 ==>
      coef[c] == if ptr <= c < ptr + width && x.Draws(e) then NoiseSample(SeedAfter(last, c - ptr + 1)) else old(coef[c])
    ensures forall c :: 0 <= c < 1024 ==>
      other[c] == if ptr <= c < ptr + width && x.Hands(e) then coef[c] else old(other[c])
  {
    hide MaskBit, NoiseSample, NextSeed;
    last' := last;
    if x.ch == 0 {
      last' := GenerateNoiseVector(coef, ptr, width, last);
      if x.checkCorr && x.books1[e] == NOISE_HCB {
        CopyNoiseVector(coef, other, ptr, width);
      }
    } else {
      var genNew := true;
      if x.checkCorr && x.books0[e] == NOISE_HCB {
        if (x.msMaskPresent == 1 && msMask % 2 == 1) || x.msMaskPresent == 2 {
          genNew := false;
        }
      }
      if genNew {
        last' := GenerateNoiseVector(coef, ptr, width, last);
      }
    }
  }

  /** The coefficients of a run with one owner, once its vector is in place, are its noise. */
  lemma BandNoise(x: Channel, before: seq<int>, mid: seq<int>, now: seq<int>, seed0: nat, ptr: nat, width: nat, e: int,
                  last: nat, last': nat)
    requires x.Valid() && |before| == |mid| == |now| == 1024 && ptr + width <= 1024
    requires forall k {:trigger x.OwnerOf(k)} :: ptr <= k < ptr + width ==> x.OwnerOf(k) == e
    requires forall c :: ptr <= c < 1024 ==> mid[c] == before[c]
    requires last == SeedAfter(seed0, x.Drawn(ptr)) && last' == SeedAfter(last, if x.Draws(e) then width else 0)
    requires forall c :: 0 <= c < 1024 ==>
      now[c] == if ptr <= c < ptr + width && x.Draws(e) then NoiseSample(SeedAfter(last, c - ptr + 1)) else mid[c]
    ensures now[ptr..ptr + width] == x.Noise(before, seed0)[ptr..ptr + width]
    ensures last' == SeedAfter(seed0, x.Drawn(ptr + width))
  {
    hide NoiseSample, SeedAfter, Channel.Draws, Channel.OwnerOf, Channel.Drawn, Channel.Noise, Channel.Valid;
    x.DrawnRun(ptr, ptr + width, e);
    SeedsAdd(seed0, x.Drawn(ptr), if x.Draws(e) then width else 0);
    forall c: nat | ptr <= c < ptr + width ensures now[c] == x.Noise(before, seed0)[c] {
      x.NoiseRun(before, seed0, ptr, ptr + width, e, c);
    }
  }

  lemma HandStep(x: Channel, before: seq<int>, mid: seq<int>, now: seq<int>, noise: seq<int>, lo: nat, hi: nat, e: int)
    requires x.IsBand(lo, hi, e) && x.Handed(before, mid, noise, lo) && x.HandedOn(mid, now, noise, lo, hi, e)
    ensures x.Handed(before, now, noise, hi)
  {
    hide Channel.Hands, Channel.OwnerOf, Channel.Valid, Frame.Inside, Frame.BandLo, Frame.BandHi;
  }

  lemma Band16(x: Channel, before: seq<int>, seed0: nat, ptr: nat, width: nat, e: int)
    requires x.Keeps16(before) && x.IsNoise(e) && ptr + width <= 1024
    requires forall k {:trigger x.OwnerOf(k)} :: ptr <= k < ptr + width ==> x.OwnerOf(k) == e
    ensures Noise16(x.Noise(before, seed0)[ptr..ptr + width])
  {
    hide Channel.Noise, Channel.OwnerOf, Channel.IsNoise, Channel.Keeps16;
    Kept(x, before);
    forall k | ptr <= k < ptr + width ensures -0x8000 <= x.Noise(before, seed0)[k] < 0x8000 {
      assert x.OwnerOf(k) == e;
      x.NoiseIs16(before, seed0, k);
    }
  }

  lemma Kept(x: Channel, before: seq<int>)
    requires x.Keeps16(before)
    ensures x.Valid() && |before| == 1024
  {
    hide Channel.Valid, Channel.OwnerOf;
  }

  /** A noise band: its vector in place, handed on, then scaled. */
  method ShapeBand(x: Channel, coef: array<int>, other: array<int>, e: nat, ptr: nat, width: nat, msMask: nat,
                   last: nat, ghost before: seq<int>, ghost seed0: nat)
    returns (last': nat, m: nat)
    requires coef.Length == other.Length == 1024 && coef != other
    requires x.Keeps16(before) && x.IsBand(ptr, ptr + width, e) && width <= 96 && e < |x.sf| && x.IsNoise(e)
    requires forall c :: ptr <= c < 1024 ==> coef[c] == before[c]
    requires IsUint32(last) && last == SeedAfter(seed0, x.Drawn(ptr)) && x.Tests(e, msMask)
    modifies coef, other
    ensures m <= INT_MAX && MaskOf(m, coef[..], x.Loud(x.Noise(before, seed0)), ptr, ptr + width)
    ensures IsUint32(last') && last' == SeedAfter(seed0, x.Drawn(ptr + width))
    ensures x.Shaped(old(coef[..]), coef[..], x.Noise(before, seed0), ptr, ptr + width, e)
    ensures x.HandedOn(old(other[..]), other[..], x.Noise(before, seed0), ptr, ptr + width, e)
  {
    hide MaskBit, MaskOf, Energy, Scale, SeedAfter, NoiseSample, Channel.Loud, Channel.Keeps16, Channel.Draws;
    hide Channel.Correlated, Channel.Drawn, Channel.OwnerOf, Channel.Noise, Channel.Hands;
    Kept(x, before);
    ghost var noise, mid := x.Noise(before, seed0), coef[..];
    last' := NoiseForBand(x, coef, other, e, ptr, width, msMask, last);
    BandNoise(x, before, mid, coef[..], seed0, ptr, width, e, last, last');
    forall c | ptr <= c < ptr + width ensures coef[c] == noise[c] {
      assert coef[ptr..ptr + width][c - ptr] == noise[ptr..ptr + width][c - ptr];
    }
    LoudBand(x, noise, ptr, ptr + width, e);
    Band16(x, before, seed0, ptr, width, e);
    m := ScaleNoiseVector(coef, ptr, width, x.sf[e], x.Loud(noise));
  }

  /** The band's coefficients have not been touched yet. */
  lemma Untouched(x: Channel, before: seq<int>, now: seq<int>, other: seq<int>, nowOther: seq<int>, seed0: nat, seed: nat, ptr: nat)
    requires At(x, before, now, other, nowOther, seed0, seed, ptr)
    ensures x.Valid() && |before| == |now| == |other| == |nowOther| == 1024 && ptr <= 1024
    ensures forall c :: ptr <= c < 1024 ==> now[c] == before[c]
    ensures IsUint32(seed) && seed == SeedAfter(seed0, x.Drawn(ptr))
  {
    hide SeedAfter, Channel.Valid, Channel.Drawn, Channel.Settled, Channel.Noise, Channel.OwnerOf, Channel.Hands;
  }

  /** One more band of the walk. */
  lemma AtNext(x: Channel, before: seq<int>, mid: seq<int>, now: seq<int>, other: seq<int>, midOther: seq<int>, nowOther: seq<int>,
               seed0: nat, seed: nat, seed': nat, lo: nat, hi: nat, e: int)
    requires At(x, before, mid, other, midOther, seed0, seed, lo) && x.IsBand(lo, hi, e)
    requires x.Shaped(mid, now, x.Noise(before, seed0), lo, hi, e)
    requires x.HandedOn(midOther, nowOther, x.Noise(before, seed0), lo, hi, e)
    requires IsUint32(seed') && seed' == SeedAfter(seed0, x.Drawn(hi))
    ensures At(x, before, now, other, nowOther, seed0, seed', hi)
  {
    hide SeedAfter, Channel.Valid, Channel.Walked, Channel.Handed, Channel.Drawn, Channel.OwnerOf, Channel.Noise;
    hide Channel.IsNoise, Channel.Hands, Frame.Inside, Frame.BandLo, Frame.BandHi, Scale;
    var noise := x.Noise(before, seed0);
    HandStep(x, other, midOther, nowOther, noise, lo, hi, e);
    x.WalkStep(before, mid, now, noise, lo, hi, e);
  }

  /** The body of the innermost loop. */
  method PnsBand(x: Channel, coef: array<int>, other: array<int>, e: nat, ptr: nat, width: nat, msMask: nat, last: nat,
                 gbMask: nat, ghost before: seq<int>, ghost before': seq<int>, ghost seed0: nat)
    returns (ptr': nat, last': nat, gbMask': nat)
    requires coef.Length == other.Length == 1024 && coef != other && x.Valid() && e < |x.sf|
    requires x.IsBand(ptr, ptr + width, e) && ptr + width <= 1024 && width <= 96 && x.Tests(e, msMask)
    requires At(x, before, coef[..], before', other[..], seed0, last, ptr)
    requires x.Keeps16(before) && Guarded(x, before, coef[..], seed0, gbMask, ptr)
    modifies coef, other
    ensures ptr' == ptr + width
    ensures At(x, before, coef[..], before', other[..], seed0, last', ptr')
    ensures Guarded(x, before, coef[..], seed0, gbMask', ptr')
  {
    hide At, MaskBit, Guarded, MaskOf, Or, Energy, Scale, SeedAfter, NoiseSample, Frame.Valid, Frame.Inside;
    hide Channel.Loud, Channel.Keeps16, Channel.Draws, Channel.Hands, Channel.Correlated, Channel.Drawn;
    hide Channel.OwnerOf, Channel.Noise, Channel.IsBand;
    ghost var mid, midOther := coef[..], other[..];
    Untouched(x, before, mid, before', midOther, seed0, last, ptr);
    last', gbMask' := last, gbMask;
    if x.Books()[e] == NOISE_HCB {
      var m;
      last', m := ShapeBand(x, coef, other, e, ptr, width, msMask, last, before, seed0);
      GuardStep(x, before, mid, coef[..], seed0, gbMask, m, ptr, ptr + width);
      gbMask' := Or(gbMask, m);
    } else {
      QuietEntry(x, e);
      QuietRun(x, ptr, ptr + width, e);
      GuardSkip(x, before, coef[..], seed0, gbMask, ptr, ptr + width, e);
    }
    AtNext(x, before, mid, coef[..], before', midOther, other[..], seed0, last, last', ptr, ptr + width, e);
    ptr' := ptr + width;
  }

  lemma QuietRun(x: Channel, lo: nat, hi: nat, e: int)
    requires x.IsBand(lo, hi, e) && lo <= hi && !x.Draws(e)
    ensures x.Drawn(hi) == x.Drawn(lo)
  {
    hide Channel.Valid, Channel.Draws, Channel.OwnerOf, Frame.Inside, Frame.BandLo, Frame.BandHi;
    x.DrawnRun(lo, hi, e);
  }

  lemma BandWidth(x: Channel, sfb: nat)
    requires x.Valid() && sfb < x.f.maxSFB
    ensures sfb + 1 < |x.f.tab| && 0 <= x.f.tab[sfb + 1] - x.f.tab[sfb] <= 96
  {
  }

  lemma QuietEntry(x: Channel, e: int)
    requires !x.IsNoise(e)
    ensures !x.Draws(e) && !x.Hands(e)
  {
  }

  /** Nothing happens to the coefficients above the coded bands of a window. */
  lemma SkipGap(x: Channel, before: seq<int>, now: seq<int>, other: seq<int>, nowOther: seq<int>, seed0: nat, seed: nat,
                gbMask: nat, g: nat, win: nat)
    requires x.Valid() && g < |x.f.lens| && win < x.f.lens[g]
    requires At(x, before, now, other, nowOther, seed0, seed, x.f.BandStart(g, win, x.f.maxSFB))
    requires Guarded(x, before, now, seed0, gbMask, x.f.BandStart(g, win, x.f.maxSFB))
    ensures var lo, n := x.f.BandStart(g, win, x.f.maxSFB), x.f.winLen - x.f.tab[x.f.maxSFB];
      lo + n <= 1024 && At(x, before, now, other, nowOther, seed0, seed, lo + n) && Guarded(x, before, now, seed0, gbMask, lo + n)
  {
    hide At, SeedAfter, Guarded, Channel.Draws, Channel.Drawn, Channel.OwnerOf, Channel.Noise, Channel.Hands;
    hide Channel.IsBand, Channel.IsNoise;
    var lo, n := x.f.BandStart(g, win, x.f.maxSFB), x.f.winLen - x.f.tab[x.f.maxSFB];
    x.BandEntry(g, win, x.f.maxSFB);
    Untouched(x, before, now, other, nowOther, seed0, seed, lo);
    NoEntry(x);
    QuietEntry(x, -1);
    QuietRun(x, lo, lo + n, -1);
    GuardSkip(x, before, now, seed0, gbMask, lo, lo + n, -1);
    AtNext(x, before, now, now, other, nowOther, nowOther, seed0, seed, seed, lo, lo + n, -1);
  }

  lemma NoEntry(x: Channel)
    ensures !x.IsNoise(-1)
  {
  }

  /** One window: the M/S byte is sought again at the group's first entry. */
  method PnsWindow(x: Channel, coef: array<int>, other: array<int>, gp: nat, win: nat, ptr: nat, last: nat, gbMask: nat,
                   ghost before: seq<int>, ghost before': seq<int>, ghost seed0: nat)
    returns (ptr': nat, last': nat, gbMask': nat, inside: bool)
    requires coef.Length == other.Length == 1024 && coef != other && x.Valid()
    requires gp < |x.f.lens| && win < x.f.lens[gp] && ptr == x.f.BandStart(gp, win, 0)
    requires At(x, before, coef[..], before', other[..], seed0, last, ptr)
    requires x.Keeps16(before) && Guarded(x, before, coef[..], seed0, gbMask, ptr)
    modifies coef, other
    ensures ptr' == x.f.BandStart(gp, win, 0) + x.f.winLen <= 1024
    ensures At(x, before, coef[..], before', other[..], seed0, last', ptr')
    ensures inside <==> x.f.maxSFB == 0 || (gp + 1) * x.f.maxSFB < 8 * |x.msMaskBits|
    ensures Guarded(x, before, coef[..], seed0, gbMask', ptr')
  {
    hide At, Guarded, Channel.Keeps16, Channel.IsBand, Channel.OwnerOf, Frame.Inside, Frame.BandLo, Frame.BandHi;
    MsMask.RowFits(gp, |x.f.lens|, x.f.maxSFB);
    var entry := gp * x.f.maxSFB;
    FirstByte(x, gp);
    var msMaskPtr: nat, msMaskOffset: nat := entry / 8, entry % 8;
    var msMask: nat := Down(x.msMaskBits[msMaskPtr], msMaskOffset);
    msMaskPtr := msMaskPtr + 1;
    ptr', last', gbMask', inside := ptr, last, gbMask, true;
    var sfb := 0;
    while sfb < x.f.maxSFB
      invariant 0 <= sfb <= x.f.maxSFB && ptr' == x.f.BandStart(gp, win, sfb)
      invariant x.AtMask(entry + sfb, msMask, msMaskOffset, msMaskPtr)
      invariant inside <==> sfb == 0 || entry + sfb < 8 * |x.msMaskBits|
      invariant Guarded(x, before, coef[..], seed0, gbMask', ptr')
      invariant At(x, before, coef[..], before', other[..], seed0, last', ptr')
    {
      x.BandEntry(gp, win, sfb);
      BandWidth(x, sfb);
      var width := x.f.tab[sfb + 1] - x.f.tab[sfb];
      ptr', last', gbMask' := PnsBand(x, coef, other, entry + sfb, ptr', width, msMask, last', gbMask', before, before', seed0);
      msMask, msMaskOffset, msMaskPtr, inside := NextMaskBit(x, entry + sfb, msMask, msMaskOffset, msMaskPtr);
      sfb := sfb + 1;
    }
    SkipGap(x, before, coef[..], before', other[..], seed0, last', gbMask', gp, win);
    ptr' := ptr' + (x.f.winLen - x.f.tab[x.f.maxSFB]);
  }

  lemma FirstByte(x: Channel, gp: nat)
    requires x.Valid() && gp < |x.f.lens|
    ensures gp * x.f.maxSFB / 8 < |x.msMaskBits|
  {
    hide Frame.Valid;
    MsMask.RowFits(gp, |x.f.lens|, x.f.maxSFB);
  }

  lemma AtStart(x: Channel, before: seq<int>, other: seq<int>, seed0: nat)
    requires x.Valid() && |before| == |other| == 1024 && IsUint32(seed0)
    ensures At(x, before, before, other, other, seed0, seed0, 0)
  {
  }

  /** PNS. Every noise coefficient of the channel ends as its entry's scaling of its band's noise, the
      other coefficients are untouched, and what channel 1 is handed is channel 0's unscaled noise.
      The flag is the one Dequantize computes, so the early return is the walk's own result. A walk
      reads behind the mask if and only if the entries fill its bytes. The guard-bit count only falls,
      to the largest that holds for the noise of the bands with energy. */
  method PNS(x: Channel, coef: array<int>, other: array<int>, pnsUsed: bool, pnsLastVal: nat, gbCurrent: int)
    returns (last: nat, gb: int, inside: bool)
    requires coef.Length == other.Length == 1024 && coef != other && x.Valid() && IsUint32(pnsLastVal)
    requires pnsUsed <==> Used(x.f, x.Books(), 1024, NOISE_HCB)
    requires x.Keeps16(coef[..]) && 0 <= gbCurrent <= 31
    modifies coef, other
    ensures At(x, old(coef[..]), coef[..], old(other[..]), other[..], pnsLastVal, last, 1024)
    ensures var loud := x.Loud(x.Noise(old(coef[..]), pnsLastVal));
      && 0 <= gb <= gbCurrent && AllBelow(coef[..], loud, 0, 1024, 31 - gb)
      && (gb < gbCurrent ==> !AllBelow(coef[..], loud, 0, 1024, 30 - gb))
    ensures inside <==> !pnsUsed || x.MaskSuffices()
  {
    hide At, Used, Guarded, AllBelow, Channel.Loud, Channel.Noise, Channel.Keeps16;
    ghost var before, before' := coef[..], other[..];
    if !pnsUsed {
      NoNoise(x, before, before', pnsLastVal);
      QuietLoud(x, before, pnsLastVal, 31 - gbCurrent);
      return pnsLastVal, gbCurrent, true;
    }
    last, inside := pnsLastVal, true;
    var gbMask := 0;
    GuardStart(x, before, pnsLastVal);
    var ptr, gp := 0, 0;
    AtStart(x, before, before', pnsLastVal);
    while gp < |x.f.lens|
      invariant 0 <= gp <= |x.f.lens|
      invariant inside <==> gp == 0 || x.f.maxSFB == 0 || gp * x.f.maxSFB < 8 * |x.msMaskBits|
      invariant ptr == if x.f.winLen == 128 then 128 * Start(x.f.lens, gp) else 1024 * gp
      invariant Guarded(x, before, coef[..], pnsLastVal, gbMask, ptr)
      invariant At(x, before, coef[..], before', other[..], pnsLastVal, last, ptr)
    {
      MsMask.RowFits(gp, |x.f.lens|, x.f.maxSFB);
      var win := 0;
      while win < x.f.lens[gp]
        invariant 0 <= win <= x.f.lens[gp]
        invariant win > 0 ==> (inside <==> x.f.maxSFB == 0 || (gp + 1) * x.f.maxSFB < 8 * |x.msMaskBits|)
        invariant ptr == if x.f.winLen == 128 then 128 * (Start(x.f.lens, gp) + win) else 1024 * (gp + win)
        invariant Guarded(x, before, coef[..], pnsLastVal, gbMask, ptr)
        invariant At(x, before, coef[..], before', other[..], pnsLastVal, last, ptr)
      {
        ptr, last, gbMask, inside := PnsWindow(x, coef, other, gp, win, ptr, last, gbMask, before, before', pnsLastVal);
        win := win + 1;
      }
      gp := gp + 1;
    }
    gb := GuardBits(x, gbMask, gbCurrent, before, coef[..], pnsLastVal);
  }

  /** The guard-bit update. */
  method GuardBits(x: Channel, gbMask: nat, gbCurrent: int, ghost before: seq<int>, ghost now: seq<int>, ghost seed0: nat) returns (gb: int)
    requires Guarded(x, before, now, seed0, gbMask, 1024) && 0 <= gbCurrent <= 31
    ensures var loud := x.Loud(x.Noise(before, seed0));
      && 0 <= gb <= gbCurrent && AllBelow(now, loud, 0, 1024, 31 - gb)
      && (gb < gbCurrent ==> !AllBelow(now, loud, 0, 1024, 30 - gb))
  {
    hide AllBelow, Channel.Loud, Channel.Noise, Channel.Valid;
    ghost var loud := x.Loud(x.Noise(before, seed0));
    var lead := CLZ(gbMask);
    gb := lead - 1;
    if gbMask == 0 { assert gbMask < Pow2(0); }
    assert gbMask < Pow2(31 - gb) <==> AllBelow(now, loud, 0, 1024, 31 - gb);
    if gb <= 30 { assert gbMask < Pow2(30 - gb) <==> AllBelow(now, loud, 0, 1024, 30 - gb); }
    if gbCurrent <= gb {
      MoreRoom(now, loud, 31 - gb, 31 - gbCurrent);
      gb := gbCurrent;
    }
  }

  lemma MoreRoom(s: seq<int>, on: seq<bool>, a: nat, b: nat)
    requires |s| == |on| == 1024 && a <= b && AllBelow(s, on, 0, 1024, a)
    ensures AllBelow(s, on, 0, 1024, b)
  {
    hide Pow2;
    if a < b { Pow2Grows(a, b); }
  }

  lemma QuietLoud(x: Channel, before: seq<int>, seed: nat, k: nat)
    requires x.Valid() && |before| == 1024 && !Used(x.f, x.Books(), 1024, NOISE_HCB)
    ensures AllBelow(before, x.Loud(x.Noise(before, seed)), 0, 1024, k)
  {
    hide Channel.Noise;
    forall c: nat | c < 1024 ensures !x.IsNoise(x.OwnerOf(c)) { x.f.AllInside(c); }
  }

  /** Without a noise codebook the walk changes nothing. */
  lemma NoNoise(x: Channel, before: seq<int>, other: seq<int>, seed: nat)
    requires x.Valid() && |before| == |other| == 1024 && IsUint32(seed)
    requires !Used(x.f, x.Books(), 1024, NOISE_HCB)
    ensures At(x, before, before, other, other, seed, seed, 1024)
  {
    forall c: nat | c < 1024 ensures !x.IsNoise(x.OwnerOf(c)) { x.f.AllInside(c); }
    NoneDrawn(x, 1024);
    forall c: nat | c < 1024 ensures x.Settled(before, before, x.Noise(before, seed), 1024, c) {
      x.BandAround(c);
    }
  }

  lemma {:induction false} NoneDrawn(x: Channel, ptr: nat)
    requires x.Valid() && ptr <= 1024 && forall c: nat {:trigger x.OwnerOf(c)} :: c < ptr ==> !x.IsNoise(x.OwnerOf(c))
    ensures x.Drawn(ptr) == 0
  {
    if ptr > 0 {
      NoneDrawn(x, ptr - 1);
      assert !x.IsNoise(x.OwnerOf(ptr - 1));
    }
  }

  lemma SameOwner(x0: Channel, x1: Channel, c: nat)
    requires x0.Valid() && x1 == x0.(ch := 1, sf := x1.sf) && x1.Valid() && c < 1024
    ensures x0.OwnerOf(c) == x1.OwnerOf(c)
  {
  }

  /** In a correlated noise entry channel 1 keeps the noise channel 0 handed it. */
  lemma HandedNoise(x0: Channel, x1: Channel, before0: seq<int>, before1: seq<int>, handed1: seq<int>, s0: nat, s1: nat, c: nat)
    requires x0.ch == 0 && x1 == x0.(ch := 1, sf := x1.sf) && x0.Valid() && x1.Valid() && c < 1024
    requires |before0| == 1024 && x0.Handed(before1, handed1, x0.Noise(before0, s0), 1024)
    requires x1.IsNoise(x1.OwnerOf(c)) && x1.Correlated(x1.OwnerOf(c))
    ensures x1.Noise(handed1, s1)[c] == x0.Noise(before0, s0)[c]
  {
    hide SeedAfter, NoiseSample, Channel.Drawn, Channel.OwnerOf, Channel.Valid;
    SameOwner(x0, x1, c);
    assert !x1.Draws(x1.OwnerOf(c)) && x0.Hands(x0.OwnerOf(c));
  }

  /** What the walk of a channel needs of the noise it keeps: channel 0 keeps none, and after its walk
      channel 1 keeps what it was handed. */
  lemma KeptNoise(x0: Channel, x1: Channel, before0: seq<int>, before1: seq<int>, handed1: seq<int>, s0: nat)
    requires x0.ch == 0 && x1 == x0.(ch := 1, sf := x1.sf) && x0.Valid() && x1.Valid() && |before0| == 1024
    requires x0.Handed(before1, handed1, x0.Noise(before0, s0), 1024)
    ensures x0.Keeps16(before0) && x1.Keeps16(handed1)
  {
    hide SeedAfter, NoiseSample, Channel.Drawn, Channel.OwnerOf, Channel.Valid, Channel.Noise;
    forall c: nat | c < 1024 && x1.IsNoise(x1.OwnerOf(c)) && !x1.Draws(x1.OwnerOf(c)) ensures -0x8000 <= handed1[c] < 0x8000 {
      SameOwner(x0, x1, c);
      assert x0.Hands(x0.OwnerOf(c));
      x0.NoiseIs16(before0, s0, c);
    }
  }

  /** The coefficients of the pair after both channels' walks: in every correlated band both channels
      are scalings of one and the same noise vector. */
  lemma SharedNoise(x0: Channel, x1: Channel, before0: seq<int>, now0: seq<int>, before1: seq<int>, handed1: seq<int>,
                    now1: seq<int>, other: seq<int>, nowOther: seq<int>, s0: nat, s1: nat, s1': nat, s2: nat, c: nat)
    requires x0.ch == 0 && x1 == x0.(ch := 1, sf := x1.sf) && c < 1024
    requires At(x0, before0, now0, before1, handed1, s0, s1, 1024)
    requires At(x1, handed1, now1, other, nowOther, s1', s2, 1024)
    requires x1.IsNoise(x1.OwnerOf(c)) && x1.Correlated(x1.OwnerOf(c))
    ensures x0.f.Inside(c) && 0 <= x0.f.BandLo(c) <= c < x0.f.BandHi(c) <= 1024
    ensures var e, v, i := x0.OwnerOf(c), x0.Noise(before0, s0)[x0.f.BandLo(c)..x0.f.BandHi(c)], c - x0.f.BandLo(c);
      now0[c] == Scale(v, x0.sf[e], i) && now1[c] == Scale(v, x1.sf[e], i)
  {
    hide Scale, SeedAfter, NoiseSample, Channel.Drawn, Channel.OwnerOf, Channel.Valid, Channel.Noise;
    hide Frame.Inside, Frame.BandLo, Frame.BandHi;
    assert x0.Settled(before0, now0, x0.Noise(before0, s0), 1024, c);
    assert x1.Settled(handed1, now1, x1.Noise(handed1, s1'), 1024, c);
    SameOwner(x0, x1, c);
    assert x0.IsNoise(x0.OwnerOf(c));
    x0.NoiseScaled(x0.OwnerOf(c));
    x1.NoiseScaled(x1.OwnerOf(c));
    var lo, hi := x0.f.BandLo(c), x0.f.BandHi(c);
    var n0, n1 := x0.Noise(before0, s0), x1.Noise(handed1, s1');
    forall k: nat | lo <= k < hi ensures n1[k] == n0[k] {
      x0.SameBand(c, k);
      SameOwner(x0, x1, k);
      HandedNoise(x0, x1, before0, before1, handed1, s0, s1', k);
    }
    assert n1[lo..hi] == n0[lo..hi];
  }
}
