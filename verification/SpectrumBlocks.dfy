/** codec/aacdecode/huffman.c:136-442: whole sections and whole channels of coefficients.
    The printed form of a channel follows the order of the spectral data syntax: window
    groups, then bands, then the windows of the group. */
module SpectrumBlocks {
  import opened Fixed
  import opened Bitstream
  import opened Printing
  import opened HuffTables
  import opened Spectrum
  import opened Layout
  import opened PulseData

  // ---- one section ----

  function VectorSize(cb: nat): nat { if cb <= 4 then 4 else 2 }

  predicate VectorIn(cb: nat, v: seq<int>)
  {
    |v| == VectorSize(cb) && forall i :: 0 <= i < |v| ==> InBook(cb, v[i])
  }

  function PrintVector(cb: nat, v: seq<int>): seq<Bit>
    requires 1 <= cb <= 11 && VectorIn(cb, v)
  {
    if cb <= 4 then PrintQuad(cb, v) else if cb <= 10 then PrintPair(cb, v) else PrintEsc(v)
  }

  /** Codebook 0, and those above 11, code no coefficients. */
  predicate IsSpectral(cb: nat) { 1 <= cb <= 11 }

  predicate BandIn(cb: nat, v: seq<int>)
  {
    |v| % 4 == 0 && forall i :: 0 <= i < |v| ==> InBook(cb, v[i])
  }

  predicate Aligned(cb: nat, i: nat) { if cb <= 4 then i % 4 == 0 else i % 2 == 0 }

  /** The printed vectors of a section from coefficient i on. */
  function PrintBand(cb: nat, v: seq<int>, i: nat): seq<Bit>
    requires BandIn(cb, v)
    decreases |v| - i
  {
    if !IsSpectral(cb) || i + VectorSize(cb) > |v| then []
    else PrintVector(cb, v[i..i + VectorSize(cb)]) + PrintBand(cb, v, i + VectorSize(cb))
  }

  /** Section v is printed at position p, from coefficient i on. */
  ghost predicate BandAt(d: seq<Byte>, p: nat, cb: nat, v: seq<int>, i: nat)
  {
    BandIn(cb, v) && Matches(d, p, PrintBand(cb, v, i))
  }

  lemma BandStep(d: seq<Byte>, p: nat, cb: nat, v: seq<int>, i: nat)
    requires IsSpectral(cb) && BandAt(d, p, cb, v, i) && i + VectorSize(cb) <= |v|
    ensures var t := v[i..i + VectorSize(cb)];
      VectorIn(cb, t) && Matches(d, p, PrintVector(cb, t))
      && BandAt(d, p + |PrintVector(cb, t)|, cb, v, i + VectorSize(cb))
      && |PrintBand(cb, v, i)| == |PrintVector(cb, t)| + |PrintBand(cb, v, i + VectorSize(cb))|
  {
    hide Matches, PrintVector, InBook;
    MatchesAppend(d, p, PrintVector(cb, v[i..i + VectorSize(cb)]), PrintBand(cb, v, i + VectorSize(cb)));
  }

  method UnpackZeros(nVals: nat, coef: array<int>, off: nat)
    requires nVals % 4 == 0 && off + nVals <= coef.Length
    modifies coef
    ensures forall c :: 0 <= c < coef.Length ==> coef[c] == if off <= c < off + nVals then 0 else old(coef[c])
  {
    var n, k: int := nVals, off;
    while n > 0
      invariant n % 4 == 0 && 0 <= n && k + n == off + nVals
      invariant forall c :: 0 <= c < coef.Length ==> coef[c] == if off <= c < k then 0 else old(coef[c])
    {
      coef[k], coef[k + 1], coef[k + 2], coef[k + 3] := 0, 0, 0, 0;
      k := k + 4;
      n := n - 4;
    }
  }

  /** UnpackQuads, UnpackPairsNoEsc and UnpackPairsEsc: a section of nVals coefficients. What the
      bits print is what is written; nothing outside the section changes. */
  method UnpackSection(bsi: BitReader, cb: nat, nVals: nat, coef: array<int>, off: nat, ghost v: seq<int>)
    requires bsi.Valid() && IsSpectral(cb) && nVals % 4 == 0 && off + nVals <= coef.Length
    modifies bsi, coef
    ensures bsi.Valid() && bsi.View() == old(bsi.View())
    ensures forall c :: 0 <= c < coef.Length && !(off <= c < off + nVals) ==> coef[c] == old(coef[c])
    ensures |v| == nVals && BandAt(old(bsi.View()), old(bsi.Pos()), cb, v, 0) ==>
              && bsi.Pos() == old(bsi.Pos()) + |PrintBand(cb, v, 0)|
              && forall c :: off <= c < off + nVals ==> coef[c] == v[c - off]
  {
    FirstAligned(cb);
    hide Matches, PrintBand, BandAt, BandIn, CacheWord, Bits, IsSpectral, VectorSize, Aligned;
    ghost var d, p := bsi.View(), bsi.Pos();
    ghost var ok := |v| == nVals && BandAt(d, p, cb, v, 0);
    if ok { BandParts(d, p, cb, v); }
    var i := 0;
    while i < nVals
      invariant bsi.Valid() && bsi.View() == d
      invariant 0 <= i <= nVals && Aligned(cb, i)
      invariant forall c :: 0 <= c < coef.Length && !(off <= c < off + i) ==> coef[c] == old(coef[c])
      invariant ok ==> BandIn(cb, v) && BandAt(d, bsi.Pos(), cb, v, i)
      invariant ok ==> bsi.Pos() + |PrintBand(cb, v, i)| == p + |PrintBand(cb, v, 0)|
      invariant ok ==> forall c :: off <= c < off + i ==> coef[c] == v[c - off]
    {
      NextAligned(cb, i, nVals);
      UnpackNext(bsi, cb, coef, off, i, v, ok);
      i := i + VectorSize(cb);
    }
    if ok { BandEnd(cb, v); }
  }

  lemma FirstAligned(cb: nat)
    ensures Aligned(cb, 0)
  {
  }

  lemma NextAligned(cb: nat, i: nat, nVals: nat)
    requires Aligned(cb, i) && i < nVals && nVals % 4 == 0
    ensures i + VectorSize(cb) <= nVals && Aligned(cb, i + VectorSize(cb)) && VectorSize(cb) > 0
  {
    if cb <= 4 {
      NextMultiple(nVals, 4, i);
    } else {
      Even(nVals);
      NextMultiple(nVals, 2, i);
    }
  }

  lemma Even(n: nat)
    requires n % 4 == 0
    ensures n % 2 == 0
  {
    QuotientIs(n, 2, 2 * (n / 4), 0);
  }

  /** The next vector of a section, in the section's own terms. */
  method UnpackNext(bsi: BitReader, cb: nat, coef: array<int>, off: nat, i: nat, ghost v: seq<int>, ghost ok: bool)
    requires bsi.Valid() && IsSpectral(cb) && off + i + VectorSize(cb) <= coef.Length
    requires ok ==> i + VectorSize(cb) <= |v| && BandAt(bsi.View(), bsi.Pos(), cb, v, i)
    modifies bsi, coef
    ensures bsi.Valid() && bsi.View() == old(bsi.View())
    ensures forall c :: 0 <= c < coef.Length && !(off + i <= c < off + i + VectorSize(cb)) ==> coef[c] == old(coef[c])
    ensures ok ==> BandAt(bsi.View(), bsi.Pos(), cb, v, i + VectorSize(cb))
    ensures ok ==> BandIn(cb, v) && bsi.Pos() + |PrintBand(cb, v, i + VectorSize(cb))| == old(bsi.Pos()) + |PrintBand(cb, v, i)|
    ensures ok ==> forall c :: off + i <= c < off + i + VectorSize(cb) ==> coef[c] == v[c - off]
  {
    hide Matches, PrintVector, InBook, PrintBand, VectorIn, CacheWord, Bits, IsSpectral, BandIn;
    ghost var t := if ok then v[i..i + VectorSize(cb)] else [];
    if ok { BandStep(bsi.View(), bsi.Pos(), cb, v, i); }
    UnpackVector(bsi, cb, coef, off + i, t, ok);
    if ok {
      forall c | off + i <= c < off + i + VectorSize(cb) ensures coef[c] == v[c - off] { assert coef[c] == t[c - (off + i)]; }
    }
  }

  lemma BandParts(d: seq<Byte>, p: nat, cb: nat, v: seq<int>)
    requires BandAt(d, p, cb, v, 0)
    ensures BandIn(cb, v)
  {
  }

  lemma BandEnd(cb: nat, v: seq<int>)
    requires BandIn(cb, v)
    ensures PrintBand(cb, v, |v|) == []
  {
  }

  /** One iteration of the unpacker's loop. */
  method UnpackVector(bsi: BitReader, cb: nat, coef: array<int>, k: nat, ghost v: seq<int>, ghost ok: bool)
    requires bsi.Valid() && IsSpectral(cb) && k + VectorSize(cb) <= coef.Length
    requires ok ==> VectorIn(cb, v) && Matches(bsi.View(), bsi.Pos(), PrintVector(cb, v))
    modifies bsi, coef
    ensures bsi.Valid() && bsi.View() == old(bsi.View())
    ensures forall c :: 0 <= c < coef.Length && !(k <= c < k + VectorSize(cb)) ==> coef[c] == old(coef[c])
    ensures ok ==> bsi.Pos() == old(bsi.Pos()) + |PrintVector(cb, v)|
    ensures ok ==> forall c :: k <= c < k + VectorSize(cb) ==> coef[c] == v[c - k]
  {
    hide Matches, PrintQuad, PrintPair, PrintEsc;
    ghost var t := if ok then v else [];
    if cb <= 4 {
      var w, x, y, z := UnpackQuad(bsi, cb, t);
      coef[k], coef[k + 1], coef[k + 2], coef[k + 3] := w, x, y, z;
      if ok { assert v == [w, x, y, z]; }
    } else {
      var y, z;
      if cb <= 10 {
        y, z := UnpackPair(bsi, cb, t);
      } else {
        y, z := UnpackEsc(bsi, t);
      }
      coef[k], coef[k + 1] := y, z;
      if ok { assert v == [y, z]; }
    }
  }

  /** The codebook dispatch of the spectral decoders. */
  method UnpackBand(bsi: BitReader, cb: nat, nVals: nat, coef: array<int>, off: nat, ghost v: seq<int>)
    requires bsi.Valid() && nVals % 4 == 0 && off + nVals <= coef.Length
    modifies bsi, coef
    ensures bsi.Valid() && bsi.View() == old(bsi.View())
    ensures forall c :: 0 <= c < coef.Length && !(off <= c < off + nVals) ==> coef[c] == old(coef[c])
    ensures |v| == nVals && BandAt(old(bsi.View()), old(bsi.Pos()), cb, v, 0) ==>
              && bsi.Pos() == old(bsi.Pos()) + |PrintBand(cb, v, 0)|
              && forall c :: off <= c < off + nVals ==> coef[c] == v[c - off]
  {
    hide Matches, PrintVector;
    if cb == 0 || cb > 11 {
      UnpackZeros(nVals, coef, off);
    } else {
      UnpackSection(bsi, cb, nVals, coef, off, v);
    }
  }

  // ---- one channel ----

  /** A channel to be coded: its layout, the codebook of each entry, its 1024 coefficients. */
  datatype Coded = Coded(f: Frame, books: seq<nat>, cs: seq<int>)
  {
    ghost predicate Valid()
    {
      f.Valid() && |cs| == 1024 && |books| >= |f.lens| * f.maxSFB
    }

    ghost function Book(g: nat, sfb: nat): nat
      requires Valid() && g < |f.lens| && sfb <= f.maxSFB
    {
      if sfb < f.maxSFB then (f.EntryInRange(g, sfb); books[f.Entry(g, sfb)]) else 0
    }

    ghost function Region(g: nat, win: nat, sfb: nat): seq<int>
      requires Valid() && g < |f.lens| && win < f.lens[g] && sfb <= f.maxSFB
    {
      f.RegionInside(g, win, sfb);
      cs[f.BandStart(g, win, sfb)..f.BandStart(g, win, sfb) + (f.Hi(sfb) - f.Lo(sfb))]
    }

    /** Every band's coefficients are in its codebook; uncoded ones are zero. */
    ghost predicate Legal()
    {
      Valid() && forall g: nat, win: nat, sfb: nat | g < |f.lens| && win < f.lens[g] && sfb <= f.maxSFB ::
        BandIn(Book(g, sfb), Region(g, win, sfb))
    }

    /** The printed spectral data from window win of band sfb of group g on. */
    ghost function PrintFrom(g: nat, sfb: nat, win: nat): seq<Bit>
      requires Valid() && g <= |f.lens| && sfb <= f.maxSFB && (g < |f.lens| ==> win <= f.lens[g])
      decreases |f.lens| - g, f.maxSFB - sfb, if g < |f.lens| then f.lens[g] - win else 0
    {
      if g == |f.lens| then []
      else if win < f.lens[g] then
        (if BandIn(Book(g, sfb), Region(g, win, sfb)) then PrintBand(Book(g, sfb), Region(g, win, sfb), 0) else [])
        + PrintFrom(g, sfb, win + 1)
      else if sfb < f.maxSFB then PrintFrom(g, sfb + 1, 0)
      else PrintFrom(g + 1, 0, 0)
    }
  }

  /** Coefficient c is written before the decoder reaches window win of band sfb of group g. */
  predicate Done(f: Frame, g: nat, sfb: nat, win: nat, c: nat)
    requires g <= |f.lens| && sfb <= f.maxSFB < |f.tab|
  {
    || f.Win(c) < Start(f.lens, g)
    || (g < |f.lens| && f.Win(c) < Start(f.lens, g + 1)
        && (f.Off(c) < f.Lo(sfb) || (f.Off(c) < f.Hi(sfb) && f.Win(c) < Start(f.lens, g) + win)))
  }

  lemma DoneStep(f: Frame, g: nat, sfb: nat, win: nat, c: nat)
    requires f.Valid() && g < |f.lens| && win < f.lens[g] && sfb <= f.maxSFB && c < 1024
    ensures var lo, n := f.BandStart(g, win, sfb), f.Hi(sfb) - f.Lo(sfb);
      && (Done(f, g, sfb, win + 1, c) <==> Done(f, g, sfb, win, c) || lo <= c < lo + n)
      && (lo <= c < lo + n ==> !Done(f, g, sfb, win, c) && f.Inside(c) && f.Owner(c) == f.Entry(g, sfb))
  {
    f.RegionInside(g, win, sfb);
    var lo, n := f.BandStart(g, win, sfb), f.Hi(sfb) - f.Lo(sfb);
    if lo <= c < lo + n { f.BandOwner(g, win, sfb, c); }
  }

  lemma DoneNextBand(f: Frame, g: nat, sfb: nat, c: nat)
    requires f.Valid() && g < |f.lens| && sfb <= f.maxSFB && c < 1024
    ensures sfb < f.maxSFB ==> (Done(f, g, sfb, f.lens[g], c) <==> Done(f, g, sfb + 1, 0, c))
    ensures sfb == f.maxSFB ==> (Done(f, g, sfb, f.lens[g], c) <==> Done(f, g + 1, 0, 0, c))
  {
    if sfb < f.maxSFB { TableMono(f.tab, f.winLen, sfb, sfb + 1); }
  }

  /** The write log so far: each coefficient done was written once, for its own entry. */
  ghost predicate Filled(f: Frame, log: seq<seq<int>>, g: nat, sfb: nat, win: nat)
  {
    && f.Valid() && g <= |f.lens| && sfb <= f.maxSFB && |log| == 1024
    && forall c :: 0 <= c < 1024 ==> f.Inside(c) && log[c] == if Done(f, g, sfb, win, c) then [f.Owner(c)] else []
  }

  ghost predicate Decoded(x: Coded, coef: seq<int>, g: nat, sfb: nat, win: nat)
  {
    && x.Legal() && g <= |x.f.lens| && sfb <= x.f.maxSFB && |coef| == 1024
    && forall c :: 0 <= c < 1024 && Done(x.f, g, sfb, win, c) ==> coef[c] == x.cs[c]
  }

  /** The log after entry e wrote n coefficients from lo on. */
  ghost function Logged(log: seq<seq<int>>, lo: int, n: int, e: int): (r: seq<seq<int>>)
    ensures |r| == |log|
    ensures forall c :: 0 <= c < |log| ==> r[c] == if lo <= c < lo + n then log[c] + [e] else log[c]
  {
    seq(|log|, c requires 0 <= c < |log| => if lo <= c < lo + n then log[c] + [e] else log[c])
  }

  lemma FilledStep(f: Frame, log: seq<seq<int>>, g: nat, sfb: nat, win: nat)
    requires Filled(f, log, g, sfb, win) && g < |f.lens| && win < f.lens[g]
    ensures Filled(f, Logged(log, f.BandStart(g, win, sfb), f.Hi(sfb) - f.Lo(sfb), f.Entry(g, sfb)), g, sfb, win + 1)
  {
    hide Done;
    var r := Logged(log, f.BandStart(g, win, sfb), f.Hi(sfb) - f.Lo(sfb), f.Entry(g, sfb));
    forall c | 0 <= c < 1024
      ensures f.Inside(c) && r[c] == if Done(f, g, sfb, win + 1, c) then [f.Owner(c)] else []
    {
      DoneStep(f, g, sfb, win, c);
    }
  }

  lemma FilledNextBand(f: Frame, log: seq<seq<int>>, g: nat, sfb: nat)
    requires g < |f.lens| && Filled(f, log, g, sfb, f.lens[g])
    ensures sfb < f.maxSFB ==> Filled(f, log, g, sfb + 1, 0)
    ensures sfb == f.maxSFB ==> Filled(f, log, g + 1, 0, 0)
  {
    hide Done;
    forall c | 0 <= c < 1024
      ensures sfb < f.maxSFB ==> (Done(f, g, sfb, f.lens[g], c) <==> Done(f, g, sfb + 1, 0, c))
      ensures sfb == f.maxSFB ==> (Done(f, g, sfb, f.lens[g], c) <==> Done(f, g + 1, 0, 0, c))
    {
      DoneNextBand(f, g, sfb, c);
    }
  }

  lemma DecodedNextBand(x: Coded, coef: seq<int>, g: nat, sfb: nat)
    requires x.Valid() && g < |x.f.lens| && Decoded(x, coef, g, sfb, x.f.lens[g])
    ensures sfb < x.f.maxSFB ==> Decoded(x, coef, g, sfb + 1, 0)
    ensures sfb == x.f.maxSFB ==> Decoded(x, coef, g + 1, 0, 0)
  {
    hide Done;
    forall c | 0 <= c < 1024
      ensures sfb < x.f.maxSFB ==> (Done(x.f, g, sfb, x.f.lens[g], c) <==> Done(x.f, g, sfb + 1, 0, c))
      ensures sfb == x.f.maxSFB ==> (Done(x.f, g, sfb, x.f.lens[g], c) <==> Done(x.f, g + 1, 0, 0, c))
    {
      DoneNextBand(x.f, g, sfb, c);
    }
  }

  lemma DecodedStep(x: Coded, before: seq<int>, after: seq<int>, g: nat, sfb: nat, win: nat)
    requires Decoded(x, before, g, sfb, win) && g < |x.f.lens| && win < x.f.lens[g] && |after| == 1024
    requires var lo, n := x.f.BandStart(g, win, sfb), x.f.Hi(sfb) - x.f.Lo(sfb);
      forall c :: 0 <= c < 1024 ==> after[c] == if lo <= c < lo + n then x.cs[c] else before[c]
    ensures Decoded(x, after, g, sfb, win + 1)
  {
    hide Done;
    forall c | 0 <= c < 1024 && Done(x.f, g, sfb, win + 1, c) ensures after[c] == x.cs[c] {
      DoneStep(x.f, g, sfb, win, c);
    }
  }

  /** One band in every window of its group: the interleaved order of short blocks. */
  method DecodeWindows(bsi: BitReader, coef: array<int>, ghost x: Coded, g: nat, sfb: nat, len: nat,
                       cb: nat, nVals: nat, base: nat, ghost log: seq<seq<int>>, ghost ok: bool)
    returns (ghost log': seq<seq<int>>)
    requires bsi.Valid() && coef.Length == 1024
    requires x.Valid() && g < |x.f.lens| && sfb <= x.f.maxSFB && len == x.f.lens[g]
    requires cb == x.Book(g, sfb) && nVals == x.f.Hi(sfb) - x.f.Lo(sfb)
    requires base == x.f.BandStart(g, 0, sfb) && (x.f.winLen == 128 || len == 1)
    requires Filled(x.f, log, g, sfb, 0)
    requires ok ==> Decoded(x, coef[..], g, sfb, 0) && Matches(bsi.View(), bsi.Pos(), x.PrintFrom(g, sfb, 0))
    modifies bsi, coef
    ensures bsi.Valid() && bsi.View() == old(bsi.View())
    ensures Filled(x.f, log', g, sfb, len)
    ensures ok ==> Decoded(x, coef[..], g, sfb, len) && Matches(bsi.View(), bsi.Pos(), x.PrintFrom(g, sfb, len))
    ensures ok ==> bsi.Pos() + |x.PrintFrom(g, sfb, len)| == old(bsi.Pos()) + |x.PrintFrom(g, sfb, 0)|
  {
    hide Matches, Done, PrintBand, Filled, Decoded, BandIn, BandAt, Coded.PrintFrom, Coded.Legal;
    ghost var d, p := bsi.View(), bsi.Pos();
    log' := log;
    var win := 0;
    while win < len
      invariant 0 <= win <= len && bsi.Valid() && bsi.View() == d
      invariant Filled(x.f, log', g, sfb, win)
      invariant ok ==> Decoded(x, coef[..], g, sfb, win) && Matches(d, bsi.Pos(), x.PrintFrom(g, sfb, win))
      invariant ok ==> bsi.Pos() + |x.PrintFrom(g, sfb, win)| == p + |x.PrintFrom(g, sfb, 0)|
    {
      var offset := win * 128;
      x.f.RegionInside(g, win, sfb);
      ghost var before := coef[..];
      ghost var v := x.Region(g, win, sfb);
      if ok { PrintStep(x, d, bsi.Pos(), before, g, sfb, win); }
      UnpackBand(bsi, cb, nVals, coef, base + offset, v);
      if ok { DecodedStep(x, before, coef[..], g, sfb, win); }
      FilledStep(x.f, log', g, sfb, win);
      log' := Logged(log', base + offset, nVals, x.f.Entry(g, sfb));
      win := win + 1;
    }
  }

  lemma PrintStep(x: Coded, d: seq<Byte>, p: nat, coef: seq<int>, g: nat, sfb: nat, win: nat)
    requires x.Valid() && g < |x.f.lens| && win < x.f.lens[g] && sfb <= x.f.maxSFB
    requires Decoded(x, coef, g, sfb, win) && Matches(d, p, x.PrintFrom(g, sfb, win))
    ensures var v, cb := x.Region(g, win, sfb), x.Book(g, sfb);
      && BandIn(cb, v) && BandAt(d, p, cb, v, 0)
      && Matches(d, p + |PrintBand(cb, v, 0)|, x.PrintFrom(g, sfb, win + 1))
      && |x.PrintFrom(g, sfb, win)| == |PrintBand(cb, v, 0)| + |x.PrintFrom(g, sfb, win + 1)|
  {
    hide Matches, Done, PrintBand;
    var v, cb := x.Region(g, win, sfb), x.Book(g, sfb);
    assert BandIn(cb, v);
    MatchesAppend(d, p, PrintBand(cb, v, 0), x.PrintFrom(g, sfb, win + 1));
  }

  lemma PrintNextBand(x: Coded, g: nat, sfb: nat)
    requires x.Valid() && g < |x.f.lens| && sfb <= x.f.maxSFB
    ensures sfb < x.f.maxSFB ==> x.PrintFrom(g, sfb, x.f.lens[g]) == x.PrintFrom(g, sfb + 1, 0)
    ensures sfb == x.f.maxSFB ==> x.PrintFrom(g, sfb, x.f.lens[g]) == x.PrintFrom(g + 1, 0, 0)
  {
    hide PrintBand, BandIn;
  }

  /** All bands of one group, then the zeros above them. */
  method DecodeGroup(bsi: BitReader, coef: array<int>, f: Frame, books: seq<nat>, g: nat, coefPtr: nat, codeBook: nat,
                     ghost x: Coded, ghost log: seq<seq<int>>, ghost ok: bool)
    returns (ghost log': seq<seq<int>>)
    requires bsi.Valid() && coef.Length == 1024
    requires x.Valid() && x.f == f && x.books == books && g < |f.lens| && f.winLen == 128
    requires coefPtr == 128 * Start(x.f.lens, g) && codeBook == g * x.f.maxSFB
    requires Filled(x.f, log, g, 0, 0)
    requires ok ==> Decoded(x, coef[..], g, 0, 0) && Matches(bsi.View(), bsi.Pos(), x.PrintFrom(g, 0, 0))
    modifies bsi, coef
    ensures bsi.Valid() && bsi.View() == old(bsi.View())
    ensures Filled(x.f, log', g + 1, 0, 0)
    ensures ok ==> Decoded(x, coef[..], g + 1, 0, 0) && Matches(bsi.View(), bsi.Pos(), x.PrintFrom(g + 1, 0, 0))
    ensures ok ==> bsi.Pos() + |x.PrintFrom(g + 1, 0, 0)| == old(bsi.Pos()) + |x.PrintFrom(g, 0, 0)|
  {
    hide Matches, Done, PrintBand, Filled, Decoded, Coded.PrintFrom, Coded.Legal;
    ghost var d, p := bsi.View(), bsi.Pos();
    log' := log;
    var sfb, ptr := 0, coefPtr;
    while sfb < f.maxSFB
      invariant 0 <= sfb <= x.f.maxSFB && bsi.Valid() && bsi.View() == d
      invariant ptr == coefPtr + x.f.tab[sfb]
      invariant Filled(x.f, log', g, sfb, 0)
      invariant ok ==> Decoded(x, coef[..], g, sfb, 0) && Matches(d, bsi.Pos(), x.PrintFrom(g, sfb, 0))
      invariant ok ==> bsi.Pos() + |x.PrintFrom(g, sfb, 0)| == p + |x.PrintFrom(g, 0, 0)|
    {
      var nVals := f.tab[sfb + 1] - f.tab[sfb];
      x.f.EntryInRange(g, sfb);
      var cb := books[codeBook + sfb];
      log' := DecodeWindows(bsi, coef, x, g, sfb, f.lens[g], cb, nVals, ptr, log', ok);
      FilledNextBand(x.f, log', g, sfb);
      PrintNextBand(x, g, sfb);
      if ok { DecodedNextBand(x, coef[..], g, sfb); }
      ptr := ptr + nVals;
      sfb := sfb + 1;
    }
    TableMono(x.f.tab, 128, sfb, |x.f.tab| - 1);
    var nVals := 128 - f.tab[sfb];
    log' := DecodeWindows(bsi, coef, x, g, sfb, f.lens[g], 0, nVals, ptr, log', ok);
    FilledNextBand(x.f, log', g, sfb);
    PrintNextBand(x, g, sfb);
    if ok { DecodedNextBand(x, coef[..], g, sfb); }
  }

  const ERR_AAC_NONE := 0
  const ERR_AAC_HUFFMAN_ERROR := -1
  const OUTSIDE_TABLE := -2    // no result of the original, which reads past its offset table there

  /** The guard of both spectral decoders. */
  predicate PassesGuard(sampRateIdx: int) { !(sampRateIdx > NUM_SAMPLE_RATES || sampRateIdx < 0) }

  /** What passes the guard is looked up inside the offset tables if and only if it is below the number
      of rates; that number itself passes. */
  lemma LookupAfterGuard()
    ensures forall i: int :: PassesGuard(i) ==> (i < |SF_BAND_TAB_SHORT_OFFSET| <==> i < NUM_SAMPLE_RATES)
    ensures forall i: int :: PassesGuard(i) ==> (i < |SF_BAND_TAB_LONG_OFFSET| <==> i < NUM_SAMPLE_RATES)
    ensures PassesGuard(12) && |SF_BAND_TAB_SHORT_OFFSET| == |SF_BAND_TAB_LONG_OFFSET| == 12
  {
  }

  /** The layout DecodeSpectrumShort works with. */
  function ShortFrame(lens: seq<nat>, sampRateIdx: nat, maxSFB: nat): Frame
  {
    Frame(lens, 128, SfBandTabShort(sampRateIdx), maxSFB)
  }

  function LongFrame(sampRateIdx: nat, maxSFB: nat): Frame
  {
    Frame([1], 1024, SfBandTabLong(sampRateIdx), maxSFB)
  }

  /** Every coefficient was written exactly once, for the entry that owns it. */
  ghost predicate WrittenOnce(f: Frame, log: seq<seq<int>>)
  {
    |log| == 1024 && forall c :: 0 <= c < 1024 ==> f.Inside(c) && log[c] == [f.Owner(c)]
  }

  lemma AllDone(f: Frame, log: seq<seq<int>>)
    requires f.Valid() && Filled(f, log, |f.lens|, 0, 0)
    ensures WrittenOnce(f, log)
  {
    forall c | 0 <= c < 1024 ensures Done(f, |f.lens|, 0, 0, c) { f.AllInside(c); }
  }

  lemma NothingDone(x: Coded, coef: seq<int>)
    requires x.Valid() && |coef| == 1024
    ensures Filled(x.f, seq(1024, _ => []), 0, 0, 0)
    ensures x.Legal() ==> Decoded(x, coef, 0, 0, 0)
  {
    forall c | 0 <= c < 1024 ensures x.f.Inside(c) { x.f.AllInside(c); }
  }

  lemma DecodedAll(x: Coded, coef: seq<int>)
    requires Decoded(x, coef, |x.f.lens|, 0, 0)
    ensures coef == x.cs && x.PrintFrom(|x.f.lens|, 0, 0) == []
  {
    forall c | 0 <= c < 1024 ensures coef[c] == x.cs[c] {
      x.f.AllInside(c);
      assert Done(x.f, |x.f.lens|, 0, 0, c);
    }
  }

  /** DecodeSpectrumShort. Every coefficient is written once, by the entry that owns it, and
      printed coefficients are read back whole, at exactly the printed length. */
  method DecodeSpectrumShort(bsi: BitReader, coef: array<int>, sampRateIdx: int, lens: seq<nat>, maxSFB: nat,
                             sfbCodeBook: seq<nat>, ghost cs: seq<int>)
    returns (err: int, ghost log: seq<seq<int>>)
    requires bsi.Valid() && coef.Length == 1024 && |cs| == 1024
    requires 0 <= sampRateIdx < NUM_SAMPLE_RATES ==> Coded(ShortFrame(lens, sampRateIdx, maxSFB), sfbCodeBook, cs).Valid()
    modifies bsi, coef
    ensures bsi.Valid() && bsi.View() == old(bsi.View())
    ensures err == if 0 <= sampRateIdx < NUM_SAMPLE_RATES then ERR_AAC_NONE else if PassesGuard(sampRateIdx) then OUTSIDE_TABLE
                   else ERR_AAC_HUFFMAN_ERROR
    ensures err == ERR_AAC_NONE ==> WrittenOnce(ShortFrame(lens, sampRateIdx, maxSFB), log)
    ensures err == ERR_AAC_NONE ==>
      var x := Coded(ShortFrame(lens, sampRateIdx, maxSFB), sfbCodeBook, cs);
      x.Legal() && Matches(old(bsi.View()), old(bsi.Pos()), x.PrintFrom(0, 0, 0)) ==>
        coef[..] == cs && bsi.Pos() == old(bsi.Pos()) + |x.PrintFrom(0, 0, 0)|
    ensures err != ERR_AAC_NONE ==> coef[..] == old(coef[..]) && bsi.Pos() == old(bsi.Pos())
  {
    hide Matches, Done, PrintBand, Filled, Decoded, BandIn, BandAt, Coded.PrintFrom, Coded.Legal, SfBandTabShort, BandTable;
    log := seq(1024, _ => []);
    if sampRateIdx > NUM_SAMPLE_RATES || sampRateIdx < 0 {
      return ERR_AAC_HUFFMAN_ERROR, log;
    }
    if sampRateIdx >= |SF_BAND_TAB_SHORT_OFFSET| { return OUTSIDE_TABLE, log; }
    var f := ShortFrame(lens, sampRateIdx, maxSFB);
    ghost var x := Coded(f, sfbCodeBook, cs);
    ghost var d, p := bsi.View(), bsi.Pos();
    ghost var ok := x.Legal() && Matches(d, p, x.PrintFrom(0, 0, 0));
    NothingDone(x, coef[..]);
    var gp, coefPtr, codeBook := 0, 0, 0;
    while gp < |lens|
      invariant 0 <= gp <= |lens| && bsi.Valid() && bsi.View() == d
      invariant coefPtr == 128 * Start(lens, gp) && codeBook == gp * maxSFB
      invariant Filled(f, log, gp, 0, 0)
      invariant ok ==> Decoded(x, coef[..], gp, 0, 0) && Matches(d, bsi.Pos(), x.PrintFrom(gp, 0, 0))
      invariant ok ==> bsi.Pos() + |x.PrintFrom(gp, 0, 0)| == p + |x.PrintFrom(0, 0, 0)|
    {
      log := DecodeGroup(bsi, coef, f, sfbCodeBook, gp, coefPtr, codeBook, x, log, ok);
      coefPtr := coefPtr + lens[gp] * 128;
      codeBook := codeBook + maxSFB;
      gp := gp + 1;
    }
    AllDone(f, log);
    if ok { DecodedAll(x, coef[..]); }
    assert coefPtr == 1024;
    err := ERR_AAC_NONE;
  }

  /** The bands of a long block. */
  method DecodeLongBands(bsi: BitReader, coef: array<int>, sampRateIdx: int, maxSFB: nat,
                         sfbCodeBook: seq<nat>, ghost cs: seq<int>)
    returns (err: int, ghost log: seq<seq<int>>)
    requires bsi.Valid() && coef.Length == 1024 && |cs| == 1024
    requires 0 <= sampRateIdx < NUM_SAMPLE_RATES ==> Coded(LongFrame(sampRateIdx, maxSFB), sfbCodeBook, cs).Valid()
    modifies bsi, coef
    ensures bsi.Valid() && bsi.View() == old(bsi.View())
    ensures err == if 0 <= sampRateIdx < NUM_SAMPLE_RATES then ERR_AAC_NONE else if PassesGuard(sampRateIdx) then OUTSIDE_TABLE
                   else ERR_AAC_HUFFMAN_ERROR
    ensures err == ERR_AAC_NONE ==> WrittenOnce(LongFrame(sampRateIdx, maxSFB), log)
    ensures err == ERR_AAC_NONE ==>
      var x := Coded(LongFrame(sampRateIdx, maxSFB), sfbCodeBook, cs);
      x.Legal() && Matches(old(bsi.View()), old(bsi.Pos()), x.PrintFrom(0, 0, 0)) ==>
        coef[..] == cs && bsi.Pos() == old(bsi.Pos()) + |x.PrintFrom(0, 0, 0)|
    ensures err != ERR_AAC_NONE ==> coef[..] == old(coef[..]) && bsi.Pos() == old(bsi.Pos())
  {
    hide Matches, Done, PrintBand, Filled, Decoded, BandIn, BandAt, Coded.PrintFrom, Coded.Legal, SfBandTabLong;
    log := seq(1024, _ => []);
    if sampRateIdx > NUM_SAMPLE_RATES || sampRateIdx < 0 {
      return ERR_AAC_HUFFMAN_ERROR, log;
    }
    if sampRateIdx >= |SF_BAND_TAB_LONG_OFFSET| { return OUTSIDE_TABLE, log; }
    var f := LongFrame(sampRateIdx, maxSFB);
    ghost var x := Coded(f, sfbCodeBook, cs);
    ghost var d, p := bsi.View(), bsi.Pos();
    ghost var ok := x.Legal() && Matches(d, p, x.PrintFrom(0, 0, 0));
    NothingDone(x, coef[..]);
    var sfb, coefPtr := 0, 0;
    while sfb < maxSFB
      invariant 0 <= sfb <= maxSFB && bsi.Valid() && bsi.View() == d && coefPtr == f.tab[sfb]
      invariant Filled(f, log, 0, sfb, 0)
      invariant ok ==> Decoded(x, coef[..], 0, sfb, 0) && Matches(d, bsi.Pos(), x.PrintFrom(0, sfb, 0))
      invariant ok ==> bsi.Pos() + |x.PrintFrom(0, sfb, 0)| == p + |x.PrintFrom(0, 0, 0)|
    {
      x.f.EntryInRange(0, sfb);
      var cb := sfbCodeBook[sfb];
      var nVals := f.tab[sfb + 1] - f.tab[sfb];
      log := DecodeLongBand(bsi, coef, x, sfb, cb, nVals, coefPtr, log, ok);
      coefPtr := coefPtr + nVals;
      sfb := sfb + 1;
    }
    TableMono(f.tab, 1024, sfb, |f.tab| - 1);
    var nVals := 1024 - f.tab[sfb];
    log := DecodeLongBand(bsi, coef, x, sfb, 0, nVals, coefPtr, log, ok);
    AllDone(f, log);
    if ok { DecodedAll(x, coef[..]); }
    err := ERR_AAC_NONE;
  }

  /** DecodeSpectrumLong: the bands, and then the pulses on them. It stays inside the coefficients and the
      rate's band table if and only if the pulses do. */
  method DecodeSpectrumLong(bsi: BitReader, coef: array<int>, sampRateIdx: int, maxSFB: nat,
                            sfbCodeBook: seq<nat>, pulse: PulseInfo, ghost cs: seq<int>)
    returns (err: int, ghost log: seq<seq<int>>, inside: bool)
    requires bsi.Valid() && coef.Length == 1024 && |cs| == 1024
    requires 0 <= sampRateIdx < NUM_SAMPLE_RATES ==> Coded(LongFrame(sampRateIdx, maxSFB), sfbCodeBook, cs).Valid()
    modifies bsi, coef
    ensures bsi.Valid() && bsi.View() == old(bsi.View())
    ensures err == if 0 <= sampRateIdx < NUM_SAMPLE_RATES then ERR_AAC_NONE else if PassesGuard(sampRateIdx) then OUTSIDE_TABLE
                   else ERR_AAC_HUFFMAN_ERROR
    ensures err == ERR_AAC_NONE ==> WrittenOnce(LongFrame(sampRateIdx, maxSFB), log)
    ensures inside <==> (err == ERR_AAC_NONE ==> pulse.Fits(SfBandTabLong(sampRateIdx)))
    ensures err == ERR_AAC_NONE && inside ==>
      var x := Coded(LongFrame(sampRateIdx, maxSFB), sfbCodeBook, cs);
      x.Legal() && Matches(old(bsi.View()), old(bsi.Pos()), x.PrintFrom(0, 0, 0)) ==>
        coef[..] == pulse.Applied(cs, SfBandTabLong(sampRateIdx)) && bsi.Pos() == old(bsi.Pos()) + |x.PrintFrom(0, 0, 0)|
    ensures err != ERR_AAC_NONE ==> coef[..] == old(coef[..]) && bsi.Pos() == old(bsi.Pos())
  {
    hide Matches, WrittenOnce, Coded.PrintFrom, Coded.Legal, Coded.Valid, SfBandTabLong, PulseInfo.Fits, PulseInfo.Applied, Frame.Valid;
    err, log := DecodeLongBands(bsi, coef, sampRateIdx, maxSFB, sfbCodeBook, cs);
    inside := true;
    if err == ERR_AAC_NONE {
      inside := AddPulses(coef, SfBandTabLong(sampRateIdx), pulse);
    }
  }

  /** One band of a long block, or the zeros above the coded bands. */
  method DecodeLongBand(bsi: BitReader, coef: array<int>, ghost x: Coded, ghost sfb: nat, cb: nat, nVals: nat,
                        coefPtr: nat, ghost log: seq<seq<int>>, ghost ok: bool)
    returns (ghost log': seq<seq<int>>)
    requires bsi.Valid() && coef.Length == 1024
    requires x.Valid() && x.f.winLen == 1024 && sfb <= x.f.maxSFB && |x.f.lens| == 1
    requires cb == x.Book(0, sfb) && nVals == x.f.Hi(sfb) - x.f.Lo(sfb) && coefPtr == x.f.Lo(sfb)
    requires Filled(x.f, log, 0, sfb, 0)
    requires ok ==> Decoded(x, coef[..], 0, sfb, 0) && Matches(bsi.View(), bsi.Pos(), x.PrintFrom(0, sfb, 0))
    modifies bsi, coef
    ensures bsi.Valid() && bsi.View() == old(bsi.View())
    ensures var g', sfb' := if sfb < x.f.maxSFB then 0 else 1, if sfb < x.f.maxSFB then sfb + 1 else 0;
      && Filled(x.f, log', g', sfb', 0)
      && (ok ==>
        && Decoded(x, coef[..], g', sfb', 0) && Matches(bsi.View(), bsi.Pos(), x.PrintFrom(g', sfb', 0))
        && bsi.Pos() + |x.PrintFrom(g', sfb', 0)| == old(bsi.Pos()) + |x.PrintFrom(0, sfb, 0)|)
  {
    hide Matches, Done, PrintBand, Filled, Decoded, BandIn, BandAt, Coded.PrintFrom, Coded.Legal;
    x.f.RegionInside(0, 0, sfb);
    ghost var before := coef[..];
    ghost var v := x.Region(0, 0, sfb);
    if ok { PrintStep(x, bsi.View(), bsi.Pos(), before, 0, sfb, 0); }
    UnpackBand(bsi, cb, nVals, coef, coefPtr, v);
    if ok { DecodedStep(x, before, coef[..], 0, sfb, 0); DecodedNextBand(x, coef[..], 0, sfb); }
    FilledStep(x.f, log, 0, sfb, 0);
    log' := Logged(log, coefPtr, nVals, x.f.Entry(0, sfb));
    PrintNextBand(x, 0, sfb);
    FilledNextBand(x.f, log', 0, sfb);
  }
}
