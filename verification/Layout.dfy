/** The coefficient layout shared by the spectral decoder, the dequantizer and the noise
    substitution: which scalefactor band entry owns each of the 1024 coefficients.
    The band tables are those of codec/aacdecode/aactabs.c. */
module Layout {

  import opened Fixed

  const NUM_SAMPLE_RATES := 12

  // ---- scalefactor band tables ----

  function SfBandTabShort(sampRateIdx: nat): seq<nat>
  {
    if sampRateIdx <= 2 then [0, 4, 8, 12, 16, 20, 24, 32, 40, 48, 64, 92, 128]
    else if sampRateIdx <= 5 then [0, 4, 8, 12, 16, 20, 28, 36, 44, 56, 68, 80, 96, 112, 128]
    else if sampRateIdx <= 7 then [0, 4, 8, 12, 16, 20, 24, 28, 36, 44, 52, 64, 76, 92, 108, 128]
    else if sampRateIdx <= 10 then [0, 4, 8, 12, 16, 20, 24, 28, 32, 40, 48, 60, 72, 88, 108, 128]
    else [0, 4, 8, 12, 16, 20, 24, 28, 36, 44, 52, 60, 72, 88, 108, 128]
  }

  /** long block, 42 edges */
  function Long88(i: nat): int
  {
    match i / 16
    case 0 => Pick(i % 16, 0, 4, 8, 12, 16, 20, 24, 28, 32, 36, 40, 44, 48, 52, 56, 64)
    case 1 => Pick(i % 16, 72, 80, 88, 96, 108, 120, 132, 144, 156, 172, 188, 212, 240, 276, 320, 384)
    case 2 => Pick(i % 16, 448, 512, 576, 640, 704, 768, 832, 896, 960, 1024)
    case _ => 0
  }

  /** long block, 48 edges */
  function Long64(i: nat): int
  {
    match i / 16
    case 0 => Pick(i % 16, 0, 4, 8, 12, 16, 20, 24, 28, 32, 36, 40, 44, 48, 52, 56, 64)
    case 1 => Pick(i % 16, 72, 80, 88, 100, 112, 124, 140, 156, 172, 192, 216, 240, 268, 304, 344, 384)
    case 2 => Pick(i % 16, 424, 464, 504, 544, 584, 624, 664, 704, 744, 784, 824, 864, 904, 944, 984, 1024)
    case _ => 0
  }

  /** long block, 50 edges */
  function Long44(i: nat): int
  {
    match i / 16
    case 0 => Pick(i % 16, 0, 4, 8, 12, 16, 20, 24, 28, 32, 36, 40, 48, 56, 64, 72, 80)
    case 1 => Pick(i % 16, 88, 96, 108, 120, 132, 144, 160, 176, 196, 216, 240, 264, 292, 320, 352, 384)
    case 2 => Pick(i % 16, 416, 448, 480, 512, 544, 576, 608, 640, 672, 704, 736, 768, 800, 832, 864, 896)
    case 3 => Pick(i % 16, 928, 1024)
    case _ => 0
  }

  /** long block, 52 edges */
  function Long32(i: nat): int
  {
    match i / 16
    case 0 => Pick(i % 16, 0, 4, 8, 12, 16, 20, 24, 28, 32, 36, 40, 48, 56, 64, 72, 80)
    case 1 => Pick(i % 16, 88, 96, 108, 120, 132, 144, 160, 176, 196, 216, 240, 264, 292, 320, 352, 384)
    case 2 => Pick(i % 16, 416, 448, 480, 512, 544, 576, 608, 640, 672, 704, 736, 768, 800, 832, 864, 896)
    case 3 => Pick(i % 16, 928, 960, 992, 1024)
    case _ => 0
  }

  /** long block, 48 edges */
  function Long22(i: nat): int
  {
    match i / 16
    case 0 => Pick(i % 16, 0, 4, 8, 12, 16, 20, 24, 28, 32, 36, 40, 44, 52, 60, 68, 76)
    case 1 => Pick(i % 16, 84, 92, 100, 108, 116, 124, 136, 148, 160, 172, 188, 204, 220, 240, 260, 284)
    case 2 => Pick(i % 16, 308, 336, 364, 396, 432, 468, 508, 552, 600, 652, 704, 768, 832, 896, 960, 1024)
    case _ => 0
  }

  /** long block, 44 edges */
  function Long11(i: nat): int
  {
    match i / 16
    case 0 => Pick(i % 16, 0, 8, 16, 24, 32, 40, 48, 56, 64, 72, 80, 88, 100, 112, 124, 136)
    case 1 => Pick(i % 16, 148, 160, 172, 184, 196, 212, 228, 244, 260, 280, 300, 320, 344, 368, 396, 424)
    case 2 => Pick(i % 16, 456, 492, 532, 572, 616, 664, 716, 772, 832, 896, 960, 1024)
    case _ => 0
  }

  /** long block, 41 edges */
  function Long8(i: nat): int
  {
    match i / 16
    case 0 => Pick(i % 16, 0, 12, 24, 36, 48, 60, 72, 84, 96, 108, 120, 132, 144, 156, 172, 188)
    case 1 => Pick(i % 16, 204, 220, 236, 252, 268, 288, 308, 328, 348, 372, 396, 420, 448, 476, 508, 544)
    case 2 => Pick(i % 16, 580, 620, 664, 712, 764, 820, 880, 944, 1024)
    case _ => 0
  }

  /** Table and number of edges of a sample rate's long blocks. */
  function LongEdge(sampRateIdx: nat, i: nat): int
  {
    if sampRateIdx <= 1 then Long88(i)
    else if sampRateIdx <= 2 then Long64(i)
    else if sampRateIdx <= 4 then Long44(i)
    else if sampRateIdx <= 5 then Long32(i)
    else if sampRateIdx <= 7 then Long22(i)
    else if sampRateIdx <= 10 then Long11(i)
    else Long8(i)
  }

  function LongEdges(sampRateIdx: nat): nat
  {
    if sampRateIdx <= 1 then 42
    else if sampRateIdx <= 2 then 48
    else if sampRateIdx <= 4 then 50
    else if sampRateIdx <= 5 then 52
    else if sampRateIdx <= 7 then 48
    else if sampRateIdx <= 10 then 44
    else 41
  }

  lemma Long88Edges(i: nat)
    requires i < 42
    ensures 0 <= Long88(i) <= 1024 && Long88(i) % 4 == 0 && (i == 0 ==> Long88(i) == 0)
    ensures if i + 1 < 42 then Long88(i) < Long88(i + 1) <= Long88(i) + 96 else Long88(i) == 1024
  {
  }

  lemma Long64Edges(i: nat)
    requires i < 48
    ensures 0 <= Long64(i) <= 1024 && Long64(i) % 4 == 0 && (i == 0 ==> Long64(i) == 0)
    ensures if i + 1 < 48 then Long64(i) < Long64(i + 1) <= Long64(i) + 96 else Long64(i) == 1024
  {
  }

  lemma Long44Edges(i: nat)
    requires i < 50
    ensures 0 <= Long44(i) <= 1024 && Long44(i) % 4 == 0 && (i == 0 ==> Long44(i) == 0)
    ensures if i + 1 < 50 then Long44(i) < Long44(i + 1) <= Long44(i) + 96 else Long44(i) == 1024
  {
  }

  lemma Long32Edges(i: nat)
    requires i < 52
    ensures 0 <= Long32(i) <= 1024 && Long32(i) % 4 == 0 && (i == 0 ==> Long32(i) == 0)
    ensures if i + 1 < 52 then Long32(i) < Long32(i + 1) <= Long32(i) + 96 else Long32(i) == 1024
  {
  }

  lemma Long22Edges(i: nat)
    requires i < 48
    ensures 0 <= Long22(i) <= 1024 && Long22(i) % 4 == 0 && (i == 0 ==> Long22(i) == 0)
    ensures if i + 1 < 48 then Long22(i) < Long22(i + 1) <= Long22(i) + 96 else Long22(i) == 1024
  {
  }

  lemma Long11Edges(i: nat)
    requires i < 44
    ensures 0 <= Long11(i) <= 1024 && Long11(i) % 4 == 0 && (i == 0 ==> Long11(i) == 0)
    ensures if i + 1 < 44 then Long11(i) < Long11(i + 1) <= Long11(i) + 96 else Long11(i) == 1024
  {
  }

  lemma Long8Edges(i: nat)
    requires i < 41
    ensures 0 <= Long8(i) <= 1024 && Long8(i) % 4 == 0 && (i == 0 ==> Long8(i) == 0)
    ensures if i + 1 < 41 then Long8(i) < Long8(i + 1) <= Long8(i) + 96 else Long8(i) == 1024
  {
  }

  lemma LongEdgesOk(sampRateIdx: nat, i: nat)
    requires i < LongEdges(sampRateIdx)
    ensures 0 <= LongEdge(sampRateIdx, i) && LongEdge(sampRateIdx, i) % 4 == 0
    ensures i == 0 ==> LongEdge(sampRateIdx, i) == 0
    ensures if i + 1 < LongEdges(sampRateIdx) then LongEdge(sampRateIdx, i) < LongEdge(sampRateIdx, i + 1) <= LongEdge(sampRateIdx, i) + 96
            else LongEdge(sampRateIdx, i) == 1024
  {
    hide Long88, Long64, Long44, Long32, Long22, Long11, Long8;
    if sampRateIdx <= 1 { Long88Edges(i); }
    else if sampRateIdx <= 2 { Long64Edges(i); }
    else if sampRateIdx <= 4 { Long44Edges(i); }
    else if sampRateIdx <= 5 { Long32Edges(i); }
    else if sampRateIdx <= 7 { Long22Edges(i); }
    else if sampRateIdx <= 10 { Long11Edges(i); }
    else { Long8Edges(i); }
  }

  function SfBandTabLong(sampRateIdx: nat): seq<nat>
  {
    hide LongEdge;
    assert forall i: nat :: i < LongEdges(sampRateIdx) ==> LongEdge(sampRateIdx, i) >= 0 by {
      forall i: nat | i < LongEdges(sampRateIdx) ensures LongEdge(sampRateIdx, i) >= 0 { LongEdgesOk(sampRateIdx, i); }
    }
    seq(LongEdges(sampRateIdx), i requires 0 <= i < LongEdges(sampRateIdx) => LongEdge(sampRateIdx, i))
  }

  /** Where each rate's table starts in the concatenated ones; both have an entry for every rate. */
  const SF_BAND_TAB_SHORT_OFFSET: seq<nat> := [0, 0, 0, 13, 13, 13, 28, 28, 44, 44, 44, 60]
  const SF_BAND_TAB_LONG_OFFSET: seq<nat> := [0, 0, 42, 90, 90, 140, 192, 192, 240, 240, 240, 284]

  predicate Abut(offset: seq<nat>, i: nat, tab: seq<nat>, next: seq<nat>)
    requires i + 1 < |offset|
  {
    if offset[i + 1] == offset[i] then tab == next else offset[i + 1] == offset[i] + |tab|
  }

  /** A rate has the table of the rate before it, or the table right behind that. */
  lemma TablesAbut(sampRateIdx: nat)
    requires sampRateIdx + 1 < NUM_SAMPLE_RATES
    ensures Abut(SF_BAND_TAB_SHORT_OFFSET, sampRateIdx, SfBandTabShort(sampRateIdx), SfBandTabShort(sampRateIdx + 1))
    ensures Abut(SF_BAND_TAB_LONG_OFFSET, sampRateIdx, SfBandTabLong(sampRateIdx), SfBandTabLong(sampRateIdx + 1))
  {
    hide Long88, Long64, Long44, Long32, Long22, Long11, Long8;
  }

  /** Band edges: increasing multiples of 4 from 0 to the window length, no band wider than 96. */
  ghost predicate BandTable(tab: seq<nat>, len: nat)
  {
    && |tab| >= 2 && tab[0] == 0 && tab[|tab| - 1] == len
    && (forall i :: 0 <= i < |tab| ==> tab[i] % 4 == 0)
    && (forall i :: 0 <= i < |tab| - 1 ==> tab[i] < tab[i + 1] <= tab[i] + 96)
  }

  lemma ShortTables(sampRateIdx: nat)
    ensures BandTable(SfBandTabShort(sampRateIdx), 128)
  {
    hide SfBandTabShort, BandTable;
    if sampRateIdx <= 2 { Short64(sampRateIdx); }
    else if sampRateIdx <= 5 { Short32(sampRateIdx); }
    else if sampRateIdx <= 7 { Short22(sampRateIdx); }
    else if sampRateIdx <= 10 { Short11(sampRateIdx); }
    else { Short8(sampRateIdx); }
  }

  lemma Short64(sampRateIdx: nat)
    requires sampRateIdx <= 2
    ensures BandTable(SfBandTabShort(sampRateIdx), 128)
  {
  }

  lemma Short32(sampRateIdx: nat)
    requires 3 <= sampRateIdx <= 5
    ensures BandTable(SfBandTabShort(sampRateIdx), 128)
  {
  }

  lemma Short22(sampRateIdx: nat)
    requires 6 <= sampRateIdx <= 7
    ensures BandTable(SfBandTabShort(sampRateIdx), 128)
  {
  }

  lemma Short11(sampRateIdx: nat)
    requires 8 <= sampRateIdx <= 10
    ensures BandTable(SfBandTabShort(sampRateIdx), 128)
  {
  }

  lemma Short8(sampRateIdx: nat)
    requires sampRateIdx >= 11
    ensures BandTable(SfBandTabShort(sampRateIdx), 128)
  {
  }

  lemma {:induction false} TableMono(tab: seq<nat>, len: nat, a: nat, b: nat)
    requires BandTable(tab, len) && a <= b < |tab|
    ensures tab[a] <= tab[b] && (a < b ==> tab[a] < tab[b])
  {
    if a < b { TableMono(tab, len, a, b - 1); }
  }

  lemma LongTables(sampRateIdx: nat)
    ensures BandTable(SfBandTabLong(sampRateIdx), 1024)
  {
    hide LongEdge;
    forall i: nat | i < LongEdges(sampRateIdx)
      ensures SfBandTabLong(sampRateIdx)[i] % 4 == 0 && (i == 0 ==> SfBandTabLong(sampRateIdx)[i] == 0)
      ensures if i + 1 < LongEdges(sampRateIdx) then SfBandTabLong(sampRateIdx)[i] < SfBandTabLong(sampRateIdx)[i + 1] <= SfBandTabLong(sampRateIdx)[i] + 96
              else SfBandTabLong(sampRateIdx)[i] == 1024
    {
      LongEdgesOk(sampRateIdx, i);
    }
    var tab := SfBandTabLong(sampRateIdx);
    LongEdgesOk(sampRateIdx, 0);
    LongEdgesOk(sampRateIdx, |tab| - 1);
    assert tab[0] == 0 && tab[|tab| - 1] == 1024;
  }

  // ---- window groups ----

  /** The first window of group g. */
  function Start(lens: seq<nat>, g: nat): nat
    requires g <= |lens|
  {
    if g == 0 then 0 else Start(lens, g - 1) + lens[g - 1]
  }

  lemma {:induction false} StartMono(lens: seq<nat>, a: nat, b: nat)
    requires a <= b <= |lens|
    ensures Start(lens, a) <= Start(lens, b)
  {
    if a < b { StartMono(lens, a, b - 1); }
  }

  /** The frame's layout: group lengths, band edges within a window, number of coded bands. */
  datatype Frame = Frame(lens: seq<nat>, winLen: nat, tab: seq<nat>, maxSFB: nat)
  {
    ghost predicate Valid()
    {
      && (forall g :: 0 <= g < |lens| ==> lens[g] >= 1)
      && BandTable(tab, winLen) && maxSFB < |tab|
      && ((winLen == 128 && Start(lens, |lens|) == 8) || (winLen == 1024 && lens == [1]))
    }

    /** The window of coefficient c, and its place in the window. */
    function Win(c: nat): nat { if winLen == 128 then c / 128 else 0 }
    function Off(c: nat): nat { if winLen == 128 then c % 128 else c }

    /** Bands 0..maxSFB-1 are coded; band maxSFB stands for everything above them. */
    function Lo(sfb: nat): nat
      requires sfb <= maxSFB < |tab|
    {
      tab[sfb]
    }

    function Hi(sfb: nat): nat
      requires sfb <= maxSFB < |tab|
    {
      if sfb < maxSFB then tab[sfb + 1] else winLen
    }

    /** The index of a band's codebook and scalefactor, -1 above the coded bands. */
    function Entry(g: nat, sfb: nat): int
    {
      if sfb < maxSFB then g * maxSFB + sfb else -1
    }

    function GroupFrom(w: nat, g: nat): (r: nat)
      requires g < |lens| && Start(lens, g) <= w < Start(lens, |lens|)
      ensures g <= r < |lens| && Start(lens, r) <= w < Start(lens, r + 1)
      decreases |lens| - g
    {
      if w < Start(lens, g + 1) then g else GroupFrom(w, g + 1)
    }

    function BandFrom(o: nat, sfb: nat): (r: nat)
      requires sfb <= maxSFB < |tab| && Lo(sfb) <= o < winLen
      ensures sfb <= r <= maxSFB && Lo(r) <= o < Hi(r)
      decreases maxSFB - sfb
    {
      if o < Hi(sfb) then sfb else BandFrom(o, sfb + 1)
    }

    ghost predicate Inside(c: nat)
    {
      Valid() && c < 1024 && Win(c) < Start(lens, |lens|) && |lens| > 0 && Off(c) < winLen
    }

    /** The entry that owns coefficient c. */
    function Owner(c: nat): int
      requires Inside(c)
    {
      Entry(GroupFrom(Win(c), 0), BandFrom(Off(c), 0))
    }

    /** The coefficients from BandLo to BandHi are those of c's band in c's window. */
    function BandLo(c: nat): int
      requires Inside(c)
    {
      c - Off(c) + Lo(BandFrom(Off(c), 0))
    }

    function BandHi(c: nat): int
      requires Inside(c)
    {
      c - Off(c) + Hi(BandFrom(Off(c), 0))
    }

    /** The first coefficient of a band in one window of a group. */
    function BandStart(g: nat, win: nat, sfb: nat): nat
      requires g <= |lens| && sfb <= maxSFB < |tab|
    {
      (if winLen == 128 then 128 * (Start(lens, g) + win) else 0) + Lo(sfb)
    }

    lemma AllInside(c: nat)
      requires Valid() && c < 1024
      ensures Inside(c)
    {
    }

    /** Every coefficient of band sfb in window win of group g belongs to that band's entry. */
    lemma OwnerIs(g: nat, win: nat, sfb: nat, c: nat)
      requires Valid() && g < |lens| && win < lens[g] && sfb <= maxSFB && c < 1024
      requires Win(c) == Start(lens, g) + win && Lo(sfb) <= Off(c) < Hi(sfb)
      ensures Inside(c) && Owner(c) == Entry(g, sfb)
      ensures BandLo(c) == BandStart(g, win, sfb) && BandHi(c) == BandStart(g, win, sfb) + (Hi(sfb) - Lo(sfb))
    {
      StartMono(lens, g + 1, |lens|);
      AllInside(c);
      var g', b' := GroupFrom(Win(c), 0), BandFrom(Off(c), 0);
      if g' < g { StartMono(lens, g' + 1, g); }
      if g < g' { StartMono(lens, g + 1, g'); }
      if b' < sfb { TableMono(tab, winLen, b' + 1, sfb); }
      if sfb < b' { TableMono(tab, winLen, sfb + 1, b'); }
    }

    lemma EntryInRange(g: nat, sfb: nat)
      requires g < |lens| && sfb < maxSFB
      ensures 0 <= Entry(g, sfb) < |lens| * maxSFB
    {
      assert (g + 1) * maxSFB <= |lens| * maxSFB;
    }

    lemma RegionInside(g: nat, win: nat, sfb: nat)
      requires Valid() && g < |lens| && win < lens[g] && sfb <= maxSFB
      ensures Lo(sfb) <= Hi(sfb) <= winLen && (Hi(sfb) - Lo(sfb)) % 4 == 0
      ensures sfb < maxSFB ==> Lo(sfb) < Hi(sfb)
      ensures BandStart(g, win, sfb) + (Hi(sfb) - Lo(sfb)) <= 1024
    {
      StartMono(lens, g + 1, |lens|);
      TableMono(tab, winLen, sfb, |tab| - 1);
      if sfb < maxSFB { TableMono(tab, winLen, sfb + 1, |tab| - 1); }
    }

    /** The coefficients of one band in one window, and no others around them, are its entry's. */
    lemma BandOwner(g: nat, win: nat, sfb: nat, c: nat)
      requires Valid() && g < |lens| && win < lens[g] && sfb <= maxSFB
      requires BandStart(g, win, sfb) <= c < BandStart(g, win, sfb) + (Hi(sfb) - Lo(sfb))
      ensures c < 1024 && Win(c) == Start(lens, g) + win && Lo(sfb) <= Off(c) < Hi(sfb)
      ensures Inside(c) && Owner(c) == Entry(g, sfb)
      ensures BandLo(c) == BandStart(g, win, sfb) && BandHi(c) == BandStart(g, win, sfb) + (Hi(sfb) - Lo(sfb))
    {
      RegionInside(g, win, sfb);
      OwnerIs(g, win, sfb, c);
    }
  }
}
