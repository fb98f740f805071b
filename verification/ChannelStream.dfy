/** codec/aacdecode/noiseless.c, DecodeICS and DecodeNoiselessData: an individual channel stream as a
    whole, from the cursor and back to it, as the inverse of a printer of table 4.4.24 of
    ISO/IEC 14496-3. Streams with TNS or gain control data are not printed. */
module ChannelStream {
  import opened Fixed
  import opened Bitstream
  import opened Printing
  import opened Layout
  import opened Noiseless
  import opened PulseData
  import opened SpectrumBlocks
  import Spectrum
  import Dequant
  import Reseat

  const MAX_SF_BANDS := 120

  // ---- window groups from the mask ----

  /** The first difference between two groupings would open a window in one of them only. */
  lemma NextLenSame(sfGroup: nat, a: seq<nat>, b: seq<nat>, g: nat)
    requires GroupedBy(a, sfGroup) && GroupedBy(b, sfGroup) && g < |a| && g < |b| && a[..g] == b[..g]
    ensures a[g] <= b[g]
  {
    hide Joins;
    StartPrefix(a, b, g);
    if b[g] < a[g] {
      var w := Start(b, g + 1);
      StartMono(a, g + 1, |a|);
      assert w < 8 && g + 1 < |b|;
      assert Opens(b, w);
      assert Opens(a, w);
      var h :| 0 <= h < |a| && Start(a, h) == w;
      if h <= g { StartMono(a, h, g); } else { StartMono(a, g + 1, h); }
    }
  }

  lemma {:induction false} PrefixSame(sfGroup: nat, a: seq<nat>, b: seq<nat>, g: nat)
    requires GroupedBy(a, sfGroup) && GroupedBy(b, sfGroup) && g <= |a| && g <= |b|
    ensures a[..g] == b[..g]
  {
    if g > 0 {
      PrefixSame(sfGroup, a, b, g - 1);
      NextLenSame(sfGroup, a, b, g - 1);
      NextLenSame(sfGroup, b, a, g - 1);
      assert a[..g] == a[..g - 1] + [a[g - 1]] && b[..g] == b[..g - 1] + [b[g - 1]];
    }
  }

  /** The mask determines the grouping. */
  lemma GroupingUnique(sfGroup: nat, a: seq<nat>, b: seq<nat>)
    requires GroupedBy(a, sfGroup) && GroupedBy(b, sfGroup)
    ensures a == b
  {
    hide Joins, Opens;
    var n := if |a| <= |b| then |a| else |b|;
    PrefixSame(sfGroup, a, b, n);
    StartPrefix(a, b, n);
    if n < |a| { StartMono(a, n + 1, |a|); }
    if n < |b| { StartMono(b, n + 1, |b|); }
    assert a[..|a|] == a && b[..|b|] == b;
  }

  // ---- the printed stream ----

  /** The window information of a channel: a header of the stream, or the one its pair shares. */
  datatype Header = Header(icsResBit: nat, winSequence: nat, winShape: nat, maxSFB: nat, sfGroup: nat)
  {
    predicate Short() { winSequence == 2 }

    predicate Legal()
    {
      icsResBit <= 1 && winSequence <= 3 && winShape <= 1 && maxSFB < (if Short() then 16 else 64) && sfGroup < 128
    }

    function Print(): seq<Bit>
      requires Legal()
    {
      ToBits(icsResBit, 1) + (ToBits(winSequence, 2) + (ToBits(winShape, 1) +
        (if Short() then ToBits(maxSFB, 4) + ToBits(sfGroup, 7) else ToBits(maxSFB, 6) + [0])))
    }

    function LenBits(): nat { if Short() then 3 else 5 }
  }

  /** What a channel stream carries: the codebooks by group, scalefactors and coefficients by entry. */
  datatype Channel = Channel(globalGain: nat, header: Header, sampRateIdx: nat, lens: seq<nat>,
                             books: seq<seq<nat>>, sf: seq<int>, pulse: PulseInfo, cs: seq<int>)
  {
    function FrameOf(): Frame
    {
      if header.Short() then ShortFrame(lens, sampRateIdx, header.maxSFB) else LongFrame(sampRateIdx, header.maxSFB)
    }

    function Spectrum(): Coded { Coded(FrameOf(), Flatten(books), cs) }

    /** The coefficients the channel ends up with: those of the spectral data, raised by the pulses of a
        long block. */
    function Coefs(): seq<int>
    {
      if !header.Short() && pulse.Fits(FrameOf().tab) then pulse.Applied(cs, FrameOf().tab) else cs
    }

    function Start(): Chains { Chains(globalGain, 0, globalGain - 90 - 256, true) }

    /** The group lengths are the mask's, every band has a codebook, every scalefactor a printed
        difference, a long block's pulses land on coefficients, and the coefficients are in their codebooks. */
    ghost predicate Legal()
    {
      && globalGain < 256 && header.Legal() && sampRateIdx < NUM_SAMPLE_RATES
      && (if header.Short() then GroupedBy(lens, header.sfGroup) else lens == [1])
      && |books| == |lens| && Assignment(books, header.maxSFB)
      && |sf| == |Flatten(books)| && AllCodable(Start(), Flatten(books), sf, 0)
      && pulse.Legal() && (header.Short() || pulse.Fits(FrameOf().tab)) && Spectrum().Legal()
    }

    ghost function PrintSide(commonWin: bool): seq<Bit>
      requires Legal()
    {
      ToBits(globalGain, 8) + (if commonWin then [] else header.Print())
    }

    ghost function PrintRest(): seq<Bit>
      requires Legal()
    {
      PrintBooks(books, header.LenBits()) + (PrintScaleFactors(Start(), Flatten(books), sf, 0)
        + (pulse.Print() + ([0, 0] + Spectrum().PrintFrom(0, 0, 0))))
    }

    ghost function Print(commonWin: bool): seq<Bit>
      requires Legal()
    {
      PrintSide(commonWin) + PrintRest()
    }
  }

  // ---- reading it back ----

  lemma HeaderFields(d: seq<Byte>, p: nat, h: Header)
    requires h.Legal() && Matches(d, p, h.Print())
    ensures Bits(d, p, 1) == h.icsResBit && Bits(d, p + 1, 2) == h.winSequence && Bits(d, p + 3, 1) == h.winShape
    ensures h.Short() ==> Bits(d, p + 4, 4) == h.maxSFB && Bits(d, p + 8, 7) == h.sfGroup && |h.Print()| == 15
    ensures !h.Short() ==> Bits(d, p + 4, 6) == h.maxSFB && Bits(d, p + 10, 1) == 0 && |h.Print()| == 11
  {
    hide Bits, Matches, ToBits;
    var tail := if h.Short() then ToBits(h.maxSFB, 4) + ToBits(h.sfGroup, 7) else ToBits(h.maxSFB, 6) + [0];
    MatchesAppend(d, p, ToBits(h.icsResBit, 1), ToBits(h.winSequence, 2) + (ToBits(h.winShape, 1) + tail));
    MatchesAppend(d, p + 1, ToBits(h.winSequence, 2), ToBits(h.winShape, 1) + tail);
    MatchesAppend(d, p + 3, ToBits(h.winShape, 1), tail);
    SmallPowers();
    ReadNumber(d, p, h.icsResBit, 1);
    ReadNumber(d, p + 1, h.winSequence, 2);
    ReadNumber(d, p + 3, h.winShape, 1);
    if h.Short() {
      MatchesAppend(d, p + 4, ToBits(h.maxSFB, 4), ToBits(h.sfGroup, 7));
      ReadNumber(d, p + 4, h.maxSFB, 4);
      ReadNumber(d, p + 8, h.sfGroup, 7);
    } else {
      MatchesAppend(d, p + 4, ToBits(h.maxSFB, 6), [0]);
      ReadNumber(d, p + 4, h.maxSFB, 6);
      ReadBit(d, p + 10, 0);
    }
  }

  lemma SmallPowers()
    ensures Pow2(1) == 2 && Pow2(2) == 4 && Pow2(4) == 16 && Pow2(6) == 64 && Pow2(7) == 128 && Pow2(8) == 256
  {
    UpEight(1);
  }

  /** The header read is the header printed, with the printed grouping. */
  method ReadHeader(bsi: BitReader, sampRateIdx: nat, ghost x: Channel) returns (ics: ICSInfo)
    requires bsi.Valid() && x.Legal() && sampRateIdx == x.sampRateIdx && Matches(bsi.View(), bsi.Pos(), x.header.Print())
    modifies bsi
    ensures bsi.Valid() && bsi.View() == old(bsi.View()) && bsi.Pos() == old(bsi.Pos()) + |x.header.Print()|
    ensures ics.winSequence == x.header.winSequence && ics.winShape == x.header.winShape
    ensures ics.maxSFB == x.header.maxSFB && ics.winGroupLen == x.lens
  {
    hide Bits, Matches, Opens, Joins, Header.Print, Coded.Legal, AllCodable, Assignment;
    HeaderFields(bsi.View(), bsi.Pos(), x.header);
    var inTable;
    ics, inTable := DecodeICSInfo(bsi, sampRateIdx);
    if ics.winSequence == 2 { GroupingUnique(ics.sfGroup, ics.winGroupLen, x.lens); }
  }

  /** The window information a channel is decoded with. */
  ghost predicate Shared(ics: ICSInfo, x: Channel)
  {
    ics.winSequence == x.header.winSequence && ics.maxSFB == x.header.maxSFB && ics.winGroupLen == x.lens
  }

  /** The parts of a printed stream, in turn. */
  lemma SideParts(d: seq<Byte>, p: nat, x: Channel, commonWin: bool)
    requires x.Legal() && Matches(d, p, x.Print(commonWin))
    ensures Bits(d, p, 8) == x.globalGain && |x.Print(commonWin)| == |x.PrintSide(commonWin)| + |x.PrintRest()|
    ensures |x.PrintSide(commonWin)| == 8 + if commonWin then 0 else |x.header.Print()|
    ensures !commonWin ==> Matches(d, p + 8, x.header.Print())
    ensures Matches(d, p + |x.PrintSide(commonWin)|, x.PrintRest())
  {
    hide Bits, Matches, ToBits, Header.Print, Channel.PrintRest, Channel.Legal;
    GainRange(x);
    MatchesAppend(d, p, x.PrintSide(commonWin), x.PrintRest());
    MatchesAppend(d, p, ToBits(x.globalGain, 8), if commonWin then [] else x.header.Print());
    SmallPowers();
    ReadNumber(d, p, x.globalGain, 8);
  }

  lemma GainRange(x: Channel)
    requires x.Legal()
    ensures x.globalGain < 256 && x.header.Legal()
  {
  }

  lemma RestParts(d: seq<Byte>, p: nat, x: Channel)
    requires x.Legal() && Matches(d, p, x.PrintRest())
    ensures var books, factors, pulse, coefs := PrintBooks(x.books, x.header.LenBits()),
        PrintScaleFactors(x.Start(), Flatten(x.books), x.sf, 0), x.pulse.Print(), x.Spectrum().PrintFrom(0, 0, 0);
      var q, r, t := p + |books|, p + |books| + |factors|, p + |books| + |factors| + |pulse|;
      && Matches(d, p, books) && Matches(d, q, factors) && Matches(d, r, pulse) && Matches(d, t + 2, coefs)
      && Bits(d, t, 1) == Bits(d, t + 1, 1) == 0
      && |x.PrintRest()| == |books| + |factors| + |pulse| + 2 + |coefs|
  {
    hide Bits, Matches, PrintBooks, PrintScaleFactors, Coded.PrintFrom, Flatten, PulseInfo.Print;
    var books, factors, pulse, coefs := PrintBooks(x.books, x.header.LenBits()),
      PrintScaleFactors(x.Start(), Flatten(x.books), x.sf, 0), x.pulse.Print(), x.Spectrum().PrintFrom(0, 0, 0);
    MatchesAppend(d, p, books, factors + (pulse + ([0, 0] + coefs)));
    MatchesAppend(d, p + |books|, factors, pulse + ([0, 0] + coefs));
    MatchesAppend(d, p + |books| + |factors|, pulse, [0, 0] + coefs);
    MatchesAppend(d, p + |books| + |factors| + |pulse|, [0, 0], coefs);
    TwoZeros(d, p + |books| + |factors| + |pulse|);
  }

  lemma TwoZeros(d: seq<Byte>, p: nat)
    requires Matches(d, p, [0, 0])
    ensures Bits(d, p, 1) == Bits(d, p + 1, 1) == 0
  {
    hide Bits, Matches;
    MatchesAppend(d, p, [0], [0]);
    assert [0] + [0] == [0, 0];
    ReadBit(d, p, 0);
    ReadBit(d, p + 1, 0);
  }

  /** Sections and scalefactors. */
  method ReadEntries(bsi: BitReader, ics: ICSInfo, globalGain: nat, sfbCodeBook: array<nat>, scaleFactors: array<int>, ghost x: Channel)
    requires bsi.Valid() && x.Legal() && Shared(ics, x) && globalGain == x.globalGain
    requires |Flatten(x.books)| <= sfbCodeBook.Length && |Flatten(x.books)| <= scaleFactors.Length
    requires var books := PrintBooks(x.books, x.header.LenBits());
      && Matches(bsi.View(), bsi.Pos(), books)
      && Matches(bsi.View(), bsi.Pos() + |books|, PrintScaleFactors(x.Start(), Flatten(x.books), x.sf, 0))
    modifies bsi, sfbCodeBook, scaleFactors
    ensures bsi.Valid() && bsi.View() == old(bsi.View())
    ensures bsi.Pos() == old(bsi.Pos()) + |PrintBooks(x.books, x.header.LenBits())|
                       + |PrintScaleFactors(x.Start(), Flatten(x.books), x.sf, 0)|
    ensures sfbCodeBook[..|x.sf|] == Flatten(x.books) && scaleFactors[..|x.sf|] == x.sf
  {
    hide Bits, Matches, PrintBooks, PrintScaleFactors, AllSections, Coded.Legal, Flatten, AllCodable, Header.Legal, GroupedBy;
    ghost var flat := Flatten(x.books);
    ReadBooks(bsi.View(), bsi.Pos(), x.books, x.header.LenBits(), x.header.maxSFB);
    var outcome := DecodeSectionData(bsi, ics.winSequence, |ics.winGroupLen|, ics.maxSFB, sfbCodeBook);
    assert sfbCodeBook[..|flat|] == flat;
    DecodeScaleFactors(bsi, |ics.winGroupLen|, ics.maxSFB, globalGain, sfbCodeBook[..|ics.winGroupLen| * ics.maxSFB], scaleFactors, x.sf);
  }

  /** What a legal channel says about its sizes and its frame. */
  lemma ChannelSizes(x: Channel)
    requires x.Legal()
    ensures |x.cs| == 1024 && x.sampRateIdx < NUM_SAMPLE_RATES && |x.sf| == |Flatten(x.books)| == |x.lens| * x.header.maxSFB
    ensures x.Spectrum().Valid() && x.Spectrum().Legal() && (!x.header.Short() ==> x.lens == [1])
    ensures x.pulse.Legal() && (x.header.Short() || x.pulse.Fits(x.FrameOf().tab))
  {
    hide Flatten, AllCodable, Header.Legal, GroupedBy, BandIn, Frame.Valid, PulseInfo.Legal, PulseInfo.Fits;
    FlattenSize(x.books, x.header.maxSFB);
  }

  lemma InBookBound(cb: nat, v: int)
    requires Spectrum.InBook(cb, v)
    ensures Abs(v) <= 8191
  {
  }

  /** Every coefficient of a legal spectrum lies in some band's codebook. */
  lemma CodedBound(x: Coded, c: nat)
    requires x.Legal() && c < 1024
    ensures Abs(x.cs[c]) <= 8191
  {
    hide Spectrum.InBook, Abs;
    x.f.AllInside(c);
    var g, sfb := x.f.GroupFrom(x.f.Win(c), 0), x.f.BandFrom(x.f.Off(c), 0);
    var win := x.f.Win(c) - Layout.Start(x.f.lens, g);
    x.f.OwnerIs(g, win, sfb, c);
    x.f.RegionInside(g, win, sfb);
    assert BandIn(x.Book(g, sfb), x.Region(g, win, sfb));
    assert x.Region(g, win, sfb)[c - x.f.BandStart(g, win, sfb)] == x.cs[c];
    InBookBound(x.Book(g, sfb), x.cs[c]);
  }

  /** What a legal channel ends up with, pulses included, is what the dequantizer takes. */
  lemma CoefsFit(x: Channel)
    requires x.Legal()
    ensures Dequant.Quantized(x.Coefs())
  {
    hide Coded.Legal, Coded.Valid, PulseInfo.Applied, PulseInfo.Fits, PulseInfo.Legal, Channel.Legal, Abs;
    ChannelSizes(x);
    forall c: nat | c < 1024 ensures Abs(x.Coefs()[c]) <= 16383 {
      CodedBound(x.Spectrum(), c);
      if !x.header.Short() { AppliedSize(x.pulse, x.cs, x.FrameOf().tab, c); }
    }
  }

  /** The spectral decoder chosen by the window sequence. */
  method ReadCoefficients(bsi: BitReader, ics: ICSInfo, sampRateIdx: nat, pulse: PulseInfo, sfbCodeBook: seq<nat>,
                          coef: array<int>, ghost x: Channel)
    returns (nResult: int)
    requires bsi.Valid() && x.Legal() && Shared(ics, x) && sampRateIdx == x.sampRateIdx
    requires sfbCodeBook == Flatten(x.books) && pulse == x.pulse && coef.Length == 1024
    requires Matches(bsi.View(), bsi.Pos(), x.Spectrum().PrintFrom(0, 0, 0))
    modifies bsi, coef
    ensures bsi.Valid() && bsi.View() == old(bsi.View()) && nResult == ERR_AAC_NONE
    ensures coef[..] == x.Coefs() && bsi.Pos() == old(bsi.Pos()) + |x.Spectrum().PrintFrom(0, 0, 0)|
  {
    hide Bits, Matches, Flatten, Channel.Legal, Coded.Legal, Coded.Valid, Coded.PrintFrom, Frame.Valid, WrittenOnce, CacheWord;
    hide PulseInfo.Fits, PulseInfo.Applied, PulseInfo.Legal;
    ChannelSizes(x);
    ghost var log;
    if ics.winSequence == 2 {
      nResult, log := DecodeSpectrumShort(bsi, coef, sampRateIdx, ics.winGroupLen, ics.maxSFB, sfbCodeBook, x.cs);
    } else {
      var inside;
      nResult, log, inside := DecodeSpectrumLong(bsi, coef, sampRateIdx, ics.maxSFB, sfbCodeBook, pulse, x.cs);
    }
  }

  /** The global gain and, unless the pair shares one, the header. */
  method ReadSide(bsi: BitReader, commonWin: bool, shared: ICSInfo, sampRateIdx: nat, ghost x: Channel)
    returns (globalGain: nat, ics: ICSInfo)
    requires bsi.Valid() && x.Legal() && sampRateIdx == x.sampRateIdx && (commonWin ==> Shared(shared, x))
    requires Matches(bsi.View(), bsi.Pos(), x.Print(commonWin))
    modifies bsi
    ensures bsi.Valid() && bsi.View() == old(bsi.View()) && globalGain == x.globalGain && Shared(ics, x)
    ensures Matches(bsi.View(), bsi.Pos(), x.PrintRest())
    ensures bsi.Pos() + |x.PrintRest()| == old(bsi.Pos()) + |x.Print(commonWin)|
  {
    hide Bits, Matches, Channel.Legal, Channel.Print, Channel.PrintSide, Channel.PrintRest, Header.Print, CacheWord;
    GainRange(x);
    SideParts(bsi.View(), bsi.Pos(), x, commonWin);
    globalGain := bsi.GetBits(8);
    ics := shared;
    if !commonWin {
      ics := ReadHeader(bsi, sampRateIdx, x);
    }
  }

  /** The channel's entries at the front of the arrays, and its coefficients. */
  ghost predicate Stored(x: Channel, sfbCodeBook: seq<nat>, scaleFactors: seq<int>, coef: seq<int>)
  {
    && |x.sf| <= |sfbCodeBook| && |x.sf| <= |scaleFactors|
    && sfbCodeBook[..|x.sf|] == Flatten(x.books) && scaleFactors[..|x.sf|] == x.sf && coef == x.Coefs()
  }

  /** DecodeICS and the choice of the spectral decoder: from any legal channel, printed, exactly its
      codebooks, scalefactors and coefficients, pulses added, are stored and exactly the printed bits consumed. */
  method DecodeChannel(bsi: BitReader, commonWin: bool, shared: ICSInfo, sampRateIdx: nat, sfbCodeBook: array<nat>,
                       scaleFactors: array<int>, coef: array<int>, ghost x: Channel)
    returns (ics: ICSInfo, nResult: int)
    requires bsi.Valid() && x.Legal() && sampRateIdx == x.sampRateIdx && (commonWin ==> Shared(shared, x))
    requires |Flatten(x.books)| <= sfbCodeBook.Length && |Flatten(x.books)| <= scaleFactors.Length && coef.Length == 1024
    requires coef != scaleFactors && Matches(bsi.View(), bsi.Pos(), x.Print(commonWin))
    modifies bsi, sfbCodeBook, scaleFactors, coef
    ensures bsi.Valid() && bsi.View() == old(bsi.View()) && bsi.Pos() == old(bsi.Pos()) + |x.Print(commonWin)|
    ensures nResult == ERR_AAC_NONE && Shared(ics, x)
    ensures Stored(x, sfbCodeBook[..], scaleFactors[..], coef[..])
  {
    hide Bits, Matches, PrintBooks, PrintScaleFactors, Flatten, Coded.PrintFrom, Coded.Valid, Coded.Legal, CacheWord,
      Channel.Legal, Channel.Print, Channel.PrintRest, Channel.Coefs, PulseInfo.Print, PulseInfo.Legal, PulseInfo.Fits;
    ChannelSizes(x);
    var globalGain;
    globalGain, ics := ReadSide(bsi, commonWin, shared, sampRateIdx, x);
    RestParts(bsi.View(), bsi.Pos(), x);
    ReadEntries(bsi, ics, globalGain, sfbCodeBook, scaleFactors, x);
    var pulse := ReadPulses(bsi, x.pulse);
    var tnsDataPresent := bsi.GetBits(1);
    var gainControlDataPresent := bsi.GetBits(1);
    assert tnsDataPresent == gainControlDataPresent == 0;
    nResult := ReadCoefficients(bsi, ics, sampRateIdx, pulse, sfbCodeBook[..|ics.winGroupLen| * ics.maxSFB], coef, x);
  }

  lemma {:induction false} GroupsCount(lens: seq<nat>, g: nat)
    requires g <= |lens| && forall i :: 0 <= i < |lens| ==> lens[i] >= 1
    ensures g <= Start(lens, g)
  {
    if g > 0 { GroupsCount(lens, g - 1); }
  }

  /** The decoder's fixed arrays hold the entries of any legal channel. */
  lemma EntriesFit(x: Channel)
    requires x.Legal()
    ensures |Flatten(x.books)| <= MAX_SF_BANDS
  {
    hide Flatten, AllCodable, Coded.Legal, Opens, Joins;
    ChannelSizes(x);
    if x.header.Short() {
      GroupsCount(x.lens, |x.lens|);
      Rectangle(|x.lens|, x.header.maxSFB);
    }
  }

  lemma Rectangle(groups: nat, maxSFB: nat)
    requires groups <= 8 && maxSFB <= 15
    ensures groups * maxSFB <= MAX_SF_BANDS
  {
    assert groups * maxSFB <= 8 * maxSFB;
  }

  /** DecodeNoiselessData, from the cursor and back: a printed channel within the available bits is
      read whole, and the cursor stands right behind it with the end where it was. */
  method DecodeNoiselessData(c: Reseat.Cursor, commonWin: bool, shared: ICSInfo, sampRateIdx: nat, sfbCodeBook: array<nat>,
                             scaleFactors: array<int>, coef: array<int>, ghost x: Channel)
    returns (ics: ICSInfo, s: Reseat.Status)
    requires c.Valid() && x.Legal() && sampRateIdx == x.sampRateIdx && (commonWin ==> Shared(shared, x))
    requires sfbCodeBook.Length >= MAX_SF_BANDS && scaleFactors.Length >= MAX_SF_BANDS && coef.Length == 1024
    requires coef != scaleFactors && Matches(c.Data(), c.At(), x.Print(commonWin))
    modifies c, sfbCodeBook, scaleFactors, coef
    ensures c.At() == old(c.At()) + |x.Print(commonWin)| && c.End() == old(c.End())
    ensures s == if c.At() > c.End() then Reseat.Underflow else Reseat.None
    ensures s == Reseat.None ==> c.Valid() && c.Data() == old(c.Data())
    ensures Shared(ics, x) && Stored(x, sfbCodeBook[..], scaleFactors[..], coef[..])
  {
    hide Bits, Matches, Channel.Legal, Channel.Print, Flatten, Shared, Stored, CacheWord;
    EntriesFit(x);
    var bsi := c.Seat();
    // no legal channel has a sampling rate the spectral decoder rejects
    var nResult;
    ics, nResult := DecodeChannel(bsi, commonWin, shared, sampRateIdx, sfbCodeBook, scaleFactors, coef, x);
    s := c.Unseat(bsi);
  }
}
