/** codec/aacdecode/decelmnt.c, DecodeNextElement, and the element loop of filefmt.c and aacdec.c: a raw
    data block as a whole, with one reader seated for every element and every channel stream, as the
    inverse of a printer of table 4.4.3 of ISO/IEC 14496-3. */
module RawBlock {
  import opened Fixed
  import opened Bitstream
  import opened Printing
  import opened Layout
  import opened Noiseless
  import opened PulseData
  import opened SpectrumBlocks
  import opened ChannelStream
  import MsMask
  import Reseat

  const AAC_ID_SCE := 0
  const AAC_ID_CPE := 1
  const AAC_ID_LFE := 3
  const AAC_ID_FIL := 6
  const AAC_ID_END := 7
  const NUM_SYN_ID_BITS := 3
  const NUM_INST_TAG_BITS := 4

  /** elementNumChans of codec/aacdecode/aactabs.c */
  function ElementNumChans(id: nat): nat
  {
    if id == AAC_ID_CPE then 2 else if id == AAC_ID_SCE || id == AAC_ID_LFE then 1 else 0
  }

  // ---- the printed block ----

  /** Whether the channels of a pair share their window information, and the M/S mask if they do. */
  datatype Window = Separate | Common(msMaskPresent: nat, mask: seq<Bit>)

  /** An element of a raw data block. */
  datatype Element =
    | Single(lfe: bool, tag: nat, x: Channel)
    | Pair(tag: nat, window: Window, first: Channel, second: Channel)
    | Fill(payload: seq<Byte>)
    | End
  {
    /** The identifiers of table 4.85 of ISO/IEC 14496-3. */
    function Id(): nat
    {
      match this
      case Single(lfe, _, _) => if lfe then 3 else 0
      case Pair(_, _, _, _) => 1
      case Fill(_) => 6
      case End => 7
    }

    function Channels(): seq<Channel>
    {
      match this
      case Single(_, _, x) => [x]
      case Pair(_, _, first, second) => [first, second]
      case _ => []
    }

    predicate CommonWin() { Pair? && window.Common? }

    /** The packed mask, with the byte opened behind it, stays inside its bytes. */
    predicate MaskInside() { CommonWin() ==> ShortMask(window) }

    ghost predicate Legal(sampRateIdx: nat)
    {
      match this
      case Single(_, tag, x) => tag < 16 && At(x, sampRateIdx)
      case Pair(tag, window, first, second) =>
        tag < 16 && At(first, sampRateIdx) && At(second, sampRateIdx)
        && (window.Common? ==> second.header == first.header && LegalWindow(window, first))
      case Fill(payload) => |payload| <= 269
      case End => true
    }

    /** What follows the identifier, up to the channel streams: the tag and shared window, or the fill. */
    ghost function Body(sampRateIdx: nat): seq<Bit>
      requires Legal(sampRateIdx)
    {
      match this
      case Single(_, tag, _) => ToBits(tag, 4)
      case Pair(tag, window, first, _) => ToBits(tag, 4) + PrintWindow(window, first)
      case Fill(payload) => PrintCount(|payload|) + PrintBytes(payload, 0)
      case End => []
    }

    ghost function Head(sampRateIdx: nat): seq<Bit>
      requires Legal(sampRateIdx)
    {
      ToBits(Id(), 3) + Body(sampRateIdx)
    }

    ghost function Print(sampRateIdx: nat): seq<Bit>
      requires Legal(sampRateIdx)
    {
      Head(sampRateIdx) + PrintStreams(Channels(), CommonWin(), sampRateIdx, 0)
    }
  }

  ghost predicate At(x: Channel, sampRateIdx: nat) { x.Legal() && x.sampRateIdx == sampRateIdx }

  predicate ShortMask(window: Window)
    requires window.Common?
  {
    |window.mask| < 8 * MsMask.MAX_MS_MASK_BYTES
  }

  /** With a mask there is one bit for every band of every group. */
  predicate LegalWindow(window: Window, first: Channel)
    requires window.Common?
  {
    window.msMaskPresent < 4
    && |window.mask| == if window.msMaskPresent == 1 then |first.lens| * first.header.maxSFB else 0
  }

  ghost function PrintWindow(window: Window, first: Channel): seq<Bit>
    requires first.Legal()
  {
    if window.Common? then [1] + CommonWindow(window, first) else [0]
  }

  ghost function CommonWindow(window: Window, first: Channel): seq<Bit>
    requires window.Common? && first.Legal()
  {
    first.header.Print() + (ToBits(window.msMaskPresent, 2) + window.mask)
  }

  /** Four bits, or fifteen and the count less fourteen in eight. */
  function PrintCount(n: nat): seq<Bit>
    requires n <= 269
  {
    if n < 15 then ToBits(n, 4) else ToBits(15, 4) + ToBits(n - 14, 8)
  }

  function PrintBytes(payload: seq<Byte>, k: nat): seq<Bit>
    requires k <= |payload|
    decreases |payload| - k
  {
    if k == |payload| then [] else ToBits(payload[k], 8) + PrintBytes(payload, k + 1)
  }

  /** The channel streams from number k on. */
  ghost function PrintStreams(xs: seq<Channel>, commonWin: bool, sampRateIdx: nat, k: nat): seq<Bit>
    requires k <= |xs| && forall i :: 0 <= i < |xs| ==> At(xs[i], sampRateIdx)
    decreases |xs| - k
  {
    if k == |xs| then [] else
      assert At(xs[k], sampRateIdx);
      xs[k].Print(commonWin) + PrintStreams(xs, commonWin, sampRateIdx, k + 1)
  }

  ghost predicate LegalBlock(es: seq<Element>, sampRateIdx: nat)
  {
    forall i :: 0 <= i < |es| ==> es[i].Legal(sampRateIdx) && !es[i].End?
  }

  /** The block from element k on, with its end. */
  ghost function PrintBlock(es: seq<Element>, sampRateIdx: nat, k: nat): seq<Bit>
    requires LegalBlock(es, sampRateIdx) && k <= |es|
    decreases |es| - k
  {
    if k == |es| then Element.End.Print(sampRateIdx) else es[k].Print(sampRateIdx) + PrintBlock(es, sampRateIdx, k + 1)
  }

  /** The channels of the first k elements, in order. */
  function AllChannels(es: seq<Element>, k: nat): seq<Channel>
    requires k <= |es|
  {
    if k == 0 then [] else AllChannels(es, k - 1) + es[k - 1].Channels()
  }

  // ---- the parts of an element ----

  lemma CommonParts(d: seq<Byte>, p: nat, window: Window, first: Channel)
    requires window.Common? && first.Legal() && LegalWindow(window, first) && Matches(d, p, CommonWindow(window, first))
    ensures var q := p + |first.header.Print()|;
      && Matches(d, p, first.header.Print()) && Bits(d, q, 2) == window.msMaskPresent && Matches(d, q + 2, window.mask)
      && |CommonWindow(window, first)| == |first.header.Print()| + 2 + |window.mask|
  {
    hide Bits, Matches, ToBits, Header.Print, Channel.Legal;
    GainRange(first);
    MatchesAppend(d, p, first.header.Print(), ToBits(window.msMaskPresent, 2) + window.mask);
    MatchesAppend(d, p + |first.header.Print()|, ToBits(window.msMaskPresent, 2), window.mask);
    SmallPowers();
    ReadNumber(d, p + |first.header.Print()|, window.msMaskPresent, 2);
  }

  /** One bit for each band of a legal channel fits the mask bytes. */
  lemma MaskFits(first: Channel)
    requires first.Legal()
    ensures |first.lens| * first.header.maxSFB <= 8 * MsMask.MAX_MS_MASK_BYTES
  {
    hide Channel.Legal, Flatten;
    EntriesFit(first);
    ChannelSizes(first);
  }

  lemma MaskRead(d: seq<Byte>, p: nat, mask: seq<Bit>)
    requires Matches(d, p, mask)
    ensures forall i :: 0 <= i < |mask| ==> Bits(d, p + i, 1) == mask[i]
  {
    hide BitAt, Bits;
    forall i | 0 <= i < |mask| ensures Bits(d, p + i, 1) == mask[i] {
      assert BitAt(d, p + i) == mask[i];
      OneBit(d, p + i);
    }
  }

  lemma OneBit(d: seq<Byte>, p: nat)
    ensures Bits(d, p, 1) == BitAt(d, p)
  {
    hide BitAt;
    assert Bits(d, p, 0) == 0;
  }

  lemma WindowParts(d: seq<Byte>, p: nat, window: Window, first: Channel)
    requires first.Legal() && Matches(d, p, PrintWindow(window, first))
    ensures Bits(d, p, 1) == (if window.Common? then 1 else 0)
    ensures window.Common? ==> Matches(d, p + 1, CommonWindow(window, first))
  {
    hide Bits, Matches, CommonWindow, Channel.Legal;
    if window.Common? {
      MatchesAppend(d, p, [1], CommonWindow(window, first));
      ReadBit(d, p, 1);
    } else {
      ReadBit(d, p, 0);
    }
  }

  lemma CountRead(d: seq<Byte>, p: nat, n: nat)
    requires n <= 269 && Matches(d, p, PrintCount(n))
    ensures n < 15 ==> Bits(d, p, 4) == n && |PrintCount(n)| == 4
    ensures n >= 15 ==> Bits(d, p, 4) == 15 && Bits(d, p + 4, 8) == n - 14 && |PrintCount(n)| == 12
  {
    hide Bits, Matches, ToBits;
    SmallPowers();
    if n < 15 {
      ReadNumber(d, p, n, 4);
    } else {
      MatchesAppend(d, p, ToBits(15, 4), ToBits(n - 14, 8));
      ReadNumber(d, p, 15, 4);
      ReadNumber(d, p + 4, n - 14, 8);
    }
  }

  lemma ByteRead(d: seq<Byte>, p: nat, payload: seq<Byte>, k: nat)
    requires k < |payload| && Matches(d, p, PrintBytes(payload, k))
    ensures Bits(d, p, 8) == payload[k] && Matches(d, p + 8, PrintBytes(payload, k + 1))
    ensures |PrintBytes(payload, k)| == 8 + |PrintBytes(payload, k + 1)|
  {
    hide Bits, Matches, ToBits;
    MatchesAppend(d, p, ToBits(payload[k], 8), PrintBytes(payload, k + 1));
    SmallPowers();
    ReadNumber(d, p, payload[k], 8);
  }

  /** DecodeFillElement: the bytes, and no tag. */
  method ReadFill(bsi: BitReader, ghost payload: seq<Byte>) returns (fillBuf: seq<nat>)
    requires bsi.Valid() && |payload| <= 269 && Matches(bsi.View(), bsi.Pos(), PrintCount(|payload|) + PrintBytes(payload, 0))
    modifies bsi
    ensures bsi.Valid() && bsi.View() == old(bsi.View()) && fillBuf == payload
    ensures bsi.Pos() == old(bsi.Pos()) + |PrintCount(|payload|)| + |PrintBytes(payload, 0)|
  {
    hide Bits, Matches, PrintCount, PrintBytes, CacheWord;
    ghost var d, p := bsi.View(), bsi.Pos();
    MatchesAppend(d, p, PrintCount(|payload|), PrintBytes(payload, 0));
    CountRead(d, p, |payload|);
    var fillCount := bsi.GetBits(4);
    if fillCount == 15 {
      var more := bsi.GetBits(8);
      fillCount := fillCount + more - 1;
    }
    ghost var total := bsi.Pos() + |PrintBytes(payload, 0)|;
    fillBuf := [];
    while |fillBuf| < fillCount
      invariant bsi.Valid() && bsi.View() == d && |fillBuf| <= fillCount && fillBuf == payload[..|fillBuf|]
      invariant Matches(d, bsi.Pos(), PrintBytes(payload, |fillBuf|))
      invariant bsi.Pos() + |PrintBytes(payload, |fillBuf|)| == total
    {
      ByteRead(d, bsi.Pos(), payload, |fillBuf|);
      var byte := bsi.GetBits(8);
      fillBuf := fillBuf + [byte];
    }
    NoBytesLeft(payload);
  }

  lemma NoBytesLeft(payload: seq<Byte>)
    ensures PrintBytes(payload, |payload|) == []
  {
  }

  /** Channels under one header have one grouping. */
  lemma SameLens(x: Channel, y: Channel)
    requires x.Legal() && y.Legal() && x.header == y.header
    ensures x.lens == y.lens
  {
    hide Coded.Legal, AllCodable, Assignment, GroupedBy;
    if x.header.Short() { GroupingUnique(x.header.sfGroup, x.lens, y.lens); }
  }

  /** What is shared with one channel of a pair is shared with both. */
  lemma SharedByBoth(ics: ICSInfo, e: Element, sampRateIdx: nat, k: nat)
    requires e.Legal(sampRateIdx) && e.CommonWin() && k < 2 && Shared(ics, e.Channels()[k])
    ensures forall i :: 0 <= i < 2 ==> Shared(ics, e.Channels()[i])
  {
    hide Channel.Legal, LegalWindow;
    SameLens(e.first, e.second);
  }

  lemma RateLegal(x: Channel)
    requires x.Legal()
    ensures x.sampRateIdx < NUM_SAMPLE_RATES
  {
    hide Coded.Legal, AllCodable, Assignment, GroupedBy, Header.Legal;
  }

  lemma NextStream(d: seq<Byte>, p: nat, xs: seq<Channel>, commonWin: bool, sampRateIdx: nat, k: nat)
    requires k < |xs| && (forall i :: 0 <= i < |xs| ==> At(xs[i], sampRateIdx)) && Matches(d, p, PrintStreams(xs, commonWin, sampRateIdx, k))
    ensures At(xs[k], sampRateIdx) && Matches(d, p, xs[k].Print(commonWin))
    ensures Matches(d, p + |xs[k].Print(commonWin)|, PrintStreams(xs, commonWin, sampRateIdx, k + 1))
    ensures |PrintStreams(xs, commonWin, sampRateIdx, k)| == |xs[k].Print(commonWin)| + |PrintStreams(xs, commonWin, sampRateIdx, k + 1)|
  {
    hide Matches, Channel.Legal, Channel.Print;
    assert At(xs[k], sampRateIdx);
    MatchesAppend(d, p, xs[k].Print(commonWin), PrintStreams(xs, commonWin, sampRateIdx, k + 1));
  }

  lemma StreamsLegal(e: Element, sampRateIdx: nat)
    requires e.Legal(sampRateIdx)
    ensures |e.Channels()| == ElementNumChans(e.Id()) && forall i :: 0 <= i < |e.Channels()| ==> At(e.Channels()[i], sampRateIdx)
  {
    hide Channel.Legal, LegalWindow;
  }

  lemma NoStreamsLeft(xs: seq<Channel>, commonWin: bool, sampRateIdx: nat)
    requires forall i :: 0 <= i < |xs| ==> At(xs[i], sampRateIdx)
    ensures PrintStreams(xs, commonWin, sampRateIdx, |xs|) == []
  {
  }

  lemma NextElement(d: seq<Byte>, p: nat, es: seq<Element>, sampRateIdx: nat, k: nat)
    requires LegalBlock(es, sampRateIdx) && k <= |es| && Matches(d, p, PrintBlock(es, sampRateIdx, k))
    ensures ElementAt(es, k).Legal(sampRateIdx) && (ElementAt(es, k).End? <==> k == |es|)
    ensures var e := ElementAt(es, k);
      var streams := PrintStreams(e.Channels(), e.CommonWin(), sampRateIdx, 0);
      && Matches(d, p, e.Head(sampRateIdx)) && Matches(d, p + |e.Head(sampRateIdx)|, streams)
      && (k < |es| ==> Matches(d, p + |e.Head(sampRateIdx)| + |streams|, PrintBlock(es, sampRateIdx, k + 1)))
      && |PrintBlock(es, sampRateIdx, k)| == |e.Head(sampRateIdx)| + |streams| + if k < |es| then |PrintBlock(es, sampRateIdx, k + 1)| else 0
  {
    hide Matches, Element.Legal, Element.Head, PrintStreams;
    var e := ElementAt(es, k);
    EndLegal(sampRateIdx);
    StreamsLegal(e, sampRateIdx);
    var streams := PrintStreams(e.Channels(), e.CommonWin(), sampRateIdx, 0);
    if k < |es| { MatchesAppend(d, p, e.Print(sampRateIdx), PrintBlock(es, sampRateIdx, k + 1)); }
    MatchesAppend(d, p, e.Head(sampRateIdx), streams);
  }

  lemma EndLegal(sampRateIdx: nat)
    ensures Element.End.Legal(sampRateIdx)
  {
  }

  /** The elements, and the end behind them. */
  function ElementAt(es: seq<Element>, k: nat): Element
    requires k <= |es|
  {
    if k < |es| then es[k] else End
  }

  // ---- the largest mask ----

  /** Eight groups of fifteen empty bands, at 24 kHz. */
  function EmptyBands(): Channel
  {
    Channel(100, Header(0, 2, 0, 15, 0), 6, seq(8, _ => 1), seq(8, _ => seq(15, _ => 0)), seq(120, _ => 0), NoPulses,
            seq(1024, _ => 0))
  }

  function FullPair(): Element
  {
    Pair(0, Common(1, seq(120, _ => 1)), EmptyBands(), EmptyBands())
  }

  /** A legal pair can have a mask of 120 bits, and with it the packer leaves its fifteen bytes. */
  lemma FullMaskIsLegal()
    ensures EmptyBands().Legal() && FullPair().Legal(6) && !FullPair().MaskInside()
  {
    hide Flatten, AllCodable, Coded.Legal, GroupedBy;
    EmptyGrouping();
    EmptyEntries();
    EmptySpectrum();
  }

  lemma EmptyGrouping()
    ensures GroupedBy(EmptyBands().lens, 0)
  {
    var lens: seq<nat> := seq(8, _ => 1);
    forall g: nat | g <= 8 ensures Start(lens, g) == g { OnesStart(lens, g); }
    forall w | 1 <= w <= 7 ensures Opens(lens, w) <==> !Joins(0, w) {
      assert Start(lens, w) == w;
      UpZero(7 - w);
    }
  }

  lemma {:induction false} OnesStart(lens: seq<nat>, g: nat)
    requires g <= |lens| && forall i :: 0 <= i < |lens| ==> lens[i] == 1
    ensures Start(lens, g) == g
  {
    if g > 0 { OnesStart(lens, g - 1); }
  }

  lemma {:induction false} ZerosFlat(groups: seq<seq<nat>>)
    requires forall g :: 0 <= g < |groups| ==> forall i :: 0 <= i < |groups[g]| ==> groups[g][i] == 0
    ensures forall i :: 0 <= i < |Flatten(groups)| ==> Flatten(groups)[i] == 0
  {
    if groups != [] { ZerosFlat(groups[1..]); }
  }

  lemma {:induction false} ZerosCodable(st: Chains, books: seq<nat>, sf: seq<int>, k: nat)
    requires k <= |books| == |sf| && forall i :: 0 <= i < |sf| ==> books[i] == 0 && sf[i] == 0
    ensures AllCodable(st, books, sf, k)
    decreases |sf| - k
  {
    if k < |sf| { ZerosCodable(Advance(st, books[k], sf[k]), books, sf, k + 1); }
  }

  lemma EmptyEntries()
    ensures var x := EmptyBands();
      |x.sf| == |Flatten(x.books)| && AllCodable(x.Start(), Flatten(x.books), x.sf, 0)
  {
    hide Flatten, AllCodable;
    var x := EmptyBands();
    FlattenSize(x.books, 15);
    ZerosFlat(x.books);
    ZerosCodable(x.Start(), Flatten(x.books), x.sf, 0);
  }

  lemma EmptySpectrum()
    ensures EmptyBands().Spectrum().Legal()
  {
    hide Flatten, SfBandTabShort;
    var x := EmptyBands();
    FlattenSize(x.books, 15);
    ZerosFlat(x.books);
    EmptyGrouping();
    ShortTables(6);
    assert |SfBandTabShort(6)| == 16 by { FifteenBands(); }
    var c := x.Spectrum();
    forall g: nat, win: nat, sfb: nat | g < |c.f.lens| && win < c.f.lens[g] && sfb <= c.f.maxSFB
      ensures BandIn(c.Book(g, sfb), c.Region(g, win, sfb))
    {
      if sfb < c.f.maxSFB { c.f.EntryInRange(g, sfb); }
      c.f.RegionInside(g, win, sfb);
    }
  }

  lemma FifteenBands()
    ensures |SfBandTabShort(6)| == 16
  {
  }

  // ---- the state of the decoder ----

  /** The arrays of one channel. */
  datatype Buffers = Buffers(sfbCodeBook: array<nat>, scaleFactors: array<int>, coef: array<int>)
  {
    predicate Sized()
    {
      sfbCodeBook.Length >= MAX_SF_BANDS && scaleFactors.Length >= MAX_SF_BANDS && coef.Length == 1024 && coef != scaleFactors
    }

    predicate Apart(b: Buffers)
    {
      && sfbCodeBook != b.sfbCodeBook && scaleFactors != b.scaleFactors && coef != b.coef
      && scaleFactors != b.coef && coef != b.scaleFactors
    }

    ghost function Arrays(): set<object> { {sfbCodeBook as object, scaleFactors, coef} }

    ghost function Now(): Contents
      reads sfbCodeBook, scaleFactors, coef
    {
      Contents(sfbCodeBook[..], scaleFactors[..], coef[..])
    }

    ghost predicate Holds(x: Channel)
      reads sfbCodeBook, scaleFactors, coef
    {
      Stored(x, sfbCodeBook[..], scaleFactors[..], coef[..])
    }
  }

  /** What was in a channel's arrays when its stream had been read. */
  datatype Contents = Contents(sfbCodeBook: seq<nat>, scaleFactors: seq<int>, coef: seq<int>)

  ghost predicate Recovered(decoded: seq<Contents>, xs: seq<Channel>)
  {
    |decoded| == |xs| && forall i :: 0 <= i < |xs| ==>
      Stored(xs[i], decoded[i].sfbCodeBook, decoded[i].scaleFactors, decoded[i].coef)
  }

  lemma NoneRecovered()
    ensures Recovered([], [])
  {
  }

  lemma MoreRecovered(a: seq<Contents>, b: seq<Contents>, xs: seq<Channel>, ys: seq<Channel>)
    requires Recovered(a, xs) && Recovered(b, ys)
    ensures Recovered(a + b, xs + ys)
  {
    hide Stored;
  }

  /** Only the end has the end's identifier. */
  lemma IdsDiffer(es: seq<Element>, sampRateIdx: nat, k: nat)
    requires LegalBlock(es, sampRateIdx) && k <= |es|
    ensures ElementAt(es, k).Id() == AAC_ID_END <==> k == |es|
    ensures k == |es| ==> ElementAt(es, k).Channels() == []
  {
    hide Element.Legal;
  }

  class PSInfo {
    const sampRateIdx: nat
    const ch: seq<Buffers>
    const msMaskBits: array<nat>
    var icsInfo: seq<ICSInfo>
    var currBlockID: nat
    var prevBlockID: nat
    var currInstTag: int
    var commonWin: bool
    var msMaskPresent: nat
    var fillBuf: seq<nat>

    constructor (sampRateIdx: nat, ics: ICSInfo)
      requires sampRateIdx < NUM_SAMPLE_RATES
      ensures Valid() && this.sampRateIdx == sampRateIdx && fresh(ch[0].Arrays() + ch[1].Arrays() + {msMaskBits})
    {
      var codes0, factors0, coefs0 := new nat[MAX_SF_BANDS], new int[MAX_SF_BANDS], new int[1024];
      var codes1, factors1, coefs1 := new nat[MAX_SF_BANDS], new int[MAX_SF_BANDS], new int[1024];
      this.sampRateIdx, ch := sampRateIdx, [Buffers(codes0, factors0, coefs0), Buffers(codes1, factors1, coefs1)];
      msMaskBits := new nat[MsMask.MAX_MS_MASK_BYTES];
      icsInfo, currBlockID, prevBlockID, currInstTag := [ics, ics], 0, 0, -1;
      commonWin, msMaskPresent, fillBuf := false, 0, [];
    }

    ghost predicate Valid()
      reads this
    {
      && sampRateIdx < NUM_SAMPLE_RATES && |ch| == 2 == |icsInfo| && ch[0].Sized() && ch[1].Sized() && ch[0].Apart(ch[1])
      && msMaskBits.Length == MsMask.MAX_MS_MASK_BYTES && msMaskBits != ch[0].sfbCodeBook && msMaskBits != ch[1].sfbCodeBook
    }

    /** The fields an element leaves behind. */
    ghost predicate Seen(e: Element)
      reads this, msMaskBits
    {
      && |icsInfo| == 2 && currBlockID == e.Id() && (commonWin <==> e.CommonWin())
      && (e.Single? ==> currInstTag == e.tag)
      && (e.Pair? ==> currInstTag == e.tag && (e.window.Common? ==> SeenWindow(e.window, e.first)))
      && (e.Fill? ==> currInstTag == -1 && fillBuf == e.payload)
    }

    ghost predicate SeenWindow(window: Window, first: Channel)
      requires window.Common?
      reads this, msMaskBits
    {
      && |icsInfo| == 2 && Shared(icsInfo[0], first) && msMaskPresent == window.msMaskPresent
      && forall i :: 0 <= i < |window.mask| ==> i / 8 < msMaskBits.Length && MsMask.MaskBit(msMaskBits[..], i) == window.mask[i]
    }

    /** Single channel and LFE elements: the tag. */
    method DecodeTag(bsi: BitReader, ghost tag: nat)
      requires Valid() && bsi.Valid() && tag < 16 && Matches(bsi.View(), bsi.Pos(), ToBits(tag, NUM_INST_TAG_BITS))
      modifies bsi, this`currInstTag
      ensures bsi.Valid() && bsi.View() == old(bsi.View()) && bsi.Pos() == old(bsi.Pos()) + NUM_INST_TAG_BITS
      ensures Valid() && currInstTag == tag
    {
      hide Bits, Matches, CacheWord;
      SmallPowers();
      ReadNumber(bsi.View(), bsi.Pos(), tag, NUM_INST_TAG_BITS);
      currInstTag := bsi.GetBits(NUM_INST_TAG_BITS);
    }

    /** The window information a pair shares, and its M/S mask. */
    method DecodeCommonWindow(bsi: BitReader, ghost window: Window, ghost first: Channel) returns (inside: bool)
      requires Valid() && bsi.Valid() && At(first, sampRateIdx) && window.Common? && LegalWindow(window, first)
      requires Matches(bsi.View(), bsi.Pos(), CommonWindow(window, first))
      modifies bsi, this`icsInfo, this`msMaskPresent, msMaskBits
      ensures bsi.Valid() && bsi.View() == old(bsi.View()) && bsi.Pos() == old(bsi.Pos()) + |CommonWindow(window, first)|
      ensures Valid() && SeenWindow(window, first) && (inside <==> ShortMask(window))
    {
      hide Bits, Matches, Channel.Legal, Header.Print, MsMask.MaskBit, CacheWord;
      ghost var d, p := bsi.View(), bsi.Pos();
      CommonParts(d, p, window, first);
      var ics := ReadHeader(bsi, sampRateIdx, first);
      icsInfo := icsInfo[0 := ics];
      msMaskPresent := bsi.GetBits(2);
      ghost var q := bsi.Pos();
      inside := true;
      if msMaskPresent == 1 {
        MaskFits(first);
        inside := MsMask.PackMask(bsi, |ics.winGroupLen|, ics.maxSFB, msMaskBits);
        MaskRead(d, q, window.mask);
      }
    }

    /** DecodeChannelPairElement: the tag, whether the window is shared, and what is. */
    method DecodeChannelPairElement(bsi: BitReader, ghost e: Element) returns (inside: bool)
      requires Valid() && bsi.Valid() && e.Pair? && e.Legal(sampRateIdx) && !commonWin && currBlockID == AAC_ID_CPE
      requires Matches(bsi.View(), bsi.Pos(), e.Body(sampRateIdx))
      modifies bsi, this`currInstTag, this`commonWin, this`icsInfo, this`msMaskPresent, msMaskBits
      ensures bsi.Valid() && bsi.View() == old(bsi.View()) && bsi.Pos() == old(bsi.Pos()) + |e.Body(sampRateIdx)|
      ensures Valid() && Seen(e) && (inside <==> e.MaskInside())
    {
      hide Bits, Matches, ToBits, Channel.Legal, CommonWindow, PSInfo.SeenWindow, LegalWindow, CacheWord;
      ghost var d, p := bsi.View(), bsi.Pos();
      MatchesAppend(d, p, ToBits(e.tag, NUM_INST_TAG_BITS), PrintWindow(e.window, e.first));
      WindowParts(d, p + NUM_INST_TAG_BITS, e.window, e.first);
      DecodeTag(bsi, e.tag);
      var common := bsi.GetBits(1);
      commonWin := common == 1;
      inside := true;
      if commonWin {
        inside := DecodeCommonWindow(bsi, e.window, e.first);
      }
    }

    /** The element's own parse, chosen by its identifier; an end has none. */
    method DecodeElement(bsi: BitReader, ghost e: Element) returns (inside: bool)
      requires Valid() && bsi.Valid() && e.Legal(sampRateIdx) && currBlockID == e.Id() && !commonWin
      requires Matches(bsi.View(), bsi.Pos(), e.Body(sampRateIdx))
      modifies bsi, this`currInstTag, this`commonWin, this`icsInfo, this`msMaskPresent, this`fillBuf, msMaskBits
      ensures bsi.Valid() && bsi.View() == old(bsi.View()) && bsi.Pos() == old(bsi.Pos()) + |e.Body(sampRateIdx)|
      ensures Valid() && Seen(e) && (inside <==> e.MaskInside())
    {
      hide Bits, Matches, ToBits, Channel.Legal, PrintWindow, PrintCount, PrintBytes, PSInfo.SeenWindow, LegalWindow, CacheWord;
      inside := true;
      if currBlockID == AAC_ID_SCE || currBlockID == AAC_ID_LFE {
        DecodeTag(bsi, e.tag);
      } else if currBlockID == AAC_ID_CPE {
        inside := DecodeChannelPairElement(bsi, e);
      } else if currBlockID == AAC_ID_FIL {
        fillBuf := ReadFill(bsi, e.payload);
        currInstTag := -1;
      }
    }

    /** DecodeNextElement: a printed element within the available bits is read up to its channel
        streams, and the cursor stands right behind it with the end where it was. */
    method DecodeNextElement(c: Reseat.Cursor, ghost e: Element) returns (s: Reseat.Status, inside: bool)
      requires Valid() && c.Valid() && e.Legal(sampRateIdx)
      requires Matches(c.Data(), c.At(), e.Head(sampRateIdx)) && c.At() + |e.Head(sampRateIdx)| <= c.End()
      modifies c, this`currBlockID, this`prevBlockID, this`currInstTag, this`commonWin, this`icsInfo, this`msMaskPresent,
        this`fillBuf, msMaskBits
      ensures s == Reseat.None && c.Valid() && c.Data() == old(c.Data()) && c.End() == old(c.End())
      ensures c.At() == old(c.At()) + |e.Head(sampRateIdx)| && Valid() && Seen(e) && prevBlockID == old(currBlockID)
      ensures inside <==> e.MaskInside()
    {
      hide Bits, Matches, ToBits, Element.Legal, Element.Body, PSInfo.Seen, CacheWord;
      ghost var d, p := c.Data(), c.At();
      MatchesAppend(d, p, ToBits(e.Id(), NUM_SYN_ID_BITS), e.Body(sampRateIdx));
      SmallPowers();
      var bsi := c.Seat();
      ReadNumber(d, p, e.Id(), NUM_SYN_ID_BITS);
      prevBlockID := currBlockID;
      currBlockID := bsi.GetBits(NUM_SYN_ID_BITS);
      commonWin := false;
      inside := DecodeElement(bsi, e);
      s := c.Unseat(bsi);
    }

    /** DecodeNoiselessData for channel k of the element; a shared window is the first channel's. */
    method DecodeStream(c: Reseat.Cursor, k: nat, ghost x: Channel) returns (s: Reseat.Status)
      requires Valid() && c.Valid() && k < 2 && At(x, sampRateIdx) && (commonWin ==> Shared(icsInfo[0], x))
      requires Matches(c.Data(), c.At(), x.Print(commonWin)) && c.At() + |x.Print(commonWin)| <= c.End()
      modifies c, this`icsInfo, ch[k].Arrays()
      ensures s == Reseat.None && c.Valid() && c.Data() == old(c.Data()) && c.End() == old(c.End())
      ensures c.At() == old(c.At()) + |x.Print(commonWin)| && Valid() && ch[k].Holds(x)
      ensures commonWin ==> Shared(icsInfo[0], x)
    {
      hide Bits, Matches, Channel.Legal, Channel.Print, Stored, Shared, CacheWord;
      RateLegal(x);
      var at := if k == 1 && commonWin then 0 else k;
      var b := ch[k];
      var ics;
      ics, s := DecodeNoiselessData(c, commonWin, icsInfo[at], sampRateIdx, b.sfbCodeBook, b.scaleFactors, b.coef, x);
      icsInfo := icsInfo[at := ics];
    }

    lemma SeenShared(e: Element)
      requires Seen(e) && commonWin
      ensures e.Pair? && Shared(icsInfo[0], e.first)
    {
      hide MsMask.MaskBit, Shared;
    }

    /** The channel streams of one element. */
    method DecodeStreams(c: Reseat.Cursor, ghost e: Element) returns (elementChans: nat, s: Reseat.Status)
      requires Valid() && c.Valid() && e.Legal(sampRateIdx) && Seen(e)
      requires ghost var b := PrintStreams(e.Channels(), e.CommonWin(), sampRateIdx, 0); Matches(c.Data(), c.At(), b) && c.At() + |b| <= c.End()
      modifies c, this`icsInfo, ch[0].Arrays() + ch[1].Arrays()
      ensures s == Reseat.None && c.Valid() && c.Data() == old(c.Data()) && c.End() == old(c.End())
      ensures c.At() == old(c.At()) + |PrintStreams(e.Channels(), e.CommonWin(), sampRateIdx, 0)| && Valid()
      ensures elementChans == |e.Channels()| <= 2 && forall i :: 0 <= i < elementChans ==> ch[i].Holds(e.Channels()[i])
    {
      hide Bits, Matches, Channel.Legal, Channel.Print, Buffers.Holds, Shared, PrintStreams, CacheWord, PSInfo.SeenWindow;
      ghost var xs, d := e.Channels(), c.Data();
      ghost var total := c.At() + |PrintStreams(xs, commonWin, sampRateIdx, 0)|;
      elementChans, s := ElementNumChans(currBlockID), Reseat.None;
      StreamsLegal(e, sampRateIdx);
      if commonWin {
        SeenShared(e);
        SharedByBoth(icsInfo[0], e, sampRateIdx, 0);
      }
      for k := 0 to elementChans
        invariant s == Reseat.None && c.Valid() && c.Data() == d && c.End() == old(c.End()) && Valid()
        invariant Matches(d, c.At(), PrintStreams(xs, commonWin, sampRateIdx, k))
        invariant c.At() + |PrintStreams(xs, commonWin, sampRateIdx, k)| == total
        invariant commonWin ==> forall i :: 0 <= i < |xs| ==> Shared(icsInfo[0], xs[i])
        invariant forall i :: 0 <= i < k ==> ch[i].Holds(xs[i])
      {
        NextStream(d, c.At(), xs, commonWin, sampRateIdx, k);
        s := DecodeStream(c, k, xs[k]);
        if commonWin { SharedByBoth(icsInfo[0], e, sampRateIdx, k); }
      }
      NoStreamsLeft(xs, commonWin, sampRateIdx);
    }

    /** What the arrays of an element's channels hold. */
    ghost method Snapshot(xs: seq<Channel>) returns (now: seq<Contents>)
      requires Valid() && |xs| <= 2 && forall i :: 0 <= i < |xs| ==> ch[i].Holds(xs[i])
      ensures Recovered(now, xs)
    {
      hide Stored;
      now := [ch[0].Now(), ch[1].Now()][..|xs|];
    }

    /** One round of the element loop. */
    method ReadElement(c: Reseat.Cursor, ghost es: seq<Element>, ghost k: nat)
      returns (elementChans: nat, s: Reseat.Status, inside: bool, ghost now: seq<Contents>)
      requires Valid() && c.Valid() && LegalBlock(es, sampRateIdx) && k <= |es|
      requires Matches(c.Data(), c.At(), PrintBlock(es, sampRateIdx, k)) && c.At() + |PrintBlock(es, sampRateIdx, k)| <= c.End()
      modifies c, this, msMaskBits, ch[0].Arrays() + ch[1].Arrays()
      ensures s == Reseat.None && c.Valid() && c.Data() == old(c.Data()) && c.End() == old(c.End()) && Valid()
      ensures currBlockID == ElementAt(es, k).Id() && elementChans == |ElementAt(es, k).Channels()|
      ensures c.At() + (if k < |es| then |PrintBlock(es, sampRateIdx, k + 1)| else 0) == old(c.At()) + |PrintBlock(es, sampRateIdx, k)|
      ensures k < |es| ==> Matches(c.Data(), c.At(), PrintBlock(es, sampRateIdx, k + 1))
      ensures Recovered(now, ElementAt(es, k).Channels()) && (inside <==> ElementAt(es, k).MaskInside())
    {
      hide Bits, Matches, Element.Legal, Element.Head, Element.Print, PrintStreams, PrintBlock, Buffers.Holds, Recovered, CacheWord;
      ghost var e := ElementAt(es, k);
      NextElement(c.Data(), c.At(), es, sampRateIdx, k);
      s, inside := DecodeNextElement(c, e);
      elementChans, s := DecodeStreams(c, e);
      now := Snapshot(e.Channels());
    }

    /** GetADTSChannelMapping, whose loop is also that of the decoder: from any legal block, printed, the
        channels are counted and each one's codebooks, scalefactors and coefficients recovered, in
        order, and the cursor stands right behind the end element. A block without channels is refused.
        The mask packer stays inside its bytes over the whole block if and only if no mask fills them. */
    method GetADTSChannelMapping(c: Reseat.Cursor, ghost es: seq<Element>)
      returns (nChans: nat, mapped: bool, s: Reseat.Status, inside: bool, ghost decoded: seq<Contents>)
      requires Valid() && c.Valid() && LegalBlock(es, sampRateIdx)
      requires Matches(c.Data(), c.At(), PrintBlock(es, sampRateIdx, 0)) && c.At() + |PrintBlock(es, sampRateIdx, 0)| <= c.End()
      modifies c, this, msMaskBits, ch[0].Arrays() + ch[1].Arrays()
      ensures s == Reseat.None && c.Valid() && c.Data() == old(c.Data()) && c.End() == old(c.End()) && Valid()
      ensures c.At() == old(c.At()) + |PrintBlock(es, sampRateIdx, 0)|
      ensures nChans == |AllChannels(es, |es|)| && (mapped <==> AllChannels(es, |es|) != [])
      ensures Recovered(decoded, AllChannels(es, |es|))
      ensures inside <==> forall i :: 0 <= i < |es| ==> es[i].MaskInside()
    {
      hide Bits, Matches, LegalBlock, PrintBlock, Recovered, CacheWord;
      ghost var k: nat, d, total := 0, c.Data(), c.At() + |PrintBlock(es, sampRateIdx, 0)|;
      nChans, s, inside, decoded := 0, Reseat.None, true, [];
      NoneRecovered();
      var more := true;
      while more
        invariant s == Reseat.None && c.Valid() && c.Data() == d && c.End() == old(c.End()) && Valid()
        invariant k <= |es| && nChans == |AllChannels(es, k)| && Recovered(decoded, AllChannels(es, k))
        invariant inside <==> forall i :: 0 <= i < k ==> es[i].MaskInside()
        invariant if more then Matches(d, c.At(), PrintBlock(es, sampRateIdx, k)) && c.At() + |PrintBlock(es, sampRateIdx, k)| == total
                  else k == |es| && c.At() == total
        decreases |es| - k, more
      {
        IdsDiffer(es, sampRateIdx, k);
        var elementChans, stayed;
        ghost var now;
        elementChans, s, stayed, now := ReadElement(c, es, k);
        inside := inside && stayed;
        nChans := nChans + elementChans;
        more := currBlockID != AAC_ID_END;
        if more {
          MoreRecovered(decoded, now, AllChannels(es, k), es[k].Channels());
          decoded, k := decoded + now, k + 1;
        }
      }
      mapped := nChans > 0;
    }
  }
}
