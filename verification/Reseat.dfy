/** The cursor that codec/aacdecode/decelmnt.c, noiseless.c, filefmt.c and aacdec.c carry between
    parsing calls, and the reader each call seats at it and tears down again. A parse cut into such
    calls reads what one uninterrupted reader reads. */
module Reseat {
  import opened Fixed
  import opened Bitstream
  import opened Printing

  const NUM_SYN_ID_BITS := 3
  const NUM_SAMPLE_RATES := 12
  const NUM_DEF_CHAN_MAPS := 8

  // ---- what an uninterrupted reader reads ----

  /** One step of a parser; a cut gives up the reader and seats a new one at the same place. */
  datatype Op = Get(n: int) | Peek(n: int) | Advance(n: int) | Align | Cut

  /** A parser: the next step, given every value read so far. */
  type Parser = seq<nat> -> Op

  /** The value an operation reads at bit p of the plain buffer, and the bit after it. */
  function Effect(d: seq<Byte>, p: nat, op: Op): (nat, nat)
  {
    match op
    case Get(n) => (Bits(d, p, n % 32), p + n % 32)
    case Peek(n) => (Bits(d, p, n % 32), p)
    case Advance(n) => (0, p + n % 32)
    case Align => (0, (p + 7) / 8 * 8)
    case Cut => (0, p)
  }

  /** The values n steps of an uninterrupted parse read from bit p, and the bit after them. */
  function Run(d: seq<Byte>, p: nat, parser: Parser, n: nat): (seq<nat>, nat)
  {
    if n == 0 then ([], p)
    else
      var (seen, q) := Run(d, p, parser, n - 1);
      var (v, q') := Effect(d, q, parser(seen));
      (seen + [v], q')
  }

  /** The parse gives its reader up after n steps: at a cut, or at its end. */
  predicate Parts(d: seq<Byte>, p: nat, parser: Parser, n: nat, total: nat)
  {
    n == total || (n < total && parser(Run(d, p, parser, n).0).Cut?)
  }

  /** No reader is given up past bit end in the first n steps. */
  ghost predicate NeverPast(d: seq<Byte>, p: nat, parser: Parser, n: nat, total: nat, end: nat)
  {
    forall k: nat :: k < n && Parts(d, p, parser, k, total) ==> Run(d, p, parser, k).1 <= end
  }

  lemma RunNone(d: seq<Byte>, p: nat, parser: Parser)
    ensures Run(d, p, parser, 0) == ([], p)
  {
  }

  lemma RunStep(d: seq<Byte>, p: nat, parser: Parser, n: nat)
    ensures var (seen, q) := Run(d, p, parser, n); var (v, q') := Effect(d, q, parser(seen));
      Run(d, p, parser, n + 1) == (seen + [v], q')
  {
  }

  lemma {:induction false} RunGrows(d: seq<Byte>, p: nat, parser: Parser, n: nat)
    ensures p <= Run(d, p, parser, n).1
  {
    if n > 0 { RunGrows(d, p, parser, n - 1); }
  }

  lemma CutReadsNothing(d: seq<Byte>, p: nat)
    ensures Effect(d, p, Cut) == (0, p)
  {
  }

  lemma EffectGrows(d: seq<Byte>, p: nat, op: Op)
    ensures p <= Effect(d, p, op).1
  {
  }

  /** Whether the reader is given up after i steps depends on the next operation alone. */
  lemma PartsAt(d: seq<Byte>, p: nat, parser: Parser, i: nat, total: nat)
    requires i <= total
    ensures Parts(d, p, parser, i, total) <==> i == total || parser(Run(d, p, parser, i).0).Cut?
  {
  }

  lemma NeverPastStep(d: seq<Byte>, p: nat, parser: Parser, n: nat, total: nat, end: nat)
    ensures NeverPast(d, p, parser, n + 1, total, end) <==>
      NeverPast(d, p, parser, n, total, end) && (Parts(d, p, parser, n, total) ==> Run(d, p, parser, n).1 <= end)
  {
    hide Run, Parts;
  }

  lemma NeverPastFewer(d: seq<Byte>, p: nat, parser: Parser, n: nat, m: nat, total: nat, end: nat)
    requires n <= m && NeverPast(d, p, parser, m, total, end)
    ensures NeverPast(d, p, parser, n, total, end)
  {
    hide Run, Parts;
  }

  lemma NeverPastNone(d: seq<Byte>, p: nat, parser: Parser, total: nat, end: nat)
    ensures NeverPast(d, p, parser, 0, total, end)
  {
  }

  /** The identifier first, then the element's own operations on what follows it. */
  function WithId(element: Parser): Parser
  {
    (seen: seq<nat>) => if seen == [] then Get(NUM_SYN_ID_BITS) else element(seen)
  }

  lemma {:induction false} FirstIsId(d: seq<Byte>, p: nat, element: Parser, ops: nat)
    ensures var values := Run(d, p, WithId(element), ops + 1).0;
      |values| == ops + 1 && values[0] == Bits(d, p, NUM_SYN_ID_BITS)
  {
    hide Bits;
    if ops > 0 { FirstIsId(d, p, element, ops - 1); } else { RunNone(d, p, WithId(element)); }
  }

  /** One step on the cached reader. */
  method Perform(bsi: BitReader, op: Op) returns (v: nat)
    requires bsi.Valid() && !op.Cut?
    modifies bsi
    ensures bsi.Valid() && bsi.View() == old(bsi.View())
    ensures (v, bsi.Pos()) == Effect(old(bsi.View()), old(bsi.Pos()), op)
  {
    hide Bits, CacheWord;
    v := 0;
    match op {
      case Get(n) => v := bsi.GetBits(n);
      case Peek(n) => v := bsi.GetBitsNoAdvance(n);
      case Advance(n) => bsi.AdvanceBitstream(n);
      case Align => bsi.ByteAlignBitstream();
    }
  }

  // ---- the cursor ----

  datatype Status = None | Rejected | Unsupported | Underflow

  class Cursor {
    const mem: seq<Byte>
    var buf: nat
    var bitOffset: nat
    var bitsAvail: int

    constructor (mem: seq<Byte>, buf: nat, bytesLeft: nat)
      requires buf + bytesLeft <= |mem|
      ensures Valid() && this.mem == mem && At() == 8 * buf && End() == 8 * (buf + bytesLeft)
    {
      this.mem, this.buf, bitOffset, bitsAvail := mem, buf, 0, 8 * bytesLeft;
    }

    /** The next unread bit. */
    ghost function At(): nat
      reads this
    {
      8 * buf + bitOffset
    }

    /** The bit after the last available one. */
    ghost function End(): int
      reads this
    {
      8 * buf + bitOffset + bitsAvail
    }

    ghost predicate Valid()
      reads this
    {
      bitOffset < 8 && bitsAvail >= 0 && End() % 8 == 0 && End() <= 8 * |mem|
    }

    /** The bytes a reader may see. */
    ghost function Data(): seq<Byte>
      reads this
      requires Valid()
    {
      mem[..End() / 8]
    }

    /** SetBitstreamPointer, then the skip to the bit offset. */
    method Seat() returns (bsi: BitReader)
      requires Valid()
      ensures fresh(bsi) && bsi.Valid() && bsi.View() == Data() && bsi.Pos() == At()
    {
      hide Bits, CacheWord;
      bsi := new BitReader(mem, (bitsAvail + 7) / 8, buf);
      var _ := bsi.GetBits(bitOffset);
    }

    /** The cursor moves to where the reader is; the end stays where it was, and the call fails
        exactly when the reader has passed it. */
    method Unseat(bsi: BitReader) returns (s: Status)
      requires Valid() && bsi.Valid() && bsi.Pos() >= At()
      modifies this
      ensures At() == bsi.Pos() && bitOffset < 8 && End() == old(End())
      ensures s == if bsi.Pos() > old(End()) then Underflow else None
      ensures s == None ==> Valid() && Data() == old(Data())
    {
      hide Bits, CacheWord;
      var bitsUsed := bsi.CalcBitsUsed(buf, bitOffset);
      var moved := bitsUsed + bitOffset;
      buf := buf + moved / 8;
      bitOffset := moved % 8;
      bitsAvail := bitsAvail - bitsUsed;
      s := if bitsAvail < 0 then Underflow else None;
    }

    /** The shape of every parsing call: seat, parse, give up on a syntax error with the cursor where
        it was, otherwise move the cursor. */
    method Call(parser: Parser, ops: nat, rejects: seq<nat> -> bool) returns (seen: seq<nat>, s: Status)
      requires Valid() && forall v :: !parser(v).Cut?
      modifies this
      ensures var (values, q) := Run(old(Data()), old(At()), parser, ops);
        && seen == values
        && End() == old(End())
        && (if rejects(values) then s == Rejected && Valid() && At() == old(At())
            else At() == q && bitOffset < 8 && s == if q > End() then Underflow else None)
      ensures s == None ==> Valid() && Data() == old(Data())
    {
      hide Bits, CacheWord, Effect;
      ghost var d, p := Data(), At();
      var bsi := Seat();
      seen := [];
      var i := 0;
      while i < ops
        invariant 0 <= i <= ops && fresh(bsi) && bsi.Valid() && bsi.View() == d
        invariant unchanged(this)
        invariant Run(d, p, parser, i) == (seen, bsi.Pos())
      {
        RunStep(d, p, parser, i);
        var v := Perform(bsi, parser(seen));
        seen := seen + [v];
        i := i + 1;
      }
      RunGrows(d, p, parser, ops);
      if rejects(seen) { return seen, Rejected; }
      s := Unseat(bsi);
    }

    /** DecodeNextElement: the element's own parse follows its three-bit identifier. */
    method DecodeNextElement(element: Parser, ops: nat, rejects: seq<nat> -> bool) returns (id: nat, seen: seq<nat>, s: Status)
      requires Valid() && forall v :: !element(v).Cut?
      modifies this
      ensures id == Bits(old(Data()), old(At()), NUM_SYN_ID_BITS) && id < 8
      ensures End() == old(End()) && |seen| == ops + 1 && seen[0] == id
      ensures s == Rejected ==> At() == old(At()) && Valid()
      ensures s != Rejected ==>
        (At() == Run(old(Data()), old(At()), WithId(element), ops + 1).1 && s == if At() > End() then Underflow else None)
      ensures s == None ==> Valid() && Data() == old(Data())
    {
      hide Bits, CacheWord, Effect;
      var all := WithId(element);
      ghost var d, p := Data(), At();
      seen, s := Call(all, ops + 1, rejects);
      FirstIsId(d, p, element, ops);
      id := seen[0];
      assert Pow2(NUM_SYN_ID_BITS) == 8;
    }

    /** The alignment after each raw data block: with the end on a byte boundary it never fails. */
    method ByteAlign() returns (s: Status)
      requires Valid()
      modifies this
      ensures s == None && Valid() && bitOffset == 0 && End() == old(End()) && old(At()) <= At() < old(At()) + 8
    {
      if bitOffset != 0 {
        buf := buf + 1;
        bitsAvail := bitsAvail - (8 - bitOffset);
        bitOffset := 0;
        if bitsAvail < 0 { return Underflow; }
      }
      s := None;
    }

    /** A parse cut anywhere into calls: as long as no reader is given up past the end, every value
        and the final position are those of one uninterrupted reader. */
    method ParseInParts(parser: Parser, ops: nat) returns (seen: seq<nat>, s: Status)
      requires Valid()
      modifies this
      ensures End() == old(End()) && |seen| <= ops && s != Rejected
      ensures Run(old(Data()), old(At()), parser, |seen|) == (seen, At())
      ensures s == None ==> Valid() && |seen| == ops
      ensures s == None <==> NeverPast(old(Data()), old(At()), parser, ops + 1, ops, old(End()))
    {
      hide Bits, CacheWord, Effect, Run, Parts, NeverPast;
      ghost var d, p, end := Data(), At(), End();
      assert Run(d, p, parser, 0) == ([], p) by { RunNone(d, p, parser); }
      NeverPastNone(d, p, parser, ops, end);
      var bsi := Seat();
      seen := [];
      var i := 0;
      while i < ops
        invariant 0 <= i <= ops && |seen| == i && fresh(bsi) && bsi.Valid() && bsi.View() == d
        invariant Valid() && Data() == d && End() == end && At() <= bsi.Pos()
        invariant Run(d, p, parser, i) == (seen, bsi.Pos())
        invariant NeverPast(d, p, parser, i, ops, end)
      {
        RunStep(d, p, parser, i);
        PartsAt(d, p, parser, i, ops);
        NeverPastStep(d, p, parser, i, ops, end);
        var op := parser(seen);
        if op.Cut? {
          CutReadsNothing(d, bsi.Pos());
          s := Unseat(bsi);
          if s != None {
            assert !NeverPast(d, p, parser, i + 1, ops, end);
            if NeverPast(d, p, parser, ops + 1, ops, end) { NeverPastFewer(d, p, parser, i + 1, ops + 1, ops, end); }
            return;
          }
          bsi := Seat();
          seen := seen + [0];
        } else {
          EffectGrows(d, bsi.Pos(), op);
          var v := Perform(bsi, op);
          seen := seen + [v];
        }
        i := i + 1;
      }
      PartsAt(d, p, parser, ops, ops);
      NeverPastStep(d, p, parser, ops, ops, end);
      s := Unseat(bsi);
    }

    /** UnpackADTSHeader. The cursor moves over the header, its time stamp and checksum if there are
        any, and the alignment; every refused header leaves the cursor and the decoder's settings where
        they were, a frame that is not whole the cursor alone. */
    method UnpackADTSHeader(build: Build, dec: Settings) returns (h: AdtsHeader, dec': Settings, s: Status)
      requires Valid()
      modifies this
      ensures End() == old(End()) && h == HeaderAt(old(Data()), old(At()), build)
      ensures s == Rejected <==> !h.Legal(build)
      ensures s == Unsupported <==> h.Legal(build) && !h.Supported(build)
      ensures dec' == if h.Legal(build) && h.Supported(build) then dec.From(h) else dec
      ensures h.Legal(build) && h.Supported(build) ==>
        if old(bitsAvail) / 8 >= h.change.frameLength then
          At() == (old(At()) + h.Length(build) + 7) / 8 * 8 && s == if At() > End() then Underflow else None
        else s == Underflow && Valid() && At() == old(At())
      ensures s == Rejected || s == Unsupported ==> Valid() && At() == old(At())
      ensures s == None ==> Valid() && Data() == old(Data())
    {
      hide Bits, CacheWord;
      ghost var d, p := Data(), At();
      var bsi := Seat();
      h := ReadHeader(bsi, build);
      dec' := dec;
      if h.NoSync? { return h, dec, Rejected; }
      bsi.ByteAlignBitstream();
      if !h.Legal(build) { return h, dec, Rejected; }
      if !h.Supported(build) { return h, dec, Unsupported; }
      dec' := dec.From(h);
      if bitsAvail / 8 < h.change.frameLength { return h, dec', Underflow; }
      s := Unseat(bsi);
    }
  }

  // ---- the ADTS header ----

  const AAC_PROFILE_LC := 1

  /** The builds with MPEG-4 streams allowed, and with a time stamp behind a header of layer 1. */
  datatype Build = Build(mpeg4: bool, pts: bool)

  /** The fields that stay the same from frame to frame, and those that may change. */
  datatype FixedFields = FixedFields(id: nat, layer: nat, protectBit: nat, profile: nat, sampRateIdx: nat, privateBit: nat,
    channelConfig: nat, origCopy: nat, home: nat)
  datatype VariableFields = VariableFields(copyBit: nat, copyStart: nat, frameLength: nat, bufferFull: nat, numRawDataBlocks: nat)

  datatype AdtsHeader = NoSync | Adts(fields: FixedFields, change: VariableFields, pts: nat, crcCheckWord: nat)
  {
    predicate Legal(build: Build)
    {
      Adts? && (fields.layer == 0 || (build.pts && fields.layer == 1)) && fields.profile == AAC_PROFILE_LC
      && fields.sampRateIdx < NUM_SAMPLE_RATES && fields.channelConfig < NUM_DEF_CHAN_MAPS
    }

    predicate Supported(build: Build) { Adts? && (build.mpeg4 || fields.id == 1) }

    predicate Stamped(build: Build) { Adts? && build.pts && fields.layer == 1 }

    function Length(build: Build): nat
    {
      56 + (if Stamped(build) then 32 else 0) + (if Adts? && fields.protectBit == 0 then 16 else 0)
    }
  }

  /** What the decoder takes from a header. */
  datatype Settings = Settings(sampRateIdx: nat, nChans: int, useImpChanMap: bool, sampRate: nat, profile: nat,
    adtsBlocksLeft: nat, nFrameLength: nat, currInstTag: int)
  {
    /** With a channel map deduced from the stream the header's is not used. */
    function From(h: AdtsHeader): Settings
      requires h.Adts? && h.fields.sampRateIdx < NUM_SAMPLE_RATES && h.fields.channelConfig < NUM_DEF_CHAN_MAPS
    {
      Settings(h.fields.sampRateIdx, if useImpChanMap then nChans else CHANNEL_MAP_TAB[h.fields.channelConfig], useImpChanMap,
               SAMP_RATE_TAB[h.fields.sampRateIdx], h.fields.profile, h.change.numRawDataBlocks, h.change.frameLength, -1)
    }
  }

  const CHANNEL_MAP_TAB: seq<int> := [-1, 1, 2, 3, 4, 5, 6, 8]
  const SAMP_RATE_TAB: seq<nat> := [96000, 88200, 64000, 48000, 44100, 32000, 24000, 22050, 16000, 12000, 11025, 8000]

  /** The profile in the stream is read and then overwritten. */
  ghost function FixedAt(d: seq<Byte>, p: nat): FixedFields
  {
    FixedFields(Bits(d, p, 1), Bits(d, p + 1, 2), Bits(d, p + 3, 1), 1, Bits(d, p + 6, 4), Bits(d, p + 10, 1),
                Bits(d, p + 11, 3), Bits(d, p + 14, 1), Bits(d, p + 15, 1))
  }

  ghost function VariableAt(d: seq<Byte>, p: nat): VariableFields
  {
    VariableFields(Bits(d, p, 1), Bits(d, p + 1, 1), Bits(d, p + 2, 13), Bits(d, p + 15, 11), Bits(d, p + 26, 2) + 1)
  }

  /** A time stamp, least significant byte first. */
  ghost function StampAt(d: seq<Byte>, p: nat): nat
  {
    Bits(d, p, 8) + 0x100 * Bits(d, p + 8, 8) + 0x1_0000 * Bits(d, p + 16, 8) + 0x100_0000 * Bits(d, p + 24, 8)
  }

  /** The header at bit p. */
  ghost function HeaderAt(d: seq<Byte>, p: nat, build: Build): AdtsHeader
  {
    if Bits(d, p, 12) != 0xfff then NoSync
    else
      var f := FixedAt(d, p + 12);
      var stamped := build.pts && f.layer == 1;
      Adts(f, VariableAt(d, p + 28), if stamped then StampAt(d, p + 56) else 0,
           if f.protectBit == 0 then Bits(d, p + if stamped then 88 else 56, 16) else 0)
  }

  /** The profile check behind the overwriting refuses no header: nor does the one on the channel
      configuration, which has three bits: a header is legal by its layer and rate alone. */
  lemma ProfileNeverRefused(d: seq<Byte>, p: nat, build: Build)
    ensures var h := HeaderAt(d, p, build);
      h.Legal(build) <==>
        && Bits(d, p, 12) == 0xfff && (Bits(d, p + 13, 2) == 0 || (build.pts && Bits(d, p + 13, 2) == 1))
        && Bits(d, p + 18, 4) < 12
  {
    hide Bits;
    ThreeBits(d, p + 23);
  }

  /** What a good header sets, by the places of its bits: the frame length, the blocks, the channels and the
      rate, three rates halved every third index. */
  lemma SettingsTaken(d: seq<Byte>, p: nat, build: Build, dec: Settings)
    requires HeaderAt(d, p, build).Legal(build)
    ensures var t, i, c := dec.From(HeaderAt(d, p, build)), Bits(d, p + 18, 4), Bits(d, p + 23, 3);
      && t.nFrameLength == Bits(d, p + 30, 13) && t.adtsBlocksLeft == Bits(d, p + 54, 2) + 1 && t.profile == 1 && t.currInstTag == -1
      && t.nChans == (if dec.useImpChanMap then dec.nChans else if c == 0 then -1 else if c == 7 then 8 else c)
      && t.useImpChanMap == dec.useImpChanMap && t.sampRateIdx == i
      && t.sampRate * Pow2(i / 3) == if i % 3 == 0 then 96000 else if i % 3 == 1 then 88200 else 64000
  {
    hide Bits;
    ThreeBits(d, p + 23);
    assert Pow2(0) == 1 && Pow2(1) == 2 && Pow2(2) == 4 && Pow2(3) == 8;
  }

  // ---- the printed header ----

  /** The parts of the printed header, in the order of subclauses 1.A.2.2.1 and 1.A.2.2.2 of ISO/IEC 14496-3. */
  function PrintFixed(f: FixedFields, profile: nat, rest: seq<Bit>): seq<Bit>
  {
    ToBits(f.id, 1) + (ToBits(f.layer, 2) + (ToBits(f.protectBit, 1) + (ToBits(profile, 2) + (ToBits(f.sampRateIdx, 4)
    + (ToBits(f.privateBit, 1) + (ToBits(f.channelConfig, 3) + (ToBits(f.origCopy, 1) + (ToBits(f.home, 1) + rest))))))))
  }

  function PrintVariable(v: VariableFields, rest: seq<Bit>): seq<Bit>
    requires v.numRawDataBlocks >= 1
  {
    ToBits(v.copyBit, 1) + (ToBits(v.copyStart, 1) + (ToBits(v.frameLength, 13) + (ToBits(v.bufferFull, 11)
    + (ToBits(v.numRawDataBlocks - 1, 2) + rest))))
  }

  /** The time stamp's bytes, least significant first. */
  function PrintStamp(pts: nat, rest: seq<Bit>): seq<Bit>
  {
    ToBits(pts % 0x100, 8) + (ToBits(pts / 0x100 % 0x100, 8) + (ToBits(pts / 0x100 / 0x100 % 0x100, 8)
    + (ToBits(pts / 0x100 / 0x100 / 0x100, 8) + rest)))
  }

  predicate FieldsFit(f: FixedFields, profile: nat)
  {
    f.id < 2 && f.layer < 4 && f.protectBit < 2 && profile < 4 && f.profile == 1 && f.sampRateIdx < 16 && f.privateBit < 2
    && f.channelConfig < 8 && f.origCopy < 2 && f.home < 2
  }

  predicate ChangeFits(v: VariableFields)
  {
    v.copyBit < 2 && v.copyStart < 2 && v.frameLength < 8192 && v.bufferFull < 2048 && 1 <= v.numRawDataBlocks <= 4
  }

  predicate Fits(h: AdtsHeader, profile: nat, build: Build)
  {
    h.Adts? && FieldsFit(h.fields, profile) && ChangeFits(h.change)
    && (if h.Stamped(build) then h.pts < TWO32 else h.pts == 0)
    && (if h.fields.protectBit == 0 then h.crcCheckWord < 0x1_0000 else h.crcCheckWord == 0)
  }

  /** A header printed with any profile. */
  function PrintHeader(h: AdtsHeader, profile: nat, build: Build): seq<Bit>
    requires Fits(h, profile, build)
  {
    var check := if h.fields.protectBit == 0 then ToBits(h.crcCheckWord, 16) else [];
    ToBits(0xfff, 12) + PrintFixed(h.fields, profile, PrintVariable(h.change,
      if h.Stamped(build) then PrintStamp(h.pts, check) else check))
  }

  lemma Taken(d: seq<Byte>, p: nat, v: nat, n: nat, rest: seq<Bit>)
    requires v < Pow2(n) && Matches(d, p, ToBits(v, n) + rest)
    ensures Bits(d, p, n) == v && Matches(d, p + n, rest)
  {
    MatchesAppend(d, p, ToBits(v, n), rest);
    ReadNumber(d, p, v, n);
  }

  lemma TakeFixed(d: seq<Byte>, p: nat, f: FixedFields, profile: nat, rest: seq<Bit>)
    requires FieldsFit(f, profile) && Matches(d, p, PrintFixed(f, profile, rest))
    ensures FixedAt(d, p) == f && Matches(d, p + 16, rest)
  {
    hide Bits, ToBits, Matches;
    Widths();
    var r8 := ToBits(f.home, 1) + rest;
    var r7 := ToBits(f.origCopy, 1) + r8;
    var r6 := ToBits(f.channelConfig, 3) + r7;
    var r5 := ToBits(f.privateBit, 1) + r6;
    var r4 := ToBits(f.sampRateIdx, 4) + r5;
    var r3 := ToBits(profile, 2) + r4;
    var r2 := ToBits(f.protectBit, 1) + r3;
    Taken(d, p, f.id, 1, ToBits(f.layer, 2) + r2);
    Taken(d, p + 1, f.layer, 2, r2);
    Taken(d, p + 3, f.protectBit, 1, r3);
    Taken(d, p + 4, profile, 2, r4);
    Taken(d, p + 6, f.sampRateIdx, 4, r5);
    Taken(d, p + 10, f.privateBit, 1, r6);
    Taken(d, p + 11, f.channelConfig, 3, r7);
    Taken(d, p + 14, f.origCopy, 1, r8);
    Taken(d, p + 15, f.home, 1, rest);
  }

  lemma TakeVariable(d: seq<Byte>, p: nat, v: VariableFields, rest: seq<Bit>)
    requires ChangeFits(v) && Matches(d, p, PrintVariable(v, rest))
    ensures VariableAt(d, p) == v && Matches(d, p + 28, rest)
  {
    hide Bits, ToBits, Matches;
    Widths();
    var r4 := ToBits(v.numRawDataBlocks - 1, 2) + rest;
    var r3 := ToBits(v.bufferFull, 11) + r4;
    var r2 := ToBits(v.frameLength, 13) + r3;
    Taken(d, p, v.copyBit, 1, ToBits(v.copyStart, 1) + r2);
    Taken(d, p + 1, v.copyStart, 1, r2);
    Taken(d, p + 2, v.frameLength, 13, r3);
    Taken(d, p + 15, v.bufferFull, 11, r4);
    Taken(d, p + 26, v.numRawDataBlocks - 1, 2, rest);
  }

  lemma TakeStamp(d: seq<Byte>, p: nat, pts: nat, rest: seq<Bit>)
    requires pts < TWO32 && Matches(d, p, PrintStamp(pts, rest))
    ensures StampAt(d, p) == pts && Matches(d, p + 32, rest)
  {
    StampBytes(pts);
    TakeBytes(d, p, pts % 0x100, pts / 0x100 % 0x100, pts / 0x100 / 0x100 % 0x100, pts / 0x100 / 0x100 / 0x100, rest);
  }

  lemma StampBytes(pts: nat)
    ensures pts == pts % 0x100 + 0x100 * (pts / 0x100 % 0x100) + 0x1_0000 * (pts / 0x100 / 0x100 % 0x100) + 0x100_0000 * (pts / 0x100 / 0x100 / 0x100)
  {
    var a, b := pts / 0x100, pts / 0x100 / 0x100;
    assert pts == 0x100 * a + pts % 0x100 && a == 0x100 * b + a % 0x100 && b == 0x100 * (b / 0x100) + b % 0x100;
  }

  lemma TakeBytes(d: seq<Byte>, p: nat, b0: nat, b1: nat, b2: nat, b3: nat, rest: seq<Bit>)
    requires b0 < 0x100 && b1 < 0x100 && b2 < 0x100 && b3 < 0x100
    requires Matches(d, p, ToBits(b0, 8) + (ToBits(b1, 8) + (ToBits(b2, 8) + (ToBits(b3, 8) + rest))))
    ensures StampAt(d, p) == b0 + 0x100 * b1 + 0x1_0000 * b2 + 0x100_0000 * b3 && Matches(d, p + 32, rest)
  {
    hide Bits, ToBits, Matches;
    Widths();
    var r3 := ToBits(b3, 8) + rest;
    var r2 := ToBits(b2, 8) + r3;
    Taken(d, p, b0, 8, ToBits(b1, 8) + r2);
    Taken(d, p + 8, b1, 8, r2);
    Taken(d, p + 16, b2, 8, r3);
    Taken(d, p + 24, b3, 8, rest);
  }

  lemma Widths()
    ensures Pow2(1) == 2 && Pow2(2) == 4 && Pow2(3) == 8 && Pow2(4) == 16 && Pow2(8) == 0x100 && Pow2(11) == 2048
    ensures Pow2(12) == 4096 && Pow2(13) == 8192 && Pow2(16) == 0x1_0000
  {
  }

  /** A printed header is read back whole, whatever profile it carries. */
  lemma HeaderReadsBack(d: seq<Byte>, p: nat, h: AdtsHeader, profile: nat, build: Build)
    requires Fits(h, profile, build) && Matches(d, p, PrintHeader(h, profile, build))
    ensures HeaderAt(d, p, build) == h && |PrintHeader(h, profile, build)| == h.Length(build)
  {
    hide Bits, ToBits, Matches, FixedAt, VariableAt, StampAt, PrintFixed, PrintVariable, PrintStamp;
    Widths();
    var check := if h.fields.protectBit == 0 then ToBits(h.crcCheckWord, 16) else [];
    var tail := if h.Stamped(build) then PrintStamp(h.pts, check) else check;
    Taken(d, p, 0xfff, 12, PrintFixed(h.fields, profile, PrintVariable(h.change, tail)));
    TakeFixed(d, p + 12, h.fields, profile, PrintVariable(h.change, tail));
    TakeVariable(d, p + 28, h.change, tail);
    var end := p + if h.Stamped(build) then 88 else 56;
    if h.Stamped(build) { TakeStamp(d, p + 56, h.pts, check); }
    if h.fields.protectBit == 0 {
      assert check + [] == check;
      Taken(d, end, h.crcCheckWord, 16, []);
    }
    Lengths(h.fields, profile, h.change, h.pts, PrintVariable(h.change, tail), tail, check);
  }

  lemma Lengths(f: FixedFields, profile: nat, v: VariableFields, pts: nat, more: seq<Bit>, tail: seq<Bit>, check: seq<Bit>)
    requires v.numRawDataBlocks >= 1
    ensures |PrintFixed(f, profile, more)| == 16 + |more| && |PrintVariable(v, tail)| == 28 + |tail| && |PrintStamp(pts, check)| == 32 + |check|
  {
    hide ToBits;
  }

  lemma ThreeBits(d: seq<Byte>, p: nat)
    ensures Bits(d, p, 3) < 8
  {
    assert Pow2(3) == 8;
  }

  method ReadFixed(bsi: BitReader) returns (f: FixedFields)
    requires bsi.Valid()
    modifies bsi
    ensures bsi.Valid() && bsi.View() == old(bsi.View()) && bsi.Pos() == old(bsi.Pos()) + 16
    ensures f == FixedAt(bsi.View(), old(bsi.Pos()))
  {
    hide Bits, CacheWord;
    var id := bsi.GetBits(1);
    var layer := bsi.GetBits(2);
    var protectBit := bsi.GetBits(1);
    var profile := bsi.GetBits(2);
    var sampRateIdx := bsi.GetBits(4);
    var privateBit := bsi.GetBits(1);
    var channelConfig := bsi.GetBits(3);
    var origCopy := bsi.GetBits(1);
    var home := bsi.GetBits(1);
    profile := 1;
    f := FixedFields(id, layer, protectBit, profile, sampRateIdx, privateBit, channelConfig, origCopy, home);
  }

  method ReadVariable(bsi: BitReader) returns (v: VariableFields)
    requires bsi.Valid()
    modifies bsi
    ensures bsi.Valid() && bsi.View() == old(bsi.View()) && bsi.Pos() == old(bsi.Pos()) + 28
    ensures v == VariableAt(bsi.View(), old(bsi.Pos()))
  {
    hide Bits, CacheWord;
    var copyBit := bsi.GetBits(1);
    var copyStart := bsi.GetBits(1);
    var frameLength := bsi.GetBits(13);
    var bufferFull := bsi.GetBits(11);
    var blocks := bsi.GetBits(2);
    v := VariableFields(copyBit, copyStart, frameLength, bufferFull, blocks + 1);
  }

  method ReadStamp(bsi: BitReader) returns (pts: nat)
    requires bsi.Valid()
    modifies bsi
    ensures bsi.Valid() && bsi.View() == old(bsi.View()) && bsi.Pos() == old(bsi.Pos()) + 32
    ensures pts == StampAt(bsi.View(), old(bsi.Pos()))
  {
    hide Bits, CacheWord;
    var b0 := bsi.GetBits(8);
    var b1 := bsi.GetBits(8);
    var b2 := bsi.GetBits(8);
    var b3 := bsi.GetBits(8);
    pts := b0 + 0x100 * b1 + 0x1_0000 * b2 + 0x100_0000 * b3;
  }

  method ReadHeader(bsi: BitReader, build: Build) returns (h: AdtsHeader)
    requires bsi.Valid()
    modifies bsi
    ensures bsi.Valid() && bsi.View() == old(bsi.View()) && h == HeaderAt(bsi.View(), old(bsi.Pos()), build)
    ensures bsi.Pos() == old(bsi.Pos()) + if h.Adts? then h.Length(build) else 12
  {
    hide Bits, CacheWord, StampAt;
    var sync := bsi.GetBits(12);
    if sync != 0xfff { return NoSync; }
    var fields := ReadFixed(bsi);
    var change := ReadVariable(bsi);
    var pts, crcCheckWord := 0, 0;
    if build.pts && fields.layer == 1 {
      pts := ReadStamp(bsi);
    }
    if fields.protectBit == 0 {
      crcCheckWord := bsi.GetBits(16);
    }
    h := Adts(fields, change, pts, crcCheckWord);
  }

  // ---- why the multiple of eight matters ----

  /** With the end a number of bits past a byte boundary, as when bits before the first call were not
      subtracted, the byte count a reader is given is the bytes left exactly while the bit offset is
      at least that number: the conserved multiple of eight is what makes it exact at every offset. */
  lemma ByteCount(bitOffset: nat, bitsAvail: nat, skew: nat)
    requires bitOffset < 8 && skew < 8 && (bitOffset + bitsAvail) % 8 == skew
    ensures (bitsAvail + 7) / 8 == (bitOffset + bitsAvail) / 8 <==> skew <= bitOffset
  {
    var bytes := (bitOffset + bitsAvail) / 8;
    assert bitsAvail == 8 * bytes + skew - bitOffset;
  }
}
