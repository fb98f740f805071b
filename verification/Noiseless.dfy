/** codec/aacdecode/noiseless.c: window grouping, section data and scalefactors. */
module Noiseless {
  import opened Fixed
  import opened Bitstream
  import opened Printing
  import opened Huffman
  import opened HuffTables
  import opened Layout

  datatype Option<T> = None | Some(value: T)

  // ---- window grouping (DecodeICSInfo) ----

  /** Window w opens a group. */
  ghost predicate Opens(lens: seq<nat>, w: nat)
  {
    exists g :: 0 <= g < |lens| && Start(lens, g) == w
  }

  lemma {:induction false} StartPrefix(a: seq<nat>, b: seq<nat>, g: nat)
    requires g <= |a| && g <= |b| && a[..g] == b[..g]
    ensures Start(a, g) == Start(b, g)
  {
    if g > 0 {
      assert a[..g - 1] == a[..g][..g - 1] && b[..g - 1] == b[..g][..g - 1];
      assert a[g - 1] == a[..g][g - 1] && b[g - 1] == b[..g][g - 1];
      StartPrefix(a, b, g - 1);
    }
  }

  /** Growing the last group, or opening a new one, changes nothing about earlier windows. */
  lemma OpensStep(lens: seq<nat>, lens': seq<nat>, join: bool, w: nat)
    requires |lens| > 0 && (forall g :: 0 <= g < |lens| ==> lens[g] >= 1)
    requires lens' == if join then lens[|lens| - 1 := lens[|lens| - 1] + 1] else lens + [1]
    ensures Start(lens', |lens'|) == Start(lens, |lens|) + 1
    ensures w < Start(lens, |lens|) ==> (Opens(lens', w) <==> Opens(lens, w))
    ensures w == Start(lens, |lens|) ==> (Opens(lens', w) <==> !join)
  {
    var k := |lens| - 1;
    forall g | 0 <= g <= k ensures Start(lens, g) == Start(lens', g) {
      assert lens[..g] == lens'[..g];
      StartPrefix(lens, lens', g);
    }
    if !join {
      assert lens[..|lens|] == lens'[..|lens|];
      StartPrefix(lens, lens', |lens|);
      assert Start(lens', |lens|) == Start(lens, |lens|);
    } else if Opens(lens', Start(lens, |lens|)) {
      var g :| 0 <= g < |lens'| && Start(lens', g) == Start(lens, |lens|);
      StartMono(lens, g, k);
    }
    if w < Start(lens, |lens|) {
      if Opens(lens, w) { var g :| 0 <= g < |lens| && Start(lens, g) == w; assert Start(lens', g) == w; }
      if Opens(lens', w) { var g :| 0 <= g < |lens'| && Start(lens', g) == w; assert Start(lens, g) == w; }
    }
  }

  lemma OpensStepAll(lens: seq<nat>, lens': seq<nat>, join: bool)
    requires |lens| > 0 && (forall g :: 0 <= g < |lens| ==> lens[g] >= 1)
    requires lens' == if join then lens[|lens| - 1 := lens[|lens| - 1] + 1] else lens + [1]
    ensures Start(lens', |lens'|) == Start(lens, |lens|) + 1
    ensures forall w: nat :: w < Start(lens, |lens|) ==> (Opens(lens', w) <==> Opens(lens, w))
    ensures Opens(lens', Start(lens, |lens|)) <==> !join
  {
    hide Opens;
    OpensStep(lens, lens', join, Start(lens, |lens|));
    forall w: nat | w < Start(lens, |lens|) ensures Opens(lens', w) <==> Opens(lens, w) {
      OpensStep(lens, lens', join, w);
    }
  }

  /** The grouping bit of window w: bit 7-w of the 7-bit mask, the first one for window 1. */
  predicate Joins(sfGroup: nat, w: nat)
    requires 1 <= w <= 7
  {
    Down(sfGroup, 7 - w) % 2 == 1
  }

  /** Positive group lengths over eight windows, with a group opening where the mask's bit is clear. */
  ghost predicate GroupedBy(lens: seq<nat>, sfGroup: nat)
  {
    && (forall g :: 0 <= g < |lens| ==> lens[g] >= 1) && Start(lens, |lens|) == 8
    && forall w :: 1 <= w <= 7 ==> (Opens(lens, w) <==> !Joins(sfGroup, w))
  }

  /** The loop of DecodeICSInfo over the grouping mask: window w joins the window before it
      exactly when its bit is set. */
  method GroupWindows(sfGroup: nat) returns (winGroupLen: seq<nat>)
    requires sfGroup < 128
    ensures GroupedBy(winGroupLen, sfGroup) && 1 <= |winGroupLen| <= 8
  {
    hide Opens, Joins;
    winGroupLen := [1];
    var numWinGroup, g := 1, 0;
    while g < 7
      invariant 0 <= g <= 7 && numWinGroup == |winGroupLen| && 1 <= |winGroupLen| <= g + 1
      invariant forall k :: 0 <= k < |winGroupLen| ==> winGroupLen[k] >= 1
      invariant Start(winGroupLen, |winGroupLen|) == g + 1
      invariant forall w :: 1 <= w <= g ==> (Opens(winGroupLen, w) <==> !Joins(sfGroup, w))
    {
      ghost var before := winGroupLen;
      var join := Joins(sfGroup, g + 1);    // sfGroup & mask, with mask == 0x40 >> g
      if join {
        winGroupLen := winGroupLen[numWinGroup - 1 := winGroupLen[numWinGroup - 1] + 1];
      } else {
        numWinGroup := numWinGroup + 1;
        winGroupLen := winGroupLen + [1];
      }
      OpensStepAll(before, winGroupLen, join);
      g := g + 1;
    }
  }

  datatype ICSInfo = ICSInfo(icsResBit: nat, winSequence: nat, winShape: nat, maxSFB: nat, sfGroup: nat,
                             predictionUsed: seq<nat>, winGroupLen: seq<nat>)

  /** predSFBMax of codec/aacdecode/aactabs.c */
  function PredSFBMax(sampRateIdx: nat): nat
  {
    if sampRateIdx <= 1 then 33 else if sampRateIdx == 2 then 38 else if sampRateIdx <= 5 then 40
    else if sampRateIdx <= 7 then 41 else if sampRateIdx <= 10 then 37 else 34
  }

  /** Where the prediction flags of a long block begin. */
  function FlagsStart(d: seq<Byte>, p: nat): nat
  {
    if Bits(d, p + 10, 1) == 0 then p + 11 else if Bits(d, p + 11, 1) == 0 then p + 12 else p + 17
  }

  function FlagCount(d: seq<Byte>, p: nat, sampRateIdx: nat): nat
  {
    if Bits(d, p + 10, 1) == 0 then 0
    else if Bits(d, p + 4, 6) < PredSFBMax(sampRateIdx) then Bits(d, p + 4, 6) else PredSFBMax(sampRateIdx)
  }

  ghost predicate ShortHeader(d: seq<Byte>, p: nat, ics: ICSInfo, end: nat)
  {
    ics.maxSFB == Bits(d, p + 4, 4) && ics.sfGroup == Bits(d, p + 8, 7) && end == p + 15
  }

  ghost predicate LongHeader(d: seq<Byte>, p: nat, sampRateIdx: nat, ics: ICSInfo, end: nat)
  {
    && ics.maxSFB == Bits(d, p + 4, 6) && ics.winGroupLen == [1]
    && |ics.predictionUsed| == FlagCount(d, p, sampRateIdx)
    && (forall i :: 0 <= i < |ics.predictionUsed| ==> ics.predictionUsed[i] == Bits(d, FlagsStart(d, p) + i, 1))
    && end == FlagsStart(d, p) + |ics.predictionUsed|
  }

  /** Prediction flags are bounded by a table with an entry for every sampling rate. */
  ghost predicate InPredictionTable(d: seq<Byte>, p: nat, sampRateIdx: nat)
  {
    Bits(d, p + 1, 2) == 2 || Bits(d, p + 10, 1) == 0 || sampRateIdx < NUM_SAMPLE_RATES
  }

  /** DecodeICSInfo. Short blocks carry a 4-bit band count and the grouping mask, long blocks a
      6-bit band count and optional prediction flags, and are one group of one window. The bound of the
      flags is looked up inside its table if and only if there are none or the rate has an entry; where
      it is not, the parse is given up. */
  method DecodeICSInfo(bsi: BitReader, sampRateIdx: nat) returns (ics: ICSInfo, inTable: bool)
    requires bsi.Valid()
    modifies bsi
    ensures bsi.Valid() && bsi.View() == old(bsi.View())
    ensures inTable <==> InPredictionTable(bsi.View(), old(bsi.Pos()), sampRateIdx)
    ensures ics.icsResBit == Bits(bsi.View(), old(bsi.Pos()), 1)
    ensures ics.winSequence == Bits(bsi.View(), old(bsi.Pos()) + 1, 2)
    ensures ics.winShape == Bits(bsi.View(), old(bsi.Pos()) + 3, 1)
    ensures inTable ==>
      if ics.winSequence == 2 then ShortHeader(bsi.View(), old(bsi.Pos()), ics, bsi.Pos())
      else LongHeader(bsi.View(), old(bsi.Pos()), sampRateIdx, ics, bsi.Pos())
    ensures ics.winSequence == 2 ==> GroupedBy(ics.winGroupLen, ics.sfGroup)
  {
    hide GroupedBy, BitAt, Bits, CacheWord;
    ghost var d := bsi.View();
    var icsResBit := bsi.GetBits(1);
    var winSequence := bsi.GetBits(2);
    var winShape := bsi.GetBits(1);
    inTable := true;
    if winSequence == 2 {
      var maxSFB := bsi.GetBits(4);
      ghost var p := bsi.Pos();
      var sfGroup := bsi.GetBits(7);
      SevenBits(d, p);
      var winGroupLen := GroupWindows(sfGroup);
      ics := ICSInfo(icsResBit, winSequence, winShape, maxSFB, sfGroup, [], winGroupLen);
    } else {
      var maxSFB := bsi.GetBits(6);
      var used;
      used, inTable := PredictionFlags(bsi, sampRateIdx, maxSFB, d, old(bsi.Pos()));
      ics := ICSInfo(icsResBit, winSequence, winShape, maxSFB, 0, used, [1]);
    }
  }

  /** The prediction part of a long block's header. */
  method PredictionFlags(bsi: BitReader, sampRateIdx: nat, maxSFB: nat, ghost d: seq<Byte>, ghost p: nat)
    returns (used: seq<nat>, inTable: bool)
    requires bsi.Valid() && bsi.View() == d && bsi.Pos() == p + 10 && maxSFB == Bits(d, p + 4, 6)
    modifies bsi
    ensures bsi.Valid() && bsi.View() == d
    ensures inTable <==> Bits(d, p + 10, 1) == 0 || sampRateIdx < NUM_SAMPLE_RATES
    ensures inTable ==> |used| == FlagCount(d, p, sampRateIdx) && bsi.Pos() == FlagsStart(d, p) + |used|
    ensures inTable ==> forall i :: 0 <= i < |used| ==> used[i] == Bits(d, FlagsStart(d, p) + i, 1)
  {
    hide BitAt, Bits, CacheWord;
    used, inTable := [], true;
    var predictorDataPresent := bsi.GetBits(1);
    if predictorDataPresent != 0 {
      var predictorReset := bsi.GetBits(1);
      if predictorReset != 0 {
        var predictorResetGroupNum := bsi.GetBits(5);
      }
      if sampRateIdx >= NUM_SAMPLE_RATES { return [], false; }
      var count := if maxSFB < PredSFBMax(sampRateIdx) then maxSFB else PredSFBMax(sampRateIdx);
      ghost var q := bsi.Pos();
      while |used| < count
        invariant bsi.Valid() && bsi.View() == d && |used| <= count && bsi.Pos() == q + |used|
        invariant forall i :: 0 <= i < |used| ==> used[i] == Bits(d, q + i, 1)
      {
        var bit := bsi.GetBits(1);
        used := used + [bit];
      }
    }
  }

  lemma SevenBits(d: seq<Byte>, p: nat)
    ensures Bits(d, p, 7) < 128
  {
    UpEight(1);
  }

  // ---- section data ----

  function EscapeVal(lenBits: nat): nat { if lenBits == 3 then 7 else 31 }

  lemma EscapeInside(d: seq<Byte>, p: nat, lenBits: nat)
    requires Bits(d, p, lenBits) != 0
    ensures p < 8 * |d|
  {
    if p >= 8 * |d| { BitsPastEnd(d, p, lenBits); }
  }

  /** A section length: increments summed while they are the escape value. */
  function SectLen(d: seq<Byte>, p: nat, lenBits: nat): (r: (nat, nat))
    requires lenBits == 3 || lenBits == 5
    ensures r.1 >= p + lenBits
    decreases 8 * |d| + 8 - p
  {
    var incr := Bits(d, p, lenBits);
    if incr == EscapeVal(lenBits) then
      EscapeInside(d, p, lenBits);
      var r := SectLen(d, p + lenBits, lenBits);
      (incr + r.0, r.1)
    else (incr, p + lenBits)
  }

  function Repeat(cb: nat, n: nat): (r: seq<nat>)
    ensures |r| == n
  {
    if n == 0 then [] else [cb] + Repeat(cb, n - 1)
  }

  /** The codebooks of one group from band sfb on, and where its sections end. None when the
      buffer runs out first: the decoder then reads empty sections for ever. */
  function GroupSections(d: seq<Byte>, p: nat, lenBits: nat, maxSFB: nat, sfb: nat): Option<(seq<nat>, nat)>
    requires lenBits == 3 || lenBits == 5
    decreases 8 * |d| + 8 - p
  {
    if sfb >= maxSFB then Some(([], p))
    else if p >= 8 * |d| then None
    else
      var sect := SectLen(d, p + 4, lenBits);
      match GroupSections(d, sect.1, lenBits, maxSFB, sfb + sect.0)
      case None => None
      case Some(rest) => Some((Repeat(Bits(d, p, 4), sect.0) + rest.0, rest.1))
  }

  function AllSections(d: seq<Byte>, p: nat, lenBits: nat, maxSFB: nat, groups: nat): Option<(seq<nat>, nat)>
    requires lenBits == 3 || lenBits == 5
    decreases groups
  {
    if groups == 0 then Some(([], p))
    else match GroupSections(d, p, lenBits, maxSFB, 0)
      case None => None
      case Some(first) =>
        match AllSections(d, first.1, lenBits, maxSFB, groups - 1)
        case None => None
        case Some(rest) => Some((first.0 + rest.0, rest.1))
  }

  /** Past the end every section is empty: codebook 0, length 0, and the position stays past the
      end, so the loop over bands makes no progress. */
  lemma EmptySectionsPastEnd(d: seq<Byte>, p: nat, lenBits: nat)
    requires (lenBits == 3 || lenBits == 5) && p >= 8 * |d|
    ensures Bits(d, p, 4) == 0 && SectLen(d, p + 4, lenBits) == (0, p + 4 + lenBits)
  {
    BitsPastEnd(d, p, 4);
    BitsPastEnd(d, p + 4, lenBits);
  }

  /** The groups still open after n more sections of the nested loops, from band sfb of the first. */
  function GroupsLeft(d: seq<Byte>, p: nat, lenBits: nat, maxSFB: nat, groups: nat, sfb: nat, n: nat): nat
    requires lenBits == 3 || lenBits == 5
    decreases n, groups
  {
    if groups == 0 then 0
    else if sfb >= maxSFB then GroupsLeft(d, p, lenBits, maxSFB, groups - 1, 0, n)
    else if n == 0 then groups
    else
      var sect := SectLen(d, p + 4, lenBits);
      GroupsLeft(d, sect.1, lenBits, maxSFB, groups, sfb + sect.0, n - 1)
  }

  /** The rest of a group and the groups after it are parsed. */
  predicate RestParsed(d: seq<Byte>, p: nat, lenBits: nat, maxSFB: nat, groups: nat, sfb: nat)
    requires lenBits == 3 || lenBits == 5
  {
    groups == 0 || (
      var first := GroupSections(d, p, lenBits, maxSFB, sfb);
      first.Some? && AllSections(d, first.value.1, lenBits, maxSFB, groups - 1).Some?)
  }

  lemma RestStep(d: seq<Byte>, p: nat, lenBits: nat, maxSFB: nat, groups: nat, sfb: nat)
    requires (lenBits == 3 || lenBits == 5) && groups > 0
    ensures var sect := SectLen(d, p + 4, lenBits);
      RestParsed(d, p, lenBits, maxSFB, groups, sfb) <==>
        if sfb >= maxSFB then RestParsed(d, p, lenBits, maxSFB, groups - 1, 0)
        else p < 8 * |d| && RestParsed(d, sect.1, lenBits, maxSFB, groups, sfb + sect.0)
  {
    hide SectLen;
  }

  /** Past the end no group is ever completed. */
  lemma {:induction false} TruncatedNeverEnds(d: seq<Byte>, p: nat, lenBits: nat, maxSFB: nat, groups: nat, sfb: nat, n: nat)
    requires (lenBits == 3 || lenBits == 5) && p >= 8 * |d| && groups > 0 && sfb < maxSFB
    ensures GroupsLeft(d, p, lenBits, maxSFB, groups, sfb, n) == groups
    decreases n
  {
    if n > 0 {
      EmptySectionsPastEnd(d, p, lenBits);
      TruncatedNeverEnds(d, p + 4 + lenBits, lenBits, maxSFB, groups, sfb, n - 1);
    }
  }

  /** If the loops end at all the parse is defined, and n sections are enough to tell once the last of
      them cannot start before the end of the buffer. */
  lemma {:induction false} EndsWhenParsed(d: seq<Byte>, p: nat, lenBits: nat, maxSFB: nat, groups: nat, sfb: nat, n: nat)
    requires lenBits == 3 || lenBits == 5
    ensures GroupsLeft(d, p, lenBits, maxSFB, groups, sfb, n) == 0 ==> RestParsed(d, p, lenBits, maxSFB, groups, sfb)
    ensures p + n * (4 + lenBits) >= 8 * |d| && RestParsed(d, p, lenBits, maxSFB, groups, sfb) ==>
      GroupsLeft(d, p, lenBits, maxSFB, groups, sfb, n) == 0
    decreases n, groups
  {
    hide SectLen, RestParsed;
    if groups > 0 {
      RestStep(d, p, lenBits, maxSFB, groups, sfb);
      if sfb >= maxSFB {
        EndsWhenParsed(d, p, lenBits, maxSFB, groups - 1, 0, n);
      } else if p >= 8 * |d| {
        TruncatedNeverEnds(d, p, lenBits, maxSFB, groups, sfb, n);
      } else if n > 0 {
        var sect := SectLen(d, p + 4, lenBits);
        assert n * (4 + lenBits) == (n - 1) * (4 + lenBits) + (4 + lenBits);
        EndsWhenParsed(d, sect.1, lenBits, maxSFB, groups, sfb + sect.0, n - 1);
      }
    } else {
      NoneLeft(d, p, lenBits, maxSFB, sfb);
    }
  }

  lemma NoneLeft(d: seq<Byte>, p: nat, lenBits: nat, maxSFB: nat, sfb: nat)
    requires lenBits == 3 || lenBits == 5
    ensures RestParsed(d, p, lenBits, maxSFB, 0, sfb)
  {
  }

  /** The most sections that can start before the buffer's end: each takes 4 + lenBits bits or more. */
  function SectionsInside(d: seq<Byte>, p: nat, lenBits: nat): nat
    requires lenBits == 3 || lenBits == 5
  {
    if p >= 8 * |d| then 0 else (8 * |d| - p) / (4 + lenBits) + 1
  }

  /** The nested loops over groups and sections end exactly when they do within the sections that can
      start in the buffer, and then the parse is defined. Otherwise the original never leaves them. */
  lemma SectionLoopEnds(d: seq<Byte>, p: nat, lenBits: nat, maxSFB: nat, groups: nat)
    requires lenBits == 3 || lenBits == 5
    ensures AllSections(d, p, lenBits, maxSFB, groups).Some? <==>
      GroupsLeft(d, p, lenBits, maxSFB, groups, 0, SectionsInside(d, p, lenBits)) == 0
    ensures AllSections(d, p, lenBits, maxSFB, groups).None? <==>
      forall n: nat :: GroupsLeft(d, p, lenBits, maxSFB, groups, 0, n) > 0
  {
    hide GroupSections, GroupsLeft;
    var limit := SectionsInside(d, p, lenBits);
    assert RestParsed(d, p, lenBits, maxSFB, groups, 0) <==> AllSections(d, p, lenBits, maxSFB, groups).Some?;
    EnoughSections(d, p, lenBits);
    EndsWhenParsed(d, p, lenBits, maxSFB, groups, 0, limit);
    forall n: nat | GroupsLeft(d, p, lenBits, maxSFB, groups, 0, n) == 0 ensures AllSections(d, p, lenBits, maxSFB, groups).Some? {
      EndsWhenParsed(d, p, lenBits, maxSFB, groups, 0, n);
    }
  }

  lemma EnoughSections(d: seq<Byte>, p: nat, lenBits: nat)
    requires lenBits == 3 || lenBits == 5
    ensures p + SectionsInside(d, p, lenBits) * (4 + lenBits) >= 8 * |d|
  {
  }

  // ---- printing section data (table 4.4.25 of ISO/IEC 14496-3) ----

  datatype Section = Section(cb: nat, len: nat)

  function PrintLen(len: nat, lenBits: nat): seq<Bit>
  {
    if len < EscapeVal(lenBits) then ToBits(len, lenBits)
    else ToBits(EscapeVal(lenBits), lenBits) + PrintLen(len - EscapeVal(lenBits), lenBits)
  }

  function PrintSections(sects: seq<Section>, lenBits: nat): seq<Bit>
  {
    if sects == [] then []
    else ToBits(sects[0].cb, 4) + (PrintLen(sects[0].len, lenBits) + PrintSections(sects[1..], lenBits))
  }

  function Expand(sects: seq<Section>): seq<nat>
  {
    if sects == [] then [] else Repeat(sects[0].cb, sects[0].len) + Expand(sects[1..])
  }

  lemma {:induction false} ReadLen(d: seq<Byte>, p: nat, len: nat, lenBits: nat)
    requires (lenBits == 3 || lenBits == 5) && Matches(d, p, PrintLen(len, lenBits))
    ensures SectLen(d, p, lenBits) == (len, p + |PrintLen(len, lenBits)|)
    ensures len > 0 ==> p < 8 * |d|
    decreases len
  {
    hide Matches, Bits;
    var esc := EscapeVal(lenBits);
    assert Pow2(3) == 8 && Pow2(5) == 32;
    if len < esc {
      ReadNumber(d, p, len, lenBits);
      if len > 0 { EscapeInside(d, p, lenBits); }
    } else {
      MatchesAppend(d, p, ToBits(esc, lenBits), PrintLen(len - esc, lenBits));
      ReadNumber(d, p, esc, lenBits);
      EscapeInside(d, p, lenBits);
      ReadLen(d, p + lenBits, len - esc, lenBits);
    }
  }

  /** Non-empty sections covering bands sfb to maxSFB are read back as printed. */
  lemma {:induction false} ReadSections(d: seq<Byte>, p: nat, sects: seq<Section>, lenBits: nat, maxSFB: nat, sfb: nat)
    requires (lenBits == 3 || lenBits == 5) && sfb + |Expand(sects)| == maxSFB
    requires forall i :: 0 <= i < |sects| ==> sects[i].len >= 1 && sects[i].cb < 16
    requires Matches(d, p, PrintSections(sects, lenBits))
    ensures GroupSections(d, p, lenBits, maxSFB, sfb) == Some((Expand(sects), p + |PrintSections(sects, lenBits)|))
    decreases |sects|
  {
    hide Matches, Bits, SectLen;
    if sects != [] {
      var s, rest := sects[0], sects[1..];
      var len := PrintLen(s.len, lenBits);
      MatchesAppend(d, p, ToBits(s.cb, 4), len + PrintSections(rest, lenBits));
      MatchesAppend(d, p + 4, len, PrintSections(rest, lenBits));
      assert Pow2(4) == 16;
      ReadNumber(d, p, s.cb, 4);
      ReadLen(d, p + 4, s.len, lenBits);
      ReadSections(d, p + 4 + |len|, rest, lenBits, maxSFB, sfb + s.len);
    }
  }

  /** Length of the run at the front. */
  function RunLen(cbs: seq<nat>): (n: nat)
    requires cbs != []
    ensures 1 <= n <= |cbs| && forall i :: 0 <= i < n ==> cbs[i] == cbs[0]
  {
    if |cbs| == 1 || cbs[1] != cbs[0] then 1 else 1 + RunLen(cbs[1..])
  }

  /** The sections of a codebook assignment: its maximal runs. */
  function Runs(cbs: seq<nat>): (r: seq<Section>)
    ensures forall i :: 0 <= i < |r| ==> r[i].len >= 1 && r[i].cb in cbs
  {
    if cbs == [] then [] else [Section(cbs[0], RunLen(cbs))] + Runs(cbs[RunLen(cbs)..])
  }

  lemma {:induction false} RepeatAll(cb: nat, n: nat)
    ensures forall i :: 0 <= i < n ==> Repeat(cb, n)[i] == cb
  {
    if n > 0 { RepeatAll(cb, n - 1); }
  }

  lemma ExpandFirst(s: Section, rest: seq<Section>)
    ensures Expand([s] + rest) == Repeat(s.cb, s.len) + Expand(rest)
  {
    hide Repeat;
    assert ([s] + rest)[1..] == rest;
  }

  lemma ExpandNone()
    ensures Expand([]) == []
  {
  }

  lemma {:induction false} ExpandRuns(cbs: seq<nat>)
    ensures Expand(Runs(cbs)) == cbs
    decreases |cbs|
  {
    hide RunLen, Expand, Repeat;
    if cbs != [] {
      var n := RunLen(cbs);
      ExpandRuns(cbs[n..]);
      RepeatAll(cbs[0], n);
      assert Repeat(cbs[0], n) == cbs[..n];
      ExpandFirst(Section(cbs[0], n), Runs(cbs[n..]));
      assert cbs == cbs[..n] + cbs[n..];
    } else {
      ExpandNone();
    }
  }

  /** The printed codebooks of all groups. */
  function PrintBooks(groups: seq<seq<nat>>, lenBits: nat): seq<Bit>
  {
    if groups == [] then [] else PrintSections(Runs(groups[0]), lenBits) + PrintBooks(groups[1..], lenBits)
  }

  function Flatten(groups: seq<seq<nat>>): seq<nat>
  {
    if groups == [] then [] else groups[0] + Flatten(groups[1..])
  }

  ghost predicate Assignment(groups: seq<seq<nat>>, maxSFB: nat)
  {
    forall g :: 0 <= g < |groups| ==> |groups[g]| == maxSFB && forall i :: 0 <= i < maxSFB ==> groups[g][i] < 16
  }

  lemma {:induction false} FlattenSize(groups: seq<seq<nat>>, maxSFB: nat)
    requires Assignment(groups, maxSFB)
    ensures |Flatten(groups)| == |groups| * maxSFB
  {
    if groups != [] {
      FlattenSize(groups[1..], maxSFB);
      assert |groups| * maxSFB == (|groups| - 1) * maxSFB + maxSFB;
    }
  }

  lemma ReadOneGroup(d: seq<Byte>, p: nat, cbs: seq<nat>, lenBits: nat)
    requires (lenBits == 3 || lenBits == 5) && forall i :: 0 <= i < |cbs| ==> cbs[i] < 16
    requires Matches(d, p, PrintSections(Runs(cbs), lenBits))
    ensures GroupSections(d, p, lenBits, |cbs|, 0) == Some((cbs, p + |PrintSections(Runs(cbs), lenBits)|))
  {
    hide Matches, GroupSections, PrintSections, Runs, Expand;
    ExpandRuns(cbs);
    ReadSections(d, p, Runs(cbs), lenBits, |cbs|, 0);
  }

  /** Any codebook assignment over groups and bands is read back from its printed sections, with
      one entry for each group and band. */
  lemma {:induction false} ReadBooks(d: seq<Byte>, p: nat, groups: seq<seq<nat>>, lenBits: nat, maxSFB: nat)
    requires (lenBits == 3 || lenBits == 5) && Assignment(groups, maxSFB)
    requires Matches(d, p, PrintBooks(groups, lenBits))
    ensures AllSections(d, p, lenBits, maxSFB, |groups|) == Some((Flatten(groups), p + |PrintBooks(groups, lenBits)|))
    ensures |Flatten(groups)| == |groups| * maxSFB
    decreases |groups|
  {
    hide Matches, GroupSections, PrintSections, Runs;
    FlattenSize(groups, maxSFB);
    if groups != [] {
      var first := PrintSections(Runs(groups[0]), lenBits);
      MatchesAppend(d, p, first, PrintBooks(groups[1..], lenBits));
      ReadOneGroup(d, p, groups[0], lenBits);
      ReadBooks(d, p + |first|, groups[1..], lenBits, maxSFB);
    }
  }

  // ---- the section parser ----

  lemma SectLenStep(d: seq<Byte>, p: nat, lenBits: nat)
    requires lenBits == 3 || lenBits == 5
    ensures var incr, rest := Bits(d, p, lenBits), SectLen(d, p + lenBits, lenBits);
      SectLen(d, p, lenBits) == if incr == EscapeVal(lenBits) then (incr + rest.0, rest.1) else (incr, p + lenBits)
  {
    hide Bits;
  }

  /** The do-while loop over length increments. */
  method ReadSectLen(bsi: BitReader, sectLenBits: nat) returns (sectLen: nat)
    requires bsi.Valid() && (sectLenBits == 3 || sectLenBits == 5)
    modifies bsi
    ensures bsi.Valid() && bsi.View() == old(bsi.View())
    ensures (sectLen, bsi.Pos()) == SectLen(old(bsi.View()), old(bsi.Pos()), sectLenBits)
  {
    hide Bits, SectLen;
    var sectEscapeVal := EscapeVal(sectLenBits);
    ghost var d, p := bsi.View(), bsi.Pos();
    sectLen := 0;
    while true
      invariant bsi.Valid() && bsi.View() == d
      invariant SectLen(d, p, sectLenBits).0 == sectLen + SectLen(d, bsi.Pos(), sectLenBits).0
      invariant SectLen(d, p, sectLenBits).1 == SectLen(d, bsi.Pos(), sectLenBits).1
      decreases 8 * |d| + 8 - bsi.Pos()
    {
      ghost var q := bsi.Pos();
      SectLenStep(d, q, sectLenBits);
      var sectLenIncr := bsi.GetBits(sectLenBits);
      sectLen := sectLen + sectLenIncr;
      if sectLenIncr != sectEscapeVal { break; }
      EscapeInside(d, q, sectLenBits);
    }
  }

  /** Whether the section loops are left, and inside the array. */
  datatype Outcome = Done | Endless | Overrun

  /** A parse with something read before it. */
  function Behind(done: seq<nat>, rest: Option<(seq<nat>, nat)>): Option<(seq<nat>, nat)>
  {
    match rest case None => None case Some(r) => Some((done + r.0, r.1))
  }

  lemma GroupStep(d: seq<Byte>, p: nat, lenBits: nat, maxSFB: nat, sfb: nat, done: seq<nat>)
    requires lenBits == 3 || lenBits == 5
    ensures sfb >= maxSFB ==> Behind(done, GroupSections(d, p, lenBits, maxSFB, sfb)) == Some((done, p))
    ensures sfb < maxSFB && p >= 8 * |d| ==> GroupSections(d, p, lenBits, maxSFB, sfb) == None
    ensures sfb < maxSFB && p < 8 * |d| ==>
      (var sect := SectLen(d, p + 4, lenBits);
       Behind(done, GroupSections(d, p, lenBits, maxSFB, sfb))
         == Behind(done + Repeat(Bits(d, p, 4), sect.0), GroupSections(d, sect.1, lenBits, maxSFB, sfb + sect.0)))
  {
    hide Bits, SectLen, Repeat;
    if sfb < maxSFB && p < 8 * |d| {
      var sect := SectLen(d, p + 4, lenBits);
      var rest := GroupSections(d, sect.1, lenBits, maxSFB, sfb + sect.0);
      if rest.Some? { Regrouped(done, Repeat(Bits(d, p, 4), sect.0), rest.value.0); }
    } else if sfb >= maxSFB {
      assert done + [] == done;
    }
  }

  lemma Regrouped(done: seq<nat>, run: seq<nat>, rest: seq<nat>)
    ensures done + (run + rest) == (done + run) + rest
  {
  }

  /** The sections of one group, written from entry k on. The loop is given up where the original
      would never leave it, or would write past the array. */
  method ReadGroup(bsi: BitReader, sectLenBits: nat, maxSFB: nat, sfbCodeBook: array<nat>, k: nat) returns (k': nat, outcome: Outcome)
    requires bsi.Valid() && (sectLenBits == 3 || sectLenBits == 5) && k <= sfbCodeBook.Length
    modifies bsi, sfbCodeBook
    ensures bsi.Valid() && bsi.View() == old(bsi.View())
    ensures var r := old(GroupSections(bsi.View(), bsi.Pos(), sectLenBits, maxSFB, 0));
      && (outcome == Done <==> r.Some? && k + |r.value.0| <= sfbCodeBook.Length)
      && (outcome == Endless ==> r == None)
      && (outcome == Done ==> bsi.Pos() == r.value.1 && k' == k + |r.value.0| && sfbCodeBook[..k'] == old(sfbCodeBook[..k]) + r.value.0)
    ensures outcome == Done ==> k' <= sfbCodeBook.Length && sfbCodeBook[k'..] == old(sfbCodeBook[..])[k'..]
  {
    hide Bits, SectLen, GroupSections, Repeat, CacheWord;
    ghost var d := bsi.View();
    ghost var total := GroupSections(d, bsi.Pos(), sectLenBits, maxSFB, 0);
    ghost var before, done := sfbCodeBook[..], [];
    assert Behind([], total) == total by { BehindNothing(total); }
    var sfb := 0;
    k' := k;
    while sfb < maxSFB
      invariant bsi.Valid() && bsi.View() == d && sfb >= 0
      invariant k' == k + |done| <= sfbCodeBook.Length && sfbCodeBook[..k'] == before[..k] + done
      invariant Behind(done, GroupSections(d, bsi.Pos(), sectLenBits, maxSFB, sfb)) == total
      invariant sfbCodeBook[k'..] == before[k'..]
      decreases 8 * |d| + 8 - bsi.Pos()
    {
      GroupStep(d, bsi.Pos(), sectLenBits, maxSFB, sfb, done);
      if bsi.AtEnd() { return k', Endless; }
      ghost var was := done;
      var cb := bsi.GetBits(4);
      var sectLen := ReadSectLen(bsi, sectLenBits);
      sfb := sfb + sectLen;
      done := done + Repeat(cb, sectLen);
      if k' + sectLen > sfbCodeBook.Length { return k', Overrun; }
      k' := WriteRun(sfbCodeBook, k', cb, sectLen);
      assert sfbCodeBook[..k'] == before[..k] + done by { Regrouped(before[..k], was, Repeat(cb, sectLen)); }
    }
    GroupStep(d, bsi.Pos(), sectLenBits, maxSFB, sfb, done);
    outcome := Done;
  }

  lemma BehindNothing(r: Option<(seq<nat>, nat)>)
    ensures Behind([], r) == r
  {
    if r.Some? { assert [] + r.value.0 == r.value.0; }
  }

  /** One section's codebook, written for each of its bands. */
  method WriteRun(sfbCodeBook: array<nat>, k: nat, cb: nat, sectLen: nat) returns (k': nat)
    requires k + sectLen <= sfbCodeBook.Length
    modifies sfbCodeBook
    ensures k' == k + sectLen
    ensures sfbCodeBook[..k'] == old(sfbCodeBook[..k]) + Repeat(cb, sectLen)
    ensures sfbCodeBook[k'..] == old(sfbCodeBook[..])[k'..]
  {
    var n := sectLen;
    k' := k;
    while n > 0
      invariant 0 <= n <= sectLen && k' + n == k + sectLen
      invariant forall i :: 0 <= i < sfbCodeBook.Length ==> sfbCodeBook[i] == if k <= i < k' then cb else old(sfbCodeBook[i])
    {
      sfbCodeBook[k'] := cb;
      k' := k' + 1;
      n := n - 1;
    }
    RepeatAll(cb, sectLen);
    assert sfbCodeBook[..k'] == old(sfbCodeBook[..k]) + Repeat(cb, sectLen);
  }

  lemma AllStep(d: seq<Byte>, p: nat, lenBits: nat, maxSFB: nat, groups: nat, done: seq<nat>)
    requires lenBits == 3 || lenBits == 5
    ensures groups == 0 ==> Behind(done, AllSections(d, p, lenBits, maxSFB, groups)) == Some((done, p))
    ensures groups > 0 ==>
      (var first := GroupSections(d, p, lenBits, maxSFB, 0);
       Behind(done, AllSections(d, p, lenBits, maxSFB, groups))
         == if first.None? then None else Behind(done + first.value.0, AllSections(d, first.value.1, lenBits, maxSFB, groups - 1)))
  {
    hide GroupSections;
    if groups > 0 {
      var first := GroupSections(d, p, lenBits, maxSFB, 0);
      if first.Some? {
        var rest := AllSections(d, first.value.1, lenBits, maxSFB, groups - 1);
        if rest.Some? { Regrouped(done, first.value.0, rest.value.0); }
      }
    } else {
      assert done + [] == done;
    }
  }

  /** DecodeSectionData, on any stream: the loops are left inside the array exactly when the parse is
      defined and its entries fit, and then these are what is stored. */
  method DecodeSectionData(bsi: BitReader, winSequence: nat, numWinGrp: nat, maxSFB: nat, sfbCodeBook: array<nat>) returns (outcome: Outcome)
    requires bsi.Valid()
    modifies bsi, sfbCodeBook
    ensures bsi.Valid() && bsi.View() == old(bsi.View())
    ensures var r := old(AllSections(bsi.View(), bsi.Pos(), if winSequence == 2 then 3 else 5, maxSFB, numWinGrp));
      && (outcome == Done <==> r.Some? && |r.value.0| <= sfbCodeBook.Length)
      && (outcome == Endless ==> r == None)
      && (outcome == Done ==> bsi.Pos() == r.value.1 && sfbCodeBook[..] == r.value.0 + old(sfbCodeBook[..])[|r.value.0|..])
  {
    hide Bits, GroupSections, AllSections;
    var sectLenBits := if winSequence == 2 then 3 else 5;
    ghost var d := bsi.View();
    ghost var total := AllSections(d, bsi.Pos(), sectLenBits, maxSFB, numWinGrp);
    ghost var before, done := sfbCodeBook[..], [];
    BehindNothing(total);
    var g, k := 0, 0;
    while g < numWinGrp
      invariant bsi.Valid() && bsi.View() == d && 0 <= g <= numWinGrp
      invariant k == |done| <= sfbCodeBook.Length && sfbCodeBook[..k] == done
      invariant Behind(done, AllSections(d, bsi.Pos(), sectLenBits, maxSFB, numWinGrp - g)) == total
      invariant sfbCodeBook[k..] == before[k..]
    {
      AllStep(d, bsi.Pos(), sectLenBits, maxSFB, numWinGrp - g, done);
      ghost var first := GroupSections(d, bsi.Pos(), sectLenBits, maxSFB, 0);
      k, outcome := ReadGroup(bsi, sectLenBits, maxSFB, sfbCodeBook, k);
      if outcome != Done { return; }
      done := done + first.value.0;
      g := g + 1;
    }
    AllStep(d, bsi.Pos(), sectLenBits, maxSFB, 0, done);
    assert sfbCodeBook[..] == sfbCodeBook[..k] + sfbCodeBook[k..];
    outcome := Done;
  }

  // ---- scalefactors (subclause 4.6.2 of ISO/IEC 14496-3) ----

  /** The short the original stores. */
  function ToShort(x: int): int { (x + 0x8000) % 0x1_0000 - 0x8000 }

  predicate IsShort(x: int) { -0x8000 <= x < 0x8000 }

  /** The three running values and whether the next noise energy is the first. */
  datatype Chains = Chains(sf: int, ist: int, nrg: int, npf: bool)

  datatype Kind = Regular | Intensity | Noise | Inactive

  function KindOf(cb: nat): Kind
  {
    if cb == 14 || cb == 15 then Intensity else if cb == 13 then Noise
    else if 1 <= cb <= 11 then Regular else Inactive
  }

  /** The value entry `target` is coded against. */
  function Predicted(st: Chains, cb: nat): int
  {
    match KindOf(cb) case Regular => st.sf case Intensity => st.ist case Noise => st.nrg case Inactive => 0
  }

  function Advance(st: Chains, cb: nat, value: int): Chains
  {
    match KindOf(cb)
    case Regular => st.(sf := value)
    case Intensity => st.(ist := value)
    case Noise => st.(nrg := value, npf := false)
    case Inactive => st
  }

  /** A scalefactor can be coded: its difference is in range, the first noise energy in 9 bits. */
  predicate Codable(st: Chains, cb: nat, value: int)
  {
    var diff := value - Predicted(st, cb);
    && IsShort(value)
    && match KindOf(cb)
       case Inactive => value == 0
       case Noise => if st.npf then 0 <= diff < 512 else -60 <= diff <= 60
       case _ => -60 <= diff <= 60
  }

  function DiffSymbol(diff: int): (s: nat)
    requires -60 <= diff <= 60
    ensures s < 121 && TabSf(s) == diff
  {
    hide TabSf, SymSf;
    CoverSf(diff);
    SymSf((diff + 60) / 11, (diff + 60) % 11)
  }

  function PrintDiff(diff: int): seq<Bit>
    requires -60 <= diff <= 60
  {
    ScaleFactInfoValid();
    Codeword(ScaleFactInfo(), DiffSymbol(diff))
  }

  function PrintOne(st: Chains, cb: nat, value: int): seq<Bit>
    requires Codable(st, cb, value)
  {
    var diff := value - Predicted(st, cb);
    if KindOf(cb) == Inactive then []
    else if KindOf(cb) == Noise && st.npf then ToBits(diff, 9)
    else PrintDiff(diff)
  }

  /** Every value from entry e on can be coded. */
  predicate AllCodable(st: Chains, books: seq<nat>, values: seq<int>, e: nat)
    requires |books| == |values|
    decreases |books| - e
  {
    e >= |books| || (Codable(st, books[e], values[e]) && AllCodable(Advance(st, books[e], values[e]), books, values, e + 1))
  }

  function PrintScaleFactors(st: Chains, books: seq<nat>, values: seq<int>, e: nat): seq<Bit>
    requires |books| == |values| && AllCodable(st, books, values, e)
    decreases |books| - e
  {
    if e >= |books| then []
    else PrintOne(st, books[e], values[e]) + PrintScaleFactors(Advance(st, books[e], values[e]), books, values, e + 1)
  }

  lemma SfTableEntry(s: nat)
    requires s < 121
    ensures |HuffTabScaleFact()| == 121 && HuffTabScaleFact()[s] == TabSf(s)
  {
    hide TabSf;
  }

  method DecodeOneScaleFactor(bsi: BitReader, ghost ok: bool, ghost diff: int) returns (val: int)
    requires bsi.Valid()
    requires ok ==> -60 <= diff <= 60 && Matches(bsi.View(), bsi.Pos(), PrintDiff(diff))
    modifies bsi
    ensures bsi.Valid() && bsi.View() == old(bsi.View())
    ensures ok ==> val == diff && bsi.Pos() == old(bsi.Pos()) + |PrintDiff(diff)|
  {
    hide Matches, CacheWord, Bits, Codeword, StartsWith, ValidInfo, HuffTabScaleFact, TabSf;
    var info := ScaleFactInfo();
    ScaleFactInfoValid();
    ghost var d, p := bsi.View(), bsi.Pos();
    var peek := bsi.GetBitsNoAdvance(info.maxBits);
    PeekWord(d, p, info.maxBits);
    var bitBuf := Shl32(peek, 32 - info.maxBits);
    SfTableEntry(0);
    ghost var s;
    var nBits;
    nBits, val, s := DecodeHuffmanScalar(HuffTabScaleFact(), info, bitBuf);
    if ok {
      CodewordFound(d, p, info.maxBits, info, 121, DiffSymbol(diff), nBits, s);
      SfTableEntry(s);
    }
    bsi.AdvanceBitstream(nBits);
  }

  /** One entry of DecodeScaleFactors: the stored short and the chains after it. */
  method DecodeEntry(bsi: BitReader, sfbCB: nat, st: Chains, ghost ok: bool, ghost value: int) returns (r: int, st': Chains)
    requires bsi.Valid()
    requires ok ==> Codable(st, sfbCB, value) && Matches(bsi.View(), bsi.Pos(), PrintOne(st, sfbCB, value))
    modifies bsi
    ensures bsi.Valid() && bsi.View() == old(bsi.View())
    ensures ok ==> r == value && st' == Advance(st, sfbCB, value)
                   && bsi.Pos() == old(bsi.Pos()) + |PrintOne(st, sfbCB, value)|
  {
    hide Matches, Bits, PrintDiff;
    ghost var diff := if ok then value - Predicted(st, sfbCB) else 0;
    var val;
    if sfbCB == 14 || sfbCB == 15 {
      val := DecodeOneScaleFactor(bsi, ok, diff);
      st' := st.(ist := st.ist + val);
      r := ToShort(st'.ist);
    } else if sfbCB == 13 {
      if st.npf {
        if ok { NineBits(bsi.View(), bsi.Pos(), diff); }
        val := bsi.GetBits(9);
        st' := st.(npf := false);
      } else {
        val := DecodeOneScaleFactor(bsi, ok, diff);
        st' := st;
      }
      st' := st'.(nrg := st'.nrg + val);
      r := ToShort(st'.nrg);
    } else if 1 <= sfbCB <= 11 {
      val := DecodeOneScaleFactor(bsi, ok, diff);
      st' := st.(sf := st.sf + val);
      r := ToShort(st'.sf);
    } else {
      st' := st;
      r := 0;
    }
  }

  lemma NineBits(d: seq<Byte>, p: nat, v: int)
    requires 0 <= v < 512 && Matches(d, p, ToBits(v, 9))
    ensures Bits(d, p, 9) == v
  {
    hide Matches, Bits;
    UpEight(1);
    assert Pow2(9) == 512;
    ReadNumber(d, p, v, 9);
  }

  /** DecodeScaleFactors. From the printed differences of any codable values, in three interleaved
      chains, exactly those values are stored, and exactly the printed bits consumed. */
  method DecodeScaleFactors(bsi: BitReader, numWinGrp: nat, maxSFB: nat, globalGain: int,
                            sfbCodeBook: seq<nat>, scaleFactors: array<int>, ghost values: seq<int>)
    requires bsi.Valid() && |sfbCodeBook| == numWinGrp * maxSFB == |values| && |values| <= scaleFactors.Length
    modifies bsi, scaleFactors
    ensures bsi.Valid() && bsi.View() == old(bsi.View())
    ensures scaleFactors[|values|..] == old(scaleFactors[..])[|values|..]
    ensures var st := Chains(globalGain, 0, globalGain - 90 - 256, true);
      AllCodable(st, sfbCodeBook, values, 0)
      && Matches(old(bsi.View()), old(bsi.Pos()), PrintScaleFactors(st, sfbCodeBook, values, 0)) ==>
        scaleFactors[..|values|] == values
        && bsi.Pos() == old(bsi.Pos()) + |PrintScaleFactors(st, sfbCodeBook, values, 0)|
  {
    hide Matches, PrintOne, Codable, Advance, CacheWord;
    var st := Chains(globalGain, 0, globalGain - 90 - 256, true);
    ghost var d, p, st0 := bsi.View(), bsi.Pos(), st;
    ghost var ok := AllCodable(st, sfbCodeBook, values, 0) && Matches(d, p, PrintScaleFactors(st, sfbCodeBook, values, 0));
    var g := 0;
    while g < numWinGrp * maxSFB
      invariant bsi.Valid() && bsi.View() == d && 0 <= g <= |values|
      invariant scaleFactors[|values|..] == old(scaleFactors[..])[|values|..]
      invariant ok ==> AllCodable(st, sfbCodeBook, values, g)
      invariant ok ==> Matches(d, bsi.Pos(), PrintScaleFactors(st, sfbCodeBook, values, g))
      invariant ok ==> bsi.Pos() + |PrintScaleFactors(st, sfbCodeBook, values, g)| == p + |PrintScaleFactors(st0, sfbCodeBook, values, 0)|
      invariant ok ==> scaleFactors[..g] == values[..g]
    {
      var sfbCB := sfbCodeBook[g];
      if ok {
        MatchesAppend(d, bsi.Pos(), PrintOne(st, sfbCB, values[g]),
                      PrintScaleFactors(Advance(st, sfbCB, values[g]), sfbCodeBook, values, g + 1));
      }
      var r;
      r, st := DecodeEntry(bsi, sfbCB, st, ok, values[g]);
      scaleFactors[g] := r;
      g := g + 1;
    }
  }
}
