/** codec/aacdecode/noiseless.c, DecodePulseInfo, and the pulses that codec/aacdecode/huffman.c adds to the
    coefficients of a long block; the printed form is that of table 4.4.7 of ISO/IEC 14496-3. */
module PulseData {
  import opened Fixed
  import opened Bitstream
  import opened Printing

  const MAX_PULSES := 4

  /** A pulse's distance from the one before it, and its size. */
  datatype Pulse = Pulse(offset: nat, amp: nat)
  {
    predicate Legal() { offset < 32 && amp < 16 }

    function Print(): seq<Bit> { ToBits(offset, 5) + ToBits(amp, 4) }
  }

  datatype PulseInfo = NoPulses | Pulses(startSFB: nat, pulses: seq<Pulse>)
  {
    predicate Legal()
    {
      Pulses? ==> startSFB < 64 && 1 <= |pulses| <= MAX_PULSES && forall i :: 0 <= i < |pulses| ==> pulses[i].Legal()
    }

    /** The flag and, behind it, the pulses. */
    function Print(): seq<Bit>
      requires Legal()
    {
      if NoPulses? then [0] else [1] + (ToBits(|pulses| - 1, 2) + (ToBits(startSFB, 6) + PrintPulses(pulses, 0)))
    }

    /** Every pulse lands on a coefficient. */
    predicate Fits(tab: seq<nat>)
    {
      Pulses? ==> startSFB < |tab| && tab[startSFB] + Offsets(pulses, |pulses|) < 1024
    }

    /** The coefficients with the pulses on them. */
    function Applied(cs: seq<int>, tab: seq<nat>): (s: seq<int>)
      requires Fits(tab)
      ensures |s| == |cs|
    {
      if NoPulses? then cs
      else seq(|cs|, c requires 0 <= c < |cs| => Raised(cs[c], Amount(tab[startSFB], pulses, |pulses|, c)))
    }
  }

  function PrintPulses(ps: seq<Pulse>, k: nat): seq<Bit>
    decreases |ps| - k
  {
    if k >= |ps| then [] else ps[k].Print() + PrintPulses(ps, k + 1)
  }

  // ---- what the pulses do ----

  /** The sum of the first k offsets. */
  function Offsets(ps: seq<Pulse>, k: nat): nat
    requires k <= |ps|
  {
    if k == 0 then 0 else Offsets(ps, k - 1) + ps[k - 1].offset
  }

  /** What the first k pulses together put on coefficient c. */
  function Amount(start: nat, ps: seq<Pulse>, k: nat, c: int): nat
    requires k <= |ps|
  {
    if k == 0 then 0 else Amount(start, ps, k - 1, c) + if start + Offsets(ps, k) == c then ps[k - 1].amp else 0
  }

  /** A coefficient moved away from zero; zero moves down. */
  function Raised(v: int, amount: nat): int { if v > 0 then v + amount else v - amount }

  /** Pulses keep signs, zero counting as negative, and add their sizes. */
  lemma RaisedSize(v: int, amount: nat)
    ensures Abs(Raised(v, amount)) == Abs(v) + amount
    ensures Raised(v, amount) > 0 <==> v > 0
  {
  }

  lemma {:induction false} OffsetsGrow(ps: seq<Pulse>, a: nat, b: nat)
    requires a <= b <= |ps|
    ensures Offsets(ps, a) <= Offsets(ps, b)
  {
    if a < b { OffsetsGrow(ps, a, b - 1); }
  }

  lemma {:induction false} AmountBound(start: nat, ps: seq<Pulse>, k: nat, c: int)
    requires k <= |ps| && forall i :: 0 <= i < |ps| ==> ps[i].Legal()
    ensures Amount(start, ps, k, c) <= 15 * k
  {
    if k > 0 { AmountBound(start, ps, k - 1, c); }
  }

  /** No coefficient is raised by more than four times fifteen. */
  lemma AppliedSize(x: PulseInfo, cs: seq<int>, tab: seq<nat>, c: nat)
    requires x.Legal() && x.Fits(tab) && c < |cs|
    ensures Abs(cs[c]) <= Abs(x.Applied(cs, tab)[c]) <= Abs(cs[c]) + 60
  {
    if x.Pulses? {
      AmountBound(tab[x.startSFB], x.pulses, |x.pulses|, c);
      RaisedSize(cs[c], Amount(tab[x.startSFB], x.pulses, |x.pulses|, c));
    }
  }

  /** The pulses of DecodeSpectrumLong. All of them land on coefficients if and only if the last one does;
      it is given up at the first that does not. */
  method AddPulses(coef: array<int>, tab: seq<nat>, pi: PulseInfo) returns (inside: bool)
    requires coef.Length == 1024
    modifies coef
    ensures inside <==> pi.Fits(tab)
    ensures inside ==> coef[..] == pi.Applied(old(coef[..]), tab)
  {
    if pi.NoPulses? { return true; }
    if pi.startSFB >= |tab| { return false; }
    ghost var start, was := tab[pi.startSFB], coef[..];
    var offset, i := tab[pi.startSFB], 0;
    while i < |pi.pulses|
      invariant 0 <= i <= |pi.pulses| && offset == start + Offsets(pi.pulses, i) && (i > 0 ==> offset < 1024)
      invariant forall c :: 0 <= c < 1024 ==> coef[c] == Raised(was[c], Amount(start, pi.pulses, i, c))
    {
      offset := offset + pi.pulses[i].offset;
      OffsetsGrow(pi.pulses, i + 1, |pi.pulses|);
      if offset >= 1024 { return false; }
      if coef[offset] > 0 {
        coef[offset] := coef[offset] + pi.pulses[i].amp;
      } else {
        coef[offset] := coef[offset] - pi.pulses[i].amp;
      }
      i := i + 1;
    }
    inside := offset < 1024;
  }

  // ---- reading them ----

  lemma FieldPowers()
    ensures Pow2(2) == 4 && Pow2(4) == 16 && Pow2(5) == 32 && Pow2(6) == 64
  {
  }

  lemma CountRead(d: seq<Byte>, p: nat, x: PulseInfo)
    requires x.Legal() && x.Pulses? && Matches(d, p, x.Print())
    ensures Bits(d, p, 1) == 1 && Bits(d, p + 1, 2) == |x.pulses| - 1 && Bits(d, p + 3, 6) == x.startSFB
    ensures Matches(d, p + 9, PrintPulses(x.pulses, 0)) && |x.Print()| == 9 + |PrintPulses(x.pulses, 0)|
  {
    hide Bits, Matches, ToBits, PrintPulses;
    var rest := PrintPulses(x.pulses, 0);
    FieldPowers();
    MatchesAppend(d, p, [1], ToBits(|x.pulses| - 1, 2) + (ToBits(x.startSFB, 6) + rest));
    MatchesAppend(d, p + 1, ToBits(|x.pulses| - 1, 2), ToBits(x.startSFB, 6) + rest);
    MatchesAppend(d, p + 3, ToBits(x.startSFB, 6), rest);
    ReadBit(d, p, 1);
    ReadNumber(d, p + 1, |x.pulses| - 1, 2);
    ReadNumber(d, p + 3, x.startSFB, 6);
  }

  lemma PulseRead(d: seq<Byte>, p: nat, ps: seq<Pulse>, k: nat)
    requires k < |ps| && ps[k].Legal() && Matches(d, p, PrintPulses(ps, k))
    ensures Bits(d, p, 5) == ps[k].offset && Bits(d, p + 5, 4) == ps[k].amp
    ensures Matches(d, p + 9, PrintPulses(ps, k + 1)) && |PrintPulses(ps, k)| == 9 + |PrintPulses(ps, k + 1)|
  {
    hide Bits, Matches, ToBits;
    FieldPowers();
    MatchesAppend(d, p, ps[k].Print(), PrintPulses(ps, k + 1));
    MatchesAppend(d, p, ToBits(ps[k].offset, 5), ToBits(ps[k].amp, 4));
    ReadNumber(d, p, ps[k].offset, 5);
    ReadNumber(d, p + 5, ps[k].amp, 4);
  }

  lemma NoneLeft(ps: seq<Pulse>)
    ensures PrintPulses(ps, |ps|) == []
  {
  }

  lemma FlagClear(d: seq<Byte>, p: nat, x: PulseInfo)
    requires x.NoPulses? && Matches(d, p, x.Print())
    ensures Bits(d, p, 1) == 0 && |x.Print()| == 1
  {
    hide Bits, Matches;
    ReadBit(d, p, 0);
  }

  lemma FieldsFit(d: seq<Byte>, p: nat)
    ensures Bits(d, p, 2) < 4 && Bits(d, p + 2, 6) < 64
  {
    hide Bits;
    FieldPowers();
  }

  lemma PulseFits(d: seq<Byte>, p: nat)
    ensures Bits(d, p, 5) < 32 && Bits(d, p + 5, 4) < 16
  {
    hide Bits;
    FieldPowers();
  }

  /** Pulses from the k-th on stand at the reader. */
  ghost predicate PulsesAt(d: seq<Byte>, p: nat, ps: seq<Pulse>, k: nat)
  {
    k <= |ps| && (forall i :: 0 <= i < |ps| ==> ps[i].Legal()) && Matches(d, p, PrintPulses(ps, k))
  }

  method ReadPulse(bsi: BitReader, ghost ps: seq<Pulse>, ghost k: nat, ghost ok: bool) returns (pulse: Pulse)
    requires bsi.Valid() && (ok ==> k < |ps| && PulsesAt(bsi.View(), bsi.Pos(), ps, k))
    modifies bsi
    ensures bsi.Valid() && bsi.View() == old(bsi.View()) && pulse.Legal()
    ensures ok ==> pulse == ps[k] && PulsesAt(bsi.View(), bsi.Pos(), ps, k + 1)
    ensures ok ==> bsi.Pos() + |PrintPulses(ps, k + 1)| == old(bsi.Pos()) + |PrintPulses(ps, k)|
  {
    hide Bits, Matches, PrintPulses, CacheWord;
    if ok { PulseRead(bsi.View(), bsi.Pos(), ps, k); }
    PulseFits(bsi.View(), bsi.Pos());
    var offset := bsi.GetBits(5);
    var amp := bsi.GetBits(4);
    pulse := Pulse(offset, amp);
  }

  lemma Joined(ps: seq<Pulse>, k: nat)
    requires k < |ps|
    ensures ps[..k + 1] == ps[..k] + [ps[k]]
  {
  }

  /** DecodePulseInfo: any printed pulses are read back at exactly their length, and what is read from any
      stream fits its fields. */
  method DecodePulseInfo(bsi: BitReader, ghost x: PulseInfo, ghost ok: bool) returns (pi: PulseInfo)
    requires bsi.Valid()
    requires ok ==> x.Legal() && x.Pulses? && PulsesAt(bsi.View(), bsi.Pos() + 8, x.pulses, 0)
    requires ok ==> Bits(bsi.View(), bsi.Pos(), 2) == |x.pulses| - 1 && Bits(bsi.View(), bsi.Pos() + 2, 6) == x.startSFB
    modifies bsi
    ensures bsi.Valid() && bsi.View() == old(bsi.View()) && pi.Legal()
    ensures ok ==> pi == x && bsi.Pos() == old(bsi.Pos()) + 8 + |PrintPulses(x.pulses, 0)|
  {
    hide Bits, PulsesAt, PrintPulses, CacheWord, Pulse.Legal;
    FieldsFit(bsi.View(), bsi.Pos());
    var numPulse := bsi.GetBits(2);
    numPulse := numPulse + 1;
    var startSFB := bsi.GetBits(6);
    ghost var p := bsi.Pos();
    var pulses: seq<Pulse> := [];
    while |pulses| < numPulse
      invariant |pulses| <= numPulse && bsi.Valid() && bsi.View() == old(bsi.View())
      invariant forall i :: 0 <= i < |pulses| ==> pulses[i].Legal()
      invariant ok ==> pulses == x.pulses[..|pulses|] && PulsesAt(bsi.View(), bsi.Pos(), x.pulses, |pulses|)
      invariant ok ==> bsi.Pos() + |PrintPulses(x.pulses, |pulses|)| == p + |PrintPulses(x.pulses, 0)|
    {
      if ok { Joined(x.pulses, |pulses|); }
      var pulse := ReadPulse(bsi, if ok then x.pulses else [], |pulses|, ok);
      pulses := pulses + [pulse];
    }
    if ok { NoneLeft(x.pulses); }
    pi := Pulses(startSFB, pulses);
  }

  /** The flag, and the pulses if there are any. */
  method ReadPulses(bsi: BitReader, ghost x: PulseInfo) returns (pi: PulseInfo)
    requires bsi.Valid()
    modifies bsi
    ensures bsi.Valid() && bsi.View() == old(bsi.View()) && pi.Legal()
    ensures x.Legal() && Matches(old(bsi.View()), old(bsi.Pos()), x.Print()) ==> pi == x && bsi.Pos() == old(bsi.Pos()) + |x.Print()|
  {
    hide Bits, Matches, PulseInfo.Print, PrintPulses, CacheWord;
    ghost var d, p := bsi.View(), bsi.Pos();
    ghost var ok := x.Legal() && Matches(d, p, x.Print());
    if ok { if x.NoPulses? { FlagClear(d, p, x); } else { CountRead(d, p, x); } }
    var present := bsi.GetBits(1);
    if present == 1 {
      pi := DecodePulseInfo(bsi, x, ok);
    } else {
      pi := NoPulses;
    }
  }
}
