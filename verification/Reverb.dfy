/** codec/aacdecode/reverb.c: comb and all-pass filters whose past inputs and outputs live in
    circular buffers, one frame at a time, against the infinite recurrences they implement. */
module Reverb {
  import opened Fixed

  const TWO28 := 0x1000_0000    // 1 << REVERB_PRECISION
  const TWO60 := 0x1000_0000_0000_0000
  const AAC_MAX_NSAMPS := 1024
  const MAX_DELAY_FRAMES := 4
  const DECBUFSIZE := 5120

  /** A 32-bit word after wrap-around. */
  function Wrap32(v: int): int { (v + 0x8000_0000) % TWO32 - 0x8000_0000 }

  function MUL(x: int, coef: int): int { Wrap32((x * coef) / TWO28) }
  function MSUBSHIFT(x1: int, y1: int, x2: int, y2: int): int { Wrap32((x1 * y1 - x2 * y2) / TWO28) }

  datatype Kind = Comb | AllPass

  /** One output: xm and ym are the input and output m samples ago, xn is the input now. */
  function Step(kind: Kind, g: int, xm: int, ym: int, xn: int): int
  {
    match kind
    case Comb => Wrap32(xm + MUL(g, ym))
    case AllPass => Wrap32(xm + MSUBSHIFT(ym, g, xn, g))
  }

  /** A signal: a sample for every time, silent before time 0. */
  type Signal = int -> int

  ghost predicate Starts(x: Signal)
  {
    forall t :: t < 0 ==> x(t) == 0
  }

  /** How far back the feedback of a delay of m is: with no delay the slot still holds what was put out
      one whole buffer ago. */
  function Back(m: nat, size: nat): nat { if m == 0 then size else m }

  /** The recurrence, from silence, of a filter on buffers of the given size. */
  function Response(kind: Kind, g: int, m: nat, size: nat, x: Signal, t: int): int
    requires size >= 1
    decreases if t < 0 then 0 else t + 1
  {
    if t < 0 then 0 else Step(kind, g, x(t - m), Response(kind, g, m, size, x, t - Back(m, size)), x(t))
  }

  // ---- circular buffers ----

  /** The slot of the sample d after the one at bufidx; d may be negative. */
  function Slot(size: nat, bufidx: nat, d: int): int { if bufidx + d >= 0 then bufidx + d else bufidx + d + size }

  /** A buffer holds a signal from all but a frame's worth of its size back up to d = upto. */
  ghost predicate Holds(buf: seq<int>, frame: nat, bufidx: nat, x: Signal, now: int, upto: int)
  {
    && frame <= |buf| && bufidx + frame <= |buf| && upto <= frame
    && forall d {:trigger Slot(|buf|, bufidx, d)} :: frame - |buf| <= d < upto ==> buf[Slot(|buf|, bufidx, d)] == x(now + d)
  }

  lemma SlotsApart(size: nat, bufidx: nat, frame: nat, d: int, e: int)
    requires frame <= size && bufidx + frame <= size && frame - size <= d < e < frame
    ensures 0 <= Slot(size, bufidx, d) < size && Slot(size, bufidx, d) != Slot(size, bufidx, e)
  {
  }

  /** Writing the next sample. */
  lemma HoldsNext(buf: seq<int>, buf': seq<int>, frame: nat, bufidx: nat, x: Signal, now: int, i: nat)
    requires i < frame && Holds(buf, frame, bufidx, x, now, i)
    requires buf' == buf[bufidx + i := x(now + i)]
    ensures Holds(buf', frame, bufidx, x, now, i + 1)
  {
    forall d {:trigger Slot(|buf'|, bufidx, d)} | frame - |buf'| <= d < i + 1
      ensures 0 <= Slot(|buf'|, bufidx, d) < |buf'| && buf'[Slot(|buf'|, bufidx, d)] == x(now + d)
    {
      if d < i { SlotsApart(|buf|, bufidx, frame, d, i); }
    }
  }

  function NextIdx(size: nat, frame: nat, bufidx: nat): nat { if bufidx + frame == size then 0 else bufidx + frame }

  /** Moving on by a frame: what was the frame is now the past. */
  lemma HoldsAdvance(buf: seq<int>, frame: nat, bufidx: nat, x: Signal, now: int)
    requires Holds(buf, frame, bufidx, x, now, frame) && frame >= 1
    requires NextIdx(|buf|, frame, bufidx) + frame <= |buf|
    ensures Holds(buf, frame, NextIdx(|buf|, frame, bufidx), x, now + frame, 0)
  {
    var next := NextIdx(|buf|, frame, bufidx);
    forall d {:trigger Slot(|buf|, next, d)} | frame - |buf| <= d < 0
      ensures 0 <= Slot(|buf|, next, d) < |buf| && buf[Slot(|buf|, next, d)] == x(now + frame + d)
    {
      assert Slot(|buf|, next, d) == Slot(|buf|, bufidx, d + frame);
    }
  }

  /** A sample within the delay is held. */
  lemma HeldAt(buf: seq<int>, frame: nat, bufidx: nat, x: Signal, now: int, upto: int, d: int)
    requires Holds(buf, frame, bufidx, x, now, upto) && frame - |buf| <= d < upto
    ensures 0 <= Slot(|buf|, bufidx, d) < |buf| && buf[Slot(|buf|, bufidx, d)] == x(now + d)
  {
  }

  // ---- the filters ----

  ghost function Output(kind: Kind, g: int, m: nat, size: nat, x: Signal): Signal
    requires size >= 1
  {
    t => Response(kind, g, m, size, x, t)
  }

  // ---- no delay ----

  /** Without delay two values fed back have the same effect on every sample. */
  ghost predicate SameFeed(kind: Kind, g: int, a: int, b: int)
  {
    forall v :: Step(kind, g, v, a, v) == Step(kind, g, v, b, v)
  }

  lemma SameFeedTrivial(kind: Kind, g: int, a: int, b: int)
    requires a == b || g == 0
    ensures SameFeed(kind, g, a, b)
  {
  }

  /** A value left in a buffer is fed back without effect, told from it and the gain alone. */
  predicate Inert(kind: Kind, g: int, a: int)
  {
    match kind
    case Comb => (g * a) % TWO60 < TWO28
    case AllPass => (a * g) % TWO60 == 0
  }

  /** A whole multiple of 2^60 shifts down to a whole multiple of 2^32. */
  lemma ShiftedMultiple(n: int, q: int)
    ensures (n + TWO60 * q) / TWO28 == n / TWO28 + TWO32 * q
    ensures Wrap32(n / TWO28 + TWO32 * q) == Wrap32(n / TWO28)
  {
  }

  lemma WrapZero(v: int)
    ensures Wrap32(v) == Wrap32(0) == 0 <==> v % TWO32 == 0
  {
  }

  /** A comb's feedback has no effect exactly when its product with the gain, shifted, vanishes. */
  lemma CombFeed(g: int, a: int)
    ensures SameFeed(Comb, g, a, 0) <==> Inert(Comb, g, a)
    ensures Inert(Comb, g, a) <==> MUL(g, a) == 0
  {
    assert MUL(g, 0) == 0;
    assert Step(Comb, g, 0, a, 0) == MUL(g, a) && Step(Comb, g, 0, 0, 0) == 0;
    VanishingShift(g * a);
  }

  lemma VanishingShift(n: int)
    ensures Wrap32(n / TWO28) == 0 <==> n % TWO60 < TWO28
  {
    WrapZero(n / TWO28);
    var q, r := n / TWO60, n % TWO60;
    assert n == r + TWO60 * q;
    ShiftedMultiple(r, q);
  }

  /** An all-pass's has none exactly when the product is a multiple of 2^60. */
  lemma AllPassFeed(g: int, a: int)
    ensures SameFeed(AllPass, g, a, 0) <==> Inert(AllPass, g, a)
  {
    hide Wrap32;
    if Inert(AllPass, g, a) {
      var q := (a * g) / TWO60;
      forall v ensures Step(AllPass, g, v, a, v) == Step(AllPass, g, v, 0, v) {
        ShiftedMultiple(0 * g - v * g, q);
      }
    }
    if SameFeed(AllPass, g, a, 0) {
      AllPassAt(g, a, 0);
      AllPassAt(g, a, a);
      BothShifts(a * g);
    }
  }

  /** What the same effect on one sample says. */
  lemma AllPassAt(g: int, a: int, v: int)
    requires Step(AllPass, g, v, a, v) == Step(AllPass, g, v, 0, v)
    ensures ((a * g - v * g) / TWO28 - (0 - v * g) / TWO28) % TWO32 == 0
  {
    assert 0 * g - v * g == 0 - v * g;
    SameSums(v, (a * g - v * g) / TWO28, (0 - v * g) / TWO28);
  }

  lemma SameSums(v: int, a: int, b: int)
    requires Wrap32(v + Wrap32(a)) == Wrap32(v + Wrap32(b))
    ensures (a - b) % TWO32 == 0
  {
    WrapSame(v, Wrap32(a), Wrap32(b));
    WrapSame(0, a, b);
  }

  lemma WrapSame(v: int, a: int, b: int)
    requires Wrap32(v + a) == Wrap32(v + b)
    ensures (a - b) % TWO32 == 0
  {
  }

  lemma BothShifts(n: int)
    requires (n / TWO28) % TWO32 == 0 && (0 - (0 - n) / TWO28) % TWO32 == 0
    ensures n % TWO60 == 0
  {
    var q := n / TWO28 / TWO32;
    assert TWO60 * q <= n < TWO60 * q + TWO28;
  }

  lemma InertFeed(kind: Kind, g: int, a: int)
    ensures SameFeed(kind, g, a, 0) <==> Inert(kind, g, a)
  {
    if kind.Comb? { CombFeed(g, a); } else { AllPassFeed(g, a); }
  }

  /** An output buffer holds the past of the output, and a filter without delay also finds in the frame
      to come what it put out one buffer ago, or something of the same effect. */
  ghost predicate Kept(kind: Kind, g: int, m: nat, buf: seq<int>, frame: nat, bufidx: nat, y: Signal, now: int, upto: int)
  {
    && Holds(buf, frame, bufidx, y, now, upto)
    && (m == 0 ==> forall k :: 0 <= bufidx + upto <= k < bufidx + frame ==> SameFeed(kind, g, buf[k], y(now + (k - bufidx) - |buf|)))
  }

  lemma KeptNext(kind: Kind, g: int, m: nat, buf: seq<int>, buf': seq<int>, frame: nat, bufidx: nat, y: Signal, now: int, i: nat)
    requires i < frame && Kept(kind, g, m, buf, frame, bufidx, y, now, i) && buf' == buf[bufidx + i := y(now + i)]
    ensures Kept(kind, g, m, buf', frame, bufidx, y, now, i + 1)
  {
    hide SameFeed, Holds;
    HoldsSize(buf, frame, bufidx, y, now, i);
    HoldsNext(buf, buf', frame, bufidx, y, now, i);
  }

  lemma HoldsSize(buf: seq<int>, frame: nat, bufidx: nat, y: Signal, now: int, upto: int)
    requires Holds(buf, frame, bufidx, y, now, upto)
    ensures bufidx + frame <= |buf| && upto <= frame
  {
  }

  /** After a whole frame the next one's slots hold what was put out one buffer ago. */
  lemma KeptAdvance(kind: Kind, g: int, m: nat, buf: seq<int>, frame: nat, bufidx: nat, y: Signal, now: int)
    requires Kept(kind, g, m, buf, frame, bufidx, y, now, frame) && frame >= 1
    requires NextIdx(|buf|, frame, bufidx) + frame <= |buf|
    ensures Kept(kind, g, m, buf, frame, NextIdx(|buf|, frame, bufidx), y, now + frame, 0)
  {
    hide SameFeed, Holds;
    HoldsAdvance(buf, frame, bufidx, y, now);
    HoldsSize(buf, frame, bufidx, y, now, frame);
    var next := NextIdx(|buf|, frame, bufidx);
    forall k | next <= k < next + frame ensures SameFeed(kind, g, buf[k], y(now + frame + (k - next) - |buf|)) {
      HeldAt(buf, frame, bufidx, y, now, frame, frame + (k - next) - |buf|);
      assert Slot(|buf|, bufidx, frame + (k - next) - |buf|) == k;
      SameFeedTrivial(kind, g, buf[k], buf[k]);
    }
  }

  lemma KeptHolds(kind: Kind, g: int, m: nat, buf: seq<int>, frame: nat, bufidx: nat, y: Signal, now: int, upto: int)
    requires Kept(kind, g, m, buf, frame, bufidx, y, now, upto)
    ensures Holds(buf, frame, bufidx, y, now, upto)
  {
  }

  class Filter {
    const kind: Kind
    const inbuf: array<int>
    const outbuf: array<int>
    var gain: int
    var delaysamp: nat

    constructor (kind: Kind, inbuf: array<int>, outbuf: array<int>)
      requires inbuf != outbuf && inbuf.Length == outbuf.Length
      ensures this.kind == kind && this.inbuf == inbuf && this.outbuf == outbuf
    {
      this.kind, this.inbuf, this.outbuf := kind, inbuf, outbuf;
      gain, delaysamp := 0, 0;
    }

    /** init_filter: the delay in samples, clamped so that it fits beside a frame in the buffer. */
    method InitFilter(sr: nat, delaytime: nat, gain: int)
      modifies this
      ensures this.gain == gain
      ensures var wanted, most := sr * delaytime / 1000, AAC_MAX_NSAMPS * (MAX_DELAY_FRAMES - 1);
        delaysamp == (if wanted > most then most else wanted) && delaysamp <= DECBUFSIZE - AAC_MAX_NSAMPS
      ensures sr * delaytime >= 1000 ==> delaysamp >= 1
    {
      this.gain := gain;
      delaysamp := sr * delaytime / 1000;
      if delaysamp > AAC_MAX_NSAMPS * (MAX_DELAY_FRAMES - 1) {
        delaysamp := AAC_MAX_NSAMPS * (MAX_DELAY_FRAMES - 1);
      }
    }

    /** A filter without delay feeds back nothing that the frame still holds. */
    ghost predicate NoEcho(frame: nat, bufidx: nat)
      reads this, outbuf
    {
      delaysamp == 0 ==> forall k :: bufidx <= k < bufidx + frame && k < outbuf.Length ==> Inert(kind, gain, outbuf[k])
    }

    /** The output so far is in its buffer. */
    ghost predicate Written(x: Signal, frame: nat, bufidx: nat, now: int, upto: int)
      reads this, outbuf
    {
      outbuf.Length >= 1 &&
      Kept(kind, gain, delaysamp, outbuf[..], frame, bufidx, Output(kind, gain, delaysamp, outbuf.Length, x), now, upto)
    }

    /** Between frames: the past of input and output is held, and the frame's input is in place. */
    ghost predicate Ready(x: Signal, frame: nat, bufidx: nat, now: int)
      reads this, inbuf, outbuf
    {
      && inbuf != outbuf && inbuf.Length == outbuf.Length && now >= 0
      && Holds(inbuf[..], frame, bufidx, x, now, frame) && Written(x, frame, bufidx, now, 0)
    }

    /** One loop of a filter: cnt outputs from slot n on, reading from slot nM on. i0 outputs of the
        frame are already there, and the delayed samples do not wrap within the span. held says whether
        the buffers hold the past of x. */
    method Span(n: nat, nM: nat, cnt: nat, ghost held: bool, ghost x: Signal, ghost frame: nat, ghost bufidx: nat, ghost now: int,
                ghost i0: nat)
      requires inbuf != outbuf && inbuf.Length == outbuf.Length && n + cnt <= inbuf.Length && nM + cnt <= inbuf.Length
      requires held ==> (
        && now >= 0 && delaysamp <= inbuf.Length - frame && n == bufidx + i0 && i0 + cnt <= frame
        && Holds(inbuf[..], frame, bufidx, x, now, frame) && Written(x, frame, bufidx, now, i0)
        && nM == Slot(inbuf.Length, bufidx, i0 - delaysamp) && !(i0 < delaysamp - bufidx < i0 + cnt))
      modifies outbuf
      ensures held ==> Written(x, frame, bufidx, now, i0 + cnt)
      ensures nM == n ==> forall k :: 0 <= k < outbuf.Length ==>
        outbuf[k] == if n <= k < n + cnt then Step(kind, gain, inbuf[k], old(outbuf[k]), inbuf[k]) else old(outbuf[k])
    {
      hide Step, Response, Holds, Kept;
      var i := 0;
      while i < cnt
        invariant 0 <= i <= cnt && (held ==> Written(x, frame, bufidx, now, i0 + i))
        invariant nM == n ==> forall k :: 0 <= k < outbuf.Length ==>
          outbuf[k] == if n <= k < n + i then Step(kind, gain, inbuf[k], old(outbuf[k]), inbuf[k]) else old(outbuf[k])
      {
        ghost var before := outbuf[..];
        if held { Fetched(before, x, frame, bufidx, now, i0 + i); }
        outbuf[n + i] := Step(kind, gain, inbuf[nM + i], outbuf[nM + i], inbuf[n + i]);
        if held {
          KeptNext(kind, gain, delaysamp, before, outbuf[..], frame, bufidx, Output(kind, gain, delaysamp, outbuf.Length, x), now, i0 + i);
        }
        i := i + 1;
      }
    }

    /** What the loop reads is what the recurrence asks for. */
    lemma Fetched(out: seq<int>, x: Signal, frame: nat, bufidx: nat, now: int, i: nat)
      requires delaysamp <= inbuf.Length - frame && now >= 0 && i < frame && |out| == inbuf.Length >= 1
      requires Holds(inbuf[..], frame, bufidx, x, now, frame)
      requires Kept(kind, gain, delaysamp, out, frame, bufidx, Output(kind, gain, delaysamp, inbuf.Length, x), now, i)
      ensures var size, y := inbuf.Length, Output(kind, gain, delaysamp, inbuf.Length, x);
        var s := Slot(size, bufidx, i - delaysamp);
        && bufidx + i < size && 0 <= s < size && y(now + i) == Step(kind, gain, inbuf[s], out[s], inbuf[bufidx + i])
    {
      hide Step, Response, Holds;
      var size := inbuf.Length;
      var y := Output(kind, gain, delaysamp, size, x);
      HeldAt(inbuf[..], frame, bufidx, x, now, frame, i - delaysamp);
      HeldAt(inbuf[..], frame, bufidx, x, now, frame, i);
      NextOutput(kind, gain, delaysamp, size, x, now + i);
      if delaysamp >= 1 {
        HeldAt(out, frame, bufidx, y, now, i, i - delaysamp);
      } else {
        assert SameFeed(kind, gain, out[bufidx + i], y(now + i - size));
      }
    }

    /** comb_filter and allpass_filter: a frame of outputs, in two spans where the delayed samples
        wrap. With any delay, also one shorter than the frame whose feedback this very call writes, and
        also none, where the feedback is a whole buffer old, the outputs are those of the recurrence if
        the buffers hold its past. Without delay they are in any case made from what the slot held. */
    method Run(frame: nat, bufidx: nat, ghost held: bool, ghost x: Signal, ghost now: int)
      requires inbuf != outbuf && inbuf.Length == outbuf.Length
      requires delaysamp <= inbuf.Length - frame && frame >= 1 && bufidx + frame <= inbuf.Length
      requires held ==> Ready(x, frame, bufidx, now)
      modifies outbuf
      ensures held ==> Written(x, frame, bufidx, now, frame)
      ensures delaysamp == 0 ==> forall k :: 0 <= k < outbuf.Length ==>
        outbuf[k] == if bufidx <= k < bufidx + frame then Step(kind, gain, inbuf[k], old(outbuf[k]), inbuf[k]) else old(outbuf[k])
    {
      hide Holds, Step, Kept;
      var size := inbuf.Length;
      var n, nM: int := bufidx, bufidx - delaysamp;
      if nM < 0 { nM := nM + size; }
      var cnt0, cnt1 := frame, 0;
      if nM + frame >= size {
        cnt0 := size - nM;
        cnt1 := frame - cnt0;
      }
      Span(n, nM, cnt0, held, x, frame, bufidx, now, 0);
      if cnt1 != 0 {
        n := n + cnt0;
        Span(n, 0, cnt1, held, x, frame, bufidx, now, cnt0);
      }
    }
  }

  /** The frame a filter without delay makes, with out left in its buffer, is the one from silence. */
  ghost predicate AnswersSilence(kind: Kind, g: int, out: seq<int>, frame: nat, bufidx: nat, x: Signal)
    requires bufidx + frame <= |out| && frame >= 1
  {
    forall k :: bufidx <= k < bufidx + frame ==>
      Step(kind, g, x(k - bufidx), out[k], x(k - bufidx)) == Output(kind, g, 0, |out|, x)(k - bufidx)
  }

  /** Right after the buffers have been cleared but for the current frame, a filter without delay
      answers every input as from silence if and only if every sample left in the frame of its output
      buffer is inert: its product with the gain vanishes for a comb, is a multiple of 2^60 for an
      all-pass. */
  lemma SilentWithoutDelay(kind: Kind, g: int, out: seq<int>, frame: nat, bufidx: nat)
    requires bufidx + frame <= |out| && frame >= 1
    ensures (forall k :: bufidx <= k < bufidx + frame ==> Inert(kind, g, out[k])) <==>
      forall x: Signal :: Starts(x) ==> AnswersSilence(kind, g, out, frame, bufidx, x)
  {
    hide Step, Starts, Output, Inert, SameFeed;
    forall x: Signal | Starts(x) && forall k :: bufidx <= k < bufidx + frame ==> Inert(kind, g, out[k])
      ensures AnswersSilence(kind, g, out, frame, bufidx, x)
    {
      forall k | bufidx <= k < bufidx + frame
        ensures Step(kind, g, x(k - bufidx), out[k], x(k - bufidx)) == Output(kind, g, 0, |out|, x)(k - bufidx)
      {
        InertFeed(kind, g, out[k]);
        FeedAt(kind, g, out[k], 0, x(k - bufidx));
        FirstFrame(kind, g, |out|, x, k - bufidx);
      }
    }
    if k :| bufidx <= k < bufidx + frame && !Inert(kind, g, out[k]) {
      InertFeed(kind, g, out[k]);
      Distinguished(kind, g, out, frame, bufidx, k);
    }
  }

  lemma FeedAt(kind: Kind, g: int, a: int, b: int, v: int)
    requires SameFeed(kind, g, a, b)
    ensures Step(kind, g, v, a, v) == Step(kind, g, v, b, v)
  {
    hide Step;
  }

  lemma FirstFrame(kind: Kind, g: int, size: nat, x: Signal, t: nat)
    requires t < size
    ensures Output(kind, g, 0, size, x)(t) == Step(kind, g, x(t), 0, x(t))
  {
    hide Step;
    NextOutput(kind, g, 0, size, x, t);
  }

  /** A constant input tells the two apart. */
  lemma Distinguished(kind: Kind, g: int, out: seq<int>, frame: nat, bufidx: nat, k: nat)
    requires bufidx <= k < bufidx + frame <= |out| && !SameFeed(kind, g, out[k], 0)
    ensures exists x: Signal :: Starts(x) && !AnswersSilence(kind, g, out, frame, bufidx, x)
  {
    hide Step, Output;
    var v :| Step(kind, g, v, out[k], v) != Step(kind, g, v, 0, v);
    var x: Signal := t => if t < 0 then 0 else v;
    FirstFrame(kind, g, |out|, x, k - bufidx);
    assert Starts(x) && !AnswersSilence(kind, g, out, frame, bufidx, x);
  }

  lemma NextOutput(kind: Kind, g: int, m: nat, size: nat, x: Signal, t: int)
    requires size >= 1 && t >= 0
    ensures var y := Output(kind, g, m, size, x); y(t) == Step(kind, g, x(t - m), y(t - Back(m, size)), x(t))
  {
    hide Step;
  }

  // ---- the whole chain ----

  function Mixed(a: int, b: int, c: int): int { Wrap32(Wrap32(Wrap32(a) + b) + c) }
  function MADDSHIFT(x1: int, y1: int, x2: int, y2: int): int { Wrap32((x1 * y1 + x2 * y2) / TWO28) }

  ghost function Mix(y0: Signal, y1: Signal, y2: Signal): Signal
  {
    t => Mixed(y0(t), y1(t), y2(t))
  }

  /** Three combs side by side into one all-pass, on buffers of one size: what the chain makes of a
      signal. Each filter is a gain and a delay. */
  datatype Settings = Settings(g0: int, m0: nat, g1: int, m1: nat, g2: int, m2: nat, g3: int, m3: nat, src: int, rev: int, size: nat)
  {
    ghost predicate Valid(most: int)
    {
      m0 <= most && m1 <= most && m2 <= most && m3 <= most && size >= 1
    }

    ghost function Comb0(x: Signal): Signal
      requires size >= 1
    {
      Output(Comb, g0, m0, size, x)
    }

    ghost function Comb1(x: Signal): Signal
      requires size >= 1
    {
      Output(Comb, g1, m1, size, x)
    }

    ghost function Comb2(x: Signal): Signal
      requires size >= 1
    {
      Output(Comb, g2, m2, size, x)
    }

    ghost function Work(x: Signal): Signal
      requires size >= 1
    {
      Mix(Comb0(x), Comb1(x), Comb2(x))
    }

    ghost function Wet(x: Signal): Signal
      requires size >= 1
    {
      Output(AllPass, g3, m3, size, Work(x))
    }

    ghost function Result(x: Signal, t: int): int
      requires size >= 1
    {
      MADDSHIFT(x(t), src, Wet(x)(t), rev)
    }
  }

  /** Every signal of the chain starts from silence. */
  lemma BeforeZero(s: Settings, x: Signal, t: int)
    requires s.size >= 1 && t < 0
    ensures s.Comb0(x)(t) == s.Comb1(x)(t) == s.Comb2(x)(t) == 0
    ensures s.Work(x)(t) == 0 && s.Wet(x)(t) == 0
  {
    hide Output, Mix, Mixed;
    Early(Comb, s.g0, s.m0, s.size, x, t);
    Early(Comb, s.g1, s.m1, s.size, x, t);
    Early(Comb, s.g2, s.m2, s.size, x, t);
    MixAt(s.Comb0(x), s.Comb1(x), s.Comb2(x), t);
    assert Mixed(0, 0, 0) == 0 by { MixedSilence(); }
    Early(AllPass, s.g3, s.m3, s.size, s.Work(x), t);
  }

  lemma Early(kind: Kind, g: int, m: nat, size: nat, x: Signal, t: int)
    requires size >= 1 && t < 0
    ensures Output(kind, g, m, size, x)(t) == 0
  {
    hide Step;
  }

  lemma MixAt(y0: Signal, y1: Signal, y2: Signal, t: int)
    ensures Mix(y0, y1, y2)(t) == Mixed(y0(t), y1(t), y2(t))
  {
    hide Mixed;
  }

  lemma MixedSilence()
    ensures Mixed(0, 0, 0) == 0
  {
  }

  /** reverb_filter's first loop: the combs' sum. */
  method Sum(work: array<int>, o0: array<int>, o1: array<int>, o2: array<int>, frame: nat, bufidx: nat,
             ghost y0: Signal, ghost y1: Signal, ghost y2: Signal, ghost now: int)
    requires work != o0 && work != o1 && work != o2 && work.Length == o0.Length == o1.Length == o2.Length
    requires Holds(work[..], frame, bufidx, Mix(y0, y1, y2), now, 0)
    requires Holds(o0[..], frame, bufidx, y0, now, frame) && Holds(o1[..], frame, bufidx, y1, now, frame)
    requires Holds(o2[..], frame, bufidx, y2, now, frame) && bufidx + frame <= work.Length
    modifies work
    ensures Holds(work[..], frame, bufidx, Mix(y0, y1, y2), now, frame)
  {
    hide Holds, Mixed, Mix;
    var n := bufidx;
    while n < bufidx + frame
      invariant bufidx <= n <= bufidx + frame && Holds(work[..], frame, bufidx, Mix(y0, y1, y2), now, n - bufidx)
    {
      ghost var before, d := work[..], n - bufidx;
      HeldAt(o0[..], frame, bufidx, y0, now, frame, d);
      HeldAt(o1[..], frame, bufidx, y1, now, frame, d);
      HeldAt(o2[..], frame, bufidx, y2, now, frame, d);
      MixAt(y0, y1, y2, now + d);
      work[n] := Mixed(o0[n], o1[n], o2[n]);
      HoldsNext(before, work[..], frame, bufidx, Mix(y0, y1, y2), now, d);
      n := n + 1;
    }
  }

  /** The buffer index keeps to multiples of the frame. */
  lemma NextIdxFits(size: nat, frame: nat, bufidx: nat)
    requires frame >= 1 && size % frame == 0 && bufidx % frame == 0 && bufidx + frame <= size
    ensures var next := NextIdx(size, frame, bufidx); next % frame == 0 && next + frame <= size
  {
    NextMultiple(size, frame, bufidx);
    if bufidx + frame < size { NextMultiple(size, frame, bufidx + frame); }
    QuotientIs(0, frame, 0, 0);
  }

  /** One channel's chain of filters and buffers. */
  class Chain {
    const reverbbuf: array<int>
    const work2buf: array<int>
    const decbuf: array<int>
    const comb0: Filter
    const comb1: Filter
    const comb2: Filter
    const allpass: Filter
    const frame: nat
    var srcGain: int
    var reverbGain: int
    var bufidx: nat

    constructor (size: nat, frame: nat, srcGain: int, reverbGain: int)
      requires 1 <= frame <= size && size % frame == 0
      ensures this.frame == frame && reverbbuf.Length == size && bufidx == 0 && Shaped()
      ensures fresh(reverbbuf) && fresh(work2buf) && fresh(decbuf) && fresh(comb0) && fresh(comb1) && fresh(comb2) && fresh(allpass)
      ensures fresh(comb0.outbuf) && fresh(comb1.outbuf) && fresh(comb2.outbuf) && fresh(allpass.outbuf)
    {
      var input, work, dec := new int[size], new int[size], new int[size];
      var o0, o1, o2, o3 := new int[size], new int[size], new int[size], new int[size];
      reverbbuf, work2buf, decbuf := input, work, dec;
      comb0 := new Filter(Comb, input, o0);
      comb1 := new Filter(Comb, input, o1);
      comb2 := new Filter(Comb, input, o2);
      allpass := new Filter(AllPass, work, o3);
      this.frame, this.srcGain, this.reverbGain, bufidx := frame, srcGain, reverbGain, 0;
    }

    /** How the filters and buffers are connected. */
    ghost predicate Wired()
    {
      && reverbbuf.Length == work2buf.Length == decbuf.Length
      && comb0.kind == comb1.kind == comb2.kind == Comb && allpass.kind == AllPass
      && comb0.inbuf == comb1.inbuf == comb2.inbuf == reverbbuf && allpass.inbuf == work2buf
      && comb0.outbuf.Length == comb1.outbuf.Length == comb2.outbuf.Length == allpass.outbuf.Length == reverbbuf.Length
      && reverbbuf != work2buf && reverbbuf != decbuf && work2buf != decbuf
      && ApartFrom(comb0.outbuf) && ApartFrom(comb1.outbuf) && ApartFrom(comb2.outbuf) && ApartFrom(allpass.outbuf)
      && comb0.outbuf != comb1.outbuf && comb0.outbuf != comb2.outbuf && comb0.outbuf != allpass.outbuf
      && comb1.outbuf != comb2.outbuf && comb1.outbuf != allpass.outbuf && comb2.outbuf != allpass.outbuf
      && comb0 != comb1 && comb0 != comb2 && comb0 != allpass && comb1 != comb2 && comb1 != allpass && comb2 != allpass
    }

    ghost predicate ApartFrom(b: array<int>) { b != reverbbuf && b != work2buf && b != decbuf }

    ghost function Now(): Settings
      reads this, comb0, comb1, comb2, allpass
    {
      Settings(comb0.gain, comb0.delaysamp, comb1.gain, comb1.delaysamp, comb2.gain, comb2.delaysamp,
               allpass.gain, allpass.delaysamp, srcGain, reverbGain, reverbbuf.Length)
    }

    ghost predicate Shaped()
      reads this
    {
      && frame >= 1 && reverbbuf.Length % frame == 0 && bufidx % frame == 0 && bufidx + frame <= reverbbuf.Length
      && Wired()
    }

    /** Between frames every buffer holds the past of its signal. */
    ghost predicate Valid(x: Signal, now: int)
      reads this, comb0, comb1, comb2, allpass, reverbbuf, work2buf, comb0.outbuf, comb1.outbuf, comb2.outbuf, allpass.outbuf
    {
      && Shaped() && now >= 0 && Now().Valid(reverbbuf.Length - frame)
      && Past(Now(), reverbbuf[..], comb0.outbuf[..], comb1.outbuf[..], comb2.outbuf[..], work2buf[..], allpass.outbuf[..],
              frame, bufidx, x, now, 0)
    }

    /** Its last loop: dry and wet signal blended. */
    method Blend(ghost x: Signal, ghost z: Signal, ghost now: int)
      requires Shaped() && Holds(reverbbuf[..], frame, bufidx, x, now, frame) && Holds(allpass.outbuf[..], frame, bufidx, z, now, frame)
      modifies decbuf
      ensures forall k :: bufidx <= k < bufidx + frame ==>
        decbuf[k] == MADDSHIFT(x(now + (k - bufidx)), srcGain, z(now + (k - bufidx)), reverbGain)
    {
      hide Holds, MADDSHIFT;
      var n := bufidx;
      while n < bufidx + frame
        invariant bufidx <= n <= bufidx + frame
        invariant forall k :: bufidx <= k < n ==>
          decbuf[k] == MADDSHIFT(x(now + (k - bufidx)), srcGain, z(now + (k - bufidx)), reverbGain)
      {
        HeldAt(reverbbuf[..], frame, bufidx, x, now, frame, n - bufidx);
        HeldAt(allpass.outbuf[..], frame, bufidx, z, now, frame, n - bufidx);
        decbuf[n] := MADDSHIFT(reverbbuf[n], srcGain, allpass.outbuf[n], reverbGain);
        n := n + 1;
      }
    }

    /** The decoder's samples arrive in the input buffer. */
    method Fill(input: seq<int>, ghost x: Signal, ghost now: int)
      requires |input| == frame <= reverbbuf.Length && bufidx + frame <= reverbbuf.Length
      requires forall i :: 0 <= i < frame ==> input[i] == x(now + i)
      requires Holds(reverbbuf[..], frame, bufidx, x, now, 0)
      modifies reverbbuf
      ensures Holds(reverbbuf[..], frame, bufidx, x, now, frame)
    {
      hide Holds;
      var i := 0;
      while i < frame
        invariant 0 <= i <= frame && Holds(reverbbuf[..], frame, bufidx, x, now, i)
      {
        ghost var before := reverbbuf[..];
        reverbbuf[bufidx + i] := input[i];
        HoldsNext(before, reverbbuf[..], frame, bufidx, x, now, i);
        i := i + 1;
      }
    }

    /** The three combs on one frame. */
    method RunCombs(ghost x: Signal, ghost now: int)
      requires Shaped() && now >= 0 && Now().Valid(reverbbuf.Length - frame) && Holds(reverbbuf[..], frame, bufidx, x, now, frame)
      requires comb0.Written(x, frame, bufidx, now, 0) && comb1.Written(x, frame, bufidx, now, 0) && comb2.Written(x, frame, bufidx, now, 0)
      modifies comb0.outbuf, comb1.outbuf, comb2.outbuf
      ensures comb0.Written(x, frame, bufidx, now, frame) && comb1.Written(x, frame, bufidx, now, frame)
      ensures comb2.Written(x, frame, bufidx, now, frame)
    {
      hide Holds, Output, Kept;
      comb0.Run(frame, bufidx, true, x, now);
      comb1.Run(frame, bufidx, true, x, now);
      comb2.Run(frame, bufidx, true, x, now);
    }

    /** reverb_filter: combs, sum, all-pass, blend. */
    method Process(ghost x: Signal, ghost now: int)
      requires Shaped() && now >= 0 && Now().Valid(reverbbuf.Length - frame)
      requires PastOutputs(Now(), comb0.outbuf[..], comb1.outbuf[..], comb2.outbuf[..], work2buf[..], allpass.outbuf[..],
                           frame, bufidx, x, now, 0)
      requires Holds(reverbbuf[..], frame, bufidx, x, now, frame)
      modifies work2buf, decbuf, comb0.outbuf, comb1.outbuf, comb2.outbuf, allpass.outbuf
      ensures PastOutputs(Now(), comb0.outbuf[..], comb1.outbuf[..], comb2.outbuf[..], work2buf[..], allpass.outbuf[..],
                          frame, bufidx, x, now, frame)
      ensures forall k :: bufidx <= k < bufidx + frame ==> decbuf[k] == Now().Result(x, now + (k - bufidx))
    {
      hide Holds, Output, MADDSHIFT, Mix, Kept;
      ghost var s := Now();
      RunCombs(x, now);
      KeptHolds(Comb, s.g0, s.m0, comb0.outbuf[..], frame, bufidx, s.Comb0(x), now, frame);
      KeptHolds(Comb, s.g1, s.m1, comb1.outbuf[..], frame, bufidx, s.Comb1(x), now, frame);
      KeptHolds(Comb, s.g2, s.m2, comb2.outbuf[..], frame, bufidx, s.Comb2(x), now, frame);
      Sum(work2buf, comb0.outbuf, comb1.outbuf, comb2.outbuf, frame, bufidx, s.Comb0(x), s.Comb1(x), s.Comb2(x), now);
      allpass.Run(frame, bufidx, true, s.Work(x), now);
      KeptHolds(AllPass, s.g3, s.m3, allpass.outbuf[..], frame, bufidx, s.Wet(x), now, frame);
      Blend(x, s.Wet(x), now);
    }

    /** One frame of one channel arrives and is processed, and the buffer index moves on: whatever
        happened in earlier frames, the output is the chain's response to the whole input so far; for tame
        settings and inputs it is the response over the integers. */
    method ReverbFilter(input: seq<int>, ghost x: Signal, ghost now: int)
      requires Valid(x, now) && |input| == frame && forall i :: 0 <= i < frame ==> input[i] == x(now + i)
      modifies this`bufidx, reverbbuf, work2buf, decbuf, comb0.outbuf, comb1.outbuf, comb2.outbuf, allpass.outbuf
      ensures Valid(x, now + frame) && bufidx == NextIdx(reverbbuf.Length, frame, old(bufidx)) && Now() == old(Now())
      ensures forall k :: old(bufidx) <= k < old(bufidx) + frame ==> decbuf[k] == Now().Result(x, now + (k - old(bufidx)))
      ensures MeansPlain(Now(), decbuf[..], frame, old(bufidx), x, now)
    {
      hide Holds, Output, Settings.Result, Mix, Kept, MeansPlain;
      Fill(input, x, now);
      Process(x, now);
      NextIdxFits(reverbbuf.Length, frame, bufidx);
      PastAdvance(Now(), reverbbuf[..], comb0.outbuf[..], comb1.outbuf[..], comb2.outbuf[..], work2buf[..], allpass.outbuf[..], frame, bufidx, x, now);
      FrameIsPlain(Now(), decbuf[..], frame, bufidx, x, now);
      bufidx := NextIdx(reverbbuf.Length, frame, bufidx);
    }

    method ClearOutside(buf: array<int>)
      requires buf.Length == reverbbuf.Length && bufidx + frame <= buf.Length
      modifies buf
      ensures Silent(buf[..], frame, bufidx)
      ensures forall k :: bufidx <= k < bufidx + frame ==> buf[k] == old(buf[k])
    {
      var i := 0;
      while i < bufidx
        invariant 0 <= i <= bufidx && forall k :: 0 <= k < i ==> buf[k] == 0
        invariant forall k :: bufidx <= k < bufidx + frame ==> buf[k] == old(buf[k])
      {
        buf[i] := 0;
        i := i + 1;
      }
      i := bufidx + frame;
      while i < buf.Length
        invariant bufidx + frame <= i <= buf.Length
        invariant forall k :: 0 <= k < i && !(bufidx <= k < bufidx + frame) ==> buf[k] == 0
        invariant forall k :: bufidx <= k < bufidx + frame ==> buf[k] == old(buf[k])
      {
        buf[i] := 0;
        i := i + 1;
      }
    }

    /** What the current frame of every output buffer holds is fed back without effect: it is, of a
        filter with any delay, because it is never fed back. */
    ghost predicate NoEcho()
      reads this, comb0, comb1, comb2, allpass, comb0.outbuf, comb1.outbuf, comb2.outbuf, allpass.outbuf
    {
      comb0.NoEcho(frame, bufidx) && comb1.NoEcho(frame, bufidx) && comb2.NoEcho(frame, bufidx) && allpass.NoEcho(frame, bufidx)
    }

    /** init_reverb_filter: everything but the current frame is cleared and the delays are set; from
        then on the chain responds to the input from silence, with any delays, as long as nothing left
        in a frame is fed back by a filter without delay. */
    method InitReverbFilter(sr: nat, delays: seq<nat>, gains: seq<int>, ghost x: Signal)
      requires Shaped() && |delays| == |gains| == 4 && 3072 <= reverbbuf.Length - frame && Starts(x)
      modifies reverbbuf, work2buf, decbuf, comb0, comb1, comb2, allpass
      modifies comb0.outbuf, comb1.outbuf, comb2.outbuf, allpass.outbuf
      ensures Set(comb0, sr, delays[0], gains[0]) && Set(comb1, sr, delays[1], gains[1])
      ensures Set(comb2, sr, delays[2], gains[2]) && Set(allpass, sr, delays[3], gains[3])
      ensures Frames(comb0) && Frames(comb1) && Frames(comb2) && Frames(allpass)
      ensures forall k :: bufidx <= k < bufidx + frame ==> reverbbuf[k] == old(reverbbuf[k])
      ensures NoEcho() ==> Valid(x, 0)
    {
      hide Holds, Output, Silent, Mix, Kept, Inert, SameFeed;
      ClearAll();
      SetFilters(sr, delays, gains);
      if NoEcho() {
        PastOfSilence(Now(), reverbbuf[..], comb0.outbuf[..], comb1.outbuf[..], comb2.outbuf[..], work2buf[..], allpass.outbuf[..], frame, bufidx, x);
      }
    }

    /** The settings the repository ships: the third comb has neither delay nor gain. */
    method DefaultSettings(sr: nat, ghost x: Signal)
      requires Shaped() && 3072 <= reverbbuf.Length - frame && Starts(x) && sr >= 67
      modifies reverbbuf, work2buf, decbuf, comb0, comb1, comb2, allpass
      modifies comb0.outbuf, comb1.outbuf, comb2.outbuf, allpass.outbuf
      ensures Valid(x, 0) && comb2.delaysamp == 0 && comb2.gain == 0
      ensures sr == 48000 && srcGain == reverbGain == TWO28 / 2 ==> Now() == Shipped(reverbbuf.Length)
    {
      hide Holds, Output, Kept, SameFeed, Chain.Valid;
      InitReverbFilter(sr, [15, 40, 0, 30], [93952410, 67108864, 0, 120795955], x);
      assert comb2.NoEcho(frame, bufidx);
    }

    /** A gain of one half, no delay and a sample of 2 left in the frame: on a silent frame the comb does
        not answer with silence. */
    method LeftoverEchoes(sr: nat) returns (echo: int)
      requires Shaped() && 3072 <= reverbbuf.Length - frame && comb0.outbuf[bufidx] == 2
      requires forall k :: bufidx <= k < bufidx + frame ==> reverbbuf[k] == 0
      modifies reverbbuf, work2buf, decbuf, comb0, comb1, comb2, allpass
      modifies comb0.outbuf, comb1.outbuf, comb2.outbuf, allpass.outbuf
      ensures comb0.delaysamp == 0 && comb0.gain == TWO28 / 2
      ensures echo == comb0.outbuf[bufidx] == 1 && Output(Comb, comb0.gain, 0, reverbbuf.Length, _ => 0)(0) == 0
    {
      hide Holds, Kept, SameFeed, Chain.Valid, Response;
      InitReverbFilter(sr, [0, 0, 0, 0], [TWO28 / 2, 0, 0, 0], _ => 0);
      comb0.Run(frame, bufidx, false, _ => 0, 0);
      echo := comb0.outbuf[bufidx];
      FirstFrame(Comb, comb0.gain, reverbbuf.Length, _ => 0, 0);
    }

    ghost predicate Set(f: Filter, sr: nat, delay: nat, gain: int)
      reads f
    {
      f.gain == gain && f.delaysamp == if sr * delay / 1000 > 3072 then 3072 else sr * delay / 1000
    }

    /** The current frame is as it was. */
    twostate predicate Frames(f: Filter)
      reads this, f.outbuf
    {
      forall k :: bufidx <= k < bufidx + frame && k < f.outbuf.Length ==> f.outbuf[k] == old(f.outbuf[k])
    }

    method ClearAll()
      requires Shaped()
      modifies reverbbuf, work2buf, decbuf, comb0.outbuf, comb1.outbuf, comb2.outbuf, allpass.outbuf
      ensures Silent(reverbbuf[..], frame, bufidx) && Silent(work2buf[..], frame, bufidx)
      ensures Frames(comb0) && Frames(comb1) && Frames(comb2) && Frames(allpass)
      ensures forall k :: bufidx <= k < bufidx + frame ==> reverbbuf[k] == old(reverbbuf[k])
      ensures Silent(comb0.outbuf[..], frame, bufidx) && Silent(comb1.outbuf[..], frame, bufidx)
      ensures Silent(comb2.outbuf[..], frame, bufidx) && Silent(allpass.outbuf[..], frame, bufidx)
    {
      hide Silent;
      ClearOutside(reverbbuf);
      ClearOutside(comb0.outbuf);
      ClearOutside(comb1.outbuf);
      ClearOutside(comb2.outbuf);
      ClearOutside(work2buf);
      ClearOutside(allpass.outbuf);
      ClearOutside(decbuf);
    }

    method SetFilters(sr: nat, delays: seq<nat>, gains: seq<int>)
      requires Wired() && |delays| == |gains| == 4 && reverbbuf.Length >= 1
      modifies comb0, comb1, comb2, allpass
      ensures Now().Valid(3072)
      ensures Set(comb0, sr, delays[0], gains[0]) && Set(comb1, sr, delays[1], gains[1])
      ensures Set(comb2, sr, delays[2], gains[2]) && Set(allpass, sr, delays[3], gains[3])
    {
      comb0.InitFilter(sr, delays[0], gains[0]);
      comb1.InitFilter(sr, delays[1], gains[1]);
      comb2.InitFilter(sr, delays[2], gains[2]);
      allpass.InitFilter(sr, delays[3], gains[3]);
    }
  }

  /** The chain's buffers hold the past of its signals. */
  ghost predicate Past(s: Settings, input: seq<int>, o0: seq<int>, o1: seq<int>, o2: seq<int>, work: seq<int>, o3: seq<int>,
                       frame: nat, bufidx: nat, x: Signal, now: int, upto: int)
    requires s.size >= 1
  {
    Holds(input, frame, bufidx, x, now, upto) && PastOutputs(s, o0, o1, o2, work, o3, frame, bufidx, x, now, upto)
  }

  ghost predicate PastOutputs(s: Settings, o0: seq<int>, o1: seq<int>, o2: seq<int>, work: seq<int>, o3: seq<int>,
                              frame: nat, bufidx: nat, x: Signal, now: int, upto: int)
    requires s.size >= 1
  {
    && Holds(work, frame, bufidx, s.Work(x), now, upto)
    && Kept(Comb, s.g0, s.m0, o0, frame, bufidx, s.Comb0(x), now, upto)
    && Kept(Comb, s.g1, s.m1, o1, frame, bufidx, s.Comb1(x), now, upto)
    && Kept(Comb, s.g2, s.m2, o2, frame, bufidx, s.Comb2(x), now, upto)
    && Kept(AllPass, s.g3, s.m3, o3, frame, bufidx, s.Wet(x), now, upto)
  }

  lemma PastAdvance(s: Settings, input: seq<int>, o0: seq<int>, o1: seq<int>, o2: seq<int>, work: seq<int>, o3: seq<int>,
                    frame: nat, bufidx: nat, x: Signal, now: int)
    requires s.size >= 1 && frame >= 1
    requires |input| == |o0| == |o1| == |o2| == |work| == |o3| && NextIdx(|input|, frame, bufidx) + frame <= |input|
    requires Past(s, input, o0, o1, o2, work, o3, frame, bufidx, x, now, frame)
    ensures Past(s, input, o0, o1, o2, work, o3, frame, NextIdx(|input|, frame, bufidx), x, now + frame, 0)
  {
    hide Holds, Output, Mix, Kept;
    HoldsAdvance(input, frame, bufidx, x, now);
    KeptAdvance(Comb, s.g0, s.m0, o0, frame, bufidx, s.Comb0(x), now);
    KeptAdvance(Comb, s.g1, s.m1, o1, frame, bufidx, s.Comb1(x), now);
    KeptAdvance(Comb, s.g2, s.m2, o2, frame, bufidx, s.Comb2(x), now);
    HoldsAdvance(work, frame, bufidx, s.Work(x), now);
    KeptAdvance(AllPass, s.g3, s.m3, o3, frame, bufidx, s.Wet(x), now);
  }

  ghost predicate Silent(buf: seq<int>, frame: nat, bufidx: nat)
  {
    forall i :: 0 <= i < |buf| && !(bufidx <= i < bufidx + frame) ==> buf[i] == 0
  }

  /** A buffer silent outside the current frame holds the past of any signal that starts at time 0. */
  lemma HoldsSilence(buf: seq<int>, frame: nat, bufidx: nat, x: Signal)
    requires bufidx + frame <= |buf| && Silent(buf, frame, bufidx) && Starts(x)
    ensures Holds(buf, frame, bufidx, x, 0, 0)
  {
  }

  lemma KeptSilence(kind: Kind, g: int, m: nat, buf: seq<int>, frame: nat, bufidx: nat, y: Signal)
    requires bufidx + frame <= |buf| && Silent(buf, frame, bufidx) && Starts(y)
    requires m == 0 ==> forall k :: bufidx <= k < bufidx + frame ==> Inert(kind, g, buf[k])
    ensures Kept(kind, g, m, buf, frame, bufidx, y, 0, 0)
  {
    hide SameFeed, Inert, Holds;
    HoldsSilence(buf, frame, bufidx, y);
    forall k | 0 <= k < |buf| ensures SameFeed(kind, g, buf[k], 0) <==> Inert(kind, g, buf[k]) { InertFeed(kind, g, buf[k]); }
  }

  /** Cleared but for the current frame, of which a filter without delay feeds nothing back. */
  ghost predicate Quiet(kind: Kind, g: int, m: nat, buf: seq<int>, frame: nat, bufidx: nat)
  {
    bufidx + frame <= |buf| && Silent(buf, frame, bufidx)
    && (m == 0 ==> forall k :: bufidx <= k < bufidx + frame ==> Inert(kind, g, buf[k]))
  }

  lemma PastOfSilence(s: Settings, input: seq<int>, o0: seq<int>, o1: seq<int>, o2: seq<int>, work: seq<int>, o3: seq<int>,
                      frame: nat, bufidx: nat, x: Signal)
    requires s.size >= 1 && Starts(x) && |input| == |work| && bufidx + frame <= |input|
    requires Silent(input, frame, bufidx) && Silent(work, frame, bufidx)
    requires Quiet(Comb, s.g0, s.m0, o0, frame, bufidx) && Quiet(Comb, s.g1, s.m1, o1, frame, bufidx)
    requires Quiet(Comb, s.g2, s.m2, o2, frame, bufidx) && Quiet(AllPass, s.g3, s.m3, o3, frame, bufidx)
    ensures Past(s, input, o0, o1, o2, work, o3, frame, bufidx, x, 0, 0)
  {
    hide Holds, Output, Mix, Silent, SameFeed, Inert, Kept;
    HoldsSilence(input, frame, bufidx, x);
    forall t: int | t < 0
      ensures s.Comb0(x)(t) == s.Comb1(x)(t) == s.Comb2(x)(t) == 0 && s.Work(x)(t) == 0 && s.Wet(x)(t) == 0
    {
      BeforeZero(s, x, t);
    }
    KeptSilence(Comb, s.g0, s.m0, o0, frame, bufidx, s.Comb0(x));
    KeptSilence(Comb, s.g1, s.m1, o1, frame, bufidx, s.Comb1(x));
    KeptSilence(Comb, s.g2, s.m2, o2, frame, bufidx, s.Comb2(x));
    HoldsSilence(work, frame, bufidx, s.Work(x));
    KeptSilence(AllPass, s.g3, s.m3, o3, frame, bufidx, s.Wet(x));
  }

  // ---- no wrap-around ----

  lemma HalfProduct(g: int, y: int, k: nat)
    requires Abs(g) <= TWO28 / 2 && Abs(y) <= k && k % 2 == 0
    ensures 0 - k / 2 <= (g * y) / TWO28 <= k / 2
  {
    ScaledUp(Abs(g), Abs(y), TWO28 / 2, k);
    assert g * y == Abs(g) * Abs(y) || g * y == -(Abs(g) * Abs(y)) by { SignedProduct(g, y); }
  }

  lemma SignedProduct(g: int, y: int)
    ensures g * y == Abs(g) * Abs(y) || g * y == -(Abs(g) * Abs(y))
  {
    if g >= 0 && y >= 0 { assert g * y == Abs(g) * Abs(y); }
    else if g >= 0 { assert g * y == -(Abs(g) * Abs(y)); }
    else if y >= 0 { assert g * y == -(Abs(g) * Abs(y)); }
    else { assert g * y == Abs(g) * Abs(y); }
  }

  lemma NoWrap(v: int)
    requires IsInt32(v)
    ensures Wrap32(v) == v
  {
  }

  lemma CombStep(g: int, xm: int, ym: int, xn: int, k: nat)
    requires Abs(g) <= TWO28 / 2 && k <= 0x2000_0000 && Abs(xm) <= k && Abs(ym) <= 2 * k
    ensures Step(Comb, g, xm, ym, xn) == xm + (g * ym) / TWO28 && Abs(Step(Comb, g, xm, ym, xn)) <= 2 * k
  {
    hide Wrap32;
    HalfProduct(g, ym, 2 * k);
    NoWrap((g * ym) / TWO28);
    NoWrap(xm + (g * ym) / TWO28);
  }

  lemma AllPassStep(g: int, xm: int, ym: int, xn: int, k: nat)
    requires Abs(g) <= TWO28 / 2 && k <= 0x2000_0000 && Abs(xm) <= k && Abs(ym) <= 3 * k && Abs(xn) <= k
    ensures Step(AllPass, g, xm, ym, xn) == xm + (g * ym - g * xn) / TWO28 && Abs(Step(AllPass, g, xm, ym, xn)) <= 3 * k
  {
    hide Wrap32;
    HalfProduct(g, ym - xn, 4 * k);
    Distributed(g, ym, xn);
    NoWrap((g * ym - g * xn) / TWO28);
    NoWrap(xm + (g * ym - g * xn) / TWO28);
  }

  lemma Distributed(g: int, a: int, b: int)
    ensures g * (a - b) == g * a - g * b == a * g - b * g
  {
  }

  /** With gains up to one half and inputs up to 2^29 nothing ever wraps: the outputs are the plain
      recurrences, and stay within twice the input for a comb, three times for an all-pass. */
  lemma {:induction false} CombBounded(g: int, m: nat, size: nat, x: Signal, k: nat, t: int)
    requires size >= 1 && Abs(g) <= TWO28 / 2 && k <= 0x2000_0000 && forall t :: Abs(x(t)) <= k
    ensures var y, b := Output(Comb, g, m, size, x), Back(m, size);
      Abs(y(t)) <= 2 * k && (t >= 0 ==> y(t) == x(t - m) + (g * y(t - b)) / TWO28)
    decreases if t < 0 then 0 else t + 1
  {
    hide Step;
    if t >= 0 {
      CombBounded(g, m, size, x, k, t - Back(m, size));
      NextOutput(Comb, g, m, size, x, t);
      assert Abs(x(t - m)) <= k;
      CombStep(g, x(t - m), Output(Comb, g, m, size, x)(t - Back(m, size)), x(t), k);
    }
  }

  lemma {:induction false} AllPassBounded(g: int, m: nat, size: nat, x: Signal, k: nat, t: int)
    requires size >= 1 && Abs(g) <= TWO28 / 2 && k <= 0x2000_0000 && forall t :: Abs(x(t)) <= k
    ensures var y, b := Output(AllPass, g, m, size, x), Back(m, size);
      Abs(y(t)) <= 3 * k && (t >= 0 ==> y(t) == x(t - m) + (g * y(t - b) - g * x(t)) / TWO28)
    decreases if t < 0 then 0 else t + 1
  {
    hide Step;
    if t >= 0 {
      AllPassBounded(g, m, size, x, k, t - Back(m, size));
      NextOutput(AllPass, g, m, size, x, t);
      assert Abs(x(t - m)) <= k && Abs(x(t)) <= k;
      AllPassStep(g, x(t - m), Output(AllPass, g, m, size, x)(t - Back(m, size)), x(t), k);
    }
  }

  // ---- what the chain means over the integers ----

  /** A comb of delay m whose feedback is b samples old, without wrap-around. */
  function PlainComb(g: int, m: nat, b: nat, x: Signal, t: int): int
    requires b >= 1
    decreases if t < 0 then 0 else t + 1
  {
    if t < 0 then 0 else x(t - m) + g * PlainComb(g, m, b, x, t - b) / 0x1000_0000
  }

  /** The same of an all-pass. */
  function PlainAllPass(g: int, m: nat, b: nat, x: Signal, t: int): int
    requires b >= 1
    decreases if t < 0 then 0 else t + 1
  {
    if t < 0 then 0 else x(t - m) + g * (PlainAllPass(g, m, b, x, t - b) - x(t)) / 0x1000_0000
  }

  /** The all-pass hears the sum of the three combs. */
  ghost function PlainSum(s: Settings, x: Signal): Signal
    requires s.size >= 1
  {
    t => PlainComb(s.g0, s.m0, Back(s.m0, s.size), x, t) + PlainComb(s.g1, s.m1, Back(s.m1, s.size), x, t)
         + PlainComb(s.g2, s.m2, Back(s.m2, s.size), x, t)
  }

  /** Dry and wet signal, each by its gain. */
  ghost function PlainResult(s: Settings, x: Signal, t: int): int
    requires s.size >= 1
  {
    (s.src * x(t) + s.rev * PlainAllPass(s.g3, s.m3, Back(s.m3, s.size), PlainSum(s, x), t)) / 0x1000_0000
  }

  /** Filter gains to one half, blend gains to one, and an input of 27 bits less a third of one. */
  ghost predicate Tame(s: Settings, x: Signal)
  {
    && Abs(s.g0) <= TWO28 / 2 && Abs(s.g1) <= TWO28 / 2 && Abs(s.g2) <= TWO28 / 2 && Abs(s.g3) <= TWO28 / 2
    && Abs(s.src) <= TWO28 && Abs(s.rev) <= TWO28 && forall t :: Abs(x(t)) <= 0x555_5555
  }

  lemma {:induction false} CombIsPlain(g: int, m: nat, size: nat, x: Signal, k: nat, t: int)
    requires size >= 1 && Abs(g) <= TWO28 / 2 && k <= 0x2000_0000 && forall t :: Abs(x(t)) <= k
    ensures Output(Comb, g, m, size, x)(t) == PlainComb(g, m, Back(m, size), x, t) && Abs(Output(Comb, g, m, size, x)(t)) <= 2 * k
    decreases if t < 0 then 0 else t + 1
  {
    hide Output;
    CombBounded(g, m, size, x, k, t);
    if t < 0 { Early(Comb, g, m, size, x, t); } else { CombIsPlain(g, m, size, x, k, t - Back(m, size)); }
  }

  lemma {:induction false} AllPassIsPlain(g: int, m: nat, size: nat, x: Signal, z: Signal, k: nat, t: int)
    requires size >= 1 && Abs(g) <= TWO28 / 2 && k <= 0x2000_0000 && forall t :: Abs(x(t)) <= k && z(t) == x(t)
    ensures Output(AllPass, g, m, size, x)(t) == PlainAllPass(g, m, Back(m, size), z, t) && Abs(Output(AllPass, g, m, size, x)(t)) <= 3 * k
    decreases if t < 0 then 0 else t + 1
  {
    hide Output;
    AllPassBounded(g, m, size, x, k, t);
    if t < 0 { Early(AllPass, g, m, size, x, t); } else {
      AllPassIsPlain(g, m, size, x, z, k, t - Back(m, size));
      Distributed(g, Output(AllPass, g, m, size, x)(t - Back(m, size)), x(t));
      assert z(t - m) == x(t - m) && z(t) == x(t);
    }
  }

  lemma SumIsPlain(s: Settings, x: Signal, t: int)
    requires s.size >= 1 && Tame(s, x)
    ensures s.Work(x)(t) == PlainSum(s, x)(t) && Abs(s.Work(x)(t)) <= 0x2000_0000
  {
    hide Output, Mixed, PlainComb, Mix;
    CombIsPlain(s.g0, s.m0, s.size, x, 0x555_5555, t);
    CombIsPlain(s.g1, s.m1, s.size, x, 0x555_5555, t);
    CombIsPlain(s.g2, s.m2, s.size, x, 0x555_5555, t);
    var a, b, c := s.Comb0(x)(t), s.Comb1(x)(t), s.Comb2(x)(t);
    MixAt(s.Comb0(x), s.Comb1(x), s.Comb2(x), t);
    MixedIsSum(a, b, c);
  }

  lemma MixedIsSum(a: int, b: int, c: int)
    requires Abs(a) <= 0xaaa_aaaa && Abs(b) <= 0xaaa_aaaa && Abs(c) <= 0xaaa_aaaa
    ensures Mixed(a, b, c) == a + b + c
  {
    hide Wrap32;
    NoWrap(a);
    NoWrap(a + b);
    NoWrap(a + b + c);
  }

  lemma BlendFits(src: int, x: int, rev: int, y: int)
    requires Abs(src) <= TWO28 && Abs(rev) <= TWO28 && Abs(x) <= 0x555_5555 && Abs(y) <= 0x6000_0000
    ensures MADDSHIFT(x, src, y, rev) == (src * x + rev * y) / 0x1000_0000
  {
    SignedProduct(src, x);
    SignedProduct(rev, y);
    ScaledUp(Abs(src), Abs(x), TWO28, 0x555_5555);
    ScaledUp(Abs(rev), Abs(y), TWO28, 0x6000_0000);
    NoWrap((x * src + y * rev) / TWO28);
  }

  /** With such settings and inputs the chain is what it is meant to be: the dry signal and the all-pass
      of the sum of the three combs, each gained, by recurrences over the integers. */
  lemma ChainIsPlain(s: Settings, x: Signal, t: int)
    requires s.size >= 1 && Tame(s, x)
    ensures s.Result(x, t) == PlainResult(s, x, t)
  {
    hide Output, MADDSHIFT, PlainSum, Settings.Work;
    forall u: int ensures Abs(s.Work(x)(u)) <= 0x2000_0000 && PlainSum(s, x)(u) == s.Work(x)(u) { SumIsPlain(s, x, u); }
    AllPassIsPlain(s.g3, s.m3, s.size, s.Work(x), PlainSum(s, x), 0x2000_0000, t);
    BlendFits(s.src, x(t), s.rev, s.Wet(x)(t));
  }

  /** A frame of such a chain. */
  ghost predicate MeansPlain(s: Settings, out: seq<int>, frame: nat, bufidx: nat, x: Signal, now: int)
  {
    bufidx + frame <= |out| && s.size >= 1 &&
    (Tame(s, x) ==> forall k :: bufidx <= k < bufidx + frame ==> out[k] == PlainResult(s, x, now + (k - bufidx)))
  }

  lemma FrameIsPlain(s: Settings, out: seq<int>, frame: nat, bufidx: nat, x: Signal, now: int)
    requires bufidx + frame <= |out| && s.size >= 1
    requires forall k :: bufidx <= k < bufidx + frame ==> out[k] == s.Result(x, now + (k - bufidx))
    ensures MeansPlain(s, out, frame, bufidx, x, now)
  {
    hide Settings.Result, PlainResult, Tame;
    if Tame(s, x) {
      forall t ensures s.Result(x, t) == PlainResult(s, x, t) { ChainIsPlain(s, x, t); }
    }
  }

  // ---- one pulse ----

  function Pulse(a: int): Signal { t => if t == 0 then a else 0 }

  /** The j-th echo of a pulse: every one is the last, gained and rounded down. */
  function Echo(g: int, a: int, j: nat): int { if j == 0 then a else g * Echo(g, a, j - 1) / 0x1000_0000 }

  /** A comb answers a pulse with echoes at the multiples of its delay and with nothing between. */
  lemma {:induction false} CombEchoes(g: int, m: nat, a: int, t: int)
    requires m >= 1
    ensures PlainComb(g, m, m, Pulse(a), t) == if t >= m && t % m == 0 then Echo(g, a, t / m - 1) else 0
    decreases if t < 0 then 0 else t + 1
  {
    if t >= 0 {
      CombEchoes(g, m, a, t - m);
      EarlierMultiple(t, m);
    }
  }

  lemma EarlierMultiple(t: nat, m: nat)
    requires m >= 1
    ensures t >= m ==> (t - m) % m == t % m && (t - m) / m == t / m - 1
    ensures t < m ==> t % m == t
    ensures t >= m && t % m == 0 && t - m < m ==> t == m
  {
    var q, r := t / m, t % m;
    assert t == q * m + r;
    if t >= m {
      assert (q - 1) * m == q * m - m;
      QuotientIs(t - m, m, q - 1, r);
      if r == 0 && t - m < m && q >= 2 { ScaledUp(2, m, q, m); }
    } else {
      QuotientIs(t, m, 0, t);
    }
  }

  /** The settings the repository ships, at 48 kHz. */
  function Shipped(size: nat): Settings
  {
    Settings(93952410, 720, 67108864, 1920, 0, 0, 120795955, 1440, TWO28 / 2, TWO28 / 2, size)
  }

  /** What the all-pass hears of a pulse: the pulse itself, through the comb without delay and gain, and
      the echoes of the other two. */
  lemma PulseHeard(size: nat, a: int, t: nat)
    requires size >= 1
    ensures PlainSum(Shipped(size), Pulse(a))(t) ==
      (if t >= 720 && t % 720 == 0 then Echo(93952410, a, t / 720 - 1) else 0)
      + (if t >= 1920 && t % 1920 == 0 then Echo(67108864, a, t / 1920 - 1) else 0) + (if t == 0 then a else 0)
  {
    CombEchoes(93952410, 720, a, t);
    CombEchoes(67108864, 1920, a, t);
  }

  lemma HeardSpaced(size: nat, a: int, t: int)
    requires size >= 1 && t % 240 != 0
    ensures PlainSum(Shipped(size), Pulse(a))(t) == 0
  {
    hide Echo, PlainSum;
    if t < 0 {
      NothingBefore(Shipped(size), a, t);
    } else {
      NotAtDelays(t);
      PulseHeard(size, a, t);
    }
  }

  lemma NotAtDelays(t: nat)
    requires t % 240 != 0
    ensures t != 0 && t % 720 != 0 && t % 1920 != 0
  {
    Remainder(t, 3 * (t / 720));
    Remainder(t, 8 * (t / 1920));
  }

  lemma Remainder(t: nat, k: nat)
    requires t % 240 != 0
    ensures t != 240 * k
  {
  }

  /** Nothing is put out but at multiples of 5 ms. */
  lemma {:induction false} PulseSpaced(size: nat, a: int, t: int)
    requires size >= 1 && t % 240 != 0
    ensures PlainAllPass(120795955, 1440, 1440, PlainSum(Shipped(size), Pulse(a)), t) == 0 && PlainResult(Shipped(size), Pulse(a), t) == 0
    decreases if t < 0 then 0 else t + 1
  {
    hide PlainSum, Echo, PlainComb;
    HeardSpaced(size, a, t);
    if t >= 0 {
      HeardSpaced(size, a, t - 1440);
      PulseSpaced(size, a, t - 1440);
    }
  }

  lemma NothingBefore(s: Settings, a: int, t: int)
    requires s.size >= 1 && t < 0
    ensures PlainSum(s, Pulse(a))(t) == 0
  {
  }

  /** The first of it: the pulse at once, less what the all-pass takes away, then the first comb's echo
      turned over by the all-pass. */
  lemma PulseAnswer(size: nat, a: int)
    requires size >= 1
    ensures PlainResult(Shipped(size), Pulse(a), 0) == (0x800_0000 * a + 0x800_0000 * (-120795955 * a / 0x1000_0000)) / 0x1000_0000
    ensures PlainResult(Shipped(size), Pulse(a), 720) == 0x800_0000 * (-120795955 * a / 0x1000_0000) / 0x1000_0000
    ensures PlainResult(Shipped(size), Pulse(1000), 0) == 275 && PlainResult(Shipped(size), Pulse(1000), 720) == -225
  {
    hide PlainResult;
    FirstAnswer(size, a);
    FirstAnswer(size, 1000);
  }

  lemma FirstAnswer(size: nat, a: int)
    requires size >= 1
    ensures PlainResult(Shipped(size), Pulse(a), 0) == (0x800_0000 * a + 0x800_0000 * (-120795955 * a / 0x1000_0000)) / 0x1000_0000
    ensures PlainResult(Shipped(size), Pulse(a), 720) == 0x800_0000 * (-120795955 * a / 0x1000_0000) / 0x1000_0000
  {
    hide PlainSum, PlainComb;
    var z := PlainSum(Shipped(size), Pulse(a));
    PulseHeard(size, a, 0);
    PulseHeard(size, a, 720);
    NothingBefore(Shipped(size), a, -1440);
    NothingBefore(Shipped(size), a, -720);
    assert PlainAllPass(120795955, 1440, 1440, z, -1440) == PlainAllPass(120795955, 1440, 1440, z, -720) == 0;
    assert 120795955 * (0 - a) == -120795955 * a;
  }
}
