/** codec/aacdecode/main.c: the input ring shared with the stream driver, with its guard area, and
    the PCM ring shared with the DAC. Driver and DAC have a turn between any two steps of the decoder,
    also within a copy; a script says what they do at each, for as long as they run. The decoder knows
    their pointers only as it last read them. */
module Rings {
  import opened Fixed

  type Byte = x: int | 0 <= x < 256

  // ---- input ----

  /** The bytes from index r up to index w, past the end of the buffer on from the ring's start. */
  ghost function Span(buf: seq<Byte>, guard: nat, r: nat, w: nat): seq<Byte>
    requires r <= |buf| && guard <= w <= |buf|
  {
    if w >= r then buf[r..w] else buf[r..] + buf[guard..w]
  }

  lemma SameLength(buf: seq<Byte>, other: seq<Byte>, guard: nat, r: nat, w: nat)
    requires r <= |buf| == |other| && guard <= w <= |buf|
    ensures |Span(buf, guard, r, w)| == |Span(other, guard, r, w)|
  {
  }

  /** Stores into the guard area do not reach a span that starts behind it. */
  lemma SpanKept(buf: seq<Byte>, other: seq<Byte>, guard: nat, r: nat, w: nat)
    requires r <= |buf| == |other| && guard <= w <= |buf| && guard <= r && buf[guard..] == other[guard..]
    ensures Span(buf, guard, r, w) == Span(other, guard, r, w)
  {
    assert forall k :: guard <= k < |buf| ==> buf[k] == buf[guard..][k - guard] && other[k] == other[guard..][k - guard];
  }

  lemma SpanDrops(buf: seq<Byte>, guard: nat, r: nat, w: nat, n: nat)
    requires r <= |buf| && guard <= w <= |buf| && r + n <= if w >= r then w else |buf|
    ensures n <= |Span(buf, guard, r, w)| && Span(buf, guard, r + n, w) == Span(buf, guard, r, w)[n..]
  {
  }

  lemma PrefixDrops(a: seq<Byte>, b: seq<Byte>, n: nat)
    requires a <= b && n <= |a|
    ensures a[n..] <= b[n..]
  {
  }

  /** A byte at the write index, which moves on, comes behind them. */
  lemma SpanGrows(buf: seq<Byte>, guard: nat, r: nat, w: nat, b: Byte)
    requires r <= |buf| && guard <= w < |buf| && (if r <= w then w + 1 < |buf| || guard < r else w + 1 < r)
    ensures Span(buf[w := b], guard, r, if w + 1 == |buf| then guard else w + 1) == Span(buf, guard, r, w) + [b]
  {
  }

  /** The stream buffer: a guard area of guard bytes, then the driver's ring up to the end. */
  class InputRing {
    const streamBuf: array<Byte>
    const guard: nat          // READBUF_GUARDSIZE, also READBUF_BEGIN
    var aacReadIdx: nat
    var aacWriteIdx: nat      // the driver's write pointer as last read
    var drvWrIdx: nat         // the driver's write pointer
    var rdPtr: nat            // what the driver is told, relative to the ring
    var script: seq<seq<Byte>>  // the bytes the driver has at each of its next turns
    ghost var sent: seq<Byte>
    ghost var taken: seq<Byte>

    constructor (size: nat, guard: nat, script: seq<seq<Byte>>)
      requires 1 <= guard && 2 * guard < size
      ensures Valid() && fresh(streamBuf) && sent == [] && taken == [] && this.guard == guard && streamBuf.Length == size
      ensures this.script == script
    {
      streamBuf := new Byte[size](_ => 0);
      this.guard, aacReadIdx, aacWriteIdx, drvWrIdx, rdPtr := guard, guard, guard, guard, 0;
      sent, taken, this.script := [], [], script;
    }

    ghost predicate InRange()
      reads this`aacReadIdx, this`aacWriteIdx, this`drvWrIdx, this`rdPtr
    {
      && 1 <= guard && 2 * guard < streamBuf.Length && aacReadIdx <= streamBuf.Length && guard + rdPtr <= streamBuf.Length
      && guard <= aacWriteIdx < streamBuf.Length && guard <= drvWrIdx < streamBuf.Length
    }

    /** The unread bytes, in order. */
    ghost function Unread(): seq<Byte>
      requires InRange()
      reads this`aacReadIdx, this`aacWriteIdx, this`drvWrIdx, this`rdPtr, streamBuf
    {
      Span(streamBuf[..], guard, aacReadIdx, drvWrIdx)
    }

    /** The unread bytes the decoder knows of. */
    ghost function Seen(): seq<Byte>
      requires InRange()
      reads this`aacReadIdx, this`aacWriteIdx, this`drvWrIdx, this`rdPtr, streamBuf
    {
      Span(streamBuf[..], guard, aacReadIdx, aacWriteIdx)
    }

    /** No byte is lost or reordered. This holds at every turn of the driver. */
    ghost predicate Safe()
      reads this, streamBuf
    {
      InRange() && rdPtr % 2 == 0 && Ordered() && Snapshot() && taken + Unread() == sent
    }

    /** Between the decoder's operations it is besides not behind the pointer the driver was told. */
    ghost predicate Valid()
      reads this, streamBuf
    {
      Safe() && if aacReadIdx < guard then rdPtr == 0 else guard + rdPtr <= aacReadIdx
    }

    /** The driver's read pointer follows the decoder's, and its write pointer has not caught up with
        it. With the tail moved to the guard area the driver is at the ring's start, or behind the
        read pointer it still goes by. */
    ghost predicate Ordered()
      reads this`aacReadIdx, this`drvWrIdx, this`rdPtr
    {
      || (guard + rdPtr <= aacReadIdx && (aacReadIdx <= drvWrIdx || Wrapped()))
      || (aacReadIdx <= guard && (rdPtr == 0 || Wrapped()))
    }

    /** The write pointer is behind the read pointer the driver goes by. */
    ghost predicate Wrapped()
      reads this`drvWrIdx, this`rdPtr
    {
      drvWrIdx < guard + rdPtr
    }

    /** The write pointer last read is one the driver has been at since the decoder's index. */
    ghost predicate Snapshot()
      reads this`aacReadIdx, this`aacWriteIdx, this`drvWrIdx
    {
      if aacReadIdx <= aacWriteIdx then aacReadIdx <= drvWrIdx ==> aacWriteIdx <= drvWrIdx
      else aacWriteIdx <= drvWrIdx < aacReadIdx
    }

    /** What the decoder knows of is the beginning of what is there. */
    lemma SeenFirst()
      requires Safe()
      ensures Seen() <= Unread()
    {
    }

    /** The bytes the driver may still write: one short of its read pointer. The driver of
        driver/audio/ite_audio.c keeps two bytes free; this one may use one of them. */
    function Room(): int
      reads this`drvWrIdx, this`rdPtr
    {
      var rd := guard + rdPtr;
      if drvWrIdx >= rd then streamBuf.Length - guard - (drvWrIdx - rd) - 1 else rd - drvWrIdx - 1
    }

    /** The cells the driver leaves alone: the guard area and, once it has wrapped, everything from
        the read pointer it was told. */
    twostate predicate KeptOff()
      reads this, streamBuf
    {
      && (forall k :: 0 <= k < guard && k < streamBuf.Length ==> streamBuf[k] == old(streamBuf[k]))
      && (old(Wrapped()) ==>
          Wrapped() && old(drvWrIdx) <= drvWrIdx
          && forall k :: guard + rdPtr <= k < streamBuf.Length ==> streamBuf[k] == old(streamBuf[k]))
    }

    /** The driver writes one byte, if it has room. */
    method DriverWrite(b: Byte) returns (ok: bool)
      requires Safe()
      modifies streamBuf, this`drvWrIdx, this`sent
      ensures Safe() && ok == (old(Room()) > 0) && KeptOff()
      ensures ok ==> sent == old(sent) + [b] && Unread() == old(Unread()) + [b]
      ensures !ok ==> sent == old(sent) && Unread() == old(Unread())
    {
      ok := Room() > 0;
      if ok {
        SpanGrows(streamBuf[..], guard, aacReadIdx, drvWrIdx, b);
        streamBuf[drvWrIdx] := b;
        drvWrIdx := drvWrIdx + 1;
        if drvWrIdx == streamBuf.Length { drvWrIdx := guard; }
        sent := sent + [b];
        assert streamBuf[..] == old(streamBuf[..])[old(drvWrIdx) := b];
      }
    }

    /** The driver's turn: it writes what it has room for. Neither the unread bytes nor what the decoder
        knows of them change; new ones come behind. */
    method Turn()
      requires Safe()
      modifies streamBuf, this`drvWrIdx, this`sent, this`script
      ensures Safe() && KeptOff() && (old(Valid()) ==> Valid())
      ensures old(sent) <= sent && old(Unread()) <= Unread() && Seen() == old(Seen())
      ensures script == if old(script) == [] then [] else old(script)[1..]
    {
      hide Span, Ordered, Snapshot;
      SeenFirst();
      if script != [] {
        var bytes, n := script[0], 0;
        script := script[1..];
        while n < |bytes|
          invariant 0 <= n <= |bytes| && Safe() && KeptOff() && script == old(script)[1..]
          invariant old(sent) <= sent && old(Unread()) <= Unread()
        {
          var ok := DriverWrite(bytes[n]);
          if !ok { break; }
          n := n + 1;
        }
      }
      SeenFirst();
      SameLength(streamBuf[..], old(streamBuf[..]), guard, aacReadIdx, aacWriteIdx);
    }

    /** The bytes the decoder can reach from its pointer without wrapping, as far as it knows. */
    function Contiguous(): int
      reads this`aacReadIdx, this`aacWriteIdx
    {
      if aacWriteIdx >= aacReadIdx then aacWriteIdx - aacReadIdx else streamBuf.Length - aacReadIdx
    }

    /** The number of bytes the decoder knows of, as FillReadBuffer computes it from the pointer it last
        read. It is never more than there are. */
    method Available() returns (len: int)
      requires Safe()
      ensures len == |Seen()| <= |Unread()| && (aacWriteIdx >= aacReadIdx ==> len == Contiguous())
    {
      SeenFirst();
      if aacWriteIdx >= aacReadIdx {
        len := aacWriteIdx - aacReadIdx;
      } else {
        len := (streamBuf.Length - guard) - (aacReadIdx - aacWriteIdx);
      }
    }

    /** The decoder has used nReadBytes of the contiguous bytes. */
    method Take(nReadBytes: nat)
      requires Valid() && nReadBytes <= Contiguous()
      modifies this`aacReadIdx, this`taken
      ensures Valid() && aacReadIdx == old(aacReadIdx) + nReadBytes && nReadBytes <= |old(Seen())|
      ensures taken == old(taken) + old(Seen())[..nReadBytes]
      ensures Unread() == old(Unread())[nReadBytes..] && Seen() == old(Seen())[nReadBytes..]
    {
      hide Span, Ordered, Snapshot, Wrapped;
      TakeSpans(nReadBytes);
      ghost var before := Unread();
      taken := taken + before[..nReadBytes];
      aacReadIdx := aacReadIdx + nReadBytes;
      TakeKeeps(nReadBytes);
      assert before[..nReadBytes] + before[nReadBytes..] == before;
    }

    lemma TakeSpans(n: nat)
      requires Valid() && n <= Contiguous()
      ensures n <= |Seen()| && Seen() <= Unread() && aacReadIdx + n <= streamBuf.Length
      ensures Span(streamBuf[..], guard, aacReadIdx + n, drvWrIdx) == Unread()[n..]
      ensures Span(streamBuf[..], guard, aacReadIdx + n, aacWriteIdx) == Seen()[n..]
    {
      hide Span;
      SeenFirst();
      SpanDrops(streamBuf[..], guard, aacReadIdx, aacWriteIdx, n);
      SpanDrops(streamBuf[..], guard, aacReadIdx, drvWrIdx, n);
    }

    twostate lemma TakeKeeps(n: nat)
      requires old(Valid()) && n <= old(Contiguous()) && aacReadIdx == old(aacReadIdx) + n
      requires unchanged(this`aacWriteIdx, this`drvWrIdx, this`rdPtr)
      ensures InRange() && Ordered() && Snapshot() && if aacReadIdx < guard then rdPtr == 0 else guard + rdPtr <= aacReadIdx
    {
      hide Span;
    }

    /** Tell the driver, rounded down to an even place. */
    method PublishRead()
      requires Valid() && guard <= aacReadIdx
      modifies this`rdPtr
      ensures Valid() && Unread() == old(Unread()) && Seen() == old(Seen()) && rdPtr == (aacReadIdx - guard) / 2 * 2
    {
      rdPtr := (aacReadIdx - guard) / 2 * 2;
    }

    /** Read the driver's write pointer, with a turn before and after. */
    method ReadWrPtr()
      requires Valid()
      modifies streamBuf, this`aacWriteIdx, this`drvWrIdx, this`sent, this`script
      ensures Valid() && old(sent) <= sent && old(Unread()) <= Unread() && old(Seen()) <= Seen()
      ensures |script| < |old(script)| || script == old(script) == []
    {
      hide Span, Ordered, Wrapped, KeptOff;
      Turn();
      SeenFirst();
      aacWriteIdx := drvWrIdx;
      Turn();
    }

    /** The driver has wrapped; tail is what is to be moved, and i bytes of it are. */
    ghost predicate Copying(from: nat, to: nat, i: nat, tail: seq<Byte>)
      reads this, streamBuf
    {
      && Valid() && Wrapped() && aacReadIdx == from && guard + rdPtr <= from <= streamBuf.Length
      && to + streamBuf.Length == from + guard && to + i <= guard
      && streamBuf[from..] == tail && streamBuf[to..to + i] == tail[..i]
    }

    /** A write pointer read behind the decoder's shows that the driver has wrapped. */
    lemma StartCopy()
      requires Valid() && aacWriteIdx < aacReadIdx && aacReadIdx >= streamBuf.Length - guard
      ensures Copying(aacReadIdx, aacReadIdx - (streamBuf.Length - guard), 0, streamBuf[aacReadIdx..])
    {
    }

    /** One byte of the copy. */
    method CopyByte(from: nat, to: nat, i: nat, ghost tail: seq<Byte>)
      requires Copying(from, to, i, tail) && i < streamBuf.Length - from
      modifies streamBuf
      ensures Copying(from, to, i + 1, tail) && InRange() && Unread() == old(Unread()) && Seen() == old(Seen())
    {
      hide Ordered, Snapshot, Span;
      ghost var was := streamBuf[..];
      streamBuf[to + i] := streamBuf[from + i];
      SpanKept(was, streamBuf[..], guard, aacReadIdx, drvWrIdx);
      SpanKept(was, streamBuf[..], guard, aacReadIdx, aacWriteIdx);
    }

    /** The driver's turn within the copy. */
    method CopyTurn(from: nat, to: nat, i: nat, ghost tail: seq<Byte>)
      requires Copying(from, to, i, tail)
      modifies streamBuf, this`drvWrIdx, this`sent, this`script
      ensures Copying(from, to, i, tail) && InRange() && old(sent) <= sent && old(Unread()) <= Unread() && Seen() == old(Seen())
    {
      hide Ordered, Snapshot, Span;
      Turn();
    }

    /** The tail of the buffer moves in front of the ring's start while the driver goes on writing: the
        same unread bytes in the same order, now contiguous. The driver, which the pointer last read
        shows behind the decoder's, touches neither the tail nor the guard area. */
    method Relocate()
      requires Valid() && aacWriteIdx < aacReadIdx && aacReadIdx >= streamBuf.Length - guard
      modifies this`aacReadIdx, this`drvWrIdx, this`rdPtr, this`sent, this`script, streamBuf
      ensures Valid() && old(sent) <= sent && old(Unread()) <= Unread() && Seen() == old(Seen()) && Contiguous() == |Seen()|
      ensures aacReadIdx == old(aacReadIdx) - (streamBuf.Length - guard) && rdPtr == 0
    {
      hide Ordered, Snapshot, Span, Wrapped, KeptOff, Copying;
      var from, to := aacReadIdx, aacReadIdx - (streamBuf.Length - guard);
      ghost var tail := streamBuf[from..];
      StartCopy();
      CopyTurn(from, to, 0, tail);
      var i := 0;
      while i < streamBuf.Length - from
        invariant 0 <= i <= streamBuf.Length - from && Copying(from, to, i, tail) && aacReadIdx == from
        invariant InRange() && old(sent) <= sent && old(Unread()) <= Unread() && Seen() == old(Seen())
      {
        CopyByte(from, to, i, tail);
        CopyTurn(from, to, i + 1, tail);
        i := i + 1;
      }
      MoveRead(from, to, tail);
      Turn();
      TellStart();
      Turn();
      AllContiguous();
    }

    /** The decoder's pointer moves to the copy; the driver still goes by the old one. */
    method MoveRead(from: nat, to: nat, ghost tail: seq<Byte>)
      requires from <= streamBuf.Length && Copying(from, to, streamBuf.Length - from, tail) && aacWriteIdx < aacReadIdx
      modifies this`aacReadIdx
      ensures Safe() && aacReadIdx == to <= guard
      ensures Unread() == old(Unread()) && Seen() == old(Seen())
    {
      aacReadIdx := to;
      assert streamBuf[to..guard] == tail;
      assert streamBuf[to..drvWrIdx] == streamBuf[to..guard] + streamBuf[guard..drvWrIdx];
      assert streamBuf[to..aacWriteIdx] == streamBuf[to..guard] + streamBuf[guard..aacWriteIdx];
    }

    /** The driver is told the ring's start. */
    method TellStart()
      requires Safe() && aacReadIdx <= guard
      modifies this`rdPtr
      ensures Valid() && rdPtr == 0 && Unread() == old(Unread()) && Seen() == old(Seen())
    {
      hide Span;
      rdPtr := 0;
    }

    lemma AllContiguous()
      requires InRange() && aacReadIdx <= guard
      ensures Contiguous() == |Seen()|
    {
    }

    /** Wait for the write pointer to leave the guard area at the end of the buffer. */
    method WaitForWrap() returns (eof: bool)
      requires Valid()
      modifies streamBuf, this`aacWriteIdx, this`drvWrIdx, this`sent, this`script
      ensures Valid() && old(sent) <= sent && old(Unread()) <= Unread() && old(Seen()) <= Seen()
      ensures eof || aacWriteIdx < aacReadIdx
    {
      hide Span, Ordered, Snapshot, Wrapped;
      eof := false;
      while true
        invariant Valid() && !eof && old(sent) <= sent && old(Unread()) <= Unread() && old(Seen()) <= Seen()
        decreases |script|
      {
        eof := script == [];
        ReadWrPtr();
        if !(aacWriteIdx >= aacReadIdx && !eof) { return; }
      }
    }

    /** Wait for need bytes; with halfFull not at all if the buffer was more than half full. */
    method WaitForBytes(need: nat, forceSync: bool, halfFull: bool, ended: bool) returns (len: int, eof: bool)
      requires Valid() && need <= guard
      modifies this`aacReadIdx, this`rdPtr, streamBuf, this`aacWriteIdx, this`drvWrIdx, this`sent, this`script
      ensures Valid() && old(sent) <= sent && old(Unread()) <= Unread() && len == |Seen()|
      ensures ended ==> eof
      ensures eof || len >= need
      ensures (!eof && (old(aacReadIdx) < streamBuf.Length - guard
        || (forceSync && (!halfFull || old(aacWriteIdx) >= old(aacReadIdx))))) ==> Contiguous() >= need
    {
      hide Span, Ordered, Snapshot, Wrapped;
      eof := ended;
      len := Available();
      Turn();
      if halfFull && len > streamBuf.Length / 2 { return; }
      while true
        invariant Valid() && old(sent) <= sent && old(Unread()) <= Unread() && old(Seen()) <= Seen()
        invariant aacReadIdx == old(aacReadIdx) || aacReadIdx <= guard
        invariant eof == ended
        decreases |script|, if eof then 0 else 1
      {
        if script == [] { eof := true; }
        len := LookAgain(need, forceSync);
        if !(!eof && len < need) { return; }
      }
    }

    /** One round of the wait: what is there now, moved to the ring's start if it lies across the end. */
    method LookAgain(need: nat, forceSync: bool) returns (len: int)
      requires Valid() && need <= guard
      modifies this`aacReadIdx, this`rdPtr, streamBuf, this`aacWriteIdx, this`drvWrIdx, this`sent, this`script
      ensures Valid() && old(sent) <= sent && old(Unread()) <= Unread() && old(Seen()) <= Seen() && len == |Seen()|
      ensures len < need ==> |script| < |old(script)| || script == old(script) == []
      ensures aacReadIdx == old(aacReadIdx) || aacReadIdx <= guard
      ensures len >= need && (forceSync || old(aacReadIdx) <= streamBuf.Length - guard) ==> Contiguous() >= need
    {
      hide Span, Ordered, Snapshot, Wrapped;
      ReadWrPtr();
      len := Available();
      Turn();
      if aacWriteIdx < aacReadIdx && forceSync && aacReadIdx > streamBuf.Length - guard && len >= need {
        Relocate();
      }
    }

    /** A driver that has not wrapped was last read ahead of the decoder. */
    lemma StillAhead()
      requires Valid() && aacReadIdx >= guard && !(drvWrIdx < guard + rdPtr)
      ensures aacWriteIdx >= aacReadIdx
    {
    }

    /** The bytes of the frame just decoded are given up, and the tail is moved if need be. */
    method GiveUp(nReadBytes: nat, forceSync: bool) returns (eof: bool)
      requires Valid() && nReadBytes <= Contiguous()
      modifies this, streamBuf
      ensures Valid() && nReadBytes <= |old(Seen())| && taken == old(taken) + old(Seen())[..nReadBytes]
      ensures old(sent) <= sent && nReadBytes <= |old(Unread())| && old(Unread())[nReadBytes..] <= Unread()
      ensures nReadBytes == 0 ==> aacReadIdx == old(aacReadIdx)
      ensures eof || nReadBytes == 0 || aacReadIdx < streamBuf.Length - guard || (forceSync && aacWriteIdx >= aacReadIdx)
    {
      hide Span, Ordered, Snapshot, Wrapped, KeptOff;
      SeenFirst();
      eof := false;
      if nReadBytes > 0 {
        Take(nReadBytes);
        Turn();
        if aacReadIdx >= streamBuf.Length - guard && (!forceSync || drvWrIdx < guard + rdPtr) {
          Turn();
          PublishRead();
          eof := WaitForWrap();
          if aacWriteIdx < aacReadIdx { Relocate(); }
        } else if aacReadIdx >= guard {
          if aacReadIdx >= streamBuf.Length - guard { StillAhead(); }
          Turn();
          PublishRead();
        }
      }
    }

    /** FillReadBuffer. The frame just decoded is given up, the tail is moved if the write pointer has
        wrapped behind it, and the decoder waits until need bytes are there or the stream has ended,
        which it has when the script runs out; forceSync is the build that moves the tail while
        waiting, halfFull the one that does not wait with the buffer half full. Whatever the driver
        does in between, no byte is lost or reordered, the length returned is exact for the pointer last
        read and never more than there is, and unless the stream has ended the bytes waited for lie
        contiguously at the decoder's pointer. */
    method FillReadBuffer(nReadBytes: nat, need: nat, forceSync: bool, halfFull: bool) returns (len: int, eof: bool)
      requires Valid() && nReadBytes <= Contiguous() && need <= guard
      modifies this, streamBuf
      ensures Valid() && nReadBytes <= |old(Seen())| && taken == old(taken) + old(Seen())[..nReadBytes]
      ensures old(sent) <= sent && old(Unread())[nReadBytes..] <= Unread()
      ensures len == |Seen()| && Seen() <= Unread()
      ensures eof || (len >= need && (
        ((forceSync && !halfFull) || nReadBytes > 0 || old(aacReadIdx) < streamBuf.Length - guard) ==> Contiguous() >= need))
    {
      hide Span, Ordered, Snapshot, Wrapped;
      TakeSpans(nReadBytes);
      Turn();
      ghost var now := Unread();
      PrefixDrops(old(Unread()), now, nReadBytes);
      eof := GiveUp(nReadBytes, forceSync);
      len, eof := WaitForBytes(need, forceSync, halfFull, eof);
      SeenFirst();
    }
  }

  // ---- output ----

  /** What lies between a read and a write index of a ring. */
  ghost function Queue(buf: seq<Byte>, r: nat, w: nat): seq<Byte>
    requires r < |buf| && w < |buf|
  {
    if r <= w then buf[r..w] else buf[r..] + buf[..w]
  }

  /** How many bytes that is. */
  function Gap(size: nat, r: nat, w: nat): int
  {
    if r <= w then w - r else size - (r - w)
  }

  lemma QueueLength(buf: seq<Byte>, r: nat, w: nat)
    requires r < |buf| && w < |buf|
    ensures |Queue(buf, r, w)| == Gap(|buf|, r, w) < |buf| && (r == w <==> Queue(buf, r, w) == [])
  {
  }

  /** Advancing the write index over n bytes, with more than n free, appends them. */
  lemma QueueGrows(buf: seq<Byte>, r: nat, w: nat, n: nat)
    requires r < |buf| && w + n <= |buf| && w < |buf| && Gap(|buf|, r, w) + n < |buf|
    ensures var w' := if w + n == |buf| then 0 else w + n;
      Queue(buf, r, w') == Queue(buf, r, w) + buf[w..w + n] && Gap(|buf|, r, w') == Gap(|buf|, r, w) + n
  {
    if w + n == |buf| {
      assert buf[r..w] + buf[w..] == buf[r..];
    } else if r <= w {
      assert buf[r..w] + buf[w..w + n] == buf[r..w + n];
    } else {
      assert buf[..w] + buf[w..w + n] == buf[..w + n];
    }
  }

  /** A byte stored in the free part leaves the queue alone. */
  lemma QueueKept(buf: seq<Byte>, r: nat, w: nat, k: nat, b: Byte)
    requires r < |buf| && w < |buf| && w <= k < |buf| && Gap(|buf|, r, w) + (k - w) < |buf|
    ensures Queue(buf[k := b], r, w) == Queue(buf, r, w)
  {
  }

  /** Advancing the read index over the oldest n bytes. */
  lemma QueueShrinks(buf: seq<Byte>, r: nat, w: nat, n: nat)
    requires r < |buf| && w < |buf| && n <= Gap(|buf|, r, w)
    ensures var r' := if r + n >= |buf| then r + n - |buf| else r + n;
      r' < |buf| && Queue(buf, r', w) == Queue(buf, r, w)[n..] && Gap(|buf|, r', w) == Gap(|buf|, r, w) - n
  {
  }

  /** The PCM buffer, written a frame at a time and played by the DAC. */
  class PcmRing {
    const pcmWriteBuf: array<Byte>
    const frame: nat           // bytes of one frame of PCM
    const maxFrame: nat        // MAX_FRAME_SIZE
    var pcmWriteIdx: nat
    var pcmReadIdx: nat        // the DAC's read pointer as last read
    var outWrPtr: nat          // what the DAC is told
    var outRdPtr: nat          // the DAC's read pointer
    var script: seq<nat>       // how much the DAC is ready to play at each of its next turns
    ghost var sent: seq<Byte>
    ghost var played: seq<Byte>

    constructor (size: nat, frame: nat, maxFrame: nat, script: seq<nat>)
      requires 1 <= frame <= maxFrame && maxFrame + 2 <= size && size % frame == 0
      ensures Valid() && fresh(pcmWriteBuf) && sent == [] && played == [] && HasRoom() && this.frame == frame
      ensures this.script == script
    {
      pcmWriteBuf := new Byte[size](_ => 0);
      this.frame, this.maxFrame := frame, maxFrame;
      pcmWriteIdx, pcmReadIdx, outWrPtr, outRdPtr := 0, 0, 0, 0;
      sent, played, this.script := [], [], script;
    }

    ghost predicate InRange()
      reads this`pcmWriteIdx, this`pcmReadIdx, this`outWrPtr, this`outRdPtr
    {
      && 1 <= frame <= maxFrame && maxFrame + 2 <= pcmWriteBuf.Length && pcmWriteBuf.Length % frame == 0
      && pcmReadIdx < pcmWriteBuf.Length && pcmWriteIdx < pcmWriteBuf.Length && pcmWriteIdx % frame == 0
      && outRdPtr < pcmWriteBuf.Length && outWrPtr < pcmWriteBuf.Length
    }

    /** The bytes handed over and not yet played. */
    ghost function Queued(): seq<Byte>
      requires InRange()
      reads this`pcmWriteIdx, this`pcmReadIdx, this`outWrPtr, this`outRdPtr, pcmWriteBuf
    {
      Queue(pcmWriteBuf[..], outRdPtr, outWrPtr)
    }

    /** Everything handed over is played or queued, in order, and no more is queued than the read
        pointer last read would have it. This holds at every turn of the DAC. */
    ghost predicate Safe()
      reads this, pcmWriteBuf
    {
      && InRange() && played + Queued() == sent
      && Gap(pcmWriteBuf.Length, outRdPtr, outWrPtr) <= Gap(pcmWriteBuf.Length, pcmReadIdx, outWrPtr)
    }

    /** Between the decoder's operations the DAC also knows the write index. */
    ghost predicate Valid()
      reads this, pcmWriteBuf
    {
      Safe() && outWrPtr == pcmWriteIdx
    }

    /** The free bytes as FillWriteBuffer computes them from the pointer it last read. */
    function Free(): int
      reads this`pcmWriteIdx, this`pcmReadIdx
    {
      if pcmReadIdx <= pcmWriteIdx then pcmWriteBuf.Length - (pcmWriteIdx - pcmReadIdx) else pcmReadIdx - pcmWriteIdx
    }

    predicate HasRoom()
      reads this`pcmWriteIdx, this`pcmReadIdx
    {
      Free() - 2 >= maxFrame
    }

    /** At least the computed bytes are free, exactly when the pointer last read is the DAC's; and equal
        indices mean an empty queue, never a full one. */
    lemma FreeIsExact()
      requires Valid()
      ensures Free() <= pcmWriteBuf.Length - |Queued()| && (outRdPtr == pcmWriteIdx <==> Queued() == [])
      ensures Free() == pcmWriteBuf.Length - |Queued()| <==> pcmReadIdx == outRdPtr
    {
      QueueLength(pcmWriteBuf[..], outRdPtr, outWrPtr);
    }

    /** The DAC plays the oldest n bytes. */
    method Play(n: nat)
      requires Safe() && n <= Gap(pcmWriteBuf.Length, outRdPtr, outWrPtr)
      modifies this`outRdPtr, this`played
      ensures Safe() && old(played) <= played
    {
      hide Queue, Gap;
      ghost var before := Queued();
      QueueLength(pcmWriteBuf[..], outRdPtr, outWrPtr);
      QueueShrinks(pcmWriteBuf[..], outRdPtr, outWrPtr, n);
      played := played + before[..n];
      outRdPtr := outRdPtr + n;
      if outRdPtr >= pcmWriteBuf.Length { outRdPtr := outRdPtr - pcmWriteBuf.Length; }
      assert before[..n] + before[n..] == before;
    }

    /** The DAC's turn: it plays some of what is queued. */
    method Turn()
      requires Safe()
      modifies this`outRdPtr, this`played, this`script
      ensures Safe() && old(played) <= played
      ensures script == if old(script) == [] then [] else old(script)[1..]
    {
      hide Queue, Gap;
      if script != [] {
        QueueLength(pcmWriteBuf[..], outRdPtr, outWrPtr);
        var queued := Gap(pcmWriteBuf.Length, outRdPtr, outWrPtr);
        var n := if script[0] <= queued then script[0] else queued;
        script := script[1..];
        Play(n);
      }
    }

    /** The decoder writes a frame at the write index while the DAC plays, within the buffer and over
        nothing queued: what is played is what was handed over. */
    method WriteFrame(pcm: seq<Byte>)
      requires Valid() && HasRoom() && |pcm| == frame
      modifies pcmWriteBuf, this`outRdPtr, this`played, this`script
      ensures Valid() && old(played) <= played && pcmWriteIdx + frame <= pcmWriteBuf.Length
      ensures pcmWriteBuf[pcmWriteIdx..pcmWriteIdx + frame] == pcm
    {
      NextMultiple(pcmWriteBuf.Length, frame, pcmWriteIdx);
      var i := 0;
      while i < frame
        invariant 0 <= i <= frame && pcmWriteBuf[pcmWriteIdx..pcmWriteIdx + i] == pcm[..i]
        invariant Valid() && old(played) <= played
      {
        WriteByte(i, pcm[i]);
        Turn();
        i := i + 1;
      }
    }

    method WriteByte(i: nat, b: Byte)
      requires Valid() && HasRoom() && i < frame && pcmWriteIdx + frame <= pcmWriteBuf.Length
      modifies pcmWriteBuf
      ensures Valid() && pcmWriteBuf[..] == old(pcmWriteBuf[..])[pcmWriteIdx + i := b]
    {
      QueueKept(pcmWriteBuf[..], outRdPtr, outWrPtr, pcmWriteIdx + i, b);
      pcmWriteBuf[pcmWriteIdx + i] := b;
      assert pcmWriteBuf[..] == old(pcmWriteBuf[..])[pcmWriteIdx + i := b];
    }

    /** FillWriteBuffer: the frame is handed over, then the decoder waits until the next one has room;
        the wait ends without room only when the DAC stops, which it does when the script runs out. */
    method FillWriteBuffer(ghost pcm: seq<Byte>) returns (stopped: bool)
      requires Valid() && HasRoom() && |pcm| == frame && pcmWriteIdx + frame <= pcmWriteBuf.Length
      requires pcmWriteBuf[pcmWriteIdx..pcmWriteIdx + frame] == pcm
      modifies this`pcmWriteIdx, this`pcmReadIdx, this`outWrPtr, this`outRdPtr, this`script, this`sent, this`played
      ensures Valid() && sent == old(sent) + pcm && old(played) <= played && (stopped || HasRoom())
    {
      hide HasRoom, Queue, Gap;
      HandOver(pcm);
      stopped := false;
      while true
        invariant Valid() && !stopped && sent == old(sent) + pcm && old(played) <= played
        decreases |script|
      {
        stopped := script == [];
        Turn();
        pcmReadIdx := outRdPtr;
        Turn();
        if !(!HasRoom() && !stopped) { return; }
      }
    }

    /** The write index moves on first, and then the DAC is told. */
    method HandOver(ghost pcm: seq<Byte>)
      requires Valid() && HasRoom() && |pcm| == frame && pcmWriteIdx + frame <= pcmWriteBuf.Length
      requires pcmWriteBuf[pcmWriteIdx..pcmWriteIdx + frame] == pcm
      modifies this`pcmWriteIdx, this`outWrPtr, this`outRdPtr, this`script, this`sent, this`played
      ensures Valid() && sent == old(sent) + pcm && old(played) <= played
    {
      hide Queue, Gap, HasRoom;
      NextMultiple(pcmWriteBuf.Length, frame, pcmWriteIdx);
      Turn();
      RoomForFrame();
      assert pcmWriteBuf[..][pcmWriteIdx..pcmWriteIdx + frame] == pcm;
      pcmWriteIdx := pcmWriteIdx + frame;
      if pcmWriteIdx >= pcmWriteBuf.Length { pcmWriteIdx := 0; }
      Turn();
      QueueGrows(pcmWriteBuf[..], outRdPtr, outWrPtr, frame);
      QueueGrows(pcmWriteBuf[..], pcmReadIdx, outWrPtr, frame);
      outWrPtr := pcmWriteIdx;
      sent := sent + pcm;
    }

    lemma RoomForFrame()
      requires Valid() && HasRoom()
      ensures Gap(pcmWriteBuf.Length, pcmReadIdx, outWrPtr) + frame < pcmWriteBuf.Length
    {
    }
  }
}
