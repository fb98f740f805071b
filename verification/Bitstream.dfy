/** codec/aacdecode/bitstream.c: the 32-bit cached bit reader, specified over the plain
    bit sequence of the buffer extended with zeros past its end. */
module Bitstream {
  import opened Fixed

  type Byte = x: int | 0 <= x < 256

  // ---- the plain bit sequence ----

  /** Bit i of a byte, counted from its most significant end. */
  function ByteBit(b: nat, i: nat): (r: nat)
    requires i < 8
    ensures r <= 1
    decreases 8 - i
  {
    if i == 7 then b % 2 else ByteBit(b / 2, i + 1)
  }

  /** Bit p of the buffer, most significant bit of each byte first; 0 past the end. */
  function BitAt(d: seq<Byte>, p: nat): (b: nat)
    ensures b <= 1
  {
    if p / 8 < |d| then ByteBit(d[p / 8], p % 8) else 0
  }

  /** The n bits from position p, as a big-endian number. */
  function Bits(d: seq<Byte>, p: nat, n: nat): (v: nat)
    ensures v < Pow2(n)
  {
    if n == 0 then 0 else 2 * Bits(d, p, n - 1) + BitAt(d, p + n - 1)
  }

  lemma {:induction false} BitsSplit(d: seq<Byte>, p: nat, a: nat, b: nat)
    ensures Bits(d, p, a + b) == Up(Bits(d, p, a), b) + Bits(d, p + a, b)
  {
    if b > 0 {
      BitsSplit(d, p, a, b - 1);
      assert p + (a + b) - 1 == p + a + b - 1;
    }
  }

  lemma {:induction false} BitsPastEnd(d: seq<Byte>, p: nat, n: nat)
    requires p >= 8 * |d|
    ensures Bits(d, p, n) == 0
  {
    if n > 0 { BitsPastEnd(d, p, n - 1); }
  }

  lemma {:induction false} ByteBitDown(b: nat, i: nat)
    requires i < 8
    ensures ByteBit(b, i) == Down(b, 7 - i) % 2
    decreases 8 - i
  {
    if i < 7 { ByteBitDown(b / 2, i + 1); }
  }

  lemma {:induction false} BitsInByte(d: seq<Byte>, k: nat, j: nat)
    requires k < |d| && j <= 8
    ensures Bits(d, 8 * k, j) == Down(d[k], 8 - j)
  {
    if j == 0 {
      UpEight(1);
      DownBound(d[k], 0, 8);
    } else {
      BitsInByte(d, k, j - 1);
      assert (8 * k + j - 1) / 8 == k && (8 * k + j - 1) % 8 == j - 1;
      ByteBitDown(d[k], j - 1);
      DownHalf(d[k], 8 - j);
    }
  }

  lemma BitsAppendByte(d: seq<Byte>, k: nat, j: nat)
    ensures Bits(d, 8 * k, 8 * j + 8) == 0x100 * Bits(d, 8 * k, 8 * j) + if k + j < |d| then d[k + j] else 0
  {
    hide BitAt;
    BitsSplit(d, 8 * k, 8 * j, 8);
    if k + j < |d| { BitsInByte(d, k + j, 8); } else { BitsPastEnd(d, 8 * (k + j), 8); }
    UpEight(Bits(d, 8 * k, 8 * j));
  }

  // ---- the cache word ----

  /** A cache word holding c valid bits of the stream at p, left-justified. */
  function CacheWord(d: seq<Byte>, p: nat, c: nat): nat
    requires c <= 32
  {
    Up(Bits(d, p, c), 32 - c)
  }

  lemma CacheWordBound(d: seq<Byte>, p: nat, c: nat)
    requires c <= 32
    ensures CacheWord(d, p, c) < TWO32
  {
    Pow2Of32();
    UpBound(Bits(d, p, c), c, 32 - c);
  }

  /** Taking n of the c cached bits off the top leaves the cache word of the rest. */
  lemma CacheTake(d: seq<Byte>, p: nat, c: nat, n: nat)
    requires n <= c <= 32
    ensures CacheWord(d, p, c) == Up(Bits(d, p, n), 32 - n) + Up(Bits(d, p + n, c - n), 32 - c)
    ensures Up(Bits(d, p + n, c - n), 32 - c) < Pow2(32 - n)
  {
    var hi, lo := Bits(d, p, n), Bits(d, p + n, c - n);
    BitsSplit(d, p, n, c - n);
    UpAdd(Up(hi, c - n), lo, 32 - c);
    UpUp(hi, c - n, 32 - c);
    UpBound(lo, c - n, 32 - c);
  }

  lemma CacheShr(d: seq<Byte>, p: nat, c: nat, n: nat)
    requires n <= c <= 32
    ensures Down(CacheWord(d, p, c), 32 - n) == Bits(d, p, n)
  {
    CacheTake(d, p, c, n);
    DownField(Bits(d, p, n), Up(Bits(d, p + n, c - n), 32 - c), 32 - n);
  }

  lemma CacheShl(d: seq<Byte>, p: nat, c: nat, n: nat)
    requires n <= c <= 32
    ensures Up(CacheWord(d, p, c), n) % TWO32 == CacheWord(d, p + n, c - n)
  {
    hide Bits, BitAt;
    CacheTake(d, p, c, n);
    CacheWordBound(d, p + n, c - n);
    ShlDropsField(Bits(d, p, n), Bits(d, p + n, c - n), 32 - c, n);
  }

  /** Asking for more bits than are cached returns them padded with zeros and empties the cache. */
  lemma CacheDrain(d: seq<Byte>, p: nat, c: nat, n: nat)
    requires c <= n <= 32
    ensures Down(CacheWord(d, p, c), 32 - n) == Up(Bits(d, p, c), n - c)
    ensures Up(CacheWord(d, p, c), n) % TWO32 == 0
  {
    hide Bits, BitAt, Up, Down;
    var v := Bits(d, p, c);
    UpUp(v, n - c, 32 - n);
    DownField(Up(v, n - c), 0, 32 - n);
    UpUp(v, 32 - c, n);
    UpUp(v, n - c, 32);
    UpThirtyTwo(Up(v, n - c));
  }

  /** Reading n bits off a cache that is either full or holds all that is left: the value is
      the next n bits, zero-extended at the end of the buffer. */
  lemma CacheRead(d: seq<Byte>, p: nat, c: nat, n: nat)
    requires c <= 32 && n <= 32 && (n <= c || p + c >= 8 * |d|)
    ensures Down(CacheWord(d, p, c), 32 - n) == Bits(d, p, n)
    ensures Up(CacheWord(d, p, c), n) % TWO32 == if n <= c then CacheWord(d, p + n, c - n) else 0
  {
    if n <= c {
      CacheShr(d, p, c, n);
      CacheShl(d, p, c, n);
    } else {
      CacheDrain(d, p, c, n);
      BitsSplit(d, p, c, n - c);
      BitsPastEnd(d, p + c, n - c);
    }
  }

  /** What the first half of a read leaves: the available bits, moved up by what is missing. */
  lemma CacheFirstRead(d: seq<Byte>, p: nat, c: nat, n: nat)
    requires c <= 32 && n < 32
    ensures CacheWord(d, p, c) < TWO32
    ensures Down(CacheWord(d, p, c), 31 - n) < TWO32
    ensures Shr32(Shr32(CacheWord(d, p, c), 31 - n), 1)
         == if n <= c then Bits(d, p, n) else Up(Bits(d, p, c), n - c)
    ensures Shl32(CacheWord(d, p, c), n) == if n <= c then CacheWord(d, p + n, c - n) else 0
  {
    hide Bits, BitAt;
    CacheWordBound(d, p, c);
    ShrTwice(CacheWord(d, p, c), n);
    if n <= c {
      CacheRead(d, p, c, n);
    } else {
      CacheDrain(d, p, c, n);
    }
  }

  lemma CacheOfFour(d: seq<Byte>, k: nat, b0: int, b1: int, b2: int, b3: int)
    requires k + 4 <= |d| && b0 == d[k] && b1 == d[k + 1] && b2 == d[k + 2] && b3 == d[k + 3]
    ensures CacheWord(d, 8 * k, 32) == b0 * 0x100_0000 + b1 * 0x1_0000 + b2 * 0x100 + b3
  {
    hide Bits, BitAt;
    BitsAppendByte(d, k, 0);
    BitsAppendByte(d, k, 1);
    BitsAppendByte(d, k, 2);
    BitsAppendByte(d, k, 3);
  }

  lemma BitsNone(d: seq<Byte>, p: nat)
    ensures Bits(d, p, 0) == 0
  {
  }

  lemma BitsFit(d: seq<Byte>, p: nat, n: nat)
    requires n <= 32
    ensures Bits(d, p, n) < TWO32
  {
    Pow2Mono(n, 32);
    Pow2Of32();
  }

  lemma PeekShift(d: seq<Byte>, k: nat, j: nat, n: nat)
    requires 8 * j < n && (n <= 32 || k >= |d|)
    ensures Bits(d, 8 * k, 8 * j) < 0x100_0000
    ensures Shl32(Bits(d, 8 * k, 8 * j), 8) == 0x100 * Bits(d, 8 * k, 8 * j)
  {
    hide Bits, BitAt;
    if n <= 32 { SmallBits(d, 8 * k, 8 * j); } else { BitsPastEnd(d, 8 * k, 8 * j); }
    UpEight(Bits(d, 8 * k, 8 * j));
  }

  /** Dropping the bits read beyond n. */
  lemma PeekTrim(d: seq<Byte>, k: nat, j: nat, n: nat)
    requires n <= 8 * j < n + 8 && (n <= 32 || k >= |d|)
    ensures Bits(d, 8 * k, 8 * j) < TWO32
    ensures Shr32(Bits(d, 8 * k, 8 * j), 8 * j - n) == Bits(d, 8 * k, n)
  {
    hide Bits, BitAt;
    BitsSplit(d, 8 * k, n, 8 * j - n);
    DownField(Bits(d, 8 * k, n), Bits(d, 8 * k + n, 8 * j - n), 8 * j - n);
    if n <= 32 { BitsFit(d, 8 * k, 8 * j); } else { BitsPastEnd(d, 8 * k, 8 * j); }
  }

  lemma NoBitsNoWord(d: seq<Byte>, p: nat)
    ensures CacheWord(d, p, 0) == 0
  {
    UpZero(32);
  }

  lemma SmallBits(d: seq<Byte>, p: nat, n: nat)
    requires n <= 24
    ensures Bits(d, p, n) < 0x100_0000
  {
    Pow2Mono(n, 24);
    Pow2Of32();
  }

  /** Fewer than four bytes, first accumulated with one byte of slack, then left-justified. */
  lemma CacheOfTail(d: seq<Byte>, k: nat, n: nat)
    requires n <= 3
    ensures 0x100 * Bits(d, 8 * k, 8 * n) < TWO32
    ensures Shl32(0x100 * Bits(d, 8 * k, 8 * n), (3 - n) * 8) == CacheWord(d, 8 * k, 8 * n)
  {
    SmallBits(d, 8 * k, 8 * n);
    UpEight(Bits(d, 8 * k, 8 * n));
    UpUp(Bits(d, 8 * k, 8 * n), 8, (3 - n) * 8);
    CacheWordBound(d, 8 * k, 8 * n);
  }

  // ---- the reader ----

  class BitReader {
    const mem: seq<Byte>    // the memory bytePtr points into
    var bytePtr: nat
    var iCache: nat
    var cachedBits: int
    var nBytes: nat

    /** The buffer as the reader sees it: nothing past bytePtr + nBytes. */
    ghost function View(): seq<Byte>
      reads this
      requires bytePtr + nBytes <= |mem|
    {
      mem[..bytePtr + nBytes]
    }

    ghost predicate Valid()
      reads this
    {
      && bytePtr + nBytes <= |mem|
      && cachedBits <= 32 && cachedBits <= 8 * bytePtr
      && (cachedBits < 0 ==> nBytes == 0 && iCache == 0)
      && (cachedBits >= 0 ==> iCache == CacheWord(View(), 8 * bytePtr - cachedBits, cachedBits))
    }

    /** The position of the next unread bit; it keeps counting past the end of the buffer. */
    ghost function Pos(): nat
      reads this
      requires cachedBits <= 8 * bytePtr
    {
      8 * bytePtr - cachedBits
    }

    /** SetBitstreamPointer */
    constructor (mem: seq<Byte>, nBytes: nat, buf: nat)
      requires buf + nBytes <= |mem|
      ensures Valid() && this.mem == mem && View() == mem[..buf + nBytes] && Pos() == 8 * buf
    {
      this.mem := mem;
      bytePtr := buf;
      iCache := 0;
      cachedBits := 0;
      this.nBytes := nBytes;
      new;
      UpZero(32);
    }

    /** The end-of-buffer branch of the refill: the last 0 to 3 bytes, left-justified. */
    method TailWord() returns (w: nat)
      requires bytePtr + nBytes <= |mem| && nBytes <= 3
      ensures w == CacheWord(View(), 8 * bytePtr, 8 * nBytes)
    {
      hide Bits, BitAt;
      ghost var d, k := View(), bytePtr;
      w := 0;
      var n := nBytes;
      while n > 0
        invariant 0 <= n <= nBytes
        invariant w == 0x100 * Bits(d, 8 * k, 8 * (nBytes - n))
      {
        BitsAppendByte(d, k, nBytes - n);
        SmallBits(d, 8 * k, 8 * (nBytes - n) + 8);
        w := w + mem[bytePtr + (nBytes - n)];
        w := (w * 0x100) % TWO32;
        n := n - 1;
      }
      CacheOfTail(d, k, nBytes);
      w := Shl32(w, (3 - nBytes) * 8);
    }

    method RefillBitstreamCache()
      requires bytePtr + nBytes <= |mem|
      modifies this
      ensures Valid() && View() == old(View()) && bytePtr >= old(bytePtr)
      ensures cachedBits >= 0 && Pos() == 8 * old(bytePtr)
      ensures nBytes > 0 ==> cachedBits == 32
      ensures nBytes == 0 ==> Pos() + cachedBits == 8 * |View()|
    {
      var k := bytePtr;
      if nBytes >= 4 {
        var b0: int, b1: int, b2: int, b3: int := mem[k], mem[k + 1], mem[k + 2], mem[k + 3];
        CacheOfFour(View(), k, b0, b1, b2, b3);
        iCache := b0 * 0x100_0000 + b1 * 0x1_0000 + b2 * 0x100 + b3;
        cachedBits := 32;
        bytePtr := bytePtr + 4;
        nBytes := nBytes - 4;
      } else {
        iCache := TailWord();
        cachedBits := 8 * nBytes;
        bytePtr := bytePtr + nBytes;
        nBytes := 0;
      }
    }

    /** The cached part of a read: the top n bits of the cache, as two shifts so that n == 0 works. */
    method TakeFromCache(n: nat) returns (data: nat)
      requires Valid() && n < 32
      modifies this
      ensures bytePtr == old(bytePtr) && nBytes == old(nBytes) && cachedBits == old(cachedBits) - n
      ensures cachedBits >= 0 ==> data == Bits(View(), old(Pos()), n) && Valid()
      ensures cachedBits < 0 ==> iCache == 0
      ensures cachedBits < 0 <= old(cachedBits) ==> data == Up(Bits(View(), old(Pos()), old(cachedBits)), -cachedBits)
      ensures old(cachedBits) < 0 ==> data == 0
    {
      hide Bits, BitAt;
      if cachedBits >= 0 {
        CacheFirstRead(View(), Pos(), cachedBits, n);
      } else {
        ShrTwice(0, n);
        UpZero(32 - n);
        UpZero(n);
      }
      data := Shr32(Shr32(iCache, 31 - n), 1);
      iCache := Shl32(iCache, n);
      cachedBits := cachedBits - n;
    }

    method GetBits(nBits: int) returns (data: nat)
      requires Valid()
      modifies this
      ensures Valid() && View() == old(View())
      ensures data == Bits(View(), old(Pos()), nBits % 32)
      ensures Pos() == old(Pos()) + nBits % 32
    {
      hide Bits, BitAt;
      ghost var d, p, c := View(), Pos(), cachedBits;
      var n := nBits % 32;
      data := TakeFromCache(n);
      if cachedBits < 0 {
        var lowBits := -cachedBits;
        RefillBitstreamCache();
        var low := TopOfCache(lowBits);
        if c >= 0 {
          BitsSplit(d, p, c, lowBits);
        } else {
          UpZero(lowBits);
          BitsPastEnd(d, p, n);
          BitsPastEnd(d, Pos(), lowBits);
        }
        data := OrBits(data, low, if c >= 0 then Bits(d, p, c) else 0, lowBits);
        DropFromCache(lowBits);
      }
    }

    /** The word read after a refill, before it is dropped from the cache. */
    method TopOfCache(n: nat) returns (low: nat)
      requires Valid() && cachedBits >= 0 && 1 <= n && (n <= cachedBits || nBytes == 0)
      requires n <= 32 || Pos() >= 8 * |View()|
      ensures low == Bits(View(), Pos(), n)
    {
      hide Bits, BitAt;
      CacheWordBound(View(), Pos(), cachedBits);
      if n <= 32 {
        CacheRead(View(), Pos(), cachedBits, n);
      } else {
        NoBitsNoWord(View(), Pos());
        BitsPastEnd(View(), Pos(), n);
      }
      low := Shr32(iCache, 32 - n);
    }

    method DropFromCache(n: nat)
      requires Valid() && cachedBits >= 0 && (n <= cachedBits || nBytes == 0)
      requires n <= 31 || Pos() >= 8 * |View()|
      modifies this
      ensures Valid() && View() == old(View()) && Pos() == old(Pos()) + n
    {
      hide Bits, BitAt;
      CacheWordBound(View(), Pos(), cachedBits);
      if n <= 31 {
        CacheRead(View(), Pos(), cachedBits, n);
      } else {
        NoBitsNoWord(View(), Pos());
        UpZero(n);
      }
      iCache := Shl32(iCache, n);
      cachedBits := cachedBits - n;
    }

    /** Whole bytes after the cache, enough to cover n more bits, with zeros past the end. */
    method PeekBytes(n: nat) returns (data: nat)
      requires Valid() && (n <= 32 || nBytes == 0)
      ensures data == Bits(View(), 8 * bytePtr, n)
    {
      hide Bits, BitAt;
      ghost var d, k, j := View(), bytePtr, 0;
      var limit := bytePtr + nBytes;
      var word: nat, buf, lowBits: int := 0, bytePtr, n;
      BitsNone(d, 8 * k);
      while lowBits > 0
        invariant j >= 0 && lowBits == n - 8 * j && lowBits > -8
        invariant buf == if j < nBytes then bytePtr + j else limit
        invariant word == Bits(d, 8 * k, 8 * j)
      {
        BitsAppendByte(d, k, j);
        PeekShift(d, k, j, n);
        word := Shl32(word, 8);
        if buf < limit {
          word := word + mem[buf];
          buf := buf + 1;
        }
        lowBits := lowBits - 8;
        j := j + 1;
      }
      PeekTrim(d, k, j, n);
      data := Shr32(word, -lowBits);
    }

    method GetBitsNoAdvance(nBits: int) returns (data: nat)
      requires Valid()
      ensures data == Bits(View(), Pos(), nBits % 32)
    {
      hide Bits, BitAt;
      ghost var d, p, c := View(), Pos(), cachedBits;
      var n := nBits % 32;
      if c >= 0 {
        CacheFirstRead(d, p, c, n);
      } else {
        ShrTwice(0, n);
        UpZero(32 - n);
      }
      data := Shr32(Shr32(iCache, 31 - n), 1);
      var lowBits := n - cachedBits;
      if lowBits > 0 {
        var low := PeekBytes(lowBits);
        if c >= 0 {
          BitsSplit(d, p, c, lowBits);
        } else {
          UpZero(lowBits);
          BitsPastEnd(d, p, n);
          BitsPastEnd(d, 8 * bytePtr, lowBits);
        }
        data := OrBits(data, low, if c >= 0 then Bits(d, p, c) else 0, lowBits);
      }
    }

    method AdvanceBitstream(nBits: int)
      requires Valid()
      modifies this
      ensures Valid() && View() == old(View())
      ensures Pos() == old(Pos()) + nBits % 32
    {
      hide Bits, BitAt;
      var n := nBits % 32;
      if n > cachedBits {
        n := n - cachedBits;
        RefillBitstreamCache();
      }
      DropFromCache(n);
    }

    /** The position is past every bit of the buffer. */
    predicate AtEnd()
      requires Valid()
      reads this
      ensures AtEnd() <==> Pos() >= 8 * |View()|
    {
      -cachedBits >= 8 * nBytes
    }

    /** The position relative to bit startOffset of byte startBuf. */
    method CalcBitsUsed(startBuf: nat, startOffset: int) returns (bitsUsed: int)
      requires Valid()
      ensures bitsUsed == Pos() - (8 * startBuf + startOffset)
    {
      bitsUsed := (bytePtr - startBuf) * 8;
      bitsUsed := bitsUsed - cachedBits;
      bitsUsed := bitsUsed - startOffset;
    }

    method ByteAlignBitstream()
      requires Valid()
      modifies this
      ensures Valid() && View() == old(View())
      ensures Pos() % 8 == 0 && old(Pos()) <= Pos() < old(Pos()) + 8
    {
      hide Bits, BitAt, CacheWord;
      var offset := cachedBits % 8;
      AdvanceBitstream(offset);
    }
  }
}
