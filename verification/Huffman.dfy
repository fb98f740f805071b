/** codec/aacdecode/huffman.c:51-104: canonical Huffman codes given by their length counts.
    Symbols are numbered in code order; `count[i]` codes have i+1 bits. */
module Huffman {
  import opened Fixed
  import opened Bitstream

  datatype HuffInfo = HuffInfo(maxBits: nat, count: seq<nat>, offset: nat)

  // ---- the code ----

  /** Number of symbols with codes of at most n bits. */
  function Cum(count: seq<nat>, n: nat): nat
    requires n <= |count|
  {
    if n == 0 then 0 else Cum(count, n - 1) + count[n - 1]
  }

  /** One past the last code of n bits; the first code of n+1 bits is twice that. */
  function Next(count: seq<nat>, n: nat): nat
    requires n <= |count|
  {
    if n == 0 then 0 else 2 * Next(count, n - 1) + count[n - 1]
  }

  /** The length of symbol s, found from n bits on. */
  function LenFrom(count: seq<nat>, s: nat, n: nat): (len: nat)
    requires n <= |count| && Cum(count, n) <= s < Cum(count, |count|)
    ensures n < len <= |count| && Cum(count, len - 1) <= s < Cum(count, len)
    decreases |count| - n
  {
    if s < Cum(count, n + 1) then n + 1 else LenFrom(count, s, n + 1)
  }

  function CodeLen(count: seq<nat>, s: nat): (len: nat)
    requires s < Cum(count, |count|)
    ensures 1 <= len <= |count| && Cum(count, len - 1) <= s < Cum(count, len)
  {
    LenFrom(count, s, 0)
  }

  /** The canonical codeword of symbol s. */
  function Code(count: seq<nat>, s: nat): nat
    requires s < Cum(count, |count|)
  {
    2 * Next(count, CodeLen(count, s) - 1) + (s - Cum(count, CodeLen(count, s) - 1))
  }

  /** The Kraft sum of the lengths up to n bits, scaled by 2^m. */
  function KraftSum(count: seq<nat>, n: nat, m: nat): nat
    requires n <= |count| && n <= m
  {
    if n == 0 then 0 else KraftSum(count, n - 1, m) + Up(count[n - 1], m - n)
  }

  /** The Kraft sum is exactly 1: every bit string starts with a codeword. */
  ghost predicate Complete(count: seq<nat>)
  {
    |count| <= 32 && KraftSum(count, |count|, |count|) == Pow2(|count|)
  }

  lemma {:induction false} KraftIsNext(count: seq<nat>, n: nat, m: nat)
    requires n <= |count| && n <= m
    ensures KraftSum(count, n, m) == Up(Next(count, n), m - n)
  {
    if n == 0 {
      UpZero(m);
    } else {
      KraftIsNext(count, n - 1, m);
      UpUp(Next(count, n - 1), 1, m - n);
      UpAdd(2 * Next(count, n - 1), count[n - 1], m - n);
      assert Up(Next(count, n - 1), 1) == 2 * Next(count, n - 1);
    }
  }

  // ---- decoding ----

  /** The top n bits of the word are the codeword of symbol s. */
  predicate StartsWith(count: seq<nat>, word: nat, n: nat, s: nat)
  {
    && s < Cum(count, |count|) && n == CodeLen(count, s) && n <= 32
    && Down(word, 32 - n) == Code(count, s)
  }

  lemma {:induction false} CumMono(count: seq<nat>, a: nat, b: nat)
    requires a <= b <= |count|
    ensures Cum(count, a) <= Cum(count, b)
  {
    if a < b { CumMono(count, a, b - 1); }
  }

  lemma LenUnique(count: seq<nat>, s: nat, n: nat)
    requires 1 <= n <= |count| && Cum(count, n - 1) <= s < Cum(count, n)
    ensures s < Cum(count, |count|) && CodeLen(count, s) == n
  {
    CumMono(count, n, |count|);
    var len := CodeLen(count, s);
    if len < n { CumMono(count, len, n - 1); }
    if n < len { CumMono(count, n, len - 1); }
  }

  /** Once the n-bit prefix is below Next, every longer prefix is below the codes of its length. */
  lemma {:induction false} StaysBelow(count: seq<nat>, word: nat, n: nat, m: nat)
    requires n < m <= |count| && m <= 32
    requires Down(word, 32 - n) < Next(count, n)
    ensures Down(word, 32 - m) < 2 * Next(count, m - 1)
  {
    DownHalf(word, 32 - m);
    if n < m - 1 {
      StaysBelow(count, word, n, m - 1);
    }
  }

  /** No codeword is a prefix of another: a word starts with at most one. */
  lemma CodewordUnique(count: seq<nat>, word: nat, n: nat, s: nat, n': nat, s': nat)
    requires StartsWith(count, word, n, s) && StartsWith(count, word, n', s')
    ensures n == n' && s == s'
  {
    if n < n' { StaysBelow(count, word, n, n'); }
    if n' < n { StaysBelow(count, word, n', n); }
  }

  /** In a complete code no prefix of maximal length lies past the last codeword. */
  lemma CompleteBound(count: seq<nat>, word: nat)
    requires Complete(count) && IsUint32(word)
    ensures Down(word, 32 - |count|) < Next(count, |count|)
  {
    KraftIsNext(count, |count|, |count|);
    Pow2Of32();
    DownBound(word, |count|, 32 - |count|);
  }

  /** A word in a complete code starts with a codeword, found from n bits on. */
  lemma {:induction false} CodewordExists(count: seq<nat>, word: nat, k: nat) returns (n: nat, s: nat)
    requires Complete(count) && IsUint32(word) && k <= |count|
    requires Next(count, k) <= Down(word, 32 - k)
    ensures StartsWith(count, word, n, s)
    decreases |count| - k
  {
    CompleteBound(count, word);
    DownHalf(word, 31 - k);
    if Down(word, 31 - k) < Next(count, k + 1) {
      n, s := k + 1, Cum(count, k) + (Down(word, 31 - k) - 2 * Next(count, k));
      LenUnique(count, s, n);
    } else {
      n, s := CodewordExists(count, word, k + 1);
    }
  }

  /** A table entry: 20 length counts, none past maxBits, forming a complete code. */
  ghost predicate ValidInfo(info: HuffInfo, tableSize: nat)
  {
    && |info.count| == 20 && info.maxBits <= 20
    && (forall i :: info.maxBits <= i < 20 ==> info.count[i] == 0)
    && Complete(info.count)
    && info.offset + Cum(info.count, 20) <= tableSize
  }

  lemma {:induction false} CumStops(info: HuffInfo, n: nat)
    requires |info.count| == 20 && info.maxBits <= n <= 20
    requires forall i :: info.maxBits <= i < 20 ==> info.count[i] == 0
    ensures Cum(info.count, n) == Cum(info.count, info.maxBits)
  {
    if n > info.maxBits { CumStops(info, n - 1); }
  }

  lemma LenAtMostMax(info: HuffInfo, s: nat)
    requires |info.count| == 20 && info.maxBits <= 20 && s < Cum(info.count, 20)
    requires forall i :: info.maxBits <= i < 20 ==> info.count[i] == 0
    ensures CodeLen(info.count, s) <= info.maxBits
  {
    var len := CodeLen(info.count, s);
    if len > info.maxBits { CumStops(info, len - 1); CumStops(info, 20); }
  }

  /** One step of the decoder at k bits: the subtraction does not wrap, and falls short of
      the count exactly when the codeword ends here. */
  lemma DecodeStep(info: HuffInfo, word: nat, k: nat)
    requires |info.count| == 20 && Complete(info.count) && IsUint32(word) && k <= 20
    requires Next(info.count, k) <= Down(word, 32 - k)
    ensures k < 20
    ensures Next(info.count, k + 1) == 2 * Next(info.count, k) + info.count[k]
    ensures Cum(info.count, k + 1) == Cum(info.count, k) + info.count[k]
    ensures 2 * Next(info.count, k) <= Down(word, 31 - k) < TWO32
  {
    CompleteBound(info.count, word);
    DownHalf(word, 31 - k);
    DownLe(word, 31 - k);
  }

  lemma DecodeDone(info: HuffInfo, word: nat, k: nat, t: nat, tableSize: nat)
    requires ValidInfo(info, tableSize) && IsUint32(word) && k < 20 && t < info.count[k]
    requires Down(word, 31 - k) == 2 * Next(info.count, k) + t
    ensures StartsWith(info.count, word, k + 1, Cum(info.count, k) + t)
    ensures k + 1 <= info.maxBits && info.offset + Cum(info.count, k) + t < tableSize
  {
    var s := Cum(info.count, k) + t;
    LenUnique(info.count, s, k + 1);
    LenAtMostMax(info, s);
  }

  /** DecodeHuffmanScalar. The result is the code length, with the symbol's table entry in
      `val`; for a complete code the timeout is never taken. */
  method DecodeHuffmanScalar(huffTab: seq<int>, info: HuffInfo, bitBuf: nat) returns (nBits: nat, val: int, ghost s: nat)
    requires ValidInfo(info, |huffTab|) && IsUint32(bitBuf)
    ensures 1 <= nBits <= info.maxBits
    ensures StartsWith(info.count, bitBuf, nBits, s)
    ensures info.offset + s < |huffTab| && val == huffTab[info.offset + s]
  {
    hide Down, Cum, Next, Complete;
    ghost var c := info.count;
    var table := info.offset;
    var start, count, shift, t, nTimeout := 0, 0, 32, 0, 1000;
    var countPtr := 0;
    DecodeStart(c, bitBuf);
    while true
      invariant 0 <= countPtr <= 20 && shift == 32 - countPtr && nTimeout == 1000 - countPtr
      invariant start + count == Next(c, countPtr) && table + count == info.offset + Cum(c, countPtr)
      invariant 0 <= count && 0 <= start && info.offset <= table
      invariant Next(c, countPtr) <= Down(bitBuf, shift)
      decreases 20 - countPtr
    {
      DecodeStep(info, bitBuf, countPtr);
      start := start + count;
      start := (2 * start) % TWO32;
      table := table + count;
      count := info.count[countPtr];
      countPtr := countPtr + 1;
      shift := shift - 1;
      t := (Shr32(bitBuf, shift) - start) % TWO32;
      nTimeout := nTimeout - 1;
      if nTimeout < 0 { assert false; }    // the original gives up with ERR_UNKNOWN here
      if t < count { break; }
    }
    s := Cum(c, countPtr - 1) + t;
    DecodeDone(info, bitBuf, countPtr - 1, t, |huffTab|);
    return countPtr, huffTab[table + t], s;
  }

  lemma DecodeStart(count: seq<nat>, word: nat)
    ensures Next(count, 0) == 0 <= Down(word, 32) && Cum(count, 0) == 0
  {
  }

  /** In a complete code every codeword fits its length. */
  lemma {:induction false} NextFits(count: seq<nat>, n: nat)
    requires Complete(count) && n <= |count|
    ensures Next(count, n) <= Pow2(n)
    decreases |count| - n
  {
    if n == |count| {
      KraftIsNext(count, n, n);
    } else {
      NextFits(count, n + 1);
    }
  }

  lemma CodeFits(info: HuffInfo, s: nat)
    requires Complete(info.count) && s < Cum(info.count, |info.count|)
    ensures Code(info.count, s) < Pow2(CodeLen(info.count, s))
  {
    NextFits(info.count, CodeLen(info.count, s));
  }

  /** Decoding inverts encoding: whatever follows the codeword of s in the word, s is decoded. */
  lemma DecodeInvertsEncode(count: seq<nat>, word: nat, s: nat, n': nat, s': nat)
    requires Complete(count) && IsUint32(word) && s < Cum(count, |count|)
    requires Down(word, 32 - CodeLen(count, s)) == Code(count, s)
    requires StartsWith(count, word, n', s')
    ensures s' == s && n' == CodeLen(count, s)
  {
    CodewordUnique(count, word, CodeLen(count, s), s, n', s');
  }
}
