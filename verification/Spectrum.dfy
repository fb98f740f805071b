/** codec/aacdecode/huffman.c:106-292: the spectral coefficient unpackers, specified as the
    inverse of a printer written from subclause 4.6.3 of ISO/IEC 14496-3. */
module Printing {
  import opened Fixed
  import opened Bitstream
  import opened Huffman

  type Bit = b: nat | b <= 1

  /** The n low bits of v, most significant first. */
  function ToBits(v: nat, n: nat): (b: seq<Bit>)
    ensures |b| == n
  {
    if n == 0 then [] else ToBits(v / 2, n - 1) + [v % 2]
  }

  /** The bits b stand in the buffer at position p. */
  ghost predicate Matches(d: seq<Byte>, p: nat, b: seq<Bit>)
  {
    forall i :: 0 <= i < |b| ==> BitAt(d, p + i) == b[i]
  }

  lemma MatchesAppend(d: seq<Byte>, p: nat, a: seq<Bit>, b: seq<Bit>)
    ensures Matches(d, p, a + b) <==> Matches(d, p, a) && Matches(d, p + |a|, b)
  {
    hide BitAt;
    var s := a + b;
    if Matches(d, p, s) {
      forall i | 0 <= i < |a| ensures BitAt(d, p + i) == a[i] { assert s[i] == a[i]; }
      forall i | 0 <= i < |b| ensures BitAt(d, p + |a| + i) == b[i] {
        assert s[|a| + i] == b[i];
        assert BitAt(d, p + (|a| + i)) == s[|a| + i];
      }
    }
    if Matches(d, p, a) && Matches(d, p + |a|, b) {
      forall i | 0 <= i < |s| ensures BitAt(d, p + i) == s[i] {
        if i >= |a| { assert BitAt(d, p + |a| + (i - |a|)) == b[i - |a|]; }
      }
    }
  }

  /** Reading back a printed number. */
  lemma {:induction false} ReadNumber(d: seq<Byte>, p: nat, v: nat, n: nat)
    requires v < Pow2(n) && Matches(d, p, ToBits(v, n))
    ensures Bits(d, p, n) == v
  {
    hide BitAt;
    if n > 0 {
      MatchesAppend(d, p, ToBits(v / 2, n - 1), [v % 2]);
      ReadNumber(d, p, v / 2, n - 1);
      assert BitAt(d, p + (n - 1) + 0) == [v % 2][0];
    }
  }

  /** The bits of symbol s's codeword. */
  function Codeword(info: HuffInfo, s: nat): seq<Bit>
    requires s < Cum(info.count, |info.count|)
  {
    ToBits(Code(info.count, s), CodeLen(info.count, s))
  }

  /** The printed codeword is what the decoder finds, and what is left is the cache behind it. */
  lemma CodewordFound(d: seq<Byte>, p: nat, m: nat, info: HuffInfo, size: nat, s: nat, n': nat, s': nat)
    requires ValidInfo(info, size) && s < Cum(info.count, |info.count|) && info.maxBits <= m <= 32
    requires Matches(d, p, Codeword(info, s))
    requires StartsWith(info.count, CacheWord(d, p, m), n', s')
    ensures s' == s && n' == |Codeword(info, s)| <= info.maxBits
    ensures CacheWord(d, p, m) < TWO32 && Shl32(CacheWord(d, p, m), n') == CacheWord(d, p + n', m - n')
  {
    hide Bits, Matches;
    var n := CodeLen(info.count, s);
    LenAtMostMax(info, s);
    CodeFits(info, s);
    ReadNumber(d, p, Code(info.count, s), n);
    CacheShr(d, p, m, n);
    CodewordUnique(info.count, CacheWord(d, p, m), n, s, n', s');
    CacheWordBound(d, p, m);
    CacheShl(d, p, m, n);
  }

  /** A peek of n bits, left-justified as the decoder does it. */
  lemma PeekWord(d: seq<Byte>, p: nat, n: nat)
    requires n <= 31
    ensures Bits(d, p, n) < TWO32
    ensures n >= 1 ==> Shl32(Bits(d, p, n), 32 - n) == CacheWord(d, p, n) < TWO32
  {
    hide Bits;
    BitsFit(d, p, n);
    CacheWordBound(d, p, n);
  }

  lemma ReadBit(d: seq<Byte>, p: nat, b: Bit)
    requires Matches(d, p, [b])
    ensures BitAt(d, p) == b && Bits(d, p, 1) == b
  {
    hide BitAt;
    assert BitAt(d, p + 0) == [b][0];
    assert Bits(d, p, 0) == 0;
  }
}

module Spectrum {
  import opened Fixed
  import opened Bitstream
  import opened Printing
  import opened Huffman
  import opened HuffTables

  // ---- the printer ----

  function SignOf(v: int): seq<Bit>
  {
    if v == 0 then [] else if v < 0 then [1] else [0]
  }

  function MagBits(v: nat): (n: nat)
    requires v >= 1
    ensures Pow2(n) <= v < Pow2(n + 1)
  {
    if v == 1 then 0 else 1 + MagBits(v / 2)
  }

  function Ones(n: nat): (b: seq<Bit>)
    ensures |b| == n
  {
    if n == 0 then [] else [1] + Ones(n - 1)
  }

  /** The escape sequence of a magnitude of 16 and more: its length in unary, then the word. */
  function EscapeOf(v: int): seq<Bit>
  {
    if Abs(v) < 16 then []
    else
      var n := MagBits(Abs(v));
      EscapeLen(Abs(v));
      Ones(n - 4) + [0] + ToBits(Abs(v) - Pow2(n), n)
  }

  lemma EscapeLen(v: nat)
    requires v >= 16
    ensures MagBits(v) >= 4 && (v <= 8191 ==> MagBits(v) <= 12)
  {
    var n := MagBits(v);
    if n < 4 { Pow2Mono(n + 1, 4); }
    UpEight(1);
    if n > 12 { Pow2Mono(13, n); assert Pow2(10) == 4 * Pow2(8) && Pow2(12) == 4 * Pow2(10); }
  }

  function Capped(v: int): nat { if Abs(v) < 16 then Abs(v) else 16 }

  function CodeBits(cb: nat, s: nat): seq<Bit>
    requires 1 <= cb <= 11 && s < SpecSize(cb)
  {
    SpecInfoValid(cb);
    Codeword(SpecInfo(cb), s)
  }

  /** The coefficients a codebook can carry. */
  predicate InBook(cb: nat, v: int)
  {
    match cb
    case 1 => -1 <= v <= 1 case 2 => -1 <= v <= 1
    case 3 => -2 <= v <= 2 case 4 => -2 <= v <= 2
    case 5 => -4 <= v <= 4 case 6 => -4 <= v <= 4
    case 7 => -7 <= v <= 7 case 8 => -7 <= v <= 7
    case 9 => -12 <= v <= 12 case 10 => -12 <= v <= 12
    case 11 => -8191 <= v <= 8191
    case _ => v == 0
  }

  function QuadSymbol(cb: nat, w: int, x: int, y: int, z: int): (s: nat)
    requires 1 <= cb <= 4 && InBook(cb, w) && InBook(cb, x) && InBook(cb, y) && InBook(cb, z)
    ensures s < 81
    ensures SpecSymbol(cb, s) == if cb <= 2 then PackQuad(true, w, x, y, z) else PackQuad(false, Abs(w), Abs(x), Abs(y), Abs(z))
  {
    hide Tab1, Tab2, Tab3, Tab4, Sym1, Sym2, Sym3, Sym4;
    match cb
    case 1 => Cover1(w, x, y, z); Sym1(3 * w + x + 4, 3 * y + z + 4)
    case 2 => Cover2(w, x, y, z); Sym2(3 * w + x + 4, 3 * y + z + 4)
    case 3 => Cover3(Abs(w), Abs(x), Abs(y), Abs(z)); Sym3(3 * Abs(w) + Abs(x), 3 * Abs(y) + Abs(z))
    case _ => Cover4(Abs(w), Abs(x), Abs(y), Abs(z)); Sym4(3 * Abs(w) + Abs(x), 3 * Abs(y) + Abs(z))
  }

  function PairSymbol(cb: nat, y: int, z: int): (s: nat)
    requires 5 <= cb <= 10 && InBook(cb, y) && InBook(cb, z)
    ensures s < SpecSize(cb)
    ensures SpecSymbol(cb, s) == if cb <= 6 then PackPair(true, y, z) else PackPair(false, Abs(y), Abs(z))
  {
    hide Tab5, Tab6, Tab7, Tab8, Tab9, Tab10, Sym5, Sym6, Sym7, Sym8, Sym9, Sym10;
    match cb
    case 5 => Cover5(y, z); Sym5(y + 4, z + 4)
    case 6 => Cover6(y, z); Sym6(y + 4, z + 4)
    case 7 => Cover7(Abs(y), Abs(z)); Sym7(Abs(y), Abs(z))
    case 8 => Cover8(Abs(y), Abs(z)); Sym8(Abs(y), Abs(z))
    case 9 => Cover9(Abs(y), Abs(z)); Sym9(Abs(y), Abs(z))
    case _ => Cover10(Abs(y), Abs(z)); Sym10(Abs(y), Abs(z))
  }

  function EscSymbol(y: int, z: int): (s: nat)
    requires InBook(11, y) && InBook(11, z)
    ensures s < 289
    ensures SpecSymbol(11, s) == PackEsc(Capped(y), Capped(z))
  {
    hide Tab11, Sym11;
    Cover11(Capped(y), Capped(z));
    Sym11(Capped(y), Capped(z))
  }

  function PrintQuad(cb: nat, v: seq<int>): seq<Bit>
    requires 1 <= cb <= 4 && |v| == 4 && forall i :: 0 <= i < 4 ==> InBook(cb, v[i])
  {
    CodeBits(cb, QuadSymbol(cb, v[0], v[1], v[2], v[3]))
    + if cb <= 2 then [] else SignOf(v[0]) + (SignOf(v[1]) + (SignOf(v[2]) + SignOf(v[3])))
  }

  function PrintPair(cb: nat, v: seq<int>): seq<Bit>
    requires 5 <= cb <= 10 && |v| == 2 && forall i :: 0 <= i < 2 ==> InBook(cb, v[i])
  {
    CodeBits(cb, PairSymbol(cb, v[0], v[1])) + if cb <= 6 then [] else SignOf(v[0]) + SignOf(v[1])
  }

  function PrintEsc(v: seq<int>): seq<Bit>
    requires |v| == 2 && InBook(11, v[0]) && InBook(11, v[1])
  {
    CodeBits(11, EscSymbol(v[0], v[1])) + (SignOf(v[0]) + SignOf(v[1])) + (EscapeOf(v[0]) + EscapeOf(v[1]))
  }

  // ---- reading one vector ----

  /** The sign-extended field of a table entry: n values from bit 2^lo up. */
  function Field(val: int, lo: int, n: int): int
    requires lo > 0 && n > 0
  {
    var f := (val / lo) % n;
    if 2 * f < n then f else f - n
  }

  /** APPLY_SIGN: negate when the top bit of the word is set. */
  function ApplySign(v: int, word: nat): int
  {
    if word >= 0x8000_0000 then -v else v
  }

  lemma TopBit(d: seq<Byte>, p: nat, c: nat)
    requires 1 <= c <= 32
    ensures CacheWord(d, p, c) >= 0x8000_0000 <==> BitAt(d, p) == 1
  {
    hide BitAt;
    CacheShr(d, p, c, 1);
    CacheWordBound(d, p, c);
    UpDown(CacheWord(d, p, c), 31);
    assert Bits(d, p, 0) == 0 && Bits(d, p, 1) == BitAt(d, p);
    Pow2Of32();
    UpOne(31);
    UpZero(31);
  }

  /** Take the sign of v from the word, if v has one. */
  method TakeSign(v: int, word: nat, ghost ok: bool, ghost t: int, ghost d: seq<Byte>, ghost p: nat, ghost c: nat)
    returns (v': int, word': nat)
    requires IsUint32(word)
    requires ok ==> v == Abs(t) && c <= 32 && word == CacheWord(d, p, c) && |SignOf(t)| <= c && Matches(d, p, SignOf(t))
    ensures IsUint32(word')
    ensures ok ==> v' == t && word' == CacheWord(d, p + |SignOf(t)|, c - |SignOf(t)|)
  {
    hide BitAt;
    v', word' := v, word;
    if v != 0 {
      if ok {
        ReadBit(d, p, SignOf(t)[0]);
        TopBit(d, p, c);
        CacheShl(d, p, c, 1);
      }
      v' := ApplySign(v, word);
      word' := Shl32(word, 1);
    }
  }

  /** Peek at one codeword and the bits behind it; `s` is the symbol expected when ok. */
  method DecodeVector(bsi: BitReader, cb: nat, extra: nat, ghost ok: bool, ghost s: nat)
    returns (val: int, bitBuf: nat, nCodeBits: nat)
    requires bsi.Valid() && 1 <= cb <= 11 && extra <= 4
    requires ok ==> s < SpecSize(cb) && Matches(bsi.View(), bsi.Pos(), CodeBits(cb, s))
    ensures IsUint32(bitBuf) && 1 <= nCodeBits <= 16
    ensures ok ==> val == SpecSymbol(cb, s) && nCodeBits == |CodeBits(cb, s)| <= SpecInfo(cb).maxBits
    ensures ok ==> bitBuf == CacheWord(bsi.View(), bsi.Pos() + nCodeBits, SpecInfo(cb).maxBits + extra - nCodeBits)
  {
    hide SpecInfo, SpecSymbol, SpecSize, HuffTabSpec, Matches, CodeBits, CacheWord, Bits, ValidInfo, StartsWith;
    SpecInfoValid(cb);
    SpecMaxBits(cb);
    var info := SpecInfo(cb);
    var maxBits := info.maxBits + extra;
    var peek := bsi.GetBitsNoAdvance(maxBits);
    ghost var d, p := bsi.View(), bsi.Pos();
    PeekWord(d, p, maxBits);
    bitBuf := Shl32(peek, 32 - maxBits);
    ghost var s';
    SpecTableSize();
    nCodeBits, val, s' := DecodeHuffmanScalar(HuffTabSpec(), info, bitBuf);
    if ok {
      CodewordRead(d, p, maxBits, cb, s, nCodeBits, s');
    }
    bitBuf := Shl32(bitBuf, nCodeBits);
  }

  lemma SpecTableSize()
    ensures |HuffTabSpec()| == 1241
  {
  }

  lemma SpecMaxBits(cb: nat)
    requires 1 <= cb <= 11
    ensures 9 <= SpecInfo(cb).maxBits <= 16
  {
  }

  /** The printed codeword is what the decoder finds, and what is left is the cache behind it. */
  lemma CodewordRead(d: seq<Byte>, p: nat, m: nat, cb: nat, s: nat, n': nat, s': nat)
    requires 1 <= cb <= 11 && s < SpecSize(cb) && SpecInfo(cb).maxBits <= m <= 32
    requires Matches(d, p, CodeBits(cb, s))
    requires StartsWith(SpecInfo(cb).count, CacheWord(d, p, m), n', s')
    ensures s' == s && n' == |CodeBits(cb, s)| <= SpecInfo(cb).maxBits
    ensures SpecInfo(cb).offset + s < 1241 && HuffTabSpec()[SpecInfo(cb).offset + s] == SpecSymbol(cb, s)
    ensures CacheWord(d, p, m) < TWO32 && Shl32(CacheWord(d, p, m), n') == CacheWord(d, p + n', m - n')
  {
    hide Bits, SpecSymbol, SpecInfo, Matches, HuffTabSpec, SpecSize;
    SpecInfoValid(cb);
    SpecTableEntry(cb, s);
    CodewordFound(d, p, m, SpecInfo(cb), 1241, s, n', s');
  }

  /** A field is the small number congruent to it. */
  lemma FieldOf(val: int, lo: int, n: int, v: int)
    requires lo > 0 && n == 8 && (val / lo) % n == v % n && -2 <= v <= 2
    ensures Field(val, lo, n) == v
  {
  }

  lemma FewNonZero(w: int, x: int, y: int, z: int)
    ensures 0 <= NonZero(w) + NonZero(x) + NonZero(y) + NonZero(z) <= 4
  {
  }

  lemma QuadFields(signed: bool, w: int, x: int, y: int, z: int, val: int)
    requires val == PackQuad(signed, w, x, y, z)
    requires -2 <= w <= 2 && -2 <= x <= 2 && -2 <= y <= 2 && -2 <= z <= 2
    ensures Field(val, 512, 8) == w && Field(val, 64, 8) == x && Field(val, 8, 8) == y && Field(val, 1, 8) == z
    ensures (val / 0x1000) % 8 == if signed then 0 else NonZero(w) + NonZero(x) + NonZero(y) + NonZero(z)
  {
    hide Field, NonZero;
    var n := if signed then 0 else NonZero(w) + NonZero(x) + NonZero(y) + NonZero(z);
    FewNonZero(w, x, y, z);
    Digits4(n, w % 8, x % 8, y % 8, z % 8);
    FieldOf(val, 512, 8, w);
    FieldOf(val, 64, 8, x);
    FieldOf(val, 8, 8, y);
    FieldOf(val, 1, 8, z);
  }

  lemma Digits4(n: nat, a: nat, b: nat, c: nat, e: nat)
    requires n < 8 && a < 8 && b < 8 && c < 8 && e < 8
    ensures var val := n * 0x1000 + a * 512 + b * 64 + c * 8 + e;
      val % 8 == e && (val / 8) % 8 == c && (val / 64) % 8 == b && (val / 512) % 8 == a && (val / 0x1000) % 8 == n
  {
    var val := n * 0x1000 + a * 512 + b * 64 + c * 8 + e;
    assert val / 8 == n * 512 + a * 64 + b * 8 + c;
    assert val / 64 == n * 64 + a * 8 + b;
    assert val / 512 == n * 8 + a;
    assert val / 0x1000 == n;
  }

  lemma PairFields(signed: bool, y: int, z: int, val: int)
    requires val == PackPair(signed, y, z) && -12 <= y <= 12 && -12 <= z <= 12
    ensures Field(val, 32, 32) == y && Field(val, 1, 32) == z
    ensures (val / 0x400) % 4 == if signed then 0 else NonZero(y) + NonZero(z)
  {
    var n := if signed then 0 else NonZero(y) + NonZero(z);
    var a, b := y % 32, z % 32;
    assert val == n * 0x400 + a * 32 + b;
    assert val / 32 == n * 32 + a;
  }

  lemma EscFields(y: nat, z: nat)
    requires y <= 16 && z <= 16
    ensures Field(PackEsc(y, z), 64, 64) == y && Field(PackEsc(y, z), 1, 64) == z
    ensures (PackEsc(y, z) / 0x1000) % 4 == NonZero(y) + NonZero(z)
  {
    var n, val := NonZero(y) + NonZero(z), PackEsc(y, z);
    assert y % 64 == y && z % 64 == z;
    assert val == n * 0x1000 + y * 64 + z;
    assert val / 64 == n * 64 + y;
    assert val / 0x1000 == n;
  }

  predicate QuadIn(cb: nat, v: seq<int>)
  {
    1 <= cb <= 4 && |v| == 4 && InBook(cb, v[0]) && InBook(cb, v[1]) && InBook(cb, v[2]) && InBook(cb, v[3])
  }

  predicate PairIn(cb: nat, v: seq<int>)
  {
    5 <= cb <= 10 && |v| == 2 && InBook(cb, v[0]) && InBook(cb, v[1])
  }

  /** The signs of a quad, one bit for each coefficient that is not zero. */
  method TakeQuadSigns(w: int, x: int, y: int, z: int, word: nat,
                       ghost ok: bool, ghost t: seq<int>, ghost d: seq<Byte>, ghost p: nat, ghost c: nat)
    returns (w': int, x': int, y': int, z': int)
    requires IsUint32(word)
    requires ok ==> |t| == 4 && [w, x, y, z] == [Abs(t[0]), Abs(t[1]), Abs(t[2]), Abs(t[3])]
    requires ok ==> 4 <= c <= 32 && word == CacheWord(d, p, c)
    requires ok ==> Matches(d, p, SignOf(t[0]) + (SignOf(t[1]) + (SignOf(t[2]) + SignOf(t[3]))))
    ensures ok ==> [w', x', y', z'] == t
  {
    hide Matches, CacheWord;
    ghost var s := if ok then t else [0, 0, 0, 0];
    ghost var n0, n1, n2 := |SignOf(s[0])|, |SignOf(s[1])|, |SignOf(s[2])|;
    ghost var c' := if ok then c else 4;
    if ok {
      MatchesAppend(d, p, SignOf(t[0]), SignOf(t[1]) + (SignOf(t[2]) + SignOf(t[3])));
      MatchesAppend(d, p + n0, SignOf(t[1]), SignOf(t[2]) + SignOf(t[3]));
      MatchesAppend(d, p + n0 + n1, SignOf(t[2]), SignOf(t[3]));
    }
    var b := word;
    w', b := TakeSign(w, b, ok, s[0], d, p, c');
    x', b := TakeSign(x, b, ok, s[1], d, p + n0, c' - n0);
    y', b := TakeSign(y, b, ok, s[2], d, p + n0 + n1, c' - n0 - n1);
    z', b := TakeSign(z, b, ok, s[3], d, p + n0 + n1 + n2, c' - n0 - n1 - n2);
  }

  /** One quad of UnpackQuads: reads v back if v is what was printed at the reader. */
  method UnpackQuad(bsi: BitReader, cb: nat, ghost v: seq<int>) returns (w: int, x: int, y: int, z: int)
    requires bsi.Valid() && 1 <= cb <= 4
    modifies bsi
    ensures bsi.Valid() && bsi.View() == old(bsi.View())
    ensures QuadIn(cb, v) && Matches(old(bsi.View()), old(bsi.Pos()), PrintQuad(cb, v)) ==>
              [w, x, y, z] == v && bsi.Pos() == old(bsi.Pos()) + |PrintQuad(cb, v)|
  {
    hide Matches, CodeBits, SpecSymbol, SpecInfo, CacheWord, Bits, PackQuad, Field, SignOf;
    ghost var d, p := bsi.View(), bsi.Pos();
    ghost var ok := QuadIn(cb, v) && Matches(d, p, PrintQuad(cb, v));
    ghost var s := if ok then QuadSymbol(cb, v[0], v[1], v[2], v[3]) else 0;
    if ok { QuadOk(d, p, cb, v); }
    var val, bitBuf, nCodeBits := DecodeVector(bsi, cb, 4, ok, s);
    w, x, y, z := Field(val, 512, 8), Field(val, 64, 8), Field(val, 8, 8), Field(val, 1, 8);
    var nSignBits := (val / 0x1000) % 8;
    bsi.AdvanceBitstream(nCodeBits + nSignBits);
    if nSignBits != 0 {
      ghost var c := if ok then SpecInfo(cb).maxBits + 4 - nCodeBits else 0;
      SpecMaxBits(cb);
      w, x, y, z := TakeQuadSigns(w, x, y, z, bitBuf, ok, v, d, p + nCodeBits, c);
    }
  }

  /** What a printed quad looks like to the unpacker. */
  lemma QuadOk(d: seq<Byte>, p: nat, cb: nat, v: seq<int>)
    requires QuadIn(cb, v) && Matches(d, p, PrintQuad(cb, v))
    ensures var s := QuadSymbol(cb, v[0], v[1], v[2], v[3]);
      var q := p + |CodeBits(cb, s)|;
      var signs := SignOf(v[0]) + (SignOf(v[1]) + (SignOf(v[2]) + SignOf(v[3])));
      var val := SpecSymbol(cb, s);
      var n := (val / 0x1000) % 8;
      && Matches(d, p, CodeBits(cb, s))
      && (n != 0 ==> Matches(d, q, signs))
      && |PrintQuad(cb, v)| == |CodeBits(cb, s)| + n
      && [Field(val, 512, 8), Field(val, 64, 8), Field(val, 8, 8), Field(val, 1, 8)]
         == if n == 0 then v else [Abs(v[0]), Abs(v[1]), Abs(v[2]), Abs(v[3])]
  {
    hide Matches, CodeBits, SpecSymbol, PackQuad, Field;
    var s := QuadSymbol(cb, v[0], v[1], v[2], v[3]);
    if cb <= 2 {
      assert PrintQuad(cb, v) == CodeBits(cb, s);
      QuadFields(true, v[0], v[1], v[2], v[3], SpecSymbol(cb, s));
    } else {
      MatchesAppend(d, p, CodeBits(cb, s), SignOf(v[0]) + (SignOf(v[1]) + (SignOf(v[2]) + SignOf(v[3]))));
      QuadFields(false, Abs(v[0]), Abs(v[1]), Abs(v[2]), Abs(v[3]), SpecSymbol(cb, s));
    }
  }

  /** The signs of a pair. */
  method TakePairSigns(y: int, z: int, word: nat,
                       ghost ok: bool, ghost t: seq<int>, ghost d: seq<Byte>, ghost p: nat, ghost c: nat)
    returns (y': int, z': int)
    requires IsUint32(word)
    requires ok ==> |t| == 2 && [y, z] == [Abs(t[0]), Abs(t[1])] && 2 <= c <= 32 && word == CacheWord(d, p, c)
    requires ok ==> Matches(d, p, SignOf(t[0]) + SignOf(t[1]))
    ensures ok ==> [y', z'] == t
  {
    hide Matches, CacheWord;
    ghost var s := if ok then t else [0, 0];
    ghost var c' := if ok then c else 2;
    if ok { MatchesAppend(d, p, SignOf(t[0]), SignOf(t[1])); }
    var b := word;
    y', b := TakeSign(y, b, ok, s[0], d, p, c');
    z', b := TakeSign(z, b, ok, s[1], d, p + |SignOf(s[0])|, c' - |SignOf(s[0])|);
  }

  /** One pair of UnpackPairsNoEsc. */
  method UnpackPair(bsi: BitReader, cb: nat, ghost v: seq<int>) returns (y: int, z: int)
    requires bsi.Valid() && 5 <= cb <= 10
    modifies bsi
    ensures bsi.Valid() && bsi.View() == old(bsi.View())
    ensures PairIn(cb, v) && Matches(old(bsi.View()), old(bsi.Pos()), PrintPair(cb, v)) ==>
              [y, z] == v && bsi.Pos() == old(bsi.Pos()) + |PrintPair(cb, v)|
  {
    hide Matches, CodeBits, SpecSymbol, SpecInfo, CacheWord, Bits, PackPair, Field, SignOf;
    ghost var d, p := bsi.View(), bsi.Pos();
    ghost var ok := PairIn(cb, v) && Matches(d, p, PrintPair(cb, v));
    ghost var s := if ok then PairSymbol(cb, v[0], v[1]) else 0;
    if ok { PairOk(d, p, cb, v); }
    var val, bitBuf, nCodeBits := DecodeVector(bsi, cb, 2, ok, s);
    y, z := Field(val, 32, 32), Field(val, 1, 32);
    var nSignBits := (val / 0x400) % 4;
    bsi.AdvanceBitstream(nCodeBits + nSignBits);
    if nSignBits != 0 {
      ghost var c := if ok then SpecInfo(cb).maxBits + 2 - nCodeBits else 0;
      SpecMaxBits(cb);
      y, z := TakePairSigns(y, z, bitBuf, ok, v, d, p + nCodeBits, c);
    }
  }

  lemma PairOk(d: seq<Byte>, p: nat, cb: nat, v: seq<int>)
    requires PairIn(cb, v) && Matches(d, p, PrintPair(cb, v))
    ensures var s := PairSymbol(cb, v[0], v[1]);
      var q := p + |CodeBits(cb, s)|;
      var val := SpecSymbol(cb, s);
      var n := (val / 0x400) % 4;
      && Matches(d, p, CodeBits(cb, s))
      && (n != 0 ==> Matches(d, q, SignOf(v[0]) + SignOf(v[1])))
      && |PrintPair(cb, v)| == |CodeBits(cb, s)| + n
      && [Field(val, 32, 32), Field(val, 1, 32)] == if n == 0 then v else [Abs(v[0]), Abs(v[1])]
  {
    hide Matches, CodeBits, SpecSymbol, PackPair, Field;
    var s := PairSymbol(cb, v[0], v[1]);
    if cb <= 6 {
      assert PrintPair(cb, v) == CodeBits(cb, s);
      PairFields(true, v[0], v[1], SpecSymbol(cb, s));
    } else {
      MatchesAppend(d, p, CodeBits(cb, s), SignOf(v[0]) + SignOf(v[1]));
      PairFields(false, Abs(v[0]), Abs(v[1]), SpecSymbol(cb, s));
    }
  }

  /** Bit k of an escape sequence: ones, then a zero after them. */
  lemma {:induction false} EscapePrefix(n: nat, k: nat, rest: seq<Bit>)
    requires k <= n
    ensures (Ones(n) + [0] + rest)[k] == if k < n then 1 else 0
  {
    var s := Ones(n) + [0] + rest;
    if n > 0 && k > 0 {
      EscapePrefix(n - 1, k - 1, rest);
      assert s == [1] + (Ones(n - 1) + [0] + rest);
    }
  }

  lemma EscapeBit(d: seq<Byte>, p: nat, v: int, k: nat)
    requires Abs(v) >= 16 && Matches(d, p, EscapeOf(v)) && 4 + k <= MagBits(Abs(v))
    ensures BitAt(d, p + k) == if 4 + k < MagBits(Abs(v)) then 1 else 0
  {
    hide BitAt;
    var n := MagBits(Abs(v));
    EscapeLen(Abs(v));
    EscapePrefix(n - 4, k, ToBits(Abs(v) - Pow2(n), n));
    assert BitAt(d, p + k) == EscapeOf(v)[k];
  }

  lemma EscapeWord(d: seq<Byte>, p: nat, v: int)
    requires Abs(v) >= 16 && Matches(d, p, EscapeOf(v))
    ensures var n := MagBits(Abs(v)); n >= 4 && Pow2(n) + Bits(d, p + n - 3, n) == Abs(v) && |EscapeOf(v)| == 2 * n - 3
  {
    hide BitAt, Bits, Matches;
    var n := MagBits(Abs(v));
    EscapeLen(Abs(v));
    MatchesAppend(d, p, Ones(n - 4) + [0], ToBits(Abs(v) - Pow2(n), n));
    ReadNumber(d, p + n - 3, Abs(v) - Pow2(n), n);
  }

  lemma ReadOne(d: seq<Byte>, p: nat)
    ensures Bits(d, p, 1) == BitAt(d, p) && (BitAt(d, p) == 1 ==> p < 8 * |d|)
  {
    assert Bits(d, p, 0) == 0;
  }

  /** The escape loop: the length in unary, then the word. */
  method ReadEscape(bsi: BitReader, ghost v: int) returns (y: int)
    requires bsi.Valid()
    modifies bsi
    ensures bsi.Valid() && bsi.View() == old(bsi.View())
    ensures 16 <= Abs(v) <= 8191 && Matches(old(bsi.View()), old(bsi.Pos()), EscapeOf(v)) ==>
              y == Abs(v) && bsi.Pos() == old(bsi.Pos()) + |EscapeOf(v)|
  {
    hide BitAt, Bits, Matches, EscapeOf, MagBits, Pow2, Up, CacheWord, Abs;
    ghost var d, p := bsi.View(), bsi.Pos();
    ghost var ok := 16 <= Abs(v) <= 8191 && Matches(d, p, EscapeOf(v));
    ghost var len := if ok then MagBits(Abs(v)) else 0;
    if ok { EscapeLen(Abs(v)); EscapeWord(d, p, v); }
    var n := 4;
    ReadOne(d, p);
    var bit := bsi.GetBits(1);
    while bit == 1
      invariant bsi.Valid() && bsi.View() == d && n >= 4 && bsi.Pos() == p + n - 3
      invariant bit == BitAt(d, p + n - 4)
      invariant ok ==> n <= len <= 12
      decreases 8 * |d| - bsi.Pos()
    {
      ReadOne(d, p + n - 4);
      if ok { EscapeBit(d, p, v, n - 4); }
      n := n + 1;
      ReadOne(d, p + n - 4);
      bit := bsi.GetBits(1);
    }
    if ok { EscapeBit(d, p, v, n - 4); }
    y := EscapeValue(bsi, n);
  }

  /** The word that follows the unary length, with its leading one put back. */
  method EscapeValue(bsi: BitReader, n: nat) returns (y: int)
    requires bsi.Valid()
    modifies bsi
    ensures bsi.Valid() && bsi.View() == old(bsi.View())
    ensures n <= 12 ==> y == Pow2(n) + Bits(old(bsi.View()), old(bsi.Pos()), n) && bsi.Pos() == old(bsi.Pos()) + n
  {
    hide BitAt, Bits, Pow2, Up, CacheWord;
    var word := bsi.GetBits(n);
    y := Shl32(1, n % 32) + word;
    if n <= 12 { SmallPower(n); }
  }

  lemma SmallPower(n: nat)
    requires n <= 12
    ensures Shl32(1, n) == Pow2(n)
  {
    UpOne(n);
    Pow2Mono(n, 24);
    Pow2Of32();
  }

  /** One pair of UnpackPairsEsc. */
  method UnpackEsc(bsi: BitReader, ghost v: seq<int>) returns (y: int, z: int)
    requires bsi.Valid()
    modifies bsi
    ensures bsi.Valid() && bsi.View() == old(bsi.View())
    ensures |v| == 2 && InBook(11, v[0]) && InBook(11, v[1])
            && Matches(old(bsi.View()), old(bsi.Pos()), PrintEsc(v)) ==>
              [y, z] == v && bsi.Pos() == old(bsi.Pos()) + |PrintEsc(v)|
  {
    hide Matches, CodeBits, SpecSymbol, SpecInfo, CacheWord, Bits, PackEsc, Field, SignOf, EscapeOf;
    ghost var d, p := bsi.View(), bsi.Pos();
    ghost var ok := |v| == 2 && InBook(11, v[0]) && InBook(11, v[1]) && Matches(d, p, PrintEsc(v));
    ghost var s := if ok then EscSymbol(v[0], v[1]) else 0;
    ghost var v0, v1 := if ok then v[0] else 0, if ok then v[1] else 0;
    if ok { EscOk(d, p, v); }
    var val, bitBuf, nCodeBits := DecodeVector(bsi, 11, 2, ok, s);
    y, z := Field(val, 64, 64), Field(val, 1, 64);
    var nSignBits := (val / 0x1000) % 4;
    bsi.AdvanceBitstream(nCodeBits + nSignBits);
    if y == 16 { y := ReadEscape(bsi, v0); }
    if z == 16 { z := ReadEscape(bsi, v1); }
    if nSignBits != 0 {
      ghost var c := if ok then SpecInfo(11).maxBits + 2 - nCodeBits else 0;
      SpecMaxBits(11);
      y, z := TakePairSigns(y, z, bitBuf, ok, v, d, p + nCodeBits, c);
    }
  }

  lemma EscOk(d: seq<Byte>, p: nat, v: seq<int>)
    requires |v| == 2 && InBook(11, v[0]) && InBook(11, v[1]) && Matches(d, p, PrintEsc(v))
    ensures var s := EscSymbol(v[0], v[1]);
      var q := p + |CodeBits(11, s)|;
      var val := SpecSymbol(11, s);
      var n := (val / 0x1000) % 4;
      && Matches(d, p, CodeBits(11, s))
      && Matches(d, q, SignOf(v[0]) + SignOf(v[1]))
      && n == |SignOf(v[0])| + |SignOf(v[1])|
      && Matches(d, q + n, EscapeOf(v[0])) && Matches(d, q + n + |EscapeOf(v[0])|, EscapeOf(v[1]))
      && |PrintEsc(v)| == |CodeBits(11, s)| + n + |EscapeOf(v[0])| + |EscapeOf(v[1])|
      && Field(val, 64, 64) == Capped(v[0]) && Field(val, 1, 64) == Capped(v[1])
      && (n == 0 ==> v == [0, 0])
      && (Abs(v[0]) < 16 ==> EscapeOf(v[0]) == []) && (Abs(v[1]) < 16 ==> EscapeOf(v[1]) == [])
  {
    hide Matches, CodeBits, SpecSymbol, PackEsc, Field;
    var s := EscSymbol(v[0], v[1]);
    var q := p + |CodeBits(11, s)|;
    var signs := SignOf(v[0]) + SignOf(v[1]);
    var escapes := EscapeOf(v[0]) + EscapeOf(v[1]);
    MatchesAppend(d, p, CodeBits(11, s) + signs, escapes);
    MatchesAppend(d, p, CodeBits(11, s), signs);
    MatchesAppend(d, q + |signs|, EscapeOf(v[0]), EscapeOf(v[1]));
    EscFields(Capped(v[0]), Capped(v[1]));
  }
}
