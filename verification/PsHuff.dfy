/** codec/aacdecode/ps_syntax.c: tree-walk decoding of the parametric stereo parameters. */
module PsTrees {
  import opened Fixed

  type Table = nat -> int

  /** Entry p = 2 i + b of a tree is the child of node i on bit b: an inner node with a larger index, or
      a value less 31. up and at say which entry holds an inner node or a value. */
  predicate EntryOk(n: nat, lo: int, hi: int, t: Table, up: Table, at: Table, p: nat)
  {
    if t(p) >= 0 then p / 2 < t(p) < n && up(t(p)) == p
    else lo <= t(p) + 31 <= hi && at(t(p) + 31 - lo) == p
  }

  predicate NodeOk(t: Table, up: Table, c: nat) { 0 <= up(c) && up(c) / 2 < c && t(up(c)) == c }

  predicate LeafOk(n: nat, lo: int, t: Table, at: Table, v: int)
    requires lo <= v
  {
    0 <= at(v - lo) < 2 * n && t(at(v - lo)) == v - 31
  }

  // ---- FIidDef ----

  function FIidDef(i: nat): int
  {
    match i / 16
    case 0 => Pick(i % 16, -31, 1, 2, 3, -30, -32, 4, 5, -29, -33, 6, 7, -28, -34, 8, 9)
    case 1 => Pick(i % 16, -35, -27, -26, 10, -36, 11, -25, 12, -37, 13, -38, 14, -24, 15, 16, 17)
    case 2 => Pick(i % 16, -23, -39, 18, 19, -22, -21, 20, 21, -40, -20, 22, 23, -41, 24, 25, 26)
    case _ => Pick(i % 16, -42, -45, -44, -43, -19, 27, -18, -17)
  }

  function FIidDefUp(i: nat): int
  {
    match i / 16
    case 0 => Pick(i % 16, 0, 1, 2, 3, 6, 7, 10, 11, 14, 15, 19, 21, 23, 25, 27, 29)
    case _ => Pick(i % 16, 30, 31, 34, 35, 38, 39, 42, 43, 45, 46, 47, 53)
  }

  function FIidDefAt(i: nat): int
  {
    match i / 16
    case 0 => Pick(i % 16, 49, 50, 51, 48, 44, 40, 33, 26, 24, 20, 16, 13, 9, 5, 0, 4)
    case _ => Pick(i % 16, 8, 12, 17, 18, 22, 28, 32, 36, 37, 41, 52, 54, 55)
  }

  lemma FIidDefEntries(p: nat)
    requires p < 56
    ensures EntryOk(28, -14, 14, FIidDef, FIidDefUp, FIidDefAt, p)
  {
  }

  lemma FIidDefNodes(c: nat)
    requires 1 <= c < 28
    ensures NodeOk(FIidDef, FIidDefUp, c)
  {
  }

  lemma FIidDefLeaves(v: int)
    requires -14 <= v <= 14
    ensures LeafOk(28, -14, FIidDef, FIidDefAt, v)
  {
  }

  // ---- TIidDef ----

  function TIidDef(i: nat): int
  {
    match i / 16
    case 0 => Pick(i % 16, -31, 1, -32, 2, -30, 3, -33, 4, -29, 5, -34, 6, -28, 7, -35, 8)
    case 1 => Pick(i % 16, -27, 9, -36, 10, -26, 11, -37, 12, -25, 13, -24, 14, -38, 15, 16, 17)
    case 2 => Pick(i % 16, -23, -39, 18, 19, 20, 21, 22, 23, -22, -45, -44, -43, 24, 25, 26, 27)
    case _ => Pick(i % 16, -42, -41, -40, -21, -20, -19, -18, -17)
  }

  function TIidDefUp(i: nat): int
  {
    match i / 16
    case 0 => Pick(i % 16, 0, 1, 3, 5, 7, 9, 11, 13, 15, 17, 19, 21, 23, 25, 27, 29)
    case _ => Pick(i % 16, 30, 31, 34, 35, 36, 37, 38, 39, 44, 45, 46, 47)
  }

  function TIidDefAt(i: nat): int
  {
    match i / 16
    case 0 => Pick(i % 16, 41, 42, 43, 48, 49, 50, 33, 28, 22, 18, 14, 10, 6, 2, 0, 4)
    case _ => Pick(i % 16, 8, 12, 16, 20, 24, 26, 32, 40, 51, 52, 53, 54, 55)
  }

  lemma TIidDefEntries(p: nat)
    requires p < 56
    ensures EntryOk(28, -14, 14, TIidDef, TIidDefUp, TIidDefAt, p)
  {
  }

  lemma TIidDefNodes(c: nat)
    requires 1 <= c < 28
    ensures NodeOk(TIidDef, TIidDefUp, c)
  {
  }

  lemma TIidDefLeaves(v: int)
    requires -14 <= v <= 14
    ensures LeafOk(28, -14, TIidDef, TIidDefAt, v)
  {
  }

  // ---- FIidFine ----

  function FIidFine(i: nat): int
  {
    match i / 16
    case 0 => Pick(i % 16, 1, -31, 2, 3, 4, -32, -30, 5, -33, -29, 6, 7, -34, -28, 8, 9)
    case 1 => Pick(i % 16, -35, -27, 10, 11, -36, -26, 12, 13, -37, -25, 14, 15, -24, 16, 17, 18)
    case 2 => Pick(i % 16, 19, -39, -23, 20, 21, -38, -21, 22, 23, -40, -22, 24, -42, -20, 25, 26)
    case 3 => Pick(i % 16, 27, -41, 28, -43, -19, 29, 30, 31, 32, -45, -17, 33, 34, -44, -18, 35)
    case 4 => Pick(i % 16, 36, 37, 38, -46, -16, 39, 40, 41, 42, 43, -48, -14, 44, 45, 46, 47)
    case 5 => Pick(i % 16, 48, 49, -47, -15, -52, -10, -50, -12, -49, -13, 50, 51, 52, 53, 54, 55)
    case 6 => Pick(i % 16, 56, 57, 58, 59, -57, -56, -59, -58, -53, -9, -55, -54, -6, -5, -8, -7)
    case _ => Pick(i % 16, -2, -1, -4, -3, -61, -60, -51, -11)
  }

  function FIidFineUp(i: nat): int
  {
    match i / 16
    case 0 => Pick(i % 16, 0, 0, 2, 3, 4, 7, 10, 11, 14, 15, 18, 19, 22, 23, 26, 27)
    case 1 => Pick(i % 16, 29, 30, 31, 32, 35, 36, 39, 40, 43, 46, 47, 48, 50, 53, 54, 55)
    case 2 => Pick(i % 16, 56, 59, 60, 63, 64, 65, 66, 69, 70, 71, 72, 73, 76, 77, 78, 79)
    case _ => Pick(i % 16, 80, 81, 90, 91, 92, 93, 94, 95, 96, 97, 98, 99)
  }

  function FIidFineAt(i: nat): int
  {
    match i / 16
    case 0 => Pick(i % 16, 116, 117, 102, 103, 100, 101, 106, 107, 104, 84, 118, 86, 88, 74, 82, 67)
    case 1 => Pick(i % 16, 57, 61, 51, 44, 49, 41, 33, 37, 24, 20, 16, 12, 8, 5, 1, 6)
    case 2 => Pick(i % 16, 9, 13, 17, 21, 25, 28, 34, 42, 38, 45, 52, 62, 58, 68, 83, 75)
    case _ => Pick(i % 16, 89, 87, 119, 85, 105, 110, 111, 108, 109, 114, 115, 112, 113)
  }

  lemma FIidFineEntries0(p: nat)
    requires 0 <= p < 40
    ensures EntryOk(60, -30, 30, FIidFine, FIidFineUp, FIidFineAt, p)
  {
  }

  lemma FIidFineEntries1(p: nat)
    requires 40 <= p < 80
    ensures EntryOk(60, -30, 30, FIidFine, FIidFineUp, FIidFineAt, p)
  {
  }

  lemma FIidFineEntries2(p: nat)
    requires 80 <= p < 120
    ensures EntryOk(60, -30, 30, FIidFine, FIidFineUp, FIidFineAt, p)
  {
  }

  lemma FIidFineEntries(p: nat)
    requires p < 120
    ensures EntryOk(60, -30, 30, FIidFine, FIidFineUp, FIidFineAt, p)
  {
    hide FIidFine, FIidFineUp, FIidFineAt;
    if p < 40 { FIidFineEntries0(p); } else if p < 80 { FIidFineEntries1(p); } else { FIidFineEntries2(p); }
  }

  lemma FIidFineNodes(c: nat)
    requires 1 <= c < 60
    ensures NodeOk(FIidFine, FIidFineUp, c)
  {
  }

  lemma FIidFineLeaves(v: int)
    requires -30 <= v <= 30
    ensures LeafOk(60, -30, FIidFine, FIidFineAt, v)
  {
  }

  // ---- TIidFine ----

  function TIidFine(i: nat): int
  {
    match i / 16
    case 0 => Pick(i % 16, 1, -31, -30, 2, 3, -32, 4, 5, 6, 7, -33, -29, 8, -34, -28, 9)
    case 1 => Pick(i % 16, -35, -27, 10, 11, -26, 12, 13, 14, -37, -25, 15, 16, 17, -36, 18, -38)
    case 2 => Pick(i % 16, -24, 19, 20, 21, -22, 22, 23, 24, -39, -23, 25, 26, -20, 27, 28, 29)
    case 3 => Pick(i % 16, -41, -21, 30, 31, 32, -40, 33, -44, -18, 34, 35, 36, 37, -43, -19, 38)
    case 4 => Pick(i % 16, 39, -42, 40, 41, 42, 43, 44, 45, 46, -46, -16, 47, -45, -17, 48, 49)
    case 5 => Pick(i % 16, -52, -51, -13, -12, -50, -49, 50, 51, 52, 53, 54, 55, 56, -48, -14, 57)
    case 6 => Pick(i % 16, 58, -47, -15, 59, -57, -5, -59, -58, -2, -1, -4, -3, -61, -60, -56, -6)
    case _ => Pick(i % 16, -55, -7, -54, -8, -53, -9, -11, -10)
  }

  function TIidFineUp(i: nat): int
  {
    match i / 16
    case 0 => Pick(i % 16, 0, 0, 3, 4, 6, 7, 8, 9, 12, 15, 18, 19, 21, 22, 23, 26)
    case 1 => Pick(i % 16, 27, 28, 30, 33, 34, 35, 37, 38, 39, 42, 43, 45, 46, 47, 50, 51)
    case 2 => Pick(i % 16, 52, 54, 57, 58, 59, 60, 63, 64, 66, 67, 68, 69, 70, 71, 72, 75)
    case _ => Pick(i % 16, 78, 79, 86, 87, 88, 89, 90, 91, 92, 95, 96, 99)
  }

  function TIidFineAt(i: nat): int
  {
    match i / 16
    case 0 => Pick(i % 16, 108, 109, 102, 103, 100, 110, 112, 114, 116, 80, 81, 84, 85, 93, 97, 73)
    case 1 => Pick(i % 16, 76, 55, 61, 65, 48, 53, 40, 31, 24, 29, 16, 13, 10, 5, 1, 2)
    case 2 => Pick(i % 16, 11, 14, 17, 20, 25, 32, 41, 36, 49, 44, 62, 56, 77, 74, 98, 94)
    case _ => Pick(i % 16, 82, 83, 118, 119, 117, 115, 113, 111, 101, 106, 107, 104, 105)
  }

  lemma TIidFineEntries0(p: nat)
    requires 0 <= p < 40
    ensures EntryOk(60, -30, 30, TIidFine, TIidFineUp, TIidFineAt, p)
  {
  }

  lemma TIidFineEntries1(p: nat)
    requires 40 <= p < 80
    ensures EntryOk(60, -30, 30, TIidFine, TIidFineUp, TIidFineAt, p)
  {
  }

  lemma TIidFineEntries2(p: nat)
    requires 80 <= p < 120
    ensures EntryOk(60, -30, 30, TIidFine, TIidFineUp, TIidFineAt, p)
  {
  }

  lemma TIidFineEntries(p: nat)
    requires p < 120
    ensures EntryOk(60, -30, 30, TIidFine, TIidFineUp, TIidFineAt, p)
  {
    hide TIidFine, TIidFineUp, TIidFineAt;
    if p < 40 { TIidFineEntries0(p); } else if p < 80 { TIidFineEntries1(p); } else { TIidFineEntries2(p); }
  }

  lemma TIidFineNodes(c: nat)
    requires 1 <= c < 60
    ensures NodeOk(TIidFine, TIidFineUp, c)
  {
  }

  lemma TIidFineLeaves(v: int)
    requires -30 <= v <= 30
    ensures LeafOk(60, -30, TIidFine, TIidFineAt, v)
  {
  }

  // ---- FIcc ----

  function FIcc(i: nat): int
  {
    match i / 16
    case 0 => Pick(i % 16, -31, 1, -30, 2, -32, 3, -29, 4, -33, 5, -28, 6, -34, 7, -27, 8)
    case _ => Pick(i % 16, -26, 9, -35, 10, -25, 11, -36, 12, -24, 13, -37, -38)
  }

  function FIccUp(i: nat): int { Pick(i, 0, 1, 3, 5, 7, 9, 11, 13, 15, 17, 19, 21, 23, 25) }

  function FIccAt(i: nat): int { Pick(i, 27, 26, 22, 18, 12, 8, 4, 0, 2, 6, 10, 14, 16, 20, 24) }

  lemma FIccEntries(p: nat)
    requires p < 28
    ensures EntryOk(14, -7, 7, FIcc, FIccUp, FIccAt, p)
  {
  }

  lemma FIccNodes(c: nat)
    requires 1 <= c < 14
    ensures NodeOk(FIcc, FIccUp, c)
  {
  }

  lemma FIccLeaves(v: int)
    requires -7 <= v <= 7
    ensures LeafOk(14, -7, FIcc, FIccAt, v)
  {
  }

  // ---- TIcc ----

  function TIcc(i: nat): int
  {
    match i / 16
    case 0 => Pick(i % 16, -31, 1, -30, 2, -32, 3, -29, 4, -33, 5, -28, 6, -34, 7, -27, 8)
    case _ => Pick(i % 16, -35, 9, -26, 10, -36, 11, -25, 12, -37, 13, -38, -24)
  }

  function TIccUp(i: nat): int { Pick(i, 0, 1, 3, 5, 7, 9, 11, 13, 15, 17, 19, 21, 23, 25) }

  function TIccAt(i: nat): int { Pick(i, 26, 24, 20, 16, 12, 8, 4, 0, 2, 6, 10, 14, 18, 22, 27) }

  lemma TIccEntries(p: nat)
    requires p < 28
    ensures EntryOk(14, -7, 7, TIcc, TIccUp, TIccAt, p)
  {
  }

  lemma TIccNodes(c: nat)
    requires 1 <= c < 14
    ensures NodeOk(TIcc, TIccUp, c)
  {
  }

  lemma TIccLeaves(v: int)
    requires -7 <= v <= 7
    ensures LeafOk(14, -7, TIcc, TIccAt, v)
  {
  }

  // ---- FIpd ----

  function FIpd(i: nat): int { Pick(i, 1, -31, 2, 3, -30, 4, 5, 6, -27, -26, -28, -25, -29, -24) }

  function FIpdUp(i: nat): int { Pick(i, 0, 0, 2, 3, 5, 6, 7) }

  function FIpdAt(i: nat): int { Pick(i, 1, 4, 12, 10, 8, 9, 11, 13) }

  lemma FIpdEntries(p: nat)
    requires p < 14
    ensures EntryOk(7, 0, 7, FIpd, FIpdUp, FIpdAt, p)
  {
  }

  lemma FIpdNodes(c: nat)
    requires 1 <= c < 7
    ensures NodeOk(FIpd, FIpdUp, c)
  {
  }

  lemma FIpdLeaves(v: int)
    requires 0 <= v <= 7
    ensures LeafOk(7, 0, FIpd, FIpdAt, v)
  {
  }

  // ---- TIpd ----

  function TIpd(i: nat): int { Pick(i, 1, -31, 2, 3, 4, 5, -30, -24, -26, 6, -29, -25, -27, -28) }

  function TIpdUp(i: nat): int { Pick(i, 0, 0, 2, 3, 4, 5, 9) }

  function TIpdAt(i: nat): int { Pick(i, 1, 6, 10, 13, 12, 8, 11, 7) }

  lemma TIpdEntries(p: nat)
    requires p < 14
    ensures EntryOk(7, 0, 7, TIpd, TIpdUp, TIpdAt, p)
  {
  }

  lemma TIpdNodes(c: nat)
    requires 1 <= c < 7
    ensures NodeOk(TIpd, TIpdUp, c)
  {
  }

  lemma TIpdLeaves(v: int)
    requires 0 <= v <= 7
    ensures LeafOk(7, 0, TIpd, TIpdAt, v)
  {
  }

  // ---- FOpd ----

  function FOpd(i: nat): int { Pick(i, 1, -31, 2, 3, -24, -30, 4, 5, -28, -25, -29, 6, -26, -27) }

  function FOpdUp(i: nat): int { Pick(i, 0, 0, 2, 3, 6, 7, 11) }

  function FOpdAt(i: nat): int { Pick(i, 1, 5, 10, 8, 13, 12, 9, 4) }

  lemma FOpdEntries(p: nat)
    requires p < 14
    ensures EntryOk(7, 0, 7, FOpd, FOpdUp, FOpdAt, p)
  {
  }

  lemma FOpdNodes(c: nat)
    requires 1 <= c < 7
    ensures NodeOk(FOpd, FOpdUp, c)
  {
  }

  lemma FOpdLeaves(v: int)
    requires 0 <= v <= 7
    ensures LeafOk(7, 0, FOpd, FOpdAt, v)
  {
  }

  // ---- TOpd ----

  function TOpd(i: nat): int { Pick(i, 1, -31, 2, 3, 4, 5, -30, -24, -26, -29, -25, 6, -27, -28) }

  function TOpdUp(i: nat): int { Pick(i, 0, 0, 2, 3, 4, 5, 11) }

  function TOpdAt(i: nat): int { Pick(i, 1, 6, 9, 13, 12, 8, 10, 7) }

  lemma TOpdEntries(p: nat)
    requires p < 14
    ensures EntryOk(7, 0, 7, TOpd, TOpdUp, TOpdAt, p)
  {
  }

  lemma TOpdNodes(c: nat)
    requires 1 <= c < 7
    ensures NodeOk(TOpd, TOpdUp, c)
  {
  }

  lemma TOpdLeaves(v: int)
    requires 0 <= v <= 7
    ensures LeafOk(7, 0, TOpd, TOpdAt, v)
  {
  }
}

module PsHuff {
  import opened Fixed
  import opened Bitstream
  import opened Printing
  import opened PsTrees

  /** A tree with its inverses, and the values lo to hi it codes. */
  datatype Book = Book(n: nat, lo: int, hi: int, t: Table, up: Table, at: Table)
  {
    ghost predicate Ok()
    {
      && n >= 1 && lo <= hi <= 30
      && (forall p: nat {:trigger t(p)} :: p < 2 * n ==> EntryOk(n, lo, hi, t, up, at, p))
      && (forall c: nat {:trigger up(c)} :: 1 <= c < n ==> NodeOk(t, up, c))
      && (forall v: int {:trigger Holds(v)} :: Holds(v) ==> LeafOk(n, lo, t, at, v))
    }

    predicate Holds(v: int) { lo <= v <= hi }

    lemma TopValue()
      requires Ok()
      ensures hi <= 30
    {
    }

    lemma Entry(i: nat, b: Bit)
      requires Ok() && i < n
      ensures EntryOk(n, lo, hi, t, up, at, 2 * i + b)
    {
    }

    lemma Node(c: nat)
      requires Ok() && 1 <= c < n
      ensures NodeOk(t, up, c)
    {
    }

    lemma Leaf(v: int)
      requires Ok() && Holds(v)
      ensures LeafOk(n, lo, t, at, v)
    {
    }

    /** The bits from the root to inner node i. */
    ghost function PathTo(i: nat): seq<Bit>
      requires Ok() && i < n
      decreases i
    {
      if i == 0 then []
      else
        Node(i);
        PathTo(up(i) / 2) + [up(i) % 2]
    }

    /** The codeword of a value: the path to its leaf. */
    ghost function Code(v: int): (b: seq<Bit>)
      requires Ok() && Holds(v)
      ensures |b| >= 1
    {
      Leaf(v);
      PathTo(at(v - lo) / 2) + [at(v - lo) % 2]
    }
  }

  /** The walk along the bits p: the node reached, or the entry of the leaf it fell off at. */
  ghost function Walk(k: Book, p: seq<Bit>): (i: int)
    requires k.Ok()
    ensures i < k.n
    decreases |p|
  {
    if p == [] then 0
    else
      var j := Walk(k, p[..|p| - 1]);
      if j < 0 then j
      else
        k.Entry(j, p[|p| - 1]);
        k.t(2 * j + p[|p| - 1])
  }

  lemma WalkStep(k: Book, p: seq<Bit>, b: Bit)
    requires k.Ok() && Walk(k, p) >= 0
    ensures Walk(k, p + [b]) == k.t(2 * Walk(k, p) + b)
  {
    assert (p + [b])[..|p|] == p;
  }

  /** Once off the tree, nothing more is read. */
  lemma {:induction false} WalkStuck(k: Book, p: seq<Bit>, n: nat)
    requires k.Ok() && n <= |p| && Walk(k, p[..n]) < 0
    ensures Walk(k, p) == Walk(k, p[..n])
    decreases |p|
  {
    if n < |p| {
      assert p[..|p| - 1][..n] == p[..n];
      WalkStuck(k, p[..|p| - 1], n);
    } else {
      assert p[..n] == p;
    }
  }

  /** The walk to an inner node is that node's own path, and no other. */
  lemma {:induction false} WalkIsPath(k: Book, p: seq<Bit>)
    requires k.Ok() && Walk(k, p) >= 0
    ensures k.PathTo(Walk(k, p)) == p
    decreases |p|
  {
    hide Book.Ok;
    if p != [] {
      var q, b := p[..|p| - 1], p[|p| - 1];
      assert p == q + [b];
      WalkIsPath(k, q);
      WalkStep(k, q, b);
      k.Entry(Walk(k, q), b);
    }
  }

  lemma WalkNone(k: Book)
    requires k.Ok()
    ensures Walk(k, []) == 0
  {
  }

  lemma {:induction false} PathIsWalk(k: Book, i: nat)
    requires k.Ok() && i < k.n
    ensures Walk(k, k.PathTo(i)) == i
    decreases i
  {
    hide Book.Ok, Walk;
    if i > 0 {
      k.Node(i);
      PathIsWalk(k, k.up(i) / 2);
      WalkStep(k, k.PathTo(k.up(i) / 2), k.up(i) % 2);
    } else {
      WalkNone(k);
    }
  }

  lemma CodeIs(k: Book, v: int)
    requires k.Ok() && k.Holds(v)
    ensures LeafOk(k.n, k.lo, k.t, k.at, v)
    ensures k.Code(v) == k.PathTo(k.at(v - k.lo) / 2) + [k.at(v - k.lo) % 2]
  {
    hide Book.PathTo;
    k.Leaf(v);
  }

  lemma FallsOff(k: Book, i: nat, b: Bit, p: seq<Bit>)
    requires k.Ok() && i < k.n && k.t(2 * i + b) < 0 && p == k.PathTo(i) + [b]
    ensures |p| >= 1 && Walk(k, p[..|p| - 1]) >= 0 && Walk(k, p) == k.t(2 * i + b)
  {
    hide Book.Ok, Walk, Book.PathTo;
    PathIsWalk(k, i);
    WalkStep(k, k.PathTo(i), b);
    assert p[..|p| - 1] == k.PathTo(i);
  }

  lemma Halves(n: nat, p: int)
    requires 0 <= p < 2 * n
    ensures 0 <= p / 2 < n && 2 * (p / 2) + p % 2 == p
  {
  }

  /** The walk along a value's codeword falls off at that value, and on no shorter part of it. */
  lemma CodeIsWalk(k: Book, v: int)
    requires k.Ok() && k.Holds(v)
    ensures var c := k.Code(v); Walk(k, c[..|c| - 1]) >= 0 && Walk(k, c) == v - 31 && v - 31 < 0
  {
    hide Book.Ok, Walk, Book.Code, Book.PathTo;
    k.TopValue();
    CodeIs(k, v);
    Halves(k.n, k.at(v - k.lo));
    FallsOff(k, k.at(v - k.lo) / 2, k.at(v - k.lo) % 2, k.Code(v));
  }

  /** A walk that falls off went along the codeword of the value it fell off at. */
  lemma WalkIsCode(k: Book, p: seq<Bit>, b: Bit)
    requires k.Ok() && Walk(k, p) >= 0 && Walk(k, p + [b]) < 0
    ensures k.Holds(Walk(k, p + [b]) + 31) && k.Code(Walk(k, p + [b]) + 31) == p + [b]
  {
    hide Book.Ok, Walk;
    WalkStep(k, p, b);
    WalkIsPath(k, p);
    k.Entry(Walk(k, p), b);
  }

  /** No codeword begins another: at most one value's codeword stands at a place. */
  lemma CodeUnique(k: Book, d: seq<Byte>, pos: nat, v: int, w: int)
    requires k.Ok() && k.Holds(v) && k.Holds(w) && Matches(d, pos, k.Code(v)) && Matches(d, pos, k.Code(w))
    ensures v == w
  {
    hide BitAt, Book.Ok, Book.Code;
    if |k.Code(v)| <= |k.Code(w)| { PrefixSame(k, d, pos, v, w); } else { PrefixSame(k, d, pos, w, v); }
  }

  lemma PrefixSame(k: Book, d: seq<Byte>, pos: nat, v: int, w: int)
    requires k.Ok() && k.Holds(v) && k.Holds(w) && Matches(d, pos, k.Code(v)) && Matches(d, pos, k.Code(w))
    requires |k.Code(v)| <= |k.Code(w)|
    ensures v == w
  {
    hide BitAt, Book.Ok, Book.Code, Walk;
    var a, b := k.Code(v), k.Code(w);
    CodeIsWalk(k, v);
    CodeIsWalk(k, w);
    assert b[..|a|] == a;
    if |a| < |b| {
      assert b[..|b| - 1][..|a|] == a;
      WalkStuck(k, b[..|b| - 1], |a|);
    } else {
      assert a == b;
    }
  }

  /** ps_huff_dec. Any bits decode: the walk ends, consumes exactly one value's codeword, and returns
      that value. */
  method PsHuffDec(bsi: BitReader, k: Book) returns (v: int)
    requires bsi.Valid() && k.Ok()
    modifies bsi
    ensures bsi.Valid() && bsi.View() == old(bsi.View()) && k.Holds(v)
    ensures Matches(bsi.View(), old(bsi.Pos()), k.Code(v)) && bsi.Pos() == old(bsi.Pos()) + |k.Code(v)|
  {
    hide Bits, BitAt, CacheWord, Matches, Walk, Book.Code, Book.Holds;
    ghost var d, pos := bsi.View(), bsi.Pos();
    ghost var seen: seq<Bit> := [];
    var index: int := 0;
    StartOfWalk(k, d, pos);
    while index >= 0
      invariant bsi.Valid() && bsi.View() == d && bsi.Pos() == pos + |seen| && index < k.n
      invariant Walk(k, seen) == index && Matches(d, pos, seen)
      invariant index < 0 ==> k.Holds(index + 31) && k.Code(index + 31) == seen
      decreases if index >= 0 then k.n - index else 0
    {
      var bit := bsi.GetBits(1);
      OneBit(d, pos + |seen|, bit);
      MatchesAppend(d, pos, seen, [bit]);
      WalkStep(k, seen, bit);
      EntryBelow(k, index, bit);
      ghost var before := seen;
      seen := seen + [bit];
      index := k.t(2 * index + bit);
      if index < 0 { WalkIsCode(k, before, bit); }
    }
    v := index + 31;
  }

  lemma StartOfWalk(k: Book, d: seq<Byte>, pos: nat)
    requires k.Ok()
    ensures Walk(k, []) == 0 && Matches(d, pos, [])
  {
  }

  lemma OneBit(d: seq<Byte>, pos: nat, bit: nat)
    requires bit == Bits(d, pos, 1)
    ensures bit <= 1 && Matches(d, pos, [bit])
  {
    hide BitAt;
    assert Bits(d, pos, 0) == 0;
  }

  lemma EntryBelow(k: Book, i: nat, b: Bit)
    requires k.Ok() && i < k.n
    ensures k.t(2 * i + b) < 0 || i < k.t(2 * i + b) < k.n
  {
    k.Entry(i, b);
  }

  // ---- vectors of parameters ----

  ghost predicate AllHeld(k: Book, vals: seq<int>)
  {
    forall i :: 0 <= i < |vals| ==> k.Holds(vals[i])
  }

  ghost function PrintAll(k: Book, vals: seq<int>): seq<Bit>
    requires k.Ok() && AllHeld(k, vals)
  {
    if vals == [] then [] else PrintAll(k, vals[..|vals| - 1]) + k.Code(vals[|vals| - 1])
  }

  lemma PrintNone(k: Book, d: seq<Byte>, pos: nat, vals: seq<int>)
    requires k.Ok() && vals == []
    ensures PrintAll(k, vals) == [] && Matches(d, pos, PrintAll(k, vals))
  {
  }

  lemma PrintNext(k: Book, d: seq<Byte>, pos: nat, vals: seq<int>, v: int)
    requires k.Ok() && AllHeld(k, vals) && k.Holds(v) && Matches(d, pos, PrintAll(k, vals))
    requires Matches(d, pos + |PrintAll(k, vals)|, k.Code(v))
    ensures AllHeld(k, vals + [v]) && PrintAll(k, vals + [v]) == PrintAll(k, vals) + k.Code(v)
    ensures Matches(d, pos, PrintAll(k, vals + [v]))
  {
    hide BitAt, Book.Code, Book.Ok, Book.Holds;
    assert (vals + [v])[..|vals|] == vals;
    MatchesAppend(d, pos, PrintAll(k, vals), k.Code(v));
  }

  /** Vectors of one length are told apart by their codewords. */
  lemma {:induction false} PrintUnique(k: Book, d: seq<Byte>, pos: nat, a: seq<int>, b: seq<int>)
    requires k.Ok() && AllHeld(k, a) && AllHeld(k, b) && |a| == |b|
    requires Matches(d, pos, PrintAll(k, a)) && Matches(d, pos, PrintAll(k, b))
    ensures a == b
    decreases |a|
  {
    hide BitAt, Book.Code, Book.Ok, Book.Holds, Matches;
    if a != [] {
      var n := |a| - 1;
      MatchesAppend(d, pos, PrintAll(k, a[..n]), k.Code(a[n]));
      MatchesAppend(d, pos, PrintAll(k, b[..n]), k.Code(b[n]));
      PrintUnique(k, d, pos, a[..n], b[..n]);
      CodeUnique(k, d, pos + |PrintAll(k, a[..n])|, a[n], b[n]);
      assert a == a[..n] + [a[n]] && b == b[..n] + [b[n]];
    }
  }

  /** huff_data. The parameters read are the ones whose codewords stand in the stream, in time or in
      frequency direction. In frequency direction one is read even when none is wanted. */
  method HuffData(bsi: BitReader, dt: bool, nrPar: nat, tHuff: Book, fHuff: Book, par: array<int>, ghost vals: seq<int>)
    requires bsi.Valid() && tHuff.Ok() && fHuff.Ok() && nrPar <= par.Length && par.Length >= 1
    modifies bsi, par
    ensures bsi.Valid() && bsi.View() == old(bsi.View())
    ensures var k, n := if dt then tHuff else fHuff, if dt then nrPar else if nrPar == 0 then 1 else nrPar;
      && AllHeld(k, par[..n]) && Matches(bsi.View(), old(bsi.Pos()), PrintAll(k, par[..n]))
      && bsi.Pos() == old(bsi.Pos()) + |PrintAll(k, par[..n])|
      && (|vals| == n && AllHeld(k, vals) && Matches(bsi.View(), old(bsi.Pos()), PrintAll(k, vals)) ==> par[..n] == vals)
    ensures forall i :: 0 <= i < par.Length && i >= nrPar && i >= 1 ==> par[i] == old(par[i])
  {
    hide Bits, BitAt, CacheWord, Matches, Book.Ok, Book.Code;
    ghost var d, pos, k := bsi.View(), bsi.Pos(), if dt then tHuff else fHuff;
    var n := 0;
    PrintNone(k, d, pos, par[..0]);
    if dt {
      n := ReadPars(bsi, tHuff, 0, nrPar, par, pos);
    } else {
      n := ReadPars(bsi, fHuff, 0, 1, par, pos);
      n := ReadPars(bsi, fHuff, 1, nrPar, par, pos);
    }
    if |vals| == n && AllHeld(k, vals) && Matches(d, pos, PrintAll(k, vals)) {
      PrintUnique(k, d, pos, par[..n], vals);
    }
  }

  /** One loop of huff_data: parameters from index from up to nrPar. */
  method ReadPars(bsi: BitReader, k: Book, from: nat, nrPar: nat, par: array<int>, ghost pos: nat) returns (n: nat)
    requires bsi.Valid() && k.Ok() && from <= par.Length && nrPar <= par.Length
    requires AllHeld(k, par[..from]) && Matches(bsi.View(), pos, PrintAll(k, par[..from]))
    requires bsi.Pos() == pos + |PrintAll(k, par[..from])|
    modifies bsi, par
    ensures bsi.Valid() && bsi.View() == old(bsi.View()) && n == if from <= nrPar then nrPar else from
    ensures AllHeld(k, par[..n]) && Matches(bsi.View(), pos, PrintAll(k, par[..n]))
    ensures bsi.Pos() == pos + |PrintAll(k, par[..n])|
    ensures forall i :: 0 <= i < par.Length && !(from <= i < n) ==> par[i] == old(par[i])
  {
    hide Bits, BitAt, CacheWord, Matches, Book.Ok, Book.Code, PrintAll;
    ghost var d := bsi.View();
    n := from;
    while n < nrPar
      invariant from <= n && (n <= nrPar || n == from) && bsi.Valid() && bsi.View() == d
      invariant AllHeld(k, par[..n]) && Matches(d, pos, PrintAll(k, par[..n])) && bsi.Pos() == pos + |PrintAll(k, par[..n])|
      invariant forall i :: 0 <= i < par.Length && !(from <= i < n) ==> par[i] == old(par[i])
    {
      ghost var before := par[..n];
      var v := PsHuffDec(bsi, k);
      par[n] := v;
      PrintNext(k, d, pos, before, v);
      assert par[..n + 1] == before + [v];
      n := n + 1;
    }
  }

  // ---- the ten trees ----

  /** The trees of the source, in its order. */
  function Tree(i: nat): Book
    requires i < 10
  {
    match i
    case 0 => Book(28, -14, 14, FIidDef, FIidDefUp, FIidDefAt)
    case 1 => Book(28, -14, 14, TIidDef, TIidDefUp, TIidDefAt)
    case 2 => Book(60, -30, 30, FIidFine, FIidFineUp, FIidFineAt)
    case 3 => Book(60, -30, 30, TIidFine, TIidFineUp, TIidFineAt)
    case 4 => Book(14, -7, 7, FIcc, FIccUp, FIccAt)
    case 5 => Book(14, -7, 7, TIcc, TIccUp, TIccAt)
    case 6 => Book(7, 0, 7, FIpd, FIpdUp, FIpdAt)
    case 7 => Book(7, 0, 7, TIpd, TIpdUp, TIpdAt)
    case 8 => Book(7, 0, 7, FOpd, FOpdUp, FOpdAt)
    case _ => Book(7, 0, 7, TOpd, TOpdUp, TOpdAt)
  }

  /** Every tree codes a range of consecutive values, each by exactly one leaf, its inner children have
      larger indices than their parents, and every inner node has exactly one parent. */
  lemma TreesOk(i: nat)
    requires i < 10
    ensures Tree(i).Ok()
  {
    hide EntryOk, NodeOk, LeafOk;
    var k := Tree(i);
    forall p: nat | p < 2 * k.n ensures EntryOk(k.n, k.lo, k.hi, k.t, k.up, k.at, p) { TreeEntries(i, p); }
    forall c: nat | 1 <= c < k.n ensures NodeOk(k.t, k.up, c) { TreeNodes(i, c); }
    forall v | k.Holds(v) ensures LeafOk(k.n, k.lo, k.t, k.at, v) { TreeLeaves(i, v); }
  }

  lemma TreeEntries(i: nat, p: nat)
    requires i < 10 && p < 2 * Tree(i).n
    ensures var k := Tree(i); EntryOk(k.n, k.lo, k.hi, k.t, k.up, k.at, p)
  {
    hide EntryOk;
    if i == 0 { FIidDefEntries(p); }
    else if i == 1 { TIidDefEntries(p); }
    else if i == 2 { FIidFineEntries(p); }
    else if i == 3 { TIidFineEntries(p); }
    else if i == 4 { FIccEntries(p); }
    else if i == 5 { TIccEntries(p); }
    else if i == 6 { FIpdEntries(p); }
    else if i == 7 { TIpdEntries(p); }
    else if i == 8 { FOpdEntries(p); }
    else { TOpdEntries(p); }
  }

  lemma TreeNodes(i: nat, c: nat)
    requires i < 10 && 1 <= c < Tree(i).n
    ensures var k := Tree(i); NodeOk(k.t, k.up, c)
  {
    hide NodeOk;
    if i == 0 { FIidDefNodes(c); }
    else if i == 1 { TIidDefNodes(c); }
    else if i == 2 { FIidFineNodes(c); }
    else if i == 3 { TIidFineNodes(c); }
    else if i == 4 { FIccNodes(c); }
    else if i == 5 { TIccNodes(c); }
    else if i == 6 { FIpdNodes(c); }
    else if i == 7 { TIpdNodes(c); }
    else if i == 8 { FOpdNodes(c); }
    else { TOpdNodes(c); }
  }

  lemma TreeLeaves(i: nat, v: int)
    requires i < 10 && Tree(i).Holds(v)
    ensures var k := Tree(i); LeafOk(k.n, k.lo, k.t, k.at, v)
  {
    hide LeafOk;
    if i == 0 { FIidDefLeaves(v); }
    else if i == 1 { TIidDefLeaves(v); }
    else if i == 2 { FIidFineLeaves(v); }
    else if i == 3 { TIidFineLeaves(v); }
    else if i == 4 { FIccLeaves(v); }
    else if i == 5 { TIccLeaves(v); }
    else if i == 6 { FIpdLeaves(v); }
    else if i == 7 { TIpdLeaves(v); }
    else if i == 8 { FOpdLeaves(v); }
    else { TOpdLeaves(v); }
  }
}
