/** A dynamic block always fits the output buffer: its codes are nearly as cheap as any, the fixed codes included. */
module DynamicCost {
  import opened Bits
  import opened Format
  import opened Tokens
  import opened TokenBuffer
  import opened BlockWriter
  import opened SortedLengths
  import HuffmanTable
  import P = Penalty
  import Canonical

  // ----- the fixed codes as rivals -----

  lemma {:induction false} UsedLess(counts: seq<nat>, r: seq<nat>, m: nat)
    requires |counts| == |r| && forall i :: 0 <= i < |r| ==> r[i] <= m
    ensures P.KraftUsed(counts, r, m) <= KraftOf(r, m)
  {
    if r != [] {
      UsedLess(counts[..|r| - 1], r[..|r| - 1], m);
    }
  }

  lemma {:induction false} KraftRepeat(x: nat, n: nat, m: nat)
    requires x <= m
    ensures KraftOf(Repeat(x, n), m) == n * Pow2(m - x)
  {
    hide Pow2;
    if n > 0 {
      KraftRepeat(x, n - 1, m);
      assert Repeat(x, n)[..n - 1] == Repeat(x, n - 1);
      assert n * Pow2(m - x) == (n - 1) * Pow2(m - x) + Pow2(m - x);
    }
  }

  lemma FixedParts()
    ensures FixedLit() == Repeat(8, 144) + (Repeat(9, 112) + (Repeat(7, 24) + Repeat(8, 8)))
        && FixedDist() == Repeat(5, 32)
  {
  }

  lemma FixedKraft()
    ensures forall i :: 0 <= i < 288 ==> 7 <= FixedLit()[i] <= 9
    ensures KraftOf(FixedLit(), 15) == 32768 && KraftOf(FixedDist(), 15) == 32768
  {
    hide KraftOf, Repeat, FixedDist;
    FixedParts();
    KraftConcat(Repeat(8, 144), Repeat(9, 112) + (Repeat(7, 24) + Repeat(8, 8)), 15);
    KraftConcat(Repeat(9, 112), Repeat(7, 24) + Repeat(8, 8), 15);
    KraftConcat(Repeat(7, 24), Repeat(8, 8), 15);
    KraftRepeat(8, 144, 15);
    KraftRepeat(9, 112, 15);
    KraftRepeat(7, 24, 15);
    KraftRepeat(8, 8, 15);
    KraftRepeat(5, 32, 15);
    assert Pow2(6) == 64 && Pow2(7) == 128 && Pow2(8) == 256 && Pow2(10) == 1024;
  }

  lemma FixedRivals(lit: seq<nat>, dst: seq<nat>)
    requires |lit| == 288 && |dst| == 32
    ensures HuffmanTable.Rival(lit, FixedLit()) && HuffmanTable.Rival(dst, FixedDist())
  {
    hide KraftOf, P.KraftUsed;
    FixedKraft();
    UsedLess(lit, FixedLit(), 15);
    UsedLess(dst, FixedDist(), 15);
    Seven();
    assert Pow2(15) == 32768 by { assert Pow2(8) == 256; }
  }

  // ----- the bits of the tokens -----

  /** The extra bits of the tokens. */
  function Extras(s: seq<Tok>): nat
    requires ToksOk(s)
  {
    if s == [] then 0
    else
      var t := s[|s| - 1];
      Extras(s[..|s| - 1]) + (if t.TMatch? then LENGTH_EXTRA[LenSym(t.len)] + DIST_EXTRA[DistSym(t.dist)] else 0)
  }

  /** The lengths of a code in a table, which may have trailing symbols without code. */
  ghost predicate InTable(lens: seq<nat>, r: seq<nat>) {
    |lens| <= |r| && forall i :: 0 <= i < |lens| ==> lens[i] == r[i]
  }

  lemma ItemSize(t: Tok, lit: seq<nat>, dst: seq<nat>, r0: seq<nat>, r1: seq<nat>)
    requires TokOk(t) && InTable(lit, r0) && InTable(dst, r1) && |r0| == 288 && |r1| == 32 && Coded(ItemOf(t), lit, dst)
    ensures ValidItem(ItemOf(t))
    ensures |ItemBits(ItemOf(t), lit, dst)|
         == r0[LitSym(t)] + (if t.TMatch? then
             r1[DistSym(t.dist)] + LENGTH_EXTRA[LenSym(t.len)] + DIST_EXTRA[DistSym(t.dist)] else 0)
  {
    hide Canonical.SymBits, ToBits, LenSym, Tokens.DistSym;
    ItemMeans(t);
  }

  lemma {:induction false} BitsAre(s: seq<Tok>, lit: seq<nat>, dst: seq<nat>, r0: seq<nat>, r1: seq<nat>)
    requires ToksOk(s) && InTable(lit, r0) && InTable(dst, r1) && |r0| == 288 && |r1| == 32
        && AllCoded(Items(s), lit, dst)
    ensures |TokBits(s, lit, dst)| == LitLens(s, r0) + DistLens(s, r1) + Extras(s)
  {
    hide ItemBits, ItemOf, Coded, LitSym, LenSym, Tokens.DistSym, InTable, TokBits;
    if s == [] {
      NoTokens(s, lit, dst);
    } else {
      var n := |s| - 1;
      TokBitsNext(s, n, lit, dst);
      assert s[..n + 1] == s;
      BitsAre(s[..n], lit, dst, r0, r1);
      ItemSize(s[n], lit, dst, r0, r1);
    }
  }

  lemma FixedToken(t: Tok)
    requires TokOk(t)
    ensures FixedLit()[LitSym(t)] <= (if t.TLit? then 9 else 8)
    ensures t.TMatch? ==>
              LENGTH_EXTRA[LenSym(t.len)] <= 5 && DIST_EXTRA[DistSym(t.dist)] <= 13 && FixedDist()[DistSym(t.dist)] == 5
  {
    hide LenSym, Tokens.DistSym;
    if t.TMatch? {
      LengthTable(LenSym(t.len));
      DistTable(DistSym(t.dist));
    }
  }

  /** The fixed codes, and 1.1328 bits for each token on top, cost at most 1.286 bits for each bit of the code
      buffer. */
  lemma {:induction false} FixedCost(s: seq<Tok>)
    requires ToksOk(s)
    ensures 100000 * (LitLens(s, FixedLit()) + DistLens(s, FixedDist()) + Extras(s))
        + 113280 * |s| <= 128600 * (8 * Sizes(s) + |s|)
  {
    hide FixedLit, FixedDist, LitSym, LenSym, Tokens.DistSym;
    if s != [] {
      var n := |s| - 1;
      FixedCost(s[..n]);
      FixedToken(s[n]);
    }
  }

  lemma NearLit(counts: seq<nat>, sizes: seq<nat>, r: seq<nat>)
    requires |counts| == 288 && HuffmanTable.NearOptimal(counts, sizes) && HuffmanTable.Rival(counts, r)
    ensures |sizes| == 288 && |r| == 288
        && 100000 * P.Dot(counts, sizes) <= 100000 * P.Dot(counts, r) + 101952 * HuffmanTable.Total(counts)
  {
    hide P.Dot, P.KraftUsed, HuffmanTable.Total;
  }

  lemma NearDist(counts: seq<nat>, sizes: seq<nat>, r: seq<nat>)
    requires |counts| == 32 && HuffmanTable.NearOptimal(counts, sizes) && HuffmanTable.Rival(counts, r)
    ensures |sizes| == 32 && |r| == 32
        && 100000 * P.Dot(counts, sizes) <= 100000 * P.Dot(counts, r) + 11328 * HuffmanTable.Total(counts)
  {
    hide P.Dot, P.KraftUsed, HuffmanTable.Total;
  }

  lemma CountedLits(s: seq<Tok>, lit: seq<nat>, dst: seq<nat>, r: seq<nat>)
    requires Counted(s, lit, dst) && |r| == 288
    ensures |lit| == 288 && |dst| == 32 && lit[256] == 0 && HuffmanTable.Total(lit) <= |s|
        && P.Dot(lit, r) == LitLens(s, r)
  {
    hide HuffmanTable.Total, P.Dot, LitLens, DistLens;
  }

  lemma LitPart(s: seq<Tok>, lit: seq<nat>, dst: seq<nat>, r0: seq<nat>)
    requires Counted(s, lit, dst) && HuffmanTable.NearOptimal(lit[256 := 1], r0)
    ensures |r0| == 288 && 100000 * (LitLens(s, r0) + r0[256]) <= 100000 * (LitLens(s, FixedLit()) + 7)
        + 101952 * (|s| + 1)
  {
    hide HuffmanTable.Total, HuffmanTable.NearOptimal, P.Dot, LitLens, HuffmanTable.Rival, FixedLit, Counted;
    var f := FixedLit();
    CountedLits(s, lit, dst, f);
    FixedRivals(lit[256 := 1], dst);
    NearLit(lit[256 := 1], r0, f);
    CountedLits(s, lit, dst, r0);
    DotBump(lit, r0, 256);
    DotBump(lit, f, 256);
    TotalBump(lit, 256);
    EndCode();
  }

  lemma DistPart(s: seq<Tok>, lit: seq<nat>, dst: seq<nat>, r1: seq<nat>)
    requires Counted(s, lit, dst) && HuffmanTable.NearOptimal(dst, r1)
    ensures |r1| == 32 && 100000 * DistLens(s, r1) <= 100000 * DistLens(s, FixedDist())
        + 11328 * HuffmanTable.Total(dst)
  {
    hide HuffmanTable.Total, HuffmanTable.NearOptimal, P.Dot, DistLens, HuffmanTable.Rival, FixedDist;
    var g := FixedDist();
    FixedRivals(lit, dst);
    NearDist(dst, r1, g);
    assert P.Dot(dst, r1) == DistLens(s, r1) && P.Dot(dst, g) == DistLens(s, g);
  }

  lemma SizePart(s: seq<Tok>)
    requires End(s) <= CODE_BUF
    ensures 8 * Sizes(s) + |s| <= 524296
  {
    hide Sizes;
    assert s[..|s|] == s;
  }

  /** The tokens and the end of the block in tables fitted to the counts. */
  lemma FittedCost(s: seq<Tok>, lit: seq<nat>, dst: seq<nat>, r0: seq<nat>, r1: seq<nat>)
    requires Counted(s, lit, dst) && HuffmanTable.NearOptimal(lit[256 := 1], r0) && HuffmanTable.NearOptimal(dst, r1)
    requires End(s) <= CODE_BUF
    ensures |r0| == 288 && |r1| == 32
    ensures LitLens(s, r0) + r0[256] + DistLens(s, r1) + Extras(s) <= 674300
  {
    hide HuffmanTable.Total, HuffmanTable.NearOptimal, P.Dot, LitLens, DistLens, Extras, Sizes, FixedLit, FixedDist,
        End;
    LitPart(s, lit, dst, r0);
    DistPart(s, lit, dst, r1);
    SizePart(s);
    FixedCost(s);
    Budget(LitLens(s, r0), r0[256], DistLens(s, r1), Extras(s), LitLens(s, FixedLit()), DistLens(s, FixedDist()), |s|,
        HuffmanTable.Total(dst), Sizes(s));
  }

  lemma Budget(a: nat, e: nat, b: nat, x: nat, af: nat, bf: nat, n: nat, m: nat, size: nat)
    requires 100000 * (a + e) <= 100000 * (af + 7) + 101952 * (n + 1) && 100000 * b <= 100000 * bf + 11328 * m && m <= n
    requires 100000 * (af + bf + x) + 113280 * n <= 128600 * (8 * size + n) && 8 * size + n <= 524296
    ensures a + e + b + x <= 674300
  {
  }

  lemma EndCode()
    ensures FixedLit()[256] == 7
  {
  }
}
