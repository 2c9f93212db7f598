/** The format's definitions, which both ends share, against the rules, tables and examples of RFC 1951. */
module Rfc1951 {
  import opened Bits
  import opened Canonical
  import opened Format
  import opened Machine

  // ----- section 3.2.2: the two rules, and the example -----

  /** Codes of one length are consecutive in the order of their symbols. */
  lemma Consecutive(lens: seq<nat>, s: nat, t: nat)
    requires s < t < |lens| && lens[s] == lens[t] && forall i :: s < i < t ==> lens[i] != lens[s]
    ensures Code(lens, t) == Code(lens, s) + 1
  {
    var l := lens[s];
    assert lens[..t] == lens[..s + 1] + lens[s + 1..t];
    CountSplit(lens[..s + 1], lens[s + 1..t], l);
    NoneOf(lens[s + 1..t], l);
    CountStep(lens, s);
  }

  lemma {:induction false} NoneOf(s: seq<nat>, l: nat)
    requires forall i :: 0 <= i < |s| ==> s[i] != l
    ensures Count(s, l) == 0
  {
    if s != [] {
      NoneOf(s[..|s| - 1], l);
    }
  }

  /** A shorter code comes before a longer one: it is less than the start of the same length of that. */
  lemma ShorterFirst(lens: seq<nat>, s: nat, t: nat)
    requires s < |lens| && t < |lens| && 0 < lens[s] < lens[t]
    ensures Code(lens, s) < Shr(Code(lens, t), lens[t] - lens[s])
  {
    CodeInRange(lens, s);
    CodeInRange(lens, t);
    NextCodeAbove(lens, lens[s], lens[t]);
    ShrMono(NextCode(lens, lens[t]), Code(lens, t), lens[t] - lens[s]);
  }

  /** The first code is all zeros. */
  lemma FirstIsZero(lens: seq<nat>, s: nat)
    requires s < |lens| && lens[s] > 0
    requires forall i :: 0 <= i < |lens| && lens[i] > 0 ==> lens[s] < lens[i] || (lens[s] == lens[i] && s <= i)
    ensures Code(lens, s) == 0
  {
    NothingBelow(lens, lens[s]);
    NoneOf(lens[..s], lens[s]);
  }

  lemma {:induction false} NothingBelow(lens: seq<nat>, l: nat)
    requires forall i :: 0 <= i < |lens| && lens[i] > 0 ==> l <= lens[i]
    ensures NextCode(lens, l) == 0
  {
    if l > 1 {
      NothingBelow(lens, l - 1);
      NoneOf(lens, l - 1);
    }
  }

  /** The lengths (3, 3, 3, 3, 3, 2, 4, 4) of the symbols A to H give the codes 010, 011, 100, 101, 110, 00, 1110
      and 1111. */
  lemma Example()
    ensures var lens := [3, 3, 3, 3, 3, 2, 4, 4];
            && Code(lens, 0) == 2 && Code(lens, 1) == 3 && Code(lens, 2) == 4 && Code(lens, 3) == 5
               && Code(lens, 4) == 6
            && Code(lens, 5) == 0 && Code(lens, 6) == 14 && Code(lens, 7) == 15
  {
    var lens: seq<nat> := [3, 3, 3, 3, 3, 2, 4, 4];
    FirstIsZero(lens, 5);
    assert lens == Repeat(3, 5) + ([2] + Repeat(4, 2));
    forall l ensures Count(lens, l) == if l == 3 then 5 else if l == 2 then 1 else if l == 4 then 2 else 0 {
      CountSplit(Repeat(3, 5), [2] + Repeat(4, 2), l);
      CountSplit([2], Repeat(4, 2), l);
      CountRepeat(3, 5, l);
      CountRepeat(2, 1, l);
      CountRepeat(4, 2, l);
      assert [2] == Repeat(2, 1);
    }
    assert NextCode(lens, 2) == 0 && NextCode(lens, 3) == 2 && NextCode(lens, 4) == 14;
    assert lens[..0] == [] && Count(lens[..0], 3) == 0;
    Consecutive(lens, 0, 1);
    Consecutive(lens, 1, 2);
    Consecutive(lens, 2, 3);
    Consecutive(lens, 3, 4);
    NoneOf(lens[..6], 4);
    Consecutive(lens, 6, 7);
  }

  // ----- sections 3.2.5 to 3.2.7: tables -----

  /** The length symbols: eight single lengths, then four ranges for each number of extra bits, and 258 by itself. */
  lemma LengthRanges(i: nat)
    requires i < 29
    ensures LENGTH_BASE[0] == 3 && LENGTH_EXTRA[i] == if i < 8 || i == 28 then 0 else i / 4 - 1
    ensures i < 27 ==> LENGTH_BASE[i + 1] == LENGTH_BASE[i] + Pow2(LENGTH_EXTRA[i])
    ensures LENGTH_BASE[28] == 258
  {
    LengthTable(i);
  }

  /** The distance symbols: two single distances, then two ranges for each number of extra bits. */
  lemma DistRanges(i: nat)
    requires i < 30
    ensures DIST_BASE[0] == 1 && DIST_EXTRA[i] == if i < 2 then 0 else i / 2 - 1
    ensures if i < 29 then DIST_BASE[i + 1] == DIST_BASE[i] + Pow2(DIST_EXTRA[i])
        else DIST_BASE[i] + Pow2(DIST_EXTRA[i]) == 32769
  {
    DistTable(i);
    assert Pow2(13) == 8192;
  }

  /** The order of the code-length code's lengths: the repeat symbols, zero, then from eight outwards. */
  lemma Outwards(i: nat)
    requires i < 19
    ensures SWIZZLE[i] == if i < 3 then 16 + i else if i == 3 then 0 else if i % 2 == 0 then 8 + (i - 4) / 2
        else 7 - (i - 5) / 2
  {
  }

  /** What a repeat symbol stands for: the previous length 3 to 6 times, or zero 3 to 10 or 11 to 138 times. */
  lemma Repeats(p: Pack, got: seq<nat>)
    requires 16 <= p.sym < 19 && PackOk(p, got)
    ensures var n := |Unpack(p, got)| - |got|;
            && (if p.sym == 16 then 3 <= n <= 6 else if p.sym == 17 then 3 <= n <= 10 else 11 <= n <= 138)
            && Unpack(p, got) == got + Repeat(if p.sym == 16 then got[|got| - 1] else 0, n)
  {
    SmallPowers();
  }

  /** All of these numbers of repeats can be had. */
  lemma EveryRepeat(sym: nat, n: nat)
    requires 16 <= sym < 19 && (if sym == 16 then 3 <= n <= 6 else if sym == 17 then 3 <= n <= 10 else 11 <= n <= 138)
    ensures PackBase(sym) <= n && n - PackBase(sym) < Pow2(PackExtra(sym))
  {
    SmallPowers();
  }

  /** The fixed codes: 00110000 to 10111111 for 0 to 143, 110010000 to 111111111 for 144 to 255, 0000000 to
      0010111 for 256 to 279, 11000000 to 11000111 for 280 to 287; and five bits for each distance symbol. */
  lemma FixedCodes(s: nat)
    requires s < 288
    ensures FixedLit()[s] == if s < 144 then 8 else if s < 256 then 9 else if s < 280 then 7 else 8
    ensures Code(FixedLit(), s) == if s < 144 then 0x30 + s else if s < 256 then 0x190 + (s - 144) else if s < 280 then
        s - 256 else 0xC0 + (s - 280)
    ensures s < 32 ==> FixedDist()[s] == 5 && Code(FixedDist(), s) == s
  {
    FixedCounts();
    var f := FixedLit();
    assert NextCode(f, 6) == 0 by { NothingBelow(f, 6); }
    assert NextCode(f, 7) == 0 && NextCode(f, 8) == 48 && NextCode(f, 9) == 400;
    FixedBefore(s);
    if s < 32 {
      NothingBelow(FixedDist(), 5);
      assert FixedDist()[..s] == Repeat(5, s);
      CountRepeat(5, s, 5);
    }
  }

  /** How many symbols before s have a code as long. */
  lemma FixedBefore(s: nat)
    requires s < 288
    ensures Count(FixedLit()[..s], FixedLit()[s]) == if s < 144 then s else if s < 256 then s - 144
        else if s < 280 then s - 256 else 144 + (s - 280)
  {
    var f, l := FixedLit(), FixedLit()[s];
    if s < 144 {
      assert f[..s] == Repeat(8, s);
      CountRepeat(8, s, l);
    } else if s < 256 {
      assert f[..s] == Repeat(8, 144) + Repeat(9, s - 144);
      CountSplit(Repeat(8, 144), Repeat(9, s - 144), l);
      CountRepeat(8, 144, l);
      CountRepeat(9, s - 144, l);
    } else if s < 280 {
      assert f[..s] == Repeat(8, 144) + (Repeat(9, 112) + Repeat(7, s - 256));
      CountSplit(Repeat(8, 144), Repeat(9, 112) + Repeat(7, s - 256), l);
      CountSplit(Repeat(9, 112), Repeat(7, s - 256), l);
      CountRepeat(8, 144, l);
      CountRepeat(9, 112, l);
      CountRepeat(7, s - 256, l);
    } else {
      assert f[..s] == Repeat(8, 144) + (Repeat(9, 112) + (Repeat(7, 24) + Repeat(8, s - 280)));
      CountSplit(Repeat(8, 144), Repeat(9, 112) + (Repeat(7, 24) + Repeat(8, s - 280)), l);
      CountSplit(Repeat(9, 112), Repeat(7, 24) + Repeat(8, s - 280), l);
      CountSplit(Repeat(7, 24), Repeat(8, s - 280), l);
      CountRepeat(8, 144, l);
      CountRepeat(9, 112, l);
      CountRepeat(7, 24, l);
      CountRepeat(8, s - 280, l);
    }
  }

  // ----- a whole block, bit by bit -----

  lemma CodeOf(lens: seq<nat>, s: nat, c: nat, n: nat)
    requires s < |lens| && Code(lens, s) == c && lens[s] == n
    ensures SymBits(lens, s) == CodeBits(c, n)
  {
  }

  /** The fixed codes of the letter a, of length 10, of the end of the block, and of distance 1. */
  lemma SomeCodes()
    ensures FixedLit()[0x61] == 8 && FixedLit()[262] == 7 && FixedLit()[256] == 7 && FixedDist()[0] == 5
    ensures SymBits(FixedLit(), 0x61) == [true, false, false, true, false, false, false, true]
    ensures SymBits(FixedLit(), 262) == [false, false, false, false, true, true, false]
    ensures SymBits(FixedLit(), 256) == [false, false, false, false, false, false, false]
    ensures SymBits(FixedDist(), 0) == [false, false, false, false, false]
  {
    hide FixedLit, FixedDist, SymBits, Code;
    FixedCodes(0x61);
    FixedCodes(262);
    FixedCodes(256);
    FixedCodes(0);
    CodeOf(FixedLit(), 0x61, 0x91, 8);
    CodeOf(FixedLit(), 262, 6, 7);
    CodeOf(FixedLit(), 256, 0, 7);
    CodeOf(FixedDist(), 0, 0, 5);
  }

  /** Ten letters a, as two literals and a match of length 8 and distance 1. */
  function Ten(): seq<Item> {
    [Lit(0x61), Lit(0x61), Copy(5, 0, 0, 0)]
  }

  lemma TenItem()
    ensures ValidItem(Copy(5, 0, 0, 0)) && CopyLen(Copy(5, 0, 0, 0)) == 8 && CopyDist(Copy(5, 0, 0, 0)) == 1
    ensures LENGTH_EXTRA[5] == 0 && DIST_EXTRA[0] == 0 && ToBits(0, 0) == []
  {
  }

  lemma TenItemsBits()
    ensures AllCoded(Ten(), FixedLit(), FixedDist())
    ensures var a := SymBits(FixedLit(), 0x61);
            ItemsBits(Ten(), FixedLit(), FixedDist()) == a + a + (SymBits(FixedLit(), 262) + SymBits(FixedDist(), 0))
  {
    hide SymBits, FixedLit, FixedDist, ToBits, ValidItem;
    SomeCodes();
    TenItem();
    var x, y := Lit(0x61), Copy(5, 0, 0, 0);
    var s1, s2, s3 := [x], [x, x], Ten();
    assert s1[..0] == [] && s2[..1] == s1 && s3[..2] == s2 && s3[2] == y && s2[1] == x && s1[0] == x;
    assert ValidItem(x) by { LitValid(0x61); }
    var a, none := SymBits(FixedLit(), 0x61), ToBits(0, 0);
    assert ItemsBits(s1, FixedLit(), FixedDist()) == [] + a == a;
    assert ItemsBits(s2, FixedLit(), FixedDist()) == a + a;
    assert none + (SymBits(FixedDist(), 0) + none) == SymBits(FixedDist(), 0);
  }

  lemma LitValid(b: byte)
    ensures ValidItem(Lit(b))
  {
  }

  lemma TenOut()
    ensures ItemsOk(Ten(), []) && |ApplyAll(Ten(), [])| == 10 && forall i :: 0 <= i < 10 ==>
        ApplyAll(Ten(), [])[i] == 0x61
  {
    TenItem();
    hide ToBits, FixedLit, FixedDist, SymBits;
    var x, y := Lit(0x61), Copy(5, 0, 0, 0);
    var s1, s2, s3 := [x], [x, x], Ten();
    assert s1[..0] == [] && s2[..1] == s1 && s3[..2] == s2 && s3[2] == y && s2[1] == x && s1[0] == x;
    assert ItemsOk(s1[..0], []) && ApplyAll(s1[..0], []) == [];
    assert ItemsOk(s1, []) && ApplyAll(s1, []) == Apply(x, []) == [0x61];
    assert ItemsOk(s2[..1], []) && ApplyAll(s2[..1], []) == [0x61];
    assert ItemsOk(s2, []) && ApplyAll(s2, []) == Apply(x, [0x61]) == [0x61, 0x61];
    AllSame([0x61, 0x61], 0x61, 8);
  }

  lemma {:induction false} AllSame(out: seq<byte>, b: byte, len: nat)
    requires out != [] && forall i :: 0 <= i < |out| ==> out[i] == b
    ensures forall i :: 0 <= i < |out| + len ==> CopyBytes(out, 1, len)[i] == b
    decreases len
  {
    if len > 0 {
      AllSame(out + [out[|out| - 1]], b, len - 1);
    }
  }

  lemma FiveBytes(a: byte, b: byte, c: byte, d: byte, e: byte)
    ensures ByteBits([a, b, c, d, e]) == ToBits(a, 8) + ToBits(b, 8) + ToBits(c, 8) + ToBits(d, 8) + ToBits(e, 8)
  {
    hide ToBits;
    var s1, s2, s3, s4, s5 := [a], [a, b], [a, b, c], [a, b, c, d], [a, b, c, d, e];
    assert s1[..0] == [] && s2[..1] == s1 && s3[..2] == s2 && s4[..3] == s3 && s5[..4] == s4;
    assert ByteBits(s1) == [] + ToBits(a, 8) == ToBits(a, 8);
    assert ByteBits(s2) == ByteBits(s1) + ToBits(b, 8);
    assert ByteBits(s3) == ByteBits(s2) + ToBits(c, 8);
    assert ByteBits(s4) == ByteBits(s3) + ToBits(d, 8);
  }

  lemma FirstByte()
    ensures ToBits(0x4B, 8) == [true, true, false, true, false, false, true, false] && ToBits(1, 2) == [true, false]
  {
  }

  lemma SecondByte()
    ensures ToBits(0x4C, 8) == [false, false, true, true, false, false, true, false]
  {
  }

  lemma ThirdByte()
    ensures ToBits(0x84, 8) == [false, false, true, false, false, false, false, true]
  {
  }

  lemma LastBytes()
    ensures ToBits(0x01, 8) == [true, false, false, false, false, false, false, false]
    ensures ToBits(0x00, 8) == [false, false, false, false, false, false, false, false]
  {
  }

  /** The same 38 bits, by field and by byte. */
  lemma TenJoined(a: seq<bool>, len: seq<bool>, dist: seq<bool>, end: seq<bool>)
    requires a == [true, false, false, true, false, false, false, true]
        && len == [false, false, false, false, true, true, false]
    requires dist == [false, false, false, false, false] && end == [false, false, false, false, false, false, false]
    ensures [true] + ([true, false] + (a + a + (len + dist) + end))
         == [true, true, false, true, false, false, true, false] + [false, false, true, true, false, false, true, false]
          + [false, false, true, false, false, false, false, true] + [true, false, false, false, false, false, false,
              false]
          + [false, false, false, false, false, false]
  {
  }

  lemma FixedBlockBits(items: seq<Item>)
    requires BodyOk(items, FixedLit(), FixedDist(), [])
    ensures var p := Print([Chunk(Fixed(items), true)], 0);
            && p.Printed? && p.out == ApplyAll(items, [])
            && p.bits == [true] + (ToBits(1, 2) + (ItemsBits(items, FixedLit(), FixedDist()) + SymBits(FixedLit(),
               256)))
  {
    hide FixedLit, FixedDist, ItemsOk, ApplyAll, ItemsBits, SymBits, ToBits, AllCoded;
    var c := Chunk(Fixed(items), true);
    assert [c][..0] == [] && [c][0] == c;
    assert Print([], 0) == Printed([], []);
    assert [] + BlockBits(c.b, true, 0, []) == BlockBits(c.b, true, 0, []);
  }

  /** The five bytes 4B 4C 84 01 00 are the final block with fixed codes that stands for ten letters a, and padding. */
  lemma TenLetters()
    ensures var p := Print([Chunk(Fixed(Ten()), true)], 0);
            && p.Printed? && |p.bits| == 38 && p.bits == ByteBits([0x4B, 0x4C, 0x84, 0x01, 0x00])[..38]
            && |p.out| == 10 && forall i :: 0 <= i < 10 ==> p.out[i] == 0x61
  {
    hide SymBits, FixedLit, FixedDist, ItemsBits, ApplyAll, ItemsOk, ByteBits, AllCoded, ToBits, Print, Ten;
    SomeCodes();
    TenItemsBits();
    TenOut();
    FiveBytes(0x4B, 0x4C, 0x84, 0x01, 0x00);
    FirstByte();
    SecondByte();
    ThirdByte();
    LastBytes();
    FixedBlockBits(Ten());
    TenJoined(SymBits(FixedLit(), 0x61), SymBits(FixedLit(), 262), SymBits(FixedDist(), 0), SymBits(FixedLit(), 256));
  }
}
