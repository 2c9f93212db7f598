/** Printing one block: the tokens of the code buffer with their Huffman codes, and the headers that announce the codes
    (third-party/miniz.c:988-1247). */
module BlockWriter {
  import opened Bits
  import opened Canonical
  import opened Format
  import opened Tokens
  import opened Sink
  import HuffmanTable
  import RunLengths
  import opened TokenBuffer

  /** One Huffman table: code sizes and bit-reversed codes. */
  datatype Coder = Coder(sizes: seq<nat>, codes: seq<nat>)

  /** The table holds the canonical code of these lengths. */
  ghost predicate CodesOf(c: Coder, lens: seq<nat>) {
    && |lens| <= |c.sizes| == |c.codes|
    && forall i :: 0 <= i < |lens| ==>
         c.sizes[i] == lens[i] <= MAX_LEN
             && (lens[i] > 0 ==> c.codes[i] < Pow2(lens[i]) && ToBits(c.codes[i], lens[i]) == SymBits(lens, i))
  }

  /** Send the code of a symbol. */
  method PutSymbol(w: BitSink, c: Coder, s: nat, ghost lens: seq<nat>)
    requires w.Valid() && CodesOf(c, lens) && s < |lens| && lens[s] > 0
    modifies w
    ensures w.Valid() && w.limit == old(w.limit) && old(w.bytes) <= w.bytes && w.sent == old(w.sent) + SymBits(lens, s)
  {
    w.PutBits(c.codes[s], c.sizes[s]);
  }

  lemma LowBits(v: nat, n: nat)
    ensures v % Pow2(n) < Pow2(n)
  {
  }

  /** The match that three payload bytes stand for. */
  function MatchOf(matchLen: nat, matchDist: nat): Tok {
    TMatch(matchLen + 3, matchDist + 1)
  }

  /** Send a match: length symbol, its extra bits, distance symbol, its extra bits. */
  method PutMatch(w: BitSink, lit: Coder, dst: Coder, matchLen: nat, matchDist: nat, ghost litLens: seq<nat>,
      ghost dstLens: seq<nat>)
    requires w.Valid() && CodesOf(lit, litLens) && CodesOf(dst, dstLens) && TokOk(MatchOf(matchLen, matchDist))
    requires Coded(ItemOf(MatchOf(matchLen, matchDist)), litLens, dstLens)
    modifies w
    ensures w.Valid() && w.limit == old(w.limit) && old(w.bytes) <= w.bytes
    ensures ValidItem(ItemOf(MatchOf(matchLen, matchDist)))
    ensures w.sent == old(w.sent) + ItemBits(ItemOf(MatchOf(matchLen, matchDist)), litLens, dstLens)
  {
    hide CodesOf, SymBits, ToBits, LenSym, Tokens.DistSym, Pow2;
    ghost var t := MatchOf(matchLen, matchDist);
    ItemMeans(t);
    var l, d := LenSym(matchLen + 3), Tokens.DistSym(matchDist + 1);
    LengthTable(l);
    DistTable(d);
    LowBits(matchLen, LENGTH_EXTRA[l]);
    LowBits(matchDist, DIST_EXTRA[d]);
    PutSymbol(w, lit, 257 + l, litLens);
    w.PutBits(matchLen % Pow2(LENGTH_EXTRA[l]), LENGTH_EXTRA[l]);
    PutSymbol(w, dst, d, dstLens);
    w.PutBits(matchDist % Pow2(DIST_EXTRA[d]), DIST_EXTRA[d]);
    Join4(old(w.sent), SymBits(litLens, 257 + l), ToBits(matchLen % Pow2(LENGTH_EXTRA[l]), LENGTH_EXTRA[l]),
          SymBits(dstLens, d), ToBits(matchDist % Pow2(DIST_EXTRA[d]), DIST_EXTRA[d]));
  }

  lemma Join4(s: seq<bool>, a: seq<bool>, b: seq<bool>, c: seq<bool>, d: seq<bool>)
    ensures s + a + b + c + d == s + (a + (b + (c + d)))
  {
  }

  /** A flag byte below the sentinel that ends a group of eight. */
  function Marked(v: nat): nat {
    v + 256
  }

  lemma FlagBit(v: nat, j: nat)
    requires v < 256 && j < 8
    ensures (Shr(Marked(v), j) % 2 == 1) == ToBits(v, 8)[j] && Shr(Marked(v), j) / 2 == Shr(Marked(v), j + 1)
    ensures Shr(Marked(v), j) != 1
  {
    hide ToBits, Shr;
    ShrNext(Marked(v), j);
    assert Pow2(8) == 256;
    ToBitsConcat(v, 8, 1, 1);
    ToBitsShift(Marked(v), j, 9 - j);
    assert ToBits(v, 8)[j] == ToBits(Marked(v), 9)[j] == ToBits(Shr(Marked(v), j), 9 - j)[0];
    HeadBit(Shr(Marked(v), j), 9 - j);
    Sentinel(v, j);
  }

  lemma HeadBit(x: nat, n: nat)
    requires n > 0
    ensures ToBits(x, n)[0] == (x % 2 == 1)
  {
  }

  lemma Sentinel(v: nat, j: nat)
    requires v < 256 && j <= 8
    ensures Shr(Marked(v), j) == 1 <==> j == 8
  {
    ShrLow(Marked(v), j);
    assert Pow2(0) == 1 && Pow2(1) == 2 && Pow2(2) == 4 && Pow2(3) == 8 && Pow2(4) == 16 && Pow2(5) == 32
        && Pow2(6) == 64 && Pow2(7) == 128 && Pow2(8) == 256;
  }

  // ----- reading the code buffer -----

  /** The reader stands before token k. */
  ghost predicate Reading(buf: seq<byte>, s: seq<Tok>, k: nat, p: nat, flags: nat) {
    && k <= |s|
    && if k % 8 == 0 then flags == 1 && p == Pos(s, k) - 1
       else p == Pos(s, k) && FlagPos(s, k) < |buf| && flags == Shr(Marked(buf[FlagPos(s, k)]), k % 8)
  }

  lemma ReadStart(buf: seq<byte>, s: seq<Tok>)
    ensures Reading(buf, s, 0, 0, 1)
  {
  }

  /** There is a token to read exactly while the end is not reached. */
  lemma ReadMore(buf: seq<byte>, s: seq<Tok>, k: nat, p: nat, flags: nat)
    requires Reading(buf, s, k, p, flags)
    ensures p < End(s) <==> k < |s|
  {
    if k < |s| {
      PosOrder(s, k, |s|);
    }
  }

  /** After the flag byte of the group, if need be, has been read. */
  ghost predicate AtToken(buf: seq<byte>, s: seq<Tok>, k: nat, p: nat, flags: nat) {
    k < |s| && p == Pos(s, k) && FlagPos(s, k) < |buf| && flags == Shr(Marked(buf[FlagPos(s, k)]), k % 8)
  }

  lemma ReadFlags(buf: seq<byte>, s: seq<Tok>, k: nat, p: nat, flags: nat)
    requires Reading(buf, s, k, p, flags) && k < |s| && Layout(buf, s, 0)
    ensures p < |buf| && if flags == 1 then AtToken(buf, s, k, p + 1, Marked(buf[p])) else AtToken(buf, s, k, p, flags)
  {
    hide ToBits, Shr;
    assert Flagged(buf, s, k, 0) && Payload(buf, Pos(s, k), s[k]);
    if k % 8 != 0 {
      Sentinel(buf[FlagPos(s, k)], k % 8);
    } else {
      NoShift(Marked(buf[p]));
    }
  }

  lemma NoShift(v: nat)
    ensures Shr(v, 0) == v
  {
  }

  /** The flag tells what the token is, and its payload what it stands for. */
  lemma ReadToken(buf: seq<byte>, s: seq<Tok>, k: nat, p: nat, flags: nat)
    requires AtToken(buf, s, k, p, flags) && Layout(buf, s, 0)
    ensures (flags % 2 == 1) == s[k].TMatch? && TokOk(s[k]) && p + Size(s[k]) <= |buf|
    ensures s[k].TLit? ==> s[k].b == buf[p]
    ensures s[k].TMatch? ==> s[k] == MatchOf(buf[p], Word(buf[p + 2], buf[p + 1]))
    ensures Reading(buf, s, k + 1, p + Size(s[k]), flags / 2)
  {
    hide ToBits, Shr, Pos, FlagPos, Reading;
    assert Flagged(buf, s, k, 0) && Payload(buf, Pos(s, k), s[k]);
    FlagBit(buf[FlagPos(s, k)], k % 8);
    ReadNext(buf, s, k, p, flags);
  }

  lemma ReadNext(buf: seq<byte>, s: seq<Tok>, k: nat, p: nat, flags: nat)
    requires AtToken(buf, s, k, p, flags)
    ensures Reading(buf, s, k + 1, p + Size(s[k]), flags / 2)
  {
    hide ToBits, Shr, Sizes;
    FlagBit(buf[FlagPos(s, k)], k % 8);
    SizesPrefix(s, k);
    var q, m := k / 8, k % 8;
    assert k == 8 * q + m;
    assert (k + 1) / 8 == if m == 7 then q + 1 else q;
    if m == 7 {
      Sentinel(buf[FlagPos(s, k)], 8);
    } else {
      assert (k + 1) % 8 == m + 1;
      assert (k + 1) - (k + 1) % 8 == k - m;
    }
  }

  /** The bits of the tokens. */
  ghost function TokBits(s: seq<Tok>, lit: seq<nat>, dst: seq<nat>): seq<bool>
    requires ToksOk(s) && AllCoded(Items(s), lit, dst)
  {
    ItemsBits(Items(s), lit, dst)
  }

  lemma TokBitsNext(s: seq<Tok>, k: nat, lit: seq<nat>, dst: seq<nat>)
    requires k < |s| && ToksOk(s) && AllCoded(Items(s), lit, dst)
    ensures AllCoded(Items(s[..k]), lit, dst) && AllCoded(Items(s[..k + 1]), lit, dst) && ValidItem(ItemOf(s[k]))
        && Coded(ItemOf(s[k]), lit, dst)
    ensures TokBits(s[..k + 1], lit, dst) == TokBits(s[..k], lit, dst) + ItemBits(ItemOf(s[k]), lit, dst)
  {
    hide ItemBits, ItemOf, Coded, ValidItem;
    var a, b := Items(s[..k]), Items(s[..k + 1]);
    assert b == a + [ItemOf(s[k])] && b[..k] == a;
    assert forall i :: 0 <= i < |b| ==> b[i] == Items(s)[i];
    assert Items(s)[k] == ItemOf(s[k]);
  }

  /** tdefl_compress_lz_codes, the byte-wise version: every token, then the end-of-block symbol. */
  method CompressLzCodes(w: BitSink, buf: array<byte>, end: nat, lit: Coder, dst: Coder, ghost s: seq<Tok>,
      ghost litLens: seq<nat>, ghost dstLens: seq<nat>)
    returns (fits: bool)
    requires w.Valid() && CodesOf(lit, litLens) && CodesOf(dst, dstLens) && ToksOk(s) && Layout(buf[..], s, 0)
        && end == End(s)
    requires AllCoded(Items(s), litLens, dstLens) && 256 < |litLens| && litLens[256] > 0
    modifies w
    ensures w.Valid() && w.limit == old(w.limit) && old(w.bytes) <= w.bytes && fits == (|w.bytes| < w.limit)
    ensures w.sent == old(w.sent) + (TokBits(s, litLens, dstLens) + SymBits(litLens, 256))
  {
    hide Layout, CodesOf, AllCoded, TokBits, Reading, AtToken, ItemBits, Coded, SymBits, ToBits, ItemOf, Word, Marked,
        Items, ByteBits, Pow2;
    var flags, p := 1, 0;
    ghost var k := 0;
    ReadStart(buf[..], s);
    NoTokens(s, litLens, dstLens);
    while p < end
      invariant 0 <= k <= |s| && 0 <= p && 0 <= flags && Reading(buf[..], s, k, p, flags)
      invariant w.Valid() && w.limit == old(w.limit) && old(w.bytes) <= w.bytes
      invariant AllCoded(Items(s[..k]), litLens, dstLens) && w.sent == old(w.sent) + TokBits(s[..k], litLens, dstLens)
      decreases |s| - k
    {
      ReadMore(buf[..], s, k, p, flags);
      ReadFlags(buf[..], s, k, p, flags);
      if flags == 1 {
        flags, p := Marked(buf[p]), p + 1;
      }
      ReadToken(buf[..], s, k, p, flags);
      TokBitsNext(s, k, litLens, dstLens);
      ghost var sent := w.sent;
      if flags % 2 == 1 {
        PutMatch(w, lit, dst, buf[p], Word(buf[p + 2], buf[p + 1]), litLens, dstLens);
        p := p + 3;
      } else {
        LiteralBits(buf[p], litLens, dstLens);
        PutSymbol(w, lit, buf[p], litLens);
        p := p + 1;
      }
      flags := flags / 2;
      assert w.sent == old(w.sent) + (TokBits(s[..k], litLens, dstLens) + ItemBits(ItemOf(s[k]), litLens, dstLens));
      k := k + 1;
    }
    ReadMore(buf[..], s, k, p, flags);
    assert s[..k] == s;
    PutSymbol(w, lit, 256, litLens);
    fits := |w.bytes| < w.limit;
  }

  lemma NoTokens(s: seq<Tok>, lit: seq<nat>, dst: seq<nat>)
    ensures AllCoded(Items(s[..0]), lit, dst) && TokBits(s[..0], lit, dst) == []
  {
  }

  lemma LiteralBits(b: byte, lit: seq<nat>, dst: seq<nat>)
    requires Coded(ItemOf(TLit(b)), lit, dst)
    ensures b < |lit| && lit[b] > 0 && ValidItem(ItemOf(TLit(b)))
        && ItemBits(ItemOf(TLit(b)), lit, dst) == SymBits(lit, b)
  {
  }

  // ----- block headers -----

  /** The smallest n from which on all sizes are zero, but at least least. */
  method Trim(sizes: seq<nat>, most: nat, least: nat) returns (n: nat)
    requires 0 < least <= most <= |sizes| && forall i :: most <= i < |sizes| ==> sizes[i] == 0
    ensures least <= n <= most && (n > least ==> sizes[n - 1] > 0) && forall i :: n <= i < |sizes| ==> sizes[i] == 0
  {
    n := most;
    while n > least && sizes[n - 1] == 0
      invariant least <= n <= most && forall i :: n <= i < |sizes| ==> sizes[i] == 0
    {
      n := n - 1;
    }
  }

  /** How many of the code-length lengths are sent: up to the last used one in their peculiar order, at least four. */
  method TrimSwizzled(cl: seq<nat>) returns (n: nat)
    requires |cl| == 19
    ensures 4 <= n <= 19 && forall i {:trigger SWIZZLE[i]} :: n <= i < 19 ==> SWIZZLE[i] < 19 && cl[SWIZZLE[i]] == 0
    ensures n > 4 ==> SWIZZLE[n - 1] < 19 && cl[SWIZZLE[n - 1]] > 0
  {
    var m := 18;
    while m >= 0
      invariant -1 <= m <= 18 && forall i {:trigger SWIZZLE[i]} :: m < i < 19 ==> SWIZZLE[i] < 19 && cl[SWIZZLE[i]] == 0
    {
      if cl[SWIZZLE[m]] != 0 { break; }
      m := m - 1;
    }
    n := if m + 1 < 4 then 4 else m + 1;
  }

  /** Send the code-length lengths. */
  method PutClSizes(w: BitSink, cl: seq<nat>, n: nat)
    requires w.Valid() && |cl| == 19 && n <= 19 && forall i :: 0 <= i < 19 ==> cl[i] < 8
    modifies w
    ensures w.Valid() && w.limit == old(w.limit) && old(w.bytes) <= w.bytes && w.sent == old(w.sent) + ClBits(cl, n)
  {
    hide ToBits;
    assert Pow2(3) == 8;
    for i := 0 to n
      invariant w.Valid() && w.limit == old(w.limit) && old(w.bytes) <= w.bytes && w.sent == old(w.sent) + ClBits(cl, i)
    {
      w.PutBits(cl[SWIZZLE[i]], 3);
    }
  }

  lemma FlatPrefix(p: seq<Pack>, k: nat)
    requires k < |p|
    ensures RunLengths.Flat(p[..k + 1]) == RunLengths.Flat(p[..k]) + (if p[k].sym < 16 then [p[k].sym]
        else [p[k].sym, p[k].extra])
    ensures |RunLengths.Flat(p[..k + 1])| <= |RunLengths.Flat(p)| && RunLengths.Flat(p[..k + 1]) <= RunLengths.Flat(p)
  {
    assert p[..k + 1][..k] == p[..k];
    FlatGrows(p, k + 1);
  }

  lemma {:induction false} FlatGrows(p: seq<Pack>, k: nat)
    requires k <= |p|
    ensures RunLengths.Flat(p[..k]) <= RunLengths.Flat(p)
    decreases |p|
  {
    if k == |p| {
      assert p[..k] == p;
    } else {
      FlatGrows(p[..|p| - 1], k);
      assert p[..|p| - 1][..k] == p[..k];
    }
  }

  lemma {:induction false} PackAt(p: seq<Pack>, k: nat)
    requires PacksOk(p) && k < |p|
    ensures p[k].sym < 19 && p[k].extra < Pow2(PackExtra(p[k].sym))
    decreases |p|
  {
    if k < |p| - 1 {
      PackAt(p[..|p| - 1], k);
    }
  }

  lemma PacksBitsNext(p: seq<Pack>, k: nat, cl: seq<nat>)
    requires k < |p| && PacksCoded(p, cl)
    ensures PacksCoded(p[..k], cl) && PacksCoded(p[..k + 1], cl)
        && PacksBits(p[..k + 1], cl) == PacksBits(p[..k], cl) + PackBits(p[k], cl)
  {
    assert p[..k + 1][..k] == p[..k];
  }

  /** Send one packed symbol, with its repeat count. */
  method PutPack(w: BitSink, c: Coder, code: nat, extra: nat, ghost cl: seq<nat>)
    requires w.Valid() && CodesOf(c, cl) && code < 19 && code < |cl| && cl[code] > 0 && extra < Pow2(PackExtra(code))
    modifies w
    ensures w.Valid() && w.limit == old(w.limit) && old(w.bytes) <= w.bytes
        && w.sent == old(w.sent) + PackBits(Pack(code, extra), cl)
  {
    hide CodesOf, SymBits, Pow2;
    PutSymbol(w, c, code, cl);
    assert ToBits(extra, 0) == [];
    if code >= 16 {
      w.PutBits(extra, [2, 3, 7][code - 16]);
    }
  }

  /** Send the packed code lengths. */
  method PutPacked(w: BitSink, c: Coder, packed: seq<nat>, ghost p: seq<Pack>, ghost cl: seq<nat>)
    requires w.Valid() && CodesOf(c, cl) && PacksOk(p) && PacksCoded(p, cl) && packed == RunLengths.Flat(p)
    modifies w
    ensures w.Valid() && w.limit == old(w.limit) && old(w.bytes) <= w.bytes && w.sent == old(w.sent) + PacksBits(p, cl)
  {
    hide CodesOf, SymBits, PackBits, PacksOk, PacksBits, PacksCoded, RunLengths.Flat, Pow2;
    var index := 0;
    ghost var k := 0;
    NoPacks(p, cl);
    while index < |packed|
      invariant 0 <= k <= |p| && index == |RunLengths.Flat(p[..k])|
      invariant w.Valid() && w.limit == old(w.limit) && old(w.bytes) <= w.bytes
      invariant PacksCoded(p[..k], cl) && w.sent == old(w.sent) + PacksBits(p[..k], cl)
      decreases |p| - k
    {
      assert p[..|p|] == p;
      FlatPrefix(p, k);
      PackAt(p, k);
      PackedOne(p, k, cl);
      PacksBitsNext(p, k, cl);
      var code := packed[index];
      index := index + 1;
      var extra := 0;
      if code >= 16 {
        extra := packed[index];
        index := index + 1;
      }
      ghost var sent := w.sent;
      PlainBits(p[k], extra, cl);
      PutPack(w, c, code, extra, cl);
      assert w.sent == old(w.sent) + (PacksBits(p[..k], cl) + PackBits(p[k], cl));
      k := k + 1;
    }
    if k < |p| {
      FlatPrefix(p, k);
    }
    assert p[..|p|] == p;
  }

  lemma NoPacks(p: seq<Pack>, cl: seq<nat>)
    ensures PacksCoded(p[..0], cl) && PacksBits(p[..0], cl) == [] && |RunLengths.Flat(p[..0])| == 0
  {
  }

  lemma PackedOne(p: seq<Pack>, k: nat, cl: seq<nat>)
    requires PacksCoded(p, cl) && k < |p|
    ensures p[k].sym < |cl| && cl[p[k].sym] > 0
  {
  }

  /** The extra bits of a plain length are none, whatever its count says. */
  lemma PlainBits(p: Pack, extra: nat, cl: seq<nat>)
    requires p.sym < |cl| && (p.sym >= 16 ==> extra == p.extra)
    ensures PackBits(Pack(p.sym, extra), cl) == PackBits(p, cl) && (p.sym < 16 ==> PackExtra(p.sym) == 0)
    ensures Pow2(0) == 1
  {
    assert ToBits(extra, 0) == ToBits(p.extra, 0);
  }

  // ----- the tables of a block -----

  /** Every symbol that occurs has a code, but perhaps one. */
  ghost predicate UsedCoded(counts: seq<nat>, lens: seq<nat>, but: nat) {
    forall i :: 0 <= i < |counts| && i != but && counts[i] > 0 ==> i < |lens| && lens[i] > 0
  }

  lemma UsedWithout(counts: seq<nat>, but: nat, lens: seq<nat>)
    requires but < |counts| && UsedCoded(counts[but := 1], lens, |counts|)
    ensures UsedCoded(counts, lens, but) && but < |lens| && lens[but] > 0
  {
    var marked := counts[but := 1];
    assert marked[but] == 1;
    forall i | 0 <= i < |counts| && i != but && counts[i] > 0 ensures i < |lens| && lens[i] > 0 {
      assert marked[i] == counts[i];
    }
  }

  /** A table from counts, as far as its first n symbols: the rest have no codes. */
  lemma TableCodes(counts: seq<nat>, sizes: seq<nat>, codes: seq<nat>, limit: nat, n: nat)
    requires HuffmanTable.TableFor(counts, sizes, codes, limit) && limit <= MAX_LEN && n <= |sizes|
        && forall i :: n <= i < |sizes| ==> sizes[i] == 0
    ensures CodesOf(Coder(sizes, codes), sizes[..n]) && Usable(sizes[..n])
    ensures UsedCoded(counts, sizes[..n], |counts|)
  {
    hide Usable, SymBits, ToBits, Pow2;
    HuffmanTable.TrimTable(sizes, n);
  }

  lemma SizesZero(counts: seq<nat>, sizes: seq<nat>, codes: seq<nat>, limit: nat)
    requires HuffmanTable.TableFor(counts, sizes, codes, limit)
    ensures |sizes| == |counts| == |codes| && forall i :: 0 <= i < |sizes| ==>
              sizes[i] <= limit && (counts[i] == 0 ==> sizes[i] == 0)
  {
    hide Usable;
  }

  lemma CountedTok(s: seq<Tok>, lit: seq<nat>, dst: seq<nat>, k: nat)
    requires Counted(s, lit, dst) && k < |s|
    ensures TokOk(s[k]) && |lit| == 288 && |dst| == 32 && LitSym(s[k]) < 288 && LitSym(s[k]) != 256
        && lit[LitSym(s[k])] > 0
    ensures s[k].TMatch? ==> dst[Tokens.DistSym(s[k].dist)] > 0
  {
    hide HuffmanTable.Total, LenSym, Tokens.DistSym, LitLens, DistLens;
  }

  lemma CountedOk(s: seq<Tok>, lit: seq<nat>, dst: seq<nat>)
    requires Counted(s, lit, dst)
    ensures ToksOk(s) && |Items(s)| == |s| && forall k :: 0 <= k < |s| ==> Items(s)[k] == ItemOf(s[k])
  {
    hide HuffmanTable.Total, LenSym, Tokens.DistSym, LitLens, DistLens, ItemOf;
  }

  lemma TokCoded(t: Tok, lit: seq<nat>, dst: seq<nat>)
    requires TokOk(t) && LitSym(t) < |lit| && lit[LitSym(t)] > 0
    requires t.TMatch? ==> Tokens.DistSym(t.dist) < |dst| && dst[Tokens.DistSym(t.dist)] > 0
    ensures ValidItem(ItemOf(t)) && Coded(ItemOf(t), lit, dst)
  {
    hide LenSym, Tokens.DistSym;
    ItemMeans(t);
  }

  /** The symbols that the tokens need have codes. */
  lemma ToksCoded(s: seq<Tok>, litCount: seq<nat>, distCount: seq<nat>, lit: seq<nat>, dst: seq<nat>)
    requires Counted(s, litCount, distCount)
    requires UsedCoded(litCount, lit, 256) && UsedCoded(distCount, dst, |distCount|)
    ensures AllCoded(Items(s), lit, dst)
  {
    hide HuffmanTable.Total, LenSym, Tokens.DistSym, LitLens, DistLens, Pow2, Coded, ItemOf, Counted, ValidItem;
    CountedOk(s, litCount, distCount);
    forall k | 0 <= k < |s| ensures ValidItem(Items(s)[k]) && Coded(Items(s)[k], lit, dst) {
      CountedTok(s, litCount, distCount, k);
      TokCoded(s[k], lit, dst);
    }
  }

  lemma {:induction false} TotalBound(s: seq<nat>, b: nat)
    requires forall i :: 0 <= i < |s| ==> s[i] <= b
    ensures HuffmanTable.Total(s) <= |s| * b
  {
    if s != [] {
      TotalBound(s[1..], b);
    }
  }

  lemma {:induction false} PacksFew(p: seq<Pack>)
    ensures |p| <= |RunLengths.Flat(p)|
  {
    if p != [] {
      PacksFew(p[..|p| - 1]);
    }
  }

  lemma {:induction false} PackCounted(p: seq<Pack>, k: nat)
    requires k < |p|
    ensures RunLengths.SymCount(p, p[k].sym) > 0
    decreases |p|
  {
    if k < |p| - 1 {
      PackCounted(p[..|p| - 1], k);
    }
  }

  /** The counts of the packed symbols. */
  lemma PackTotals(p: seq<Pack>, counts: seq<nat>)
    requires |counts| == 19 && (forall s :: 0 <= s < 19 ==> counts[s] == RunLengths.SymCount(p, s))
        && |RunLengths.Flat(p)| <= 320
    ensures HuffmanTable.Total(counts) < 65536
  {
    hide RunLengths.SymCount, HuffmanTable.Total;
    PacksFew(p);
    TotalBound(counts, 320);
  }

  /** The table of the packed symbols codes each of them. */
  lemma PacksHaveCodes(p: seq<Pack>, counts: seq<nat>, sizes: seq<nat>, codes: seq<nat>)
    requires PacksOk(p) && |counts| == 19 && (forall s :: 0 <= s < 19 ==> counts[s] == RunLengths.SymCount(p, s))
    requires HuffmanTable.TableFor(counts, sizes, codes, 7)
    ensures |sizes| == 19 && PacksCoded(p, sizes)
  {
    hide RunLengths.SymCount, Usable, PacksOk;
    forall i | 0 <= i < |p| ensures p[i].sym < |sizes| && sizes[p[i].sym] > 0 {
      PackAt(p, i);
      PackCounted(p, i);
    }
  }

  /** The code-length code: its table, and how the lengths of both codes are packed. */
  method PackHeader(litSizes: seq<nat>, distSizes: seq<nat>) returns (packed: seq<nat>, cl: Coder, ghost p: seq<Pack>)
    requires |litSizes| <= 288 && |distSizes| <= 32 && Short(litSizes) && Short(distSizes)
    ensures PacksOk(p) && UnpackAll(p) == litSizes + distSizes && packed == RunLengths.Flat(p)
        && |packed| <= |litSizes| + |distSizes|
    ensures |cl.sizes| == 19 && CodesOf(cl, cl.sizes) && Usable(cl.sizes) && PacksCoded(p, cl.sizes)
        && forall i :: 0 <= i < 19 ==> cl.sizes[i] <= 7
  {
    hide Usable, SymBits, ToBits, PacksOk, PacksCoded, RunLengths.Flat, RunLengths.SymCount, UnpackAll,
        HuffmanTable.TableFor, HuffmanTable.Total, CodesOf;
    var packedBuf := new nat[RunLengths.MAX_SIZES](_ => 0);
    var counts := new nat[19](_ => 0);
    var n;
    n, p := RunLengths.PackSizes(litSizes + distSizes, packedBuf, counts);
    packed := packedBuf[..n];
    PackTotals(p, counts[..]);
    Seven();
    var sizes, codes := HuffmanTable.OptimizeTable(counts[..], 7);
    PacksHaveCodes(p, counts[..], sizes[..], codes[..]);
    SizesZero(counts[..], sizes[..], codes[..], 7);
    TableCodes(counts[..], sizes[..], codes[..], 7, 19);
    cl := Coder(sizes[..], codes[..]);
    assert cl.sizes[..19] == cl.sizes;
  }

  lemma Seven()
    ensures Pow2(7) == 128 && Pow2(15) >= 288 && Pow2(2) == 4 && Pow2(4) == 16 && Pow2(5) == 32 && Pow2(1) == 2
  {
    assert Pow2(9) == 512;
    Pow2Mono(9, 15);
  }

  /** The header of a dynamic block. */
  method PutHeader(w: BitSink, litSizes: seq<nat>, distSizes: seq<nat>) returns (ghost h: Header)
    requires w.Valid() && 257 <= |litSizes| <= 288 && 1 <= |distSizes| <= 32 && Short(litSizes) && Short(distSizes)
    requires Usable(litSizes) && Usable(distSizes)
    modifies w
    ensures w.Valid() && w.limit == old(w.limit) && old(w.bytes) <= w.bytes
    ensures HeaderOk(h) && HeaderLit(h) == litSizes && HeaderDist(h) == distSizes
        && w.sent == old(w.sent) + (ToBits(2, 2) + HeaderBits(h))
    ensures |HeaderBits(h)| <= 4551
  {
    hide Usable, SymBits, ToBits, PacksOk, PacksCoded, RunLengths.Flat, UnpackAll, CodesOf, Pow2, HeaderOk, HeaderBits,
        HeaderLit, HeaderDist;
    var packed, cl;
    ghost var p;
    packed, cl, p := PackHeader(litSizes, distSizes);
    var numBitLengths := TrimSwizzled(cl.sizes);
    h := Header(|litSizes|, |distSizes|, numBitLengths, cl.sizes, p);
    HeaderIs(h, litSizes, distSizes);
    PacksFew(p);
    HeaderShort(h);
    Seven();
    ghost var s := w.sent;
    w.PutBits(2, 2);
    w.PutBits(|litSizes| - 257, 5);
    w.PutBits(|distSizes| - 1, 5);
    w.PutBits(numBitLengths - 4, 4);
    PutClSizes(w, cl.sizes, numBitLengths);
    PutPacked(w, cl, packed, p, cl.sizes);
    JoinHeader(s, h);
  }

  lemma {:induction false} PacksShort(p: seq<Pack>, cl: seq<nat>)
    requires PacksCoded(p, cl) && |cl| == 19 && forall i :: 0 <= i < 19 ==> cl[i] <= 7
    ensures |PacksBits(p, cl)| <= 14 * |p|
  {
    hide SymBits, ToBits;
    if p != [] {
      PacksShort(p[..|p| - 1], cl);
    }
  }

  /** A header takes at most 4551 bits. */
  lemma HeaderShort(h: Header)
    requires HeaderOk(h) && |h.packs| <= 320
    ensures |HeaderBits(h)| <= 4551
  {
    hide Usable, PacksOk, UnpackAll, ToBits, ClBits, PacksBits, HeaderLit, HeaderDist;
    PacksShort(h.packs, h.cl);
  }

  lemma HeaderIs(h: Header, litSizes: seq<nat>, distSizes: seq<nat>)
    requires 257 <= |litSizes| <= 288 && 1 <= |distSizes| <= 32 && h.hlit == |litSizes| && h.hdist == |distSizes|
        && 4 <= h.hclen <= 19
    requires |h.cl| == 19 && (forall i :: 0 <= i < 19 ==> h.cl[i] <= 7)
    requires forall i {:trigger SWIZZLE[i]} :: h.hclen <= i < 19 ==> SWIZZLE[i] < 19 && h.cl[SWIZZLE[i]] == 0
    requires Usable(h.cl) && PacksOk(h.packs) && PacksCoded(h.packs, h.cl) && UnpackAll(h.packs) == litSizes + distSizes
    requires Usable(litSizes) && Usable(distSizes)
    ensures HeaderOk(h) && HeaderLit(h) == litSizes && HeaderDist(h) == distSizes
  {
    hide Usable, PacksOk, PacksCoded, UnpackAll;
    assert (litSizes + distSizes)[..|litSizes|] == litSizes && (litSizes + distSizes)[|litSizes|..] == distSizes;
  }

  lemma JoinHeader(s: seq<bool>, h: Header)
    requires HeaderOk(h)
    ensures s + ToBits(2, 2) + ToBits(h.hlit - 257, 5) + ToBits(h.hdist - 1, 5) + ToBits(h.hclen - 4, 4) + ClBits(h.cl,
        h.hclen) + PacksBits(h.packs, h.cl)
         == s + (ToBits(2, 2) + HeaderBits(h))
  {
    hide ToBits, ClBits, PacksBits, Usable, PacksOk, PacksCoded, UnpackAll;
    Join5(s + ToBits(2, 2), ToBits(h.hlit - 257, 5), ToBits(h.hdist - 1, 5), ToBits(h.hclen - 4, 4),
        ClBits(h.cl, h.hclen), PacksBits(h.packs, h.cl));
    assert s + ToBits(2, 2) + HeaderBits(h) == s + (ToBits(2, 2) + HeaderBits(h));
  }

  lemma Join5(s: seq<bool>, a: seq<bool>, b: seq<bool>, c: seq<bool>, d: seq<bool>, e: seq<bool>)
    ensures s + a + b + c + d + e == s + (a + (b + (c + (d + e))))
  {
  }
}
