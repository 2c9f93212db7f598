/** Flushing the recorded tokens as a block: coded, or stored when coding would expand it or run out of room
    (third-party/miniz.c:1256-1370). */
module Flushing {
  import opened Bits
  import opened Canonical
  import opened Format
  import opened Tokens
  import opened TokenBuffer
  import opened Sink
  import opened BlockWriter
  import HuffmanTable
  import D = DynamicCost
  import Machine

  const OUT_BUF_SIZE: nat := 85196
  const OUT_LIMIT: nat := OUT_BUF_SIZE - 16

  // ----- the size of a static block -----

  lemma FixedShort(s: nat)
    requires s < 288
    ensures 7 <= FixedLit()[s] <= 9 && (s >= 256 ==> FixedLit()[s] <= 8)
  {
  }

  /** Static coding costs at most 31 bits for a match and 9 for a literal. */
  lemma StaticItem(t: Tok)
    requires TokOk(t)
    ensures ValidItem(ItemOf(t)) && Coded(ItemOf(t), FixedLit(), FixedDist())
    ensures |ItemBits(ItemOf(t), FixedLit(), FixedDist())| <= if t.TLit? then 9 else 31
  {
    hide SymBits, ToBits, FixedLit, LenSym, Tokens.DistSym;
    ItemMeans(t);
    if t.TLit? {
      FixedShort(t.b);
    } else {
      FixedShort(257 + LenSym(t.len));
      LengthTable(LenSym(t.len));
      DistTable(Tokens.DistSym(t.dist));
    }
  }

  lemma StaticCoded(s: seq<Tok>)
    requires ToksOk(s)
    ensures AllCoded(Items(s), FixedLit(), FixedDist())
  {
    hide ItemOf, Coded, FixedLit, FixedDist;
    forall k | 0 <= k < |s| ensures ValidItem(Items(s)[k]) && Coded(Items(s)[k], FixedLit(), FixedDist()) {
      StaticItem(s[k]);
    }
  }

  /** 31 bits for every three and an eighth bytes of the code buffer. */
  lemma {:induction false} StaticCost(s: seq<Tok>)
    requires ToksOk(s)
    ensures AllCoded(Items(s), FixedLit(), FixedDist())
        && 25 * |TokBits(s, FixedLit(), FixedDist())| <= 31 * (8 * Sizes(s) + |s|)
  {
    hide ItemBits, ItemOf, FixedLit, FixedDist, Coded;
    StaticCoded(s);
    if s == [] {
      NoTokens(s, FixedLit(), FixedDist());
    } else {
      var n := |s| - 1;
      StaticCost(s[..n]);
      TokBitsNext(s, n, FixedLit(), FixedDist());
      assert s[..n + 1] == s;
      StaticItem(s[n]);
    }
  }

  lemma StaticBound(s: seq<Tok>)
    requires ToksOk(s) && End(s) <= CODE_BUF
    ensures AllCoded(Items(s), FixedLit(), FixedDist()) && |TokBits(s, FixedLit(), FixedDist())| <= 650117
  {
    hide TokBits, Sizes, AllCoded, FixedLit, FixedDist;
    StaticCost(s);
    assert s[..|s|] == s;
    var n := |s|;
    assert 8 * End(s) >= 8 * Sizes(s) + n;
  }

  // ----- one block -----

  /** A block holds these tokens, or the bytes themselves. */
  ghost predicate Carries(b: Block, s: seq<Tok>, data: seq<byte>) {
    match b
    case Stored(_, d) => d == data
    case Fixed(items) => ToksOk(s) && items == Items(s)
    case Dynamic(_, items) => ToksOk(s) && items == Items(s)
  }

  /** What a block of these tokens must print: the block is in place and stands for the tokens' bytes. */
  ghost predicate BlockFor(b: Block, s: seq<Tok>, pos: nat, out: seq<byte>, data: seq<byte>) {
    Carries(b, s, data) && BlockOk(b, pos, out) && BlockOut(b, pos, out) == out + data
  }

  /** The tokens reproduce data after out. */
  ghost predicate Reproduces(s: seq<Tok>, out: seq<byte>, data: seq<byte>) {
    ToksOk(s) && ItemsOk(Items(s), out) && ApplyAll(Items(s), out) == out + data
  }

  /** Kind and body of a block: what follows its final bit. */
  ghost function AfterFinal(b: Block, pos: nat, out: seq<byte>): seq<bool>
    requires BlockOk(b, pos, out)
  {
    ToBits(Kind(b), 2) + BodyBits(b, pos, out)
  }

  /** tdefl_start_static_block and the coded tokens. */
  method CompressStatic(w: BitSink, rec: Recorder, end: nat, ghost s: seq<Tok>, ghost pos: nat, ghost out: seq<byte>,
      ghost data: seq<byte>)
    returns (fits: bool, ghost b: Block)
    requires w.Valid() && ToksOk(s) && Layout(rec.buf[..], s, 0) && end == End(s) <= CODE_BUF
        && Reproduces(s, out, data)
    modifies w
    ensures w.Valid() && w.limit == old(w.limit) && old(w.bytes) <= w.bytes && fits == (|w.bytes| < w.limit)
    ensures b.Fixed? && BlockFor(b, s, pos, out, data) && w.sent == old(w.sent) + AfterFinal(b, pos, out)
    ensures |w.sent| <= |old(w.sent)| + 650130
  {
    hide Layout, CodesOf, AllCoded, TokBits, SymBits, ToBits, ItemsOk, ApplyAll, FixedLit, FixedDist, End,
        HuffmanTable.CodesFor, Reproduces, Pow2, Short;
    var lit, dst := StaticTables();
    b := Fixed(Items(s));
    FixedBlock(s, pos, out, data);
    StaticFits(s, FixedLit(), FixedDist());
    fits := StaticBody(w, rec.buf, end, lit, dst, s, FixedLit(), FixedDist());
  }

  /** The block type and the tokens of a static block. */
  method StaticBody(w: BitSink, buf: array<byte>, end: nat, lit: Coder, dst: Coder, ghost s: seq<Tok>,
      ghost litLens: seq<nat>, ghost dstLens: seq<nat>)
    returns (fits: bool)
    requires w.Valid() && CodesOf(lit, litLens) && CodesOf(dst, dstLens) && ToksOk(s) && Layout(buf[..], s, 0)
        && end == End(s)
    requires AllCoded(Items(s), litLens, dstLens) && 256 < |litLens| && litLens[256] > 0 && 1 < Pow2(2)
    modifies w
    ensures w.Valid() && w.limit == old(w.limit) && old(w.bytes) <= w.bytes && fits == (|w.bytes| < w.limit)
    ensures w.sent == old(w.sent) + (ToBits(1, 2) + (TokBits(s, litLens, dstLens) + SymBits(litLens, 256)))
  {
    hide Layout, CodesOf, AllCoded, TokBits, SymBits, ToBits, End, Pow2;
    w.PutBits(1, 2);
    fits := CompressLzCodes(w, buf, end, lit, dst, s, litLens, dstLens);
    assert w.sent == old(w.sent) + (ToBits(1, 2) + (TokBits(s, litLens, dstLens) + SymBits(litLens, 256)));
  }

  lemma StaticFits(s: seq<Tok>, litLens: seq<nat>, dstLens: seq<nat>)
    requires ToksOk(s) && litLens == FixedLit() && dstLens == FixedDist() && End(s) <= CODE_BUF
    ensures AllCoded(Items(s), litLens, dstLens) && 256 < |litLens| && 0 < litLens[256] <= 8
    ensures |TokBits(s, litLens, dstLens)| <= 650117 && |SymBits(litLens, 256)| <= 8 && 1 < Pow2(2)
  {
    hide TokBits, AllCoded, SymBits, FixedLit, FixedDist, End, Pow2;
    StaticBound(s);
    FixedShort(256);
    Seven();
  }

  method StaticTables() returns (lit: Coder, dst: Coder)
    ensures CodesOf(lit, FixedLit()) && CodesOf(dst, FixedDist())
  {
    Machine.FixedLengths();
    hide SymBits, ToBits, Complete, Pow2;
    var codes0 := HuffmanTable.StaticTable(FixedLit());
    var codes1 := HuffmanTable.StaticTable(FixedDist());
    lit, dst := Coder(FixedLit(), codes0[..]), Coder(FixedDist(), codes1[..]);
  }

  lemma FixedBlock(s: seq<Tok>, pos: nat, out: seq<byte>, data: seq<byte>)
    requires Reproduces(s, out, data)
    ensures BlockFor(Fixed(Items(s)), s, pos, out, data) && AllCoded(Items(s), FixedLit(), FixedDist())
        && 256 < |FixedLit()|
    ensures AfterFinal(Fixed(Items(s)), pos, out) == ToBits(1, 2)
        + (TokBits(s, FixedLit(), FixedDist()) + SymBits(FixedLit(), 256))
  {
    hide AllCoded, ToBits, SymBits, ItemsOk, ApplyAll, ItemsBits, FixedLit, FixedDist;
    StaticCoded(s);
    FixedShort(256);
  }

  /** tdefl_start_dynamic_block and the coded tokens. */
  method CompressDynamic(w: BitSink, rec: Recorder, end: nat, ghost s: seq<Tok>, ghost pos: nat, ghost out: seq<byte>,
      ghost data: seq<byte>)
    returns (fits: bool, ghost b: Block)
    requires w.Valid() && ToksOk(s) && Layout(rec.buf[..], s, 0) && end == End(s) <= CODE_BUF
        && Reproduces(s, out, data)
    requires rec.litCount != rec.distCount && Counted(s, rec.litCount[..], rec.distCount[..])
    modifies w, rec.litCount
    ensures w.Valid() && w.limit == old(w.limit) && old(w.bytes) <= w.bytes && fits == (|w.bytes| < w.limit)
    ensures b.Dynamic? && BlockFor(b, s, pos, out, data) && w.sent == old(w.sent) + AfterFinal(b, pos, out)
    ensures |w.sent| <= |old(w.sent)| + 678853
  {
    hide Layout, CodesOf, AllCoded, TokBits, SymBits, ToBits, ItemsOk, ApplyAll, End, Counted, HeaderOk, HeaderBits,
        HeaderLit, HeaderDist, Usable, Reproduces, Pow2, Short;
    var lit, dst, numLit, numDist := DynamicTables(rec, s, end);
    ghost var h;
    fits, h := DynamicBody(w, rec.buf, end, lit, dst, numLit, numDist, s);
    b := Dynamic(h, Items(s));
    DynamicBlock(s, h, lit.sizes[..numLit], dst.sizes[..numDist], pos, out, data);
  }

  /** Coding the tokens and the end of the block with these lengths takes few enough bits. */
  ghost predicate Cheap(s: seq<Tok>, r0: seq<nat>, r1: seq<nat>) {
    |r0| == 288 && |r1| == 32 && ToksOk(s) && LitLens(s, r0) + r0[256] + DistLens(s, r1) + D.Extras(s) <= 674300
  }

  lemma CheapBits(s: seq<Tok>, r0: seq<nat>, r1: seq<nat>, lit: seq<nat>, dst: seq<nat>)
    requires Cheap(s, r0, r1) && 256 < |lit| <= 288 && |dst| <= 32 && lit == r0[..|lit|] && dst == r1[..|dst|]
        && AllCoded(Items(s), lit, dst)
    ensures |TokBits(s, lit, dst)| + |SymBits(lit, 256)| <= 674300
  {
    hide SymBits, LitLens, DistLens, D.Extras, AllCoded, TokBits;
    D.BitsAre(s, lit, dst, r0, r1);
  }

  /** The block type, the header and the tokens of a dynamic block. */
  method DynamicBody(w: BitSink, buf: array<byte>, end: nat, lit: Coder, dst: Coder, numLit: nat, numDist: nat,
      ghost s: seq<Tok>)
    returns (fits: bool, ghost h: Header)
    requires w.Valid() && ToksOk(s) && Layout(buf[..], s, 0) && end == End(s)
    requires 257 <= numLit <= 286 && numLit <= |lit.sizes| && 1 <= numDist <= 30 && numDist <= |dst.sizes|
    requires CodesOf(lit, lit.sizes[..numLit]) && CodesOf(dst, dst.sizes[..numDist])
    requires Usable(lit.sizes[..numLit]) && Usable(dst.sizes[..numDist]) && Short(lit.sizes[..numLit])
        && Short(dst.sizes[..numDist])
    requires AllCoded(Items(s), lit.sizes[..numLit], dst.sizes[..numDist]) && lit.sizes[..numLit][256] > 0
    requires Cheap(s, lit.sizes, dst.sizes)
    modifies w
    ensures w.Valid() && w.limit == old(w.limit) && old(w.bytes) <= w.bytes && fits == (|w.bytes| < w.limit)
    ensures HeaderOk(h) && HeaderLit(h) == lit.sizes[..numLit] && HeaderDist(h) == dst.sizes[..numDist]
    ensures w.sent == old(w.sent)
        + (ToBits(2, 2) + (HeaderBits(h) + (TokBits(s, lit.sizes[..numLit], dst.sizes[..numDist])
            + SymBits(lit.sizes[..numLit], 256))))
    ensures |w.sent| <= |old(w.sent)| + 678853
  {
    hide Layout, CodesOf, AllCoded, TokBits, SymBits, ToBits, End, HeaderOk, HeaderBits, HeaderLit, HeaderDist, Usable,
        Pow2, Short, Cheap;
    var litLens, dstLens := lit.sizes[..numLit], dst.sizes[..numDist];
    CheapBits(s, lit.sizes, dst.sizes, litLens, dstLens);
    h := PutHeader(w, litLens, dstLens);
    fits := CompressLzCodes(w, buf, end, lit, dst, s, litLens, dstLens);
    assert w.sent == old(w.sent)
        + (ToBits(2, 2) + (HeaderBits(h) + (TokBits(s, litLens, dstLens) + SymBits(litLens, 256))));
  }

  lemma DynamicBlock(s: seq<Tok>, h: Header, litLens: seq<nat>, dstLens: seq<nat>, pos: nat, out: seq<byte>,
      data: seq<byte>)
    requires Reproduces(s, out, data) && HeaderOk(h) && HeaderLit(h) == litLens && HeaderDist(h) == dstLens
    requires AllCoded(Items(s), litLens, dstLens) && 256 < |litLens| && litLens[256] > 0
    ensures BlockFor(Dynamic(h, Items(s)), s, pos, out, data)
    ensures AfterFinal(Dynamic(h, Items(s)), pos, out) == ToBits(2, 2)
        + (HeaderBits(h) + (TokBits(s, litLens, dstLens) + SymBits(litLens, 256)))
  {
    hide AllCoded, ToBits, SymBits, ItemsOk, ApplyAll, ItemsBits, HeaderOk, HeaderBits, HeaderLit, HeaderDist;
  }

  lemma FittedCheap(s: seq<Tok>, lit: seq<nat>, dst: seq<nat>, r0: seq<nat>, r1: seq<nat>)
    requires Counted(s, lit, dst) && HuffmanTable.NearOptimal(lit[256 := 1], r0) && HuffmanTable.NearOptimal(dst, r1)
        && End(s) <= CODE_BUF
    ensures Cheap(s, r0, r1)
  {
    hide HuffmanTable.Total, HuffmanTable.NearOptimal, LitLens, DistLens, D.Extras, End;
    D.FittedCost(s, lit, dst, r0, r1);
  }

  /** Tables fitted to the counts; the end-of-block symbol is counted once. */
  method DynamicTables(rec: Recorder, ghost s: seq<Tok>, end: nat)
      returns (lit: Coder, dst: Coder, numLit: nat, numDist: nat)
    requires rec.litCount != rec.distCount && Counted(s, rec.litCount[..], rec.distCount[..]) && End(s) <= CODE_BUF
    modifies rec.litCount
    ensures 257 <= numLit <= 286 && numLit <= |lit.sizes| && 1 <= numDist <= 30 && numDist <= |dst.sizes|
    ensures CodesOf(lit, lit.sizes[..numLit]) && CodesOf(dst, dst.sizes[..numDist])
    ensures Usable(lit.sizes[..numLit]) && Usable(dst.sizes[..numDist]) && Short(lit.sizes[..numLit])
        && Short(dst.sizes[..numDist])
    ensures ToksOk(s) && AllCoded(Items(s), lit.sizes[..numLit], dst.sizes[..numDist]) && lit.sizes[..numLit][256] > 0
    ensures Cheap(s, lit.sizes, dst.sizes)
  {
    hide CodesOf, AllCoded, Usable, Counted, HuffmanTable.TableFor, HuffmanTable.Total, Pow2, HuffmanTable.NearOptimal,
        Cheap, End, ToksOk, UsedCoded;
    Seven();
    ghost var litCount, distCount := rec.litCount[..], rec.distCount[..];
    CountedFacts(s, litCount, distCount);
    rec.litCount[256] := 1;
    assert rec.litCount[..] == litCount[256 := 1];
    var sizes0, codes0 := HuffmanTable.OptimizeTable(rec.litCount[..], 15);
    var sizes1, codes1 := HuffmanTable.OptimizeTable(rec.distCount[..], 15);
    FittedCheap(s, litCount, distCount, sizes0[..], sizes1[..]);
    SizesZero(rec.litCount[..], sizes0[..], codes0[..], 15);
    SizesZero(rec.distCount[..], sizes1[..], codes1[..], 15);
    numLit := Trim(sizes0[..], 286, 257);
    numDist := Trim(sizes1[..], 30, 1);
    TableCodes(rec.litCount[..], sizes0[..], codes0[..], 15, numLit);
    TableCodes(rec.distCount[..], sizes1[..], codes1[..], 15, numDist);
    UsedWithout(litCount, 256, sizes0[..][..numLit]);
    ToksCoded(s, litCount, distCount, sizes0[..][..numLit], sizes1[..][..numDist]);
    lit, dst := Coder(sizes0[..], codes0[..]), Coder(sizes1[..], codes1[..]);
  }

  lemma CountedFacts(s: seq<Tok>, lit: seq<nat>, dst: seq<nat>)
    requires Counted(s, lit, dst) && End(s) <= CODE_BUF
    ensures |lit| == 288 && |dst| == 32 && lit[286] == lit[287] == dst[30] == dst[31] == 0 && ToksOk(s)
    ensures HuffmanTable.Total(lit[256 := 1]) < 65536 && HuffmanTable.Total(dst) < 65536
  {
    hide HuffmanTable.Total, LenSym, Tokens.DistSym, Sizes;
    TotalBump(lit, 256);
    assert s[..|s|] == s;
    assert |s| <= Sizes(s);
  }

  // ----- stored blocks -----

  lemma ZeroBits(n: nat)
    ensures 0 < Pow2(n)
  {
  }

  /** Zero bits up to the byte boundary. */
  method PutPadding(w: BitSink)
    requires w.Valid()
    modifies w
    ensures w.Valid() && w.limit == old(w.limit) && old(w.bytes) <= w.bytes
    ensures w.sent == old(w.sent) + ToBits(0, Padding(|old(w.sent)|))
  {
    hide ToBits;
    ghost var k := |w.bytes| + w.lost;
    assert |w.sent| == 8 * k + w.bitsIn;
    if w.bitsIn > 0 {
      ZeroBits(8 - w.bitsIn);
      w.PutBits(0, 8 - w.bitsIn);
    } else {
      assert ToBits(0, 0) == [];
    }
  }

  /** A 16-bit number and its complement. */
  method PutLength(w: BitSink, total: nat)
    requires w.Valid() && total < 65536
    modifies w
    ensures w.Valid() && w.limit == old(w.limit) && old(w.bytes) <= w.bytes
    ensures w.sent == old(w.sent) + (ToBits(total, 16) + ToBits(65535 - total, 16))
  {
    hide ToBits, Pow2;
    Sixteen();
    w.PutBits(total, 16);
    w.PutBits(65535 - total, 16);
  }

  lemma Sixteen()
    ensures Pow2(16) == 65536 && Pow2(8) == 256 && Pow2(0) == 1
  {
  }

  /** The dictionary holds a block's bytes, in order around the ring from a position on. */
  ghost predicate InDict(dict: seq<byte>, at: nat, data: seq<byte>) {
    |data| <= DICT_SIZE <= |dict| && forall i :: 0 <= i < |data| ==> dict[(at + i) % DICT_SIZE] == data[i]
  }

  /** Bytes of the ring. */
  method PutRing(w: BitSink, dict: array<byte>, dictPos: nat, total: nat, ghost data: seq<byte>)
    requires w.Valid() && |data| == total
    requires InDict(dict[..], dictPos, data)
    modifies w
    ensures w.Valid() && w.limit == old(w.limit) && old(w.bytes) <= w.bytes && w.sent == old(w.sent) + ByteBits(data)
  {
    hide ToBits, ByteBits, Pow2;
    Sixteen();
    NoBytes(data);
    for i := 0 to total
      invariant w.Valid() && w.limit == old(w.limit) && old(w.bytes) <= w.bytes
          && w.sent == old(w.sent) + ByteBits(data[..i])
    {
      ghost var s := w.sent;
      w.PutBits(dict[(dictPos + i) % DICT_SIZE], 8);
      ByteBitsSnoc(data[..i], data[i]);
      assert data[..i] + [data[i]] == data[..i + 1];
      assert w.sent == old(w.sent) + (ByteBits(data[..i]) + ToBits(data[i], 8));
    }
    assert data[..total] == data;
  }

  lemma NoBytes(data: seq<byte>)
    ensures ByteBits(data[..0]) == []
  {
  }

  lemma SamePadding(a: nat, b: nat)
    requires a % 8 == (b + 1) % 8
    ensures Padding(a + 2) == Padding(b + 3)
  {
    var p, q, m := a / 8, (b + 1) / 8, a % 8;
    assert a == 8 * p + m && b + 1 == 8 * q + m;
    if m < 6 {
      assert (a + 2) % 8 == m + 2 && (b + 3) % 8 == m + 2;
    } else {
      assert a + 2 == 8 * (p + 1) + (m - 6) && b + 3 == 8 * (q + 1) + (m - 6);
    }
  }

  lemma StoredBlock(n: nat, pos: nat, out: seq<byte>, data: seq<byte>)
    requires n == Padding(pos + 3) && |data| < 65536
    ensures var b := Stored(ToBits(0, n), data);
            b.data == data && BlockOk(b, pos, out) && BlockOut(b, pos, out) == out + data
            && AfterFinal(b, pos, out) == ToBits(0, 2)
               + (ToBits(0, n) + (ToBits(|data|, 16) + (ToBits(65535 - |data|, 16) + ByteBits(data))))
  {
    hide ToBits, ByteBits, Padding;
  }

  lemma Join3(s: seq<bool>, a: seq<bool>, b: seq<bool>, c: seq<bool>, d: seq<bool>, e: seq<bool>)
    ensures s + a + b + (c + d) + e == s + (a + (b + (c + (d + e))))
  {
  }

  /** The bytes of the block as they are, behind their length. */
  method PutStored(w: BitSink, dict: array<byte>, dictPos: nat, total: nat, ghost pos: nat, ghost out: seq<byte>,
      ghost data: seq<byte>) returns (ghost b: Block)
    requires w.Valid() && |data| == total && Aligned(|w.sent|, pos + 1)
    requires InDict(dict[..], dictPos, data)
    modifies w
    ensures w.Valid() && w.limit == old(w.limit) && old(w.bytes) <= w.bytes
    ensures b.Stored? && b.data == data && BlockOk(b, pos, out) && BlockOut(b, pos, out) == out + data
        && w.sent == old(w.sent) + AfterFinal(b, pos, out)
    ensures |w.sent| <= |old(w.sent)| + 41 + 8 * total <= |old(w.sent)| + 262185
  {
    hide ToBits, ByteBits, Pow2, AfterFinal, BlockOk, BlockOut;
    ZeroBits(2);
    ghost var s := w.sent;
    w.PutBits(0, 2);
    ghost var n := Padding(|w.sent|);
    SamePadding(|s|, pos);
    StoredBlock(n, pos, out, data);
    b := Stored(ToBits(0, n), data);
    PutPadding(w);
    PutLength(w, total);
    PutRing(w, dict, dictPos, total, data);
    Join3(s, ToBits(0, 2), ToBits(0, n), ToBits(total, 16), ToBits(65535 - total, 16), ByteBits(data));
  }

  // ----- the choice -----

  /** Where the compressor's bit position stands relative to byte boundaries of the stream. */
  ghost predicate Aligned(sent: nat, pos: nat) {
    sent % 8 == pos % 8
  }

  lemma AlignedNext(sent: nat, pos: nat)
    requires Aligned(sent, pos)
    ensures Aligned(sent + 1, pos + 1)
  {
  }

  /** A coded block took few enough bits. */
  ghost predicate Roomy(before: nat, after: nat) {
    after <= before + 678853
  }

  /** tdefl_compress_block. */
  method CompressBlock(w: BitSink, rec: Recorder, end: nat, useStatic: bool, ghost s: seq<Tok>, ghost pos: nat,
      ghost out: seq<byte>, ghost data: seq<byte>)
    returns (fits: bool, ghost b: Block)
    requires w.Valid() && ToksOk(s) && Layout(rec.buf[..], s, 0) && end == End(s) <= CODE_BUF
        && Reproduces(s, out, data)
    requires rec.litCount != rec.distCount && (useStatic || Counted(s, rec.litCount[..], rec.distCount[..]))
    modifies w, rec.litCount
    ensures w.Valid() && w.limit == old(w.limit) && old(w.bytes) <= w.bytes && fits == (|w.bytes| < w.limit)
    ensures BlockFor(b, s, pos, out, data) && w.sent == old(w.sent) + AfterFinal(b, pos, out)
    ensures !b.Stored? && b.Fixed? == useStatic && Roomy(|old(w.sent)|, |w.sent|)
  {
    hide Layout, Reproduces, BlockFor, AfterFinal, Counted, End;
    if useStatic {
      fits, b := CompressStatic(w, rec, end, s, pos, out, data);
    } else {
      fits, b := CompressDynamic(w, rec, end, s, pos, out, data);
    }
  }

  /** Coding a block never fills the output buffer. */
  lemma AlwaysFits(before: nat, after: nat, bytes: nat)
    requires Roomy(before, after) && before <= 101 && 8 * bytes <= after
    ensures bytes < OUT_LIMIT && after <= before + 678853
  {
  }

  /** A coded block of these tokens that does not save as much as two bytes against the bytes themselves. */
  ghost predicate Unprofitable(b: Block, s: seq<Tok>, pos: nat, out: seq<byte>, data: seq<byte>) {
    !b.Stored? && data != [] && BlockFor(b, s, pos, out, data) && |AfterFinal(b, pos, out)| + 15 >= 8 * |data|
  }

  /** A block behind its first bit: coded, unless that does not pay or does not fit. */
  method EmitBody(w: BitSink, rec: Recorder, end: nat, total: nat, dict: array<byte>, dictPos: nat, inWindow: bool,
      useRaw: bool, forceStatic: bool,
                  ghost s: seq<Tok>, ghost pos: nat, ghost out: seq<byte>, ghost data: seq<byte>)
    returns (ghost b: Block, ghost tried: Block)
    requires w.Valid() && |w.sent| <= 101 && w.limit == OUT_LIMIT && Aligned(|w.sent|, pos + 1)
    requires ToksOk(s) && Layout(rec.buf[..], s, 0) && end == End(s) <= CODE_BUF && Reproduces(s, out, data)
    requires rec.litCount != rec.distCount && Counted(s, rec.litCount[..], rec.distCount[..])
    requires total == |data| && (useRaw ==> inWindow)
    requires inWindow ==> InDict(dict[..], dictPos, data)
    modifies w, rec.litCount
    ensures w.Valid() && w.limit == old(w.limit) && BlockFor(b, s, pos, out, data)
    ensures w.sent == old(w.sent) + AfterFinal(b, pos, out)
    ensures |w.sent| <= |old(w.sent)| + 678853 && (b.Stored? ==> inWindow) && (useRaw ==> b.Stored?)
    ensures (b.Fixed? ==> forceStatic || total < 48) && (b.Dynamic? ==> !forceStatic && total >= 48)
    ensures inWindow && total > 0 ==> |w.sent| <= |old(w.sent)| + 41 + 8 * total
    ensures b.Stored? && !useRaw ==> Unprofitable(tried, s, pos, out, data)
  {
    hide Layout, Reproduces, AfterFinal, Counted, End, ToBits, ByteBits, BlockOk, BlockOut, BlockBits, Pow2, Roomy,
        InDict, ToksOk, Aligned;
    var savedBytes, savedBuffer, savedBits := w.bytes, w.bitBuffer, w.bitsIn;
    ghost var saved := w.sent;
    var fits := false;
    tried := Fixed([]);
    ghost var coded, written := |w.sent|, |w.bytes|;
    if !useRaw {
      fits, b := CompressBlock(w, rec, end, forceStatic || total < 48, s, pos, out, data);
      coded, written, tried := |w.sent|, |w.bytes|, b;
    }
    if (useRaw || (total > 0 && |w.bytes| - |savedBytes| + 1 >= total)) && inWindow {
      w.Rewind(saved, savedBytes, savedBuffer, savedBits);
      b := PutStored(w, dict, dictPos, total, pos, out, data);
    } else if !fits {
      w.Rewind(saved, savedBytes, savedBuffer, savedBits);
      fits, b := CompressBlock(w, rec, end, true, s, pos, out, data);
    }
    if !useRaw {
      AlwaysFits(|saved|, coded, written);
    }
  }

  /** A block of the tokens: coded with fitted or fixed codes, or stored. Whichever path is taken, it takes few
      enough bits, and a fixed block is only printed when asked for or for less than 48 bytes: the fallback on a full
      buffer is never needed. */
  method EmitBlock(w: BitSink, rec: Recorder, end: nat, total: nat, dict: array<byte>, dictPos: nat, inWindow: bool,
      useRaw: bool, forceStatic: bool, final: bool,
                   ghost s: seq<Tok>, ghost pos: nat, ghost out: seq<byte>, ghost data: seq<byte>)
    returns (ghost b: Block, ghost tried: Block)
    requires w.Valid() && |w.sent| <= 100 && w.limit == OUT_LIMIT && Aligned(|w.sent|, pos)
    requires ToksOk(s) && Layout(rec.buf[..], s, 0) && end == End(s) <= CODE_BUF && Reproduces(s, out, data)
    requires rec.litCount != rec.distCount && Counted(s, rec.litCount[..], rec.distCount[..])
    requires total == |data| && (useRaw ==> inWindow)
    requires inWindow ==> InDict(dict[..], dictPos, data)
    modifies w, rec.litCount
    ensures w.Valid() && w.limit == old(w.limit) && BlockFor(b, s, pos, out, data)
    ensures w.sent == old(w.sent) + BlockBits(b, final, pos, out)
    ensures |w.sent| <= |old(w.sent)| + 678854 && (b.Stored? ==> inWindow) && (useRaw ==> b.Stored?)
    ensures (b.Fixed? ==> forceStatic || total < 48) && (b.Dynamic? ==> !forceStatic && total >= 48)
    ensures inWindow && total > 0 ==> |w.sent| <= |old(w.sent)| + 42 + 8 * total
    ensures b.Stored? && !useRaw ==> Unprofitable(tried, s, pos, out, data)
  {
    hide Layout, Reproduces, AfterFinal, Counted, End, ToBits, ByteBits, BlockOk, BlockOut, BlockBits, BlockFor, Pow2,
        Roomy, InDict, ToksOk, Aligned;
    AlignedNext(|w.sent|, pos);
    Bit(final);
    w.PutBits(if final then 1 else 0, 1);
    b, tried := EmitBody(w, rec, end, total, dict, dictPos, inWindow, useRaw, forceStatic, s, pos, out, data);
    WithFinal(old(w.sent), b, final, s, pos, out, data);
  }

  lemma Bit(final: bool)
    ensures (if final then 1 else 0) < Pow2(1) && ToBits(if final then 1 else 0, 1) == [final]
  {
  }

  lemma WithFinal(sent: seq<bool>, b: Block, final: bool, s: seq<Tok>, pos: nat, out: seq<byte>, data: seq<byte>)
    requires BlockFor(b, s, pos, out, data)
    ensures sent + [final] + AfterFinal(b, pos, out) == sent + BlockBits(b, final, pos, out)
  {
    hide BlockOk, ToBits, BodyBits;
    assert [final] + AfterFinal(b, pos, out) == BlockBits(b, final, pos, out);
  }

  lemma PaddingSame(a: nat, b: nat)
    requires a % 8 == b % 8
    ensures Padding(a) == Padding(b)
  {
  }

  /** The same block in another place, after other bytes that its tokens reproduce the data after: its bits are
      the same. */
  lemma BlockElsewhere(b: Block, s: seq<Tok>, pos: nat, out: seq<byte>, data: seq<byte>, pos2: nat, out2: seq<byte>,
      final: bool)
    requires BlockFor(b, s, pos, out, data) && Reproduces(s, out2, data) && pos % 8 == pos2 % 8
    ensures BlockFor(b, s, pos2, out2, data) && BlockBits(b, final, pos2, out2) == BlockBits(b, final, pos, out)
  {
    hide ItemsOk, ApplyAll, AllCoded, HeaderOk, HeaderLit, HeaderDist, HeaderBits, FixedLit, FixedDist, ItemsBits,
        Items, ToBits, Padding, StoredBits, SymBits;
    PaddingSame(pos + 3, pos2 + 3);
  }
}
