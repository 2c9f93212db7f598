/** The compressor's stream: the zlib header before the first block, the blocks, the flush marker after a sync or full
    flush, and the padding and checksum after the last (third-party/miniz.c:1276-1368). */
module Output {
  import opened Bits
  import opened Format
  import opened Tokens
  import opened TokenBuffer
  import opened Sink
  import opened Flushing
  import Machine
  import Streams

  /** s_tdefl_num_probes, from which the level in the header is told. */
  const NUM_PROBES: seq<nat> := [0, 1, 6, 32, 16, 32, 128, 256, 512, 768, 1500]

  function ProbeIndex(probes: nat, i: nat): (r: nat)
    requires i <= 11
    ensures r <= 11
    decreases 11 - i
  {
    if i == 11 || NUM_PROBES[i] == probes then i else ProbeIndex(probes, i + 1)
  }

  /** FLG, with the level and the check bits of section 2.2 of RFC 1950. */
  function Flg(probes: nat): nat {
    var i := ProbeIndex(probes, 0);
    var level := if i < 2 then 0 else if i < 6 then 1 else if i == 6 then 2 else 3;
    var header := 0x7800 + 64 * level;
    (header + (31 - header % 31)) % 256
  }

  /** The header is a printed one, for a 32 KiB window, so every decompressor with such a window accepts it. */
  lemma HeaderGood(cfg: Machine.Cfg, probes: nat)
    requires cfg.nonWrapping || cfg.window >= 32768
    ensures (0x78, Flg(probes)) == HeadBytes(7, Flg(probes) / 64, false) && Flg(probes) < 256
        && Streams.GoodHead(cfg, 0x78, Flg(probes))
  {
    assert Pow2(7) == 128;
    hide Pow2;
    LevelGood(0);
    LevelGood(1);
    LevelGood(2);
    LevelGood(3);
    assert Streams.HeadFits(cfg, 7);
  }

  lemma LevelGood(level: nat)
    requires level <= 3
    ensures var header := 0x7800 + 64 * level; var f := (header + (31 - header % 31)) % 256;
            f < 256 && f / 64 == level && (0x78, f) == HeadBytes(7, level, false)
  {
  }

  /** The header tells how hard the compressor tried: levels 0 and 1, up to 5, the default 6, and above. */
  lemma LevelTold(level: nat)
    requires level <= 10
    ensures Flg(NUM_PROBES[level]) / 64 == if level < 2 then 0 else if level < 6 then 1 else if level == 6 then 2 else 3
  {
    LevelGood(0);
    LevelGood(1);
    LevelGood(2);
    LevelGood(3);
  }

  ghost function ZHead(zlib: bool, probes: nat): seq<bool> {
    if zlib then ToBits(0x78, 8) + ToBits(Flg(probes), 8) else []
  }

  ghost function Start(zlib: bool): nat {
    if zlib then 16 else 0
  }

  /** The bytes written before and the bits of this flush make up the header and the printed chunks. */
  ghost predicate Prints(sent: seq<bool>, emitted: seq<byte>, zlib: bool, probes: nat, chunks: seq<Chunk>,
      out: seq<byte>) {
    var p := Print(chunks, Start(zlib));
    p.Printed? && p.out == out && ByteBits(emitted) + sent == ZHead(zlib, probes) + p.bits
  }

  /** The position of the next block. */
  ghost function NextPos(zlib: bool, chunks: seq<Chunk>): nat
    requires Print(chunks, Start(zlib)).Printed?
  {
    Start(zlib) + |Print(chunks, Start(zlib)).bits|
  }

  lemma PrintsPos(sent: seq<bool>, emitted: seq<byte>, zlib: bool, probes: nat, chunks: seq<Chunk>, out: seq<byte>)
    requires Prints(sent, emitted, zlib, probes, chunks, out)
    ensures Print(chunks, Start(zlib)).Printed? && 8 * |emitted| + |sent| == NextPos(zlib, chunks)
        && |sent| % 8 == NextPos(zlib, chunks) % 8
  {
    hide ToBits, ByteBits, Print;
    assert |ByteBits(emitted) + sent| == |ZHead(zlib, probes)| + |Print(chunks, Start(zlib)).bits|;
  }

  /** One more chunk. */
  lemma PrintsMore(sent: seq<bool>, more: seq<bool>, emitted: seq<byte>, zlib: bool, probes: nat, chunks: seq<Chunk>,
      out: seq<byte>, c: Chunk)
    requires Prints(sent, emitted, zlib, probes, chunks, out) && BlockOk(c.b, NextPos(zlib, chunks), out)
    requires more == BlockBits(c.b, c.final, NextPos(zlib, chunks), out)
    ensures Prints(sent + more, emitted, zlib, probes, chunks + [c], BlockOut(c.b, NextPos(zlib, chunks), out))
  {
    hide ToBits, ByteBits, BlockOk, BlockBits, BlockOut, ZHead;
    assert (chunks + [c])[..|chunks|] == chunks;
    var p := Print(chunks, Start(zlib));
    assert ByteBits(emitted) + (sent + more) == (ByteBits(emitted) + sent) + more;
    assert ZHead(zlib, probes) + (p.bits + more) == (ZHead(zlib, probes) + p.bits) + more;
  }

  /** The zlib header, before the first block only. */
  method PutZlibHeader(w: BitSink, zlib: bool, probes: nat)
    requires w.Valid() && w.sent == []
    modifies w
    ensures w.Valid() && w.limit == old(w.limit) && w.sent == ZHead(zlib, probes)
    ensures Prints(w.sent, [], zlib, probes, [], []) && |w.sent| <= 16
  {
    hide ToBits;
    if zlib {
      Sixteen();
      w.PutBits(0x78, 8);
      w.PutBits(Flg(probes), 8);
    }
  }

  /** A block of the recorded tokens. */
  method PutTokens(w: BitSink, rec: Recorder, end: nat, total: nat, dict: array<byte>, dictPos: nat, inWindow: bool,
      useRaw: bool, forceStatic: bool, final: bool,
                   ghost emitted: seq<byte>, ghost zlib: bool, ghost probes: nat, ghost chunks: seq<Chunk>,
                       ghost out: seq<byte>, ghost data: seq<byte>)
    returns (ghost b: Block, ghost tried: Block)
    requires w.Valid() && |w.sent| <= 100 && w.limit == OUT_LIMIT && Prints(w.sent, emitted, zlib, probes, chunks, out)
    requires ToksOk(rec.toks) && Layout(rec.buf[..], rec.toks, 0) && end == End(rec.toks) <= CODE_BUF
        && Reproduces(rec.toks, out, data)
    requires rec.litCount != rec.distCount && Counted(rec.toks, rec.litCount[..], rec.distCount[..])
    requires total == |data| && (useRaw ==> inWindow)
    requires inWindow ==> InDict(dict[..], dictPos, data)
    modifies w, rec.litCount
    ensures w.Valid() && w.limit == old(w.limit)
    ensures Prints(w.sent, emitted, zlib, probes, chunks + [Chunk(b, final)], out + data)
    ensures Print(chunks, Start(zlib)).Printed? && BlockFor(b, rec.toks, NextPos(zlib, chunks), out, data)
    ensures |w.sent| <= |old(w.sent)| + 678854 && (b.Stored? ==> inWindow) && (useRaw ==> b.Stored?)
    ensures (b.Fixed? ==> forceStatic || total < 48) && (b.Dynamic? ==> !forceStatic && total >= 48)
    ensures inWindow && total > 0 ==> |w.sent| <= |old(w.sent)| + 42 + 8 * total
    ensures b.Stored? && !useRaw ==> Unprofitable(tried, rec.toks, NextPos(zlib, chunks), out, data)
  {
    hide Layout, Reproduces, Counted, End, ToBits, ByteBits, BlockOk, BlockOut, BlockBits, Pow2, Prints, NextPos,
        Unprofitable;
    PrintsPos(w.sent, emitted, zlib, probes, chunks, out);
    ghost var pos := NextPos(zlib, chunks);
    b, tried := EmitBlock(w, rec, end, total, dict, dictPos, inWindow, useRaw, forceStatic, final, rec.toks, pos, out,
        data);
    PrintsMore(old(w.sent), BlockBits(b, final, pos, out), emitted, zlib, probes, chunks, out, Chunk(b, final));
  }

  lemma EmptyStored(n: nat, pos: nat, out: seq<byte>)
    requires n == Padding(pos + 3)
    ensures var b := Stored(ToBits(0, n), []);
            BlockOk(b, pos, out) && BlockOut(b, pos, out) == out
            && BlockBits(b, false, pos, out) == ToBits(0, 3) + ToBits(0, n) + (ToBits(0, 16) + ToBits(65535, 16))
  {
    hide ToBits, ByteBits, Padding;
    var none: seq<byte> := [];
    assert out + none == out;
    EmptyFacts();
    var a, c, d := ToBits(0, n), ToBits(0, 16), ToBits(65535, 16);
    JoinEmpty([false], ToBits(0, 2), a, c, d);
  }

  lemma EmptyFacts()
    ensures ToBits(0, 3) == [false] + ToBits(0, 2) && ByteBits([]) == []
  {
  }

  lemma JoinEmpty(f: seq<bool>, k: seq<bool>, a: seq<bool>, c: seq<bool>, d: seq<bool>)
    ensures f + (k + (a + (c + (d + [])))) == f + k + a + (c + d)
  {
    assert d + [] == d;
  }

  /** An empty stored block in place. */
  ghost predicate EmptyChunk(c: Chunk, pos: nat) {
    !c.final && c.b.Stored? && c.b.data == [] && |c.b.pad| == Padding(pos + 3)
  }

  lemma ThreeMore(a: nat, b: nat)
    requires a % 8 == b % 8
    ensures Padding(a + 3) == Padding(b + 3)
  {
    PaddingSame(a + 3, b + 3);
  }

  lemma WholeBytes(n: nat)
    ensures (n + Padding(n) + 32) % 8 == 0
  {
  }

  /** The marker after a sync or full flush: an empty stored block. */
  method PutSync(w: BitSink, ghost emitted: seq<byte>, ghost zlib: bool, ghost probes: nat, ghost chunks: seq<Chunk>,
      ghost out: seq<byte>) returns (ghost c: Chunk)
    requires w.Valid() && Prints(w.sent, emitted, zlib, probes, chunks, out)
    modifies w
    ensures w.Valid() && w.limit == old(w.limit) && !c.final && Prints(w.sent, emitted, zlib, probes, chunks + [c], out)
    ensures |w.sent| <= |old(w.sent)| + 42 && |w.sent| % 8 == 0
    ensures Print(chunks, Start(zlib)).Printed? && EmptyChunk(c, NextPos(zlib, chunks))
  {
    hide ToBits, ByteBits, BlockOk, BlockOut, BlockBits, Pow2, Prints, NextPos, Padding;
    PrintsPos(w.sent, emitted, zlib, probes, chunks, out);
    ghost var pos, s := NextPos(zlib, chunks), w.sent;
    ZeroBits(3);
    w.PutBits(0, 3);
    ghost var n := Padding(|w.sent|);
    ThreeMore(|s|, pos);
    EmptyStored(n, pos, out);
    PutPadding(w);
    PutLength(w, 0);
    WholeBytes(|s| + 3);
    c := Chunk(Stored(ToBits(0, n), []), false);
    assert w.sent == s + (ToBits(0, 3) + ToBits(0, n) + (ToBits(0, 16) + ToBits(65535, 16)));
    PrintsMore(s, BlockBits(c.b, false, pos, out), emitted, zlib, probes, chunks, out, c);
  }

  /** The whole stream: header, blocks, padding and, with a header, the checksum. */
  ghost predicate Ends(sent: seq<bool>, emitted: seq<byte>, zlib: bool, probes: nat, chunks: seq<Chunk>, sum: nat) {
    var p := Print(chunks, Start(zlib));
    p.Printed? && ByteBits(emitted) + sent
      == ZHead(zlib, probes)
          + (p.bits + (ToBits(0, Padding(NextPos(zlib, chunks))) + (if zlib then ByteBits(Streams.SumBytes(sum))
              else [])))
  }

  /** The four bytes of the checksum, most significant first. */
  method PutSum(w: BitSink, sum: nat)
    requires w.Valid() && sum < 0x1_0000_0000
    modifies w
    ensures w.Valid() && w.limit == old(w.limit) && w.sent == old(w.sent) + ByteBits(Streams.SumBytes(sum))
  {
    hide ToBits, ByteBits, Pow2, Streams.SumBytes;
    Sixteen();
    var a := sum;
    ghost var bytes := Streams.SumBytes(sum);
    NoBytes(bytes);
    for i := 0 to 4
      invariant w.Valid() && w.limit == old(w.limit) && 0 <= a && w.sent == old(w.sent) + ByteBits(bytes[..i])
      invariant a == Shifted(sum, i)
    {
      ShiftedTop(sum, i);
      w.PutBits(a / 0x100_0000 % 256, 8);
      ByteBitsSnoc(bytes[..i], bytes[i]);
      assert bytes[..i] + [bytes[i]] == bytes[..i + 1];
      a := a * 256 % 0x1_0000_0000;
    }
    assert bytes[..4] == bytes;
  }

  /** A 32-bit word shifted left by i bytes. */
  function Shifted(v: nat, i: nat): nat {
    if i == 0 then v else Shifted(v, i - 1) * 256 % 0x1_0000_0000
  }

  lemma ShiftedTop(v: nat, i: nat)
    requires i < 4 && v < 0x1_0000_0000
    ensures Shifted(v, i) / 0x100_0000 % 256 == Streams.SumBytes(v)[i]
  {
    var b0, b1, b2, b3 := FourBytes(v);
    hide Streams.SumBytes;
    assert Shifted(v, 0) == v;
    ShiftByte(v, b0, b1 * 0x1_0000 + b2 * 0x100 + b3);
    ShiftByte(Shifted(v, 1), b1, b2 * 0x1_0000 + b3 * 0x100);
    ShiftByte(Shifted(v, 2), b2, b3 * 0x1_0000);
    ShiftByte(Shifted(v, 3), b3, 0);
  }

  lemma FourBytes(v: nat) returns (b0: nat, b1: nat, b2: nat, b3: nat)
    requires v < 0x1_0000_0000
    ensures v == b0 * 0x100_0000 + b1 * 0x1_0000 + b2 * 0x100 + b3 && b0 < 256 && b1 < 256 && b2 < 256 && b3 < 256
    ensures Streams.SumBytes(v) == [b0, b1, b2, b3]
  {
    var x := v / 256;
    var y := x / 256;
    b0, b1, b2, b3 := y / 256, y % 256, x % 256, v % 256;
    assert v == x * 256 + b3 && x == y * 256 + b2 && y == b0 * 256 + b1;
    assert v / 0x1_0000 == y && v / 0x100_0000 == b0;
  }

  /** Shifting out the top byte. */
  lemma ShiftByte(x: nat, b: nat, r: nat)
    requires x == b * 0x100_0000 + r && b < 256 && r < 0x100_0000
    ensures x / 0x100_0000 % 256 == b && x * 256 % 0x1_0000_0000 == r * 256
  {
  }

  /** After the final block: alignment, and with a header the checksum. Nothing then waits in the bit buffer. */
  method PutFinish(w: BitSink, zlib: bool, sum: nat, ghost emitted: seq<byte>, ghost probes: nat,
      ghost chunks: seq<Chunk>, ghost out: seq<byte>)
    requires w.Valid() && sum < 0x1_0000_0000 && Prints(w.sent, emitted, zlib, probes, chunks, out)
    modifies w
    ensures w.Valid() && w.limit == old(w.limit) && Ends(w.sent, emitted, zlib, probes, chunks, sum)
    ensures |w.sent| % 8 == 0 && |w.sent| <= |old(w.sent)| + 39
  {
    hide ToBits, ByteBits, Pow2, Print, Streams.SumBytes, ZHead, Padding;
    PrintsPos(w.sent, emitted, zlib, probes, chunks, out);
    ghost var s, p := w.sent, Print(chunks, Start(zlib));
    PaddingSame(|s|, NextPos(zlib, chunks));
    PutPadding(w);
    ghost var pad := ToBits(0, Padding(NextPos(zlib, chunks)));
    assert w.sent == s + pad;
    if zlib {
      PutSum(w, sum);
      assert w.sent == s + pad + ByteBits(Streams.SumBytes(sum));
    } else {
      assert w.sent == s + pad + [];
    }
    JoinEnd(ByteBits(emitted), s, ZHead(zlib, probes), p.bits, pad, if zlib then ByteBits(Streams.SumBytes(sum))
        else []);
  }

  lemma JoinEnd(e: seq<bool>, s: seq<bool>, h: seq<bool>, b: seq<bool>, pad: seq<bool>, sum: seq<bool>)
    requires e + s == h + b
    ensures e + (s + pad + sum) == h + (b + (pad + sum))
  {
    assert e + (s + pad + sum) == (e + s) + (pad + sum);
    assert (h + b) + (pad + sum) == h + (b + (pad + sum));
  }

  /** A finished stream, whatever follows it, is a raw or zlib stream of its chunks. */
  lemma EndedRaw(cfg: Machine.Cfg, emitted: seq<byte>, rest: seq<byte>, probes: nat, chunks: seq<Chunk>, sum: nat)
    requires Ends([], emitted, false, probes, chunks, sum) && Closed(chunks) && (cfg.nonWrapping || cfg.window >= 32768)
    ensures Streams.RawStream(cfg, ByteBits(emitted + rest), chunks)
        && 8 * |emitted| == Machine.Align(|Print(chunks, 0).bits|)
  {
    hide ToBits, ByteBits, Print, Closed, Streams.ChunksSpan;
    ByteBitsConcat(emitted, rest);
    Streams.WideSpans(cfg, chunks, 0);
    var p := Print(chunks, 0);
    assert ByteBits(emitted) + [] == ByteBits(emitted);
    assert ByteBits(emitted) == p.bits + (ToBits(0, Padding(|p.bits|)) + []);
    assert p.bits <= ByteBits(emitted + rest);
  }

  lemma JoinZlib(m: seq<bool>, r: seq<bool>, a: seq<bool>, b: seq<bool>, c: seq<bool>, d: seq<bool>, e: seq<bool>)
    requires m + [] == a + b + (c + (d + e))
    ensures a + (b + (c + (d + e))) <= m + r && |m| == |a| + |b| + |c| + |d| + |e|
  {
    assert m + [] == m;
    assert a + b + (c + (d + e)) == a + (b + (c + (d + e)));
  }

  lemma EndedZlib(cfg: Machine.Cfg, emitted: seq<byte>, rest: seq<byte>, probes: nat, chunks: seq<Chunk>, sum: nat)
    requires Ends([], emitted, true, probes, chunks, sum) && Closed(chunks) && sum < 0x1_0000_0000
        && (cfg.nonWrapping || cfg.window >= 32768)
    ensures Flg(probes) < 256 && Print(chunks, Start(true)).Printed?
    ensures Streams.ZlibStream(cfg, ByteBits(emitted + rest), 0x78, Flg(probes), chunks,
        ToBits(0, Padding(NextPos(true, chunks))), sum)
    ensures 8 * |emitted| == Machine.Align(16 + |Print(chunks, 16).bits|) + 32
  {
    hide ToBits, ByteBits, Print, Closed, Flg, Streams.GoodHead, Streams.SumBytes, Padding, Streams.ChunksSpan;
    HeaderGood(cfg, probes);
    Streams.WideSpans(cfg, chunks, 16);
    ByteBitsConcat(emitted, rest);
    var a, b, c := ToBits(0x78, 8), ToBits(Flg(probes), 8), Print(chunks, 16).bits;
    var d, e := ToBits(0, Padding(NextPos(true, chunks))), ByteBits(Streams.SumBytes(sum));
    JoinZlib(ByteBits(emitted), ByteBits(rest), a, b, c, d, e);
  }
}
