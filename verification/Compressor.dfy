/** The compressor (third-party/miniz.c:1256-1408, 1752-1982): input and output in pieces, blocks flushed as the code
    buffer fills, and the stream finished on request. */
module Compressor {
  import opened Bits
  import opened Format
  import opened Tokens
  import opened TokenBuffer
  import opened Dictionary
  import opened Sink
  import opened Flushing
  import opened Output
  import opened Parsing
  import opened FullFlush
  import Adler
  import Streams

  datatype Flush = NoFlush | SyncFlush | FullFlush | Finish

  datatype Status = BadParam | Okay | AllDone

  ghost predicate NoFinal(chunks: seq<Chunk>) {
    forall i :: 0 <= i < |chunks| ==> !chunks[i].final
  }

  /** What has been printed: nothing yet, a header and whole blocks, or a finished stream. */
  ghost predicate Printing(opt: Options, blockIndex: nat, finished: bool, adler: nat, bitBuffer: nat, bitsIn: nat,
                           emitted: seq<byte>, chunks: seq<Chunk>, out: seq<byte>) {
    if finished then
      Closed(chunks) && Ends([], emitted, opt.zlib, opt.probes, chunks, adler)
          && Print(chunks, Start(opt.zlib)).out == out
    else
      && bitsIn < 8 && bitBuffer < Pow2(bitsIn) && NoFinal(chunks)
      && if blockIndex == 0 then chunks == [] && emitted == [] && bitsIn == 0 && out == []
         else Prints(ToBits(bitBuffer, bitsIn), emitted, opt.zlib, opt.probes, chunks, out)
  }

  /** The start of a flush: the header if it is still missing. */
  method Open(opt: Options, blockIndex: nat, bitBuffer: nat, bitsIn: nat, ghost adler: nat, ghost emitted: seq<byte>,
      ghost chunks: seq<Chunk>, ghost out: seq<byte>)
    returns (w: BitSink)
    requires Printing(opt, blockIndex, false, adler, bitBuffer, bitsIn, emitted, chunks, out)
    ensures fresh(w) && w.Valid() && w.limit == OUT_LIMIT && |w.sent| <= 23
        && Prints(w.sent, emitted, opt.zlib, opt.probes, chunks, out)
  {
    hide ToBits, Prints;
    w := new BitSink(OUT_LIMIT, bitBuffer, bitsIn);
    if blockIndex == 0 {
      NoBitsLeft(bitBuffer);
      PutZlibHeader(w, opt.zlib, opt.probes);
    }
  }

  lemma NoBitsLeft(v: nat)
    ensures ToBits(v, 0) == []
  {
  }

  /** A sync or a full flush ends with a marker. */
  predicate Syncs(flush: Flush) {
    flush.SyncFlush? || flush.FullFlush?
  }

  /** What the end of a flush adds to the blocks: an empty stored one, or nothing. */
  ghost predicate Marked(flush: Flush, chunks: seq<Chunk>, more: seq<Chunk>, pos: nat) {
    if Syncs(flush) then |more| == |chunks| + 1 && more[..|chunks|] == chunks && EmptyChunk(more[|chunks|], pos)
        else more == chunks
  }

  /** The end of a flush: the marker or the trailer, as asked for. */
  method Close(w: BitSink, opt: Options, flush: Flush, adler: nat, ghost emitted: seq<byte>, ghost chunks: seq<Chunk>,
      ghost out: seq<byte>)
    returns (ghost more: seq<Chunk>)
    requires w.Valid() && adler < 0x1_0000_0000
    requires Prints(w.sent, emitted, opt.zlib, opt.probes, chunks, out)
    modifies w
    ensures w.Valid() && w.limit == old(w.limit) && |w.sent| <= |old(w.sent)| + 42
    ensures flush == Finish ==>
              Ends(w.sent, emitted, opt.zlib, opt.probes, chunks, adler) && |w.sent| % 8 == 0 && more == chunks
    ensures flush != Finish ==> Prints(w.sent, emitted, opt.zlib, opt.probes, more, out) && chunks <= more
    ensures flush != Finish && NoFinal(chunks) ==> NoFinal(more)
    ensures Print(chunks, Start(opt.zlib)).Printed? && Marked(flush, chunks, more, NextPos(opt.zlib, chunks))
    ensures Syncs(flush) ==> |w.sent| % 8 == 0
  {
    hide Prints, Ends, EmptyChunk;
    FinalOut(w.sent, emitted, opt, chunks, out);
    more := chunks;
    if flush == Finish {
      PutFinish(w, opt.zlib, adler, emitted, opt.probes, chunks, out);
    } else if flush != NoFlush {
      ghost var c := PutSync(w, emitted, opt.zlib, opt.probes, chunks, out);
      more := chunks + [c];
    }
  }

  /** What the bits of a flush amount to. */
  ghost predicate Complete(opt: Options, fin: bool, adler: nat, sent: seq<bool>, emitted: seq<byte>,
      chunks: seq<Chunk>, out: seq<byte>) {
    if fin then Ends(sent, emitted, opt.zlib, opt.probes, chunks, adler) && |sent| % 8 == 0 && Closed(chunks)
        && Print(chunks, Start(opt.zlib)).out == out
    else Prints(sent, emitted, opt.zlib, opt.probes, chunks, out) && NoFinal(chunks)
  }

  lemma EndsWritten(opt: Options, adler: nat, bytes: seq<byte>, emitted: seq<byte>, chunks: seq<Chunk>)
    requires Ends(ByteBits(bytes), emitted, opt.zlib, opt.probes, chunks, adler)
    ensures Ends([], emitted + bytes, opt.zlib, opt.probes, chunks, adler)
  {
    hide ByteBits, Print, Streams.SumBytes, ZHead;
    ByteBitsConcat(emitted, bytes);
    assert ByteBits(emitted + bytes) + [] == ByteBits(emitted) + ByteBits(bytes);
  }

  lemma PrintsWritten(opt: Options, bytes: seq<byte>, rest: seq<bool>, emitted: seq<byte>, chunks: seq<Chunk>,
      out: seq<byte>)
    requires Prints(ByteBits(bytes) + rest, emitted, opt.zlib, opt.probes, chunks, out)
    ensures Prints(rest, emitted + bytes, opt.zlib, opt.probes, chunks, out)
  {
    hide ByteBits, Print, ZHead;
    ByteBitsConcat(emitted, bytes);
    assert ByteBits(emitted + bytes) + rest == ByteBits(emitted) + (ByteBits(bytes) + rest);
  }

  /** After a flush whose bytes were all written. */
  lemma Flushed(opt: Options, index: nat, fin: bool, adler: nat, bytes: seq<byte>, bitBuffer: nat, bitsIn: nat,
      sent: seq<bool>,
                emitted: seq<byte>, chunks: seq<Chunk>, out: seq<byte>)
    requires sent == ByteBits(bytes) + ToBits(bitBuffer, bitsIn) && bitsIn < 8 && bitBuffer < Pow2(bitsIn) && index > 0
    requires Complete(opt, fin, adler, sent, emitted, chunks, out)
    ensures Printing(opt, index, fin, adler, bitBuffer, bitsIn, emitted + bytes, chunks, out)
  {
    hide ToBits, ByteBits, Print, Prints, Ends, Pow2, Closed, NoFinal;
    if fin {
      assert bitsIn == 0;
      NoBitsLeft(bitBuffer);
      assert ByteBits(bytes) + [] == ByteBits(bytes);
      EndsWritten(opt, adler, bytes, emitted, chunks);
    } else {
      PrintsWritten(opt, bytes, ToBits(bitBuffer, bitsIn), emitted, chunks, out);
    }
  }

  // ----- one flush -----

  /** A block's tokens were printed: only the recorder still has to be reset. */
  ghost predicate Spent(ps: Parser)
    reads ps, ps.ring, ps.rec, ps.ring.dict
  {
    && ps.Apart() && ps.ring.Valid() && ps.rec.buf.Length == CODE_BUF && ps.rec.litCount != ps.rec.distCount
    && ps.rec.litCount.Length == 288 && ps.rec.distCount.Length == 32 && ps.rec.total == Bytes(ps.rec.toks)
    && Lossless(ps.ring.data, ps.ring.lookaheadPos, ps.ring.lookaheadSize, ps.blockStart, ps.rec.toks, ps.savedLen,
       ps.savedDist, ps.savedLit)
    && Since(ps.base, ps.ring.data, ps.ring.lookaheadPos, ps.ring.lookaheadSize, ps.blockStart, ps.rec.toks,
       ps.savedLen, ps.savedDist, ps.savedLit)
    && ps.base + ps.ring.dictSize <= ps.ring.lookaheadPos
  }

  /** The bytes of the block, where the ring still has them. */
  lemma BlockBytes(dict: seq<byte>, data: seq<byte>, p: nat, window: nat, start: nat, end: nat)
    requires RingOk(dict, data, p - window) && window <= DICT_SIZE && window <= p && start <= end <= p <= |data|
        && p - start <= window
    ensures InDict(dict, start, data[start..end])
  {
  }

  /** Print the recorded tokens as a block. */
  method PrintBlock(w: BitSink, ps: Parser, final: bool, ghost emitted: seq<byte>, ghost chunks: seq<Chunk>)
      returns (ghost b: Block)
    requires ps.Valid() && w.Valid() && |w.sent| <= 23 && w.limit == OUT_LIMIT
    requires Prints(w.sent, emitted, ps.opt.zlib, ps.opt.probes, chunks, ps.ring.data[..ps.blockStart])
    modifies w, ps.rec.buf, ps.rec.litCount
    ensures w.Valid() && w.limit == OUT_LIMIT && Spent(ps)
    ensures var end := ParsedTo(ps.ring.lookaheadPos, ps.savedLen);
            end <= |ps.ring.data|
                && Prints(w.sent, emitted, ps.opt.zlib, ps.opt.probes, chunks + [Chunk(b, final)], ps.ring.data[..end])
    ensures Print(chunks, Start(ps.opt.zlib)).Printed?
        && BlockFor(b, ps.rec.toks, NextPos(ps.opt.zlib, chunks), ps.ring.data[..ps.blockStart],
              ps.ring.data[ps.blockStart..ParsedTo(ps.ring.lookaheadPos, ps.savedLen)])
    ensures |w.sent| <= 678877 && (b.Fixed? ==> ps.opt.forceStatic || ps.rec.total < 48)
  {
    hide RingOk, IsMatch, Layout, Counted, Prints, Bytes, Reproduces, Since, BlockFor, Print;
    var rec, ring := ps.rec, ps.ring;
    var inWindow := ring.lookaheadPos - ps.blockStart <= ring.dictSize;
    ghost var end := ParsedTo(ring.lookaheadPos, ps.savedLen);
    ghost var data := ring.data[ps.blockStart..end];
    RingSize(ring.dict[..], ring.data, ring.lookaheadPos - ring.dictSize);
    if inWindow {
      BlockBytes(ring.dict[..], ring.data, ring.lookaheadPos, ring.dictSize, ps.blockStart, end);
    }
    CountShapes(rec.toks, rec.litCount[..], rec.distCount[..]);
    var codes := rec.Seal();
    ghost var tried;
    b, tried := PutTokens(w, rec, codes, rec.total, ring.dict, ps.blockStart, inWindow, ps.opt.forceRaw
        && inWindow, ps.opt.forceStatic, final,
                   emitted, ps.opt.zlib, ps.opt.probes, chunks, ring.data[..ps.blockStart], data);
    assert ring.data[..ps.blockStart] + data == ring.data[..end];
  }

  lemma CountShapes(s: seq<Tok>, lit: seq<nat>, dst: seq<nat>)
    requires Counted(s, lit, dst)
    ensures |lit| == 288 && |dst| == 32
  {
  }

  /** After a block: its bytes are behind the next block's start. */
  method Restart(ps: Parser)
    requires Spent(ps)
    modifies ps, ps.rec, ps.rec.litCount, ps.rec.distCount
    ensures ps.Valid() && ps.Apart() && ps.rec.toks == [] && ps.rec.codePos == 1
    ensures ps.blockStart == old(ParsedTo(ps.ring.lookaheadPos, ps.savedLen)) && ps.savedLen == old(ps.savedLen)
        && ps.base == old(ps.base)
  {
    hide RingOk, IsMatch, Layout, Counted, Since;
    RestartSince(ps.base, ps.ring.data, ps.ring.lookaheadPos, ps.ring.lookaheadSize, ps.blockStart, ps.rec.toks,
        ps.savedLen, ps.savedDist, ps.savedLit);
    RestartLossless(ps.ring.data, ps.ring.lookaheadPos, ps.ring.lookaheadSize, ps.blockStart, ps.rec.toks, ps.savedLen,
        ps.savedDist, ps.savedLit);
    ps.blockStart := ps.blockStart + ps.rec.total;
    ps.rec.Reset();
  }

  lemma RestartLossless(data: seq<byte>, p: nat, size: nat, start: nat, s: seq<Tok>, len: nat, dist: nat, lit: byte)
    requires Lossless(data, p, size, start, s, len, dist, lit)
    ensures start + Bytes(s) == ParsedTo(p, len) && Lossless(data, p, size, ParsedTo(p, len), [], len, dist, lit)
  {
    hide IsMatch, Deferred;
    var q := ParsedTo(p, len);
    assert data[q..q] == [] && data[..q] + [] == data[..q];
    NothingToReproduce(data[..q]);
  }

  lemma RestartSince(base: nat, data: seq<byte>, p: nat, size: nat, start: nat, s: seq<Tok>, len: nat, dist: nat,
      lit: byte)
    requires Since(base, data, p, size, start, s, len, dist, lit)
    ensures Since(base, data, p, size, ParsedTo(p, len), [], len, dist, lit)
  {
    hide Lossless, Reproduces, Bytes;
    RestartLossless(data[base..], p - base, size, start - base, s, len, dist, lit);
    SinceRange(base, data, p, size, start, s, len, dist, lit);
  }

  /** The tokens of the block, seen from the last full flush. */
  lemma SinceRange(base: nat, data: seq<byte>, p: nat, size: nat, start: nat, s: seq<Tok>, len: nat, dist: nat,
      lit: byte)
    requires Since(base, data, p, size, start, s, len, dist, lit)
    ensures var q := ParsedTo(p, len);
            base <= start <= q <= |data| && ParsedTo(p - base, len) == q - base
                && Reproduces(s, data[..start][base..], data[start..q])
  {
    hide IsMatch, Reproduces;
    var q := ParsedTo(p, len);
    assert data[base..][..start - base] == data[..start][base..]
        && data[base..][start - base..q - base] == data[start..q];
  }

  lemma NothingToReproduce(out: seq<byte>)
    ensures Reproduces([], out, []) && Bytes([]) == 0
  {
    var none: seq<Tok> := [];
    assert Items(none) == [];
    assert out + [] == out;
  }

  /** The chunks after a flush: only the last of a finished stream is final. */
  lemma ChunksNow(chunks: seq<Chunk>, b: Block, fin: bool, more: seq<Chunk>)
    requires NoFinal(chunks)
        && (if fin then more == chunks + [Chunk(b, true)] else NoFinal(chunks + [Chunk(b, false)]) ==> NoFinal(more))
    ensures if fin then Closed(more) else NoFinal(more)
  {
  }

  lemma FinalOut(sent: seq<bool>, emitted: seq<byte>, opt: Options, chunks: seq<Chunk>, out: seq<byte>)
    requires Prints(sent, emitted, opt.zlib, opt.probes, chunks, out)
    ensures Print(chunks, Start(opt.zlib)).Printed? && Print(chunks, Start(opt.zlib)).out == out
  {
  }

  /** What a sync or full flush leaves behind: an empty stored block. */
  ghost predicate EndsMarked(chunks: seq<Chunk>) {
    chunks != [] && chunks[|chunks| - 1].b.Stored? && chunks[|chunks| - 1].b.data == [] && !chunks[|chunks| - 1].final
  }

  lemma SpentInside(ps: Parser)
    requires Spent(ps)
    ensures ps.blockStart <= ParsedTo(ps.ring.lookaheadPos, ps.savedLen) <= |ps.ring.data|
  {
    hide Since, RingOk;
    StartInside(ps.ring.data, ps.ring.lookaheadPos, ps.ring.lookaheadSize, ps.blockStart, ps.rec.toks, ps.savedLen,
        ps.savedDist, ps.savedLit);
  }

  lemma BlockResumes(ps: Parser, chunks: seq<Chunk>, kept: nat, b: Block, final: bool)
    requires Spent(ps) && ps.blockStart <= ParsedTo(ps.ring.lookaheadPos, ps.savedLen) <= |ps.ring.data|
    requires Resumable(chunks, kept, ps.opt.zlib, ps.ring.data[..ps.blockStart], ps.base)
        && Print(chunks, Start(ps.opt.zlib)).Printed?
    requires BlockFor(b, ps.rec.toks, NextPos(ps.opt.zlib, chunks), ps.ring.data[..ps.blockStart],
                      ps.ring.data[ps.blockStart..ParsedTo(ps.ring.lookaheadPos, ps.savedLen)])
    ensures Resumable(chunks + [Chunk(b, final)], kept, ps.opt.zlib,
        ps.ring.data[..ParsedTo(ps.ring.lookaheadPos, ps.savedLen)], ps.base)
  {
    hide Resumable, BlockFor, Print, NextPos, Reproduces, Since, Lossless, RingOk;
    var data, start, end := ps.ring.data, ps.blockStart, ParsedTo(ps.ring.lookaheadPos, ps.savedLen);
    SinceRange(ps.base, data, ps.ring.lookaheadPos, ps.ring.lookaheadSize, start, ps.rec.toks, ps.savedLen,
        ps.savedDist, ps.savedLit);
    ResumeMore(chunks, kept, ps.opt.zlib, data[..start], ps.base, b, final, ps.rec.toks, data[start..end]);
    assert data[..start] + data[start..end] == data[..end];
  }

  lemma MarkResumes(flush: Flush, chunks: seq<Chunk>, more: seq<Chunk>, kept: nat, opt: Options, out: seq<byte>,
      base: nat)
    requires Print(chunks, Start(opt.zlib)).Printed? && Marked(flush, chunks, more, NextPos(opt.zlib, chunks))
    requires Resumable(chunks, kept, opt.zlib, out, base)
    ensures Resumable(more, kept, opt.zlib, out, base) && (Syncs(flush) ==> EndsMarked(more))
  {
    hide Resumable, Print, NextPos;
    if Syncs(flush) {
      ResumeMarked(chunks, kept, opt.zlib, out, base, more[|chunks|]);
      assert more == chunks + [more[|chunks|]];
    }
  }

  /** The bits of a flush: the block and what follows it. Whatever was recorded, they fit the output buffer with
      room to spare, as the source asserts. */
  method PrintFlush(w: BitSink, ps: Parser, flush: Flush, adler: nat, ghost emitted: seq<byte>,
      ghost chunks: seq<Chunk>, ghost kept: nat)
    returns (ghost more: seq<Chunk>)
    requires ps.Valid() && w.Valid() && |w.sent| <= 23 && w.limit == OUT_LIMIT && adler < 0x1_0000_0000
        && NoFinal(chunks)
    requires Prints(w.sent, emitted, ps.opt.zlib, ps.opt.probes, chunks, ps.ring.data[..ps.blockStart])
    requires Resumable(chunks, kept, ps.opt.zlib, ps.ring.data[..ps.blockStart], ps.base)
    modifies w, ps.rec.buf, ps.rec.litCount
    ensures w.Valid() && w.limit == OUT_LIMIT && Spent(ps) && |w.bytes| < OUT_LIMIT
    ensures w.sent == ByteBits(w.bytes) + ToBits(w.bitBuffer, w.bitsIn)
    ensures var end := ParsedTo(ps.ring.lookaheadPos, ps.savedLen);
            end <= |ps.ring.data|
                && Complete(ps.opt, flush == Finish, adler, w.sent, emitted, more, ps.ring.data[..end])
    ensures Resumable(more, kept, ps.opt.zlib, ps.ring.data[..ParsedTo(ps.ring.lookaheadPos, ps.savedLen)], ps.base)
    ensures Syncs(flush) ==> |w.sent| % 8 == 0 && EndsMarked(more)
    ensures chunks <= more
  {
    hide RingOk, IsMatch, Layout, Counted, Prints, Ends, Print, Lossless, ToBits, ByteBits, Pow2, Closed, NoFinal,
        Spent, Resumable, BlockFor, EmptyChunk, NextPos, Since, Reproduces;
    ghost var b := PrintBlock(w, ps, flush == Finish, emitted, chunks);
    ghost var end, with := ParsedTo(ps.ring.lookaheadPos, ps.savedLen), chunks + [Chunk(b, flush == Finish)];
    FinalOut(w.sent, emitted, ps.opt, with, ps.ring.data[..end]);
    SpentInside(ps);
    BlockResumes(ps, chunks, kept, b, flush == Finish);
    more := Close(w, ps.opt, flush, adler, emitted, with, ps.ring.data[..end]);
    MarkResumes(flush, with, more, kept, ps.opt, ps.ring.data[..end], ps.base);
    ChunksNow(chunks, b, flush == Finish, more);
    assert |w.bytes| < w.limit;
  }

  lemma StartInside(data: seq<byte>, p: nat, size: nat, start: nat, s: seq<Tok>, len: nat, dist: nat, lit: byte)
    requires Lossless(data, p, size, start, s, len, dist, lit)
    ensures start <= ParsedTo(p, len) <= |data|
  {
  }

  lemma BlockInside(ps: Parser)
    requires ps.Valid()
    ensures ps.blockStart <= ParsedTo(ps.ring.lookaheadPos, ps.savedLen) <= |ps.ring.data|
  {
    hide RingOk, IsMatch, Layout, Counted;
    StartInside(ps.ring.data, ps.ring.lookaheadPos, ps.ring.lookaheadSize, ps.blockStart, ps.rec.toks, ps.savedLen,
        ps.savedDist, ps.savedLit);
  }

  /** With nothing left to look ahead at, nothing is put off. */
  lemma NothingDeferred(data: seq<byte>, p: nat, start: nat, s: seq<Tok>, len: nat, dist: nat, lit: byte)
    requires Lossless(data, p, 0, start, s, len, dist, lit)
    ensures len == 0
  {
  }

  /** The work of a flush: header, block and what follows it are printed, and the next block begins. */
  method FlushBits(opt: Options, ps: Parser, flush: Flush, adler: nat, blockIndex: nat, bitBuffer: nat, bitsIn: nat,
                   ghost emitted: seq<byte>, ghost chunks: seq<Chunk>, ghost kept: nat)
    returns (bytes: seq<byte>, bits: nat, n: nat, ghost more: seq<Chunk>)
    requires ps.Valid() && ps.opt == opt && adler < 0x1_0000_0000 && ps.blockStart <= |ps.ring.data|
    requires Printing(opt, blockIndex, false, adler, bitBuffer, bitsIn, emitted, chunks, ps.ring.data[..ps.blockStart])
    requires Resumable(chunks, kept, opt.zlib, ps.ring.data[..ps.blockStart], ps.base)
    modifies ps, ps.rec, ps.rec.buf, ps.rec.litCount, ps.rec.distCount
    ensures ps.Valid() && ps.Apart() && ps.rec.codePos == 1 && ps.savedLen == old(ps.savedLen) && |bytes| < OUT_LIMIT
    ensures ps.base == old(ps.base) && ps.rec.toks == []
    ensures ps.blockStart == old(ParsedTo(ps.ring.lookaheadPos, ps.savedLen)) <= |ps.ring.data|
    ensures Printing(opt, blockIndex + 1, flush == Finish, adler, bits, n, emitted + bytes, more,
        ps.ring.data[..ps.blockStart])
    ensures Resumable(more, kept, opt.zlib, ps.ring.data[..ps.blockStart], ps.base)
    ensures Syncs(flush) ==> n == 0 && EndsMarked(more)
    ensures chunks <= more
  {
    hide RingOk, IsMatch, Layout, Counted, Prints, Ends, Print, Lossless, ToBits, ByteBits, Pow2, Closed, NoFinal,
        Complete, Parser.Valid, Spent, Resumable, Since;
    var w := Open(opt, blockIndex, bitBuffer, bitsIn, adler, emitted, chunks, ps.ring.data[..ps.blockStart]);
    more := PrintFlush(w, ps, flush, adler, emitted, chunks, kept);
    Restart(ps);
    bytes, bits, n := w.bytes, w.bitBuffer, w.bitsIn;
    Flushed(opt, blockIndex + 1, flush == Finish, adler, bytes, bits, n, w.sent, emitted, more,
        ps.ring.data[..ps.blockStart]);
  }

  class Tdefl {
    const opt: Options
    const parser: Parser
    var bitBuffer: nat
    var bitsIn: nat
    var blockIndex: nat
    var adler: nat
    var pending: seq<byte>
    var out: seq<byte>
    var outSize: nat
    var wantsToFinish: bool
    var finished: bool
    var prevStatus: Status

    /** The bytes handed out by earlier calls, and the chunks of the stream. */
    ghost var delivered: seq<byte>
    ghost var chunks: seq<Chunk>

    /** How many of the chunks were printed before the last full flush ended. */
    ghost var kept: nat

    ghost predicate Shape()
      reads this, parser, parser.ring, parser.rec
    {
      parser.opt == opt && parser.Apart() && adler < 0x1_0000_0000 && |out| <= outSize
    }

    /** Everything read is in the blocks printed, in the tokens recorded, or in the lookahead. */
    ghost predicate Valid(fin: bool)
      reads this, parser, parser.ring, parser.rec, parser.ring.dict, parser.rec.buf, parser.rec.litCount,
          parser.rec.distCount
    {
      && Shape() && parser.Valid()
      && Printing(opt, blockIndex, fin, adler, bitBuffer, bitsIn, delivered + out + pending, chunks,
         parser.ring.data[..parser.blockStart])
      && Resumable(chunks, kept, opt.zlib, parser.ring.data[..parser.blockStart], parser.base)
    }

    /** Everything read is printed, in whole bytes; the last of it is the marker of a flush. */
    ghost predicate AtBoundary()
      reads this, parser, parser.ring
    {
      bitsIn == 0 && blockIndex > 0 && parser.blockStart == |parser.ring.data| && EndsMarked(chunks) && !finished
    }

    constructor (opt: Options)
      ensures Valid(false) && Settled() && !finished && pending == [] && delivered == [] && out == []
          && prevStatus == Okay && !wantsToFinish
      ensures parser.ring.data == [] && adler == 1 && this.opt == opt && fresh(parser) && fresh(parser.ring)
          && fresh(parser.rec)
      ensures fresh(parser.ring.dict) && fresh(parser.ring.next) && fresh(parser.ring.hash)
      ensures fresh(parser.rec.buf) && fresh(parser.rec.litCount) && fresh(parser.rec.distCount)
    {
      hide Valid, Settled, Idle, Parser.Valid;
      this.opt := opt;
      parser := new Parser(opt);
      bitBuffer, bitsIn, blockIndex, adler := 0, 0, 0, 1;
      pending, out, outSize, wantsToFinish, finished, prevStatus := [], [], 0, false, false, Okay;
      delivered, chunks, kept := [], [], 0;
      new;
      NothingYet();
    }

    /** Before anything is read, nothing is printed. */
    lemma NothingYet()
      requires parser.Valid() && parser.opt == opt && parser.ring.data == [] && parser.blockStart == 0
          && parser.rec.codePos == 1
      requires bitBuffer == bitsIn == blockIndex == 0 && adler == 1 && out == pending == delivered == []
          && outSize == 0 && chunks == []
      requires kept == 0 && parser.base == 0
      requires !finished && !wantsToFinish && prevStatus == Okay
      ensures Valid(false) && Settled()
    {
      hide RingOk, Layout, Counted, Lossless, Since, Print, Resumable;
      assert parser.ring.data[..0] == [] && delivered + out + pending == [];
      NothingResumes(opt.zlib);
      NoSum();
    }

    lemma NothingResumes(zlib: bool)
      ensures Resumable([], 0, zlib, [], 0)
    {
      ResumeHere([], zlib, []);
    }

    lemma NoSum()
      ensures Adler.Checksum([]) == 1
    {
    }

    /** The bytes of a block go to the caller's buffer as far as there is room; the rest is kept. */
    method Deliver(bytes: seq<byte>)
      requires pending == [] && |out| <= outSize && |bytes| <= OUT_LIMIT
      modifies this
      ensures out + pending == old(out) + bytes && |out| <= outSize && old(out) <= out
      ensures pending != [] ==> |out| == outSize
      ensures unchanged(this`bitBuffer, this`bitsIn, this`blockIndex, this`adler, this`outSize, this`wantsToFinish,
          this`finished, this`prevStatus, this`delivered, this`chunks, this`kept)
    {
      var n := if outSize - |out| >= OUT_BUF_SIZE then |bytes| else Min(|bytes|, outSize - |out|);
      out := out + bytes[..n];
      pending := bytes[n..];
    }

    /** tdefl_flush_block. */
    method FlushBlock(flush: Flush)
      requires Valid(false) && pending == [] && (flush != NoFlush ==> parser.ring.lookaheadSize == 0)
      modifies this, parser, parser.rec, parser.rec.buf, parser.rec.litCount, parser.rec.distCount
      ensures Valid(flush == Finish) && parser.rec.codePos == 1 && parser.savedLen == old(parser.savedLen)
      ensures parser.blockStart == old(ParsedTo(parser.ring.lookaheadPos, parser.savedLen))
      ensures (pending != [] ==> |out| == outSize) && old(out) <= out
      ensures unchanged(this`adler, this`outSize, this`wantsToFinish, this`finished, this`prevStatus, this`delivered,
          this`kept)
      ensures parser.base == old(parser.base) && parser.rec.toks == [] && blockIndex > 0
          && (Syncs(flush) ==> bitsIn == 0 && EndsMarked(chunks)) && old(chunks) <= chunks
    {
      hide Parser.Valid, Parser.Apart, Printing, ParsedTo, Resumable, EndsMarked;
      ghost var out0, emitted := out, delivered + out;
      assert emitted + pending == emitted;
      BlockInside(parser);
      var bytes;
      bytes, bitBuffer, bitsIn, chunks := FlushBits(opt, parser, flush, adler, blockIndex, bitBuffer, bitsIn, emitted,
          chunks, kept);
      blockIndex := blockIndex + 1;
      Deliver(bytes);
      OutMoved(delivered, out0, bytes, out, pending);
    }

    /** Time to flush: the code buffer is nearly full, or the block does not compress. */
    method Crowded() returns (yes: bool)
      requires Valid(false)
      ensures !yes ==> parser.rec.codePos <= CODE_BUF - 8
    {
      var rec := parser.rec;
      yes := rec.codePos > CODE_BUF - 8
          || (rec.total > 31 * 1024 && (rec.codePos * 115 / 128 >= rec.total || opt.forceRaw));
    }

    /** More of the source. */
    method Feed(src: seq<byte>, from: nat) returns (used: nat)
      requires Valid(false) && from <= |src|
      modifies parser.ring, parser.ring.dict, parser.ring.next, parser.ring.hash
      ensures from + used <= |src| && (used == |src| - from || old(parser.ring.lookaheadSize) + used == 258)
      ensures parser.ring.data == old(parser.ring.data) + src[from..from + used]
      ensures parser.ring.lookaheadSize == old(parser.ring.lookaheadSize) + used
      ensures Valid(false)
    {
      hide RingOk, Layout, Counted, Lossless, Since, Printing, Resumable;
      ghost var was := parser.ring.data;
      ghost var start := parser.blockStart;
      StartInside(was, parser.ring.lookaheadPos, parser.ring.lookaheadSize, start, parser.rec.toks, parser.savedLen,
          parser.savedDist, parser.savedLit);
      used := parser.Feed(src, from);
      assert parser.ring.data[..start] == was[..start];
    }

    /** Parse one step, and flush a block if it is time. */
    method ParseOne()
      requires Valid(false) && pending == [] && parser.ring.lookaheadSize > 0 && parser.rec.codePos <= CODE_BUF - 8
      modifies this, parser, parser.ring, parser.rec, parser.rec.buf, parser.rec.litCount, parser.rec.distCount
      ensures Valid(false) && parser.rec.codePos <= CODE_BUF - 8 && (pending != [] ==> |out| == outSize)
          && old(out) <= out
      ensures parser.ring.data == old(parser.ring.data) && parser.ring.lookaheadSize < old(parser.ring.lookaheadSize)
      ensures unchanged(this`adler, this`outSize, this`wantsToFinish, this`finished, this`prevStatus, this`delivered,
          this`kept) && parser.base == old(parser.base) && old(chunks) <= chunks
    {
      hide RingOk, Layout, Counted, Lossless, Since, Printing, Resumable;
      parser.Step();
      var yes := Crowded();
      if yes {
        FlushBlock(NoFlush);
      }
    }

    /** tdefl_compress_normal: read and parse until the source is used up, or until output waits for room. */
    method CompressNormal(src: seq<byte>, flush: Flush) returns (used: nat)
      requires Valid(false) && pending == [] && parser.rec.codePos <= CODE_BUF - 8
      modifies this, parser, parser.ring, parser.ring.dict, parser.ring.next, parser.ring.hash, parser.rec,
          parser.rec.buf, parser.rec.litCount, parser.rec.distCount
      ensures Valid(false) && parser.rec.codePos <= CODE_BUF - 8 && (pending != [] ==> |out| == outSize)
          && old(out) <= out
      ensures used <= |src| && parser.ring.data == old(parser.ring.data) + src[..used]
      ensures pending == [] ==> used == |src| && (flush != NoFlush ==> parser.ring.lookaheadSize == 0)
      ensures |src| - used + parser.ring.lookaheadSize <= |src| + old(parser.ring.lookaheadSize)
      ensures pending != [] ==> |src| - used + parser.ring.lookaheadSize < |src| + old(parser.ring.lookaheadSize)
      ensures unchanged(this`adler, this`outSize, this`wantsToFinish, this`finished, this`prevStatus, this`delivered,
          this`kept) && parser.base == old(parser.base) && old(chunks) <= chunks
    {
      hide RingOk, Layout, Counted, Lossless, Since, Printing, Resumable, Valid, Parser.Valid, Ring.Valid;
      used := 0;
      assert parser.ring.data == old(parser.ring.data) + src[..0];
      while used < |src| || (flush != NoFlush && parser.ring.lookaheadSize > 0)
        invariant Valid(false) && pending == [] && parser.rec.codePos <= CODE_BUF - 8 && old(out) <= out
        invariant used <= |src| && parser.ring.data == old(parser.ring.data) + src[..used]
        invariant |src| - used + parser.ring.lookaheadSize <= |src| + old(parser.ring.lookaheadSize)
        invariant unchanged(this`adler, this`outSize, this`wantsToFinish, this`finished, this`prevStatus,
            this`delivered, this`kept) && parser.base == old(parser.base) && old(chunks) <= chunks
        decreases |src| - used + parser.ring.lookaheadSize
      {
        var n := Feed(src, used);
        assert src[..used] + src[used..used + n] == src[..used + n];
        used := used + n;
        if flush == NoFlush && parser.ring.lookaheadSize < 258 {
          break;
        }
        ParseOne();
        if pending != [] {
          return;
        }
      }
    }

    /** Between calls: the checksum, where one is kept, is that of everything read. */
    ghost predicate Idle()
      reads this, parser, parser.ring, parser.rec, parser.ring.dict, parser.rec.buf, parser.rec.litCount,
          parser.rec.distCount
    {
      && Valid(finished) && parser.rec.codePos <= CODE_BUF - 8
         && (finished ==> wantsToFinish && parser.blockStart == |parser.ring.data|)
      && (opt.zlib || opt.adler ==> adler == Adler.Checksum(parser.ring.data))
      && (prevStatus == AllDone ==> finished && pending == [])
    }

    /** Between calls, moreover, a finished stream that was handed out has been reported. */
    ghost predicate Settled()
      reads this, parser, parser.ring, parser.rec, parser.ring.dict, parser.rec.buf, parser.rec.litCount,
          parser.rec.distCount
    {
      Idle() && (finished && pending == [] ==> prevStatus != Okay)
    }

    /** tdefl_flush_output_buffer. */
    method FlushOutput() returns (status: Status)
      requires Shape()
      modifies this`out, this`pending
      ensures out + pending == old(out + pending) && |out| <= outSize && old(out) <= out
      ensures status == if finished && pending == [] then AllDone else Okay
      ensures pending != [] ==> |out| == outSize
    {
      var n := Min(outSize - |out|, |pending|);
      out := out + pending[..n];
      pending := pending[n..];
      status := if finished && pending == [] then AllDone else Okay;
    }

    lemma OutMoved(delivered: seq<byte>, out: seq<byte>, pending: seq<byte>, o: seq<byte>, p: seq<byte>)
      requires o + p == out + pending
      ensures delivered + o + p == delivered + out + pending
    {
      assert delivered + o + p == delivered + (o + p) && delivered + out + pending == delivered + (out + pending);
    }

    /** The end of a call that was asked to flush and has used up its source. */
    method FinishUp(flush: Flush)
      requires Valid(false) && pending == [] && flush != NoFlush && parser.ring.lookaheadSize == 0 && !finished
      modifies this, parser, parser.ring, parser.ring.next, parser.ring.hash, parser.rec, parser.rec.buf,
          parser.rec.litCount, parser.rec.distCount
      ensures Valid(finished) && parser.rec.codePos <= CODE_BUF - 8 && old(out) <= out && finished == (flush == Finish)
          && parser.blockStart == |parser.ring.data|
      ensures parser.ring.data == old(parser.ring.data) && parser.ring.lookaheadSize == 0
          && (pending != [] ==> |out| == outSize)
      ensures unchanged(this`adler, this`outSize, this`wantsToFinish, this`prevStatus, this`delivered)
      ensures (Syncs(flush) ==> AtBoundary()) && old(chunks) <= chunks
      ensures if flush == FullFlush then parser.base == |parser.ring.data|
          && kept == |chunks| else parser.base == old(parser.base) && kept == old(kept)
    {
      hide Print, RingOk, Layout, Counted, Since, Printing, Resumable, EndsMarked;
      NothingDeferred(parser.ring.data, parser.ring.lookaheadPos, parser.blockStart, parser.rec.toks, parser.savedLen,
          parser.savedDist, parser.savedLit);
      FlushBlock(flush);
      finished := flush == Finish;
      if flush == FullFlush {
        Renew();
      }
    }

    /** A full flush, once everything is printed: what follows will not reach back behind it. */
    method Renew()
      requires Valid(false) && AtBoundary() && parser.ring.lookaheadSize == 0 && parser.savedLen == 0
          && parser.rec.toks == []
      requires parser.blockStart == parser.ring.lookaheadPos
      modifies this`kept, parser`base, parser.ring, parser.ring.next, parser.ring.hash
      ensures Valid(false) && AtBoundary() && parser.base == |parser.ring.data| && kept == |chunks|
      ensures parser.ring.data == old(parser.ring.data) && parser.ring.lookaheadSize == 0
    {
      hide RingOk, Layout, Counted, Since, Lossless, Printing, Resumable, EndsMarked, Parser.Valid, Print;
      UnfinishedOnly(opt, blockIndex, adler, bitBuffer, bitsIn, delivered + out + pending, chunks,
          parser.ring.data[..parser.blockStart]);
      MarkHere(opt, blockIndex, adler, bitBuffer, delivered + out + pending, chunks,
          parser.ring.data[..parser.blockStart]);
      ResumeHere(chunks, opt.zlib, parser.ring.data[..parser.blockStart]);
      kept := |chunks|;
      parser.Forget();
    }

    /** The part of a call that compresses: read, sum, and finish up if the flush asks for it. */
    method Work(src: seq<byte>, flush: Flush) returns (used: nat)
      requires Idle() && pending == [] && !finished && out == [] && (flush == Finish ==> wantsToFinish)
      modifies this, parser, parser.ring, parser.ring.dict, parser.ring.next, parser.ring.hash, parser.rec,
          parser.rec.buf, parser.rec.litCount, parser.rec.distCount
      ensures used <= |src| && parser.ring.data == old(parser.ring.data) + src[..used] && Idle()
      ensures pending == [] ==> used == |src| && (flush == Finish ==> finished)
      ensures pending != [] ==> |out| == outSize
      ensures |src| - used + parser.ring.lookaheadSize <= |src| + old(parser.ring.lookaheadSize)
      ensures flush == Finish && !finished ==>
          |src| - used + parser.ring.lookaheadSize < |src| + old(parser.ring.lookaheadSize)
      ensures finished ==> used == |src| && flush == Finish
      ensures Syncs(flush) && pending == [] ==> AtBoundary()
      ensures old(chunks) <= chunks
      ensures flush == FullFlush && pending == [] ==> parser.base == |parser.ring.data| && kept == |chunks|
      ensures flush != FullFlush ==> parser.base == old(parser.base) && kept == old(kept)
      ensures unchanged(this`outSize, this`wantsToFinish, this`prevStatus, this`delivered)
    {
      hide Print, Recorder.Valid, RingOk, Layout, Counted, Lossless, Since, Printing, Resumable, AtBoundary,
          Adler.Adler32;
      ghost var was := parser.ring.data;
      used := CompressNormal(src, flush);
      if opt.zlib || opt.adler {
        Adler.AdlerConcat(1, was, src[..used]);
        StartInside(parser.ring.data, parser.ring.lookaheadPos, parser.ring.lookaheadSize, parser.blockStart,
            parser.rec.toks,
                    parser.savedLen, parser.savedDist, parser.savedLit);
        SumFree(opt, blockIndex, adler, Adler.Adler32(adler, src[..used]), bitBuffer, bitsIn,
            delivered + out + pending, chunks,
                parser.ring.data[..parser.blockStart]);
        adler := Adler.ComputeAdler32(adler, src[..used]);
      }
      if flush != NoFlush && parser.ring.lookaheadSize == 0 && used == |src| && pending == [] {
        FinishUp(flush);
      }
    }

    /** tdefl_compress. A call that finds output waiting only hands it out, as far as there is room; any other
        reads, and on "finish" it finishes, unless output has to wait. */
    method Compress(src: seq<byte>, room: nat, flush: Flush) returns (status: Status, used: nat, written: seq<byte>)
      requires Settled()
      modifies this, parser, parser.ring, parser.ring.dict, parser.ring.next, parser.ring.hash, parser.rec,
          parser.rec.buf, parser.rec.litCount, parser.rec.distCount
      ensures Settled() && used <= |src| && parser.ring.data == old(parser.ring.data) + src[..used]
      ensures written == out && |written| <= room && delivered == old(delivered) + old(out) && prevStatus == status
      ensures status == BadParam <==> old(prevStatus) != Okay || (old(wantsToFinish) && flush != Finish)
      ensures status == BadParam ==> used == 0 && written == [] && pending == old(pending) && finished == old(finished)
      ensures status == AllDone <==> status != BadParam && finished && pending == []
      ensures status != BadParam && pending != [] ==> |written| == room
      ensures status != BadParam ==>
                wantsToFinish == (old(wantsToFinish) || flush == Finish) && (old(finished) ==> finished)
      ensures status != BadParam && old(pending) != [] ==>
                used == 0 && written + pending == old(pending) && finished == old(finished)
                    && parser.ring.lookaheadSize == old(parser.ring.lookaheadSize)
      ensures status != BadParam && old(pending) == [] && pending == [] ==>
                used == |src| && (flush == Finish ==> finished)
      ensures |src| - used + parser.ring.lookaheadSize <= |src| + old(parser.ring.lookaheadSize)
      ensures finished && !old(finished) ==> used == |src| && flush == Finish
      ensures status != BadParam && old(pending) == [] && flush == Finish && !finished ==>
                |src| - used + parser.ring.lookaheadSize < |src| + old(parser.ring.lookaheadSize)
      ensures status != BadParam && old(pending) == [] && pending == [] && Syncs(flush) ==> AtBoundary()
      ensures status != BadParam && old(pending) == [] && pending == [] && flush == FullFlush ==>
                parser.base == |parser.ring.data| && kept == |chunks|
      ensures flush != FullFlush || old(pending) != [] || status == BadParam ==>
                parser.base == old(parser.base) && kept == old(kept)
      ensures old(chunks) <= chunks
      ensures old(pending) != [] || status == BadParam ==> chunks == old(chunks) && (old(AtBoundary()) ==> AtBoundary())
    {
      hide EndsMarked, Print, RingOk, Layout, Counted, Lossless, Since, Printing, Resumable, Adler.Adler32,
          Parser.Valid, Valid, Idle;
      StartCall(room);
      used, written := 0, [];
      assert src[..0] == [];
      if prevStatus != Okay || (wantsToFinish && flush != Finish) {
        Note(BadParam, wantsToFinish);
        return BadParam, used, written;
      }
      Note(prevStatus, wantsToFinish || flush == Finish);
      if pending == [] && !finished {
        used := Work(src, flush);
      }
      status := EndCall();
      written := out;
    }

    /** What a call notes down before it does anything. */
    method Note(status: Status, finish: bool)
      requires Idle() && (status == prevStatus || status == BadParam) && (wantsToFinish ==> finish)
      modifies this`prevStatus, this`wantsToFinish
      ensures Idle() && prevStatus == status && wantsToFinish == finish
    {
      hide RingOk, Layout, Counted, Lossless, Since, Printing, Resumable, Adler.Adler32, Parser.Valid;
      prevStatus, wantsToFinish := status, finish;
    }

    /** A call begins with an empty output buffer. */
    method StartCall(room: nat)
      requires Idle()
      modifies this`delivered, this`out, this`outSize
      ensures Idle() && out == [] && outSize == room && delivered == old(delivered) + old(out)
    {
      hide RingOk, Layout, Counted, Lossless, Since, Printing, Resumable, Adler.Adler32, Parser.Valid;
      assert delivered + out + [] + pending == delivered + out + pending;
      delivered := delivered + out;
      out, outSize := [], room;
    }

    /** A call ends by handing out what waits, as far as there is room. */
    method EndCall() returns (status: Status)
      requires Idle() && prevStatus == Okay
      modifies this`out, this`pending, this`prevStatus
      ensures Idle() && status == prevStatus && |out| <= outSize && old(out) <= out
      ensures status == if finished && pending == [] then AllDone else Okay
      ensures (old(pending) == [] ==> pending == []) && out + pending == old(out + pending)
      ensures pending != [] ==> |out| == outSize
    {
      hide EndsMarked, Print, RingOk, Layout, Counted, Lossless, Since, Printing, Resumable, Adler.Adler32,
          Parser.Valid;
      ghost var o, p := out, pending;
      status := FlushOutput();
      OutMoved(delivered, o, p, out, pending);
      prevStatus := status;
    }
  }

  lemma UnfinishedOnly(opt: Options, blockIndex: nat, adler: nat, bitBuffer: nat, bitsIn: nat, emitted: seq<byte>,
      chunks: seq<Chunk>, out: seq<byte>)
    requires Printing(opt, blockIndex, false, adler, bitBuffer, bitsIn, emitted, chunks, out)
    ensures NoFinal(chunks)
  {
  }

  /** With nothing in the bit buffer the next block starts at a byte boundary. */
  lemma MarkHere(opt: Options, blockIndex: nat, adler: nat, bitBuffer: nat, emitted: seq<byte>, chunks: seq<Chunk>,
      out: seq<byte>)
    requires Printing(opt, blockIndex, false, adler, bitBuffer, 0, emitted, chunks, out) && blockIndex > 0
    ensures Print(chunks, Start(opt.zlib)).Printed? && NextPos(opt.zlib, chunks) == 8 * |emitted|
  {
    hide Prints, ToBits;
    NoBitsLeft(bitBuffer);
    PrintsPos([], emitted, opt.zlib, opt.probes, chunks, out);
  }

  /** Until the stream is finished the checksum is not part of it. */
  lemma SumFree(opt: Options, blockIndex: nat, a: nat, adler: nat, bitBuffer: nat, bitsIn: nat, emitted: seq<byte>,
      chunks: seq<Chunk>, out: seq<byte>)
    requires Printing(opt, blockIndex, false, a, bitBuffer, bitsIn, emitted, chunks, out)
    ensures Printing(opt, blockIndex, false, adler, bitBuffer, bitsIn, emitted, chunks, out)
  {
  }
}
