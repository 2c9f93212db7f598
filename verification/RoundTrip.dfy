/** The round trip: whatever the compressor was fed, in whatever pieces, with whatever flushes and options, a
    decompressor given its stream, in whatever pieces and followed by anything, returns the bytes and stops at the
    stream's end. */
module RoundTrip {
  import opened Bits
  import opened Format
  import opened Machine
  import opened Runs
  import opened Suspension
  import Compressor
  import Decompressor
  import Inflater
  import Output
  import Parsing
  import Streams
  import Adler
  import opened FullFlush

  /** The decompressor's flags suit the compressor's. */
  ghost predicate Suits(cfg: Cfg, opt: Parsing.Options) {
    cfg.zlib == opt.zlib && (cfg.nonWrapping || cfg.window >= 32768)
  }

  lemma PrintedStream(opt: Parsing.Options, emitted: seq<byte>, rest: seq<byte>, chunks: seq<Chunk>, adler: nat,
      data: seq<byte>, cfg: Cfg) returns (t: St)
    requires Closed(chunks) && Output.Ends([], emitted, opt.zlib, opt.probes, chunks, adler) && adler < 0x1_0000_0000
    requires Print(chunks, Output.Start(opt.zlib)).out == data && Suits(cfg, opt)
    ensures Decodable(cfg, emitted + rest, t) && t.out == data && t.pos == 8 * |emitted|
        && (opt.zlib ==> t.ctl == Done(adler))
  {
    hide Leads, Print, ByteBits, ToBits, Closed, Output.Ends, Streams.ZlibStream, Streams.RawStream;
    if opt.zlib {
      Output.EndedZlib(cfg, emitted, rest, opt.probes, chunks, adler);
      t := ZlibDecodable(cfg, emitted + rest, 0x78, Output.Flg(opt.probes), chunks,
          ToBits(0, Padding(Output.NextPos(true, chunks))), adler);
    } else {
      Output.EndedRaw(cfg, emitted, rest, opt.probes, chunks, adler);
      t := RawDecodable(cfg, emitted + rest, chunks);
    }
  }

  /** Everything a compressor has handed out. */
  ghost function Stream(c: Compressor.Tdefl): seq<byte>
    reads c
  {
    c.delivered + c.out
  }

  /** A compressor that has reported its stream done has printed one that the reference decoder reads back. */
  lemma FinishedStream(c: Compressor.Tdefl, cfg: Cfg, rest: seq<byte>) returns (t: St)
    requires c.Idle() && c.finished && c.pending == [] && Suits(cfg, c.opt)
    ensures Decodable(cfg, Stream(c) + rest, t) && t.out == c.parser.ring.data && t.pos == 8 * |Stream(c)|
    ensures c.opt.zlib ==> t.ctl == Done(Adler.Checksum(c.parser.ring.data))
  {
    hide Leads, Print, ByteBits, ToBits, Closed, Output.Ends, Adler.Adler32;
    assert Stream(c) + [] == Stream(c);
    var data := c.parser.ring.data;
    assert data[..c.parser.blockStart] == data;
    t := PrintedStream(c.opt, Stream(c), rest, c.chunks, c.adler, data, cfg);
  }

  /** The two ends of the wire: a finished compressor, and a decompressor that has seen the first k bytes of its stream
      followed by rest. */
  ghost predicate Wired(c: Compressor.Tdefl, d: Decompressor.Tinfl, rest: seq<byte>, k: nat)
    reads c, c.parser, c.parser.ring, c.parser.rec, c.parser.ring.dict, c.parser.rec.buf, c.parser.rec.litCount,
        c.parser.rec.distCount
    reads d, d.ts.lookUp0, d.ts.tree0, d.ts.lookUp1, d.ts.tree1, d.ts.lookUp2, d.ts.tree2
  {
    && c.Idle() && c.finished && c.pending == [] && Suits(d.cfg, c.opt)
    && d.Valid() && d.sure && !d.regs.pc.P0? && k <= |Stream(c) + rest| && d.seen == (Stream(c) + rest)[..k]
  }

  /** The decompressor never fails, and never hands out anything but the next bytes of what was compressed. It
      starves only before the stream's end, and when it is done it has handed out everything, it has read the stream
      and nothing of what follows, and the checksums agree. */
  lemma RoundTrip(c: Compressor.Tdefl, d: Decompressor.Tinfl, rest: seq<byte>, k: nat)
    requires Wired(c, d, rest, k)
    ensures !d.st.ctl.Failed? && d.st.out <= c.parser.ring.data
    ensures d.st.ctl.Done? ==> d.st.out == c.parser.ring.data && d.st.pos == 8 * |Stream(c)|
    ensures d.st.ctl.Done? && c.opt.zlib ==> d.st.ctl.sum == Adler.Checksum(d.st.out)
    ensures WellFormed(d.st) && (Inflater.Starved(d.cfg, ByteBits(d.seen), d.st) ==> k < |Stream(c)|)
  {
    hide Leads, Decodable, Decompressor.Suspended, ByteBits, Adler.Checksum, Inflater.Starved, WellFormed,
        Compressor.Printing, Parsing.Parser.Valid;
    var t := FinishedStream(c, d.cfg, rest);
    OnTheWay(d.cfg, Stream(c) + rest, k, d.regs, d.st);
    Progresses(d.cfg, Stream(c) + rest, k, d.regs, d.st, t);
  }

  /** With the whole stream seen, the decompressor is done, or has output to hand out. */
  lemma NothingMissing(c: Compressor.Tdefl, d: Decompressor.Tinfl, rest: seq<byte>, k: nat,
      status: Decompressor.Status, hasMore: bool, full: bool)
    requires Wired(c, d, rest, k) && k >= |Stream(c)| && Decompressor.Ended(status, d.cfg, hasMore, d.seen, d.st, full)
    ensures status == Decompressor.StatusDone || status == Decompressor.AdlerMismatch
        || (status == Decompressor.HasMoreOutput && full)
    ensures d.st.ctl.Done? ==> k == |Stream(c)|
  {
    hide Leads, Decompressor.Suspended, ByteBits, Inflater.Starved, WellFormed, Compressor.Printing,
        Parsing.Parser.Valid;
    RoundTrip(c, d, rest, k);
  }

  /** Whatever piece of the stream comes next, the decompressor is given a valid stream as far as it goes. */
  lemma MayGoOn(c: Compressor.Tdefl, cfg: Cfg, rest: seq<byte>, k: nat)
    requires c.Idle() && c.finished && c.pending == [] && Suits(cfg, c.opt) && k <= |Stream(c) + rest|
    ensures Decompressor.CleanAll(cfg, (Stream(c) + rest)[..k])
  {
    hide ByteBits, Compressor.Printing, Parsing.Parser.Valid, Inflater.Clean, WellFormed, Leads;
    var x := Stream(c) + rest;
    var t := FinishedStream(c, cfg, rest);
    LeadsSelf(cfg, ByteBits(x), Init(cfg));
    DecodableClean(cfg, x, t, Init(cfg));
    PrefixBits(x, k);
    CleanLess(cfg, ByteBits(x[..k]), ByteBits(x), Init(cfg));
  }

  // ----- flush points -----

  /** Blocks that end at a byte boundary are read to the next block's head, whatever follows. */
  lemma OpenStream(opt: Parsing.Options, emitted: seq<byte>, rest: seq<byte>, chunks: seq<Chunk>, data: seq<byte>,
      cfg: Cfg) returns (t: St)
    requires Output.Prints([], emitted, opt.zlib, opt.probes, chunks, data) && Compressor.NoFinal(chunks)
        && Suits(cfg, opt)
    ensures WellFormed(Init(cfg)) && Leads(cfg, ByteBits(emitted + rest), Init(cfg), t) && WellFormed(t)
    ensures t.ctl == Head && t.out == data && t.pos == 8 * |emitted|
  {
    hide Leads, Print, ByteBits, ToBits, Streams.GoodHead, Streams.ChunksSpan, At, Output.Flg, WellFormed;
    var S, p := ByteBits(emitted + rest), Print(chunks, Output.Start(opt.zlib));
    ByteBitsConcat(emitted, rest);
    assert ByteBits(emitted) + [] == ByteBits(emitted);
    Streams.WideSpans(cfg, chunks, Output.Start(opt.zlib));
    Decompressor.InitWell(cfg);
    var u := Init(cfg);
    if opt.zlib {
      var a, b := ToBits(0x78, 8), ToBits(Output.Flg(opt.probes), 8);
      Output.HeaderGood(cfg, opt.probes);
      HeadThenBits(S, a, b, p.bits, ByteBits(rest));
      u := Streams.HeaderBytes(cfg, S, 0x78, Output.Flg(opt.probes));
    } else {
      LeadsSelf(cfg, S, u);
      BitsFirst(S, p.bits, ByteBits(rest));
    }
    t := Streams.ChunksLead(cfg, S, u, chunks);
    LeadsTrans(cfg, S, Init(cfg), u, t);
  }

  lemma HeadThenBits(S: seq<bool>, a: seq<bool>, b: seq<bool>, c: seq<bool>, rest: seq<bool>)
    requires S == a + b + c + rest
    ensures At(S, 0, a) && At(S, |a|, b) && At(S, |a| + |b|, c)
  {
  }

  lemma BitsFirst(S: seq<bool>, c: seq<bool>, rest: seq<bool>)
    requires S == [] + c + rest
    ensures At(S, 0, c)
  {
  }

  /** A sync or full flush makes everything read so far available: from what was handed out, whatever follows it,
      the reference decoder gets to the head of the next block with exactly those bytes as output. */
  lemma FlushPoint(c: Compressor.Tdefl, cfg: Cfg, rest: seq<byte>) returns (t: St)
    requires c.Idle() && c.AtBoundary() && c.pending == [] && Suits(cfg, c.opt)
    ensures WellFormed(Init(cfg)) && Leads(cfg, ByteBits(Stream(c) + rest), Init(cfg), t) && WellFormed(t)
    ensures t.ctl == Head && t.out == c.parser.ring.data && t.pos == 8 * |Stream(c)|
  {
    hide Leads, Print, ByteBits, ToBits, Output.Prints, Resumable, Parsing.Parser.Valid, WellFormed, Adler.Adler32;
    assert Stream(c) + [] == Stream(c);
    var data := c.parser.ring.data;
    assert data[..c.parser.blockStart] == data;
    Compressor.NoBitsLeft(c.bitBuffer);
    t := OpenStream(c.opt, Stream(c), rest, c.chunks, data, cfg);
  }

  /** So a decompressor that has seen it, in whatever cuts, has written nothing but those bytes; and all of them
      once it asks for more input. */
  lemma FlushSeen(c: Compressor.Tdefl, d: Decompressor.Tinfl)
    requires c.Idle() && c.AtBoundary() && c.pending == [] && Suits(d.cfg, c.opt)
    requires d.Valid() && d.sure && !d.regs.pc.P0? && d.seen == Stream(c)
    ensures d.st.out <= c.parser.ring.data && !Halted(d.st.ctl)
    ensures Inflater.Starved(d.cfg, ByteBits(d.seen), d.st) ==> d.st.out == c.parser.ring.data
  {
    hide Leads, ByteBits, Decompressor.Suspended, Step, WellFormed, Compressor.Printing, Parsing.Parser.Valid,
        Resumable, Compressor.EndsMarked;
    var x, S := Stream(c), ByteBits(Stream(c));
    assert x + [] == x && x[..|x|] == x;
    var t := FlushPoint(c, d.cfg, []);
    OnTheWay(d.cfg, x, |x|, d.regs, d.st);
    HeadWaits(d.cfg, S, t);
    Deterministic(d.cfg, S, Init(d.cfg), t, d.st);
    if Leads(d.cfg, S, d.st, t) {
      LeadsKeeps(d.cfg, S, d.st, t);
      NotHaltedYet(d.cfg, S, d.st, t);
      if Inflater.Starved(d.cfg, S, d.st) {
        StalledLeads(d.cfg, S, d.st, t);
      }
    } else {
      StalledLeads(d.cfg, S, t, d.st);
    }
  }

  lemma HeadWaits(cfg: Cfg, S: seq<bool>, t: St)
    requires WellFormed(t) && t.ctl == Head && t.pos == |S|
    ensures Step(cfg, t, S).Stall?
  {
    hide FieldStep;
  }

  lemma NotHaltedYet(cfg: Cfg, S: seq<bool>, st: St, t: St)
    requires WellFormed(st) && Leads(cfg, S, st, t) && !Halted(t.ctl)
    ensures !Halted(st.ctl)
  {
    hide Leads, WellFormed;
    if Halted(st.ctl) {
      assert Step(cfg, st, S).Stall?;
      StalledLeads(cfg, S, st, t);
    }
  }

  /** How many bytes of the stream there were when the last full flush ended. */
  ghost function Mark(c: Compressor.Tdefl): nat
    requires c.kept <= |c.chunks| && Print(c.chunks[..c.kept], Output.Start(c.opt.zlib)).Printed?
    reads c
  {
    Output.NextPos(c.opt.zlib, c.chunks[..c.kept]) / 8
  }

  /** Right after it, the mark is where the stream has got to. */
  lemma MarkIsHere(c: Compressor.Tdefl)
    requires c.Idle() && c.AtBoundary() && c.pending == [] && c.kept == |c.chunks|
    ensures Print(c.chunks[..c.kept], Output.Start(c.opt.zlib)).Printed? && Mark(c) == |Stream(c)|
  {
    hide Print, ByteBits, ToBits, Output.Prints, Parsing.Parser.Valid, Adler.Adler32;
    assert c.chunks[..c.kept] == c.chunks && Stream(c) + [] == Stream(c);
    Compressor.MarkHere(c.opt, c.blockIndex, c.adler, c.bitBuffer, Stream(c), c.chunks,
        c.parser.ring.data[..c.parser.blockStart]);
  }

  /** What was handed out up to a flush is valid as far as it goes, and so is every piece of it. */
  lemma FlushClean(c: Compressor.Tdefl, cfg: Cfg)
    requires c.Idle() && c.AtBoundary() && c.pending == [] && Suits(cfg, c.opt)
    ensures Decompressor.CleanAll(cfg, Stream(c))
  {
    hide Leads, ByteBits, Step, WellFormed, Compressor.Printing, Parsing.Parser.Valid, Resumable, Compressor.EndsMarked;
    var x, S := Stream(c), ByteBits(Stream(c));
    assert x + [] == x;
    var t := FlushPoint(c, cfg, []);
    HeadWaits(cfg, S, t);
    forall u | Leads(cfg, S, Init(cfg), u) ensures !u.ctl.Invalid? {
      LeadsKeeps(cfg, S, Init(cfg), u);
      Deterministic(cfg, S, Init(cfg), t, u);
      if Leads(cfg, S, u, t) {
        NotHaltedYet(cfg, S, u, t);
      } else {
        StalledLeads(cfg, S, t, u);
      }
    }
  }

  lemma ByteTail(x: seq<byte>, k: nat)
    requires k <= |x|
    ensures ByteBits(x[k..]) == ByteBits(x)[8 * k..]
  {
    hide ByteBits;
    ByteBitsConcat(x[..k], x[k..]);
    assert x[..k] + x[k..] == x;
  }

  /** The last part's blocks are a stream of their own: only the last is final. */
  lemma TailCloses(chunks: seq<Chunk>, kept: nat, zlib: bool, out: seq<byte>, base: nat)
    requires Closed(chunks) && Resumable(chunks, kept, zlib, out, base)
    ensures Closed(chunks[kept..])
  {
    hide Print;
  }

  /** Behind a full flush a finished stream can be decompressed without anything before it: cut there, it is a raw
      stream of the bytes read since then. */
  lemma AfterFullFlush(c: Compressor.Tdefl, cfg: Cfg, rest: seq<byte>) returns (t: St)
    requires c.Idle() && c.finished && c.pending == [] && !cfg.zlib && (cfg.nonWrapping || cfg.window >= 32768)
    ensures c.kept <= |c.chunks| && Print(c.chunks[..c.kept], Output.Start(c.opt.zlib)).Printed?
        && Mark(c) <= |Stream(c)|
    ensures c.parser.base <= |c.parser.ring.data|
    ensures Decodable(cfg, Stream(c)[Mark(c)..] + rest, t) && t.out == c.parser.ring.data[c.parser.base..]
  {
    hide Leads, Print, ByteBits, ToBits, Closed, Parsing.Parser.Valid, Decodable, Adler.Adler32, Output.ZHead,
        Streams.SumBytes, Streams.ChunksSpan;
    var data := c.parser.ring.data;
    assert data[..c.parser.blockStart] == data && Stream(c) + [] == Stream(c);
    var head, tail := c.chunks[..c.kept], c.chunks[c.kept..];
    assert head + tail == c.chunks;
    PrintSplit(head, tail, Output.Start(c.opt.zlib));
    TailCloses(c.chunks, c.kept, c.opt.zlib, data, c.parser.base);
    var z, a, b := Output.ZHead(c.opt.zlib, c.opt.probes), Print(head, Output.Start(c.opt.zlib)).bits,
        Print(tail, 0).bits;
    HeadLength(c.opt.zlib, c.opt.probes);
    assert |z + a| == 8 * Mark(c);
    assert ByteBits(Stream(c)) + [] == ByteBits(Stream(c));
    TailBits(ByteBits(Stream(c)), z, a, b);
    ByteTail(Stream(c), Mark(c));
    var x := Stream(c)[Mark(c)..];
    ByteBitsConcat(x, rest);
    assert b <= ByteBits(x + rest);
    Streams.WideSpans(cfg, tail, 0);
    t := RawDecodable(cfg, x + rest, tail);
  }

  lemma HeadLength(zlib: bool, probes: nat)
    ensures |Output.ZHead(zlib, probes)| == Output.Start(zlib)
  {
    hide ToBits;
  }

  lemma TailBits(S: seq<bool>, z: seq<bool>, a: seq<bool>, b: seq<bool>)
    requires exists e :: S == z + (a + b + e)
    ensures |z + a| <= |S| && b <= S[|z + a|..]
  {
    var e :| S == z + (a + b + e);
    assert S == (z + a) + (b + e);
  }
}
