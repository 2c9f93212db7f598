/** From bytes to a stream and back: compressing in any pieces with any flushes, then decompressing in any cuts. */
module EndToEnd {
  import opened Bits
  import opened Machine
  import opened Runs
  import Inflater
  import opened Compressor
  import Decompressor
  import opened Suspension
  import opened Calls
  import opened RoundTrip
  import Parsing
  import Adler

  /** Ask to finish, with any positive room each time, until the stream is done. */
  method FinishStream(c: Tdefl, src: seq<byte>, rooms: nat -> nat, stream0: seq<byte>) returns (stream: seq<byte>)
    requires c.Settled() && c.prevStatus == Okay && !c.finished && stream0 == Stream(c) && forall i: nat :: rooms(i) > 0
    modifies c, c.parser, c.parser.ring, c.parser.ring.dict, c.parser.ring.next, c.parser.ring.hash, c.parser.rec,
        c.parser.rec.buf,
             c.parser.rec.litCount, c.parser.rec.distCount
    ensures c.Settled() && c.finished && c.pending == [] && c.parser.ring.data == old(c.parser.ring.data) + src
        && stream == Stream(c)
  {
    hide Tdefl.Idle, Tdefl.Valid, Parsing.Parser.Valid;
    var used, i: nat, status := 0, 0, Okay;
    stream := stream0;
    assert src[..0] == [];
    while status == Okay
      invariant c.Settled() && c.prevStatus == status && status in {Okay, AllDone} && used <= |src|
          && stream == Stream(c)
      invariant c.parser.ring.data == old(c.parser.ring.data) + src[..used] && (c.finished ==> used == |src|)
      invariant status == AllDone ==> c.finished && c.pending == []
      decreases |src| - used + c.parser.ring.lookaheadSize + (if c.finished then 0 else 1),
          |c.pending| + (if status == Okay then 1 else 0)
    {
      var n, written;
      ghost var used0, size0, done0, pending0 := used, c.parser.ring.lookaheadSize, c.finished, c.pending;
      status, n, written := c.Compress(src[used..], rooms(i), Finish);
      assert src[..used] + src[used..][..n] == src[..used + n];
      stream, used, i := stream + written, used + n, i + 1;
    }
    assert src[..used] == src;
  }

  /** A call before the last: so much input, so much room, and a flush. */
  datatype Piece = Piece(input: nat, room: nat, flush: Flush)

  predicate NoFinish(pieces: seq<Piece>) {
    forall i :: 0 <= i < |pieces| ==> pieces[i].flush != Finish
  }

  /** One more piece. */
  method NextPiece(d: Tdefl, data: seq<byte>, used0: nat, piece: Piece, stream0: seq<byte>)
      returns (stream: seq<byte>, used: nat)
    requires d.Settled() && d.prevStatus == Okay && !d.finished && !d.wantsToFinish && piece.flush != Finish
    requires used0 <= |data| && d.parser.ring.data == data[..used0] && stream0 == Stream(d)
    modifies d, d.parser, d.parser.ring, d.parser.ring.dict, d.parser.ring.next, d.parser.ring.hash, d.parser.rec,
        d.parser.rec.buf,
             d.parser.rec.litCount, d.parser.rec.distCount
    ensures d.Settled() && d.prevStatus == Okay && !d.finished && !d.wantsToFinish
    ensures used <= |data| && d.parser.ring.data == data[..used] && stream == Stream(d)
  {
    hide Tdefl.Idle, Tdefl.Valid, Parsing.Parser.Valid;
    var n := if piece.input < |data| - used0 then piece.input else |data| - used0;
    var status, k, written := d.Compress(data[used0..used0 + n], piece.room, piece.flush);
    assert data[..used0] + data[used0..used0 + n][..k] == data[..used0 + k];
    stream, used := stream0 + written, used0 + k;
  }

  /** Compress data by calls with any pieces, room and flushes, then finish. */
  method CompressInPieces(opt: Parsing.Options, data: seq<byte>, pieces: seq<Piece>, rooms: nat -> nat)
      returns (stream: seq<byte>, ghost c: Tdefl)
    requires NoFinish(pieces) && forall i: nat :: rooms(i) > 0
    ensures c.Settled() && c.finished && c.pending == [] && c.opt == opt && c.parser.ring.data == data
        && stream == Stream(c)
    ensures Unpacks(opt.zlib, stream, data)
  {
    hide Tdefl.Settled, Tdefl.Idle, Tdefl.Valid, Parsing.Parser.Valid, Unpacks;
    var d := new Tdefl(opt);
    var used := 0;
    stream := [];
    for i := 0 to |pieces|
      invariant fresh(d) && fresh(d.parser) && fresh(d.parser.ring) && fresh(d.parser.ring.dict)
          && fresh(d.parser.ring.next)
      invariant fresh(d.parser.ring.hash) && fresh(d.parser.rec) && fresh(d.parser.rec.buf)
          && fresh(d.parser.rec.litCount)
      invariant fresh(d.parser.rec.distCount)
      invariant d.Settled() && d.prevStatus == Okay && !d.finished && !d.wantsToFinish && d.opt == opt
      invariant 0 <= used <= |data| && d.parser.ring.data == data[..used] && stream == Stream(d)
    {
      stream, used := NextPiece(d, data, used, pieces[i], stream);
    }
    assert data[..used] + data[used..] == data;
    stream := FinishStream(d, data[used..], rooms, stream);
    c := d;
    StreamUnpacks(d);
  }

  /** A decompressor with room for the data reads the stream to its end, and gets the data. */
  ghost predicate Unpacks(zlib: bool, stream: seq<byte>, data: seq<byte>) {
    exists t :: Concluded(Decompressor.CfgOf(zlib, true, 0), stream, |data|, Decompressor.StatusDone, t) &&
                t.out == data && t.pos == 8 * |stream|
  }

  lemma StreamUnpacks(c: Tdefl)
    requires c.Settled() && c.finished && c.pending == []
    ensures Unpacks(c.opt.zlib, Stream(c), c.parser.ring.data)
  {
    hide Tdefl.Idle, Concluded, Decompressor.CleanAll;
    StreamConcludes(c, [], |c.parser.ring.data|);
    assert Stream(c) + [] == Stream(c);
  }

  /** The stream decompresses to the data. */
  lemma StreamConcludes(c: Tdefl, rest: seq<byte>, room: nat)
    requires c.Idle() && c.finished && c.pending == [] && |c.parser.ring.data| <= room
    ensures var cfg := Decompressor.CfgOf(c.opt.zlib, true, 0);
            && Decompressor.CleanAll(cfg, Stream(c) + rest)
            && exists t :: Concluded(cfg, Stream(c) + rest, room, Decompressor.StatusDone, t) &&
                           t.out == c.parser.ring.data && t.pos == 8 * |Stream(c)|
  {
    hide Tdefl.Idle, Decodable, Leads, WellFormed, Adler.Checksum, Inflater.Clean, ByteBits;
    var cfg, x := Decompressor.CfgOf(c.opt.zlib, true, 0), Stream(c) + rest;
    var t := FinishedStream(c, cfg, rest);
    DecodableRuns(cfg, x, t);
    assert Concluded(cfg, x, room, Decompressor.StatusDone, t);
  }

  lemma DecodableRuns(cfg: Cfg, x: seq<byte>, t: St)
    requires Decodable(cfg, x, t)
    ensures WellFormed(Init(cfg)) && WellFormed(t) && Leads(cfg, ByteBits(x), Init(cfg), t) && t.ctl.Done?
        && Decompressor.CleanAll(cfg, x)
  {
    hide Leads, WellFormed, ByteBits, Inflater.Clean;
    LeadsSelf(cfg, ByteBits(x), Init(cfg));
    LeadsKeeps(cfg, ByteBits(x), Init(cfg), t);
    DecodableClean(cfg, x, t, Init(cfg));
  }

  /** The round trip as a program: data compressed in any pieces, with any flushes and any options, then
      decompressed in any cuts from a buffer where anything follows. It ends well, with the data, and with exactly the
      stream read. */
  method ThereAndBack(opt: Parsing.Options, data: seq<byte>, pieces: seq<Piece>, rooms: nat -> nat, rest: seq<byte>,
      cuts: seq<Cut>, buf: array<byte>)
    returns (stream: seq<byte>, status: Decompressor.Status, used: nat, written: nat)
    requires NoFinish(pieces) && (forall i: nat :: rooms(i) > 0) && |data| <= buf.Length
    modifies buf
    ensures status == Decompressor.StatusDone && used == |stream| && written == |data| && buf[..written] == data
  {
    hide Tdefl.Idle, Concluded, Decompressor.CleanAll;
    ghost var c, t;
    stream, c := CompressInPieces(opt, data, pieces, rooms);
    StreamConcludes(c, rest, buf.Length);
    ghost var cfg := Decompressor.CfgOf(opt.zlib, true, 0);
    ghost var t0 :| Concluded(cfg, stream + rest, buf.Length, Decompressor.StatusDone, t0) && t0.out == data
        && t0.pos == 8 * |stream|;
    status, used, written, t := Drive(stream + rest, buf, opt.zlib, cuts);
    OneConclusion(cfg, stream + rest, buf.Length, status, t, Decompressor.StatusDone, t0);
  }
}
