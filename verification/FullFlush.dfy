/** What a full flush is for (third-party/miniz.c:1974-1980): behind it the stream can be decompressed without
    anything before it, because no block since then reaches further back. */
module FullFlush {
  import opened Bits
  import opened Format
  import opened Tokens
  import opened Flushing
  import opened Output

  /** The blocks from the kept-th on start at a byte boundary, and by themselves print the bytes from base on. */
  ghost predicate Resumable(chunks: seq<Chunk>, kept: nat, zlib: bool, out: seq<byte>, base: nat) {
    && kept <= |chunks| && base <= |out| && (forall i :: 0 <= i < kept ==> !chunks[i].final)
       && Print(chunks[..kept], Start(zlib)).Printed? && NextPos(zlib, chunks[..kept]) % 8 == 0
    && Print(chunks[kept..], 0).Printed? && Print(chunks[kept..], 0).out == out[base..]
  }

  lemma PrintNone(pos: nat)
    ensures Print([], pos) == Printed([], [])
  {
  }

  /** A block's bits do not depend on where it stands, as long as it fits there. */
  lemma BitsSame(b: Block, final: bool, pos: nat, out: seq<byte>, pos2: nat, out2: seq<byte>)
    requires BlockOk(b, pos, out) && BlockOk(b, pos2, out2)
    ensures BlockBits(b, final, pos, out) == BlockBits(b, final, pos2, out2)
  {
    hide ItemsOk, AllCoded, HeaderOk, HeaderLit, HeaderDist, HeaderBits, FixedLit, FixedDist, ItemsBits, ToBits;
  }

  /** The bits of blocks one after the other: those of the first ones, and those of the others by themselves. */
  lemma {:induction false} PrintSplit(a: seq<Chunk>, b: seq<Chunk>, pos: nat)
    requires Print(a + b, pos).Printed? && Print(b, 0).Printed?
    ensures Print(a, pos).Printed? && Print(a + b, pos).bits == Print(a, pos).bits + Print(b, 0).bits
  {
    hide Print, BlockOk, BlockBits, BlockOut;
    if b == [] {
      assert a + b == a;
      PrintNone(0);
      assert Print(a, pos).bits + [] == Print(a, pos).bits;
    } else {
      var n, c := |b| - 1, b[|b| - 1];
      assert b[..n] + [c] == b && a + b == (a + b[..n]) + [c];
      PrintSnoc(a + b[..n], c, pos);
      PrintSnoc(b[..n], c, 0);
      PrintSplit(a, b[..n], pos);
      var p, q := Print(a + b[..n], pos), Print(b[..n], 0);
      BitsSame(c.b, c.final, pos + |p.bits|, p.out, 0 + |q.bits|, q.out);
      assert p.bits + BlockBits(c.b, c.final, |q.bits|, q.out) == Print(a, pos).bits
          + (q.bits + BlockBits(c.b, c.final, |q.bits|, q.out));
    }
  }

  /** One more block whose tokens reach no further back than base. */
  lemma ResumeMore(chunks: seq<Chunk>, kept: nat, zlib: bool, out: seq<byte>, base: nat, b: Block, final: bool,
      s: seq<Tok>, data: seq<byte>)
    requires Resumable(chunks, kept, zlib, out, base) && Print(chunks, Start(zlib)).Printed?
    requires BlockFor(b, s, NextPos(zlib, chunks), out, data) && Reproduces(s, out[base..], data)
    ensures Resumable(chunks + [Chunk(b, final)], kept, zlib, out + data, base)
  {
    hide Print, BlockOk, BlockBits, BlockOut, Reproduces, BlockFor;
    var c, tail, more := Chunk(b, final), chunks[kept..], chunks + [Chunk(b, final)];
    assert chunks[..kept] + tail == chunks;
    PrintSplit(chunks[..kept], tail, Start(zlib));
    var q := Print(tail, 0);
    BlockElsewhere(b, s, NextPos(zlib, chunks), out, data, |q.bits|, out[base..], final);
    BlockOf(b, s, |q.bits|, out[base..], data);
    PrintSnoc(tail, c, 0);
    assert more[kept..] == tail + [c] && more[..kept] == chunks[..kept];
    assert (out + data)[base..] == out[base..] + data;
  }

  lemma BlockOf(b: Block, s: seq<Tok>, pos: nat, out: seq<byte>, data: seq<byte>)
    requires BlockFor(b, s, pos, out, data)
    ensures BlockOk(b, pos, out) && BlockOut(b, pos, out) == out + data
  {
    hide BlockOk, BlockOut;
  }

  lemma BaseInside(chunks: seq<Chunk>, kept: nat, zlib: bool, out: seq<byte>, base: nat)
    requires Resumable(chunks, kept, zlib, out, base)
    ensures base <= |out|
  {
  }

  lemma EmptyFor(c: Chunk, pos: nat, out: seq<byte>)
    requires EmptyChunk(c, pos)
    ensures BlockFor(c.b, [], pos, out, []) && c == Chunk(c.b, c.final)
  {
    assert out + [] == out;
  }

  lemma NothingReproduced(out: seq<byte>)
    ensures Reproduces([], out, [])
  {
    var none: seq<Tok> := [];
    assert Items(none) == [] && out + [] == out;
  }

  /** The marker of a flush carries nothing. */
  lemma ResumeMarked(chunks: seq<Chunk>, kept: nat, zlib: bool, out: seq<byte>, base: nat, c: Chunk)
    requires Resumable(chunks, kept, zlib, out, base) && Print(chunks, Start(zlib)).Printed?
        && EmptyChunk(c, NextPos(zlib, chunks))
    ensures Resumable(chunks + [c], kept, zlib, out, base)
  {
    hide Resumable, Print, BlockFor, Reproduces, EmptyChunk;
    assert out + [] == out;
    EmptyFor(c, NextPos(zlib, chunks), out);
    BaseInside(chunks, kept, zlib, out, base);
    NothingReproduced(out[base..]);
    ResumeMore(chunks, kept, zlib, out, base, c.b, c.final, [], []);
  }

  /** Behind a full flush a new part begins. */
  lemma ResumeHere(chunks: seq<Chunk>, zlib: bool, out: seq<byte>)
    requires Print(chunks, Start(zlib)).Printed? && NextPos(zlib, chunks) % 8 == 0 && forall i :: 0 <= i < |chunks| ==>
        !chunks[i].final
    ensures Resumable(chunks, |chunks|, zlib, out, |out|)
  {
    hide Print;
    PrintNone(0);
    assert chunks[..|chunks|] == chunks && chunks[|chunks|..] == [] && out[|out|..] == [];
  }
}
