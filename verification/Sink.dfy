/** The compressor's output buffer for one block (TDEFL_PUT_BITS, third-party/miniz.c:923-939): whole bytes are
    written while there is room, and silently dropped after that. */
module Sink {
  import opened Bits

  class BitSink {
    var bytes: seq<byte>
    var limit: nat
    var bitBuffer: nat
    var bitsIn: nat
    ghost var sent: seq<bool>
    ghost var lost: nat

    /** Unless bytes were lost, what was sent is what was written and what waits in the bit buffer. */
    ghost predicate Valid()
      reads this
    {
      && bitsIn < 8 && bitBuffer < Pow2(bitsIn) && |bytes| <= limit
      && |sent| == 8 * (|bytes| + lost) + bitsIn
      && (if lost > 0 then |bytes| == limit else sent == ByteBits(bytes) + ToBits(bitBuffer, bitsIn))
    }

    constructor (limit: nat, bitBuffer: nat, bitsIn: nat)
      requires bitsIn < 8 && bitBuffer < Pow2(bitsIn)
      ensures Valid() && bytes == [] && this.limit == limit && lost == 0 && sent == ToBits(bitBuffer, bitsIn)
    {
      bytes, this.limit, this.bitBuffer, this.bitsIn := [], limit, bitBuffer, bitsIn;
      sent, lost := ToBits(bitBuffer, bitsIn), 0;
    }

    method PutBits(b: nat, l: nat)
      requires Valid() && b < Pow2(l) && l <= 16
      modifies this
      ensures Valid() && limit == old(limit) && old(bytes) <= bytes && sent == old(sent) + ToBits(b, l)
    {
      hide ByteBits, ToBits, Pow2;
      Append(bitBuffer, bitsIn, b, l);
      sent := sent + ToBits(b, l);
      bitBuffer := bitBuffer + b * Pow2(bitsIn);
      bitsIn := bitsIn + l;
      while bitsIn >= 8
        invariant bitBuffer < Pow2(bitsIn) && 0 <= bitsIn <= 23 && |bytes| <= limit && limit == old(limit)
            && old(bytes) <= bytes
        invariant sent == old(sent) + ToBits(b, l)
        invariant |sent| == 8 * (|bytes| + lost) + bitsIn
        invariant if lost > 0 then |bytes| == limit else sent == ByteBits(bytes) + ToBits(bitBuffer, bitsIn)
      {
        NextByte(bitBuffer, bitsIn);
        ByteBitsSnoc(bytes, bitBuffer % 256);
        if |bytes| < limit {
          bytes := bytes + [bitBuffer % 256];
        } else {
          lost := lost + 1;
        }
        bitBuffer := bitBuffer / 256;
        bitsIn := bitsIn - 8;
      }
    }

    /** Forget everything after a saved point. */
    method Rewind(ghost s: seq<bool>, b: seq<byte>, buffer: nat, n: nat)
      requires b <= bytes && n < 8 && buffer < Pow2(n) && |b| <= limit && s == ByteBits(b) + ToBits(buffer, n)
      modifies this
      ensures Valid() && limit == old(limit) && bytes == b && sent == s && lost == 0
    {
      bytes, bitBuffer, bitsIn, sent, lost := b, buffer, n, s, 0;
    }
  }

  lemma Append(buffer: nat, n: nat, b: nat, l: nat)
    requires buffer < Pow2(n) && b < Pow2(l) && n < 8 && l <= 16
    ensures buffer + b * Pow2(n) < Pow2(n + l)
        && ToBits(buffer + b * Pow2(n), n + l) == ToBits(buffer, n) + ToBits(b, l)
  {
    hide Pow2, ToBits;
    ToBitsConcat(buffer, n, b, l);
    Pow2Add(n, l);
    MulMono(b + 1, Pow2(l), Pow2(n));
  }

  lemma NextByte(v: nat, n: nat)
    requires v < Pow2(n) && n >= 8
    ensures ToBits(v, n) == ToBits(v % 256, 8) + ToBits(v / 256, n - 8) && v / 256 < Pow2(n - 8)
  {
    assert Pow2(8) == 256;
    hide Pow2, ToBits;
    ToBitsShift(v, 8, n - 8);
    ShrLow(v, 8);
    ToBitsLow(v, 8);
    Pow2Add(8, n - 8);
    DivLess(v, Pow2(n - 8), 256);
  }
}
