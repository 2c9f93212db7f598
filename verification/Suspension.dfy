/** Suspension is invisible: what the resumable decompressor has done depends on the bytes it has seen, not on how they
    and the room for output were cut into calls. */
module Suspension {
  import opened Bits
  import opened Format
  import opened Machine
  import opened Runs
  import opened Inflater
  import opened Decompressor
  import Streams

  lemma PrefixBits(x: seq<byte>, k: nat)
    requires k <= |x|
    ensures ByteBits(x[..k]) <= ByteBits(x)
  {
    hide ByteBits;
    var a, b := x[..k], x[k..];
    assert a + b == x;
    ByteBitsConcat(a, b);
  }

  /** A suspended decoder stands where the reference decoder comes by on all of the stream. */
  lemma OnTheWay(cfg: Cfg, x: seq<byte>, k: nat, r: Regs, st: St)
    requires k <= |x| && Suspended(cfg, x[..k], r, st)
    ensures WellFormed(Init(cfg)) && Leads(cfg, ByteBits(x), Init(cfg), st) && WellFormed(st) && st.pos <= 8 * k
  {
    hide Leads, Matched, Starved, ByteBits;
    PrefixBits(x, k);
    InitWell(cfg);
    LeadsMono(cfg, ByteBits(x[..k]), ByteBits(x), Init(cfg), st);
  }

  /** Two decoders that ended on the same stream, however it was cut and whatever follows it, ended alike. */
  lemma SameEnd(cfg: Cfg, x: seq<byte>, j: nat, k: nat, r: Regs, q: Regs, a: St, b: St)
    requires j <= |x| && k <= |x| && Suspended(cfg, x[..j], r, a) && Suspended(cfg, x[..k], q, b) && Halted(a.ctl)
        && Halted(b.ctl)
    ensures a == b
  {
    hide Leads, Suspended;
    OnTheWay(cfg, x, j, r, a);
    OnTheWay(cfg, x, k, q, b);
    HaltsOnce(cfg, ByteBits(x), Init(cfg), a, b);
  }

  lemma StalledLeads(cfg: Cfg, S: seq<bool>, a: St, b: St)
    requires WellFormed(a) && Step(cfg, a, S).Stall? && Leads(cfg, S, a, b)
    ensures b == a
  {
    var k: nat :| Run(cfg, S, a, k) == b;
    StalledRun(cfg, S, a, k);
  }

  /** Two decoders that want more after the same bytes have written the same output and wait for the same item. */
  lemma SameWait(cfg: Cfg, x: seq<byte>, r: Regs, q: Regs, a: St, b: St)
    requires Suspended(cfg, x, r, a) && Suspended(cfg, x, q, b) && Starved(cfg, ByteBits(x), a)
        && Starved(cfg, ByteBits(x), b)
    ensures a == b
  {
    hide Leads, Step, WellFormed, Matched;
    var S := ByteBits(x);
    InitWell(cfg);
    Deterministic(cfg, S, Init(cfg), a, b);
    if Leads(cfg, S, a, b) {
      StalledLeads(cfg, S, a, b);
    } else {
      StalledLeads(cfg, S, b, a);
    }
  }

  /** The stream in x is one that the reference decoder reads to its end, at t. */
  ghost predicate Decodable(cfg: Cfg, x: seq<byte>, t: St) {
    WellFormed(Init(cfg)) && Leads(cfg, ByteBits(x), Init(cfg), t) && t.ctl.Done?
  }

  /** Such a stream is clean from wherever a decoder stands. */
  lemma DecodableClean(cfg: Cfg, x: seq<byte>, t: St, st: St)
    requires Decodable(cfg, x, t) && Leads(cfg, ByteBits(x), Init(cfg), st)
    ensures WellFormed(st) && Clean(cfg, ByteBits(x), st)
  {
    hide Leads, WellFormed, ByteBits;
    var S := ByteBits(x);
    LeadsKeeps(cfg, S, Init(cfg), st);
    forall u | Leads(cfg, S, st, u) ensures !u.ctl.Invalid? {
      LeadsTrans(cfg, S, Init(cfg), st, u);
      if u.ctl.Invalid? {
        HaltsOnce(cfg, S, Init(cfg), u, t);
        assert false;
      }
    }
  }

  lemma CleanLess(cfg: Cfg, S: seq<bool>, T: seq<bool>, st: St)
    requires WellFormed(st) && S <= T && Clean(cfg, T, st)
    ensures Clean(cfg, S, st)
  {
    hide Leads, WellFormed;
    forall t | Leads(cfg, S, st, t) ensures !t.ctl.Invalid? {
      CleanBadStays(cfg, S, T, st, t);
    }
  }

  lemma CleanBadStays(cfg: Cfg, S: seq<bool>, T: seq<bool>, st: St, t: St)
    requires WellFormed(st) && S <= T && Leads(cfg, S, st, t)
    ensures Leads(cfg, T, st, t)
  {
    hide WellFormed;
    LeadsMono(cfg, S, T, st, t);
  }

  /** Given such a stream, the decoder never fails, never writes a byte that is not the output's next, asks for
      input only while the stream is incomplete, and when it ends it has read the stream and not a byte more. */
  lemma Progresses(cfg: Cfg, x: seq<byte>, k: nat, r: Regs, st: St, t: St)
    requires Decodable(cfg, x, t) && k <= |x| && Suspended(cfg, x[..k], r, st)
    ensures !st.ctl.Failed? && st.out <= t.out
    ensures st.ctl.Done? ==> st == t
    ensures Starved(cfg, ByteBits(x[..k]), st) ==> 8 * k < t.pos
  {
    hide Leads, WellFormed, ByteBits, Matched, Step;
    var S := ByteBits(x);
    OnTheWay(cfg, x, k, r, st);
    LeadsToEnd(cfg, S, Init(cfg), st, t);
    LeadsKeeps(cfg, S, st, t);
    if Halted(st.ctl) {
      HaltsOnce(cfg, S, Init(cfg), st, t);
    }
    if Starved(cfg, ByteBits(x[..k]), st) && t.pos <= 8 * k {
      PrefixBits(x, k);
      LeadsLocal(cfg, S, ByteBits(x[..k]), st, t);
      StalledLeads(cfg, ByteBits(x[..k]), st, t);
      assert false;
    }
  }

  /** A raw stream, followed by anything: the reference decoder's end is its output and its length in whole bytes. */
  lemma RawDecodable(cfg: Cfg, x: seq<byte>, s: seq<Chunk>) returns (t: St)
    requires !cfg.zlib && Streams.RawStream(cfg, ByteBits(x), s)
    ensures Decodable(cfg, x, t) && t.out == Print(s, 0).out && t.pos == Align(|Print(s, 0).bits|)
  {
    hide Leads, Print, ByteBits;
    InitWell(cfg);
    t := Streams.RawStreamLeads(cfg, ByteBits(x), s);
  }

  /** A zlib stream, followed by anything. */
  lemma ZlibDecodable(cfg: Cfg, x: seq<byte>, z0: byte, z1: byte, s: seq<Chunk>, pad: seq<bool>, sum: nat)
      returns (t: St)
    requires cfg.zlib && Streams.ZlibStream(cfg, ByteBits(x), z0, z1, s, pad, sum)
    ensures Decodable(cfg, x, t) && t.ctl == Done(sum) && t.out == Print(s, 16).out
        && t.pos == Align(16 + |Print(s, 16).bits|) + 32
  {
    hide Leads, Print, ByteBits, Streams.ZlibStream;
    InitWell(cfg);
    t := Streams.ZlibStreamLeads(cfg, ByteBits(x), z0, z1, s, pad, sum);
  }
}
