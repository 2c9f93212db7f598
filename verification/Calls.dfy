/** Whole sequences of calls (third-party/miniz.c:2435-2917): the output and the final status do not depend on how
    input and room were cut, as long as every call but the last says that more input follows; and what happens when
    one does not. */
module Calls {
  import opened Bits
  import opened Format
  import opened Machine
  import opened Runs
  import opened Inflater
  import opened Decompressor
  import opened Suspension
  import Streams
  import Window
  import Adler

  /** How decompressing all of x into a plain buffer of this size must end, and where. */
  ghost predicate Concluded(cfg: Cfg, x: seq<byte>, room: nat, status: Status, t: St) {
    && WellFormed(Init(cfg)) && Leads(cfg, ByteBits(x), Init(cfg), t) && WellFormed(t) && |t.out| <= room
       && t.pos <= 8 * |x|
    && match status
       case StatusDone => t.ctl.Done? && (cfg.zlib ==> t.ctl.sum == Adler.Checksum(t.out))
       case AdlerMismatch => t.ctl.Done? && cfg.zlib && t.ctl.sum != Adler.Checksum(t.out)
       case StatusFailed => t.ctl.Failed?
       case CannotProgress => Starved(cfg, ByteBits(x), t) && (t.ctl.RawCopy? ==> |t.out| < room)
       case HasMoreOutput => Emits(t.ctl) && |t.out| == room
       case _ => false
  }

  lemma EmitGrows(cfg: Cfg, S: seq<bool>, a: St)
    requires WellFormed(a) && Emits(a.ctl) && Step(cfg, a, S).Next?
    ensures var b := Step(cfg, a, S).st; if a.ctl.RawCopy? then b.ctl.RawEmit? && b.out == a.out else |b.out| > |a.out|
  {
    hide Peek;
  }

  lemma NoRoom(cfg: Cfg, S: seq<bool>, a: St, k: nat, b: St)
    requires WellFormed(a) && Emits(a.ctl) && !a.ctl.RawCopy? && Run(cfg, S, a, k) == b && |b.out| <= |a.out|
    ensures b == a
  {
    hide Step, WellFormed;
    if k > 0 && Step(cfg, a, S).Next? {
      StepKeeps(cfg, a, S);
      EmitGrows(cfg, S, a);
    }
  }

  /** Without room, a run is stuck where it next writes. */
  lemma EmitStuck(cfg: Cfg, S: seq<bool>, a: St, b: St)
    requires WellFormed(a) && Emits(a.ctl) && Leads(cfg, S, a, b) && |b.out| <= |a.out|
    ensures b.out == a.out && (b == a || (a.ctl.RawCopy? && b.ctl.RawEmit?))
  {
    hide Step, WellFormed;
    var k: nat :| Run(cfg, S, a, k) == b;
    if !a.ctl.RawCopy? {
      NoRoom(cfg, S, a, k, b);
    } else if k > 0 && Step(cfg, a, S).Next? {
      StepKeeps(cfg, a, S);
      EmitGrows(cfg, S, a);
      NoRoom(cfg, S, Step(cfg, a, S).st, k - 1, b);
    }
  }

  /** From one conclusion the run does not lead to another. */
  lemma NoFurther(cfg: Cfg, x: seq<byte>, room: nat, s1: Status, t1: St, s2: Status, t2: St)
    requires Concluded(cfg, x, room, s1, t1) && Concluded(cfg, x, room, s2, t2) && Leads(cfg, ByteBits(x), t1, t2)
    ensures s1 == s2 && t1.out == t2.out && (s1 != HasMoreOutput ==> t1 == t2)
  {
    hide Leads, ByteBits, Adler.Checksum, WellFormed, Step;
    var S := ByteBits(x);
    if s1 == HasMoreOutput {
      EmitStuck(cfg, S, t1, t2);
      if !t2.ctl.RawCopy? {
        EmitFree(cfg, x, t2);
      }
    } else {
      if Halted(t1.ctl) {
        HaltedStalls(cfg, S, t1);
      }
      StalledLeads(cfg, S, t1, t2);
      if s2 == HasMoreOutput && !t1.ctl.RawCopy? {
        EmitFree(cfg, x, t1);
      }
    }
  }

  /** Writing wants no input, but for a stored byte. */
  lemma EmitFree(cfg: Cfg, x: seq<byte>, t: St)
    requires WellFormed(t) && t.pos <= 8 * |x| && Emits(t.ctl) && !t.ctl.RawCopy?
    ensures !Starved(cfg, ByteBits(x), t)
  {
    hide ByteBits, CodesOk, FieldStep, SymStep, Peek;
  }

  lemma HaltedStalls(cfg: Cfg, S: seq<bool>, t: St)
    requires WellFormed(t) && Halted(t.ctl)
    ensures Step(cfg, t, S).Stall?
  {
  }

  /** There is only one way to end: status and output are determined by the stream and the buffer's size. So
      whatever the cuts, they are those of a single call with all the input and all the room. */
  lemma OneConclusion(cfg: Cfg, x: seq<byte>, room: nat, s1: Status, t1: St, s2: Status, t2: St)
    requires Concluded(cfg, x, room, s1, t1) && Concluded(cfg, x, room, s2, t2)
    ensures s1 == s2 && t1.out == t2.out && (s1 != HasMoreOutput ==> t1 == t2)
  {
    hide Leads, ByteBits, Adler.Checksum, WellFormed, Step;
    var S := ByteBits(x);
    Deterministic(cfg, S, Init(cfg), t1, t2);
    if Leads(cfg, S, t1, t2) {
      NoFurther(cfg, x, room, s1, t1, s2, t2);
    } else {
      NoFurther(cfg, x, room, s2, t2, s1, t1);
    }
  }

  // ----- any cut -----

  /** A decoder writing to a plain buffer, between two calls of one run over x: the buffer begins with its output,
      and it does not wait for stored bytes with the buffer full. If x is valid as far as it goes, the reference
      decoder comes by here. */
  ghost predicate Underway(d: Tinfl, x: seq<byte>, used: nat, buf: seq<byte>, written: nat)
    reads d, d.ts.lookUp0, d.ts.tree0, d.ts.lookUp1, d.ts.tree1, d.ts.lookUp2, d.ts.tree2
  {
    && d.Valid() && d.cfg.nonWrapping && d.cfg.window == 0 && used <= |x| && d.seen == x[..used]
    && written == |d.st.out| <= |buf| && buf[..written] == d.st.out && (d.regs.pc.P38? ==> written < |buf|)
    && (CleanAll(d.cfg, x) ==> d.sure && OnRun(d.cfg, x, d.st))
  }

  /** On the run over x, which is clean. */
  ghost predicate OnRun(cfg: Cfg, x: seq<byte>, st: St) {
    CleanAll(cfg, x) && Leads(cfg, ByteBits(x), Init(cfg), st) && WellFormed(st)
  }

  /** Nothing is missing from the checksum of a stream that has one, unless the decoder has failed. */
  ghost predicate Summed(d: Tinfl)
    reads d
  {
    d.cfg.zlib ==> d.skipped == 0 || d.st.ctl.Failed?
  }

  /** The checksum is that of everything written exactly if no byte was written by a call that does not count. */
  lemma SumComplete(d: Tinfl)
    requires d.Valid()
    ensures d.counted == d.st.out <==> d.skipped == 0
  {
    hide Saved, Built;
  }

  /** A plain buffer that begins with the output. */
  lemma PlainHolds(cfg: Cfg, buf: seq<byte>, written: nat, end: nat, out: seq<byte>)
    requires cfg.nonWrapping && written == |out| <= end <= |buf| && buf[..written] == out
    ensures Window.Holds(cfg, buf, written, end, out)
  {
    assert forall j :: 0 <= j < |out| ==> buf[j] == buf[..written][j];
  }

  lemma FailedStays(cfg: Cfg, S: seq<bool>, a: St, b: St)
    requires WellFormed(a) && Leads(cfg, S, a, b) && a.ctl.Failed?
    ensures b == a
  {
    hide Leads, Step;
    HaltedStalls(cfg, S, a);
    StalledLeads(cfg, S, a, b);
  }

  /** The run is clean on the part of x that a call sees. */
  lemma CleanPart(cfg: Cfg, x: seq<byte>, k: nat, st: St)
    requires k <= |x| && OnRun(cfg, x, st)
    ensures CleanAll(cfg, x[..k])
  {
    hide Leads, ByteBits, WellFormed, Clean;
    PrefixBits(x, k);
    CleanLess(cfg, ByteBits(x[..k]), ByteBits(x), Init(cfg));
  }

  /** After a call that saw part of x, the decoder is still on the run over x. */
  lemma StillOnRun(cfg: Cfg, x: seq<byte>, k: nat, st: St, t: St)
    requires k <= |x| && OnRun(cfg, x, st) && WellFormed(st) && Leads(cfg, ByteBits(x[..k]), st, t)
    ensures OnRun(cfg, x, t) && st.out <= t.out && (st.ctl.Failed? ==> t == st)
  {
    hide Leads, ByteBits, WellFormed, Clean;
    PrefixBits(x, k);
    LeadsMono(cfg, ByteBits(x[..k]), ByteBits(x), st, t);
    LeadsTrans(cfg, ByteBits(x), Init(cfg), st, t);
    LeadsKeeps(cfg, ByteBits(x), st, t);
    if st.ctl.Failed? {
      FailedStays(cfg, ByteBits(x), st, t);
    }
  }

  /** A call that keeps a whole sum whole: it summed what it wrote, or it failed, or it starved without "more input". */
  lemma SumKept(cfg: Cfg, status: Status, hasMore: bool, seen: seq<byte>, st: St, t: St, full: bool, s0: nat, s1: nat,
      n: nat, counted: seq<byte>)
    requires cfg.zlib ==> s0 == 0 || st.ctl.Failed?
    requires Ended(status, cfg, hasMore, seen, t, full) && (st.ctl.Failed? ==> t == st) && Tally(counted, s1, t.out)
    requires s1 == s0 + (if Counts(status, cfg.zlib, false) then 0 else n)
    ensures status != CannotProgress ==> cfg.zlib ==> s1 == 0 || t.ctl.Failed?
    ensures cfg.zlib && t.ctl.Done? ==> counted == t.out
  {
    hide Step, WellFormed, ByteBits;
  }

  /** One call of the run, with up to n more bytes of input and m of room. */
  method Continue(d: Tinfl, x: seq<byte>, used0: nat, buf: array<byte>, written0: nat, n: nat, m: nat, zlib: bool,
      hasMore: bool)
    returns (status: Status, used: nat, written: nat)
    requires Underway(d, x, used0, buf[..], written0) && d.cfg.zlib == zlib
    modifies d, buf, d.ts.lookUp0, d.ts.tree0, d.ts.lookUp1, d.ts.tree1, d.ts.lookUp2, d.ts.tree2
    ensures used0 <= used <= used0 + Min(n, |x| - used0)
        && written0 <= written <= written0 + Min(m, buf.Length - written0)
    ensures buf[..written0] == old(buf[..written0]) && buf[written..] == old(buf[written..])
    ensures if status == Asserted then !CleanAll(d.cfg, x) else Underway(d, x, used, buf[..], written) && !d.regs.pc.P0?
    ensures CleanAll(d.cfg, x) ==>
        Ended(status, d.cfg, hasMore, d.seen, d.st, written - written0 == Min(m, buf.Length - written0))
    ensures hasMore ==> status != CannotProgress
    ensures status == NeedsMoreInput || status == CannotProgress ==> used == used0 + Min(n, |x| - used0)
    ensures status in {NeedsMoreInput, CannotProgress} && d.st.ctl.RawCopy? && m + written0 >= buf.Length ==>
              written < buf.Length
    ensures CleanAll(d.cfg, x) && status != CannotProgress && old(Summed(d)) ==> Summed(d)
    ensures d.counted == old(d.counted) + (if Counts(status, zlib, false) then buf[written0..written] else [])
    ensures status != Asserted && zlib && d.st.ctl.Done? ==>
        (status == StatusDone <==> d.st.ctl.sum == Adler.Checksum(d.counted))
    ensures CleanAll(d.cfg, x) && old(Summed(d)) && zlib && d.st.ctl.Done? ==>
              (status == StatusDone <==> d.st.ctl.sum == Adler.Checksum(d.st.out))
  {
    hide ByteBits, Clean, Leads, WellFormed, Saved, Built, Laid, Tally, Adler.Checksum, Ended, Window.Holds, OnRun,
        CleanAll;
    var inp := x[used0..][..Min(n, |x| - used0)];
    var room := Min(m, buf.Length - written0);
    ghost var st := d.st;
    assert d.seen + inp == x[..used0 + |inp|];
    PlainHolds(d.cfg, buf[..], written0, written0 + room, st.out);
    if CleanAll(d.cfg, x) {
      CleanPart(d.cfg, x, used0 + |inp|, st);
    }
    var inUsed, outUsed;
    status, inUsed, outUsed := d.Decompress(inp, buf, written0, room, zlib, true, hasMore, false);
    used, written := used0 + inUsed, written0 + outUsed;
    if CleanAll(d.cfg, x) {
      StillOnRun(d.cfg, x, used0 + |inp|, st, d.st);
      if old(Summed(d)) {
        SumKept(d.cfg, status, hasMore, d.seen, st, d.st, outUsed == room, old(d.skipped), d.skipped, outUsed,
            d.counted);
      }
    }
  }

  lemma StartsRun(cfg: Cfg, x: seq<byte>, t: St)
    requires CleanAll(cfg, x) && Leads(cfg, ByteBits(x), Init(cfg), t)
    ensures OnRun(cfg, x, t)
  {
    hide Leads, WellFormed, Clean, ByteBits;
    InitWell(cfg);
    LeadsKeeps(cfg, ByteBits(x), Init(cfg), t);
  }

  /** A call in which everything was left to be read and written ends the run. */
  lemma LastOne(cfg: Cfg, x: seq<byte>, room: nat, status: Status, used: nat, t: St)
    requires OnRun(cfg, x, t) && |t.out| <= room && used <= |x| && t.pos <= 8 * used
    requires Ended(status, cfg, false, x[..used], t, |t.out| == room) && (status == CannotProgress ==> used == |x|)
    requires status == CannotProgress && t.ctl.RawCopy? ==> |t.out| < room
    requires cfg.zlib && t.ctl.Done? ==> (status == StatusDone <==> t.ctl.sum == Adler.Checksum(t.out))
    ensures Concluded(cfg, x, room, status, t) && (status == StatusDone ==> t.pos == 8 * used)
  {
    hide Leads, WellFormed, Clean, ByteBits, Adler.Checksum, Step;
    assert status == CannotProgress ==> x[..used] == x;
  }

  lemma BehindInput(d: Tinfl)
    requires d.Valid() && !d.regs.pc.P0?
    ensures d.st.pos <= 8 * |d.seen|
  {
    hide Leads, Matched, Starved, ToBits;
  }

  datatype Cut = Cut(input: nat, room: nat)

  /** Decompress x into a plain buffer by calls with any cuts of input and room, each saying that more input
      follows, and a last one for the rest that does not. Whatever x is, only the buffer's first bytes change; if it
      is valid as far as it goes, it ends as a single call would. */
  method Drive(x: seq<byte>, buf: array<byte>, zlib: bool, cuts: seq<Cut>)
    returns (status: Status, used: nat, written: nat, ghost t: St)
    modifies buf
    ensures used <= |x| && written <= buf.Length && buf[written..] == old(buf[written..])
    ensures status != Asserted ==> buf[..written] == t.out
    ensures CleanAll(CfgOf(zlib, true, 0), x) ==>
              Concluded(CfgOf(zlib, true, 0), x, buf.Length, status, t) && (status == StatusDone ==> t.pos == 8 * used)
  {
    hide OnRun, Ended, Concluded, Saved, Built, Laid, Tally, Adler.Checksum, CleanAll;
    ghost var cfg := CfgOf(zlib, true, 0);
    var d := new Tinfl(cfg);
    used, written := 0, 0;
    if CleanAll(cfg, x) {
      AtStart(cfg, x);
    }
    for i := 0 to |cuts|
      invariant fresh(d) && fresh(d.ts.lookUp0) && fresh(d.ts.tree0) && fresh(d.ts.lookUp1) && fresh(d.ts.tree1)
      invariant fresh(d.ts.lookUp2) && fresh(d.ts.tree2)
      invariant Underway(d, x, used, buf[..], written) && d.cfg == cfg && (CleanAll(cfg, x) ==> Summed(d))
      invariant written <= buf.Length && buf[written..] == old(buf[written..])
    {
      ghost var was := written;
      status, used, written := Continue(d, x, used, buf, written, cuts[i].input, cuts[i].room, zlib, true);
      assert buf[written..] == old(buf[was..])[written - was..];
      if status == Asserted {
        t := d.st;
        return;
      }
    }
    ghost var was := written;
    status, used, written := Continue(d, x, used, buf, written, |x|, buf.Length, zlib, false);
    assert buf[written..] == old(buf[was..])[written - was..];
    t := d.st;
    if CleanAll(cfg, x) {
      BehindInput(d);
      LastOne(cfg, x, buf.Length, status, used, t);
    }
  }

  lemma AtStart(cfg: Cfg, x: seq<byte>)
    requires CleanAll(cfg, x)
    ensures OnRun(cfg, x, Init(cfg))
  {
    hide Leads, WellFormed, Clean, ByteBits;
    InitWell(cfg);
    LeadsSelf(cfg, ByteBits(x), Init(cfg));
  }

  // ----- a call that gives up too early -----

  /** A zlib stream and nothing else. */
  ghost predicate WholeStream(cfg: Cfg, x: seq<byte>, z0: byte, z1: byte, s: seq<Chunk>, pad: seq<bool>, sum: nat) {
    cfg.zlib && Streams.ZlibStream(cfg, ByteBits(x), z0, z1, s, pad, sum)
        && Align(16 + |Print(s, 16).bits|) + 32 == 8 * |x|
  }

  /** With everything but the trailer seen, a decoder that has room waits for the trailer. */
  lemma BeforeTrailer(cfg: Cfg, x: seq<byte>, z0: byte, z1: byte, s: seq<Chunk>, pad: seq<bool>, sum: nat,
      status: Status, used: nat, st: St, full: bool)
    requires WholeStream(cfg, x, z0, z1, s, pad, sum) && OnRun(cfg, x, st) && used <= |x| - 4 && st.pos <= 8 * used
    requires Ended(status, cfg, false, x[..used], st, full) && (status == CannotProgress ==> used == |x| - 4)
        && status != HasMoreOutput
    ensures status == CannotProgress && st.ctl == Trailer(1, 0) && st.out == Print(s, 16).out
  {
    hide Leads, WellFormed, Clean, ByteBits, Print, Step, Streams.ZlibStream;
    var S := ByteBits(x);
    var v := Streams.ZlibBodyLeads(cfg, S, z0, z1, s, pad, sum);
    var t := Streams.ZlibStreamLeads(cfg, S, z0, z1, s, pad, sum);
    if Halted(st.ctl) {
      HaltsOnce(cfg, S, Init(cfg), st, t);
    }
    var T := ByteBits(x[..used]);
    PrefixBits(x, used);
    TrailerWaits(cfg, T, v);
    LeadsLocal(cfg, S, T, Init(cfg), v);
    LeadsLocal(cfg, S, T, Init(cfg), st);
    Deterministic(cfg, T, Init(cfg), v, st);
    if Leads(cfg, T, v, st) {
      StalledLeads(cfg, T, v, st);
    } else {
      StalledLeads(cfg, T, st, v);
    }
  }

  lemma TrailerWaits(cfg: Cfg, T: seq<bool>, v: St)
    requires WellFormed(v) && v.ctl.Trailer? && v.pos == |T|
    ensures Step(cfg, v, T).Stall?
  {
    hide FieldStep;
  }

  /** Such a stream is clean, and nothing but its bytes is ever written. */
  lemma StreamOnRun(cfg: Cfg, x: seq<byte>, z0: byte, z1: byte, s: seq<Chunk>, pad: seq<bool>, sum: nat)
    requires WholeStream(cfg, x, z0, z1, s, pad, sum)
    ensures OnRun(cfg, x, Init(cfg)) && CleanAll(cfg, x) && |x| >= 4
    ensures forall st :: OnRun(cfg, x, st) ==> |st.out| <= |Print(s, 16).out|
  {
    hide Leads, WellFormed, Clean, ByteBits, Print, Streams.ZlibStream;
    var S := ByteBits(x);
    InitWell(cfg);
    var t := Streams.ZlibStreamLeads(cfg, S, z0, z1, s, pad, sum);
    LeadsSelf(cfg, S, Init(cfg));
    DecodableClean(cfg, x, t, Init(cfg));
    assert OnRun(cfg, x, Init(cfg));
    forall st | OnRun(cfg, x, st) ensures |st.out| <= |t.out| {
      LeadsToEnd(cfg, S, Init(cfg), st, t);
      LeadsKeeps(cfg, S, st, t);
    }
  }

  /** With all of it seen, a decoder that has room is done. */
  lemma AfterTrailer(cfg: Cfg, x: seq<byte>, z0: byte, z1: byte, s: seq<Chunk>, pad: seq<bool>, sum: nat,
      status: Status, hasMore: bool, used: nat, st: St, full: bool)
    requires WholeStream(cfg, x, z0, z1, s, pad, sum) && OnRun(cfg, x, st) && used <= |x|
    requires Ended(status, cfg, hasMore, x[..used], st, full)
        && (status in {NeedsMoreInput, CannotProgress} ==> used == |x|) && status != HasMoreOutput
    ensures st.ctl == Done(sum) && st.out == Print(s, 16).out && status in {StatusDone, AdlerMismatch}
  {
    hide Leads, WellFormed, Clean, ByteBits, Print, Step, Streams.ZlibStream;
    var S := ByteBits(x);
    var t := Streams.ZlibStreamLeads(cfg, S, z0, z1, s, pad, sum);
    if Halted(st.ctl) {
      HaltsOnce(cfg, S, Init(cfg), st, t);
    } else {
      assert x[..used] == x;
      LeadsToEnd(cfg, S, Init(cfg), st, t);
      StalledLeads(cfg, S, st, t);
      assert false;
    }
  }

  lemma FullIf(status: Status, cfg: Cfg, hasMore: bool, seen: seq<byte>, st: St, full: bool)
    requires Ended(status, cfg, hasMore, seen, st, full)
    ensures status == HasMoreOutput ==> full
  {
    hide Starved;
  }

  /** A zlib stream given in two pieces, the second its trailer, when the first call does not say that more input
      follows: the bytes are right, and the verdict is wrong unless the right checksum is that of no bytes. */
  method GivesUpEarly(x: seq<byte>, buf: array<byte>, more: bool, ghost z0: byte, ghost z1: byte, ghost s: seq<Chunk>,
      ghost pad: seq<bool>, ghost sum: nat)
    returns (status1: Status, status2: Status)
    requires WholeStream(CfgOf(true, true, 0), x, z0, z1, s, pad, sum) && |Print(s, 16).out| < buf.Length
    modifies buf
    ensures status1 == CannotProgress && buf[..|Print(s, 16).out|] == Print(s, 16).out
    ensures status2 == if sum == Adler.Checksum([]) then StatusDone else AdlerMismatch
  {
    hide OnRun, Saved, Built, Laid, Tally, Adler.Checksum, WholeStream, Print, Ended, CleanAll;
    ghost var cfg := CfgOf(true, true, 0);
    StreamOnRun(cfg, x, z0, z1, s, pad, sum);
    var d := new Tinfl(cfg);
    var used, written;
    status1, used, written := Continue(d, x, 0, buf, 0, |x| - 4, buf.Length, true, false);
    BehindInput(d);
    FullIf(status1, cfg, false, d.seen, d.st, written == buf.Length);
    BeforeTrailer(cfg, x, z0, z1, s, pad, sum, status1, used, d.st, written == buf.Length);
    ghost var was := written;
    status2, used, written := Continue(d, x, used, buf, written, 4, buf.Length, true, more);
    FullIf(status2, cfg, more, d.seen, d.st, written == buf.Length);
    AfterTrailer(cfg, x, z0, z1, s, pad, sum, status2, more, used, d.st, written == buf.Length);
    assert buf[was..written] == [];
    assert d.counted == [];
  }

  /** The smallest case: one stored byte, the letter a. */
  const SMALL: seq<byte> := [0x78, 0x01, 0x01, 0x01, 0x00, 0xFE, 0xFF, 0x61, 0x00, 0x62, 0x00, 0x62]

  function SmallBlock(): Chunk {
    Chunk(Stored(ToBits(0, 5), [0x61]), true)
  }

  lemma OneByte(b: byte)
    ensures ByteBits([b]) == ToBits(b, 8)
  {
    assert [b][..0] == [];
    assert ByteBits([]) + ToBits(b, 8) == ToBits(b, 8);
  }

  lemma TwoBytes(a: byte, b: byte)
    ensures ByteBits([a, b]) == ToBits(a, 8) + ToBits(b, 8)
  {
    hide ToBits, ByteBits;
    OneByte(a);
    OneByte(b);
    ByteBitsConcat([a], [b]);
    assert [a] + [b] == [a, b];
  }

  lemma TwoHalves(low: nat, high: nat)
    requires low < 256
    ensures ToBits(low + high * 256, 16) == ToBits(low, 8) + ToBits(high, 8)
  {
    assert Pow2(8) == 256;
    hide ToBits, Pow2;
    ToBitsConcat(low, 8, high, 8);
  }

  lemma FirstByte()
    ensures [true] + (ToBits(0, 2) + ToBits(0, 5)) == ToBits(1, 8)
  {
    var none, b := ToBits(0, 7), ToBits(1, 8);
    assert b[0] && b[1..] == none;
    ToBitsConcat(0, 2, 0, 5);
  }

  lemma SmallNumbers()
    ensures ToBits(1, 16) == ToBits(1, 8) + ToBits(0, 8) && ToBits(65534, 16) == ToBits(0xFE, 8) + ToBits(0xFF, 8)
    ensures [true] + (ToBits(0, 2) + ToBits(0, 5)) == ToBits(1, 8)
  {
    hide ToBits;
    TwoHalves(1, 0);
    TwoHalves(0xFE, 0xFF);
    FirstByte();
  }

  lemma SmallPrint()
    ensures var p := Print([SmallBlock()], 16);
            && p.Printed? && p.out == [0x61]
            && p.bits == ToBits(1, 8)
               + (ToBits(1, 8) + ToBits(0, 8) + (ToBits(0xFE, 8) + ToBits(0xFF, 8) + ToBits(0x61, 8)))
  {
    hide ToBits, ByteBits;
    var c := SmallBlock();
    assert [c][..0] == [] && [c][0] == c;
    assert Print([], 16) == Printed([], []);
    SmallNumbers();
    OneByte(0x61);
    assert StoredBits([0x61]) == ToBits(1, 16) + (ToBits(65534, 16) + ToBits(0x61, 8));
    assert [true] + (ToBits(0, 2) + (ToBits(0, 5) + StoredBits([0x61]))) == [true] + (ToBits(0, 2) + ToBits(0, 5))
        + StoredBits([0x61]);
    assert [] + BlockBits(c.b, true, 16, []) == BlockBits(c.b, true, 16, []);
    var none: seq<byte> := [];
    assert none + [0x61] == [0x61];
  }

  lemma Regroup(a: seq<bool>, b: seq<bool>, c: seq<bool>, d: seq<bool>, e: seq<bool>, f: seq<bool>, g: seq<bool>,
      h: seq<bool>, s: seq<bool>)
    ensures a + b + (c + d + (e + f + (g + h + s))) == a + (b + (c + (d + e + (f + g + h)) + ([] + s)))
  {
    assert c + (d + e + (f + g + h)) + ([] + s) == c + d + (e + f + (g + h + s));
  }

  lemma SmallBits()
    ensures ByteBits(SMALL) == ToBits(0x78, 8)
        + (ToBits(0x01, 8) + (Print([SmallBlock()], 16).bits + ([] + ByteBits(Streams.SumBytes(0x620062)))))
  {
    hide ToBits, ByteBits, Print, SmallBlock;
    SmallPrint();
    TwoBytes(0x78, 0x01);
    TwoBytes(0x01, 0x01);
    TwoBytes(0x00, 0xFE);
    TwoBytes(0xFF, 0x61);
    var sum := Streams.SumBytes(0x620062);
    assert sum == [0x00, 0x62, 0x00, 0x62];
    ByteBitsConcat([0xFF, 0x61], sum);
    ByteBitsConcat([0x00, 0xFE], [0xFF, 0x61] + sum);
    ByteBitsConcat([0x01, 0x01], [0x00, 0xFE] + ([0xFF, 0x61] + sum));
    ByteBitsConcat([0x78, 0x01], [0x01, 0x01] + ([0x00, 0xFE] + ([0xFF, 0x61] + sum)));
    assert SMALL == [0x78, 0x01] + ([0x01, 0x01] + ([0x00, 0xFE] + ([0xFF, 0x61] + sum)));
    Regroup(ToBits(0x78, 8), ToBits(1, 8), ToBits(1, 8), ToBits(1, 8), ToBits(0, 8), ToBits(0xFE, 8), ToBits(0xFF, 8),
        ToBits(0x61, 8), ByteBits(sum));
  }

  lemma SmallHead()
    ensures Streams.GoodHead(CfgOf(true, true, 0), 0x78, 0x01)
  {
    assert (0x78, 0x01) == HeadBytes(7, 0, false);
    assert Streams.HeadFits(CfgOf(true, true, 0), 7);
  }

  lemma SmallStream()
    ensures WholeStream(CfgOf(true, true, 0), SMALL, 0x78, 0x01, [SmallBlock()], [], 0x620062)
        && Print([SmallBlock()], 16).out == [0x61]
    ensures Adler.Checksum([0x61]) == 0x620062 && Adler.Checksum([]) == 1
  {
    hide ToBits, ByteBits, Print;
    SmallPrint();
    SmallBits();
    SmallHead();
    assert Streams.ChunksSpan(CfgOf(true, true, 0), [SmallBlock()]);
  }

  /** Its first eight bytes without "more input", then the other four: the right byte comes out, and its right sum
      is refused. */
  method SmallGivesUp(buf: array<byte>, more: bool) returns (status1: Status, status2: Status)
    requires buf.Length > 1
    modifies buf
    ensures status1 == CannotProgress && buf[0] == 0x61 && status2 == AdlerMismatch
  {
    hide WholeStream, Print, Adler.Checksum;
    SmallStream();
    status1, status2 := GivesUpEarly(SMALL, buf, more, 0x78, 0x01, [SmallBlock()], [], 0x620062);
    assert buf[..1][0] == 0x61;
  }
}
