/** The resumable decompressor (third-party/miniz.c:2425-2917): the state it keeps between calls, and for each
    piece of code between two suspension points a method that follows the reference decoder. */
module Inflater {
  import opened Bits
  import opened Canonical
  import opened Format
  import opened Machine
  import opened Runs
  import opened Lookup
  import opened BitReader
  import Window

  /** Resumption points, named after the numbers stored in m_state. P51 is the head of the loop before 51, where the
      decoder never suspends. */
  datatype Pc =
    | P0 | P1 | P2 | P3 | P7 | P51 | P52 | P9 | P38 | P11 | P14 | P16 | P18
    | P23 | P24 | P25 | P26 | P27 | P53 | P42 | P34 | PFail(code: nat)

  /** The fields saved between calls; within a call the same record holds the local copies. */
  datatype Regs = Regs(pc: Pc, numBits: nat, bitBuf: nat, dist: nat, counter: nat, numExtra: nat, distFrom: nat,
                       final: nat, zhdr0: nat, zAdler: nat, rawHeader: seq<nat>, sizes: seq<nat>, clSizes: seq<nat>,
                           lenCodes: seq<nat>)

  /** How a piece of code ends: at another piece, or with a reason to return. */
  datatype Signal = Go | NeedInput | Full | Over | Broken

  /** One call: everything seen up to the end of its input; whether the stream is known to be valid as far as it
      goes, and whether the call began with a byte or more looked ahead of. */
  datatype Env = Env(cfg: Cfg, all: seq<byte>, base: nat, inp: seq<byte>, clean: bool, owed: bool)

  const LEN_CODES: nat := 457

  ghost predicate InBlock(c: Ctl) {
    c.LitLen? || c.EmitLit? || c.LenExtra? || c.DistSym? || c.DistExtra? || c.CopyMatch? || c.WildCopy?
  }

  ghost predicate InLens(c: Ctl) {
    c.Lens? || c.LensExtra?
  }

  /** The saved fields determine the reference decoder's control state. */
  ghost predicate Matched(cfg: Cfg, r: Regs, st: St) {
    && |r.rawHeader| == 4 && |r.sizes| == 3 && |r.clSizes| == 19 && |r.lenCodes| == LEN_CODES
    && (!(r.pc.P42? || r.pc.P34? || r.pc.PFail?) ==> r.zAdler == 1)
    && (!(r.pc.P1? || r.pc.P2? || r.pc.P3? || r.pc.P42? || r.pc.P34? || r.pc.PFail?) ==> st.final == (r.final % 2 == 1))
    && CtlIs(cfg, r, st)
  }

  ghost predicate CtlIs(cfg: Cfg, r: Regs, st: St)
    requires |r.rawHeader| == 4 && |r.sizes| == 3 && |r.clSizes| == 19 && |r.lenCodes| == LEN_CODES
  {
    match r.pc
    case P0 => false
    case P1 => st.ctl == Zhdr0 && r.numBits == 0
    case P2 => st.ctl == Zhdr1(r.zhdr0) && r.numBits == 0
    case P3 => st.ctl == Head
    case P7 => r.counter < 4 && st.ctl == RawHdr(r.rawHeader[..r.counter]) && st.pos % 8 == 0
    case P51 => st.ctl == RawCopy(r.counter) && st.pos % 8 == 0
    case P52 => r.dist < 256 && st.ctl == RawEmit(r.counter, r.dist) && st.pos % 8 == 0
    case P9 => r.counter > 0 && st.ctl == RawCopy(r.counter) && r.numBits == 0
    case P38 => r.counter > 0 && st.ctl == RawCopy(r.counter) && r.numBits == 0
    case P11 => r.counter < 3 && st.ctl == Sizes(r.sizes[..r.counter])
    case P14 => st.ctl == ClLens(r.sizes, r.clSizes, r.counter)
    case P16 => r.counter <= LEN_CODES
        && st.ctl == Lens(r.sizes[0], r.sizes[0] + r.sizes[1], r.clSizes, r.lenCodes[..r.counter])
    case P18 => r.counter <= LEN_CODES && r.numExtra == PackExtra(r.dist)
                && st.ctl == LensExtra(r.sizes[0], r.sizes[0] + r.sizes[1], r.clSizes, r.lenCodes[..r.counter], r.dist)
    case P23 => st.ctl == LitLen
    case P24 => r.counter < 256 && st.ctl == EmitLit(r.counter)
    case P25 => st.ctl == LenExtra(r.counter, r.numExtra)
    case P26 => st.ctl == DistSym(r.counter)
    case P27 => st.ctl == DistExtra(r.counter, r.dist, r.numExtra)
    case P53 => AtCopy(cfg, r, st, r.counter + 1) && Window.Tracks(cfg, r.distFrom, |st.out|)
    case P42 => st.ctl == Trailer(r.zAdler, r.counter) && r.numBits == 0
    case P34 => st.ctl == Done(r.zAdler) && r.numBits == 0
    case PFail(c) => st.ctl == Failed(c)
  }

  /** So many bytes of a match are still to be copied, from a distance that may be improper when wrapping. */
  ghost predicate AtCopy(cfg: Cfg, r: Regs, st: St, left: nat) {
    && (cfg.nonWrapping ==> Window.Proper(cfg, r.dist, st.out))
    && if left == 0 then st.ctl == LitLen
       else st.ctl == WildCopy(left) || (st.ctl == CopyMatch(left, r.dist) && Window.Proper(cfg, r.dist, st.out))
  }

  /** The stream is valid as far as it goes: no symbol without meaning, no distance beyond the output. */
  ghost predicate Clean(cfg: Cfg, S: seq<bool>, st: St)
    requires WellFormed(st)
  {
    forall t :: Leads(cfg, S, st, t) ==> !t.ctl.Invalid?
  }

  /** The buffered bits do not complete the next item. */
  ghost predicate Starved(cfg: Cfg, S: seq<bool>, st: St)
    requires WellFormed(st)
  {
    !Halted(st.ctl) && Step(cfg, st, S).Stall?
  }

  ghost function Stream(e: Env): seq<bool> {
    ByteBits(e.all)
  }

  ghost predicate Synced(e: Env, inCur: nat, r: Regs, pos: nat) {
    InSync(e.all, e.base, e.inp, inCur, pos, r.numBits, r.bitBuf)
  }

  /** The bits read so far. */
  ghost function Read(e: Env, r: Regs, pos: nat): seq<bool>
    requires pos + r.numBits <= |Stream(e)|
  {
    Stream(e)[..pos + r.numBits]
  }

  /** The abstract state is a possible one. */
  ghost predicate Sound(e: Env, st: St) {
    WellFormed(st) && (e.clean ==> Clean(e.cfg, Stream(e), st))
  }

  /** What was looked ahead of can be given back; only on a malformed stream, and by a call that began with a byte
      or more of it, it may not. */
  ghost predicate Lean(e: Env, numBits: nat, inCur: nat) {
    Recoverable(numBits, inCur) || (e.owed && !e.clean)
  }

  /** Between two pieces of code. */
  ghost predicate Live(e: Env, inCur: nat, r: Regs, st: St) {
    Sound(e, st) && Matched(e.cfg, r, st) && Synced(e, inCur, r, st.pos)
  }

  /** What was looked ahead of can be given back, unless the next item needs it. */
  ghost predicate Thrifty(e: Env, inCur: nat, r: Regs, st: St)
    requires Live(e, inCur, r, st)
  {
    Recoverable(r.numBits, inCur) || (e.owed && (e.clean ==> Starved(e.cfg, Read(e, r, st.pos), st)))
  }

  /** The codes a state uses are those of an earlier state. */
  ghost predicate SameCodes(st: St, t: St) {
    && (InBlock(t.ctl) ==> InBlock(st.ctl) && t.lit == st.lit && t.dst == st.dst)
    && (InLens(t.ctl) ==> InLens(st.ctl) && t.ctl.cl == st.ctl.cl)
  }

  /** From st the reference decoder gets to t, as long as the stream is valid; in any case t comes after st. */
  ghost predicate Reached(e: Env, st: St, t: St) {
    && WellFormed(st) && Sound(e, t) && st.pos <= t.pos && st.out <= t.out
    && (e.clean ==> Leads(e.cfg, Stream(e), st, t) && !t.ctl.Invalid?)
  }

  /** On a malformed stream anything that comes after will do. */
  lemma Adrift(e: Env, st: St, t: St)
    requires !e.clean && WellFormed(st) && Follows(st, t)
    ensures Reached(e, st, t)
  {
    hide WellFormed;
  }

  lemma CleanLater(cfg: Cfg, S: seq<bool>, a: St, b: St)
    requires WellFormed(a) && Leads(cfg, S, a, b) && WellFormed(b) && Clean(cfg, S, a)
    ensures Clean(cfg, S, b) && !b.ctl.Invalid?
  {
    hide Leads;
    forall t | Leads(cfg, S, b, t) ensures !t.ctl.Invalid? {
      LeadsTrans(cfg, S, a, b, t);
    }
  }

  lemma ReachedStep(e: Env, st: St, t: St)
    requires Sound(e, st) && Step(e.cfg, st, Stream(e)) == Next(t)
    ensures Reached(e, st, t)
  {
    hide Leads, Step, Clean, WellFormed;
    StepKeeps(e.cfg, st, Stream(e));
    LeadsStep(e.cfg, Stream(e), st, t);
    if e.clean {
      CleanLater(e.cfg, Stream(e), st, t);
    }
  }

  lemma ReachedTrans(e: Env, a: St, b: St, c: St)
    requires Reached(e, a, b) && Reached(e, b, c)
    ensures Reached(e, a, c)
  {
    hide Leads, Clean, WellFormed;
    if e.clean {
      LeadsTrans(e.cfg, Stream(e), a, b, c);
    }
  }

  // ----- fields -----

  ghost predicate AtField(st: St, n: nat) {
    WellFormed(st) && !AtSym(st.ctl) && !Halted(st.ctl) && Width(st.ctl) == n && 0 < n
  }

  lemma FieldReached(e: Env, st: St, n: nat)
    requires Sound(e, st) && AtField(st, n) && st.pos + n <= |Stream(e)|
    ensures Reached(e, st, FieldStep(e.cfg, st, Peek(Stream(e), st.pos, n)))
  {
    hide Stream, FieldStep, Reached, WellFormed, Clean, Peek;
    ReachedStep(e, st, FieldStep(e.cfg, st, Peek(Stream(e), st.pos, n)));
  }

  lemma FieldWaits(e: Env, st: St, n: nat)
    requires AtField(st, n) && st.pos + n > |Stream(e)|
    ensures !Halted(st.ctl) && Starved(e.cfg, Stream(e), st)
  {
    hide WellFormed, FieldStep;
  }

  lemma SyncedFacts(e: Env, inCur: nat, r: Regs, pos: nat)
    requires Synced(e, inCur, r, pos)
    ensures inCur <= |e.inp| && r.numBits <= 30 && pos + r.numBits == 8 * (e.base + inCur) <= |Stream(e)|
    ensures inCur == |e.inp| ==> pos + r.numBits == |Stream(e)| && Read(e, r, pos) == Stream(e)
  {
  }

  /** A starved field is wider than the buffer. */
  lemma StarvedField(e: Env, inCur: nat, r: Regs, st: St, n: nat)
    requires Live(e, inCur, r, st) && AtField(st, n) && Starved(e.cfg, Read(e, r, st.pos), st)
    ensures r.numBits < n
  {
    hide Stream, WellFormed, Clean, Matched;
    SyncedFacts(e, inCur, r, st.pos);
  }

  /** What a field was read as. */
  ghost predicate GotField(e: Env, st: St, n: nat, v: nat) {
    AtField(st, n) && v < Pow2(n) && Reached(e, st, FieldStep(e.cfg, st, v))
  }

  /** Input is missing: nothing left to read, and the reference decoder cannot go on either. */
  ghost predicate Hungry(e: Env, inCur: nat, st: St) {
    inCur == |e.inp| && WellFormed(st) && !Halted(st.ctl) && (e.clean ==> Starved(e.cfg, Stream(e), st))
  }

  /** Read a field of n bits. */
  method Field(inp: seq<byte>, inCur0: nat, r0: Regs, n: nat, ghost e: Env, ghost st: St)
    returns (ok: bool, v: nat, inCur: nat, r: Regs)
    requires inp == e.inp && Live(e, inCur0, r0, st) && Thrifty(e, inCur0, r0, st) && AtField(st, n) && n <= 15
    ensures r == r0.(numBits := r.numBits, bitBuf := r.bitBuf) && inCur0 <= inCur
    ensures ok ==> GotField(e, st, n, v) && Synced(e, inCur, r, st.pos + n) && Lean(e, r.numBits, inCur)
    ensures !ok ==> Synced(e, inCur, r, st.pos) && Hungry(e, inCur, st) && r.numBits < n && r0.numBits < n
  {
    hide Stream, WellFormed, Clean, Matched, InSync, Starved, AtField, Peek, FieldStep, Reached;
    if !Recoverable(r0.numBits, inCur0) && e.clean {
      StarvedField(e, inCur0, r0, st, n);
    }
    var numBits, bitBuf;
    ok, v, inCur, numBits, bitBuf := GetBits(inp, inCur0, r0.numBits, r0.bitBuf, n, e.all, e.base, st.pos);
    r := r0.(numBits := numBits, bitBuf := bitBuf);
    if ok {
      SyncedFacts(e, inCur, r, st.pos + n);
      PeekBits(e, st.pos, n);
      FieldReached(e, st, n);
    } else {
      SyncedFacts(e, inCur, r, st.pos);
      FieldWaits(e, st, n);
    }
  }

  lemma PeekBits(e: Env, pos: nat, n: nat)
    requires pos + n <= |Stream(e)|
    ensures Peek(ByteBits(e.all), pos, n) == Peek(Stream(e), pos, n) < Pow2(n)
  {
    hide ByteBits;
    PeekSmall(Stream(e), pos, n);
  }

  lemma WholeByte(e: Env, inCur: nat, r: Regs, pos: nat)
    requires Synced(e, inCur, r, pos) && r.numBits == 0 && inCur < |e.inp|
    ensures pos + 8 <= |Stream(e)| && Peek(Stream(e), pos, 8) == e.inp[inCur]
    ensures Synced(e, inCur + 1, r, pos + 8)
  {
    hide ToBits, FromBits, ByteBits;
    var S := ByteBits(e.all);
    var c := e.all[e.base + inCur];
    assert S[0..|S|] == S;
    ByteAt(S, 0, e.all, e.base + inCur);
    assert S[pos..pos + 8] == ToBits(c, 8);
    Runs.PowByte();
    FromToBits(c, 8);
    EmptyBuffer(r.bitBuf, S, pos + 8);
  }

  lemma EmptyBuffer(bitBuf: nat, S: seq<bool>, pos: nat)
    requires bitBuf < Pow2(0) && pos <= |S|
    ensures Buffered(S, pos, 0, bitBuf)
  {
  }

  /** Read a whole byte when the bit buffer is empty. */
  method GetByte(inp: seq<byte>, inCur0: nat, r: Regs, ghost e: Env, ghost st: St)
      returns (ok: bool, c: nat, inCur: nat)
    requires inp == e.inp && Live(e, inCur0, r, st) && AtField(st, 8) && r.numBits == 0
    ensures inCur0 <= inCur
    ensures ok ==> GotField(e, st, 8, c) && Synced(e, inCur, r, st.pos + 8) && c < 256
    ensures !ok ==> Synced(e, inCur, r, st.pos) && Hungry(e, inCur, st)
  {
    hide Stream, WellFormed, Clean, Matched, InSync, Starved, AtField, Peek, FieldStep, Reached;
    SyncedFacts(e, inCur0, r, st.pos);
    inCur, c := inCur0, 0;
    if inCur >= |inp| {
      FieldWaits(e, st, 8);
      ok := false;
      return;
    }
    WholeByte(e, inCur, r, st.pos);
    PeekBits(e, st.pos, 8);
    FieldReached(e, st, 8);
    ok, c, inCur := true, inp[inCur], inCur + 1;
  }

  // ----- stream header, block headers, trailer -----

  /** The next step writes a byte. */
  predicate Emits(c: Ctl) {
    c.EmitLit? || c.RawEmit? || c.CopyMatch? || (c.RawCopy? && c.left > 0)
  }

  ghost predicate MayEmit(e: Env, c: Ctl) {
    Emits(c) || (!e.clean && c.WildCopy?)
  }

  lemma ReachedSelf(e: Env, st: St)
    requires Sound(e, st)
    ensures Reached(e, st, st)
  {
    hide Leads, WellFormed;
    LeadsSelf(e.cfg, Stream(e), st);
  }

  /** A state without a field to read takes its step. */
  lemma NoFieldReached(e: Env, st: St)
    requires Sound(e, st) && !AtSym(st.ctl) && !Halted(st.ctl) && Width(st.ctl) == 0 && st.pos <= |Stream(e)|
    ensures Reached(e, st, FieldStep(e.cfg, st, 0))
  {
    hide Stream, FieldStep, Reached, WellFormed, Clean;
    assert Peek(Stream(e), st.pos, 0) == 0 by {
      assert Stream(e)[st.pos..st.pos] == [];
    }
    ReachedStep(e, st, FieldStep(e.cfg, st, 0));
  }

  /** A decoder about to write is not starved. */
  lemma EmitsNotStarved(e: Env, inCur: nat, r: Regs, st: St)
    requires Live(e, inCur, r, st) && Thrifty(e, inCur, r, st)
        && (st.ctl.EmitLit? || st.ctl.RawEmit? || st.ctl.CopyMatch? || st.ctl.WildCopy?)
    ensures Lean(e, r.numBits, inCur) && st.pos <= |Stream(e)|
  {
    hide Stream, WellFormed, Clean, Matched, FieldStep;
    SyncedFacts(e, inCur, r, st.pos);
  }

  /** How near a state is to one that consumes bits or writes: a symbol without bits stands for a zero, as a code
      length, a literal or a distance, and the end of a stored block takes none either. */
  ghost function Rank(st: St): nat {
    match st.ctl
    case Lens(_, _, _, got) => if |got| < 400 then 404 - |got| else 4
    case DistSym(_) => 3
    case LitLen => 2
    case EmitLit(_) => 1
    case RawCopy(_) => 1
    case _ => 0
  }

  /** Bits were consumed, bytes written, or the state is nearer to that. */
  ghost predicate Progress(st: St, t: St) {
    st.pos < t.pos || |st.out| < |t.out| || Rank(t) < Rank(st)
  }

  /** The decoder moved on to t. */
  ghost predicate Advanced(e: Env, inCur: nat, r: Regs, st: St, t: St) {
    Reached(e, st, t) && Live(e, inCur, r, t) && Lean(e, r.numBits, inCur)
  }

  /** The decoder waits for input where it was. */
  ghost predicate Waiting(e: Env, inCur: nat, r: Regs, st: St) {
    Live(e, inCur, r, st) && Hungry(e, inCur, st) && !r.pc.P51? && (AtSym(st.ctl) ==> r.numBits < 15)
  }

  ghost predicate Outcome(e: Env, inCur: nat, sig: Signal, r: Regs, st: St, t: St) {
    match sig
    case Go => Advanced(e, inCur, r, st, t) && !Halted(t.ctl) && Progress(st, t)
    case Over => Advanced(e, inCur, r, st, t) && Halted(t.ctl)
    case NeedInput => Reached(e, st, t) && Waiting(e, inCur, r, t)
    case Full => Advanced(e, inCur, r, st, t) && MayEmit(e, t.ctl) && !r.pc.P51?
    case Broken => e.owed && !e.clean && Reached(e, st, t)
  }

  /** A piece of code that has read its field or symbol and arrives at another. */
  lemma Arrive(e: Env, inCur: nat, sig: Signal, r: Regs, st: St, t: St)
    requires Reached(e, st, t) && Matched(e.cfg, r, t) && Synced(e, inCur, r, t.pos) && Lean(e, r.numBits, inCur)
    requires match sig case Go => !Halted(t.ctl) && Progress(st, t) case Over => Halted(t.ctl) case _ => false
    ensures Outcome(e, inCur, sig, r, st, t)
  {
    hide Matched, InSync, Lean, Leads, WellFormed, Clean, Rank;
  }

  /** The saved fields match a state whatever is in the bit buffer, where that need not be empty. */
  lemma MatchedStill(cfg: Cfg, r0: Regs, r: Regs, st: St)
    requires Matched(cfg, r0, st) && r == r0.(numBits := r.numBits, bitBuf := r.bitBuf)
    requires r0.pc.P1? || r0.pc.P2? || r0.pc.P9? || r0.pc.P38? || r0.pc.P42? || r0.pc.P34? ==> r.numBits == r0.numBits
    ensures Matched(cfg, r, st)
  {
    hide Window.Tracks, Window.Proper;
  }

  /** A piece of code that waits for input where it was. */
  lemma Await(e: Env, inCur0: nat, inCur: nat, r0: Regs, r: Regs, st: St)
    requires Live(e, inCur0, r0, st) && r == r0.(numBits := r.numBits, bitBuf := r.bitBuf)
    requires r0.pc.P1? || r0.pc.P2? || r0.pc.P9? || r0.pc.P38? || r0.pc.P42? || r0.pc.P34? ==> r.numBits == r0.numBits
    requires Synced(e, inCur, r, st.pos) && Hungry(e, inCur, st) && !r.pc.P51? && (AtSym(st.ctl) ==> r.numBits < 15)
    ensures Outcome(e, inCur, NeedInput, r, st, st)
  {
    hide Matched, InSync, Leads, WellFormed, Clean, Starved;
    MatchedStill(e.cfg, r0, r, st);
    ReachedSelf(e, st);
  }

  lemma ReadyLive(e: Env, inp: seq<byte>, inCur: nat, r: Regs, st: St)
    requires Ready(e, inp, inCur, r, st)
    ensures Live(e, inCur, r, st) && Sound(e, st) && WellFormed(st) && Matched(e.cfg, r, st)
        && Synced(e, inCur, r, st.pos)
  {
    hide Matched, InSync, Clean, WellFormed;
  }

  /** A piece of code that does not wait for stored bytes. */
  ghost predicate OffStore(sig: Signal, r: Regs, t: St) {
    !r.pc.P38? && (sig.NeedInput? ==> !t.ctl.RawCopy?)
  }

  /** A piece of code that only reads input may start. */
  ghost predicate Ready(e: Env, inp: seq<byte>, inCur: nat, r: Regs, st: St) {
    inp == e.inp && Live(e, inCur, r, st) && Thrifty(e, inCur, r, st)
  }

  lemma ReachedSound(e: Env, st: St, t: St)
    requires Reached(e, st, t)
    ensures Sound(e, t) && WellFormed(t)
  {
  }

  /** TINFL_CR_BEGIN with m_state 0. */
  method Start(cfg: Cfg, inp: seq<byte>, r0: Regs, ghost e: Env) returns (r: Regs)
    requires e.cfg == cfg && e.inp == inp == e.all && e.base == 0 && Sound(e, Init(cfg))
    requires |r0.rawHeader| == 4 && |r0.sizes| == 3 && |r0.clSizes| == 19 && |r0.lenCodes| == LEN_CODES
    ensures Live(e, 0, r, Init(cfg)) && r.numBits == 0
    ensures !r.pc.P38?
  {
    hide Sound, ByteBits;
    r := r0.(numBits := 0, bitBuf := 0, dist := 0, counter := 0, numExtra := 0, zhdr0 := 0, zAdler := 1,
        pc := if cfg.zlib then P1 else P3);
    EmptyBuffer(0, ByteBits(e.all), 0);
    assert e.inp == e.all[0..];
  }

  /** The two bytes of the zlib header. */
  method ZlibHeader(cfg: Cfg, inp: seq<byte>, inCur0: nat, r0: Regs, ghost e: Env, ghost st: St)
    returns (sig: Signal, inCur: nat, r: Regs, ghost t: St)
    requires Ready(e, inp, inCur0, r0, st) && (r0.pc.P1? || r0.pc.P2?) && cfg == e.cfg
    ensures Outcome(e, inCur, sig, r, st, t) && SameCodes(st, t) && t.out == st.out && sig != Full
    ensures OffStore(sig, r, t)
  {
    hide FieldStep, WellFormed, FromBits, Clean, InSync, Reached, Hungry, Thrifty, Pow2;
    var ok, c;
    r, t := r0, st;
    ByteField(st);
    ok, c, inCur := GetByte(inp, inCur0, r, e, st);
    if !ok {
      ReachedSelf(e, st);
      sig := NeedInput;
      return;
    }
    t := FieldStep(cfg, st, c);
    FieldIs(e.cfg, st, c);
    ReachedSound(e, st, t);
    if r.pc.P1? {
      sig, r := Go, r.(zhdr0 := c, pc := P2);
    } else if BadZlibHeader(cfg, r.zhdr0, c) {
      sig, r := Over, r.(pc := PFail(36));
    } else {
      sig, r := Go, r.(pc := P3);
    }
  }

  lemma ByteField(st: St)
    requires WellFormed(st) && (st.ctl.Zhdr0? || st.ctl.Zhdr1? || st.ctl.RawHdr? || st.ctl.Trailer?
        || (st.ctl.RawCopy? && st.ctl.left > 0))
    ensures AtField(st, 8)
  {
  }

  lemma AtTrailer(cfg: Cfg, r: Regs, st: St)
    requires Matched(cfg, r, st) && r.pc.P42? && WellFormed(st)
    ensures st.ctl == Trailer(r.zAdler, r.counter) && r.numBits == 0 && AtField(st, 8) && r.counter < 4
  {
    ByteField(st);
  }

  lemma TrailerNext(cfg: Cfg, r0: Regs, r: Regs, st: St, s: nat, t: St)
    requires Matched(cfg, r0, st) && r0.pc.P42? && WellFormed(st) && t == FieldStep(cfg, st, s) && r0.counter < 4
    requires r == r0.(zAdler := ShiftIn(r0.zAdler, s), counter := r0.counter + 1, pc := if r0.counter == 3 then P34
        else P42)
    ensures Matched(cfg, r, t) && t.pos == st.pos + 8 && t.out == st.out && SameCodes(st, t)
        && (Halted(t.ctl) <==> r0.counter == 3)
  {
    hide ShiftIn, FieldStep, WellFormed;
    FieldIs(cfg, st, s);
  }

  lemma SameSelf(st: St)
    ensures SameCodes(st, st)
  {
  }

  lemma EmptyLean(e: Env, inCur: nat, numBits: nat)
    requires numBits < 8
    ensures Lean(e, numBits, inCur)
  {
  }

  /** One byte of the checksum in the trailer. */
  method ReadTrailer(inp: seq<byte>, inCur0: nat, r0: Regs, ghost e: Env, ghost st: St)
    returns (sig: Signal, inCur: nat, r: Regs, ghost t: St)
    requires Ready(e, inp, inCur0, r0, st) && r0.pc.P42?
    ensures Outcome(e, inCur, sig, r, st, t) && SameCodes(st, t) && t.out == st.out && sig != Full
    ensures OffStore(sig, r, t)
  {
    hide Matched, Outcome, Live, FieldStep, WellFormed, Clean, InSync, Reached, Hungry, Thrifty, ShiftIn, AtField,
        SameCodes, Sound;
    var ok, s;
    r, t := r0, st;
    ReadyLive(e, inp, inCur0, r, st);
    AtTrailer(e.cfg, r, st);
    ok, s, inCur := GetByte(inp, inCur0, r, e, st);
    if !ok {
      Await(e, inCur0, inCur, r0, r, st);
      SameSelf(st);
      sig := NeedInput;
      return;
    }
    t := FieldStep(e.cfg, st, s);
    r := r.(zAdler := ShiftIn(r.zAdler, s), counter := r.counter + 1);
    if r.counter < 4 {
      sig := Go;
    } else {
      sig, r := Over, r.(pc := P34);
    }
    TrailerNext(e.cfg, r0, r, st, s, t);
    EmptyLean(e, inCur, r.numBits);
    Arrive(e, inCur, sig, r, st, t);
  }

  lemma AlignIs(pos: nat, n: nat, k: nat)
    requires pos + n == 8 * k
    ensures Align(pos) == pos + n % 8 && Align(pos) % 8 == 0
  {
    var q, m := n / 8, n % 8;
    if m == 0 {
      assert pos == 8 * (k - q);
    } else {
      assert pos == 8 * (k - q - 1) + (8 - m);
    }
  }

  /** Dropping the bits up to the byte boundary. */
  lemma SkipBits(e: Env, inCur: nat, r: Regs, pos: nat)
    requires Synced(e, inCur, r, pos)
    ensures Align(pos) == pos + r.numBits % 8 && Align(pos) % 8 == 0
    ensures Synced(e, inCur, r.(numBits := r.numBits - r.numBits % 8, bitBuf := Shr(r.bitBuf, r.numBits % 8)),
        Align(pos))
  {
    hide Buffered, Shr, ByteBits, Align, InSync;
    SyncedFacts(e, inCur, r, pos);
    AlignIs(pos, r.numBits, e.base + inCur);
    DropBits(e.all, e.base, e.inp, inCur, pos, r.numBits, r.bitBuf, r.numBits % 8);
  }

  /** Fields that every piece of code leaves in shape. */
  predicate Shaped(r: Regs) {
    |r.rawHeader| == 4 && |r.sizes| == 3 && |r.clSizes| == 19 && |r.lenCodes| == LEN_CODES && r.zAdler == 1
  }

  lemma HeadAgain(cfg: Cfg, r: Regs, st: St, pos: nat)
    requires Shaped(r) && r.pc.P3? && !st.final
    ensures var t := AfterBlock(cfg, st, pos); Matched(cfg, r, t) && t.pos == pos && t.ctl.Head?
  {
  }

  lemma DataOver(cfg: Cfg, r: Regs, st: St, pos: nat)
    requires Shaped(r) && r.numBits == 0 && st.final && if cfg.zlib then r.pc.P42? && r.counter == 0 else r.pc.P34?
    ensures var t := AfterBlock(cfg, st, pos);
            Matched(cfg, r, t) && t.pos == Align(pos) >= pos && (Halted(t.ctl) <==> !cfg.zlib)
  {
  }

  lemma LeanEmpty(e: Env, inCur: nat, numBits: nat)
    requires Lean(e, numBits, inCur)
    ensures Recoverable(numBits - numBits % 8, inCur) || (e.owed && !e.clean)
  {
  }

  /** The end of a block: the next block, or byte alignment, the return of look-ahead bytes and the trailer.
      The bit buffer is then empty, as the source asserts; if it is not, the assertion stops the program. */
  method EndBlock(cfg: Cfg, inp: seq<byte>, inCur0: nat, r0: Regs, ghost e: Env, ghost st: St, ghost pos: nat)
      returns (sig: Signal, inCur: nat, r: Regs)
    requires cfg == e.cfg && inp == e.inp && Shaped(r0) && st.final == (r0.final % 2 == 1)
    requires Synced(e, inCur0, r0, pos) && Lean(e, r0.numBits, inCur0) && Sound(e, AfterBlock(cfg, st, pos))
    ensures var t := AfterBlock(cfg, st, pos);
            match sig
            case Broken => e.owed && !e.clean
            case _ => Live(e, inCur, r, t) && Lean(e, r.numBits, inCur) && pos <= t.pos && if Halted(t.ctl) then
                sig == Over else sig == Go
    ensures !sig.NeedInput? ==> !r.pc.P38?
  {
    hide ByteBits, ToBits, Shr, Low, Sound, InSync, Align, Matched, Lean, AfterBlock;
    inCur, r := inCur0, r0;
    if r.final % 2 == 0 {
      sig, r := Go, r.(pc := P3);
      HeadAgain(cfg, r, st, pos);
      return;
    }
    SkipBits(e, inCur, r, pos);
    SyncedFacts(e, inCur, r, pos);
    r := r.(numBits := r.numBits - r.numBits % 8, bitBuf := Shr(r.bitBuf, r.numBits % 8));
    SyncedFacts(e, inCur, r, Align(pos));
    LeanEmpty(e, inCur0, r0.numBits);
    var numBits, bitBuf;
    inCur, numBits, bitBuf := PutBack(inCur, r.numBits, r.bitBuf, inp, e.all, e.base, Align(pos));
    r := r.(numBits := numBits, bitBuf := bitBuf);
    SyncedFacts(e, inCur, r, Align(pos));
    if r.numBits != 0 {
      sig, r := Broken, r.(pc := P34);
      return;
    }
    EmptyLean(e, inCur, r.numBits);
    if cfg.zlib {
      sig, r := Go, r.(counter := 0, pc := P42);
    } else {
      sig, r := Over, r.(pc := P34);
    }
    DataOver(cfg, r, st, pos);
  }

  // ----- stored blocks -----

  lemma SnocPrefix(s: seq<nat>, k: nat, x: nat)
    requires k < |s|
    ensures s[k := x][..k + 1] == s[..k] + [x]
  {
  }

  lemma AtRawHeader(cfg: Cfg, r: Regs, st: St)
    requires Matched(cfg, r, st) && r.pc.P7? && WellFormed(st)
    ensures st.ctl.RawHdr? && AtField(st, 8) && r.counter < 4 == |r.rawHeader| && st.pos % 8 == 0
  {
    ByteField(st);
  }

  /** The record after one more byte of a stored block's header. */
  function RawHeaderNext(r: Regs, c: nat): (Signal, Regs)
    requires r.counter < 4 == |r.rawHeader|
  {
    var q := r.(rawHeader := r.rawHeader[r.counter := c], counter := r.counter + 1);
    var len := q.rawHeader[0] + 256 * q.rawHeader[1];
    if q.counter < 4 then (Go, q)
    else if len + (q.rawHeader[2] + 256 * q.rawHeader[3]) != 65535 then (Over, q.(counter := len, pc := PFail(39)))
    else (Go, q.(counter := len, pc := P51))
  }

  lemma RawHeaderMatched(cfg: Cfg, r0: Regs, r: Regs, st: St, c: nat, t: St)
    requires Matched(cfg, r0, st) && r0.pc.P7? && WellFormed(st) && t == FieldStep(cfg, st, c)
        && r == r0.(numBits := r.numBits, bitBuf := r.bitBuf)
    ensures r.counter < 4 == |r.rawHeader|
    ensures var (sig, q) := RawHeaderNext(r, c);
            Matched(cfg, q, t) && t.pos == st.pos + 8 && t.out == st.out && SameCodes(st, t)
                && (Halted(t.ctl) <==> sig == Over) && !q.pc.P38?
            && q.numBits == r.numBits && q.bitBuf == r.bitBuf && (sig == Go || sig == Over)
  {
    hide FieldStep, WellFormed;
    FieldIs(cfg, st, c);
    SnocPrefix(r.rawHeader, r.counter, c);
    assert r.rawHeader[r.counter := c][..r.counter + 1] == r0.rawHeader[..r0.counter] + [c];
  }

  /** After the end of a block. */
  lemma BlockEnded(e: Env, inCur: nat, sig: Signal, r: Regs, st: St, t: St)
    requires Reached(e, st, t) && Progress(st, t)
    requires match sig
             case Broken => e.owed && !e.clean
             case _ => Live(e, inCur, r, t) && Lean(e, r.numBits, inCur) && if Halted(t.ctl) then sig == Over
                 else sig == Go
    ensures Outcome(e, inCur, sig, r, st, t)
  {
    hide Live, Lean, Reached, Progress;
  }

  /** The two 16-bit numbers of a stored block's header. */
  method RawHeader(inp: seq<byte>, inCur0: nat, r0: Regs, ghost e: Env, ghost st: St)
    returns (sig: Signal, inCur: nat, r: Regs, ghost t: St)
    requires Ready(e, inp, inCur0, r0, st) && r0.pc.P7?
    ensures Outcome(e, inCur, sig, r, st, t) && SameCodes(st, t) && t.out == st.out && sig != Full
    ensures OffStore(sig, r, t)
  {
    hide Matched, Outcome, Live, FieldStep, WellFormed, Clean, InSync, Reached, Hungry, Thrifty, AtField, SameCodes,
        Sound, RawHeaderNext, Lean;
    var ok, c;
    r, t := r0, st;
    ReadyLive(e, inp, inCur0, r, st);
    AtRawHeader(e.cfg, r, st);
    SyncedFacts(e, inCur0, r, st.pos);
    if r.numBits > 0 {
      ok, c, inCur, r := Field(inp, inCur0, r, 8, e, st);
    } else {
      EmptyLean(e, inCur0, r.numBits);
      ok, c, inCur := GetByte(inp, inCur0, r, e, st);
      EmptyLean(e, inCur, r.numBits);
    }
    if !ok {
      Await(e, inCur0, inCur, r0, r, st);
      SameSelf(st);
      sig := NeedInput;
      return;
    }
    t := FieldStep(e.cfg, st, c);
    RawHeaderMatched(e.cfg, r0, r, st, c, t);
    var next := RawHeaderNext(r, c);
    sig, r := next.0, next.1;
    Arrive(e, inCur, sig, r, st, t);
  }

  /** Only the cells from cur0 up to cur changed. */
  ghost predicate Wrote(was: seq<byte>, now: seq<byte>, cur0: nat, cur: nat, st: St, t: St) {
    && |now| == |was| && cur0 <= cur <= |now| && now[..cur0] == was[..cur0] && now[cur..] == was[cur..]
    && |t.out| == |st.out| + (cur - cur0)
  }

  lemma WroteTrans(a: seq<byte>, b: seq<byte>, c: seq<byte>, x: nat, y: nat, z: nat, st: St, t: St, u: St)
    requires Wrote(a, b, x, y, st, t) && Wrote(b, c, y, z, t, u)
    ensures Wrote(a, c, x, z, st, u)
  {
    assert c[..x] == c[..y][..x] == b[..y][..x] == b[..x];
    assert c[z..] == b[z..] == b[y..][z - y..] == a[y..][z - y..] == a[z..];
  }

  lemma WroteNone(a: seq<byte>, x: nat, st: St, t: St)
    requires x <= |a| && |t.out| == |st.out|
    ensures Wrote(a, a, x, x, st, t)
  {
  }

  /** Write one byte. */
  method Put(cfg: Cfg, buf: array<byte>, cur: nat, end: nat, b: byte, ghost st: St, ghost t: St)
    requires Window.Holds(cfg, buf[..], cur, end, st.out) && cur < end && t.out == st.out + [b]
    modifies buf
    ensures Window.Holds(cfg, buf[..], cur + 1, end, t.out) && Wrote(old(buf[..]), buf[..], cur, cur + 1, st, t)
  {
    Window.HoldsPlaced(cfg, buf[..], cur, end, st.out);
    hide Window.Holds;
    Window.Emit(cfg, buf[..], cur, end, st.out, b);
    ghost var was := buf[..];
    buf[cur] := b;
    assert buf[..] == was[cur := b];
  }

  lemma AtStored(cfg: Cfg, r: Regs, st: St)
    requires Matched(cfg, r, st) && r.pc.P51? && WellFormed(st)
    ensures st.ctl == RawCopy(r.counter) && st.pos % 8 == 0 && Shaped(r) && st.final == (r.final % 2 == 1)
    ensures r.counter > 0 ==> AtField(st, 8)
  {
    if r.counter > 0 {
      ByteField(st);
    }
  }

  lemma StoredNext(cfg: Cfg, r0: Regs, r: Regs, st: St, c: nat, t: St)
    requires Matched(cfg, r0, st) && r0.pc.P51? && r0.counter > 0 && WellFormed(st) && t == FieldStep(cfg, st, c)
        && c < Pow2(8)
    requires r == r0.(numBits := r.numBits, bitBuf := r.bitBuf, dist := c, pc := P52)
    ensures Matched(cfg, r, t) && t.pos == st.pos + 8 && t.out == st.out && SameCodes(st, t) && !Halted(t.ctl)
  {
    hide FieldStep, WellFormed, Pow2;
    Runs.PowByte();
    FieldIs(cfg, st, c);
  }

  lemma StoredEnd(cfg: Cfg, st: St)
    requires WellFormed(st) && st.ctl == RawCopy(0)
    ensures var t := AfterBlock(cfg, st, st.pos);
            t == FieldStep(cfg, st, 0) && t.out == st.out && SameCodes(st, t) && Progress(st, t) && !t.ctl.RawCopy?
                && Width(st.ctl) == 0
  {
    hide WellFormed;
  }

  /** Stored bytes that already are in the bit buffer: one at a time. */
  method RawBuffered(cfg: Cfg, inp: seq<byte>, inCur0: nat, r0: Regs, ghost e: Env, ghost st: St)
    returns (sig: Signal, inCur: nat, r: Regs, ghost t: St)
    requires Ready(e, inp, inCur0, r0, st) && cfg == e.cfg && r0.pc.P51? && Lean(e, r0.numBits, inCur0)
        && (r0.counter == 0 || r0.numBits > 0)
    ensures Outcome(e, inCur, sig, r, st, t) && SameCodes(st, t) && t.out == st.out && sig != Full
    ensures OffStore(sig, r, t)
  {
    hide Matched, Outcome, Live, FieldStep, WellFormed, Clean, InSync, Reached, Hungry, Thrifty, AtField, SameCodes,
        Sound, Lean, AfterBlock, Rank, Align;
    r, t := r0, st;
    ReadyLive(e, inp, inCur0, r, st);
    AtStored(cfg, r, st);
    SyncedFacts(e, inCur0, r, st.pos);
    if r.counter == 0 {
      t := AfterBlock(cfg, st, st.pos);
      StoredEnd(cfg, st);
      NoFieldReached(e, st);
      ReachedSound(e, st, t);
      sig, inCur, r := EndBlock(cfg, inp, inCur0, r, e, st, st.pos);
      BlockEnded(e, inCur, sig, r, st, t);
      return;
    }
    var ok, c;
    ok, c, inCur, r := Field(inp, inCur0, r, 8, e, st);
    assert ok;
    t := FieldStep(e.cfg, st, c);
    sig, r := Go, r.(dist := c, pc := P52);
    StoredNext(cfg, r0, r, st, c, t);
    Arrive(e, inCur, sig, r, st, t);
  }

  /** The byte taken from the bit buffer is written (state 52). */
  method RawPut(cfg: Cfg, buf: array<byte>, inCur: nat, cur0: nat, end: nat, r0: Regs, ghost e: Env, ghost st: St)
    returns (sig: Signal, cur: nat, r: Regs, ghost t: St)
    requires cfg == e.cfg && Live(e, inCur, r0, st) && Thrifty(e, inCur, r0, st) && r0.pc.P52?
    requires Window.Holds(cfg, buf[..], cur0, end, st.out)
    modifies buf
    ensures Outcome(e, inCur, sig, r, st, t) && (sig == Full ==> cur == end) && SameCodes(st, t)
    ensures Window.Holds(cfg, buf[..], cur, end, t.out) && Wrote(old(buf[..]), buf[..], cur0, cur, st, t)
    ensures OffStore(sig, r, t)
  {
    hide Clean, InSync, Reached, Hungry, Thrifty, Pow2, Window.Holds, Wrote;
    r, t, cur := r0, st, cur0;
    EmitsNotStarved(e, inCur, r, st);
    Window.HoldsPlaced(cfg, buf[..], cur, end, st.out);
    if cur >= end {
      ReachedSelf(e, st);
      WroteNone(buf[..], cur, st, t);
      sig := Full;
      return;
    }
    t := FieldStep(cfg, st, 0);
    NoFieldReached(e, st);
    ReachedSound(e, st, t);
    Put(cfg, buf, cur, end, r.dist, st, t);
    cur, sig, r := cur + 1, Go, r.(counter := r.counter - 1, pc := P51);
  }

  /** Several bytes more. */
  lemma {:induction false} EmitMany(cfg: Cfg, buf: seq<byte>, cur: nat, end: nat, out: seq<byte>, data: seq<byte>)
    requires Window.Holds(cfg, buf, cur, end, out) && cur + |data| <= end <= |buf|
    ensures Window.Holds(cfg, buf[..cur] + data + buf[cur + |data|..], cur + |data|, end, out + data)
    decreases |data|
  {
    hide Window.Holds;
    if data == [] {
      assert buf[..cur] + data + buf[cur + |data|..] == buf;
      assert out + data == out;
    } else {
      var n := |data| - 1;
      EmitMany(cfg, buf, cur, end, out, data[..n]);
      var b := buf[..cur] + data[..n] + buf[cur + n..];
      Window.Emit(cfg, b, cur + n, end, out + data[..n], data[n]);
      assert b[cur + n := data[n]] == buf[..cur] + data + buf[cur + |data|..];
      assert (out + data[..n]) + [data[n]] == out + data;
    }
  }

  /** One stored byte, read and written. */
  lemma RawOne(e: Env, st: St)
    requires Sound(e, st) && st.ctl.RawCopy? && st.ctl.left > 0 && st.pos % 8 == 0 && st.pos / 8 < |e.all|
    ensures Reached(e, st, st.(ctl := RawCopy(st.ctl.left - 1), pos := st.pos + 8, out := st.out + [e.all[st.pos / 8]]))
  {
    hide Clean, Reached, ByteBits, FromBits, ToBits, Leads;
    ByteField(st);
    var S, k := Stream(e), st.pos / 8;
    assert S == ByteBits(e.all);
    assert S[0..|S|] == S;
    ByteAt(S, 0, e.all, k);
    Runs.PowByte();
    FromToBits(e.all[k], 8);
    assert Peek(S, st.pos, 8) == e.all[k];
    FieldReached(e, st, 8);
    var u := FieldStep(e.cfg, st, e.all[k]);
    ReachedSound(e, st, u);
    NoFieldReached(e, u);
    ReachedTrans(e, st, u, FieldStep(e.cfg, u, 0));
  }

  /** n stored bytes. */
  lemma {:induction false} RawMany(e: Env, st: St, n: nat)
    requires Sound(e, st) && st.ctl.RawCopy? && n <= st.ctl.left && st.pos % 8 == 0 && st.pos / 8 + n <= |e.all|
    ensures Reached(e, st, st.(ctl := RawCopy(st.ctl.left - n), pos := st.pos + 8 * n,
        out := st.out + e.all[st.pos / 8..st.pos / 8 + n]))
    decreases n
  {
    hide Sound, Reached;
    var k := st.pos / 8;
    if n == 0 {
      assert st.out + e.all[k..k] == st.out;
      ReachedSelf(e, st);
    } else {
      var u := st.(ctl := RawCopy(st.ctl.left - 1), pos := st.pos + 8, out := st.out + [e.all[k]]);
      RawOne(e, st);
      ReachedSound(e, st, u);
      RawMany(e, u, n - 1);
      assert u.out + e.all[k + 1..k + n] == st.out + e.all[k..k + n];
      ReachedTrans(e, st, u, st.(ctl := RawCopy(st.ctl.left - n), pos := st.pos + 8 * n,
          out := st.out + e.all[k..k + n]));
    }
  }

  lemma SkipBytes(e: Env, inCur: nat, r: Regs, pos: nat, n: nat)
    requires Synced(e, inCur, r, pos) && r.numBits == 0 && inCur + n <= |e.inp|
    ensures Synced(e, inCur + n, r, pos + 8 * n) && pos % 8 == 0 && pos / 8 == e.base + inCur && pos / 8 + n <= |e.all|
    ensures e.inp[inCur..inCur + n] == e.all[pos / 8..pos / 8 + n]
  {
    hide ByteBits;
    EmptyBuffer(r.bitBuf, ByteBits(e.all), pos + 8 * n);
  }

  /** Copy n bytes from the input to the output. */
  method MemCopy(cfg: Cfg, inp: seq<byte>, buf: array<byte>, inCur: nat, cur: nat, end: nat, n: nat, r: Regs,
      ghost e: Env, ghost st: St)
    returns (ghost t: St)
    requires cfg == e.cfg && inp == e.inp && Sound(e, st) && Synced(e, inCur, r, st.pos) && r.numBits == 0
    requires st.ctl.RawCopy? && n <= st.ctl.left && inCur + n <= |inp| && cur + n <= end
    requires Window.Holds(cfg, buf[..], cur, end, st.out)
    modifies buf
    ensures Reached(e, st, t) && Synced(e, inCur + n, r, t.pos) && t.ctl == RawCopy(st.ctl.left - n)
    ensures t == st.(ctl := t.ctl, pos := st.pos + 8 * n, out := t.out)
    ensures Window.Holds(cfg, buf[..], cur + n, end, t.out) && Wrote(old(buf[..]), buf[..], cur, cur + n, st, t)
  {
    hide Sound, InSync, Reached, Window.Holds;
    Window.HoldsPlaced(cfg, buf[..], cur, end, st.out);
    SkipBytes(e, inCur, r, st.pos, n);
    ghost var was, data := buf[..], inp[inCur..inCur + n];
    t := st.(ctl := RawCopy(st.ctl.left - n), pos := st.pos + 8 * n, out := st.out + data);
    RawMany(e, st, n);
    EmitMany(cfg, was, cur, end, st.out, data);
    forall i | 0 <= i < n { buf[cur + i] := inp[inCur + i]; }
    assert buf[..] == was[..cur] + data + was[cur + n..];
  }

  /** In the middle of a stored block with the bit buffer empty. */
  ghost predicate Storing(e: Env, inCur: nat, r: Regs, st: St, t: St) {
    && Reached(e, st, t) && t.ctl == RawCopy(r.counter) && t.pos % 8 == 0 && t.final == (r.final % 2 == 1)
    && Shaped(r) && Synced(e, inCur, r, t.pos) && r.numBits == 0
  }

  ghost function Room(end: nat, cur: nat): nat {
    if cur < end then end - cur else 0
  }

  lemma StoringFacts(e: Env, inCur: nat, r: Regs, st: St, t: St)
    requires Storing(e, inCur, r, st, t)
    ensures Reached(e, st, t) && Sound(e, t) && WellFormed(t) && t.ctl == RawCopy(r.counter) && t.pos % 8 == 0
        && t.final == (r.final % 2 == 1)
    ensures Shaped(r) && Synced(e, inCur, r, t.pos) && r.numBits == 0 && t.pos <= |Stream(e)| && inCur <= |e.inp|
  {
    hide InSync, Reached, Sound;
    ReachedSound(e, st, t);
    SyncedFacts(e, inCur, r, t.pos);
  }

  lemma StoringFull(e: Env, inCur: nat, r: Regs, st: St, t: St)
    requires Storing(e, inCur, r, st, t) && r.counter > 0 && st.ctl.RawCopy?
    ensures Outcome(e, inCur, Full, r.(pc := P9), st, t) && SameCodes(st, t)
  {
    hide InSync, Reached, Sound;
    ReachedSound(e, st, t);
  }

  lemma StoringWaits(e: Env, inCur: nat, r: Regs, st: St, t: St)
    requires Storing(e, inCur, r, st, t) && r.counter > 0 && st.ctl.RawCopy? && inCur >= |e.inp|
    ensures Outcome(e, inCur, NeedInput, r.(pc := P38), st, t) && SameCodes(st, t)
  {
    hide InSync, Reached, Sound, Starved;
    ReachedSound(e, st, t);
    SyncedFacts(e, inCur, r, t.pos);
    RawStarved(e, t);
  }

  lemma StoringMore(e: Env, inCur: nat, r: Regs, st: St, u: St, n: nat, t: St)
    requires Storing(e, inCur, r, st, u) && n <= r.counter && Reached(e, u, t) && t.ctl == RawCopy(r.counter - n)
        && t.pos == u.pos + 8 * n
    requires t == u.(ctl := t.ctl, pos := u.pos + 8 * n, out := t.out) && Synced(e, inCur + n, r, t.pos)
    ensures Storing(e, inCur + n, r.(counter := r.counter - n), st, t)
  {
    hide InSync, Reached;
    ReachedTrans(e, st, u, t);
  }

  lemma StoredCodes(cfg: Cfg, u: St)
    requires u.ctl.RawCopy?
    ensures var t := AfterBlock(cfg, u, u.pos);
            !InBlock(t.ctl) && !InLens(t.ctl) && Rank(t) == 0 && t.pos >= u.pos && t.out == u.out
  {
  }

  lemma EndMoves(st: St, u: St, t: St)
    requires st.ctl.RawCopy? && u.pos >= st.pos && t.pos >= u.pos && !InBlock(t.ctl) && !InLens(t.ctl) && Rank(t) == 0
    ensures Progress(st, t) && SameCodes(st, t)
  {
  }

  /** Stored bytes straight from the input (states 9 and 38). */
  method RawCopyLoop(cfg: Cfg, inp: seq<byte>, buf: array<byte>, inCur0: nat, cur0: nat, end: nat, r0: Regs,
      ghost e: Env, ghost st: St)
    returns (sig: Signal, inCur: nat, cur: nat, r: Regs, ghost t: St)
    requires Ready(e, inp, inCur0, r0, st) && cfg == e.cfg && (r0.pc.P9? || r0.pc.P38? || r0.pc.P51?)
        && r0.numBits == 0 && r0.counter > 0
    requires Window.Holds(cfg, buf[..], cur0, end, st.out)
    modifies buf
    ensures Outcome(e, inCur, sig, r, st, t) && (sig == Full ==> cur == end) && SameCodes(st, t)
    ensures Window.Holds(cfg, buf[..], cur, end, t.out) && Wrote(old(buf[..]), buf[..], cur0, cur, st, t)
    ensures sig.NeedInput? ==> cur < end || (r0.pc.P38? && cur0 == end)
    ensures !sig.NeedInput? ==> !r.pc.P38?
  {
    hide ByteBits, ToBits, WellFormed, Sound, InSync, Reached, Window.Holds, Starved, Thrifty, Wrote, Matched, Live,
        Outcome, Hungry, AfterBlock, Rank, Lean,
         SameCodes, Storing;
    inCur, cur, r, t := inCur0, cur0, r0, st;
    Window.HoldsPlaced(cfg, buf[..], cur, end, t.out);
    StartStoring(e, inCur, r, st);
    WroteNone(buf[..], cur, st, t);
    var inside := r.pc.P38?;
    while r.counter > 0
      invariant Storing(e, inCur, r, st, t) && Window.Holds(cfg, buf[..], cur, end, t.out) && cur0 <= cur
      invariant Wrote(old(buf[..]), buf[..], cur0, cur, st, t)
      invariant r.counter <= r0.counter && t.pos == st.pos + 8 * (r0.counter - r.counter)
      invariant inside ==> r0.pc.P38? && cur == cur0
      decreases r.counter, inside
    {
      Window.HoldsPlaced(cfg, buf[..], cur, end, t.out);
      StoringFacts(e, inCur, r, st, t);
      if !inside && cur >= end {
        StoringFull(e, inCur, r, st, t);
        sig, r := Full, r.(pc := P9);
        return;
      }
      if inCur >= |inp| {
        StoringWaits(e, inCur, r, st, t);
        sig, r := NeedInput, r.(pc := P38);
        return;
      }
      inside := false;
      var n := Min(Min(end - cur, |inp| - inCur), r.counter);
      ghost var was, u := buf[..], t;
      t := MemCopy(cfg, inp, buf, inCur, cur, end, n, r, e, u);
      StoringMore(e, inCur, r, st, u, n, t);
      WroteTrans(old(buf[..]), was, buf[..], cur0, cur, cur + n, st, u, t);
      inCur, cur, r := inCur + n, cur + n, r.(counter := r.counter - n);
    }
    ghost var u := t;
    StoringFacts(e, inCur, r, st, u);
    StoredEnd(cfg, u);
    NoFieldReached(e, u);
    t := AfterBlock(cfg, u, u.pos);
    ReachedTrans(e, st, u, t);
    ReachedSound(e, st, t);
    EmptyLean(e, inCur, r.numBits);
    sig, inCur, r := EndBlock(cfg, inp, inCur, r, e, u, u.pos);
    StoredCodes(cfg, u);
    EndMoves(st, u, t);
    BlockEnded(e, inCur, sig, r, st, t);
    WroteSame(old(buf[..]), buf[..], cur0, cur, st, u, t);
  }

  lemma StartStoring(e: Env, inCur: nat, r: Regs, st: St)
    requires Live(e, inCur, r, st) && (r.pc.P9? || r.pc.P38? || r.pc.P51?) && r.numBits == 0
    ensures Storing(e, inCur, r, st, st) && st.ctl.RawCopy?
  {
    hide Sound, Reached, InSync;
    ReachedSelf(e, st);
    SyncedFacts(e, inCur, r, st.pos);
  }

  lemma WroteSame(a: seq<byte>, b: seq<byte>, x: nat, y: nat, st: St, t: St, u: St)
    requires Wrote(a, b, x, y, st, t) && u.out == t.out
    ensures Wrote(a, b, x, y, st, u)
  {
  }

  lemma RawStarved(e: Env, t: St)
    requires Sound(e, t) && t.ctl.RawCopy? && t.ctl.left > 0 && t.pos + 8 > |Stream(e)|
    ensures WellFormed(t) && Starved(e.cfg, Stream(e), t)
  {
    hide Stream, Clean;
    ByteField(t);
    FieldWaits(e, t, 8);
  }

  // ----- symbols -----

  /** The code lengths of the code in use. */
  ghost function LensOf(st: St): seq<nat>
    requires AtSym(st.ctl)
  {
    if st.ctl.Lens? then st.ctl.cl else if st.ctl.LitLen? then st.lit else st.dst
  }

  /** Where a symbol of n bits leads. */
  ghost function SymTo(cfg: Cfg, st: St, sym: nat, n: nat): St
    requires WellFormed(st) && AtSym(st.ctl)
  {
    match st.ctl
    case Lens(hlit, total, cl, got) => LensStep(st, hlit, total, cl, got, sym, n)
    case LitLen => LitLenStep(cfg, st, sym, n)
    case DistSym(len) => DistStep(cfg, st, len, sym, n)
    case _ => st
  }

  lemma SymReached(e: Env, st: St, sym: nat)
    requires Sound(e, st) && AtSym(st.ctl) && st.pos <= |Stream(e)|
        && NextSym(LensOf(st), Stream(e)[st.pos..]) == Found(sym)
    ensures sym < |LensOf(st)| && Reached(e, st, SymTo(e.cfg, st, sym, LensOf(st)[sym]))
  {
    hide Stream, Reached, WellFormed, Clean, NextSym, LensStep, LitLenStep, DistStep, SymBits;
    ReachedStep(e, st, SymTo(e.cfg, st, sym, LensOf(st)[sym]));
  }

  /** Whatever symbol is taken, a possible state comes after. */
  lemma SymFollows(cfg: Cfg, st: St, sym: nat, n: nat)
    requires WellFormed(st) && AtSym(st.ctl) && sym < |LensOf(st)|
    ensures Follows(st, SymTo(cfg, st, sym, n))
  {
    hide LensStep, LitLenStep, DistStep, Usable, Short, Follows;
    match st.ctl
    case Lens(hlit, total, cl, got) => LensKeeps(st, hlit, total, cl, got, sym, n);
    case LitLen => LitLenKeeps(cfg, st, sym, n);
    case DistSym(len) => DistKeeps(cfg, st, len, sym, n);
  }

  lemma NeverBad(e: Env, st: St)
    requires Sound(e, st) && e.clean && AtSym(st.ctl) && st.pos <= |Stream(e)|
    ensures !NextSym(LensOf(st), Stream(e)[st.pos..]).Bad?
  {
    hide Stream, WellFormed, Clean, NextSym;
    if NextSym(LensOf(st), Stream(e)[st.pos..]).Bad? {
      ReachedStep(e, st, st.(ctl := Invalid));
      assert false;
    }
  }

  lemma SymWaits(e: Env, st: St)
    requires WellFormed(st) && AtSym(st.ctl) && st.pos <= |Stream(e)| && NextSym(LensOf(st), Stream(e)[st.pos..]).Wait?
    ensures Starved(e.cfg, Stream(e), st)
  {
    hide Stream, WellFormed, NextSym;
  }

  /** A starved symbol waits in the buffer. */
  lemma StarvedSym(e: Env, inCur: nat, r: Regs, st: St)
    requires Live(e, inCur, r, st) && AtSym(st.ctl) && Starved(e.cfg, Read(e, r, st.pos), st)
    ensures NextSym(LensOf(st), Buf(r.numBits, r.bitBuf)).Wait?
  {
    hide WellFormed, Clean, Matched, NextSym, ByteBits, ToBits;
    SyncedFacts(e, inCur, r, st.pos);
    assert Read(e, r, st.pos)[st.pos..] == Buf(r.numBits, r.bitBuf);
  }

  lemma CodeShape(st: St)
    requires WellFormed(st) && AtSym(st.ctl)
    ensures Usable(LensOf(st)) && Short(LensOf(st)) && 0 < |LensOf(st)| <= 288
  {
    hide Usable;
  }

  /** A symbol starts with little looked ahead of; a resumed one is starved. */
  ghost predicate SymStart(e: Env, inCur: nat, r: Regs, st: St, resume: bool)
    requires Live(e, inCur, r, st)
  {
    && Thrifty(e, inCur, r, st)
    && if resume then r.numBits < 15 && (e.clean ==> Starved(e.cfg, Read(e, r, st.pos), st))
       else Lean(e, r.numBits, inCur)
  }

  /** What was decoded: a symbol, and the number of its bits. */
  ghost predicate GotSym(e: Env, st: St, sym: nat, n: nat) {
    && WellFormed(st) && AtSym(st.ctl) && sym < |LensOf(st)| && n <= 15 && (n == 0 ==> sym == 0)
    && Reached(e, st, SymTo(e.cfg, st, sym, n))
  }

  lemma SymGot(e: Env, st: St, sym: nat, n: nat)
    requires Sound(e, st) && AtSym(st.ctl) && sym < |LensOf(st)| && n <= 15 && (n == 0 ==> sym == 0)
        && st.pos <= |Stream(e)|
    requires e.clean ==> NextSym(LensOf(st), Stream(e)[st.pos..]) == Found(sym) && n == LensOf(st)[sym]
    ensures GotSym(e, st, sym, n)
  {
    hide Stream, WellFormed, Clean, NextSym, Reached, SymTo;
    if e.clean {
      SymReached(e, st, sym);
    } else {
      SymFollows(e.cfg, st, sym, n);
      Adrift(e, st, SymTo(e.cfg, st, sym, n));
    }
  }

  /** Decode the next symbol. */
  method Symbol(lookUp: array<int>, tree: array<int>, inp: seq<byte>, inCur0: nat, r0: Regs, resume: bool,
      ghost e: Env, ghost st: St)
    returns (ok: bool, sym: nat, inCur: nat, r: Regs, ghost n: nat)
    requires inp == e.inp && Live(e, inCur0, r0, st) && AtSym(st.ctl) && Tables(lookUp, tree, LensOf(st))
        && lookUp.Length == FAST_SIZE
    requires SymStart(e, inCur0, r0, st, resume)
    ensures r == r0.(numBits := r.numBits, bitBuf := r.bitBuf)
    ensures ok ==> GotSym(e, st, sym, n) && Synced(e, inCur, r, st.pos + n) && Lean(e, r.numBits, inCur)
    ensures !ok ==> Synced(e, inCur, r, st.pos) && Hungry(e, inCur, st) && r.numBits < 15
  {
    hide ByteBits, WellFormed, Clean, Matched, InSync, Starved, NextSym, Usable, Reached, Buf, SymTo, TableOk, GotSym;
    SyncedFacts(e, inCur0, r0, st.pos);
    if e.clean {
      NeverBad(e, st);
    }
    CodeShape(st);
    if resume && e.clean {
      StarvedSym(e, inCur0, r0, st);
    }
    var numBits, bitBuf;
    ok, sym, inCur, numBits, bitBuf, n := HuffDecode(lookUp, tree, inp, inCur0, r0.numBits, r0.bitBuf, resume, e.clean,
        LensOf(st), e.all, e.base, st.pos);
    r := r0.(numBits := numBits, bitBuf := bitBuf);
    if ok {
      SymGot(e, st, sym, n);
    } else {
      SyncedFacts(e, inCur, r, st.pos);
      if e.clean {
        SymWaits(e, st);
      }
    }
  }

  // ----- dynamic headers -----

  lemma SizesField(st: St)
    requires WellFormed(st) && st.ctl.Sizes?
    ensures |st.ctl.sizes| < 3 && AtField(st, SIZE_BITS[|st.ctl.sizes|]) && SIZE_BITS[|st.ctl.sizes|] <= 5
  {
  }

  lemma AtSizes(cfg: Cfg, r: Regs, st: St)
    requires Matched(cfg, r, st) && r.pc.P11? && WellFormed(st)
    ensures r.counter < 3 == |r.sizes| && st.ctl == Sizes(r.sizes[..r.counter]) && AtField(st, SIZE_BITS[r.counter])
        && SIZE_BITS[r.counter] <= 5
  {
    hide WellFormed, AtField;
    SizesField(st);
  }

  /** The record after one more table size. */
  function SizesTaken(r: Regs, c: nat): Regs
    requires r.counter < 3 == |r.sizes|
  {
    var q := r.(sizes := r.sizes[r.counter := c + MIN_SIZES[r.counter]], counter := r.counter + 1);
    if q.counter == 3 then q.(counter := 0, clSizes := Repeat(0, 19), pc := P14) else q
  }

  lemma SizesNext(cfg: Cfg, r0: Regs, r: Regs, st: St, c: nat, t: St)
    requires Matched(cfg, r0, st) && r0.pc.P11? && WellFormed(st) && t == FieldStep(cfg, st, c)
        && r == r0.(numBits := r.numBits, bitBuf := r.bitBuf)
    ensures r.counter < 3 == |r.sizes|
    ensures Matched(cfg, SizesTaken(r, c), t) && t.pos == st.pos + SIZE_BITS[r0.counter] > st.pos && t.out == st.out
        && SameCodes(st, t)
    ensures !Halted(t.ctl) && !t.ctl.RawCopy?
    ensures var q := SizesTaken(r, c); q.numBits == r.numBits && q.bitBuf == r.bitBuf && !q.pc.P38?
  {
    hide FieldStep, WellFormed;
    FieldIs(cfg, st, c);
    var s := r0.sizes[..r0.counter] + [c + MIN_SIZES[r0.counter]];
    SnocPrefix(r0.sizes, r0.counter, c + MIN_SIZES[r0.counter]);
    if r0.counter == 2 {
      assert SizesTaken(r, c).sizes == s;
      assert t.ctl == ClLens(s, Repeat(0, 19), 0);
    } else {
      assert t.ctl == Sizes(s);
    }
  }

  /** The three table sizes. */
  method ReadSizes(inp: seq<byte>, inCur0: nat, r0: Regs, ghost e: Env, ghost st: St)
    returns (sig: Signal, inCur: nat, r: Regs, ghost t: St)
    requires Ready(e, inp, inCur0, r0, st) && r0.pc.P11?
    ensures Outcome(e, inCur, sig, r, st, t) && SameCodes(st, t) && t.out == st.out && sig != Full
    ensures OffStore(sig, r, t)
  {
    hide Matched, Outcome, Live, FieldStep, WellFormed, Clean, InSync, Reached, Hungry, Thrifty, AtField, SameCodes,
        Sound, Lean, SizesTaken;
    var ok, c;
    r, t := r0, st;
    ReadyLive(e, inp, inCur0, r, st);
    AtSizes(e.cfg, r, st);
    ok, c, inCur, r := Field(inp, inCur0, r, SIZE_BITS[r.counter], e, st);
    if !ok {
      Await(e, inCur0, inCur, r0, r, st);
      SameSelf(st);
      sig := NeedInput;
      return;
    }
    t := FieldStep(e.cfg, st, c);
    SizesNext(e.cfg, r0, r, st, c, t);
    sig, r := Go, SizesTaken(r, c);
    Arrive(e, inCur, sig, r, st, t);
  }

  lemma ClField(st: St)
    requires WellFormed(st) && st.ctl.ClLens?
    ensures AtField(st, 3) && st.ctl.n < 19
  {
  }

  lemma ClSmall(st: St, v: nat)
    requires WellFormed(st) && st.ctl.ClLens? && v < Pow2(3)
    ensures st.ctl.n < 19 && SWIZZLE[st.ctl.n] < 19 && Short(st.ctl.cl[SWIZZLE[st.ctl.n] := v])
  {
    Runs.PowThree();
    SwizzleTable(st.ctl.n);
  }

  lemma AtClLens(cfg: Cfg, r: Regs, st: St)
    requires Matched(cfg, r, st) && r.pc.P14?
    ensures !InBlock(st.ctl) && !InLens(st.ctl) && !st.ctl.RawCopy?
  {
  }

  lemma BuiltTables(lookUp: array<int>, tree: array<int>, lens: seq<nat>)
    requires TableOk(lookUp[..], tree[..], lens) && Short(lens) && Usable(lens)
    ensures Tables(lookUp, tree, lens)
  {
  }

  lemma AtClSizes(cfg: Cfg, r: Regs, st: St)
    requires Matched(cfg, r, st) && r.pc.P14? && WellFormed(st)
    ensures |r.clSizes| == 19 && |r.sizes| == 3 && r.counter < 19 && SWIZZLE[r.counter] < 19 && AtField(st, 3)
  {
    ClField(st);
    SwizzleTable(r.counter);
  }

  lemma ClShort(cfg: Cfg, r: Regs, st: St, v: nat)
    requires Matched(cfg, r, st) && r.pc.P14? && WellFormed(st) && v < Pow2(3)
    ensures |r.clSizes| == 19 && r.counter < 19 && SWIZZLE[r.counter] < 19 && Short(r.clSizes[SWIZZLE[r.counter] := v])
  {
    hide WellFormed, Short, Pow2;
    ClSmall(st, v);
  }

  lemma ClNext(cfg: Cfg, r0: Regs, r1: Regs, r: Regs, st: St, c: nat, t: St, ok: bool)
    requires Matched(cfg, r0, st) && r0.pc.P14? && WellFormed(st) && t == FieldStep(cfg, st, c)
        && r1 == r0.(numBits := r1.numBits, bitBuf := r1.bitBuf)
    requires |r1.clSizes| == 19 && |r1.sizes| == 3 && r1.counter < 19 && SWIZZLE[r1.counter] < 19
    requires var q := r1.(clSizes := r1.clSizes[SWIZZLE[r1.counter] := c], counter := r1.counter + 1);
             && (q.counter >= q.sizes[2] ==> (ok <==> Usable(q.clSizes)))
             && r == if q.counter < q.sizes[2] then q
                     else if ok then q.(sizes := q.sizes[2 := 19], counter := 0, pc := P16)
                     else q.(sizes := q.sizes[2 := 19], pc := PFail(35))
    ensures Matched(cfg, r, t) && t.pos == st.pos + 3 && t.out == st.out && !InBlock(t.ctl) && !t.ctl.RawCopy?
        && (Halted(t.ctl) <==> r.pc.PFail?)
    ensures InLens(t.ctl) ==> r.pc.P16? && t.ctl.cl == r.clSizes
  {
    hide FieldStep, WellFormed, Usable;
    FieldIs(cfg, st, c);
    assert r.lenCodes[..0] == [];
  }

  /** One of the code lengths of the code-length code; after the last, its tables. */
  method ReadClSize(lookUp2: array<int>, tree2: array<int>, inp: seq<byte>, inCur0: nat, r0: Regs, ghost e: Env,
      ghost st: St)
    returns (sig: Signal, inCur: nat, r: Regs, ghost t: St)
    requires Ready(e, inp, inCur0, r0, st) && r0.pc.P14?
    requires lookUp2 != tree2 && lookUp2.Length == FAST_SIZE && tree2.Length == 38
    modifies lookUp2, tree2
    ensures Outcome(e, inCur, sig, r, st, t) && t.out == st.out && sig != Full
    ensures !InBlock(t.ctl) && (InLens(t.ctl) ==> Tables(lookUp2, tree2, t.ctl.cl))
    ensures OffStore(sig, r, t)
  {
    hide Matched, Outcome, Live, FieldStep, WellFormed, Clean, InSync, Reached, Hungry, Thrifty, AtField, SameCodes,
        Sound, Lean, Usable, TableOk, Tables, Pow2, InLens;
    var ok, c;
    r, t := r0, st;
    ReadyLive(e, inp, inCur0, r, st);
    AtClSizes(e.cfg, r, st);
    ok, c, inCur, r := Field(inp, inCur0, r, 3, e, st);
    if !ok {
      Await(e, inCur0, inCur, r0, r, st);
      AtClLens(e.cfg, r0, st);
      sig := NeedInput;
      return;
    }
    ghost var r1 := r;
    t := FieldStep(e.cfg, st, c);
    ClShort(e.cfg, r0, st, c);
    r := r.(clSizes := r.clSizes[SWIZZLE[r.counter] := c], counter := r.counter + 1);
    sig := Go;
    if r.counter >= r.sizes[2] {
      r := r.(sizes := r.sizes[2 := 19]);
      ok := BuildTables(lookUp2, tree2, r.clSizes);
      if ok {
        r := r.(counter := 0, pc := P16);
        BuiltTables(lookUp2, tree2, r.clSizes);
      } else {
        sig, r := Over, r.(pc := PFail(35));
      }
    }
    ClNext(e.cfg, r0, r1, r, st, c, t, ok);
    Arrive(e, inCur, sig, r, st, t);
  }

  /** The six tables of the decompressor. */
  datatype TableSet = TableSet(lookUp0: array<int>, tree0: array<int>, lookUp1: array<int>, tree1: array<int>,
      lookUp2: array<int>, tree2: array<int>)

  /** Their sizes, and that they are distinct. */
  ghost predicate Laid(ts: TableSet) {
    && ts.lookUp0.Length == FAST_SIZE && ts.lookUp1.Length == FAST_SIZE && ts.lookUp2.Length == FAST_SIZE
    && ts.tree0.Length == 576 && ts.tree1.Length == 64 && ts.tree2.Length == 38
    && ts.lookUp0 != ts.lookUp1 && ts.lookUp0 != ts.lookUp2 && ts.lookUp1 != ts.lookUp2
    && ts.tree0 != ts.tree1 && ts.tree0 != ts.tree2 && ts.tree1 != ts.tree2
    && ts.lookUp0 != ts.tree0 && ts.lookUp0 != ts.tree1 && ts.lookUp0 != ts.tree2
    && ts.lookUp1 != ts.tree0 && ts.lookUp1 != ts.tree1 && ts.lookUp1 != ts.tree2
    && ts.lookUp2 != ts.tree0 && ts.lookUp2 != ts.tree1 && ts.lookUp2 != ts.tree2
  }

  /** The tables that a state needs have been built. */
  ghost predicate Built(ts: TableSet, st: St)
    reads ts.lookUp0, ts.tree0, ts.lookUp1, ts.tree1, ts.lookUp2, ts.tree2
  {
    && (InBlock(st.ctl) ==> Tables(ts.lookUp0, ts.tree0, st.lit) && Tables(ts.lookUp1, ts.tree1, st.dst))
    && (InLens(st.ctl) ==> Tables(ts.lookUp2, ts.tree2, st.ctl.cl))
  }

  /** Tables for the distance code and then for the literal code. */
  method BuildBoth(ts: TableSet, lit: seq<nat>, dst: seq<nat>) returns (ok: bool)
    requires Laid(ts) && Short(lit) && Short(dst) && |lit| <= 288 && |dst| <= 32
    modifies ts.lookUp0, ts.tree0, ts.lookUp1, ts.tree1
    ensures ok <==> Usable(dst) && Usable(lit)
    ensures ok ==> Tables(ts.lookUp0, ts.tree0, lit) && Tables(ts.lookUp1, ts.tree1, dst)
  {
    hide Usable, TableOk;
    ok := BuildTables(ts.lookUp1, ts.tree1, dst);
    if ok {
      ok := BuildTables(ts.lookUp0, ts.tree0, lit);
    }
  }

  /** The code lengths read so far. */
  ghost function Got(r: Regs): seq<nat>
    requires r.counter <= |r.lenCodes|
  {
    r.lenCodes[..r.counter]
  }

  ghost predicate LensShape(r: Regs) {
    && Shaped(r) && 257 <= r.sizes[0] <= 288 && 1 <= r.sizes[1] <= 32 && r.counter <= LEN_CODES
    && forall i :: 0 <= i < r.counter ==> r.lenCodes[i] < 16
  }

  /** After a code length or a run of them: more lengths, or the tables of both codes. */
  method FinishLens(ts: TableSet, r0: Regs, ghost st: St) returns (sig: Signal, r: Regs)
    requires Laid(ts) && LensShape(r0)
    modifies ts.lookUp0, ts.tree0, ts.lookUp1, ts.tree1
    ensures var t := LensDone(st, r0.sizes[0], r0.sizes[0] + r0.sizes[1], r0.clSizes, Got(r0));
            && r == r0.(pc := r.pc)
            && match sig {
               case Go => (r.pc.P16? && r0.counter < r0.sizes[0] + r0.sizes[1])
                   || (r.pc.P23? && t.ctl.LitLen? && Built(ts, t))
               case Over => r.pc.PFail? && t.ctl == Failed(r.pc.code)
               case _ => false
               }
    ensures !sig.NeedInput? ==> !r.pc.P38?
  {
    hide Usable, TableOk;
    r := r0;
    var total := r.sizes[0] + r.sizes[1];
    if r.counter < total {
      sig, r := Go, r.(pc := P16);
    } else if r.counter != total {
      sig, r := Over, r.(pc := PFail(21));
    } else {
      var lit, dst := r.lenCodes[..r.sizes[0]], r.lenCodes[r.sizes[0]..total];
      assert lit == Got(r)[..r.sizes[0]] && dst == Got(r)[r.sizes[0]..];
      var ok := BuildBoth(ts, lit, dst);
      if ok {
        sig, r := Go, r.(pc := P23);
      } else {
        sig, r := Over, r.(pc := PFail(35));
      }
    }
  }

  lemma LensFacts(r: Regs, st: St)
    requires WellFormed(st) && |r.rawHeader| == 4 && |r.sizes| == 3 && |r.clSizes| == 19 && |r.lenCodes| == LEN_CODES
        && r.zAdler == 1
    requires r.counter <= LEN_CODES && st.ctl.Lens?
        && st.ctl == Lens(r.sizes[0], r.sizes[0] + r.sizes[1], r.clSizes, r.lenCodes[..r.counter])
    ensures LensShape(r) && r.counter < r.sizes[0] + r.sizes[1]
  {
    hide Usable;
    assert forall i :: 0 <= i < r.counter ==> r.lenCodes[i] == st.ctl.got[i];
  }

  /** The decoded state, as the saved fields see it. */
  lemma LensMatched(cfg: Cfg, r0: Regs, sig: Signal, r: Regs, st: St, t: St)
    requires LensShape(r0) && r0.clSizes == r.clSizes && r == r0.(pc := r.pc) && st.final == (r.final % 2 == 1)
    requires t == LensDone(st, r0.sizes[0], r0.sizes[0] + r0.sizes[1], r0.clSizes, Got(r0))
    requires match sig {
               case Go => (r.pc.P16? && r0.counter < r0.sizes[0] + r0.sizes[1]) || (r.pc.P23? && t.ctl.LitLen?)
               case Over => r.pc.PFail? && t.ctl == Failed(r.pc.code)
               case _ => false
               }
    ensures Matched(cfg, r, t) && (Halted(t.ctl) <==> sig == Over) && t.pos == st.pos && t.out == st.out
    ensures t.ctl.Lens? || t.ctl.LitLen? || t.ctl.Failed?
    ensures (t.ctl.Lens? ==> t.ctl.cl == r.clSizes) && (t.ctl.LitLen? ==> r.pc.P23?)
  {
    hide Usable;
  }

  /** A code length is progress even if its symbol has no bits. */
  lemma LensRank(cfg: Cfg, st: St, sym: nat, n: nat)
    requires WellFormed(st) && st.ctl.Lens? && (n == 0 ==> sym == 0)
    ensures Progress(st, SymTo(cfg, st, sym, n))
  {
    hide Usable;
  }

  lemma LiveParts(e: Env, inCur: nat, r: Regs, st: St)
    requires Live(e, inCur, r, st)
    ensures Sound(e, st) && WellFormed(st) && Matched(e.cfg, r, st) && Synced(e, inCur, r, st.pos)
  {
    hide Matched, InSync, Clean, WellFormed;
  }

  lemma SameShape(r0: Regs, r: Regs)
    requires LensShape(r0) && r == r0.(numBits := r.numBits, bitBuf := r.bitBuf)
    ensures LensShape(r)
  {
  }

  lemma LensTables(ts: TableSet, st: St)
    requires Built(ts, st) && st.ctl.Lens?
    ensures Tables(ts.lookUp2, ts.tree2, LensOf(st)) && Tables(ts.lookUp2, ts.tree2, st.ctl.cl)
  {
    hide Tables;
  }

  lemma NotStored(sig: Signal, r: Regs, t: St)
    requires !r.pc.P38? && !t.ctl.RawCopy?
    ensures OffStore(sig, r, t)
  {
  }

  lemma LensBuilt(ts: TableSet, st: St, sig: Signal, r: Regs, t: St)
    requires st.ctl.Lens? && Tables(ts.lookUp2, ts.tree2, st.ctl.cl) && (t.ctl.Lens? || t.ctl.LitLen? || t.ctl.Failed?)
    requires (t.ctl.Lens? ==> t.ctl.cl == st.ctl.cl) && (t.ctl.LitLen? ==> Built(ts, t))
    ensures Built(ts, t)
  {
    hide Tables;
  }

  lemma AtLens(cfg: Cfg, r: Regs, st: St)
    requires Matched(cfg, r, st) && r.pc.P16? && WellFormed(st)
    ensures st.ctl.Lens? && LensShape(r) && r.counter < r.sizes[0] + r.sizes[1] <= 320 < |r.lenCodes|
        && st.final == (r.final % 2 == 1)
    ensures st.ctl == Lens(r.sizes[0], r.sizes[0] + r.sizes[1], r.clSizes, r.lenCodes[..r.counter])
  {
    hide WellFormed, LensShape;
    LensFacts(r, st);
    LensRange(r);
  }

  lemma LensRange(r: Regs)
    requires LensShape(r)
    ensures r.sizes[0] + r.sizes[1] <= 320 < |r.lenCodes|
  {
  }

  lemma GotLens(e: Env, st: St, sym: nat, n: nat)
    requires GotSym(e, st, sym, n) && st.ctl.Lens?
    ensures sym < 19 && var t := SymTo(e.cfg, st, sym, n); Reached(e, st, t) && Sound(e, t) && Progress(st, t)
    ensures SymTo(e.cfg, st, sym, n) == LensStep(st, st.ctl.hlit, st.ctl.total, st.ctl.cl, st.ctl.got, sym, n)
  {
    hide Reached, LensStep, Sound, SymTo, Progress;
    ReachedSound(e, st, SymTo(e.cfg, st, sym, n));
    LensRank(e.cfg, st, sym, n);
    LensSyms(st);
    assert SymTo(e.cfg, st, sym, n) == LensStep(st, st.ctl.hlit, st.ctl.total, st.ctl.cl, st.ctl.got, sym,
        n) by { LensTo(e.cfg, st, sym, n); }
  }

  lemma LensTo(cfg: Cfg, st: St, sym: nat, n: nat)
    requires WellFormed(st) && st.ctl.Lens?
    ensures SymTo(cfg, st, sym, n) == LensStep(st, st.ctl.hlit, st.ctl.total, st.ctl.cl, st.ctl.got, sym, n)
  {
    hide WellFormed, LensStep;
  }

  lemma LensSyms(st: St)
    requires WellFormed(st) && st.ctl.Lens?
    ensures |LensOf(st)| == 19 && st.ctl.hlit <= st.ctl.total
  {
    hide Usable, Short;
  }

  /** A symbol that starts a run, or has nothing to repeat. */
  lemma RunMatched(cfg: Cfg, r: Regs, st: St, sym: nat, n: nat, q: Regs)
    requires LensShape(r) && 16 <= sym < 19 && st.final == (r.final % 2 == 1)
    requires st.ctl == Lens(r.sizes[0], r.sizes[0] + r.sizes[1], r.clSizes, r.lenCodes[..r.counter])
    requires q == if sym == 16 && r.counter == 0 then r.(dist := sym, pc := PFail(17))
        else r.(dist := sym, numExtra := [2, 3, 7][sym - 16], pc := P18)
    ensures var t := LensStep(st, st.ctl.hlit, st.ctl.total, st.ctl.cl, st.ctl.got, sym, n);
            && Matched(cfg, q, t) && t.pos == st.pos + n && t.out == st.out && (Halted(t.ctl) <==> q.pc.PFail?)
               && !InBlock(t.ctl) && !t.ctl.RawCopy?
            && (InLens(t.ctl) ==> t.ctl.cl == st.ctl.cl)
  {
    hide LensDone;
  }

  lemma LengthTaken(st: St, hlit: nat, total: nat, cl: seq<nat>, got: seq<nat>, sym: nat, n: nat)
    requires hlit <= total && sym < 16
    ensures LensStep(st, hlit, total, cl, got, sym, n) == LensDone(st.(pos := st.pos + n), hlit, total, cl, got + [sym])
  {
    hide LensDone;
  }

  lemma LensShaped(r: Regs, sym: nat)
    requires LensShape(r) && r.counter < 320 && sym < 16
    ensures LensShape(r.(lenCodes := r.lenCodes[r.counter := sym], counter := r.counter + 1))
  {
  }

  /** A state with the same code-length code, or whose tables were just built. */
  lemma StillBuilt(ts: TableSet, st: St, t: St)
    requires st.ctl.Lens? && Tables(ts.lookUp2, ts.tree2, st.ctl.cl) && !InBlock(t.ctl)
        && (InLens(t.ctl) ==> t.ctl.cl == st.ctl.cl)
    ensures Built(ts, t)
  {
    hide Tables;
  }

  /** One symbol of the packed code lengths. */
  method ReadLens(ts: TableSet, inp: seq<byte>, inCur0: nat, r0: Regs, resume: bool, ghost e: Env, ghost st: St)
    returns (sig: Signal, inCur: nat, r: Regs, ghost t: St)
    requires inp == e.inp && Live(e, inCur0, r0, st) && r0.pc.P16? && Laid(ts) && Built(ts, st)
    requires SymStart(e, inCur0, r0, st, resume)
    modifies ts.lookUp0, ts.tree0, ts.lookUp1, ts.tree1
    ensures Outcome(e, inCur, sig, r, st, t) && t.out == st.out && sig != Full && Built(ts, t)
    ensures OffStore(sig, r, t)
  {
    hide Matched, Outcome, Live, FieldStep, WellFormed, Clean, InSync, Reached, Hungry, Thrifty, AtField, SameCodes,
        Sound, Lean, ByteBits, Tables, LensDone, LensStep, ToBits, Starved, Usable, TableOk, SymTo, LensShape, Rank,
            Progress, GotSym, InBlock, InLens, OffStore;
    var ok, sym;
    ghost var n;
    r, t := r0, st;
    LiveParts(e, inCur0, r, st);
    AtLens(e.cfg, r, st);
    LensTables(ts, st);
    ok, sym, inCur, r, n := Symbol(ts.lookUp2, ts.tree2, inp, inCur0, r, resume, e, st);
    if !ok {
      Await(e, inCur0, inCur, r0, r, st);
      NotStored(NeedInput, r, st);
      sig := NeedInput;
      return;
    }
    GotLens(e, st, sym, n);
    t := SymTo(e.cfg, st, sym, n);
    ghost var r1 := r;
    SameShape(r0, r);
    if sym < 16 {
      SnocPrefix(r.lenCodes, r.counter, sym);
      LensShaped(r, sym);
      LengthTaken(st, st.ctl.hlit, st.ctl.total, st.ctl.cl, st.ctl.got, sym, n);
      r := r.(lenCodes := r.lenCodes[r.counter := sym], counter := r.counter + 1);
      r1 := r;
      sig, r := FinishLens(ts, r, st.(pos := st.pos + n));
      LensMatched(e.cfg, r1, sig, r, st.(pos := st.pos + n), t);
      LensBuilt(ts, st, sig, r, t);
    } else if sym == 16 && r.counter == 0 {
      sig, r := Over, r.(dist := sym, pc := PFail(17));
      RunMatched(e.cfg, r1, st, sym, n, r);
      StillBuilt(ts, st, t);
    } else {
      sig, r := Go, r.(dist := sym, numExtra := [2, 3, 7][sym - 16], pc := P18);
      RunMatched(e.cfg, r1, st, sym, n, r);
      StillBuilt(ts, st, t);
    }
    NotStored(sig, r, t);
    Arrive(e, inCur, sig, r, st, t);
  }

  lemma RepeatField(st: St, v: nat)
    requires WellFormed(st) && st.ctl.LensExtra?
    ensures AtField(st, PackExtra(st.ctl.sym)) && PackExtra(st.ctl.sym) <= 7
    ensures v < Pow2(PackExtra(st.ctl.sym)) ==> PackBase(st.ctl.sym) + v <= 138
  {
    hide Usable;
    assert Pow2(2) == 4 && Pow2(3) == 8 && Pow2(7) == 128;
  }

  lemma ExtraFacts(r: Regs, st: St)
    requires WellFormed(st) && Shaped(r) && r.counter <= LEN_CODES
    requires st.ctl == LensExtra(r.sizes[0], r.sizes[0] + r.sizes[1], r.clSizes, r.lenCodes[..r.counter], r.dist)
    ensures LensShape(r) && r.counter <= 319 && 16 <= r.dist < 19 && (r.dist == 16 ==> r.counter > 0)
  {
    hide Usable;
    assert forall i :: 0 <= i < r.counter ==> r.lenCodes[i] == st.ctl.got[i];
  }

  lemma RunBuilt(ts: TableSet, st: St, t: St)
    requires st.ctl.LensExtra? && Tables(ts.lookUp2, ts.tree2, st.ctl.cl)
        && (t.ctl.Lens? || t.ctl.LitLen? || t.ctl.Failed?)
    requires (t.ctl.Lens? ==> t.ctl.cl == st.ctl.cl) && (t.ctl.LitLen? ==> Built(ts, t))
    ensures Built(ts, t)
  {
    hide Tables;
  }

  lemma Forward(st: St, t: St)
    requires t.pos > st.pos
    ensures Progress(st, t)
  {
    hide Rank;
  }

  lemma AtRun(cfg: Cfg, r: Regs, st: St)
    requires Matched(cfg, r, st) && r.pc.P18? && WellFormed(st)
    ensures st.ctl == LensExtra(r.sizes[0], r.sizes[0] + r.sizes[1], r.clSizes, r.lenCodes[..r.counter], r.dist)
    ensures LensShape(r) && r.counter <= 319 && 16 <= r.dist < 19 && (r.dist == 16 ==> r.counter > 0)
        && st.final == (r.final % 2 == 1)
    ensures |r.lenCodes| == LEN_CODES && |r.sizes| == 3 && r.numExtra == PackExtra(r.dist) <= 7
        && AtField(st, r.numExtra)
  {
    hide WellFormed, LensShape, AtField;
    ExtraFacts(r, st);
    RepeatField(st, 0);
  }

  lemma RunTaken(cfg: Cfg, r: Regs, st: St, s: nat, run: seq<nat>)
    requires WellFormed(st) && LensShape(r) && r.counter <= 319 && 16 <= r.dist < 19 && (r.dist == 16 ==> r.counter > 0)
    requires st.ctl == LensExtra(r.sizes[0], r.sizes[0] + r.sizes[1], r.clSizes, r.lenCodes[..r.counter], r.dist)
        && s < Pow2(PackExtra(r.dist))
    requires run == Repeat(if r.dist == 16 then r.lenCodes[r.counter - 1] else 0, s + [3, 3, 11][r.dist - 16])
    ensures |run| <= 138
    ensures var q := r.(lenCodes := r.lenCodes[..r.counter] + run + r.lenCodes[r.counter + |run|..],
        counter := r.counter + |run|);
            LensShape(q) && FieldStep(cfg, st, s) == LensDone(st.(pos := st.pos + PackExtra(r.dist)), r.sizes[0],
                r.sizes[0] + r.sizes[1], r.clSizes, Got(q))
  {
    hide LensDone, Pow2, WellFormed;
    RepeatField(st, s);
    RunStep(cfg, st, s);
    var q := r.(lenCodes := r.lenCodes[..r.counter] + run + r.lenCodes[r.counter + |run|..],
        counter := r.counter + |run|);
    assert Got(q) == Got(r) + run;
  }

  lemma RunStep(cfg: Cfg, st: St, s: nat)
    requires WellFormed(st) && st.ctl.LensExtra?
    ensures st.ctl.hlit <= st.ctl.total && (st.ctl.sym == 16 ==> st.ctl.got != [])
    ensures FieldStep(cfg, st, s)
         == LensDone(st.(pos := st.pos + PackExtra(st.ctl.sym)), st.ctl.hlit, st.ctl.total, st.ctl.cl,
             Unpack(Pack(st.ctl.sym, s), st.ctl.got))
  {
    hide LensDone, Unpack, Usable, Short;
  }

  lemma RunTables(ts: TableSet, st: St)
    requires Built(ts, st) && st.ctl.LensExtra?
    ensures Tables(ts.lookUp2, ts.tree2, st.ctl.cl) && !InBlock(st.ctl)
  {
    hide Tables;
  }

  /** A run of code lengths, never past the 457th entry. */
  method ReadRepeat(ts: TableSet, inp: seq<byte>, inCur0: nat, r0: Regs, ghost e: Env, ghost st: St)
    returns (sig: Signal, inCur: nat, r: Regs, ghost t: St)
    requires Ready(e, inp, inCur0, r0, st) && r0.pc.P18? && Laid(ts) && Built(ts, st)
    modifies ts.lookUp0, ts.tree0, ts.lookUp1, ts.tree1
    ensures Outcome(e, inCur, sig, r, st, t) && t.out == st.out && sig != Full && Built(ts, t)
    ensures OffStore(sig, r, t)
  {
    hide Matched, Outcome, Live, FieldStep, WellFormed, Clean, InSync, Reached, Hungry, Thrifty, AtField, SameCodes,
        Sound, Lean, ByteBits, Tables, LensDone, ToBits, Starved, Usable, TableOk, Pow2, LensShape, Rank, Progress,
            InBlock, InLens, OffStore, Got;
    var ok, s;
    r, t := r0, st;
    ReadyLive(e, inp, inCur0, r, st);
    AtRun(e.cfg, r, st);
    RunTables(ts, st);
    ok, s, inCur, r := Field(inp, inCur0, r, r.numExtra, e, st);
    if !ok {
      Await(e, inCur0, inCur, r0, r, st);
      NotStored(NeedInput, r, st);
      sig := NeedInput;
      return;
    }
    t := FieldStep(e.cfg, st, s);
    SameShape(r0, r);
    var run := Repeat(if r.dist == 16 then r.lenCodes[r.counter - 1] else 0, s + [3, 3, 11][r.dist - 16]);
    RunTaken(e.cfg, r, st, s, run);
    r := r.(lenCodes := r.lenCodes[..r.counter] + run + r.lenCodes[r.counter + |run|..], counter := r.counter + |run|);
    ghost var r1 := r;
    sig, r := FinishLens(ts, r, st.(pos := st.pos + PackExtra(r.dist)));
    LensMatched(e.cfg, r1, sig, r, st.(pos := st.pos + PackExtra(r1.dist)), t);
    RunBuilt(ts, st, t);
    Forward(st, t);
    NotStored(sig, r, t);
    Arrive(e, inCur, sig, r, st, t);
  }

  // ----- block heads -----

  /** The fixed code lengths, written as the source's four loops write them. */
  method FixedSizes() returns (lit: seq<nat>, dst: seq<nat>)
    ensures lit == FixedLit() && dst == FixedDist()
  {
    dst := Repeat(5, 32);
    lit := Repeat(8, 144) + Repeat(9, 112) + Repeat(7, 24) + Repeat(8, 8);
  }

  lemma HeadField(st: St)
    requires WellFormed(st) && st.ctl.Head?
    ensures AtField(st, 3)
  {
  }

  lemma LeanLess(e: Env, inCur: nat, numBits: nat, fewer: nat)
    requires Lean(e, numBits, inCur) && fewer <= numBits
    ensures Lean(e, fewer, inCur)
  {
  }

  lemma HeadBuilt(ts: TableSet, t: St)
    requires !InLens(t.ctl)
    requires (InBlock(t.ctl) ==> Tables(ts.lookUp0, ts.tree0, t.lit) && Tables(ts.lookUp1, ts.tree1, t.dst))
    ensures Built(ts, t)
  {
    hide Tables;
  }

  lemma AtHead(cfg: Cfg, r: Regs, st: St)
    requires Matched(cfg, r, st) && r.pc.P3? && WellFormed(st)
    ensures st.ctl == Head && AtField(st, 3) && Shaped(r)
  {
    HeadField(st);
  }

  /** The four kinds of block. */
  lemma HeadNext(cfg: Cfg, r: Regs, st: St, v: nat, q: Regs)
    requires Shaped(r) && st.ctl == Head && q.final == v && v / 2 <= 3
    requires q == r.(final := v, numBits := q.numBits, bitBuf := q.bitBuf, counter := q.counter,
                     pc := if v / 2 == 0 then P7 else if v / 2 == 1 then P23 else if v / 2 == 2 then P11 else PFail(10))
    requires v / 2 == 0 || v / 2 == 2 ==> q.counter == 0
    ensures var t := HeadStep(st, v);
            && Matched(cfg, q, t) && t.out == st.out && t.pos == (if v / 2 == 0 then Align(st.pos + 3) else st.pos + 3)
            && (Halted(t.ctl) <==> v / 2 == 3) && !InLens(t.ctl) && !t.ctl.RawCopy?
            && (InBlock(t.ctl) ==> v / 2 == 1 && t.lit == FixedLit() && t.dst == FixedDist())
  {
    hide FixedLit, FixedDist;
    assert r.rawHeader[..0] == [] && r.sizes[..0] == [];
    assert Align(st.pos + 3) % 8 == 0;
  }

  /** The three bits at the head of a block. */
  method ReadHead(ts: TableSet, inp: seq<byte>, inCur0: nat, r0: Regs, ghost e: Env, ghost st: St)
    returns (sig: Signal, inCur: nat, r: Regs, ghost t: St)
    requires Ready(e, inp, inCur0, r0, st) && r0.pc.P3? && Laid(ts) && Built(ts, st)
    modifies ts.lookUp0, ts.tree0, ts.lookUp1, ts.tree1
    ensures Outcome(e, inCur, sig, r, st, t) && t.out == st.out && sig != Full && Built(ts, t)
    ensures OffStore(sig, r, t)
  {
    hide Matched, Outcome, Live, FieldStep, WellFormed, Clean, InSync, Reached, Hungry, Thrifty, AtField, SameCodes,
        Sound, Lean, ByteBits, Tables, HeadStep, ToBits, Starved, Usable, TableOk, InBlock, InLens, OffStore, Align,
            Built, FixedLit, FixedDist, Rank, Progress;
    var ok, v;
    r, t := r0, st;
    ReadyLive(e, inp, inCur0, r, st);
    AtHead(e.cfg, r, st);
    ok, v, inCur, r := Field(inp, inCur0, r, 3, e, st);
    if !ok {
      Await(e, inCur0, inCur, r0, r, st);
      NotStored(NeedInput, r, st);
      sig := NeedInput;
      return;
    }
    t := FieldStep(e.cfg, st, v);
    FieldIs(e.cfg, st, v);
    HeadSmall(v);
    ghost var r1 := r;
    r := r.(final := v);
    var kind := v / 2;
    if kind == 0 {
      SkipBits(e, inCur, r, st.pos + 3);
      SyncedFacts(e, inCur, r, st.pos + 3);
      LeanLess(e, inCur, r.numBits, r.numBits - r.numBits % 8);
      r := r.(numBits := r.numBits - r.numBits % 8, bitBuf := Shr(r.bitBuf, r.numBits % 8), counter := 0, pc := P7);
      sig := Go;
    } else if kind == 3 {
      sig, r := Over, r.(pc := PFail(10));
    } else if kind == 1 {
      FixedUsable();
      var lit, dst := FixedSizes();
      ok := BuildBoth(ts, lit, dst);
      sig, r := Go, r.(pc := P23);
    } else {
      sig, r := Go, r.(counter := 0, pc := P11);
    }
    HeadNext(e.cfg, r1, st, v, r);
    Forward(st, t);
    HeadBuilt(ts, t);
    NotStored(sig, r, t);
    Arrive(e, inCur, sig, r, st, t);
  }

  lemma HeadSmall(v: nat)
    ensures v < Pow2(3) ==> v / 2 <= 3
  {
    Runs.PowThree();
  }

  // ----- matches -----

  /** A match after n of its bytes. */
  ghost function Copied(st: St, n: nat): St
    requires st.ctl.CopyMatch? && n <= st.ctl.len && 0 < st.ctl.dist <= |st.out|
  {
    st.(ctl := if n == st.ctl.len then LitLen else CopyMatch(st.ctl.len - n, st.ctl.dist),
        out := CopyBytes(st.out, st.ctl.dist, n))
  }

  lemma CopiedNext(st: St, n: nat)
    requires st.ctl.CopyMatch? && 0 < n <= st.ctl.len && 0 < st.ctl.dist <= |st.out|
    ensures var u := CopyStep(st, st.ctl.len, st.ctl.dist);
            if n == 1 then Copied(st, n) == u
            else
              u.ctl.CopyMatch? && n - 1 <= u.ctl.len && 0 < u.ctl.dist <= |u.out| && Copied(u, n - 1) == Copied(st, n)
  {
    var u := CopyStep(st, st.ctl.len, st.ctl.dist);
    Window.CopyNone(u.out, st.ctl.dist);
  }

  lemma {:induction false} CopyPart(e: Env, st: St, n: nat)
    requires Sound(e, st) && st.ctl.CopyMatch? && n <= st.ctl.len && st.pos <= |Stream(e)|
        && 0 < st.ctl.dist <= |st.out|
    ensures Reached(e, st, Copied(st, n))
    decreases n
  {
    hide Sound, Reached, Stream, Copied, CopyStep;
    CopyLenPositive(e, st);
    if n == 0 {
      CopyOf(e, st);
    } else {
      var u := CopyStep(st, st.ctl.len, st.ctl.dist);
      CopyStepReached(e, st);
      ReachedSound(e, st, u);
      CopiedNext(st, n);
      if n > 1 {
        CopyStays(st);
        CopyPart(e, u, n - 1);
        ReachedTrans(e, st, u, Copied(st, n));
      }
    }
  }

  lemma CopyStays(st: St)
    requires st.ctl.CopyMatch? && 0 < st.ctl.len && 0 < st.ctl.dist <= |st.out|
    ensures CopyStep(st, st.ctl.len, st.ctl.dist).pos == st.pos
  {
  }

  lemma CopyOf(e: Env, st: St)
    requires Sound(e, st) && st.ctl.CopyMatch? && 0 < st.ctl.len && 0 < st.ctl.dist <= |st.out|
    ensures Reached(e, st, Copied(st, 0))
  {
    hide Sound, Reached;
    assert Copied(st, 0) == st;
    ReachedSelf(e, st);
  }

  lemma CopyLenPositive(e: Env, st: St)
    requires Sound(e, st) && st.ctl.CopyMatch?
    ensures 0 < st.ctl.len && 0 < st.ctl.dist <= |st.out|
  {
    hide Clean, CodesOk;
  }

  lemma CopyStepReached(e: Env, st: St)
    requires Sound(e, st) && st.ctl.CopyMatch? && st.pos <= |Stream(e)| && 0 < st.ctl.dist <= |st.out| && st.ctl.len > 0
    ensures Reached(e, st, CopyStep(st, st.ctl.len, st.ctl.dist))
  {
    hide Sound, Reached, Stream;
    NoFieldReached(e, st);
  }

  /** A match about to be copied, or one whose copying was suspended; left bytes are still to be written. */
  ghost predicate Copying(e: Env, inCur: nat, r: Regs, st: St, left: nat) {
    && Sound(e, st) && AtCopy(e.cfg, r, st, left) && Shaped(r) && st.final == (r.final % 2 == 1)
    && Synced(e, inCur, r, st.pos) && Lean(e, r.numBits, inCur)
  }

  /** The state after n of left bytes, with the output w. */
  ghost function Pasted(st: St, left: nat, dist: nat, n: nat, w: seq<byte>): St
    requires n <= left
  {
    st.(out := w, ctl := if n == left then LitLen else if st.ctl.CopyMatch? then CopyMatch(left - n, dist)
        else WildCopy(left - n))
  }

  lemma NeverWild(e: Env, st: St)
    requires Sound(e, st) && e.clean && st.pos <= |Stream(e)|
    ensures !st.ctl.WildCopy?
  {
    hide WellFormed, Clean;
    if st.ctl.WildCopy? {
      WildSteps(e.cfg, st, Stream(e));
      ReachedStep(e, st, st.(ctl := Invalid));
      assert false;
    }
  }

  lemma WildSteps(cfg: Cfg, st: St, S: seq<bool>)
    requires WellFormed(st) && st.ctl.WildCopy? && st.pos <= |S|
    ensures Step(cfg, st, S) == Next(st.(ctl := Invalid))
  {
    hide CodesOk, Peek;
  }

  lemma PastedReached(e: Env, inCur: nat, r: Regs, st: St, left: nat, n: nat, w: seq<byte>)
    requires Copying(e, inCur, r, st, left) && n <= left && st.out <= w && |w| == |st.out| + n
    requires Window.Proper(e.cfg, r.dist, st.out) ==> w == CopyBytes(st.out, r.dist, n)
    ensures var t := Pasted(st, left, r.dist, n, w);
            Reached(e, st, t) && SameCodes(st, t) && !Halted(t.ctl) && AtCopy(e.cfg, r, t, left - n) && t.pos == st.pos
    ensures n < left ==> MayEmit(e, Pasted(st, left, r.dist, n, w).ctl)
  {
    hide InSync, Clean, CopyBytes, CodesOk, Reached, Near;
    SyncedFacts(e, inCur, r, st.pos);
    var t := Pasted(st, left, r.dist, n, w);
    if left == 0 {
      ReachedSelf(e, st);
      assert t == st;
    } else if st.ctl.CopyMatch? {
      CopyPart(e, st, n);
      assert t == Copied(st, n);
    } else {
      if e.clean {
        NeverWild(e, st);
      }
      WildFollows(st, t);
      Adrift(e, st, t);
    }
  }

  lemma WildFollows(st: St, t: St)
    requires WellFormed(st) && st.ctl.WildCopy? && t.lit == st.lit && t.dst == st.dst && t.pos == st.pos
        && st.out <= t.out
    requires t.ctl == LitLen || (t.ctl.WildCopy? && 0 < t.ctl.left <= st.ctl.left)
    ensures Follows(st, t)
  {
    hide Usable, Short;
  }

  /** The careful copy, from the start of a match or from state 53; left bytes are still to be written. */
  method CopyCareful(cfg: Cfg, buf: array<byte>, inCur: nat, cur0: nat, end: nat, r0: Regs, left: nat, ghost e: Env,
      ghost st: St)
    returns (sig: Signal, cur: nat, r: Regs, ghost t: St)
    requires cfg == e.cfg && Copying(e, inCur, r0, st, left) && Window.Tracks(cfg, r0.distFrom, |st.out|)
    requires Window.Holds(cfg, buf[..], cur0, end, st.out)
    modifies buf
    ensures Reached(e, st, t) && Live(e, inCur, r, t) && Lean(e, r.numBits, inCur) && t.pos == st.pos
    ensures SameCodes(st, t) && !Halted(t.ctl) && |st.out| <= |t.out|
    ensures match sig
            case Go => t.ctl.LitLen? && (left > 0 ==> |st.out| < |t.out|)
            case Full => MayEmit(e, t.ctl) && cur == end && !r.pc.P51?
            case _ => false
    ensures Window.Holds(cfg, buf[..], cur, end, t.out) && Wrote(old(buf[..]), buf[..], cur0, cur, st, t)
    ensures !r.pc.P38?
  {
    hide WellFormed, FromBits, Sound, InSync, Reached, Window.Holds, Window.Tracks, CopyBytes, ByteBits, Window.Proper,
        AtCopy, MayEmit, SameCodes;
    CopyShape(e, inCur, r0, st, left);
    var full, left', at;
    ghost var n, w;
    ghost var was := buf[..];
    Window.HoldsPlaced(cfg, buf[..], cur0, end, st.out);
    full, cur, left', at, n, w := Window.CopySlow(cfg, buf, cur0, end, left, r0.dist, r0.distFrom, st.out);
    t := Pasted(st, left, r0.dist, n, w);
    PastedReached(e, inCur, r0, st, left, n, w);
    ReachedSound(e, st, t);
    Window.HoldsPlaced(cfg, buf[..], cur, end, w);
    if full {
      sig, r := Full, r0.(counter := left', distFrom := at, pc := P53);
      FullMatched(cfg, r0, r, t);
    } else {
      sig, r := Go, r0.(distFrom := at, pc := P23);
    }
    Untouched(was, buf[..], cur0, cur);
  }

  lemma CopyShape(e: Env, inCur: nat, r: Regs, st: St, left: nat)
    requires Copying(e, inCur, r, st, left)
    ensures e.cfg.nonWrapping ==> Window.Proper(e.cfg, r.dist, st.out)
  {
  }

  lemma FullMatched(cfg: Cfg, r0: Regs, r: Regs, t: St)
    requires Shaped(r0) && r == r0.(counter := r.counter, distFrom := r.distFrom, pc := P53)
        && t.final == (r0.final % 2 == 1)
    requires AtCopy(cfg, r0, t, r.counter + 1) && Window.Tracks(cfg, r.distFrom, |t.out|)
    ensures Matched(cfg, r, t)
  {
    hide Window.Tracks, Window.Proper;
  }

  lemma Untouched(was: seq<byte>, now: seq<byte>, cur0: nat, cur: nat)
    requires |was| == |now| && cur0 <= cur <= |was| && forall k :: 0 <= k < |was| && !(cur0 <= k < cur) ==>
        now[k] == was[k]
    ensures now[..cur0] == was[..cur0] && now[cur..] == was[cur..]
  {
  }

  /** The fast copy. */
  method CopyQuick(cfg: Cfg, buf: array<byte>, inCur: nat, cur0: nat, end: nat, r0: Regs, src: nat, ghost e: Env,
      ghost st: St)
    returns (cur: nat, r: Regs, ghost t: St)
    requires cfg == e.cfg && Copying(e, inCur, r0, st, r0.counter) && Window.Holds(cfg, buf[..], cur0, end, st.out)
    requires Window.Proper(cfg, r0.dist, st.out) ==> src == Window.Slot(cfg, |st.out| - r0.dist)
    requires cur0 + r0.counter <= end && src + r0.counter <= end
    modifies buf
    ensures Reached(e, st, t) && Live(e, inCur, r, t) && Lean(e, r.numBits, inCur) && t.pos == st.pos
    ensures SameCodes(st, t) && t.ctl.LitLen? && |t.out| == |st.out| + r0.counter
    ensures Window.Holds(cfg, buf[..], cur, end, t.out) && Wrote(old(buf[..]), buf[..], cur0, cur, st, t)
    ensures !r.pc.P38?
  {
    hide WellFormed, FromBits, Sound, InSync, Reached, Window.Holds, Window.Slot, CopyBytes, Window.Proper, AtCopy,
        MayEmit, SameCodes;
    ghost var was := buf[..];
    ghost var w;
    Window.HoldsPlaced(cfg, buf[..], cur0, end, st.out);
    cur, w := Window.CopyFast(cfg, buf, cur0, end, r0.counter, src, r0.dist, st.out);
    t := Pasted(st, r0.counter, r0.dist, r0.counter, w);
    PastedReached(e, inCur, r0, st, r0.counter, r0.counter, w);
    ReachedSound(e, st, t);
    Window.HoldsPlaced(cfg, buf[..], cur, end, w);
    r := r0.(pc := P23);
    Untouched(was, buf[..], cur0, cur);
  }

  /** The decoder is at u, reached by reading only, or without reading from a distance symbol. */
  ghost predicate Moved(e: Env, inCur: nat, r: Regs, st: St, u: St) {
    && Reached(e, st, u) && (st.pos < u.pos || st.ctl.DistSym?) && u.out == st.out && Shaped(r)
       && u.final == (r.final % 2 == 1)
    && Synced(e, inCur, r, u.pos) && Lean(e, r.numBits, inCur) && InBlock(st.ctl) && u.lit == st.lit && u.dst == st.dst
       && CodesOk(u)
  }

  lemma MoveOn(e: Env, inCur: nat, sig: Signal, r: Regs, st: St, u: St, t: St)
    requires Reached(e, st, u) && (st.pos < u.pos || st.ctl.DistSym?) && t.pos == u.pos && Reached(e, u, t)
    requires Live(e, inCur, r, t) && Lean(e, r.numBits, inCur)
    requires match sig case Go => t.ctl.LitLen? case Full => MayEmit(e, t.ctl)
        && !r.pc.P51? case Over => Halted(t.ctl) case _ => false
    ensures Outcome(e, inCur, sig, r, st, t)
  {
    hide Reached, Live, Lean, MayEmit;
    ReachedTrans(e, st, u, t);
  }

  /** Where a match starts: whether its distance lies within the output. */
  ghost predicate AtMatch(cfg: Cfg, r: Regs, u: St) {
    if cfg.nonWrapping && (r.dist == 0 || r.dist > |u.out|) then u.ctl == Failed(37)
    else if r.counter == 0 then u.ctl == LitLen
    else if Window.Proper(cfg, r.dist, u.out) then u.ctl == CopyMatch(r.counter, r.dist)
    else u.ctl == Invalid
  }

  /** A wrapping buffer is copied from whatever the distance. */
  ghost function Unmarked(u: St, counter: nat): St {
    if u.ctl.Invalid? then u.(ctl := WildCopy(counter)) else u
  }

  lemma StartCopy(e: Env, inCur: nat, r: Regs, st: St, u: St)
    requires Moved(e, inCur, r, st, u) && AtMatch(e.cfg, r, u) && !u.ctl.Failed? && r.counter <= 258
    ensures var v := Unmarked(u, r.counter);
            Copying(e, inCur, r, v, r.counter) && Reached(e, st, v) && v.pos == u.pos && v.out == u.out
                && SameCodes(st, v)
  {
    hide InSync, Clean, Usable, Short, Leads;
    if u.ctl.Invalid? {
      Adrift(e, st, Unmarked(u, r.counter));
    }
  }

  /** Where the copy reads from. */
  lemma MatchSource(cfg: Cfg, buf: seq<byte>, cur: nat, end: nat, r: Regs, u: St)
    requires Window.Holds(cfg, buf, cur, end, u.out) && AtMatch(cfg, r, u)
    ensures cfg.nonWrapping ==> (u.ctl.Failed? <==> r.dist == 0 || r.dist > cur || cur == 0)
    ensures !cfg.nonWrapping ==> !u.ctl.Failed?
    ensures !u.ctl.Failed? ==> 0 <= Window.Masked(cfg, cur, r.dist)
    ensures !u.ctl.Failed? && Window.Proper(cfg, r.dist, u.out) ==>
        Window.Masked(cfg, cur, r.dist) == Window.Slot(cfg, |u.out| - r.dist)
    ensures Window.Tracks(cfg, cur, |u.out|)
  {
    PlacedTracks(cfg, |buf|, cur, end, |u.out|);
    if !u.ctl.Failed? && Window.Proper(cfg, r.dist, u.out) {
      Window.TracksSlot(cfg, cur, |u.out|, r.dist);
      Window.Source(cfg, buf, cur, end, u.out, r.dist);
    }
  }

  lemma PlacedTracks(cfg: Cfg, size: nat, cur: nat, end: nat, n: nat)
    requires Window.Placed(cfg, size, cur, end, n)
    ensures Window.Tracks(cfg, cur, n)
  {
    if !cfg.nonWrapping && cfg.window > 0 {
      var w := cfg.window;
      if cur == w {
        DivUnique(w, w, 1, 0);
      } else {
        DivUnique(cur, w, 0, cur);
      }
    }
  }

  /** A match: check its distance, then copy it. */
  method CopyNow(cfg: Cfg, buf: array<byte>, inCur: nat, cur0: nat, end: nat, r0: Regs, ghost e: Env, ghost st: St,
      ghost u: St)
    returns (sig: Signal, cur: nat, r: Regs, ghost t: St)
    requires cfg == e.cfg && Moved(e, inCur, r0, st, u) && AtMatch(cfg, r0, u)
        && Window.Holds(cfg, buf[..], cur0, end, u.out) && r0.counter <= 258
    modifies buf
    ensures Outcome(e, inCur, sig, r, st, t) && (sig == Full ==> cur == end)
    ensures SameCodes(st, t)
    ensures Window.Holds(cfg, buf[..], cur, end, t.out) && Wrote(old(buf[..]), buf[..], cur0, cur, st, t)
    ensures OffStore(sig, r, t)
  {
    hide WellFormed, Clean, InSync, Reached, Window.Holds, Window.Tracks, Window.Masked, Window.Slot, Outcome, Wrote,
        Matched, AtCopy, CodesOk, MayEmit,
         Window.Proper, Near, AtMatch;
    ReachedSound(e, st, u);
    MatchSource(cfg, buf[..], cur0, end, r0, u);
    Window.HoldsPlaced(cfg, buf[..], cur0, end, u.out);
    WroteNone(buf[..], cur0, st, u);
    cur, r, t := cur0, r0.(distFrom := cur0), u;
    if cfg.nonWrapping && (r.dist == 0 || r.dist > cur || cur == 0) {
      sig, r := Over, r.(pc := PFail(37));
      FailedAt(cfg, r0, u);
      FailMatched(cfg, r, u);
      ReachedSelf(e, u);
      MoveOn(e, inCur, sig, r, st, u, t);
      return;
    }
    var src := Window.Masked(cfg, cur, r.dist);
    ghost var v := Unmarked(u, r.counter);
    StartCopy(e, inCur, r0, st, u);
    SameCopying(e, inCur, r0, r, v, r.counter);
    if Max(cur, src) + r.counter > end {
      sig, cur, r, t := CopyCareful(cfg, buf, inCur, cur0, end, r, r.counter, e, v);
    } else {
      sig := Go;
      cur, r, t := CopyQuick(cfg, buf, inCur, cur0, end, r, src, e, v);
    }
    WroteFrom(old(buf[..]), buf[..], cur0, cur, st, v, t);
    MoveOn(e, inCur, sig, r, st, v, t);
  }

  lemma FailedAt(cfg: Cfg, r: Regs, u: St)
    requires AtMatch(cfg, r, u) && u.ctl.Failed?
    ensures u.ctl == Failed(37)
  {
  }

  lemma SameCopying(e: Env, inCur: nat, r0: Regs, r: Regs, v: St, left: nat)
    requires Copying(e, inCur, r0, v, left) && r == r0.(distFrom := r.distFrom)
    ensures Copying(e, inCur, r, v, left)
  {
    hide InSync, Clean;
  }

  lemma WroteFrom(a: seq<byte>, b: seq<byte>, x: nat, y: nat, st: St, u: St, t: St)
    requires Wrote(a, b, x, y, u, t) && u.out == st.out
    ensures Wrote(a, b, x, y, st, t)
  {
  }

  lemma FailMatched(cfg: Cfg, r: Regs, u: St)
    requires Shaped(r) && r.pc.PFail? && u.ctl == Failed(r.pc.code)
    ensures Matched(cfg, r, u)
  {
  }

  /** Resume a copy that ran out of room (state 53). */
  method CopyResume(cfg: Cfg, buf: array<byte>, inCur: nat, cur0: nat, end: nat, r0: Regs, ghost e: Env, ghost st: St)
    returns (sig: Signal, cur: nat, r: Regs, ghost t: St)
    requires cfg == e.cfg && Live(e, inCur, r0, st) && Thrifty(e, inCur, r0, st) && r0.pc.P53?
    requires Window.Holds(cfg, buf[..], cur0, end, st.out)
    modifies buf
    ensures Outcome(e, inCur, sig, r, st, t) && (sig == Full ==> cur == end) && SameCodes(st, t)
    ensures Window.Holds(cfg, buf[..], cur, end, t.out) && Wrote(old(buf[..]), buf[..], cur0, cur, st, t)
    ensures OffStore(sig, r, t)
  {
    hide WellFormed, Clean, InSync, Reached, Window.Holds, Wrote, Window.Tracks, Thrifty, MayEmit;
    EmitsNotStarved(e, inCur, r0, st);
    sig, cur, r, t := CopyCareful(cfg, buf, inCur, cur0, end, r0, r0.counter + 1, e, st);
  }

  // ----- literals, lengths and distances -----

  /** The source's tables: the two last length symbols and the two last distance symbols stand for nothing. */
  function LengthBase(i: nat): nat {
    if i < 29 then LENGTH_BASE[i] else 0
  }

  function LengthExtra(i: nat): nat {
    if i < 29 then LENGTH_EXTRA[i] else 0
  }

  function DistBase(i: nat): nat {
    if i < 30 then DIST_BASE[i] else 0
  }

  function DistExtraBits(i: nat): nat {
    if i < 30 then DIST_EXTRA[i] else 0
  }

  lemma LengthIs(cfg: Cfg, st: St, sym: nat, n: nat)
    requires 256 <= sym < 288
    ensures var t := LitLenStep(cfg, st, sym, n);
            if sym == 256 then t == AfterBlock(cfg, st, st.pos + n) && t.out == st.out && !InBlock(t.ctl)
                && !InLens(t.ctl)
            else t == st.(pos := st.pos + n,
                          ctl := if LengthExtra(sym - 257) > 0 then
                              LenExtra(LengthBase(sym - 257), LengthExtra(sym - 257))
                                 else DistSym(LengthBase(sym - 257)))
  {
  }

  lemma GotLength(e: Env, st: St, sym: nat, n: nat, t: St)
    requires GotSym(e, st, sym, n) && st.ctl.LitLen? && sym >= 256 && t == LitLenStep(e.cfg, st, sym, n)
    ensures n > 0 && sym < 288 && Reached(e, st, t) && Sound(e, t)
  {
    hide Reached, LitLenStep, WellFormed, Usable, Short, Sound;
    CodeShape(st);
    ReachedSound(e, st, t);
  }

  lemma AfterIs(cfg: Cfg, st: St, pos: nat)
    requires st.ctl.LitLen? && pos > st.pos
    ensures var t := AfterBlock(cfg, st, pos); t.out == st.out && SameCodes(st, t) && Progress(st, t) && !t.ctl.RawCopy?
  {
  }

  lemma LengthMatched(cfg: Cfg, r: Regs, st: St, t: St, pos: nat)
    requires st.ctl.LitLen? && Shaped(r) && st.final == (r.final % 2 == 1)
        && r.pc == (if r.numExtra > 0 then P25 else P26)
    requires t == st.(pos := pos, ctl := if r.numExtra > 0 then LenExtra(r.counter, r.numExtra) else DistSym(r.counter))
    ensures Matched(cfg, r, t) && SameCodes(st, t) && t.out == st.out && !Halted(t.ctl)
  {
  }

  /** A symbol of 256 or more was decoded: the end of the block, or the length of a match. */
  method LengthSymbol(cfg: Cfg, inp: seq<byte>, inCur0: nat, r0: Regs, ghost e: Env, ghost st: St, ghost n: nat)
    returns (sig: Signal, inCur: nat, r: Regs, ghost t: St)
    requires cfg == e.cfg && inp == e.inp && st.ctl.LitLen? && r0.counter % 512 >= 256
        && GotSym(e, st, r0.counter % 512, n)
    requires Shaped(r0) && st.final == (r0.final % 2 == 1)
    requires Synced(e, inCur0, r0, st.pos + n) && Lean(e, r0.numBits, inCur0)
    ensures Outcome(e, inCur, sig, r, st, t) && t.out == st.out && SameCodes(st, t) && sig != Full
    ensures OffStore(sig, r, t)
  {
    hide ByteBits, ToBits, WellFormed, Clean, InSync, Reached, Usable, LitLenStep, AfterBlock, Outcome, Matched, Live,
        Sound, Rank, Lean, SameCodes, GotSym, LengthBase, LengthExtra;
    var sym := r0.counter % 512;
    r, inCur := r0.(counter := sym), inCur0;
    t := LitLenStep(cfg, st, sym, n);

    GotLength(e, st, sym, n, t);
    LengthIs(cfg, st, sym, n);
    if sym == 256 {
      AfterIs(cfg, st, st.pos + n);
      sig, inCur, r := EndBlock(cfg, inp, inCur, r, e, st, st.pos + n);
      BlockEnded(e, inCur, sig, r, st, t);
      return;
    }
    r := r.(numExtra := LengthExtra(sym - 257), counter := LengthBase(sym - 257));
    sig, r := Go, r.(pc := if r.numExtra > 0 then P25 else P26);
    LengthMatched(cfg, r, st, t, st.pos + n);
    Arrive(e, inCur, sig, r, st, t);
  }

  lemma LiteralIs(cfg: Cfg, st: St, sym: nat, n: nat)
    requires sym < 256
    ensures LitLenStep(cfg, st, sym, n) == st.(ctl := EmitLit(sym), pos := st.pos + n)
  {
  }

  /** A symbol, decoded with care near the ends of the buffers. */
  method ReadLitLen(cfg: Cfg, ts: TableSet, inp: seq<byte>, inCur0: nat, r0: Regs, resume: bool, ghost e: Env,
      ghost st: St)
    returns (sig: Signal, inCur: nat, r: Regs, ghost t: St)
    requires cfg == e.cfg && inp == e.inp && Live(e, inCur0, r0, st) && r0.pc.P23? && Laid(ts) && Built(ts, st)
    requires SymStart(e, inCur0, r0, st, resume)
    ensures Outcome(e, inCur, sig, r, st, t) && t.out == st.out && SameCodes(st, t) && sig != Full
    ensures OffStore(sig, r, t)
  {
    hide ByteBits, ToBits, LitLenStep, WellFormed, Clean, InSync, Reached, Hungry, Starved, Usable, TableOk;
    var ok, sym;
    ghost var n;
    r, t := r0, st;
    CodeShape(st);
    ok, sym, inCur, r, n := Symbol(ts.lookUp0, ts.tree0, inp, inCur0, r, resume, e, st);
    if !ok {
      ReachedSelf(e, st);
      sig := NeedInput;
      return;
    }
    r := r.(counter := sym);
    if sym < 256 {
      t := SymTo(cfg, st, sym, n);
      LiteralIs(cfg, st, sym, n);
      ReachedSound(e, st, t);
      sig, r := Go, r.(pc := P24);
    } else {
      sig, inCur, r, t := LengthSymbol(cfg, inp, inCur, r, e, st, n);
    }
  }

  /** Write a literal (state 24). */
  method PutLiteral(cfg: Cfg, buf: array<byte>, inCur: nat, cur0: nat, end: nat, r0: Regs, ghost e: Env, ghost st: St)
    returns (sig: Signal, cur: nat, r: Regs, ghost t: St)
    requires cfg == e.cfg && Live(e, inCur, r0, st) && Thrifty(e, inCur, r0, st) && r0.pc.P24?
    requires Window.Holds(cfg, buf[..], cur0, end, st.out)
    modifies buf
    ensures Outcome(e, inCur, sig, r, st, t) && (sig == Full ==> cur == end) && SameCodes(st, t)
    ensures Window.Holds(cfg, buf[..], cur, end, t.out) && Wrote(old(buf[..]), buf[..], cur0, cur, st, t)
    ensures OffStore(sig, r, t)
  {
    hide WellFormed, Clean, InSync, Reached, Hungry, Thrifty, Pow2, Window.Holds, Wrote;
    r, t, cur := r0, st, cur0;
    EmitsNotStarved(e, inCur, r, st);
    Window.HoldsPlaced(cfg, buf[..], cur, end, st.out);
    if cur >= end {
      ReachedSelf(e, st);
      WroteNone(buf[..], cur, st, t);
      sig := Full;
      return;
    }
    t := FieldStep(cfg, st, 0);
    NoFieldReached(e, st);
    ReachedSound(e, st, t);
    Put(cfg, buf, cur, end, r.counter, st, t);
    cur, sig, r := cur + 1, Go, r.(pc := P23);
  }

  lemma LenField(st: St)
    requires WellFormed(st) && st.ctl.LenExtra?
    ensures AtField(st, st.ctl.extra) && st.ctl.extra <= 5
  {
    hide CodesOk;
  }

  /** The extra bits of a length (state 25). */
  method ReadLenExtra(inp: seq<byte>, inCur0: nat, r0: Regs, ghost e: Env, ghost st: St)
    returns (sig: Signal, inCur: nat, r: Regs, ghost t: St)
    requires Ready(e, inp, inCur0, r0, st) && r0.pc.P25?
    ensures Outcome(e, inCur, sig, r, st, t) && t.out == st.out && SameCodes(st, t) && sig != Full
    ensures OffStore(sig, r, t)
  {
    hide ByteBits, WellFormed, Clean, InSync, Reached, Hungry, Thrifty, Pow2;
    var ok, v;
    r, t := r0, st;
    LenField(st);
    ok, v, inCur, r := Field(inp, inCur0, r, r.numExtra, e, st);
    if !ok {
      ReachedSelf(e, st);
      sig := NeedInput;
      return;
    }
    t := FieldStep(e.cfg, st, v);
    ReachedSound(e, st, t);
    sig, r := Go, r.(counter := r.counter + v, pc := P26);
  }

  lemma DistIs(cfg: Cfg, st: St, len: nat, sym: nat, n: nat)
    requires sym < 32
    ensures var t := st.(pos := st.pos + n);
            DistStep(cfg, st, len, sym, n) == if DistExtraBits(sym) > 0 then
                t.(ctl := DistExtra(len, DistBase(sym), DistExtraBits(sym)))
                                              else StartMatch(cfg, t, len, DistBase(sym))
  {
  }

  /** A match that starts as the reference decoder starts it. */
  lemma MatchStarts(cfg: Cfg, r: Regs, t: St, u: St)
    requires u == StartMatch(cfg, t, r.counter, r.dist)
    ensures AtMatch(cfg, r, u) && u.out == t.out && u.pos == t.pos && u.final == t.final && u.lit == t.lit
        && u.dst == t.dst
  {
  }

  lemma InCodes(st: St)
    requires WellFormed(st) && InBlock(st.ctl)
    ensures CodesOk(st) && (st.ctl.DistSym? ==> |st.dst| <= 32 && st.ctl.len <= 258)
        && (st.ctl.DistExtra? ==> st.ctl.len <= 258)
  {
    hide Usable, Short;
  }

  lemma AtDist(cfg: Cfg, r: Regs, st: St)
    requires Matched(cfg, r, st) && r.pc.P26? && WellFormed(st)
    ensures st.ctl == DistSym(r.counter) && InBlock(st.ctl) && CodesOk(st) && r.counter <= 258 && Shaped(r)
        && st.final == (r.final % 2 == 1)
  {
    hide CodesOk;
    InCodes(st);
  }

  lemma DistTables(ts: TableSet, st: St)
    requires Built(ts, st) && st.ctl.DistSym?
    ensures Tables(ts.lookUp1, ts.tree1, LensOf(st))
  {
    hide Tables;
  }

  /** Where a distance symbol leads. */
  lemma GotDist(e: Env, st: St, sym: nat, n: nat)
    requires GotSym(e, st, sym, n) && st.ctl.DistSym?
    ensures sym < 32
    ensures var u := SymTo(e.cfg, st, sym, n);
            Reached(e, st, u) && Sound(e, u) && u == DistStep(e.cfg, st, st.ctl.len, sym, n)
  {
    hide Reached, DistStep, Sound, Usable, Short;
    CodeShape(st);
    InCodes(st);
    ReachedSound(e, st, SymTo(e.cfg, st, sym, n));
  }

  /** The distance symbol's extra bits follow. */
  lemma DistWaits(cfg: Cfg, r: Regs, st: St, u: St, pos: nat)
    requires st.ctl == DistSym(r.counter) && Shaped(r) && st.final == (r.final % 2 == 1) && r.numExtra > 0 && r.pc.P27?
    requires u == st.(pos := pos, ctl := DistExtra(r.counter, r.dist, r.numExtra)) && pos >= st.pos
    ensures Matched(cfg, r, u) && SameCodes(st, u) && Progress(st, u) && u.out == st.out && !Halted(u.ctl)
  {
  }

  lemma DistMoved(e: Env, inCur: nat, r: Regs, st: St, u: St)
    requires Reached(e, st, u) && st.ctl.DistSym? && CodesOk(st) && Shaped(r) && st.final == (r.final % 2 == 1)
    requires u.out == st.out && u.final == st.final && u.lit == st.lit && u.dst == st.dst && Synced(e, inCur, r, u.pos)
        && Lean(e, r.numBits, inCur)
    ensures Moved(e, inCur, r, st, u)
  {
    hide Reached, InSync, Lean, CodesOk;
    SameCodesOk(st, u);
  }

  /** The distance symbol (state 26): its extra bits follow, or the match is copied. */
  method ReadDist(cfg: Cfg, ts: TableSet, inp: seq<byte>, buf: array<byte>, inCur0: nat, cur0: nat, end: nat, r0: Regs,
      resume: bool, ghost e: Env, ghost st: St)
    returns (sig: Signal, inCur: nat, cur: nat, r: Regs, ghost t: St)
    requires cfg == e.cfg && inp == e.inp && Live(e, inCur0, r0, st) && r0.pc.P26? && Laid(ts) && Built(ts, st)
    requires SymStart(e, inCur0, r0, st, resume)
    requires Window.Holds(cfg, buf[..], cur0, end, st.out)
    modifies buf
    ensures Outcome(e, inCur, sig, r, st, t) && (sig == Full ==> cur == end) && SameCodes(st, t)
    ensures Window.Holds(cfg, buf[..], cur, end, t.out) && Wrote(old(buf[..]), buf[..], cur0, cur, st, t)
    ensures OffStore(sig, r, t)
  {
    hide Matched, Outcome, Live, FieldStep, WellFormed, Clean, InSync, Reached, Hungry, Thrifty, AtField, SameCodes,
        Sound, Lean, ByteBits, Starved, Usable, TableOk, Tables, Window.Holds, Wrote, DistStep, SymTo, GotSym, CodesOk,
            Moved, AtMatch, StartMatch, InBlock, Rank,
         Progress, OffStore, DistBase, DistExtraBits;
    var ok, sym;
    ghost var n;
    r, t, cur := r0, st, cur0;
    LiveParts(e, inCur0, r, st);
    AtDist(cfg, r, st);
    DistTables(ts, st);
    Window.HoldsPlaced(cfg, buf[..], cur, end, st.out);
    WroteNone(buf[..], cur, st, t);
    ok, sym, inCur, r, n := Symbol(ts.lookUp1, ts.tree1, inp, inCur0, r, resume, e, st);
    if !ok {
      Await(e, inCur0, inCur, r0, r, st);
      SameSelf(st);
      NotStored(NeedInput, r, st);
      sig := NeedInput;
      return;
    }
    GotDist(e, st, sym, n);
    ghost var u := SymTo(cfg, st, sym, n);
    DistIs(cfg, st, st.ctl.len, sym, n);
    r := r.(numExtra := DistExtraBits(sym), dist := DistBase(sym));
    if r.numExtra > 0 {
      t := u;
      sig, r := Go, r.(pc := P27);
      DistWaits(cfg, r, st, u, st.pos + n);
      WroteNone(buf[..], cur, st, t);
      NotStored(sig, r, t);
      Arrive(e, inCur, sig, r, st, t);
    } else {
      MatchStarts(cfg, r, st.(pos := st.pos + n), u);
      DistMoved(e, inCur, r, st, u);
      sig, cur, r, t := CopyNow(cfg, buf, inCur, cur, end, r, e, st, u);
    }
  }

  lemma SameCodesOk(st: St, u: St)
    requires CodesOk(st) && u.lit == st.lit && u.dst == st.dst
    ensures CodesOk(u)
  {
    hide Usable, Short;
  }

  lemma DistField(st: St)
    requires WellFormed(st) && st.ctl.DistExtra?
    ensures AtField(st, st.ctl.extra) && st.ctl.extra <= 13
  {
    hide CodesOk, Pow2;
  }

  lemma FieldWide(st: St, n: nat)
    requires AtField(st, n)
    ensures n > 0
  {
  }

  lemma AtDistExtra(cfg: Cfg, r: Regs, st: St)
    requires Matched(cfg, r, st) && r.pc.P27? && WellFormed(st)
    ensures st.ctl == DistExtra(r.counter, r.dist, r.numExtra) && InBlock(st.ctl) && CodesOk(st) && r.counter <= 258
    ensures Shaped(r) && st.final == (r.final % 2 == 1) && AtField(st, r.numExtra) && r.numExtra <= 13
  {
    hide CodesOk, AtField;
    InCodes(st);
    DistField(st);
  }

  lemma ExtraStep(cfg: Cfg, st: St, v: nat)
    requires WellFormed(st) && st.ctl.DistExtra?
    ensures FieldStep(cfg, st, v) == StartMatch(cfg, st.(pos := st.pos + st.ctl.extra), st.ctl.len, st.ctl.base + v)
  {
    hide CodesOk, StartMatch;
  }

  lemma ExtraMoved(e: Env, inCur: nat, r: Regs, st: St, u: St)
    requires Reached(e, st, u) && st.pos < u.pos && InBlock(st.ctl) && CodesOk(st) && Shaped(r)
        && st.final == (r.final % 2 == 1)
    requires u.out == st.out && u.final == st.final && u.lit == st.lit && u.dst == st.dst && Synced(e, inCur, r, u.pos)
        && Lean(e, r.numBits, inCur)
    ensures Moved(e, inCur, r, st, u)
  {
    hide Reached, InSync, Lean, CodesOk;
    SameCodesOk(st, u);
  }

  /** The extra bits of a distance (state 27), then the copy. */
  method ReadDistExtra(cfg: Cfg, inp: seq<byte>, buf: array<byte>, inCur0: nat, cur0: nat, end: nat, r0: Regs,
      ghost e: Env, ghost st: St)
    returns (sig: Signal, inCur: nat, cur: nat, r: Regs, ghost t: St)
    requires cfg == e.cfg && Ready(e, inp, inCur0, r0, st) && r0.pc.P27?
    requires Window.Holds(cfg, buf[..], cur0, end, st.out)
    modifies buf
    ensures Outcome(e, inCur, sig, r, st, t) && (sig == Full ==> cur == end) && SameCodes(st, t)
    ensures Window.Holds(cfg, buf[..], cur, end, t.out) && Wrote(old(buf[..]), buf[..], cur0, cur, st, t)
    ensures OffStore(sig, r, t)
  {
    hide Matched, Outcome, Live, FieldStep, WellFormed, Clean, InSync, Reached, Hungry, Thrifty, AtField, SameCodes,
        Sound, Lean, ByteBits, Window.Holds, Wrote, CodesOk, Moved, AtMatch, StartMatch, InBlock, Rank, Progress,
            OffStore;
    var ok, v;
    r, t, cur := r0, st, cur0;
    ReadyLive(e, inp, inCur0, r, st);
    AtDistExtra(cfg, r, st);
    Window.HoldsPlaced(cfg, buf[..], cur, end, st.out);
    WroteNone(buf[..], cur, st, t);
    ok, v, inCur, r := Field(inp, inCur0, r, r.numExtra, e, st);
    if !ok {
      Await(e, inCur0, inCur, r0, r, st);
      SameSelf(st);
      NotStored(NeedInput, r, st);
      sig := NeedInput;
      return;
    }
    ghost var u := FieldStep(cfg, st, v);
    ExtraStep(cfg, st, v);
    r := r.(dist := r.dist + v);
    MatchStarts(cfg, r, st.(pos := st.pos + st.ctl.extra), u);
    FieldWide(st, st.ctl.extra);
    ExtraMoved(e, inCur, r, st, u);
    sig, cur, r, t := CopyNow(cfg, buf, inCur, cur, end, r, e, st, u);
  }

  // ----- the fast path -----

  /** After a literal of n bits. */
  ghost function Literal(st: St, sym: nat, n: nat): St
    requires sym < 256
  {
    st.(pos := st.pos + n, out := st.out + [sym])
  }

  lemma LiteralReached(e: Env, st: St, sym: nat, n: nat)
    requires GotSym(e, st, sym, n) && st.ctl.LitLen? && sym < 256 && st.pos + n <= |Stream(e)|
    ensures Reached(e, st, Literal(st, sym, n)) && Sound(e, Literal(st, sym, n))
  {
    hide Reached, WellFormed, Clean, Stream;
    var u := SymTo(e.cfg, st, sym, n);
    ReachedSound(e, st, u);
    NoFieldReached(e, u);
    ReachedTrans(e, st, u, Literal(st, sym, n));
    ReachedSound(e, st, Literal(st, sym, n));
  }

  lemma Split512(v: nat)
    ensures v / 256 % 2 == 1 <==> v % 512 >= 256
    ensures v % 512 < 256 ==> v % 256 == v % 512
  {
    var q, m := v / 512, v % 512;
    assert v / 256 == 2 * q + m / 256;
  }

  /** The symbol in the low nine bits of a table entry. */
  function SymOf(entry: nat): nat {
    entry % 512
  }

  /** Decode with at least two bytes of input left: no test for the end of the input. The entry holds the symbol in its
      low nine bits. */
  method FastSymbol(lookUp: array<int>, tree: array<int>, inp: seq<byte>, inCur0: nat, r0: Regs, ghost e: Env,
      ghost st: St)
    returns (entry: nat, inCur: nat, r: Regs, ghost n: nat)
    requires inp == e.inp && Sound(e, st) && st.ctl.LitLen? && Tables(lookUp, tree, st.lit)
        && lookUp.Length == FAST_SIZE
    requires Synced(e, inCur0, r0, st.pos) && Lean(e, r0.numBits, inCur0) && inCur0 + 2 <= |inp|
    ensures r == r0.(numBits := r.numBits, bitBuf := r.bitBuf) && inCur <= inCur0 + 2
    ensures SymOf(entry) < |st.lit| && GotSym(e, st, SymOf(entry), n)
    ensures Synced(e, inCur, r, st.pos + n) && Lean(e, r.numBits, inCur)
  {
    hide ByteBits, WellFormed, Clean, InSync, NextSym, Usable, Reached, Buf, SymTo, TableOk, Push, Pow2, Walk, GotSym;
    SyncedFacts(e, inCur0, r0, st.pos);
    if e.clean {
      NeverBad(e, st);
    }
    CodeShape(st);
    inCur, r := inCur0, r0;
    if r.numBits < 15 {
      NextTwo(e.all, e.base, e.inp, inCur, st.pos, r.numBits, r.bitBuf);
      r := r.(bitBuf := Push(Push(r.bitBuf, r.numBits, inp[inCur]), r.numBits + 8, inp[inCur + 1]),
          numBits := r.numBits + 16);
      inCur := inCur + 2;
    }
    var numBits, bitBuf;
    BufferWalks(lookUp, tree, st.lit, r.bitBuf);
    entry, numBits, bitBuf, n := TakeSymbol(lookUp, tree, inp, inCur, r.numBits, r.bitBuf, e.clean, st.lit, e.all,
        e.base, st.pos);
    r := r.(numBits := numBits, bitBuf := bitBuf);
    SymGot(e, st, SymOf(entry), n);
  }

  /** Two symbols at a time while there are four bytes of input and room for two bytes of output. */
  method FastPair(cfg: Cfg, ts: TableSet, inp: seq<byte>, buf: array<byte>, inCur0: nat, cur0: nat, end: nat, r0: Regs,
      ghost e: Env, ghost st: St)
    returns (sig: Signal, inCur: nat, cur: nat, r: Regs, ghost t: St)
    requires cfg == e.cfg && inp == e.inp && Live(e, inCur0, r0, st) && r0.pc.P23? && Laid(ts) && Built(ts, st)
    requires Lean(e, r0.numBits, inCur0) && inCur0 + 4 <= |inp| && cur0 + 2 <= end
    requires Window.Holds(cfg, buf[..], cur0, end, st.out)
    modifies buf
    ensures Outcome(e, inCur, sig, r, st, t) && (sig == Full ==> cur == end) && SameCodes(st, t)
    ensures Window.Holds(cfg, buf[..], cur, end, t.out) && Wrote(old(buf[..]), buf[..], cur0, cur, st, t)
    ensures OffStore(sig, r, t)
  {
    hide ByteBits, WellFormed, Clean, InSync, Reached, Usable, TableOk, Window.Holds, Wrote, GotSym;
    cur := cur0;
    Window.HoldsPlaced(cfg, buf[..], cur, end, st.out);
    ghost var was := buf[..];
    var entry;
    ghost var n, n2;
    entry, inCur, r, n := FastSymbol(ts.lookUp0, ts.tree0, inp, inCur0, r0, e, st);
    Split512(entry);
    r := r.(counter := entry);
    if entry / 256 % 2 == 1 {
      sig, inCur, r, t := LengthSymbol(cfg, inp, inCur, r, e, st, n);
      WroteNone(was, cur, st, t);
      return;
    }
    ghost var u := FirstOfPair(e, inCur, r, st, n);
    var sym2;
    sym2, inCur, r, n2 := FastSymbol(ts.lookUp0, ts.tree0, inp, inCur, r, e, u);
    Put(cfg, buf, cur, end, r.counter % 256, st, u);
    cur := cur + 1;
    ghost var now := buf[..];
    sig, inCur, cur, r, t := SecondOfPair(cfg, inp, buf, inCur, cur, end, sym2, r, e, u, n2);
    WroteTrans(was, now, buf[..], cur0, cur0 + 1, cur, st, u, t);
    OutcomeTrans(e, inCur, sig, r, st, u, t);
  }

  /** The literal that the first entry of a pair stands for. */
  lemma FirstOfPair(e: Env, inCur: nat, r: Regs, st: St, n: nat) returns (u: St)
    requires Sound(e, st) && st.ctl.LitLen? && r.counter % 512 < 256 && GotSym(e, st, r.counter % 512, n)
    requires Synced(e, inCur, r, st.pos + n)
    ensures u == Literal(st, r.counter % 512, n) && Reached(e, st, u) && Sound(e, u)
  {
    hide Reached, Sound, Stream, InSync;
    SyncedFacts(e, inCur, r, st.pos + n);
    u := Literal(st, r.counter % 512, n);
    LiteralReached(e, st, r.counter % 512, n);
  }

  lemma OutcomeTrans(e: Env, inCur: nat, sig: Signal, r: Regs, st: St, u: St, t: St)
    requires Reached(e, st, u) && Outcome(e, inCur, sig, r, u, t) && |st.out| < |u.out|
    ensures Outcome(e, inCur, sig, r, st, t)
  {
    hide Live, Hungry, Lean, MayEmit, WellFormed, Sound, Leads;
    ReachedTrans(e, st, u, t);
  }

  /** The second symbol of a pair: another literal, or the end of the literals. */
  method SecondOfPair(cfg: Cfg, inp: seq<byte>, buf: array<byte>, inCur0: nat, cur0: nat, end: nat, sym2: nat,
      r0: Regs, ghost e: Env, ghost st: St, ghost n: nat)
    returns (sig: Signal, inCur: nat, cur: nat, r: Regs, ghost t: St)
    requires cfg == e.cfg && inp == e.inp && Sound(e, st) && st.ctl.LitLen? && GotSym(e, st, SymOf(sym2), n)
        && Shaped(r0) && r0.pc.P23?
    requires Synced(e, inCur0, r0, st.pos + n) && Lean(e, r0.numBits, inCur0) && st.final == (r0.final % 2 == 1)
    requires cur0 < end && Window.Holds(cfg, buf[..], cur0, end, st.out)
    modifies buf
    ensures Outcome(e, inCur, sig, r, st, t) && (sig == Full ==> cur == end) && SameCodes(st, t)
    ensures Window.Holds(cfg, buf[..], cur, end, t.out) && Wrote(old(buf[..]), buf[..], cur0, cur, st, t)
    ensures OffStore(sig, r, t)
  {
    hide ByteBits, WellFormed, Clean, InSync, Reached, Usable, TableOk, Window.Holds, Wrote, SymTo;
    inCur, cur, r := inCur0, cur0, r0;
    Window.HoldsPlaced(cfg, buf[..], cur, end, st.out);
    Split512(sym2);
    if sym2 / 256 % 2 == 1 {
      r := r.(counter := sym2);
      sig, inCur, r, t := LengthSymbol(cfg, inp, inCur, r, e, st, n);
      WroteNone(buf[..], cur, st, t);
      return;
    }
    SyncedFacts(e, inCur, r, st.pos + n);
    LiteralReached(e, st, SymOf(sym2), n);
    t := Literal(st, SymOf(sym2), n);
    Put(cfg, buf, cur, end, sym2 % 256, st, t);
    sig, cur := Go, cur + 1;
  }
}
