/** The resumable decompressor as an object: one call of it runs from one suspension to the next, however the input
    and the room for output are cut (third-party/miniz.c:2425-2917). */
module Decompressor {
  import opened Bits
  import opened Format
  import opened Machine
  import opened Runs
  import opened BitReader
  import opened Inflater
  import opened Lookup
  import Window
  import Adler

  datatype Status =
    | BadParam | CannotProgress | AdlerMismatch | StatusFailed | StatusDone | NeedsMoreInput | HasMoreOutput
    | Asserted

  /** Where the decoder stands during a call. A resumed symbol is starved; otherwise a symbol starts with little
      looked ahead. */
  ghost predicate Poised(e: Env, inCur: nat, r: Regs, st: St, resume: bool) {
    && Live(e, inCur, r, st) && Thrifty(e, inCur, r, st)
    && (AtSym(st.ctl) && resume ==> r.numBits < 15 && (e.clean ==> Starved(e.cfg, Read(e, r, st.pos), st)))
    && ((AtSym(st.ctl) && !resume) || r.pc.P51? ==> Lean(e, r.numBits, inCur))
  }

  lemma BuiltStill(ts: TableSet, st: St, t: St)
    requires Built(ts, st) && SameCodes(st, t)
    ensures Built(ts, t)
  {
    hide Tables;
  }

  /** Waiting for stored bytes means that there is room for them, unless nothing was done since waiting for them
      before. */
  ghost predicate Unfilled(sig: Signal, r0: Regs, r: Regs, t: St, cur0: nat, cur: nat, end: nat) {
    r.pc.P38? || (sig.NeedInput? && t.ctl.RawCopy?) ==> sig.NeedInput? && (cur < end || (r0.pc.P38? && cur0 == end))
  }

  /** A piece of code that starts or ends a stored block, reads a header or the trailer. */
  method AdvanceHeader(cfg: Cfg, inp: seq<byte>, inCur0: nat, r0: Regs, ghost e: Env, ghost st: St)
    returns (sig: Signal, inCur: nat, r: Regs, ghost t: St)
    requires cfg == e.cfg && inp == e.inp && Poised(e, inCur0, r0, st, false)
    requires r0.pc.P1? || r0.pc.P2? || r0.pc.P42? || r0.pc.P7? || r0.pc.P11?
        || (r0.pc.P51? && (r0.counter == 0 || r0.numBits > 0))
    ensures Outcome(e, inCur, sig, r, st, t) && SameCodes(st, t) && t.out == st.out && sig != Full
        && OffStore(sig, r, t)
  {
    hide Thrifty, Sound, InSync, Outcome, Reached;
    if r0.pc.P1? || r0.pc.P2? {
      sig, inCur, r, t := ZlibHeader(cfg, inp, inCur0, r0, e, st);
    } else if r0.pc.P42? {
      sig, inCur, r, t := ReadTrailer(inp, inCur0, r0, e, st);
    } else if r0.pc.P7? {
      sig, inCur, r, t := Inflater.RawHeader(inp, inCur0, r0, e, st);
    } else if r0.pc.P11? {
      sig, inCur, r, t := ReadSizes(inp, inCur0, r0, e, st);
    } else {
      sig, inCur, r, t := RawBuffered(cfg, inp, inCur0, r0, e, st);
    }
  }

  /** A piece of code that builds tables. */
  method AdvanceTables(ts: TableSet, inp: seq<byte>, inCur0: nat, r0: Regs, resume: bool, ghost e: Env, ghost st: St)
    returns (sig: Signal, inCur: nat, r: Regs, ghost t: St)
    requires inp == e.inp && Poised(e, inCur0, r0, st, resume) && Laid(ts) && Built(ts, st)
    requires r0.pc.P3? || r0.pc.P14? || r0.pc.P16? || r0.pc.P18?
    modifies ts.lookUp0, ts.tree0, ts.lookUp1, ts.tree1, ts.lookUp2, ts.tree2
    ensures Outcome(e, inCur, sig, r, st, t) && t.out == st.out && sig != Full && Built(ts, t) && OffStore(sig, r, t)
  {
    hide Thrifty, Sound, InSync, Outcome, Reached, Tables;
    if r0.pc.P3? {
      sig, inCur, r, t := ReadHead(ts, inp, inCur0, r0, e, st);
    } else if r0.pc.P14? {
      sig, inCur, r, t := ReadClSize(ts.lookUp2, ts.tree2, inp, inCur0, r0, e, st);
    } else if r0.pc.P16? {
      sig, inCur, r, t := ReadLens(ts, inp, inCur0, r0, resume, e, st);
    } else {
      sig, inCur, r, t := ReadRepeat(ts, inp, inCur0, r0, e, st);
    }
  }

  /** A piece of code of a coded block that writes nothing. */
  method AdvanceSymbol(cfg: Cfg, ts: TableSet, inp: seq<byte>, inCur0: nat, r0: Regs, resume: bool, ghost e: Env,
      ghost st: St)
    returns (sig: Signal, inCur: nat, r: Regs, ghost t: St)
    requires cfg == e.cfg && inp == e.inp && Poised(e, inCur0, r0, st, resume) && Laid(ts) && Built(ts, st)
    requires r0.pc.P23? || r0.pc.P25?
    ensures Outcome(e, inCur, sig, r, st, t) && t.out == st.out && SameCodes(st, t) && sig != Full
        && OffStore(sig, r, t)
  {
    hide Thrifty, Sound, InSync, Outcome, Reached, Tables;
    if r0.pc.P23? {
      sig, inCur, r, t := ReadLitLen(cfg, ts, inp, inCur0, r0, resume, e, st);
    } else {
      sig, inCur, r, t := ReadLenExtra(inp, inCur0, r0, e, st);
    }
  }

  /** A piece of code that may write. */
  method AdvanceOutput(cfg: Cfg, ts: TableSet, inp: seq<byte>, buf: array<byte>, inCur0: nat, cur0: nat, end: nat,
      r0: Regs, resume: bool, ghost e: Env, ghost st: St)
    returns (sig: Signal, inCur: nat, cur: nat, r: Regs, ghost t: St)
    requires cfg == e.cfg && inp == e.inp && Poised(e, inCur0, r0, st, resume) && Laid(ts) && Built(ts, st)
    requires r0.pc.P52? || r0.pc.P9? || r0.pc.P38? || r0.pc.P24? || r0.pc.P26? || r0.pc.P27? || r0.pc.P53?
             || (r0.pc.P51? && r0.counter > 0 && r0.numBits == 0)
                 || (r0.pc.P23? && !resume && inCur0 + 4 <= |inp| && cur0 + 2 <= end)
    requires Window.Holds(cfg, buf[..], cur0, end, st.out)
    modifies buf
    ensures Outcome(e, inCur, sig, r, st, t) && (sig == Full ==> cur == end) && SameCodes(st, t)
        && Unfilled(sig, r0, r, t, cur0, cur, end)
    ensures Window.Holds(cfg, buf[..], cur, end, t.out) && Wrote(old(buf[..]), buf[..], cur0, cur, st, t)
  {
    hide Thrifty, Sound, InSync, Outcome, Reached, Tables, Window.Holds, Wrote;
    inCur := inCur0;
    if r0.pc.P52? {
      sig, cur, r, t := RawPut(cfg, buf, inCur0, cur0, end, r0, e, st);
    } else if r0.pc.P24? {
      sig, cur, r, t := PutLiteral(cfg, buf, inCur0, cur0, end, r0, e, st);
    } else if r0.pc.P26? {
      sig, inCur, cur, r, t := ReadDist(cfg, ts, inp, buf, inCur0, cur0, end, r0, resume, e, st);
    } else if r0.pc.P27? {
      sig, inCur, cur, r, t := ReadDistExtra(cfg, inp, buf, inCur0, cur0, end, r0, e, st);
    } else if r0.pc.P53? {
      sig, cur, r, t := CopyResume(cfg, buf, inCur0, cur0, end, r0, e, st);
    } else if r0.pc.P23? {
      sig, inCur, cur, r, t := FastPair(cfg, ts, inp, buf, inCur0, cur0, end, r0, e, st);
    } else {
      sig, inCur, cur, r, t := RawCopyLoop(cfg, inp, buf, inCur0, cur0, end, r0, e, st);
    }
  }

  lemma AlreadyOver(e: Env, inCur: nat, r: Regs, st: St)
    requires Live(e, inCur, r, st) && Thrifty(e, inCur, r, st) && (r.pc.P34? || r.pc.PFail?)
    ensures Outcome(e, inCur, Over, r, st, st)
  {
    hide Clean, InSync, WellFormed, Reached;
    ReachedSelf(e, st);
  }

  /** One piece of code, from one label to the next. */
  method Advance(cfg: Cfg, ts: TableSet, inp: seq<byte>, buf: array<byte>, inCur0: nat, cur0: nat, end: nat, r0: Regs,
      resume: bool, ghost e: Env, ghost st: St)
    returns (sig: Signal, inCur: nat, cur: nat, r: Regs, ghost t: St)
    requires cfg == e.cfg && inp == e.inp && Poised(e, inCur0, r0, st, resume) && Laid(ts) && Built(ts, st)
    requires Window.Holds(cfg, buf[..], cur0, end, st.out)
    modifies buf, ts.lookUp0, ts.tree0, ts.lookUp1, ts.tree1, ts.lookUp2, ts.tree2
    ensures Outcome(e, inCur, sig, r, st, t) && (sig == Full ==> cur == end) && Built(ts, t)
        && Unfilled(sig, r0, r, t, cur0, cur, end)
    ensures Window.Holds(cfg, buf[..], cur, end, t.out) && Wrote(old(buf[..]), buf[..], cur0, cur, st, t)
  {
    hide Thrifty, Sound, InSync, Outcome, Reached, Tables, Window.Holds, Wrote, Matched, Built, Poised;
    cur := cur0;
    Window.HoldsPlaced(cfg, buf[..], cur, end, st.out);
    PoisedMatched(e, inCur0, r0, st, resume);
    if r0.pc.P34? || r0.pc.PFail? {
      AlreadyOver(e, inCur0, r0, st);
      sig, inCur, r, t := Over, inCur0, r0, st;
      WroteNone(buf[..], cur, st, t);
    } else if r0.pc.P3? || r0.pc.P14? || r0.pc.P16? || r0.pc.P18? {
      ghost var was := buf[..];
      sig, inCur, r, t := AdvanceTables(ts, inp, inCur0, r0, resume, e, st);
      assert buf[..] == was;
      WroteNone(was, cur, st, t);
    } else if r0.pc.P25? || (r0.pc.P23? && (resume || |inp| - inCur0 < 4 || end - cur < 2)) {
      sig, inCur, r, t := AdvanceSymbol(cfg, ts, inp, inCur0, r0, resume, e, st);
      BuiltStill(ts, st, t);
      WroteNone(buf[..], cur, st, t);
    } else if r0.pc.P1? || r0.pc.P2? || r0.pc.P42? || r0.pc.P7? || r0.pc.P11?
        || (r0.pc.P51? && (r0.counter == 0 || r0.numBits > 0)) {
      PoisedFresh(e, inCur0, r0, st, resume);
      sig, inCur, r, t := AdvanceHeader(cfg, inp, inCur0, r0, e, st);
      BuiltStill(ts, st, t);
      WroteNone(buf[..], cur, st, t);
    } else {
      sig, inCur, cur, r, t := AdvanceOutput(cfg, ts, inp, buf, inCur0, cur, end, r0, resume, e, st);
      BuiltStill(ts, st, t);
    }
  }

  lemma PoisedMatched(e: Env, inCur: nat, r: Regs, st: St, resume: bool)
    requires Poised(e, inCur, r, st, resume)
    ensures Live(e, inCur, r, st) && Thrifty(e, inCur, r, st) && !r.pc.P0?
  {
    hide Sound, InSync, Thrifty;
  }

  lemma PoisedFresh(e: Env, inCur: nat, r: Regs, st: St, resume: bool)
    requires Poised(e, inCur, r, st, resume) && !r.pc.P16? && !r.pc.P23? && !r.pc.P26?
    ensures Poised(e, inCur, r, st, false)
  {
    hide Sound, InSync, Thrifty;
  }

  // ----- between calls -----

  predicate Sized(r: Regs) {
    |r.rawHeader| == 4 && |r.sizes| == 3 && |r.clSizes| == 19 && |r.lenCodes| == LEN_CODES
  }

  /** What is saved when a call returns on a stream that is valid as far as it goes: together with the bytes seen
      it determines the reference decoder's state, and at most the bits of one byte are held back unless the next item
      lacks input. */
  ghost predicate Suspended(cfg: Cfg, seen: seq<byte>, r: Regs, st: St) {
    && WellFormed(st) && Matched(cfg, r, st) && !r.pc.P51? && InSync(seen, |seen|, [], 0, st.pos, r.numBits, r.bitBuf)
    && (r.numBits < 8 || Starved(cfg, ByteBits(seen), st)) && (AtSym(st.ctl) ==> Starved(cfg, ByteBits(seen), st))
    && Leads(cfg, ByteBits(seen), Init(cfg), st) && !st.ctl.Invalid?
  }

  /** What is saved in any case: some possible state in step with the bytes seen. */
  ghost predicate Kept(cfg: Cfg, seen: seq<byte>, r: Regs, st: St, sure: bool) {
    && WellFormed(st) && Matched(cfg, r, st) && !r.pc.P51? && InSync(seen, |seen|, [], 0, st.pos, r.numBits, r.bitBuf)
    && (AtSym(st.ctl) ==> r.numBits < 15) && (sure ==> Suspended(cfg, seen, r, st))
  }

  ghost predicate Saved(cfg: Cfg, seen: seq<byte>, r: Regs, st: St, sure: bool) {
    Sized(r) && if r.pc.P0? then seen == [] && st == Init(cfg) && r.numBits == 0 else Kept(cfg, seen, r, st, sure)
  }

  /** The stream is valid as far as it goes, from its start. */
  ghost predicate CleanAll(cfg: Cfg, x: seq<byte>) {
    WellFormed(Init(cfg)) && Clean(cfg, ByteBits(x), Init(cfg))
  }

  ghost function CallEnv(cfg: Cfg, seen: seq<byte>, inp: seq<byte>, sure: bool, numBits: nat): Env {
    Env(cfg, seen + inp, |seen|, inp, sure && CleanAll(cfg, seen + inp), numBits >= 8)
  }

  /** New input leaves the saved state as it was. */
  lemma Enter(cfg: Cfg, seen: seq<byte>, inp: seq<byte>, r: Regs, st: St, sure: bool)
    requires Kept(cfg, seen, r, st, sure)
    ensures var e := CallEnv(cfg, seen, inp, sure, r.numBits);
            Poised(e, 0, r, st, AtSym(st.ctl))
                && (e.clean ==> WellFormed(Init(cfg)) && Leads(cfg, ByteBits(seen + inp), Init(cfg), st))
  {
    hide Matched, Leads, Starved, Clean, ToBits, WellFormed, ByteBits, CleanAll, InSync;
    var e := CallEnv(cfg, seen, inp, sure, r.numBits);
    SyncMore(seen, inp, st.pos, r.numBits, r.bitBuf);
    if e.clean {
      EnterClean(cfg, seen, inp, r, st);
      assert Stream(e) == ByteBits(seen + inp);
      assert Read(e, r, st.pos) == ByteBits(seen);
    }
  }

  lemma EnterClean(cfg: Cfg, seen: seq<byte>, inp: seq<byte>, r: Regs, st: St)
    requires Suspended(cfg, seen, r, st) && CleanAll(cfg, seen + inp)
    ensures WellFormed(st) && WellFormed(Init(cfg)) && Clean(cfg, ByteBits(seen + inp), st)
        && Leads(cfg, ByteBits(seen + inp), Init(cfg), st)
    ensures st.pos + r.numBits == |ByteBits(seen)| && ByteBits(seen + inp)[..st.pos + r.numBits] == ByteBits(seen)
  {
    hide Matched, Leads, Starved, ToBits, WellFormed, ByteBits, Clean;
    ByteBitsConcat(seen, inp);
    LeadsMono(cfg, ByteBits(seen), ByteBits(seen + inp), Init(cfg), st);
    CleanLater(cfg, ByteBits(seen + inp), Init(cfg), st);
  }

  lemma SyncMore(seen: seq<byte>, inp: seq<byte>, pos: nat, numBits: nat, bitBuf: nat)
    requires InSync(seen, |seen|, [], 0, pos, numBits, bitBuf)
    ensures InSync(seen + inp, |seen|, inp, 0, pos, numBits, bitBuf) && pos + numBits == 8 * |seen|
  {
    hide ToBits, ByteBits;
    ByteBitsConcat(seen, inp);
    assert (seen + inp)[|seen|..] == inp;
    assert ByteBits(seen + inp)[pos..pos + numBits] == ByteBits(seen)[pos..pos + numBits];
  }

  lemma SyncLess(e: Env, inCur: nat, r: Regs, pos: nat)
    requires Synced(e, inCur, r, pos)
    ensures var seen := e.all[..e.base + inCur];
            InSync(seen, |seen|, [], 0, pos, r.numBits, r.bitBuf) && ByteBits(seen) == Read(e, r, pos)
                && ByteBits(seen) <= Stream(e)
  {
    hide ToBits, ByteBits;
    var k := e.base + inCur;
    var seen := e.all[..k];
    assert e.all == seen + e.all[k..];
    ByteBitsConcat(seen, e.all[k..]);
    assert seen[|seen|..] == [];
    assert ByteBits(seen)[pos..pos + r.numBits] == Stream(e)[pos..pos + r.numBits];
  }

  /** The bytes read by this call join those seen before. */
  lemma Leave(e: Env, inCur: nat, r: Regs, st: St)
    requires Live(e, inCur, r, st) && !r.pc.P51? && (AtSym(st.ctl) ==> r.numBits < 15)
    requires e.clean ==> OnTrack(e, r, st)
    ensures Kept(e.cfg, e.all[..e.base + inCur], r, st, e.clean)
  {
    hide Matched, Leads, Starved, InSync, ByteBits, WellFormed, Clean;
    SyncedFacts(e, inCur, r, st.pos);
    SyncLess(e, inCur, r, st.pos);
    if e.clean {
      NotInvalid(e, st);
      InitWell(e.cfg);
      LeadsLocal(e.cfg, Stream(e), Read(e, r, st.pos), Init(e.cfg), st);
    }
  }

  /** On the run, with little held back unless the next item lacks input. */
  ghost predicate OnTrack(e: Env, r: Regs, st: St)
    requires st.pos + r.numBits <= |Stream(e)| && WellFormed(st)
  {
    && WellFormed(Init(e.cfg)) && Leads(e.cfg, Stream(e), Init(e.cfg), st)
    && (r.numBits < 8 || Starved(e.cfg, Read(e, r, st.pos), st))
    && (AtSym(st.ctl) ==> Starved(e.cfg, Read(e, r, st.pos), st))
  }

  lemma NotInvalid(e: Env, st: St)
    requires Sound(e, st) && e.clean
    ensures !st.ctl.Invalid?
  {
    hide Leads;
    LeadsSelf(e.cfg, Stream(e), st);
  }

  lemma InitWell(cfg: Cfg)
    ensures WellFormed(Init(cfg))
  {
  }

  // ----- one call -----

  lemma BitsBound(e: Env, inCur: nat, r: Regs, st: St)
    requires Live(e, inCur, r, st)
    ensures st.pos <= |Stream(e)|
  {
    hide Matched, Sound, InSync;
    SyncedFacts(e, inCur, r, st.pos);
  }

  /** After a piece of code the next one may start. */
  lemma GoOn(e: Env, inCur: nat, r: Regs, st0: St, st: St, t: St)
    requires Reached(e, st0, st) && Outcome(e, inCur, Go, r, st, t)
    ensures Poised(e, inCur, r, t, false) && Reached(e, st0, t) && st.pos <= t.pos && |st.out| <= |t.out|
        && Progress(st, t)
  {
    hide Leads, WellFormed, Clean, Starved, Rank, Matched, InSync;
    ReachedTrans(e, st0, st, t);
  }

  /** How a call stops: the reason, and the bookkeeping that goes with it. */
  ghost predicate Stopped(e: Env, inCur: nat, sig: Signal, r: Regs, st: St) {
    && Live(e, inCur, r, st)
    && match sig
       case NeedInput => Hungry(e, inCur, st) && !r.pc.P51? && (AtSym(st.ctl) ==> r.numBits < 15)
       case Full => MayEmit(e, st.ctl) && !r.pc.P51? && Lean(e, r.numBits, inCur)
       case Over => Halted(st.ctl) && Lean(e, r.numBits, inCur)
       case _ => false
  }

  lemma StopsWith(e: Env, inCur: nat, sig: Signal, r: Regs, st0: St, st: St, t: St)
    requires Reached(e, st0, st) && Outcome(e, inCur, sig, r, st, t) && sig != Go
    ensures (if sig.Broken? then e.owed && !e.clean else Stopped(e, inCur, sig, r, t)) && Reached(e, st0, t)
  {
    hide Live, Leads, WellFormed, Clean, Hungry, Lean, MayEmit;
    ReachedTrans(e, st0, st, t);
  }

  /** The body of a call: pieces of code until one of them returns. */
  method RunCall(cfg: Cfg, ts: TableSet, inp: seq<byte>, buf: array<byte>, outNext: nat, end: nat, r0: Regs,
      resume0: bool, ghost e: Env, ghost st0: St)
    returns (sig: Signal, inCur: nat, cur: nat, r: Regs, ghost t: St)
    requires cfg == e.cfg && inp == e.inp && Poised(e, 0, r0, st0, resume0) && Laid(ts) && Built(ts, st0)
    requires Window.Holds(cfg, buf[..], outNext, end, st0.out)
    modifies buf, ts.lookUp0, ts.tree0, ts.lookUp1, ts.tree1, ts.lookUp2, ts.tree2
    ensures if sig.Broken? then e.owed && !e.clean else Stopped(e, inCur, sig, r, t)
    ensures Reached(e, st0, t) && (sig == Full ==> cur == end) && Built(ts, t)
    ensures Unfilled(sig, r0, r, t, outNext, cur, end)
    ensures Window.Holds(cfg, buf[..], cur, end, t.out) && Wrote(old(buf[..]), buf[..], outNext, cur, st0, t)
  {
    hide Sound, InSync, Outcome, Reached, Built, Window.Holds, Wrote, Stopped, Thrifty, Matched, Starved, Rank, Lean;
    inCur, cur, r, t := 0, outNext, r0, st0;
    var resume := resume0;
    Window.HoldsPlaced(cfg, buf[..], cur, end, t.out);
    ReachedSelf(e, t);
    WroteNone(buf[..], cur, st0, t);
    BitsBound(e, inCur, r, t);
    while true
      invariant Poised(e, inCur, r, t, resume) && Reached(e, st0, t) && Built(ts, t) && t.pos <= |Stream(e)|
      invariant r.pc.P38? ==> r == r0 && cur == outNext
      invariant Window.Holds(cfg, buf[..], cur, end, t.out) && Wrote(old(buf[..]), buf[..], outNext, cur, st0, t)
      decreases |Stream(e)| - t.pos, Room(end, cur), Rank(t)
    {
      ghost var st, was, cur1 := t, buf[..], cur;
      sig, inCur, cur, r, t := Advance(cfg, ts, inp, buf, inCur, cur, end, r, resume, e, st);
      WroteTrans(old(buf[..]), was, buf[..], outNext, cur1, cur, st0, st, t);
      WroteMore(was, buf[..], cur1, cur, st, t);
      if sig != Go {
        StopsWith(e, inCur, sig, r, st0, st, t);
        return;
      }
      resume := false;
      GoOn(e, inCur, r, st0, st, t);
      BitsBound(e, inCur, r, t);
      Window.HoldsPlaced(cfg, buf[..], cur, end, t.out);
    }
  }

  lemma WroteMore(a: seq<byte>, b: seq<byte>, x: nat, y: nat, st: St, t: St)
    requires Wrote(a, b, x, y, st, t)
    ensures x <= y && |t.out| == |st.out| + (y - x)
  {
  }

  lemma WrittenAt(cfg: Cfg, size: nat, outNext: nat, cur: nat, end: nat, n: nat, k: nat)
    requires Window.Placed(cfg, size, outNext, end, n) && k < cur - outNext && cur <= end
    ensures Window.Slot(cfg, n + k) == outNext + k
  {
    if !cfg.nonWrapping {
      Window.ModAdd(n, k, cfg.window);
    }
  }

  /** The bytes written by a call are the output's last. */
  lemma WrittenOut(cfg: Cfg, was: seq<byte>, buf: seq<byte>, outNext: nat, cur: nat, end: nat, out0: seq<byte>,
      out: seq<byte>)
    requires Window.Holds(cfg, was, outNext, end, out0) && Window.Holds(cfg, buf, cur, end, out)
    requires out0 <= out && outNext <= cur && |out| == |out0| + (cur - outNext)
    ensures cur <= |buf| && out == out0 + buf[outNext..cur]
  {
    hide Window.Placed, Window.Slot;
    Window.HoldsPlaced(cfg, buf, cur, end, out);
    forall i | |out0| <= i < |out| ensures out[i] == buf[outNext..cur][i - |out0|] {
      WrittenAt(cfg, |was|, outNext, cur, end, |out0|, i - |out0|);
    }
  }

  /** common_exit: unless input is missing, give back what was looked ahead of. */
  method Exit(inp: seq<byte>, inCur0: nat, sig: Signal, r0: Regs, ghost e: Env, ghost st: St)
      returns (inCur: nat, r: Regs)
    requires inp == e.inp && Stopped(e, inCur0, sig, r0, st)
    requires e.clean ==> WellFormed(Init(e.cfg)) && Leads(e.cfg, Stream(e), Init(e.cfg), st)
    ensures inCur <= |inp| && e.base + inCur <= |e.all| && Kept(e.cfg, e.all[..e.base + inCur], r, st, e.clean)
    ensures sig.NeedInput? ==> inCur == |inp|
    ensures !e.owed && !sig.NeedInput? ==> r.numBits < 8
    ensures r == r0.(numBits := r.numBits, bitBuf := r.bitBuf)
  {
    hide Matched, Leads, Starved, InSync, ByteBits, WellFormed, Clean, Low, Kept, OnTrack, MayEmit;
    SyncedFacts(e, inCur0, r0, st.pos);
    inCur, r := inCur0, r0;
    if !sig.NeedInput? {
      var numBits, bitBuf;
      inCur, numBits, bitBuf := PutBack(inCur, r.numBits, r.bitBuf, inp, e.all, e.base, st.pos);
      r := r.(numBits := numBits, bitBuf := bitBuf);
    } else {
      r := r.(bitBuf := Low(r.bitBuf, r.numBits));
      MaskSync(e, inCur, r0, st.pos);
    }
    SyncedFacts(e, inCur, r, st.pos);
    FewerBits(e.cfg, r0, r, st);
    ReasonNoSym(e, inCur0, sig, r0, st);
    if e.clean {
      StaysOnTrack(e, inCur0, inCur, sig, r0, r, st);
    }
    Leave(e, inCur, r, st);
  }

  lemma StaysOnTrack(e: Env, inCur0: nat, inCur: nat, sig: Signal, r0: Regs, r: Regs, st: St)
    requires Stopped(e, inCur0, sig, r0, st) && e.clean && WellFormed(Init(e.cfg))
        && Leads(e.cfg, Stream(e), Init(e.cfg), st)
    requires Synced(e, inCur, r, st.pos) && if sig.NeedInput? then inCur == |e.inp| && r.numBits == r0.numBits
        else r.numBits < 8 && !AtSym(st.ctl)
    ensures st.pos + r.numBits <= |Stream(e)| && WellFormed(st) && OnTrack(e, r, st)
  {
    hide Matched, Leads, Starved, InSync, WellFormed, Clean, MayEmit;
    SyncedFacts(e, inCur, r, st.pos);
  }

  lemma MaskSync(e: Env, inCur: nat, r: Regs, pos: nat)
    requires Synced(e, inCur, r, pos)
    ensures Synced(e, inCur, r.(bitBuf := Low(r.bitBuf, r.numBits)), pos)
  {
    hide ByteBits, ToBits, Low;
    MaskBits(e.all, e.base, e.inp, inCur, pos, r.numBits, r.bitBuf, r.numBits);
  }

  lemma FewerBits(cfg: Cfg, r0: Regs, r: Regs, st: St)
    requires Matched(cfg, r0, st) && r == r0.(numBits := r.numBits, bitBuf := r.bitBuf) && r.numBits <= r0.numBits
    ensures Matched(cfg, r, st)
  {
  }

  /** A call never stops at the head of the stored-byte loop, nor at a symbol except for want of input. */
  lemma ReasonNoSym(e: Env, inCur: nat, sig: Signal, r: Regs, st: St)
    requires Stopped(e, inCur, sig, r, st)
    ensures !r.pc.P51? && (!sig.NeedInput? ==> !AtSym(st.ctl))
  {
    hide Sound, InSync, Starved;
  }

  /** The status of a call says where the reference decoder stands. */
  ghost predicate Ended(status: Status, cfg: Cfg, hasMore: bool, seen: seq<byte>, st: St, full: bool) {
    match status
    case BadParam => false
    case NeedsMoreInput => hasMore && WellFormed(st) && Starved(cfg, ByteBits(seen), st)
    case CannotProgress => !hasMore && WellFormed(st) && Starved(cfg, ByteBits(seen), st)
    case HasMoreOutput => full && Emits(st.ctl)
    case StatusDone => st.ctl.Done? && st.pos == 8 * |seen|
    case AdlerMismatch => cfg.zlib && st.ctl.Done? && st.pos == 8 * |seen|
    case StatusFailed => st.ctl.Failed?
    case Asserted => false
  }

  /** The status before the checksum is compared. */
  function StatusOf(sig: Signal, pc: Pc, hasMore: bool): Status {
    match sig
    case NeedInput => if hasMore then NeedsMoreInput else CannotProgress
    case Full => HasMoreOutput
    case Broken => Asserted
    case _ => if pc.P34? then StatusDone else StatusFailed
  }

  predicate Positive(s: Status) {
    s.StatusDone? || s.NeedsMoreInput? || s.HasMoreOutput?
  }

  lemma EndedAs(cfg: Cfg, hasMore: bool, e: Env, inCur0: nat, inCur: nat, sig: Signal, r0: Regs, r: Regs, st: St,
      full: bool)
    requires cfg == e.cfg && Stopped(e, inCur0, sig, r0, st) && r == r0.(numBits := r.numBits, bitBuf := r.bitBuf)
    requires e.base + inCur <= |e.all| && Kept(cfg, e.all[..e.base + inCur], r, st, e.clean)
        && (sig.NeedInput? ==> inCur == |e.inp|)
    requires |e.all| == e.base + |e.inp| && (sig == Full ==> full)
    ensures e.clean ==> Ended(StatusOf(sig, r.pc, hasMore), cfg, hasMore, e.all[..e.base + inCur], st, full)
    ensures sig != Go && sig != Broken && (st.ctl.Done? <==> sig == Over && r.pc.P34?)
    ensures st.ctl.Done? ==> st.ctl.sum == r.zAdler
  {
    hide Step, WellFormed, Sound, Buffered, Leads;
    if sig.NeedInput? {
      assert e.all[..e.base + inCur] == e.all;
    }
  }

  /** Start or resume: the local copies of the saved fields. */
  method Begin(cfg: Cfg, inp: seq<byte>, saved: Regs, ghost seen: seq<byte>, ghost st: St, ghost sure: bool,
      ghost e: Env) returns (r: Regs, resume: bool)
    requires Saved(cfg, seen, saved, st, sure) && e == CallEnv(cfg, seen, inp, sure, saved.numBits)
    ensures Poised(e, 0, r, st, resume) && (r.pc.P38? ==> saved.pc.P38?)
    ensures e.clean ==> WellFormed(Init(cfg)) && Leads(cfg, ByteBits(seen + inp), Init(cfg), st)
  {
    hide WellFormed, Clean, Matched, Leads, InSync, ByteBits, Starved, Kept;
    if saved.pc.P0? {
      InitWell(cfg);
      assert e.all == inp;
      r := Start(cfg, inp, saved, e);
      resume := false;
      LeadsSelf(cfg, ByteBits(seen + inp), st);
    } else {
      Enter(cfg, seen, inp, saved, st, sure);
      r, resume := saved, saved.pc.P16? || saved.pc.P23? || saved.pc.P26?;
      KeptMatched(cfg, seen, r, st, sure);
      SymPc(cfg, r, st);
    }
  }

  lemma KeptMatched(cfg: Cfg, seen: seq<byte>, r: Regs, st: St, sure: bool)
    requires Kept(cfg, seen, r, st, sure)
    ensures Matched(cfg, r, st) && WellFormed(st)
  {
    hide Matched, Suspended, InSync, WellFormed;
  }

  /** The resumption points within symbols. */
  lemma SymPc(cfg: Cfg, r: Regs, st: St)
    requires Matched(cfg, r, st)
    ensures AtSym(st.ctl) <==> r.pc.P16? || r.pc.P23? || r.pc.P26?
  {
  }

  /** Wrapping buffers must have a power-of-two size: size & (size - 1) must be zero. */
  predicate PowerOfTwo(n: nat) {
    n <= 1 || (n % 2 == 0 && PowerOfTwo(n / 2))
  }

  ghost predicate Bit(n: nat, i: nat) {
    if i == 0 then n % 2 == 1 else Bit(n / 2, i - 1)
  }

  lemma {:induction false} SomeBit(n: nat)
    requires n > 0
    ensures exists i: nat :: Bit(n, i)
  {
    if n % 2 == 1 {
      assert Bit(n, 0);
    } else {
      SomeBit(n / 2);
      var i: nat :| Bit(n / 2, i);
      assert Bit(n, i + 1);
    }
  }

  /** What the source tests: that no bit is set in both. */
  ghost predicate Disjoint(n: nat, m: nat) {
    forall i: nat :: !(Bit(n, i) && Bit(m, i))
  }

  lemma {:induction false} DisjointHalves(n: nat, m: nat)
    ensures Disjoint(n, m) <==> !(n % 2 == 1 && m % 2 == 1) && Disjoint(n / 2, m / 2)
  {
    if Disjoint(n, m) {
      assert !(Bit(n, 0) && Bit(m, 0));
      forall i: nat ensures !(Bit(n / 2, i) && Bit(m / 2, i)) { assert !(Bit(n, i + 1) && Bit(m, i + 1)); }
    } else {
      var i: nat :| Bit(n, i) && Bit(m, i);
      if i > 0 {
        assert Bit(n / 2, i - 1) && Bit(m / 2, i - 1);
      }
    }
  }

  /** The sizes accepted are the powers of two, because no other number shares no bit with the one below it. */
  lemma {:induction false} AcceptedSizes(n: nat)
    requires n > 0
    ensures PowerOfTwo(n) <==> exists k: nat :: n == Pow2(k)
    ensures PowerOfTwo(n) <==> Disjoint(n, n - 1)
  {
    DisjointHalves(n, n - 1);
    if n == 1 {
      IsPower(n, 0);
      NoBits();
    } else {
      AcceptedSizes(n / 2);
      Doubled(n);
      if n % 2 == 1 {
        SomeBit(n / 2);
        assert (n - 1) / 2 == n / 2 && !Disjoint(n / 2, n / 2);
      } else {
        assert (n - 1) / 2 == n / 2 - 1;
      }
    }
  }

  lemma IsPower(n: nat, k: nat)
    requires n == Pow2(k)
    ensures exists j: nat :: n == Pow2(j)
  {
  }

  lemma Doubled(n: nat)
    requires n > 1
    ensures (exists k: nat :: n == Pow2(k)) <==> n % 2 == 0 && exists k: nat :: n / 2 == Pow2(k)
  {
    if k: nat :| n == Pow2(k) {
      assert n == 2 * Pow2(k - 1);
      assert n / 2 == Pow2(k - 1);
    }
    if k: nat :| n / 2 == Pow2(k) && n % 2 == 0 {
      assert n == Pow2(k + 1);
    }
  }

  lemma NoBits()
    ensures forall i: nat :: !Bit(0, i)
  {
    forall i: nat ensures !Bit(0, i) { NoBit(i); }
  }

  lemma {:induction false} NoBit(i: nat)
    ensures !Bit(0, i)
  {
    if i > 0 {
      NoBit(i - 1);
    }
  }

  /** The flags that must stay the same; the window of a wrapping buffer is the whole buffer. */
  function CfgOf(zlib: bool, nonWrapping: bool, size: nat): Cfg {
    Cfg(zlib, nonWrapping, if nonWrapping then 0 else size)
  }

  lemma AfterRun(e: Env, was: seq<byte>, now: seq<byte>, outNext: nat, cur: nat, end: nat, st: St, t: St)
    requires Reached(e, st, t) && Window.Holds(e.cfg, was, outNext, end, st.out)
        && Window.Holds(e.cfg, now, cur, end, t.out)
    requires Wrote(was, now, outNext, cur, st, t)
    ensures outNext <= cur <= end <= |now| && t.out == st.out + now[outNext..cur]
    ensures now[..outNext] == was[..outNext] && now[cur..] == was[cur..]
  {
    hide Window.Holds, Leads, ByteBits, Clean, WellFormed;
    Window.HoldsPlaced(e.cfg, now, cur, end, t.out);
    WrittenOut(e.cfg, was, now, outNext, cur, end, st.out, t.out);
  }

  lemma StillOn(e: Env, st: St, t: St)
    requires Reached(e, st, t) && e.clean && WellFormed(Init(e.cfg)) && Leads(e.cfg, Stream(e), Init(e.cfg), st)
    ensures Leads(e.cfg, Stream(e), Init(e.cfg), t)
  {
    hide Leads, ByteBits, Clean, WellFormed;
    LeadsTrans(e.cfg, Stream(e), Init(e.cfg), st, t);
  }

  lemma AfterExit(cfg: Cfg, e: Env, seen: seq<byte>, inp: seq<byte>, inCur: nat, r: Regs, st: St, t: St, sure: bool,
      numBits: nat)
    requires e == CallEnv(cfg, seen, inp, sure, numBits) && inCur <= |inp|
        && Kept(cfg, e.all[..e.base + inCur], r, t, e.clean) && Reached(e, st, t)
    ensures e.all[..e.base + inCur] == seen + inp[..inCur] && Saved(cfg, seen + inp[..inCur], r, t, e.clean)
        && !r.pc.P0?
    ensures WellFormed(st) && (e.clean ==> Leads(cfg, ByteBits(seen + inp), st, t))
  {
    hide InSync, Leads, ByteBits, WellFormed, Suspended, CleanAll;
    assert e.all[..e.base + inCur] == seen + inp[..inCur];
  }

  /** Whether a call's output enters the checksum: not if it ends badly, nor if no flag asks for the sum. */
  predicate Counts(status: Status, zlib: bool, compute: bool) {
    (zlib || compute) && (Positive(status) || status.AdlerMismatch?)
  }

  /** The bytes summed, out of all the bytes written: skipped many are missing. */
  ghost predicate Tally(counted: seq<byte>, skipped: nat, out: seq<byte>) {
    |counted| + skipped == |out| && (skipped == 0 ==> counted == out)
  }

  lemma TallyNext(counted: seq<byte>, skipped: nat, out: seq<byte>, written: seq<byte>, counts: bool)
    requires Tally(counted, skipped, out)
    ensures Tally(counted + (if counts then written else []), skipped + (if counts then 0 else |written|),
        out + written)
  {
    assert counted + [] == counted && out + [] == out;
  }

  /** The checksum over the bytes written, and its comparison with the stream's. */
  method FinishSum(status0: Status, check0: nat, written: seq<byte>, zAdler: nat, zlib: bool, compute: bool,
      ghost counted: seq<byte>)
    returns (status: Status, check: nat)
    requires check0 == Adler.Checksum(counted) < 0x1_0000_0000 && status0 != AdlerMismatch
    ensures check == Adler.Checksum(counted + (if Counts(status, zlib, compute) then written else [])) < 0x1_0000_0000
    ensures status == if status0 == StatusDone && zlib && check != zAdler then AdlerMismatch else status0
  {
    hide Adler.Adler32;
    status, check := status0, check0;
    assert counted + [] == counted;
    if (zlib || compute) && Positive(status) {
      check := Adler.ComputeAdler32(check, written);
      Adler.AdlerConcat(1, counted, written);
      if status == StatusDone && zlib && check != zAdler {
        status := AdlerMismatch;
      }
    }
  }

  lemma Mismatched(cfg: Cfg, hasMore: bool, seen: seq<byte>, st: St, full: bool)
    ensures cfg.zlib && Ended(StatusDone, cfg, hasMore, seen, st, full) ==>
        Ended(AdlerMismatch, cfg, hasMore, seen, st, full)
  {
  }

  /** A call up to its exit: the new saved fields, and how far the input and the output went. */
  method Call(cfg: Cfg, ts: TableSet, inp: seq<byte>, buf: array<byte>, outNext: nat, end: nat, saved: Regs,
      hasMore: bool,
              ghost seen: seq<byte>, ghost st: St, ghost sure: bool)
    returns (sig: Signal, inCur: nat, cur: nat, r: Regs, ghost t: St)
    requires Laid(ts) && Saved(cfg, seen, saved, st, sure) && (!saved.pc.P0? ==> Built(ts, st))
    requires Window.Holds(cfg, buf[..], outNext, end, st.out)
    modifies buf, ts.lookUp0, ts.tree0, ts.lookUp1, ts.tree1, ts.lookUp2, ts.tree2
    ensures inCur <= |inp| && outNext <= cur <= end <= buf.Length && sig != Go
    ensures t.out == st.out + buf[outNext..cur] && Window.Holds(cfg, buf[..], cur, end, t.out)
    ensures buf[..outNext] == old(buf[..outNext]) && buf[cur..] == old(buf[cur..])
    ensures var sure' := sure && CleanAll(cfg, seen + inp);
            if sig.Broken? then saved.numBits >= 8 && !sure'
            else
              && Went(cfg, seen, inp, inCur, r, st, t, sure', StatusOf(sig, r.pc, hasMore), hasMore, cur == end)
              && Built(ts, t)
    ensures sig.NeedInput? ==> inCur == |inp|
    ensures !sig.Broken? ==> Unfilled(sig, saved, r, t, outNext, cur, end)
    ensures saved.numBits < 8 && !sig.NeedInput? ==> r.numBits < 8
    ensures sig == Full ==> cur == end
  {
    hide Saved, Leads, ByteBits, Window.Holds, Wrote, Built, Poised, WellFormed, Clean, Stopped, Reached, Ended, Kept,
        CleanAll;
    ghost var e := CallEnv(cfg, seen, inp, sure, saved.numBits);
    ghost var was := buf[..];
    var resume;
    r, resume := Begin(cfg, inp, saved, seen, st, sure, e);
    NewTables(ts, st, saved, cfg, seen, sure);
    sig, inCur, cur, r, t := RunCall(cfg, ts, inp, buf, outNext, end, r, resume, e, st);
    AfterRun(e, was, buf[..], outNext, cur, end, st, t);
    if sig.Broken? {
      inCur, r := |inp|, r.(numBits := 0);
      return;
    }
    if e.clean {
      StillOn(e, st, t);
    }
    ghost var r1, inCur1 := r, inCur;
    inCur, r := Exit(inp, inCur, sig, r, e, t);
    EndedAs(cfg, hasMore, e, inCur1, inCur, sig, r1, r, t, cur == end);
    AfterExit(cfg, e, seen, inp, inCur, r, st, t, sure, saved.numBits);
  }

  lemma NewTables(ts: TableSet, st: St, saved: Regs, cfg: Cfg, seen: seq<byte>, sure: bool)
    requires Saved(cfg, seen, saved, st, sure) && (!saved.pc.P0? ==> Built(ts, st))
    ensures Built(ts, st)
  {
    hide Kept;
  }

  /** Where a call went: the fields saved; if the stream is valid as far as it goes, on the reference decoder's run. */
  ghost predicate Went(cfg: Cfg, seen: seq<byte>, inp: seq<byte>, inCur: nat, r: Regs, st: St, t: St, sure: bool,
      status: Status, hasMore: bool, full: bool)
    requires inCur <= |inp|
  {
    && Saved(cfg, seen + inp[..inCur], r, t, sure) && !r.pc.P0? && WellFormed(st)
    && (t.ctl.Done? <==> status == StatusDone) && (t.ctl.Done? ==> t.ctl.sum == r.zAdler)
    && (sure ==> Leads(cfg, ByteBits(seen + inp), st, t) && Ended(status, cfg, hasMore, seen + inp[..inCur], t, full))
  }

  /** Before the first call nothing has been summed. */
  lemma FreshSum(cfg: Cfg, seen: seq<byte>, saved: Regs, st: St, counted: seq<byte>, skipped: nat, sure: bool)
    requires Saved(cfg, seen, saved, st, sure) && Tally(counted, skipped, st.out)
    ensures saved.pc.P0? ==> Adler.Checksum(counted) == 1
  {
    hide Kept;
  }

  /** A call with its checksum: what it returns, and the fields to save. */
  method Serve(cfg: Cfg, ts: TableSet, inp: seq<byte>, buf: array<byte>, outNext: nat, outSize: nat, saved: Regs,
      checkAdler: nat, hasMore: bool, compute: bool,
               ghost seen: seq<byte>, ghost st: St, ghost sure: bool, ghost counted: seq<byte>, ghost skipped: nat)
    returns (status: Status, inUsed: nat, outUsed: nat, r: Regs, check: nat, ghost t: St)
    requires Laid(ts) && Saved(cfg, seen, saved, st, sure)
    requires !saved.pc.P0? ==> Built(ts, st) && checkAdler == Adler.Checksum(counted) < 0x1_0000_0000
    requires Window.Holds(cfg, buf[..], outNext, outNext + outSize, st.out) && Tally(counted, skipped, st.out)
    modifies buf, ts.lookUp0, ts.tree0, ts.lookUp1, ts.tree1, ts.lookUp2, ts.tree2
    ensures inUsed <= |inp| && outUsed <= outSize && outNext + outSize <= buf.Length && status != BadParam
    ensures t.out == st.out + buf[outNext..outNext + outUsed]
        && Window.Holds(cfg, buf[..], outNext + outUsed, outNext + outSize, t.out)
    ensures buf[..outNext] == old(buf[..outNext]) && buf[outNext + outUsed..] == old(buf[outNext + outUsed..])
    ensures var sure' := sure && CleanAll(cfg, seen + inp);
            if status == Asserted then saved.numBits >= 8 && !sure'
            else Result(cfg, seen, inp, inUsed, r, st, t, sure', status, hasMore, outUsed == outSize) && Built(ts, t)
    ensures status == NeedsMoreInput || status == CannotProgress ==> inUsed == |inp|
    ensures status == HasMoreOutput ==> outUsed == outSize && (saved.numBits < 8 ==> r.numBits < 8)
    ensures status != Asserted && (r.pc.P38? || (status in {NeedsMoreInput, CannotProgress} && t.ctl.RawCopy?)) ==>
              outUsed < outSize || (saved.pc.P38? && outSize == 0)
    ensures var counts := Counts(status, cfg.zlib, compute);
            var now := counted + (if counts then buf[outNext..outNext + outUsed] else []);
            && Tally(now, skipped + (if counts then 0 else outUsed), t.out)
            && (status != Asserted ==> check == Adler.Checksum(now) < 0x1_0000_0000)
            && (status != Asserted && cfg.zlib && t.ctl.Done? ==>
               (status == StatusDone <==> t.ctl.sum == Adler.Checksum(now)))
  {
    hide Saved, Leads, ByteBits, Window.Holds, Built, WellFormed, Clean, Ended, Adler.Checksum, Laid, Tables, Counts,
        Tally, CleanAll;
    FreshSum(cfg, seen, saved, st, counted, skipped, sure);
    var sig, inCur, cur;
    sig, inCur, cur, r, t := Call(cfg, ts, inp, buf, outNext, outNext + outSize, saved, hasMore, seen, st, sure);
    inUsed, outUsed := inCur, cur - outNext;
    assert outNext + outUsed == cur;
    ghost var status0 := StatusOf(sig, r.pc, hasMore);
    status, check := FinishSum(StatusOf(sig, r.pc, hasMore), if saved.pc.P0? then 1 else checkAdler, buf[outNext..cur],
        r.zAdler, cfg.zlib, compute, counted);
    Mismatched(cfg, hasMore, seen + inp[..inUsed], t, outUsed == outSize);
    TallyNext(counted, skipped, st.out, buf[outNext..cur], Counts(status, cfg.zlib, compute));
  }

  /** What a call leaves behind, with the status it returns: of a finished zlib stream, the verdict on its checksum. */
  ghost predicate Result(cfg: Cfg, seen: seq<byte>, inp: seq<byte>, inUsed: nat, r: Regs, st: St, t: St, sure: bool,
      status: Status, hasMore: bool, full: bool)
    requires inUsed <= |inp|
  {
    && Saved(cfg, seen + inp[..inUsed], r, t, sure) && !r.pc.P0? && WellFormed(st)
    && (t.ctl.Done? <==> status in {StatusDone, AdlerMismatch}) && (status == AdlerMismatch ==> cfg.zlib)
    && (status == NeedsMoreInput ==> hasMore) && (status == CannotProgress ==> !hasMore)
    && (sure ==> Leads(cfg, ByteBits(seen + inp), st, t) && Ended(status, cfg, hasMore, seen + inp[..inUsed], t, full))
  }

  lemma ResultFacts(cfg: Cfg, seen: seq<byte>, inp: seq<byte>, inUsed: nat, r: Regs, st: St, t: St, sure: bool,
      status: Status, hasMore: bool, full: bool)
    requires inUsed <= |inp| && Result(cfg, seen, inp, inUsed, r, st, t, sure, status, hasMore, full)
    ensures Saved(cfg, seen + inp[..inUsed], r, t, sure) && !r.pc.P0?
        && (t.ctl.Done? <==> status in {StatusDone, AdlerMismatch})
    ensures (status == AdlerMismatch ==> cfg.zlib) && (status == NeedsMoreInput ==> hasMore)
        && (status == CannotProgress ==> !hasMore)
    ensures sure ==> WellFormed(st) && Leads(cfg, ByteBits(seen + inp), st, t)
    ensures sure ==> Ended(status, cfg, hasMore, seen + inp[..inUsed], t, full)
  {
    hide Saved, WellFormed, Leads, ByteBits, Ended;
  }

  class Tinfl {
    var regs: Regs
    var checkAdler: nat
    const ts: TableSet

    /** The reference decoder's state and the bytes it has seen; whether all input so far was valid as far as it
        went; the bytes summed, and how many were written but not summed. */
    ghost const cfg: Cfg
    ghost var st: St
    ghost var seen: seq<byte>
    ghost var sure: bool
    ghost var counted: seq<byte>
    ghost var skipped: nat

    ghost predicate Valid()
      reads this, ts.lookUp0, ts.tree0, ts.lookUp1, ts.tree1, ts.lookUp2, ts.tree2
    {
      && Laid(ts) && Saved(cfg, seen, regs, st, sure) && (!regs.pc.P0? ==> Built(ts, st))
      && Tally(counted, skipped, st.out) && (!regs.pc.P0? ==> checkAdler == Adler.Checksum(counted) < 0x1_0000_0000)
    }

    /** Allocation and tinfl_init. */
    constructor (ghost c: Cfg)
      ensures Valid() && cfg == c && st == Init(c) && seen == [] && sure && counted == [] && skipped == 0
          && regs.pc == P0 && regs.numBits == 0
      ensures fresh(ts.lookUp0) && fresh(ts.tree0) && fresh(ts.lookUp1) && fresh(ts.tree1) && fresh(ts.lookUp2)
          && fresh(ts.tree2)
    {
      cfg, st, seen, sure, counted, skipped := c, Init(c), [], true, [], 0;
      regs := Regs(P0, 0, 0, 0, 0, 0, 0, 0, 0, 0, Repeat(0, 4), Repeat(0, 3), Repeat(0, 19), Repeat(0, LEN_CODES));
      checkAdler := 0;
      var lookUp0, lookUp1, lookUp2 := new int[FAST_SIZE](_ => 0), new int[FAST_SIZE](_ => 0),
          new int[FAST_SIZE](_ => 0);
      var tree0, tree1, tree2 := new int[576](_ => 0), new int[64](_ => 0), new int[38](_ => 0);
      ts := TableSet(lookUp0, tree0, lookUp1, tree1, lookUp2, tree2);
    }

    /** What a caller must provide: the flags of the first call, and a buffer that still holds the recent output. */
    ghost predicate Ready(c: Cfg, buf: seq<byte>, outNext: nat, outSize: nat)
      reads this
    {
      c == cfg && Window.Holds(cfg, buf, outNext, outNext + outSize, st.out)
    }

    /** The fields saved at the end of a call. */
    method Keep(r: Regs, check: nat, ghost t: St, ghost bytes: seq<byte>, ghost yes: bool, ghost sum: seq<byte>,
        ghost rest: nat)
      modifies this
      ensures regs == r && checkAdler == check && st == t && seen == bytes && sure == yes && counted == sum
          && skipped == rest
    {
      regs, checkAdler := r, check;
      st, seen, sure, counted, skipped := t, bytes, yes, sum, rest;
    }

    /** tinfl_decompress. Whatever the input, the pieces it comes in and the room for output, a call returns, with
        every table index and every position in bounds; only an assertion may stop it, on a malformed stream that
        comes in pieces. As long as the stream is valid, the call continues the reference decoder's run over
        everything seen, and tells where it stands. */
    method Decompress(inp: seq<byte>, buf: array<byte>, outNext: nat, outSize: nat, zlib: bool, nonWrapping: bool,
        hasMore: bool, compute: bool)
      returns (status: Status, inUsed: nat, outUsed: nat)
      requires Valid() && outNext + outSize <= buf.Length
      requires nonWrapping || PowerOfTwo(outNext + outSize) ==>
          Ready(CfgOf(zlib, nonWrapping, outNext + outSize), buf[..], outNext, outSize)
      modifies this, buf, ts.lookUp0, ts.tree0, ts.lookUp1, ts.tree1, ts.lookUp2, ts.tree2
      ensures inUsed <= |inp| && outUsed <= outSize
      ensures buf[..outNext] == old(buf[..outNext]) && buf[outNext + outUsed..] == old(buf[outNext + outUsed..])
      ensures status == BadParam <==> !nonWrapping && !PowerOfTwo(outNext + outSize)
      ensures status == BadParam ==> inUsed == outUsed == 0 && unchanged(this)
      ensures status != BadParam ==> sure == (old(sure) && CleanAll(cfg, old(seen) + inp))
      ensures status == Asserted ==> old(regs.numBits) >= 8 && !sure
      ensures status != Asserted ==>
                Valid() && (status != BadParam ==> !regs.pc.P0? && seen == old(seen) + inp[..inUsed])
      ensures status != BadParam && sure ==>
                && WellFormed(old(st)) && Leads(cfg, ByteBits(old(seen) + inp), old(st), st)
                && Ended(status, cfg, hasMore, seen, st, outUsed == outSize)
      ensures status == NeedsMoreInput || status == CannotProgress ==> inUsed == |inp|
      ensures status == HasMoreOutput ==> outUsed == outSize && (old(regs.numBits) < 8 ==> regs.numBits < 8)
      ensures status !in {BadParam, Asserted} ==> (st.ctl.Done? <==> status in {StatusDone, AdlerMismatch})
      ensures (status == NeedsMoreInput ==> hasMore) && (status == CannotProgress ==> !hasMore)
          && (status == AdlerMismatch ==> zlib)
      ensures status !in {BadParam, Asserted} &&
              (regs.pc.P38? || (status in {NeedsMoreInput, CannotProgress} && st.ctl.RawCopy?)) ==>
                outUsed < outSize || (old(regs.pc.P38?) && outSize == 0)
      ensures status != BadParam ==>
                && st.out == old(st.out) + buf[outNext..outNext + outUsed]
                && Window.Holds(cfg, buf[..], outNext + outUsed, outNext + outSize, st.out)
      ensures status != BadParam ==>
                && counted == old(counted) + (if Counts(status, zlib, compute) then buf[outNext..outNext + outUsed]
                   else [])
                && skipped == old(skipped) + (if Counts(status, zlib, compute) then 0 else outUsed)
      ensures status !in {BadParam, Asserted} && zlib && st.ctl.Done? ==>
          (status == StatusDone <==> st.ctl.sum == Adler.Checksum(counted))
    {
      hide Saved, Leads, ByteBits, Window.Holds, Built, WellFormed, Clean, Ended, Adler.Checksum, Laid, PowerOfTwo,
          Tables, Counts, Tally, CleanAll, Result;
      if !nonWrapping && !PowerOfTwo(outNext + outSize) {
        return BadParam, 0, 0;
      }
      var c := CfgOf(zlib, nonWrapping, outNext + outSize);
      var r, check;
      ghost var t, written;
      ghost var sure1 := sure && CleanAll(c, seen + inp);
      status, inUsed, outUsed, r, check, t := Serve(c, ts, inp, buf, outNext, outSize, regs, checkAdler, hasMore,
          compute, seen, st, sure, counted, skipped);
      written := buf[outNext..outNext + outUsed];
      if status != Asserted {
        ResultFacts(c, seen, inp, inUsed, r, st, t, sure1, status, hasMore, outUsed == outSize);
      }
      Keep(r, check, t, seen + inp[..inUsed], sure1, counted + (if Counts(status, zlib, compute) then written else []),
           skipped + (if Counts(status, zlib, compute) then 0 else outUsed));
    }
  }
}
