/** The zlib-style stream layer over the decompressor (third-party/miniz.c:435-553): a 32 KiB window between the
    decompressor and a caller who may take its bytes in any portions. */
module MzInflate {
  import opened Bits
  import opened Format
  import opened Machine
  import opened Runs
  import opened Decompressor
  import opened Uncompress
  import Calls
  import opened Suspension
  import Inflater
  import Window
  import Adler
  import BitReader

  datatype FlushMode = NoFlush | SyncFlush | FinishFlush | OtherFlush

  datatype Ret = RetOk | RetStreamEnd | RetStreamError | RetDataError | RetBufError | Aborted

  predicate Negative(s: Status) {
    s.BadParam? || s.CannotProgress? || s.AdlerMismatch? || s.StatusFailed?
  }

  /** The status is how a call must end where the decoder stands. */
  ghost predicate Explained(d: Tinfl, status: Status, hasMore: bool)
    reads d
  {
    exists full :: Ended(status, d.cfg, hasMore, d.seen, d.st, full)
  }

  /** A call that does nothing: the flush value is unknown, the stream is corrupt, or only "finish" may follow
      "finish". */
  predicate Refused(status: Status, hasFlushed: bool, flush: FlushMode) {
    flush.OtherFlush? || Negative(status) || (hasFlushed && !flush.FinishFlush?)
  }

  /** The decompressor stands on a valid stream's run, which the new input continues. */
  ghost predicate Clear(d: Tinfl, inp: seq<byte>)
    reads d
  {
    d.sure && CleanAll(d.cfg, d.seen + inp)
  }

  lemma ValidWell(d: Tinfl)
    requires d.Valid()
    ensures WellFormed(d.st)
  {
    hide Inflater.Matched, BitReader.InSync, Suspended, Inflater.Built;
    InitWell(d.cfg);
  }

  class Stream {
    const tinfl: Tinfl
    const dict: array<byte>
    const zlib: bool
    var dictOfs: nat
    var dictAvail: nat
    var lastStatus: Status
    var firstCall: bool
    var hasFlushed: bool

    /** What the caller has been given. */
    ghost var delivered: seq<byte>

    /** The window's undelivered bytes are the last of the decoder's output; everything before them was delivered. */
    ghost predicate Valid()
      reads this, tinfl, dict, tinfl.ts.lookUp0, tinfl.ts.tree0, tinfl.ts.lookUp1, tinfl.ts.tree1, tinfl.ts.lookUp2,
          tinfl.ts.tree2
    {
      && tinfl.Valid() && tinfl.cfg == CfgOf(zlib, false, DICT_SIZE) && dict.Length == DICT_SIZE
      && dictOfs + dictAvail <= DICT_SIZE && dictOfs < DICT_SIZE
      && Window.Holds(tinfl.cfg, dict[..], dictOfs + dictAvail, DICT_SIZE, tinfl.st.out)
      && tinfl.st.out == delivered + dict[dictOfs..dictOfs + dictAvail]
      && (!Negative(lastStatus) ==> tinfl.skipped == 0)
      && (lastStatus == StatusDone <==> Finished(tinfl.st, zlib))
    }

    /** mz_inflateInit2. */
    constructor (zlib: bool)
      ensures Valid() && this.zlib == zlib && delivered == [] && lastStatus == NeedsMoreInput && firstCall
          && !hasFlushed
      ensures tinfl.seen == [] && tinfl.sure && tinfl.st == Init(CfgOf(zlib, false, DICT_SIZE)) && fresh(tinfl)
          && fresh(dict) && fresh(tinfl.ts.lookUp0) && fresh(tinfl.ts.tree0)
      ensures fresh(tinfl.ts.lookUp1) && fresh(tinfl.ts.tree1) && fresh(tinfl.ts.lookUp2) && fresh(tinfl.ts.tree2)
    {
      this.zlib := zlib;
      tinfl := new Tinfl(CfgOf(zlib, false, DICT_SIZE));
      dict := new byte[DICT_SIZE](_ => 0);
      dictOfs, dictAvail, lastStatus, firstCall, hasFlushed, delivered := 0, 0, NeedsMoreInput, true, false, [];
      new;
      FreshWindow(tinfl.cfg, dict[..]);
    }

    /** Give the caller what the window holds, as far as there is room. */
    method Drain(room: nat) returns (out: seq<byte>)
      requires Valid()
      modifies this`dictOfs, this`dictAvail, this`delivered
      ensures Valid() && delivered == old(delivered) + out
          && |out| == (if old(dictAvail) < room then old(dictAvail) else room)
      ensures dictAvail == old(dictAvail) - |out|
    {
      hide Window.Holds, Saved, Finished, Adler.Checksum, BitReader.Tables;
      var n := if dictAvail < room then dictAvail else room;
      out := dict[dictOfs..dictOfs + n];
      assert dict[dictOfs..dictOfs + dictAvail] == out + dict[dictOfs + n..dictOfs + dictAvail];
      assert |dict[..]| == DICT_SIZE && (dictOfs + n < DICT_SIZE ==> (dictOfs + n) % DICT_SIZE == dictOfs + n);
      assert delivered + out + dict[dictOfs + n..dictOfs + dictAvail] == delivered
          + (out + dict[dictOfs + n..dictOfs + dictAvail]);
      if dictOfs + n == DICT_SIZE {
        assert dict[0..0] == dict[dictOfs + n..dictOfs + dictAvail];
        Rewound(tinfl.cfg, dict[..], tinfl.st.out);
      }
      delivered := delivered + out;
      dictAvail := dictAvail - n;
      dictOfs := (dictOfs + n) % DICT_SIZE;
    }

    /** Run the decompressor on an empty window. */
    method Refill(inp: seq<byte>, hasMore: bool) returns (used: nat)
      requires Valid() && dictAvail == 0 && !Negative(lastStatus)
      modifies this`dictAvail, this`lastStatus, tinfl, dict, tinfl.ts.lookUp0, tinfl.ts.tree0, tinfl.ts.lookUp1,
          tinfl.ts.tree1, tinfl.ts.lookUp2, tinfl.ts.tree2
      ensures used <= |inp| && dictAvail <= DICT_SIZE - dictOfs
      ensures if lastStatus == Asserted then !old(Clear(tinfl, inp))
              else Valid() && tinfl.seen == old(tinfl.seen) + inp[..used]
      ensures old(Clear(tinfl, inp)) ==>
                && tinfl.sure && WellFormed(old(tinfl.st))
                   && Leads(tinfl.cfg, ByteBits(old(tinfl.seen) + inp), old(tinfl.st), tinfl.st)
                && Explained(tinfl, lastStatus, hasMore)
      ensures lastStatus == NeedsMoreInput || lastStatus == CannotProgress ==> used == |inp|
      ensures (lastStatus == HasMoreOutput ==> dictAvail > 0) && (lastStatus == NeedsMoreInput ==> hasMore)
      ensures lastStatus != Asserted ==> (lastStatus == StatusDone <==> Finished(tinfl.st, zlib))
    {
      hide Window.Holds, Saved, Inflater.Built, Inflater.Laid, Adler.Checksum, WellFormed, CleanAll, Leads, ByteBits,
          Ended, PowerOfTwo;
      DictPower();
      ghost var st := tinfl.st;
      assert st.out == delivered + [];
      var n;
      lastStatus, used, n := tinfl.Decompress(inp, dict, dictOfs, DICT_SIZE - dictOfs, zlib, false, hasMore, true);
      dictAvail := n;
    }

    /** The end of the data, if everything was delivered. */
    method Answer() returns (ret: Ret)
      requires Valid()
      ensures ret == if lastStatus == StatusDone && dictAvail == 0 then RetStreamEnd else RetOk
      ensures ret == RetStreamEnd <==> Finished(tinfl.st, zlib) && dictAvail == 0
      ensures ret == RetStreamEnd ==> delivered == tinfl.st.out
    {
      hide Window.Holds, Saved, Inflater.Built, Inflater.Laid, Finished;
      ret := if lastStatus == StatusDone && dictAvail == 0 then RetStreamEnd else RetOk;
    }

    /** Decompress into the window and drain it, until the caller has to act. */
    method Pump(inp: seq<byte>, room: nat, flush: FlushMode) returns (ret: Ret, used: nat, out: seq<byte>)
      requires Valid() && dictAvail == 0 && !Negative(lastStatus)
      modifies this`dictOfs, this`dictAvail, this`lastStatus, this`delivered, tinfl, dict
      modifies tinfl.ts.lookUp0, tinfl.ts.tree0, tinfl.ts.lookUp1, tinfl.ts.tree1, tinfl.ts.lookUp2, tinfl.ts.tree2
      ensures used <= |inp| && |out| <= room && delivered == old(delivered) + out
      ensures if ret == Aborted then !old(Clear(tinfl, inp)) else Valid() && tinfl.seen == old(tinfl.seen) + inp[..used]
      ensures old(Clear(tinfl, inp)) ==>
                tinfl.sure && WellFormed(old(tinfl.st))
                    && Leads(tinfl.cfg, ByteBits(old(tinfl.seen) + inp), old(tinfl.st), tinfl.st)
      ensures ret == RetStreamEnd <==> ret != Aborted && Finished(tinfl.st, zlib) && dictAvail == 0
      ensures ret == RetStreamEnd ==> delivered == tinfl.st.out
      ensures ret == RetOk && |out| < room ==>
                dictAvail == 0 && used == |inp| && (out == [] ==> lastStatus == NeedsMoreInput)
      ensures old(Clear(tinfl, inp)) ==> Explained(tinfl, lastStatus, flush != FinishFlush)
      ensures ret == RetDataError <==> Negative(lastStatus)
      ensures ret == RetBufError <==>
                ret !in {RetStreamEnd, RetDataError, Aborted}
                    && (flush == FinishFlush || (lastStatus == NeedsMoreInput && |inp| == 0))
      ensures ret == RetBufError && flush == FinishFlush ==> |out| == room
      ensures ret != RetStreamError
    {
      hide Window.Holds, Saved, Inflater.Built, Inflater.Laid, Adler.Checksum, WellFormed, CleanAll, Leads, ByteBits,
          Explained, Finished, Valid;
      used, out := 0, [];
      ghost var seen, st, clear := tinfl.seen, tinfl.st, Clear(tinfl, inp);
      StartClear(inp);
      assert inp[..0] == [] && delivered + [] == delivered;
      while true
        invariant Valid() && dictAvail == 0 && !Negative(lastStatus) && used <= |inp| && |out| <= room
        invariant delivered == old(delivered) + out && tinfl.seen == seen + inp[..used]
        invariant clear ==> Clear(tinfl, inp[used..]) && WellFormed(st) && WellFormed(tinfl.st)
        invariant clear ==> Leads(tinfl.cfg, ByteBits(seen + inp), st, tinfl.st)
        decreases room - |out|
      {
        assert seen + inp[..used] + inp[used..] == seen + inp && inp[..used] + inp[used..] == inp;
        ghost var now, used0 := tinfl.st, used;
        var n := Refill(inp[used..], flush != FinishFlush);
        used := used + n;
        assert inp[..used0] + inp[used0..][..n] == inp[..used];
        if clear {
          Further(tinfl.cfg, seen + inp, st, now, tinfl.st);
        }
        if lastStatus == Asserted {
          return Aborted, used, out;
        }
        if clear {
          StillClear(tinfl, seen, inp, used);
        }
        var o := Drain(room - |out|);
        assert old(delivered) + out + o == old(delivered) + (out + o);
        out := out + o;
        if Negative(lastStatus) {
          return RetDataError, used, out;
        } else if lastStatus == NeedsMoreInput && |inp| == 0 {
          return RetBufError, used, out;
        } else if flush == FinishFlush {
          if lastStatus == StatusDone {
            ret := Answer();
            if dictAvail > 0 {
              ret := RetBufError;
            }
            return;
          } else if room == |out| {
            return RetBufError, used, out;
          }
        } else if lastStatus == StatusDone || used == |inp| || room == |out| || dictAvail > 0 {
          ret := Answer();
          return;
        }
      }
    }

    lemma StartClear(inp: seq<byte>)
      requires Valid()
      ensures Clear(tinfl, inp) ==>
                Clear(tinfl, inp[0..]) && WellFormed(tinfl.st)
                    && Leads(tinfl.cfg, ByteBits(tinfl.seen + inp), tinfl.st, tinfl.st)
    {
      hide Window.Holds, Saved, Inflater.Built, Inflater.Laid, Finished, WellFormed, CleanAll, Leads, ByteBits;
      ValidWell(tinfl);
      LeadsSelf(tinfl.cfg, ByteBits(tinfl.seen + inp), tinfl.st);
      assert inp[0..] == inp;
    }

    /** mz_inflate, but for a first call that asks to finish. Whatever the input, bytes are delivered in order and
        no window byte is lost; only an assertion of the decompressor may stop the program, on a malformed stream. */
    method Inflate(inp: seq<byte>, room: nat, flush: FlushMode) returns (ret: Ret, used: nat, out: seq<byte>)
      requires Valid() && !(firstCall && flush == FinishFlush)
      modifies this, tinfl, dict, tinfl.ts.lookUp0, tinfl.ts.tree0, tinfl.ts.lookUp1, tinfl.ts.tree1, tinfl.ts.lookUp2,
          tinfl.ts.tree2
      ensures used <= |inp| && |out| <= room && delivered == old(delivered) + out
      ensures if ret == Aborted then !old(Clear(tinfl, inp)) else Valid() && tinfl.seen == old(tinfl.seen) + inp[..used]
      ensures old(Clear(tinfl, inp)) ==>
                tinfl.sure && WellFormed(old(tinfl.st))
                    && Leads(tinfl.cfg, ByteBits(old(tinfl.seen) + inp), old(tinfl.st), tinfl.st)
      ensures ret == RetStreamEnd <==> ret !in {RetStreamError, Aborted} && Finished(tinfl.st, zlib) && dictAvail == 0
      ensures ret == RetStreamEnd ==> delivered == tinfl.st.out
      ensures ret == RetBufError <==>
                && ret !in {RetStreamEnd, RetDataError, RetStreamError, Aborted} && old(dictAvail) == 0
                && (flush == FinishFlush || (lastStatus == NeedsMoreInput && |inp| == 0))
      ensures ret == RetBufError && flush == FinishFlush ==> |out| == room
      ensures ret == RetOk && old(dictAvail) == 0 && |out| < room ==>
                dictAvail == 0 && used == |inp| && (out == [] ==> lastStatus == NeedsMoreInput)
      ensures old(dictAvail) > 0 && !Refused(old(lastStatus), old(hasFlushed), flush) ==>
                && |out| == (if old(dictAvail) < room then old(dictAvail) else room)
                   && dictAvail == old(dictAvail) - |out|
                && used == 0 && lastStatus == old(lastStatus) && tinfl.st == old(tinfl.st)
      ensures old(Clear(tinfl, inp)) && !Refused(old(lastStatus), old(hasFlushed), flush) && old(dictAvail) == 0 ==>
                Explained(tinfl, lastStatus, flush != FinishFlush)
      ensures Refused(old(lastStatus), old(hasFlushed), flush) ==>
                out == [] && used == 0 && dictAvail == old(dictAvail) && lastStatus == old(lastStatus)
      ensures hasFlushed == (old(hasFlushed) || (flush == FinishFlush && !Negative(old(lastStatus))))
      ensures firstCall == (old(firstCall) && flush == OtherFlush)
      ensures ret == RetDataError <==> flush != OtherFlush && Negative(lastStatus)
      ensures ret == RetStreamError <==>
                flush == OtherFlush || (!Negative(old(lastStatus)) && old(hasFlushed) && flush != FinishFlush)
    {
      hide Window.Holds, Saved, Inflater.Built, Inflater.Laid, Adler.Checksum, WellFormed, CleanAll, Leads, ByteBits,
          Ended, Finished, Valid;
      used, out := 0, [];
      assert inp[..0] == [] && delivered + [] == delivered;
      assert tinfl.seen + [] == tinfl.seen;
      StartClear(inp);
      var early;
      early, ret := Enter(flush);
      if early {
        return;
      }
      if dictAvail > 0 {
        out := Drain(room);
        ret := Answer();
      } else {
        ret, used, out := Pump(inp, room, flush);
      }
    }

    /** The checks at the start of a call, and what it notes down. */
    method Enter(flush: FlushMode) returns (early: bool, ret: Ret)
      requires Valid()
      modifies this`firstCall, this`hasFlushed
      ensures Valid() && early == Refused(lastStatus, old(hasFlushed), flush)
      ensures early ==> ret == if flush != OtherFlush && Negative(lastStatus) then RetDataError else RetStreamError
      ensures Negative(lastStatus) ==> !Finished(tinfl.st, zlib)
      ensures hasFlushed == (old(hasFlushed) || (flush == FinishFlush && !Negative(lastStatus)))
      ensures firstCall == (old(firstCall) && flush == OtherFlush)
    {
      hide Window.Holds, Saved, Finished, Adler.Checksum, BitReader.Tables;
      if flush == OtherFlush {
        return true, RetStreamError;
      }
      firstCall := false;
      if Negative(lastStatus) {
        return true, RetDataError;
      }
      if hasFlushed && flush != FinishFlush {
        return true, RetStreamError;
      }
      hasFlushed := hasFlushed || flush == FinishFlush;
      early, ret := false, RetOk;
    }
  }

  /** mz_inflate on a new stream whose first call asks to finish: the caller's buffer has to take everything at
      once. If the stream is valid as far as it goes, the answer tells whether it was all there, and whether it
      fitted. */
  method InflateAtOnce(inp: seq<byte>, buf: array<byte>, zlib: bool)
      returns (ret: Ret, used: nat, written: nat, ghost status: Status, ghost t: St)
    modifies buf
    ensures used <= |inp| && written <= buf.Length && buf[..written] == t.out && buf[written..] == old(buf[written..])
    ensures ret == if status == StatusDone then RetStreamEnd else if status == HasMoreOutput then RetBufError
        else RetDataError
    ensures CleanAll(CfgOf(zlib, true, 0), inp) ==>
              Calls.Concluded(CfgOf(zlib, true, 0), inp, buf.Length, status, t)
                  && (status == StatusDone ==> t.pos == 8 * used)
  {
    hide Window.Holds, Saved, Inflater.Built, Inflater.Laid, Adler.Checksum, WellFormed, CleanAll, Leads, ByteBits,
        Ended, Calls.Concluded;
    ghost var cfg := CfgOf(zlib, true, 0);
    var d := new Tinfl(cfg);
    Calls.PlainHolds(cfg, buf[..], 0, buf.Length, d.st.out);
    assert [] + inp == inp;
    var s;
    s, used, written := d.Decompress(inp, buf, 0, buf.Length, zlib, true, false, true);
    status, t := s, d.st;
    Calls.BehindInput(d);
    assert d.seen == inp[..used] && |t.out| == written;
    if CleanAll(cfg, inp) {
      Calls.StartsRun(cfg, inp, t);
      Calls.LastOne(cfg, inp, buf.Length, status, used, t);
    }
    ret := if Negative(s) then RetDataError else if s != StatusDone then RetBufError else RetStreamEnd;
  }

  lemma StillClear(d: Tinfl, seen: seq<byte>, inp: seq<byte>, used: nat)
    requires used <= |inp| && d.sure && CleanAll(d.cfg, seen + inp) && d.seen == seen + inp[..used]
    ensures Clear(d, inp[used..])
  {
    hide CleanAll;
    assert seen + inp[..used] + inp[used..] == seen + inp;
  }

  /** Continuing a run. */
  lemma Further(cfg: Cfg, x: seq<byte>, a: St, b: St, c: St)
    requires WellFormed(a) && WellFormed(b) && Leads(cfg, ByteBits(x), a, b) && Leads(cfg, ByteBits(x), b, c)
    ensures Leads(cfg, ByteBits(x), a, c) && WellFormed(c)
  {
    hide WellFormed, Leads, ByteBits;
    LeadsTrans(cfg, ByteBits(x), a, b, c);
    LeadsKeeps(cfg, ByteBits(x), b, c);
  }

  /** The decoder has reached the end of a stream whose checksum, if it has one, agrees. */
  ghost predicate Finished(st: St, zlib: bool) {
    st.ctl.Done? && (zlib ==> st.ctl.sum == Adler.Checksum(st.out))
  }

  /** The data error stands for a stream that is corrupt, or has a wrong checksum, or ends too early; and the
      first two always lead to it. */
  lemma DataErrors(s: Stream, flush: FlushMode)
    requires s.Valid() && Explained(s.tinfl, s.lastStatus, flush != FinishFlush)
    ensures var st := s.tinfl.st;
            && (st.ctl.Failed? || (st.ctl.Done? && !Finished(st, s.zlib)) ==> Negative(s.lastStatus))
            && (Negative(s.lastStatus) ==> st.ctl.Failed? || (st.ctl.Done? && !Finished(st, s.zlib))
                                           || (flush == FinishFlush
                                               && Inflater.Starved(s.tinfl.cfg, ByteBits(s.tinfl.seen), st)))
  {
    hide Finished, Saved, Window.Holds, Inflater.Built, Inflater.Laid, Adler.Checksum, ByteBits;
    StreamFacts(s);
    var full :| Ended(s.lastStatus, s.tinfl.cfg, flush != FinishFlush, s.tinfl.seen, s.tinfl.st, full);
  }

  // ----- a whole stream -----

  /** On the way through a stream that ends at t with a right checksum: what was delivered is the start of its bytes. */
  ghost predicate Halfway(s: Stream, x: seq<byte>, pos: nat, t: St, data: seq<byte>)
    reads s, s.tinfl, s.dict, s.tinfl.ts.lookUp0, s.tinfl.ts.tree0, s.tinfl.ts.lookUp1, s.tinfl.ts.tree1,
        s.tinfl.ts.lookUp2, s.tinfl.ts.tree2
  {
    && s.Valid() && pos <= |x| && s.tinfl.seen == x[..pos] && s.tinfl.sure && s.delivered == data && !s.hasFlushed
       && !Negative(s.lastStatus)
    && Decodable(s.tinfl.cfg, x, t) && Finished(t, s.zlib)
       && Leads(s.tinfl.cfg, ByteBits(x), Init(s.tinfl.cfg), s.tinfl.st)
    && (Finished(s.tinfl.st, s.zlib) ==> s.tinfl.st.pos == 8 * pos)
  }

  /** What there is left to do: bytes to deliver, and input to read. */
  ghost function Ahead(t: St, x: seq<byte>, pos: nat, data: seq<byte>): int {
    |t.out| - |data| + |x| - pos
  }

  /** Where the decoder stands in such a stream: on the way to t, and there when it has halted. */
  lemma InTheStream(cfg: Cfg, x: seq<byte>, st: St, t: St)
    requires Decodable(cfg, x, t) && Leads(cfg, ByteBits(x), Init(cfg), st)
    ensures WellFormed(Init(cfg)) && WellFormed(st) && st.out <= t.out && CleanAll(cfg, x)
        && (Halted(st.ctl) ==> st == t) && Leads(cfg, ByteBits(x), st, t)
  {
    hide Leads, WellFormed, ByteBits, Step, Inflater.Clean;
    var S := ByteBits(x);
    LeadsSelf(cfg, S, Init(cfg));
    DecodableClean(cfg, x, t, Init(cfg));
    LeadsKeeps(cfg, S, Init(cfg), st);
    LeadsToEnd(cfg, S, Init(cfg), st, t);
    LeadsKeeps(cfg, S, st, t);
    if Halted(st.ctl) {
      HaltsOnce(cfg, S, Init(cfg), st, t);
    }
  }

  /** With the whole stream seen, it does not want more. */
  lemma NotStarved(cfg: Cfg, x: seq<byte>, st: St, t: St)
    requires Decodable(cfg, x, t) && Leads(cfg, ByteBits(x), Init(cfg), st) && WellFormed(st)
    ensures !Inflater.Starved(cfg, ByteBits(x), st)
  {
    hide Leads, WellFormed, ByteBits, Step;
    InTheStream(cfg, x, st, t);
    if Inflater.Starved(cfg, ByteBits(x), st) {
      StalledLeads(cfg, ByteBits(x), st, t);
      assert false;
    }
  }

  /** After a call on a stream with a right checksum: no error, and a finished decoder has read exactly the stream. */
  lemma RightStatus(cfg: Cfg, x: seq<byte>, pos: nat, st: St, t: St, status: Status, full: bool)
    requires pos <= |x| && Decodable(cfg, x, t) && Finished(t, cfg.zlib) && Leads(cfg, ByteBits(x), Init(cfg), st)
    requires Ended(status, cfg, true, x[..pos], st, full) && (status == StatusDone <==> Finished(st, cfg.zlib))
    ensures !Negative(status) && (status == NeedsMoreInput ==> pos < |x|)
        && (status == StatusDone ==> st.pos == 8 * pos)
  {
    hide Leads, WellFormed, ByteBits, Inflater.Starved, Finished, Decodable;
    InTheStream(cfg, x, st, t);
    EndsDone(cfg, x, t);
    if status == NeedsMoreInput && pos == |x| {
      assert x[..pos] == x;
      NotStarved(cfg, x, st, t);
    }
  }

  /** The pieces of a stream leave the decoder on a valid one. */
  lemma PieceClear(d: Tinfl, x: seq<byte>, pos: nat, end: nat)
    requires pos <= end <= |x| && d.seen == x[..pos] && d.sure && CleanAll(d.cfg, x)
    ensures Clear(d, x[pos..end])
  {
    hide Leads, WellFormed, ByteBits, Inflater.Clean;
    assert d.seen + x[pos..end] == x[..end];
    PrefixBits(x, end);
    CleanLess(d.cfg, ByteBits(x[..end]), ByteBits(x), Init(d.cfg));
  }

  lemma WithinStream(cfg: Cfg, x: seq<byte>, end: nat, a: St, b: St, c: St)
    requires end <= |x| && WellFormed(a) && WellFormed(b) && Leads(cfg, ByteBits(x), a, b)
        && Leads(cfg, ByteBits(x[..end]), b, c)
    ensures Leads(cfg, ByteBits(x), a, c)
  {
    hide Leads, WellFormed, ByteBits;
    PrefixBits(x, end);
    LeadsMono(cfg, ByteBits(x[..end]), ByteBits(x), b, c);
    LeadsTrans(cfg, ByteBits(x), a, b, c);
  }

  lemma EndsDone(cfg: Cfg, x: seq<byte>, t: St)
    requires Decodable(cfg, x, t)
    ensures t.ctl.Done?
  {
  }

  lemma StreamFacts(s: Stream)
    requires s.Valid()
    ensures s.tinfl.cfg == CfgOf(s.zlib, false, DICT_SIZE) && s.delivered <= s.tinfl.st.out
    ensures s.lastStatus == StatusDone <==> Finished(s.tinfl.st, s.zlib)
    ensures Finished(s.tinfl.st, s.zlib) ==> Halted(s.tinfl.st.ctl)
  {
    hide Saved, Window.Holds, Inflater.Built, Inflater.Laid, Adler.Checksum;
  }

  /** One call on the way. */
  method NextCall(s: Stream, x: seq<byte>, pos: nat, piece: nat, room: nat, ghost t: St, data0: seq<byte>)
    returns (ret: Ret, used: nat, data: seq<byte>)
    requires Halfway(s, x, pos, t, data0) && piece > 0 && room > 0
    modifies s, s.tinfl, s.dict, s.tinfl.ts.lookUp0, s.tinfl.ts.tree0, s.tinfl.ts.lookUp1, s.tinfl.ts.tree1,
        s.tinfl.ts.lookUp2, s.tinfl.ts.tree2
    ensures Halfway(s, x, used, t, data) && ret in {RetOk, RetStreamEnd}
    ensures 0 <= Ahead(t, x, used, data) <= Ahead(t, x, pos, data0)
    ensures if ret == RetStreamEnd then data == t.out
        && 8 * used == t.pos else Ahead(t, x, used, data) < Ahead(t, x, pos, data0)
  {
    hide Finished, Decodable, Leads, WellFormed, ByteBits, CleanAll, Window.Holds, Ended, Stream.Valid;
    var inp := x[pos..pos + Min(piece, |x| - pos)];
    ghost var st, cfg, end := s.tinfl.st, s.tinfl.cfg, pos + |inp|;
    StreamFacts(s);
    EndsDone(cfg, x, t);
    InTheStream(cfg, x, st, t);
    PieceClear(s.tinfl, x, pos, end);
    assert x[..pos] + inp == x[..end];
    var k, out;
    ret, k, out := s.Inflate(inp, room, NoFlush);
    used, data := pos + k, data0 + out;
    assert x[..pos] + inp[..k] == x[..used];
    StreamFacts(s);
    WithinStream(cfg, x, end, Init(cfg), st, s.tinfl.st);
    InTheStream(cfg, x, s.tinfl.st, t);
    if old(s.dictAvail) == 0 {
      ghost var full :| Ended(s.lastStatus, cfg, true, s.tinfl.seen, s.tinfl.st, full);
      RightStatus(cfg, x, used, s.tinfl.st, t, s.lastStatus, full);
    }
  }

  lemma AtFirst(s: Stream, x: seq<byte>, t: St)
    requires s.Valid() && s.tinfl.seen == [] && s.tinfl.st == Init(s.tinfl.cfg) && s.tinfl.sure && s.delivered == []
        && !s.hasFlushed
    requires s.lastStatus == NeedsMoreInput && Decodable(s.tinfl.cfg, x, t) && Finished(t, s.zlib)
    ensures Halfway(s, x, 0, t, []) && 0 <= Ahead(t, x, 0, [])
  {
    hide Decodable, Leads, WellFormed, ByteBits, Stream.Valid;
    LeadsSelf(s.tinfl.cfg, ByteBits(x), Init(s.tinfl.cfg));
  }

  /** The whole of a stream, in pieces of any size and with any room each time: the call that ends it has
      delivered all bytes, and exactly the stream was read. */
  method InflateAll(x: seq<byte>, zlib: bool, pieces: nat -> nat, rooms: nat -> nat, ghost t: St)
      returns (data: seq<byte>, used: nat)
    requires Decodable(CfgOf(zlib, false, DICT_SIZE), x, t) && Finished(t, zlib)
    requires forall i: nat :: pieces(i) > 0 && rooms(i) > 0
    ensures data == t.out && 8 * used == t.pos
  {
    hide Finished, Decodable, Leads, WellFormed, ByteBits, CleanAll, Window.Holds, Stream.Valid, Ahead;
    var s := new Stream(zlib);
    data, used := [], 0;
    var i: nat, ret := 0, RetOk;
    AtFirst(s, x, t);
    while ret != RetStreamEnd
      invariant fresh(s) && fresh(s.tinfl) && fresh(s.dict) && fresh(s.tinfl.ts.lookUp0) && fresh(s.tinfl.ts.tree0)
      invariant fresh(s.tinfl.ts.lookUp1) && fresh(s.tinfl.ts.tree1) && fresh(s.tinfl.ts.lookUp2)
          && fresh(s.tinfl.ts.tree2)
      invariant Halfway(s, x, used, t, data) && s.zlib == zlib
      invariant ret == RetStreamEnd ==> data == t.out && 8 * used == t.pos
      decreases Ahead(t, x, used, data), if ret == RetStreamEnd then 0 else 1
    {
      ret, used, data := NextCall(s, x, used, pieces(i), rooms(i), t, data);
      i := i + 1;
    }
  }
}
