/** Output buffers smaller than 32 KiB (third-party/miniz.c:2443-2449, 2486-2488): a stream whose distances stay
    within a buffer is read the same whatever the buffer's size, so the header's announcement is all a decoder has to
    check. */
module SmallWindows {
  import opened Bits
  import opened Canonical
  import opened Format
  import opened Machine
  import opened Runs
  import Inflater

  /** No match on the run reaches further back than w. */
  ghost predicate Within(cfg: Cfg, S: seq<bool>, w: nat)
    requires WellFormed(Init(cfg))
  {
    forall u :: Leads(cfg, S, Init(cfg), u) && u.ctl.CopyMatch? ==> u.ctl.dist <= w
  }

  /** The window size that a zlib header's first byte announces. */
  function Announced(z0: nat): nat {
    Pow2(8 + z0 / 16)
  }

  /** A header that announces an admissible window does not announce a larger one than the buffer. */
  ghost predicate HeaderFits(cfg: Cfg, S: seq<bool>) {
    cfg.zlib && |S| >= 8 && Announced(Peek(S, 0, 8)) <= 32768 ==> Announced(Peek(S, 0, 8)) <= cfg.window
  }

  /** Two wrapping buffers, neither smaller than w. */
  ghost predicate Twins(a: Cfg, b: Cfg, w: nat) {
    a.zlib == b.zlib && !a.nonWrapping && !b.nonWrapping && w <= a.window && w <= b.window
  }

  /** The first header byte that the state remembers is the stream's. */
  ghost predicate Remembers(S: seq<bool>, st: St) {
    (st.ctl.Zhdr0? ==> st.pos == 0) && (st.ctl.Zhdr1? ==> |S| >= 8 && st.ctl.z0 == Peek(S, 0, 8))
  }

  predicate InHeader(c: Ctl) {
    c.Zhdr0? || c.Zhdr1?
  }

  lemma FieldLeaves(cfg: Cfg, st: St, v: nat)
    requires WellFormed(st)
    ensures st.ctl.Zhdr0? ==> FieldStep(cfg, st, v) == st.(ctl := Zhdr1(v), pos := st.pos + 8)
    ensures InHeader(FieldStep(cfg, st, v).ctl) ==> InHeader(st.ctl) && !FieldStep(cfg, st, v).ctl.Zhdr0?
    ensures st.ctl.Zhdr1? ==> !InHeader(FieldStep(cfg, st, v).ctl)
  {
    hide BadZlibHeader, Usable, Unpack, Pow2, CodesOk, LensOk, ShiftIn, FixedLit, FixedDist, Align, Near;
  }

  lemma SymLeaves(cfg: Cfg, st: St, S: seq<bool>)
    requires WellFormed(st) && st.pos <= |S| && AtSym(st.ctl) && SymStep(cfg, st, S).Next?
    ensures !InHeader(SymStep(cfg, st, S).st.ctl)
  {
    hide NextSym, LensStep, LitLenStep, DistStep;
    if st.ctl.Lens? {
      LensLeaves(st, S);
    } else if st.ctl.LitLen? {
      LitLenLeaves(cfg, st, NextSym(st.lit, S[st.pos..]));
    } else {
      DistLeaves(cfg, st, NextSym(st.dst, S[st.pos..]));
    }
  }

  lemma LensLeaves(st: St, S: seq<bool>)
    requires WellFormed(st) && st.ctl.Lens?
    ensures forall sym, n :: !InHeader(LensStep(st, st.ctl.hlit, st.ctl.total, st.ctl.cl, st.ctl.got, sym, n).ctl)
  {
    hide Usable;
  }

  lemma LitLenLeaves(cfg: Cfg, st: St, r: Sym)
    ensures r.Found? ==> forall n :: !InHeader(LitLenStep(cfg, st, r.s, n).ctl)
  {
  }

  lemma DistLeaves(cfg: Cfg, st: St, r: Sym)
    requires st.ctl.DistSym?
    ensures r.Found? ==> forall n :: !InHeader(DistStep(cfg, st, st.ctl.len, r.s, n).ctl)
  {
  }

  /** Only the first step reads the first header byte, and only the second forgets it. */
  lemma HeaderNext(cfg: Cfg, S: seq<bool>, st: St)
    requires WellFormed(st) && Step(cfg, st, S).Next?
    ensures var t := Step(cfg, st, S).st;
            && !t.ctl.Zhdr0? && (t.ctl.Zhdr1? ==> st.ctl.Zhdr0? && st.pos + 8 <= |S| && t.ctl.z0 == Peek(S, st.pos, 8))
  {
    hide Peek, SymStep, FieldStep, CodesOk, LensOk;
    if AtSym(st.ctl) {
      SymLeaves(cfg, st, S);
    } else {
      FieldLeaves(cfg, st, Peek(S, st.pos, Width(st.ctl)));
    }
  }

  lemma RemembersNext(cfg: Cfg, S: seq<bool>, st: St)
    requires WellFormed(st) && Remembers(S, st) && Step(cfg, st, S).Next?
    ensures Remembers(S, Step(cfg, st, S).st)
  {
    hide Step, Peek, WellFormed;
    HeaderNext(cfg, S, st);
  }

  lemma SameHeader(a: Cfg, b: Cfg, S: seq<bool>, z0: nat, z1: nat)
    requires Twins(a, b, 0) && a.zlib && |S| >= 8 && z0 == Peek(S, 0, 8) && HeaderFits(a, S) && HeaderFits(b, S)
    ensures BadZlibHeader(a, z0, z1) <==> BadZlibHeader(b, z0, z1)
  {
    hide Peek, Pow2;
  }

  /** What a step must not do for two buffers to agree on it: fail for want of meaning, or start a match beyond w. */
  ghost predicate Tame(t: St, w: nat) {
    !t.ctl.Invalid? && (t.ctl.CopyMatch? ==> t.ctl.dist <= w)
  }

  lemma SameStart(a: Cfg, b: Cfg, st: St, len: nat, dist: nat, w: nat)
    requires Twins(a, b, w) && Tame(StartMatch(a, st, len, dist), w)
    ensures StartMatch(b, st, len, dist) == StartMatch(a, st, len, dist)
  {
  }

  lemma SameAfter(a: Cfg, b: Cfg, st: St, pos: nat)
    requires a.zlib == b.zlib
    ensures AfterBlock(b, st, pos) == AfterBlock(a, st, pos)
  {
  }

  lemma SameField(a: Cfg, b: Cfg, S: seq<bool>, st: St, v: nat, w: nat)
    requires Twins(a, b, w) && HeaderFits(a, S) && HeaderFits(b, S) && WellFormed(st) && Remembers(S, st)
    requires (st.ctl.Zhdr1? ==> a.zlib) && Tame(FieldStep(a, st, v), w)
    ensures FieldStep(b, st, v) == FieldStep(a, st, v)
  {
    hide Peek, BadZlibHeader, Usable, StartMatch, HeadStep, RawHdrStep, SizesStep, ClLensStep, LensDone, CopyStep,
        TrailerStep, Pow2, HeaderFits,
         AfterBlock;
    if st.ctl.Zhdr1? {
      SameHeader(a, b, S, st.ctl.z0, v);
    } else if st.ctl.DistExtra? {
      SameStart(a, b, st.(pos := st.pos + st.ctl.extra), st.ctl.len, st.ctl.base + v, w);
    } else {
      SameAfter(a, b, st, st.pos);
    }
  }

  lemma SameLitLen(a: Cfg, b: Cfg, st: St, sym: nat, n: nat)
    requires a.zlib == b.zlib
    ensures LitLenStep(b, st, sym, n) == LitLenStep(a, st, sym, n)
  {
  }

  lemma SameDist(a: Cfg, b: Cfg, st: St, len: nat, sym: nat, n: nat, w: nat)
    requires Twins(a, b, w) && Tame(DistStep(a, st, len, sym, n), w)
    ensures DistStep(b, st, len, sym, n) == DistStep(a, st, len, sym, n)
  {
  }

  lemma SameSym(a: Cfg, b: Cfg, S: seq<bool>, st: St, w: nat)
    requires Twins(a, b, w) && WellFormed(st) && AtSym(st.ctl) && st.pos <= |S|
    requires SymStep(a, st, S).Next? ==> Tame(SymStep(a, st, S).st, w)
    ensures SymStep(b, st, S) == SymStep(a, st, S)
  {
    hide NextSym, LensStep, LitLenStep, DistStep, Usable;
    if st.ctl.LitLen? {
      var r := NextSym(st.lit, S[st.pos..]);
      if r.Found? {
        SameLitLen(a, b, st, r.s, st.lit[r.s]);
      }
    } else if st.ctl.DistSym? {
      var r := NextSym(st.dst, S[st.pos..]);
      if r.Found? {
        SameDist(a, b, st, st.ctl.len, r.s, st.dst[r.s], w);
      }
    }
  }

  /** A step that starts no match beyond w is the same step. */
  lemma SameStep(a: Cfg, b: Cfg, S: seq<bool>, st: St, w: nat)
    requires Twins(a, b, w) && HeaderFits(a, S) && HeaderFits(b, S) && WellFormed(st) && Remembers(S, st)
        && (st.ctl.Zhdr1? ==> a.zlib)
    requires Step(a, st, S).Next? ==> Tame(Step(a, st, S).st, w)
    ensures Step(b, st, S) == Step(a, st, S)
  {
    hide Peek, SymStep, FieldStep, CodesOk, HeaderFits, Twins, Tame, Remembers;
    if !Halted(st.ctl) && st.pos <= |S| {
      if AtSym(st.ctl) {
        SameSym(a, b, S, st, w);
      } else if Machine.Ready(st, S, Width(st.ctl)) {
        SameField(a, b, S, st, Peek(S, st.pos, Width(st.ctl)), w);
      }
    }
  }

  lemma KeepsZlib(cfg: Cfg, S: seq<bool>, st: St)
    requires WellFormed(st) && (st.ctl.Zhdr0? || st.ctl.Zhdr1? ==> cfg.zlib) && Step(cfg, st, S).Next?
    ensures var t := Step(cfg, st, S).st; t.ctl.Zhdr0? || t.ctl.Zhdr1? ==> cfg.zlib
  {
    hide Step, WellFormed;
    HeaderNext(cfg, S, st);
  }

  /** From any state on the way, the runs coincide. */
  lemma {:induction false} SameRun(a: Cfg, b: Cfg, S: seq<bool>, st: St, k: nat, w: nat)
    requires Twins(a, b, w) && HeaderFits(a, S) && HeaderFits(b, S) && WellFormed(Init(a)) && WellFormed(st)
    requires Leads(a, S, Init(a), st) && Within(a, S, w) && Inflater.Clean(a, S, Init(a))
    requires Remembers(S, st) && (st.ctl.Zhdr0? || st.ctl.Zhdr1? ==> a.zlib)
    ensures Run(b, S, st, k) == Run(a, S, st, k)
    decreases k
  {
    hide Step, Leads, WellFormed, HeaderFits, Remembers;
    var r := Step(a, st, S);
    if r.Next? {
      LeadsStep(a, S, st, r.st);
      LeadsTrans(a, S, Init(a), st, r.st);
      assert Tame(r.st, w);
    }
    SameStep(a, b, S, st, w);
    if k > 0 && r.Next? {
      RemembersNext(a, S, st);
      KeepsZlib(a, S, st);
      SameRun(a, b, S, r.st, k - 1, w);
    }
  }

  /** The runs of two buffers that no distance exceeds are the same. */
  lemma SameRuns(a: Cfg, b: Cfg, S: seq<bool>, w: nat, t: St)
    requires Twins(a, b, w) && HeaderFits(a, S) && HeaderFits(b, S) && WellFormed(Init(a)) && WellFormed(Init(b))
    requires Within(a, S, w) && Inflater.Clean(a, S, Init(a))
    ensures Leads(b, S, Init(b), t) <==> Leads(a, S, Init(a), t)
  {
    hide Step, WellFormed, HeaderFits, Run;
    LeadsSelf(a, S, Init(a));
    if Leads(b, S, Init(b), t) {
      var k: nat :| Run(b, S, Init(b), k) == t;
      SameRun(a, b, S, Init(a), k, w);
    }
    if Leads(a, S, Init(a), t) {
      var k: nat :| Run(a, S, Init(a), k) == t;
      SameRun(a, b, S, Init(a), k, w);
    }
  }

  /** So a stream that is valid in a 32 KiB buffer, and whose distances stay within what its header announces, is
      valid in every buffer that the header check admits; and it has the same end there. */
  lemma AnnouncedSuffices(cfg: Cfg, S: seq<bool>)
    requires cfg.zlib && !cfg.nonWrapping && |S| >= 8 && Announced(Peek(S, 0, 8)) <= 32768
        && Announced(Peek(S, 0, 8)) <= cfg.window
    requires var wide := cfg.(window := 32768);
             && WellFormed(Init(wide)) && WellFormed(Init(cfg)) && Inflater.Clean(wide, S, Init(wide))
             && Within(wide, S, Announced(Peek(S, 0, 8)))
    ensures Inflater.Clean(cfg, S, Init(cfg))
    ensures var wide := cfg.(window := 32768); forall t :: Leads(cfg, S, Init(cfg), t) <==>
        Leads(wide, S, Init(wide), t)
  {
    hide Leads, WellFormed, Peek, Announced;
    var wide, n := cfg.(window := 32768), Announced(Peek(S, 0, 8));
    forall t ensures Leads(cfg, S, Init(cfg), t) <==> Leads(wide, S, Init(wide), t) {
      SameRuns(wide, cfg, S, n, t);
    }
  }
}
