/** Whole runs of the reference decoder, and what it makes of a printed stream. */
module Runs {
  import opened Bits
  import opened Canonical
  import opened Format
  import opened Machine

  /** At most k steps on the bits S. */
  ghost function Run(cfg: Cfg, S: seq<bool>, st: St, k: nat): (r: St)
    requires WellFormed(st)
    ensures WellFormed(r) && st.pos <= r.pos && st.out <= r.out
    decreases k
  {
    if k == 0 || Step(cfg, st, S).Stall? then st
    else
      StepKeeps(cfg, st, S);
      Run(cfg, S, Step(cfg, st, S).st, k - 1)
  }

  ghost predicate Leads(cfg: Cfg, S: seq<bool>, a: St, b: St)
    requires WellFormed(a)
  {
    exists k: nat :: Run(cfg, S, a, k) == b
  }

  lemma {:induction false} RunAdd(cfg: Cfg, S: seq<bool>, a: St, j: nat, k: nat)
    requires WellFormed(a)
    ensures Run(cfg, S, a, j + k) == Run(cfg, S, Run(cfg, S, a, j), k)
    decreases j
  {
    hide Step, WellFormed;
    if Step(cfg, a, S).Stall? {
      StalledRun(cfg, S, a, k);
    } else if j > 0 {
      StepKeeps(cfg, a, S);
      RunAdd(cfg, S, Step(cfg, a, S).st, j - 1, k);
    }
  }

  lemma StalledRun(cfg: Cfg, S: seq<bool>, a: St, k: nat)
    requires WellFormed(a) && Step(cfg, a, S).Stall?
    ensures Run(cfg, S, a, k) == a
  {
  }

  lemma LeadsSelf(cfg: Cfg, S: seq<bool>, a: St)
    requires WellFormed(a)
    ensures Leads(cfg, S, a, a)
  {
    assert Run(cfg, S, a, 0) == a;
  }

  lemma LeadsStep(cfg: Cfg, S: seq<bool>, a: St, b: St)
    requires WellFormed(a) && Step(cfg, a, S) == Next(b)
    ensures Leads(cfg, S, a, b) && WellFormed(b)
  {
    hide Step;
    StepKeeps(cfg, a, S);
    assert Run(cfg, S, b, 0) == b;
    assert Run(cfg, S, a, 1) == b;
  }

  lemma LeadsTrans(cfg: Cfg, S: seq<bool>, a: St, b: St, c: St)
    requires WellFormed(a) && Leads(cfg, S, a, b) && WellFormed(b) && Leads(cfg, S, b, c)
    ensures Leads(cfg, S, a, c)
  {
    var j: nat :| Run(cfg, S, a, j) == b;
    var k: nat :| Run(cfg, S, b, k) == c;
    RunAdd(cfg, S, a, j, k);
  }

  lemma LeadsKeeps(cfg: Cfg, S: seq<bool>, a: St, b: St)
    requires WellFormed(a) && Leads(cfg, S, a, b)
    ensures WellFormed(b) && a.pos <= b.pos && a.out <= b.out
  {
    var k: nat :| Run(cfg, S, a, k) == b;
  }

  /** A run on part of the input is part of the run on more of it. */
  lemma {:induction false} RunMono(cfg: Cfg, S: seq<bool>, T: seq<bool>, a: St, k: nat)
    requires WellFormed(a) && S <= T
    ensures Leads(cfg, T, a, Run(cfg, S, a, k))
    decreases k
  {
    hide Step, WellFormed;
    if k == 0 || Step(cfg, a, S).Stall? {
      LeadsSelf(cfg, T, a);
    } else {
      var b := Step(cfg, a, S).st;
      StepKeeps(cfg, a, S);
      StepMono(cfg, a, S, T);
      LeadsStep(cfg, T, a, b);
      RunMono(cfg, S, T, b, k - 1);
      LeadsTrans(cfg, T, a, b, Run(cfg, S, a, k));
    }
  }

  lemma LeadsMono(cfg: Cfg, S: seq<bool>, T: seq<bool>, a: St, b: St)
    requires WellFormed(a) && S <= T && Leads(cfg, S, a, b)
    ensures Leads(cfg, T, a, b)
  {
    var k: nat :| Run(cfg, S, a, k) == b;
    RunMono(cfg, S, T, a, k);
  }

  /** The decoder is deterministic: of two states it reaches, one leads to the other. */
  lemma Deterministic(cfg: Cfg, S: seq<bool>, a: St, b: St, c: St)
    requires WellFormed(a) && Leads(cfg, S, a, b) && Leads(cfg, S, a, c)
    ensures WellFormed(b) && WellFormed(c) && (Leads(cfg, S, b, c) || Leads(cfg, S, c, b))
  {
    hide Step, WellFormed;
    LeadsKeeps(cfg, S, a, b);
    LeadsKeeps(cfg, S, a, c);
    var j: nat :| Run(cfg, S, a, j) == b;
    var k: nat :| Run(cfg, S, a, k) == c;
    if j <= k {
      RunAdd(cfg, S, a, j, k - j);
    } else {
      RunAdd(cfg, S, a, k, j - k);
    }
  }

  /** A halted state leads nowhere else. */
  lemma HaltedLeads(cfg: Cfg, S: seq<bool>, a: St, b: St)
    requires WellFormed(a) && Halted(a.ctl) && Leads(cfg, S, a, b)
    ensures b == a
  {
    var k: nat :| Run(cfg, S, a, k) == b;
    StalledRun(cfg, S, a, k);
  }

  /** At most one halted state is ever reached. */
  lemma HaltsOnce(cfg: Cfg, S: seq<bool>, a: St, b: St, c: St)
    requires WellFormed(a) && Leads(cfg, S, a, b) && Leads(cfg, S, a, c) && Halted(b.ctl) && Halted(c.ctl)
    ensures b == c
  {
    Deterministic(cfg, S, a, b, c);
    if Leads(cfg, S, b, c) {
      HaltedLeads(cfg, S, b, c);
    } else {
      HaltedLeads(cfg, S, c, b);
    }
  }

  /** Anything reached before a halted state leads to it. */
  lemma LeadsToEnd(cfg: Cfg, S: seq<bool>, a: St, b: St, c: St)
    requires WellFormed(a) && Leads(cfg, S, a, b) && Leads(cfg, S, a, c) && Halted(c.ctl)
    ensures WellFormed(b) && Leads(cfg, S, b, c)
  {
    Deterministic(cfg, S, a, b, c);
    if !Leads(cfg, S, b, c) {
      HaltedLeads(cfg, S, c, b);
      LeadsSelf(cfg, S, b);
    }
  }

  // ----- a run depends only on the bits it has used -----

  lemma SymLocal(lens: seq<nat>, a: seq<bool>, b: seq<bool>, s: nat)
    requires Usable(lens) && Short(lens) && a <= b && NextSym(lens, b) == Found(s) && lens[s] <= |a|
    ensures NextSym(lens, a) == Found(s)
  {
    hide Usable, SymBits;
    UsableFits(lens);
    assert a[..lens[s]] == b[..lens[s]];
    DecodeIs(lens, s, a);
  }

  lemma StepLocal(cfg: Cfg, st: St, S: seq<bool>, T: seq<bool>)
    requires WellFormed(st) && T <= S && Step(cfg, st, S).Next? && Step(cfg, st, S).st.pos <= |T|
        && !Step(cfg, st, S).st.ctl.Invalid?
    ensures Step(cfg, st, T) == Step(cfg, st, S)
  {
    hide NextSym, Usable;
    if AtSym(st.ctl) {
      SymStepLocal(cfg, st, S, T);
    } else {
      FieldForward(cfg, st, Peek(S, st.pos, Width(st.ctl)));
      assert S[st.pos..st.pos + Width(st.ctl)] == T[st.pos..st.pos + Width(st.ctl)];
    }
  }

  /** A field's step uses up the field. */
  lemma FieldForward(cfg: Cfg, st: St, v: nat)
    requires WellFormed(st) && !AtSym(st.ctl) && !Halted(st.ctl)
    ensures FieldStep(cfg, st, v).pos >= st.pos + Width(st.ctl)
  {
    hide Usable;
  }

  lemma SymStepLocal(cfg: Cfg, st: St, S: seq<bool>, T: seq<bool>)
    requires WellFormed(st) && AtSym(st.ctl) && T <= S && st.pos <= |S|
    requires SymStep(cfg, st, S).Next? && SymStep(cfg, st, S).st.pos <= |T| && !SymStep(cfg, st, S).st.ctl.Invalid?
    ensures st.pos <= |T| && SymStep(cfg, st, T) == SymStep(cfg, st, S)
  {
    hide NextSym, Usable, LensDone;
    var lens := if st.ctl.Lens? then st.ctl.cl else if st.ctl.LitLen? then st.lit else st.dst;
    var r := NextSym(lens, S[st.pos..]);
    SymForward(cfg, st, S);
    assert T[st.pos..] <= S[st.pos..];
    SymLocal(lens, T[st.pos..], S[st.pos..], r.s);
  }

  lemma SymForward(cfg: Cfg, st: St, S: seq<bool>)
    requires WellFormed(st) && AtSym(st.ctl) && st.pos <= |S| && SymStep(cfg, st, S).Next?
        && !SymStep(cfg, st, S).st.ctl.Invalid?
    ensures var lens := if st.ctl.Lens? then st.ctl.cl else if st.ctl.LitLen? then st.lit else st.dst;
            var r := NextSym(lens, S[st.pos..]);
            r.Found? && SymStep(cfg, st, S).st.pos >= st.pos + lens[r.s]
  {
    hide NextSym, Usable, LensDone, LensStep, DistStep, LitLenStep;
    var lens := if st.ctl.Lens? then st.ctl.cl else if st.ctl.LitLen? then st.lit else st.dst;
    var r := NextSym(lens, S[st.pos..]);
    if r.Found? {
      match st.ctl
      case Lens(hlit, total, cl, got) => LensForward(st, hlit, total, cl, got, r.s, cl[r.s]);
      case LitLen => LitLenForward(cfg, st, r.s, st.lit[r.s]);
      case DistSym(len) => DistForward(cfg, st, len, r.s, st.dst[r.s]);
    }
  }

  lemma LensForward(st: St, hlit: nat, total: nat, cl: seq<nat>, got: seq<nat>, sym: nat, n: nat)
    requires hlit <= total
    ensures LensStep(st, hlit, total, cl, got, sym, n).pos == st.pos + n
  {
    hide Usable;
  }

  lemma LitLenForward(cfg: Cfg, st: St, sym: nat, n: nat)
    ensures LitLenStep(cfg, st, sym, n).pos >= st.pos + n
  {
  }

  lemma DistForward(cfg: Cfg, st: St, len: nat, sym: nat, n: nat)
    ensures DistStep(cfg, st, len, sym, n).pos == st.pos + n
  {
  }

  lemma {:induction false} RunLocal(cfg: Cfg, S: seq<bool>, T: seq<bool>, a: St, k: nat)
    requires WellFormed(a) && T <= S && Run(cfg, S, a, k).pos <= |T| && !Run(cfg, S, a, k).ctl.Invalid?
    ensures Leads(cfg, T, a, Run(cfg, S, a, k))
    decreases k
  {
    hide Step, WellFormed;
    if k == 0 || Step(cfg, a, S).Stall? {
      LeadsSelf(cfg, T, a);
    } else {
      var b := Step(cfg, a, S).st;
      StepKeeps(cfg, a, S);
      InvalidStays(cfg, S, b, k - 1);
      StepLocal(cfg, a, S, T);
      LeadsStep(cfg, T, a, b);
      RunLocal(cfg, S, T, b, k - 1);
      LeadsTrans(cfg, T, a, b, Run(cfg, S, a, k));
    }
  }

  lemma InvalidStays(cfg: Cfg, S: seq<bool>, a: St, k: nat)
    requires WellFormed(a)
    ensures a.ctl.Invalid? ==> Run(cfg, S, a, k) == a
  {
  }

  /** What was reached depends only on the bits up to its position. */
  lemma LeadsLocal(cfg: Cfg, S: seq<bool>, T: seq<bool>, a: St, b: St)
    requires WellFormed(a) && T <= S && Leads(cfg, S, a, b) && b.pos <= |T| && !b.ctl.Invalid?
    ensures Leads(cfg, T, a, b)
  {
    hide WellFormed, Run;
    var k: nat :| Run(cfg, S, a, k) == b;
    RunLocal(cfg, S, T, a, k);
  }

  // ----- the output is bounded by the input -----

  /** Bytes that a state has promised but not written. */
  function Owed(c: Ctl): nat {
    match c
    case EmitLit(_) => 1
    case RawEmit(_, _) => 1
    case LenExtra(_, _) => 258
    case DistSym(len) => len
    case DistExtra(len, _, _) => len
    case CopyMatch(len, _) => len
    case _ => 0
  }

  /** Every bit read pays for at most 258 bytes. */
  ghost predicate Paid(st: St) {
    |st.out| + Owed(st.ctl) <= 258 * st.pos
  }

  lemma FieldPaid(cfg: Cfg, st: St, v: nat)
    requires WellFormed(st) && Paid(st) && !AtSym(st.ctl) && !Halted(st.ctl) && v < Pow2(Width(st.ctl))
    ensures Paid(FieldStep(cfg, st, v))
  {
    hide Usable, Pow2, Short, LensOk, Unpack, BadZlibHeader;
    FieldKeeps(cfg, st, v);
  }

  lemma LensPaid(st: St, hlit: nat, total: nat, cl: seq<nat>, got: seq<nat>, sym: nat, n: nat)
    requires hlit <= total && Paid(st)
    ensures Paid(LensStep(st, hlit, total, cl, got, sym, n))
  {
    hide Usable;
  }

  lemma LitLenPaid(cfg: Cfg, st: St, sym: nat, n: nat)
    requires WellFormed(st) && st.ctl.LitLen? && n > 0 && Paid(st)
    ensures Paid(LitLenStep(cfg, st, sym, n))
  {
    hide Usable;
    if 257 <= sym < 286 {
      LengthTable(sym - 257);
    }
  }

  lemma DistPaid(cfg: Cfg, st: St, len: nat, sym: nat, n: nat)
    requires st.ctl == DistSym(len) && Paid(st)
    ensures Paid(DistStep(cfg, st, len, sym, n))
  {
  }

  lemma FoundLong(lens: seq<nat>, bits: seq<bool>)
    ensures NextSym(lens, bits).Found? ==> NextSym(lens, bits).s < |lens| && lens[NextSym(lens, bits).s] > 0
  {
    hide SymBits;
  }

  lemma SymPaid(cfg: Cfg, st: St, S: seq<bool>)
    requires WellFormed(st) && Paid(st) && AtSym(st.ctl) && st.pos <= |S| && SymStep(cfg, st, S).Next?
    ensures Paid(SymStep(cfg, st, S).st)
  {
    hide NextSym, Usable, LensStep, LitLenStep, DistStep;
    var lens := if st.ctl.Lens? then st.ctl.cl else if st.ctl.LitLen? then st.lit else st.dst;
    var r := NextSym(lens, S[st.pos..]);
    if r.Found? {
      FoundLong(lens, S[st.pos..]);
      match st.ctl
      case Lens(hlit, total, cl, got) => LensPaid(st, hlit, total, cl, got, r.s, cl[r.s]);
      case LitLen => LitLenPaid(cfg, st, r.s, st.lit[r.s]);
      case DistSym(len) => DistPaid(cfg, st, len, r.s, st.dst[r.s]);
    }
  }

  lemma {:induction false} RunPaid(cfg: Cfg, S: seq<bool>, a: St, k: nat)
    requires WellFormed(a) && Paid(a)
    ensures Paid(Run(cfg, S, a, k))
    decreases k
  {
    hide SymStep, FieldStep, CodesOk, LensOk, Paid, Peek;
    if k > 0 && Step(cfg, a, S).Next? {
      StepKeeps(cfg, a, S);
      if AtSym(a.ctl) {
        SymPaid(cfg, a, S);
      } else {
        PeekSmall(S, a.pos, Width(a.ctl));
        FieldPaid(cfg, a, Peek(S, a.pos, Width(a.ctl)));
      }
      RunPaid(cfg, S, Step(cfg, a, S).st, k - 1);
    }
  }

  /** Whatever is reached has written at most 258 bytes for each bit read. */
  lemma OutBound(cfg: Cfg, S: seq<bool>, st: St)
    requires WellFormed(Init(cfg)) && Leads(cfg, S, Init(cfg), st)
    ensures |st.out| <= 258 * st.pos
  {
    hide Run, WellFormed;
    var k: nat :| Run(cfg, S, Init(cfg), k) == st;
    RunPaid(cfg, S, Init(cfg), k);
  }

  // ----- reading printed fields -----

  /** The stream has these bits at this position. */
  predicate At(S: seq<bool>, pos: nat, b: seq<bool>) {
    pos + |b| <= |S| && S[pos..pos + |b|] == b
  }

  lemma AtSplit(S: seq<bool>, pos: nat, a: seq<bool>, b: seq<bool>)
    requires At(S, pos, a + b)
    ensures At(S, pos, a) && At(S, pos + |a|, b)
  {
    var c := S[pos..pos + |a + b|];
    assert c[..|a|] == a && c[|a|..] == b;
    assert S[pos..pos + |a|] == c[..|a|];
    assert S[pos + |a|..pos + |a| + |b|] == c[|a|..];
  }

  lemma FieldAt(cfg: Cfg, S: seq<bool>, st: St, v: nat)
    requires WellFormed(st) && !AtSym(st.ctl) && !Halted(st.ctl) && v < Pow2(Width(st.ctl))
    requires At(S, st.pos, ToBits(v, Width(st.ctl)))
    ensures Step(cfg, st, S) == Next(FieldStep(cfg, st, v)) && WellFormed(FieldStep(cfg, st, v))
    ensures Leads(cfg, S, st, FieldStep(cfg, st, v))
  {
    hide FieldStep, Leads, ToBits, CodesOk, LensOk, SymStep;
    FromToBits(v, Width(st.ctl));
    assert Peek(S, st.pos, Width(st.ctl)) == v;
    LeadsStep(cfg, S, st, FieldStep(cfg, st, v));
  }

  lemma SymAt(lens: seq<nat>, S: seq<bool>, pos: nat, s: nat)
    requires Usable(lens) && Short(lens) && s < |lens| && lens[s] > 0 && At(S, pos, SymBits(lens, s))
    ensures NextSym(lens, S[pos..]) == Found(s)
  {
    hide Usable, SymBits;
    UsableFits(lens);
    assert S[pos..][..lens[s]] == SymBits(lens, s);
    DecodeIs(lens, s, S[pos..]);
  }

  lemma SymLeads(cfg: Cfg, S: seq<bool>, st: St, t: St)
    requires WellFormed(st) && AtSym(st.ctl) && st.pos <= |S| && SymStep(cfg, st, S) == Next(t)
    ensures Leads(cfg, S, st, t) && WellFormed(t)
  {
    hide SymStep, Leads, WellFormed;
    LeadsStep(cfg, S, st, t);
  }

  // ----- items -----

  /** The item's distance lies within a wrapping buffer. */
  ghost predicate Spans(cfg: Cfg, i: Item) {
    ValidItem(i) && (i.Copy? ==> Near(cfg, CopyDist(i)))
  }

  ghost predicate AllSpan(cfg: Cfg, s: seq<Item>) {
    forall k :: 0 <= k < |s| ==> Spans(cfg, s[k])
  }

  /** Copying a match byte by byte. */
  lemma {:induction false} CopyLeads(cfg: Cfg, S: seq<bool>, st: St)
    requires WellFormed(st) && st.ctl.CopyMatch? && st.pos <= |S|
    ensures Leads(cfg, S, st, st.(ctl := LitLen, out := CopyBytes(st.out, st.ctl.dist, st.ctl.len)))
    decreases st.ctl.len
  {
    hide Usable, Leads;
    var len, dist := st.ctl.len, st.ctl.dist;
    assert ToBits(0, 0) == [] && Pow2(0) == 1;
    FieldAt(cfg, S, st, 0);
    var t := CopyStep(st, len, dist);
    if len > 1 {
      CopyLeads(cfg, S, t);
      LeadsTrans(cfg, S, st, t, st.(ctl := LitLen, out := CopyBytes(st.out, dist, len)));
    }
  }

  lemma LitLeads(cfg: Cfg, S: seq<bool>, st: St, b: byte)
    requires WellFormed(st) && st.ctl.LitLen? && b < |st.lit| && st.lit[b] > 0 && At(S, st.pos, SymBits(st.lit, b))
    ensures Leads(cfg, S, st, st.(pos := st.pos + st.lit[b], out := st.out + [b]))
  {
    hide Usable, Leads, SymBits;
    SymAt(st.lit, S, st.pos, b);
    var t := st.(ctl := EmitLit(b), pos := st.pos + st.lit[b]);
    SymLeads(cfg, S, st, t);
    assert ToBits(0, 0) == [] && Pow2(0) == 1;
    FieldAt(cfg, S, t, 0);
    LeadsTrans(cfg, S, st, t, st.(pos := st.pos + st.lit[b], out := st.out + [b]));
  }

  /** The length symbol and its extra bits lead to the distance symbol. */
  lemma LenLeads(cfg: Cfg, S: seq<bool>, st: St, l: nat, le: nat)
    requires WellFormed(st) && st.ctl.LitLen? && l < 29 && le < Pow2(LENGTH_EXTRA[l])
    requires 257 + l < |st.lit| && st.lit[257 + l] > 0
    requires At(S, st.pos, SymBits(st.lit, 257 + l)) && At(S, st.pos + st.lit[257 + l], ToBits(le, LENGTH_EXTRA[l]))
    ensures Leads(cfg, S, st,
        st.(ctl := DistSym(LENGTH_BASE[l] + le), pos := st.pos + st.lit[257 + l] + LENGTH_EXTRA[l]))
  {
    hide Leads, SymBits, ToBits, Pow2, WellFormed, LitLenStep, FieldStep, NextSym, SymStep, At;
    LitCodes(st);
    SymAt(st.lit, S, st.pos, 257 + l);
    InRange(S, st.pos, SymBits(st.lit, 257 + l));
    LengthStep(cfg, st, l, st.lit[257 + l]);
    LitTaken(cfg, S, st, 257 + l);
    var t := LitLenStep(cfg, st, 257 + l, st.lit[257 + l]);
    SymLeads(cfg, S, st, t);
    PowZero();
    LenRest(cfg, S, st, t, LENGTH_BASE[l], LENGTH_EXTRA[l], le);
  }

  /** The extra bits of a length, if it has any. */
  lemma LenRest(cfg: Cfg, S: seq<bool>, st: St, t: St, base: nat, extra: nat, le: nat)
    requires WellFormed(st) && WellFormed(t) && Leads(cfg, S, st, t) && le < Pow2(extra) && (extra == 0 ==> le == 0)
    requires t.ctl == (if extra > 0 then LenExtra(base, extra) else DistSym(base)) && At(S, t.pos, ToBits(le, extra))
    ensures Leads(cfg, S, st, t.(ctl := DistSym(base + le), pos := t.pos + extra))
  {
    hide Leads, ToBits, Pow2, WellFormed, FieldStep, At;
    if extra > 0 {
      FieldIs(cfg, t, le);
      FieldAt(cfg, S, t, le);
      LeadsTrans(cfg, S, st, t, FieldStep(cfg, t, le));
    }
  }

  lemma LitCodes(st: St)
    requires WellFormed(st) && (st.ctl.LitLen? || st.ctl.DistSym?)
    ensures Usable(st.lit) && Short(st.lit) && Usable(st.dst) && Short(st.dst)
  {
    hide Usable, Short;
  }

  lemma LitTaken(cfg: Cfg, S: seq<bool>, st: St, sym: nat)
    requires WellFormed(st) && st.ctl.LitLen? && st.pos <= |S| && sym < |st.lit|
        && NextSym(st.lit, S[st.pos..]) == Found(sym)
    ensures SymStep(cfg, st, S) == Next(LitLenStep(cfg, st, sym, st.lit[sym]))
  {
    hide WellFormed, LitLenStep, NextSym;
  }

  lemma LengthStep(cfg: Cfg, st: St, l: nat, n: nat)
    requires l < 29
    ensures var t := LitLenStep(cfg, st, 257 + l, n);
            t == st.(pos := st.pos + n, ctl := if LENGTH_EXTRA[l] > 0 then LenExtra(LENGTH_BASE[l], LENGTH_EXTRA[l])
                else DistSym(LENGTH_BASE[l]))
  {
  }

  lemma PowZero()
    ensures Pow2(0) == 1
  {
  }

  /** The distance symbol and its extra bits lead to the copy. */
  lemma DistLeads(cfg: Cfg, S: seq<bool>, st: St, d: nat, de: nat)
    requires WellFormed(st) && st.ctl.DistSym? && st.ctl.len > 0 && d < 30 && de < Pow2(DIST_EXTRA[d])
    requires d < |st.dst| && st.dst[d] > 0 && 0 < DIST_BASE[d] + de <= |st.out| && Near(cfg, DIST_BASE[d] + de)
    requires At(S, st.pos, SymBits(st.dst, d)) && At(S, st.pos + st.dst[d], ToBits(de, DIST_EXTRA[d]))
    ensures Leads(cfg, S, st,
        st.(ctl := CopyMatch(st.ctl.len, DIST_BASE[d] + de), pos := st.pos + st.dst[d] + DIST_EXTRA[d]))
  {
    hide Usable, Leads, SymBits, ToBits, Pow2, At, WellFormed, FieldStep, Follows;
    DistSymAt(cfg, S, st, d);
    var t := DistStep(cfg, st, st.ctl.len, d, st.dst[d]);
    if DIST_EXTRA[d] > 0 {
      FieldAt(cfg, S, t, de);
      DistField(cfg, t, de);
      LeadsTrans(cfg, S, st, t, FieldStep(cfg, t, de));
    } else {
      assert de == 0 by { PowZero(); }
    }
  }

  lemma DistField(cfg: Cfg, t: St, de: nat)
    requires WellFormed(t) && t.ctl.DistExtra? && t.ctl.len > 0 && 0 < t.ctl.base + de <= |t.out|
        && Near(cfg, t.ctl.base + de)
    ensures FieldStep(cfg, t, de) == t.(ctl := CopyMatch(t.ctl.len, t.ctl.base + de), pos := t.pos + t.ctl.extra)
  {
    hide CodesOk, Pow2;
  }

  lemma DistSymAt(cfg: Cfg, S: seq<bool>, st: St, d: nat)
    requires WellFormed(st) && st.ctl.DistSym? && d < |st.dst| && st.dst[d] > 0 && At(S, st.pos, SymBits(st.dst, d))
    ensures Leads(cfg, S, st, DistStep(cfg, st, st.ctl.len, d, st.dst[d]))
        && WellFormed(DistStep(cfg, st, st.ctl.len, d, st.dst[d]))
  {
    hide Usable, Leads, SymBits, DistStep;
    SymAt(st.dst, S, st.pos, d);
    SymLeads(cfg, S, st, DistStep(cfg, st, st.ctl.len, d, st.dst[d]));
  }

  lemma FourParts(S: seq<bool>, pos: nat, a: seq<bool>, b: seq<bool>, c: seq<bool>, d: seq<bool>)
    requires At(S, pos, a + (b + (c + d)))
    ensures At(S, pos, a) && At(S, pos + |a|, b) && At(S, pos + |a| + |b|, c) && At(S, pos + |a| + |b| + |c|, d)
  {
    hide At;
    AtSplit(S, pos, a, b + (c + d));
    AtSplit(S, pos + |a|, b, c + d);
    AtSplit(S, pos + |a| + |b|, c, d);
  }

  /** The four fields of a match lead to the copy. */
  lemma MatchDecoded(cfg: Cfg, S: seq<bool>, st: St, l: nat, le: nat, d: nat, de: nat) returns (u: St)
    requires WellFormed(st) && st.ctl.LitLen? && l < 29 && le < Pow2(LENGTH_EXTRA[l]) && d < 30
        && de < Pow2(DIST_EXTRA[d])
    requires Coded(Copy(l, le, d, de), st.lit, st.dst) && 0 < DIST_BASE[d] + de <= |st.out|
        && Near(cfg, DIST_BASE[d] + de)
    requires var p := st.pos + st.lit[257 + l] + LENGTH_EXTRA[l];
             && At(S, st.pos, SymBits(st.lit, 257 + l)) && At(S, st.pos + st.lit[257 + l], ToBits(le, LENGTH_EXTRA[l]))
             && At(S, p, SymBits(st.dst, d)) && At(S, p + st.dst[d], ToBits(de, DIST_EXTRA[d]))
    ensures u == st.(ctl := CopyMatch(LENGTH_BASE[l] + le, DIST_BASE[d] + de),
                     pos := st.pos + st.lit[257 + l] + LENGTH_EXTRA[l] + st.dst[d] + DIST_EXTRA[d])
    ensures WellFormed(u) && Leads(cfg, S, st, u) && u.pos <= |S|
  {
    hide Usable, Leads, SymBits, ToBits, Pow2, WellFormed;
    LenLeads(cfg, S, st, l, le);
    var t := st.(ctl := DistSym(LENGTH_BASE[l] + le), pos := st.pos + st.lit[257 + l] + LENGTH_EXTRA[l]);
    LeadsKeeps(cfg, S, st, t);
    DistLeads(cfg, S, t, d, de);
    u := t.(ctl := CopyMatch(t.ctl.len, DIST_BASE[d] + de), pos := t.pos + st.dst[d] + DIST_EXTRA[d]);
    LeadsTrans(cfg, S, st, t, u);
    LeadsKeeps(cfg, S, st, u);
  }

  lemma MatchLeads(cfg: Cfg, S: seq<bool>, st: St, i: Item)
    requires WellFormed(st) && st.ctl.LitLen? && i.Copy? && Reaches(i, st.out) && Spans(cfg, i)
        && Coded(i, st.lit, st.dst)
    requires At(S, st.pos, ItemBits(i, st.lit, st.dst))
    ensures Leads(cfg, S, st, st.(pos := st.pos + |ItemBits(i, st.lit, st.dst)|, out := Apply(i, st.out)))
  {
    hide Usable, Leads, SymBits, ToBits, Pow2, At, CopyBytes, WellFormed;
    var l, le, d, de := i.lsym, i.lextra, i.dsym, i.dextra;
    FourParts(S, st.pos, SymBits(st.lit, 257 + l), ToBits(le, LENGTH_EXTRA[l]), SymBits(st.dst, d),
        ToBits(de, DIST_EXTRA[d]));
    var u := MatchDecoded(cfg, S, st, l, le, d, de);
    CopyLeads(cfg, S, u);
    LeadsTrans(cfg, S, st, u, u.(ctl := LitLen, out := CopyBytes(u.out, u.ctl.dist, u.ctl.len)));
  }

  lemma ItemLeads(cfg: Cfg, S: seq<bool>, st: St, i: Item)
    requires WellFormed(st) && st.ctl.LitLen? && Reaches(i, st.out) && Spans(cfg, i) && Coded(i, st.lit, st.dst)
    requires At(S, st.pos, ItemBits(i, st.lit, st.dst))
    ensures Leads(cfg, S, st, st.(pos := st.pos + |ItemBits(i, st.lit, st.dst)|, out := Apply(i, st.out)))
  {
    hide Usable, Leads, SymBits, WellFormed;
    if i.Lit? {
      LitLeads(cfg, S, st, i.b);
    } else {
      MatchLeads(cfg, S, st, i);
    }
  }

  lemma {:induction false} ItemsLead(cfg: Cfg, S: seq<bool>, st: St, s: seq<Item>)
    requires WellFormed(st) && st.ctl.LitLen? && ItemsOk(s, st.out) && AllCoded(s, st.lit, st.dst) && AllSpan(cfg, s)
    requires At(S, st.pos, ItemsBits(s, st.lit, st.dst))
    ensures Leads(cfg, S, st, st.(pos := st.pos + |ItemsBits(s, st.lit, st.dst)|, out := ApplyAll(s, st.out)))
  {
    hide Leads, ItemBits, Coded, Reaches, Usable, At, WellFormed, Apply, Spans;
    if s == [] {
      LeadsSelf(cfg, S, st);
    } else {
      var n := |s| - 1;
      var a, b := ItemsBits(s[..n], st.lit, st.dst), ItemBits(s[n], st.lit, st.dst);
      AtSplit(S, st.pos, a, b);
      ItemsLead(cfg, S, st, s[..n]);
      var t := st.(pos := st.pos + |a|, out := ApplyAll(s[..n], st.out));
      LeadsKeeps(cfg, S, st, t);
      ItemLeads(cfg, S, t, s[n]);
      LeadsTrans(cfg, S, st, t, st.(pos := st.pos + |a| + |b|, out := ApplyAll(s, st.out)));
    }
  }

  // ----- stored blocks -----

  lemma {:induction false} ByteAt(S: seq<bool>, pos: nat, data: seq<byte>, i: nat)
    requires At(S, pos, ByteBits(data)) && i < |data|
    ensures At(S, pos + 8 * i, ToBits(data[i], 8))
    decreases |data|
  {
    hide ToBits;
    var n := |data| - 1;
    AtSplit(S, pos, ByteBits(data[..n]), ToBits(data[n], 8));
    if i < n {
      ByteAt(S, pos, data[..n], i);
    }
  }

  /** Copying stored bytes, from the i-th on. */
  lemma {:induction false} RawLeads(cfg: Cfg, S: seq<bool>, st: St, data: seq<byte>, i: nat)
    requires i <= |data| && st.ctl == RawCopy(|data| - i) && WellFormed(st) && st.pos >= 8 * i
    requires At(S, st.pos - 8 * i, ByteBits(data))
    ensures Leads(cfg, S, st, st.(ctl := RawCopy(0), pos := st.pos + 8 * (|data| - i), out := st.out + data[i..]))
    decreases |data| - i
  {
    hide Leads, At, ToBits, ByteBits, Pow2;
    if i == |data| {
      assert data[i..] == [];
      assert st.out + data[i..] == st.out;
      LeadsSelf(cfg, S, st);
    } else {
      ByteAt(S, st.pos - 8 * i, data, i);
      PowByte();
      FieldAt(cfg, S, st, data[i]);
      var t := st.(ctl := RawEmit(|data| - i, data[i]), pos := st.pos + 8);
      var u := t.(ctl := RawCopy(|data| - i - 1), out := t.out + [data[i]]);
      EmptyAt(S, t.pos, st.pos, data[i]);
      FieldAt(cfg, S, t, 0);
      LeadsTrans(cfg, S, st, t, u);
      RawLeads(cfg, S, u, data, i + 1);
      assert u.out + data[i + 1..] == st.out + data[i..];
      LeadsTrans(cfg, S, st, u, st.(ctl := RawCopy(0), pos := st.pos + 8 * (|data| - i), out := st.out + data[i..]));
    }
  }

  lemma PowByte()
    ensures Pow2(8) == 256 && Pow2(0) == 1 && Pow2(16) == 65536
  {
  }

  lemma EmptyAt(S: seq<bool>, pos: nat, before: nat, b: byte)
    requires pos == before + 8 && At(S, before, ToBits(b, 8))
    ensures At(S, pos, ToBits(0, 0))
  {
  }

  lemma Halves(v: nat)
    requires v < 65536
    ensures ToBits(v, 16) == ToBits(v % 256, 8) + ToBits(v / 256, 8)
  {
    PowByte();
    ToBitsConcat(v % 256, 8, v / 256, 8);
  }

  lemma RawByte(cfg: Cfg, S: seq<bool>, st: St, b: byte)
    requires WellFormed(st) && st.ctl.RawHdr? && At(S, st.pos, ToBits(b, 8))
    ensures Leads(cfg, S, st, RawHdrStep(st, st.ctl.hdr, b)) && WellFormed(RawHdrStep(st, st.ctl.hdr, b))
  {
    hide Leads, At, ToBits, Pow2, FieldStep, RawHdrStep, WellFormed;
    PowByte();
    FieldIs(cfg, st, b);
    FieldAt(cfg, S, st, b);
  }

  /** The four bytes of a stored block's header, one after the other. */
  lemma RawBytes(st: St, b0: nat, b1: nat, b2: nat, b3: nat)
    requires st.ctl == RawHdr([]) && b0 + 256 * b1 + (b2 + 256 * b3) == 65535
    ensures var s1 := RawHdrStep(st, [], b0); s1 == st.(ctl := RawHdr([b0]), pos := st.pos + 8)
    ensures RawHdrStep(st.(ctl := RawHdr([b0]), pos := st.pos + 8), [b0], b1) == st.(ctl := RawHdr([b0, b1]),
        pos := st.pos + 16)
    ensures RawHdrStep(st.(ctl := RawHdr([b0, b1]), pos := st.pos + 16), [b0, b1], b2)
        == st.(ctl := RawHdr([b0, b1, b2]), pos := st.pos + 24)
    ensures RawHdrStep(st.(ctl := RawHdr([b0, b1, b2]), pos := st.pos + 24), [b0, b1, b2], b3)
        == st.(ctl := RawCopy(b0 + 256 * b1), pos := st.pos + 32)
  {
    var none: seq<nat> := [];
    assert none + [b0] == [b0] && [b0] + [b1] == [b0, b1] && [b0, b1] + [b2] == [b0, b1, b2];
  }

  /** The length and its complement lead to the copying. */
  lemma RawHeader(cfg: Cfg, S: seq<bool>, st: St, n: nat)
    requires WellFormed(st) && st.ctl == RawHdr([]) && n < 65536
    requires At(S, st.pos, ToBits(n, 16)) && At(S, st.pos + 16, ToBits(65535 - n, 16))
    ensures Leads(cfg, S, st, st.(ctl := RawCopy(n), pos := st.pos + 32))
  {
    hide Leads, At, ToBits, Pow2, RawHdrStep, WellFormed;
    var m := 65535 - n;
    var b0, b1, b2, b3 := n % 256, n / 256, m % 256, m / 256;
    Halves(n);
    Halves(m);
    AtSplit(S, st.pos, ToBits(b0, 8), ToBits(b1, 8));
    AtSplit(S, st.pos + 16, ToBits(b2, 8), ToBits(b3, 8));
    RawBytes(st, b0, b1, b2, b3);
    RawByte(cfg, S, st, b0);
    var s1 := st.(ctl := RawHdr([b0]), pos := st.pos + 8);
    RawByte(cfg, S, s1, b1);
    var s2 := st.(ctl := RawHdr([b0, b1]), pos := st.pos + 16);
    RawByte(cfg, S, s2, b2);
    var s3 := st.(ctl := RawHdr([b0, b1, b2]), pos := st.pos + 24);
    RawByte(cfg, S, s3, b3);
    LeadsTrans(cfg, S, st, s1, s2);
    LeadsTrans(cfg, S, st, s2, s3);
    LeadsTrans(cfg, S, st, s3, st.(ctl := RawCopy(n), pos := st.pos + 32));
  }

  // ----- dynamic headers -----

  const UNSWIZZLE: seq<nat> := [3, 17, 15, 13, 11, 9, 7, 5, 4, 6, 8, 10, 12, 14, 16, 18, 0, 1, 2]

  lemma SwizzleInverse(i: nat)
    requires i < 19
    ensures UNSWIZZLE[i] < 19 && SWIZZLE[UNSWIZZLE[i]] == i
    ensures SWIZZLE[i] < 19 && UNSWIZZLE[SWIZZLE[i]] == i
  {
  }

  /** The code-length lengths after the first n three-bit fields. */
  function PartialCl(cl: seq<nat>, n: nat): (r: seq<nat>)
    requires |cl| == 19 && n <= 19
    ensures |r| == 19
  {
    if n == 0 then Repeat(0, 19)
    else SwizzleInverse(n - 1); PartialCl(cl, n - 1)[SWIZZLE[n - 1] := cl[SWIZZLE[n - 1]]]
  }

  lemma {:induction false} PartialIs(cl: seq<nat>, n: nat, i: nat)
    requires |cl| == 19 && n <= 19 && i < 19
    ensures PartialCl(cl, n)[i] == if UNSWIZZLE[i] < n then cl[i] else 0
  {
    SwizzleInverse(i);
    if n > 0 {
      SwizzleInverse(n - 1);
      PartialIs(cl, n - 1, i);
    }
  }

  lemma PartialAll(cl: seq<nat>, n: nat)
    requires |cl| == 19 && n <= 19 && forall i {:trigger SWIZZLE[i]} :: n <= i < 19 ==> cl[SWIZZLE[i]] == 0
    ensures PartialCl(cl, n) == cl
  {
    forall i | 0 <= i < 19 ensures PartialCl(cl, n)[i] == cl[i] {
      PartialIs(cl, n, i);
      SwizzleInverse(i);
    }
  }

  lemma {:induction false} ClPrefix(S: seq<bool>, pos: nat, cl: seq<nat>, n: nat, i: nat)
    requires |cl| == 19 && i < n <= 19 && At(S, pos, ClBits(cl, n))
    ensures At(S, pos + 3 * i, ToBits(cl[SWIZZLE[i]], 3))
  {
    hide ToBits;
    AtSplit(S, pos, ClBits(cl, n - 1), ToBits(cl[SWIZZLE[n - 1]], 3));
    if i < n - 1 {
      ClPrefix(S, pos, cl, n - 1, i);
    }
  }

  /** Reading the code-length code's lengths, from the i-th on. */
  lemma {:induction false} ClLead(cfg: Cfg, S: seq<bool>, st: St, h: Header, i: nat)
    requires HeaderOk(h) && i < h.hclen && WellFormed(st)
        && st.ctl == ClLens([h.hlit, h.hdist, h.hclen], PartialCl(h.cl, i), i)
    requires st.pos >= 3 * i && At(S, st.pos - 3 * i, ClBits(h.cl, h.hclen))
    ensures Leads(cfg, S, st, st.(ctl := Lens(h.hlit, h.hlit + h.hdist, h.cl, []), pos := st.pos + 3 * (h.hclen - i)))
    decreases h.hclen - i
  {
    hide Leads, At, ToBits, Pow2, WellFormed, HeaderOk, ClBits, ClLensStep, FieldStep, PartialCl;
    ClFacts(h, i);
    ClPrefix(S, st.pos - 3 * i, h.cl, h.hclen, i);
    var v := h.cl[SWIZZLE[i]];
    PowThree();
    FieldIs(cfg, st, v);
    FieldAt(cfg, S, st, v);
    ClNext(st, h, i);
    if i + 1 < h.hclen {
      var t := st.(ctl := ClLens([h.hlit, h.hdist, h.hclen], PartialCl(h.cl, i + 1), i + 1), pos := st.pos + 3);
      ClLead(cfg, S, t, h, i + 1);
      LeadsTrans(cfg, S, st, t,
          st.(ctl := Lens(h.hlit, h.hlit + h.hdist, h.cl, []), pos := st.pos + 3 * (h.hclen - i)));
    }
  }

  lemma ClFacts(h: Header, i: nat)
    requires HeaderOk(h) && i < h.hclen
    ensures h.hclen <= 19 == |h.cl| && SWIZZLE[i] < 19 && h.cl[SWIZZLE[i]] < 8
  {
    hide Usable, PacksOk, PacksCoded, UnpackAll, HeaderLit, HeaderDist;
    SwizzleInverse(i);
  }

  /** One more length: another one follows, or they are all there. */
  lemma ClNext(st: St, h: Header, i: nat)
    requires HeaderOk(h) && i < h.hclen && SWIZZLE[i] < 19
    ensures ClLensStep(st, [h.hlit, h.hdist, h.hclen], PartialCl(h.cl, i), i, h.cl[SWIZZLE[i]])
         == if i + 1 < h.hclen then st.(ctl := ClLens([h.hlit, h.hdist, h.hclen], PartialCl(h.cl, i + 1), i + 1),
             pos := st.pos + 3)
            else st.(ctl := Lens(h.hlit, h.hlit + h.hdist, h.cl, []), pos := st.pos + 3)
  {
    hide Usable, PacksOk, PacksCoded, UnpackAll, HeaderLit, HeaderDist;
    assert PartialCl(h.cl, i + 1) == PartialCl(h.cl, i)[SWIZZLE[i] := h.cl[SWIZZLE[i]]];
    if i + 1 == h.hclen {
      PartialAll(h.cl, h.hclen);
    }
  }

  lemma PowThree()
    ensures Pow2(3) == 8 && Pow2(5) == 32 && Pow2(4) == 16
  {
  }

  /** Unpacking only adds lengths. */
  lemma {:induction false} UnpackGrows(s: seq<Pack>, k: nat)
    requires PacksOk(s) && k < |s|
    ensures PacksOk(s[..k]) && |UnpackAll(s[..k])| < |UnpackAll(s)|
    decreases |s|
  {
    var n := |s| - 1;
    if k < n {
      UnpackGrows(s[..n], k);
      assert s[..n][..k] == s[..k];
    }
  }

  /** The result does not depend on the control state before. */
  lemma LensDoneSame(st: St, c: Ctl, hlit: nat, total: nat, cl: seq<nat>, got: seq<nat>)
    requires hlit <= total
    ensures LensDone(st.(ctl := c), hlit, total, cl, got) == LensDone(st, hlit, total, cl, got)
  {
  }

  /** One packed symbol. */
  lemma PackLead(cfg: Cfg, S: seq<bool>, st: St, p: Pack)
    requires WellFormed(st) && st.ctl.Lens? && PackOk(p, st.ctl.got) && st.ctl.cl[p.sym] > 0
    requires At(S, st.pos, PackBits(p, st.ctl.cl))
    ensures Leads(cfg, S, st, LensDone(st.(pos := st.pos + |PackBits(p, st.ctl.cl)|), st.ctl.hlit, st.ctl.total,
        st.ctl.cl, Unpack(p, st.ctl.got)))
  {
    PowZero();
    hide Leads, Usable, SymBits, ToBits, At, LensDone, Pow2;
    var c := st.ctl;
    AtSplit(S, st.pos, SymBits(c.cl, p.sym), ToBits(p.extra, PackExtra(p.sym)));
    SymAt(c.cl, S, st.pos, p.sym);
    var t := LensStep(st, c.hlit, c.total, c.cl, c.got, p.sym, c.cl[p.sym]);
    InRange(S, st.pos, SymBits(c.cl, p.sym));
    SymLeads(cfg, S, st, t);
    if p.sym >= 16 {
      FieldAt(cfg, S, t, p.extra);
      LeadsTrans(cfg, S, st, t, FieldStep(cfg, t, p.extra));
      LensDoneSame(st.(pos := st.pos + |PackBits(p, c.cl)|), t.ctl, c.hlit, c.total, c.cl, Unpack(p, c.got));
    }
  }

  lemma InRange(S: seq<bool>, pos: nat, b: seq<bool>)
    requires At(S, pos, b)
    ensures pos + |b| <= |S|
  {
  }

  lemma PacksSplit(p: seq<Pack>, cl: seq<nat>)
    requires p != [] && PacksOk(p) && PacksCoded(p, cl)
    ensures var n := |p| - 1;
            && PacksOk(p[..n]) && PackOk(p[n], UnpackAll(p[..n])) && UnpackAll(p) == Unpack(p[n], UnpackAll(p[..n]))
            && PacksCoded(p[..n], cl) && p[n].sym < |cl| && cl[p[n].sym] > 0
            && PacksBits(p, cl) == PacksBits(p[..n], cl) + PackBits(p[n], cl)
            && |UnpackAll(p[..n])| < |UnpackAll(p)|
  {
    UnpackGrows(p, |p| - 1);
  }

  ghost predicate PacksAt(S: seq<bool>, st: St, p: seq<Pack>) {
    && st.ctl.Lens? && st.ctl.got == [] && st.ctl.hlit <= st.ctl.total && p != [] && PacksOk(p)
       && PacksCoded(p, st.ctl.cl)
    && |UnpackAll(p)| <= st.ctl.total && At(S, st.pos, PacksBits(p, st.ctl.cl))
  }

  ghost function PacksEnd(S: seq<bool>, st: St, p: seq<Pack>): St
    requires PacksAt(S, st, p)
  {
    LensDone(st.(pos := st.pos + |PacksBits(p, st.ctl.cl)|), st.ctl.hlit, st.ctl.total, st.ctl.cl, UnpackAll(p))
  }

  lemma PacksAtSplit(S: seq<bool>, st: St, p: seq<Pack>)
    requires PacksAt(S, st, p)
    ensures |p| > 1 ==> PacksAt(S, st, p[..|p| - 1])
  {
    hide Unpack, PackBits, PackOk, At;
    var n := |p| - 1;
    PacksSplit(p, st.ctl.cl);
    AtSplit(S, st.pos, PacksBits(p[..n], st.ctl.cl), PackBits(p[n], st.ctl.cl));
  }

  /** Reading the packed lengths: the lengths unpacked so far. */
  lemma {:induction false} PacksLead(cfg: Cfg, S: seq<bool>, st: St, p: seq<Pack>)
    requires WellFormed(st) && PacksAt(S, st, p)
    ensures Leads(cfg, S, st, PacksEnd(S, st, p))
    decreases |p|
  {
    hide Leads, WellFormed, PacksAt, PacksEnd;
    PacksAtSplit(S, st, p);
    if |p| > 1 {
      PacksLead(cfg, S, st, p[..|p| - 1]);
    }
    PacksLast(cfg, S, st, p);
  }

  lemma PacksLast(cfg: Cfg, S: seq<bool>, st: St, p: seq<Pack>)
    requires WellFormed(st) && PacksAt(S, st, p)
    requires |p| > 1 ==> PacksAt(S, st, p[..|p| - 1]) && Leads(cfg, S, st, PacksEnd(S, st, p[..|p| - 1]))
    ensures Leads(cfg, S, st, PacksEnd(S, st, p))
  {
    hide Leads, Usable, At, PacksOk, PacksCoded, PacksBits, PackBits, PackOk, Unpack, UnpackAll, LensDone, WellFormed;
    var n, c := |p| - 1, st.ctl;
    var q, x := p[..n], p[n];
    PacksSplit(p, c.cl);
    AtSplit(S, st.pos, PacksBits(q, c.cl), PackBits(x, c.cl));
    if n == 0 {
      NothingUnpacked(q, c.cl);
      PackLead(cfg, S, st, x);
    } else {
      PackNext(cfg, S, st, |PacksBits(q, c.cl)|, UnpackAll(q), x);
    }
  }

  lemma PackNext(cfg: Cfg, S: seq<bool>, st: St, k: nat, got: seq<nat>, p: Pack)
    requires WellFormed(st) && st.ctl.Lens? && |got| < st.ctl.total && PackOk(p, got) && st.ctl.cl[p.sym] > 0
    requires Leads(cfg, S, st, LensDone(st.(pos := st.pos + k), st.ctl.hlit, st.ctl.total, st.ctl.cl, got))
    requires At(S, st.pos + k, PackBits(p, st.ctl.cl))
    ensures Leads(cfg, S, st, LensDone(st.(pos := st.pos + k + |PackBits(p, st.ctl.cl)|), st.ctl.hlit, st.ctl.total,
        st.ctl.cl, Unpack(p, got)))
  {
    hide Leads, Usable, At, PackBits, Unpack, LensDone;
    var c := st.ctl;
    LensWaiting(st.(pos := st.pos + k), c.hlit, c.total, c.cl, got);
    var t := st.(ctl := Lens(c.hlit, c.total, c.cl, got), pos := st.pos + k);
    LeadsKeeps(cfg, S, st, t);
    PackLead(cfg, S, t, p);
    LensDoneSame(st.(pos := st.pos + k + |PackBits(p, c.cl)|), t.ctl, c.hlit, c.total, c.cl, Unpack(p, got));
    LeadsTrans(cfg, S, st, t, LensDone(st.(pos := st.pos + k + |PackBits(p, c.cl)|), c.hlit, c.total, c.cl,
        Unpack(p, got)));
  }

  lemma LensWaiting(st: St, hlit: nat, total: nat, cl: seq<nat>, got: seq<nat>)
    requires hlit <= total && |got| < total
    ensures LensDone(st, hlit, total, cl, got) == st.(ctl := Lens(hlit, total, cl, got))
  {
  }

  lemma NothingUnpacked(p: seq<Pack>, cl: seq<nat>)
    requires |p| == 0
    ensures PacksOk(p) && UnpackAll(p) == [] && PacksCoded(p, cl) && PacksBits(p, cl) == []
  {
  }

  lemma SizesRun(st: St, h: Header)
    requires h.hlit >= 257 && h.hdist >= 1 && h.hclen >= 4 && |h.cl| == 19
    ensures SizesStep(st, [], h.hlit - 257) == st.(ctl := Sizes([h.hlit]), pos := st.pos + 5)
    ensures SizesStep(st, [h.hlit], h.hdist - 1) == st.(ctl := Sizes([h.hlit, h.hdist]), pos := st.pos + 5)
    ensures SizesStep(st, [h.hlit, h.hdist], h.hclen - 4)
         == st.(ctl := ClLens([h.hlit, h.hdist, h.hclen], PartialCl(h.cl, 0), 0), pos := st.pos + 4)
  {
    var none: seq<nat> := [];
    assert none + [h.hlit - 257 + MIN_SIZES[0]] == [h.hlit];
    assert [h.hlit] + [h.hdist - 1 + MIN_SIZES[1]] == [h.hlit, h.hdist];
    assert [h.hlit, h.hdist] + [h.hclen - 4 + MIN_SIZES[2]] == [h.hlit, h.hdist, h.hclen];
  }

  /** The three counts. */
  lemma SizesLead(cfg: Cfg, S: seq<bool>, st: St, h: Header)
    requires HeaderOk(h) && WellFormed(st) && st.ctl == Sizes([])
    requires At(S, st.pos, ToBits(h.hlit - 257, 5)) && At(S, st.pos + 5, ToBits(h.hdist - 1, 5))
        && At(S, st.pos + 10, ToBits(h.hclen - 4, 4))
    ensures Leads(cfg, S, st, st.(ctl := ClLens([h.hlit, h.hdist, h.hclen], PartialCl(h.cl, 0), 0), pos := st.pos + 14))
  {
    hide Leads, Usable, At, PacksOk, PacksCoded, ToBits, Pow2, SizesStep, PartialCl;
    PowThree();
    SizesRun(st, h);
    FieldAt(cfg, S, st, h.hlit - 257);
    var t := st.(ctl := Sizes([h.hlit]), pos := st.pos + 5);
    SizesRun(t, h);
    FieldAt(cfg, S, t, h.hdist - 1);
    var u := st.(ctl := Sizes([h.hlit, h.hdist]), pos := st.pos + 10);
    SizesRun(u, h);
    FieldAt(cfg, S, u, h.hclen - 4);
    LeadsTrans(cfg, S, st, t, u);
    LeadsTrans(cfg, S, st, u, st.(ctl := ClLens([h.hlit, h.hdist, h.hclen], PartialCl(h.cl, 0), 0),
        pos := st.pos + 14));
  }

  /** A printed header leads to the literals with the printed codes. */
  lemma HeaderLeads(cfg: Cfg, S: seq<bool>, st: St, h: Header)
    requires HeaderOk(h) && WellFormed(st) && st.ctl == Sizes([]) && At(S, st.pos, HeaderBits(h))
    ensures Leads(cfg, S, st, st.(ctl := LitLen, lit := HeaderLit(h), dst := HeaderDist(h),
        pos := st.pos + |HeaderBits(h)|))
  {
    hide Leads, Usable, At, ToBits, ClBits, PacksBits, PacksOk, PacksCoded;
    var a, b, c := ToBits(h.hlit - 257, 5), ToBits(h.hdist - 1, 5), ToBits(h.hclen - 4, 4);
    var d, e := ClBits(h.cl, h.hclen), PacksBits(h.packs, h.cl);
    AtSplit(S, st.pos, a, b + (c + (d + e)));
    AtSplit(S, st.pos + 5, b, c + (d + e));
    AtSplit(S, st.pos + 10, c, d + e);
    AtSplit(S, st.pos + 14, d, e);
    SizesLead(cfg, S, st, h);
    var t := st.(ctl := ClLens([h.hlit, h.hdist, h.hclen], PartialCl(h.cl, 0), 0), pos := st.pos + 14);
    LeadsKeeps(cfg, S, st, t);
    ClLead(cfg, S, t, h, 0);
    var u := st.(ctl := Lens(h.hlit, h.hlit + h.hdist, h.cl, []), pos := st.pos + 14 + 3 * h.hclen);
    LeadsTrans(cfg, S, st, t, u);
    LeadsKeeps(cfg, S, st, u);
    NonEmptyPacks(h);
    PacksLead(cfg, S, u, h.packs);
    LeadsTrans(cfg, S, st, u, st.(ctl := LitLen, lit := HeaderLit(h), dst := HeaderDist(h),
        pos := st.pos + |HeaderBits(h)|));
  }

  lemma NonEmptyPacks(h: Header)
    requires HeaderOk(h)
    ensures |h.packs| > 0
  {
  }
}
