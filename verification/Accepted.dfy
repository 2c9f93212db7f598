/** The other direction: what the reference decoder reads to its end is a printed stream. With the lemmas of
    Streams, the format as a printer and as a decoder say the same. */
module Accepted {
  import opened Bits
  import opened Canonical
  import opened Format
  import opened Machine
  import opened Runs
  import opened Streams

  /** On the way from st no length symbol comes by that stands for no length. */
  ghost predicate Meaningful(cfg: Cfg, S: seq<bool>, st: St, k: nat)
    requires WellFormed(st)
  {
    forall j: nat :: j <= k ==> Run(cfg, S, st, j).ctl != DistSym(0)
  }

  /** From st it takes k steps to the end of the stream. */
  ghost predicate Finishes(cfg: Cfg, S: seq<bool>, st: St, k: nat, t: St) {
    WellFormed(st) && Run(cfg, S, st, k) == t && t.ctl.Done? && Meaningful(cfg, S, st, k)
  }

  /** What has stopped for good does not finish. */
  lemma NotStuck(cfg: Cfg, S: seq<bool>, st: St, k: nat, t: St)
    requires Finishes(cfg, S, st, k, t)
    ensures !st.ctl.Failed? && !st.ctl.Invalid? && st.ctl != DistSym(0)
  {
    hide WellFormed;
    assert Run(cfg, S, st, 0) == st;
    if Halted(st.ctl) {
      StalledRun(cfg, S, st, k);
    }
  }

  /** So there is a next step. */
  lemma Forced(cfg: Cfg, S: seq<bool>, st: St, k: nat, t: St)
    requires Finishes(cfg, S, st, k, t) && !st.ctl.Done?
    ensures k > 0 && Step(cfg, st, S).Next? && Finishes(cfg, S, Step(cfg, st, S).st, k - 1, t)
  {
    hide WellFormed, Step;
    if Step(cfg, st, S).Stall? {
      StalledRun(cfg, S, st, k);
      assert false;
    }
    var u := Step(cfg, st, S).st;
    StepKeeps(cfg, st, S);
    forall j: nat | j <= k - 1 ensures Run(cfg, S, u, j).ctl != DistSym(0) {
      assert Run(cfg, S, st, j + 1) == Run(cfg, S, u, j);
    }
  }

  /** A field was there, with some value. */
  lemma FieldTaken(cfg: Cfg, S: seq<bool>, st: St, k: nat, t: St) returns (v: nat)
    requires Finishes(cfg, S, st, k, t) && !st.ctl.Done? && !AtSym(st.ctl)
    ensures var w := Width(st.ctl); v < Pow2(w) && At(S, st.pos, ToBits(v, w))
    ensures k > 0 && Finishes(cfg, S, FieldStep(cfg, st, v), k - 1, t)
  {
    hide FieldStep, SymStep, Finishes, CodesOk, LensOk;
    Here(cfg, S, st, k, t);
    NotStuck(cfg, S, st, k, t);
    Forced(cfg, S, st, k, t);
    var b := S[st.pos..st.pos + Width(st.ctl)];
    v := FromBits(b);
    ToFromBits(b);
  }

  lemma Here(cfg: Cfg, S: seq<bool>, st: St, k: nat, t: St)
    requires Finishes(cfg, S, st, k, t)
    ensures WellFormed(st)
  {
  }

  /** A symbol was there. */
  lemma SymTaken(cfg: Cfg, S: seq<bool>, st: St, lens: seq<nat>, k: nat, t: St) returns (s: nat)
    requires Finishes(cfg, S, st, k, t) && AtSym(st.ctl)
    requires lens == if st.ctl.Lens? then st.ctl.cl else if st.ctl.LitLen? then st.lit else st.dst
    ensures s < |lens| && lens[s] > 0 && At(S, st.pos, SymBits(lens, s)) && k > 0
    ensures st.ctl.LitLen? ==> Finishes(cfg, S, LitLenStep(cfg, st, s, lens[s]), k - 1, t)
    ensures st.ctl.DistSym? ==> Finishes(cfg, S, DistStep(cfg, st, st.ctl.len, s, lens[s]), k - 1, t)
    ensures st.ctl.Lens? ==>
              && st.ctl.hlit <= st.ctl.total
              && Finishes(cfg, S, LensStep(st, st.ctl.hlit, st.ctl.total, st.ctl.cl, st.ctl.got, s, lens[s]), k - 1, t)
  {
    hide Finishes, LitLenStep, DistStep, LensStep, CodesOk, Usable, SymBits, DecodeSym, Extendable;
    Here(cfg, S, st, k, t);
    Forced(cfg, S, st, k, t);
    var r := NextSym(lens, S[st.pos..]);
    if r.Bad? {
      NotStuck(cfg, S, st.(ctl := Invalid), k - 1, t);
      assert false;
    }
    s := r.s;
    assert S[st.pos..][..lens[s]] == S[st.pos..st.pos + lens[s]];
  }

  lemma AtJoin(S: seq<bool>, pos: nat, a: seq<bool>, b: seq<bool>)
    requires At(S, pos, a) && At(S, pos + |a|, b)
    ensures At(S, pos, a + b)
  {
    assert S[pos..pos + |a + b|] == S[pos..pos + |a|] + S[pos + |a|..pos + |a| + |b|];
  }

  // ----- items -----

  /** A match once started is copied to its end. */
  lemma {:induction false} CopyTaken(cfg: Cfg, S: seq<bool>, st: St, k: nat, t: St) returns (j: nat)
    requires Finishes(cfg, S, st, k, t) && st.ctl.CopyMatch?
    ensures 0 < st.ctl.dist <= |st.out| && j < k
    ensures Finishes(cfg, S, st.(ctl := LitLen, out := CopyBytes(st.out, st.ctl.dist, st.ctl.len)), j, t)
    decreases k
  {
    hide Finishes, WellFormed, CodesOk, ToBits, FieldStep, CopyStep, CopyBytes, Pow2, At;
    Here(cfg, S, st, k, t);
    var v := FieldTaken(cfg, S, st, k, t);
    var u := CopyStep(st, st.ctl.len, st.ctl.dist);
    CopyOnce(cfg, st, v);
    j := k - 1;
    if st.ctl.len > 1 {
      j := CopyTaken(cfg, S, u, k - 1, t);
    }
  }

  lemma CopyOnce(cfg: Cfg, st: St, v: nat)
    requires WellFormed(st) && st.ctl.CopyMatch?
    ensures FieldStep(cfg, st, v) == CopyStep(st, st.ctl.len, st.ctl.dist)
    ensures var len, dist, u := st.ctl.len, st.ctl.dist, CopyStep(st, st.ctl.len, st.ctl.dist);
            && 0 < dist <= |st.out| && len > 0
            && 0 < dist <= |u.out| && CopyBytes(st.out, dist, len) == CopyBytes(u.out, dist, len - 1)
            && (len == 1 ==> CopyBytes(st.out, dist, len) == u.out)
            && u == st.(out := u.out, ctl := if len == 1 then LitLen else CopyMatch(len - 1, dist))
  {
    hide CodesOk, LensOk, HeadStep, RawHdrStep, SizesStep, ClLensStep, LensDone, StartMatch, TrailerStep,
        BadZlibHeader, AfterBlock, Unpack;
  }

  /** The extra bits of a length. */
  lemma LenTaken(cfg: Cfg, S: seq<bool>, st: St, l: nat, n: nat, k: nat, t: St) returns (le: nat, v: St, j: nat)
    requires l < 29 && Finishes(cfg, S, LitLenStep(cfg, st, 257 + l, n), k, t)
    ensures le < Pow2(LENGTH_EXTRA[l]) && At(S, st.pos + n, ToBits(le, LENGTH_EXTRA[l]))
    ensures v == st.(ctl := DistSym(LENGTH_BASE[l] + le), pos := st.pos + n + LENGTH_EXTRA[l]) && j <= k
        && Finishes(cfg, S, v, j, t)
  {
    hide Finishes, LitLenStep, ToBits, Pow2, At, CodesOk;
    LengthStep(cfg, st, l, n);
    var u := LitLenStep(cfg, st, 257 + l, n);
    Here(cfg, S, u, k, t);
    PowZero();
    le, v, j := 0, u, k;
    if LENGTH_EXTRA[l] > 0 {
      le := FieldTaken(cfg, S, u, k, t);
      FieldIs(cfg, u, le);
      v, j := FieldStep(cfg, u, le), k - 1;
    } else {
      EmptyField(cfg, S, u, k, t);
    }
  }

  /** A field of no bits is anywhere. */
  lemma EmptyField(cfg: Cfg, S: seq<bool>, st: St, k: nat, t: St)
    requires Finishes(cfg, S, st, k, t) && !st.ctl.Done?
    ensures At(S, st.pos, ToBits(0, 0))
  {
    hide Finishes;
    Forced(cfg, S, st, k, t);
    assert S[st.pos..st.pos] == [];
  }

  lemma DistFork(cfg: Cfg, st: St, d: nat, n: nat)
    requires st.ctl.DistSym? && d < 32
    ensures var len, u := st.ctl.len, st.(pos := st.pos + n);
            DistStep(cfg, st, len, d, n) == if d >= 30 then StartMatch(cfg, u, len, 0)
                                            else if DIST_EXTRA[d] > 0 then
                                                u.(ctl := DistExtra(len, DIST_BASE[d], DIST_EXTRA[d]))
                                            else StartMatch(cfg, u, len, DIST_BASE[d])
  {
  }

  /** A match that starts, and does not fail or lose its meaning, has a proper distance. */
  lemma StartTaken(cfg: Cfg, S: seq<bool>, st: St, len: nat, dist: nat, k: nat, t: St)
    requires len > 0 && Finishes(cfg, S, StartMatch(cfg, st, len, dist), k, t)
    ensures 0 < dist <= |st.out| && Near(cfg, dist)
        && StartMatch(cfg, st, len, dist) == st.(ctl := CopyMatch(len, dist))
  {
    hide Finishes;
    NotStuck(cfg, S, StartMatch(cfg, st, len, dist), k, t);
  }

  /** The extra bits of a distance. */
  lemma DistRest(cfg: Cfg, S: seq<bool>, u: St, len: nat, base: nat, extra: nat, k: nat, t: St)
      returns (de: nat, j: nat)
    requires len > 0 && Finishes(cfg, S, if extra > 0 then u.(ctl := DistExtra(len, base, extra))
        else StartMatch(cfg, u, len, base), k, t)
    ensures de < Pow2(extra) && At(S, u.pos, ToBits(de, extra)) && 0 < base + de <= |u.out| && Near(cfg, base + de)
        && j <= k
    ensures Finishes(cfg, S, u.(ctl := CopyMatch(len, base + de), pos := u.pos + extra), j, t)
  {
    hide Finishes, StartMatch, ToBits, Pow2, At, CodesOk, Near;
    PowZero();
    if extra > 0 {
      var w := u.(ctl := DistExtra(len, base, extra));
      Here(cfg, S, w, k, t);
      de := FieldTaken(cfg, S, w, k, t);
      FieldIs(cfg, w, de);
      j := k - 1;
      StartTaken(cfg, S, w.(pos := w.pos + extra), len, base + de, j, t);
    } else {
      de, j := 0, k;
      StartTaken(cfg, S, u, len, base, j, t);
      EmptyField(cfg, S, u.(ctl := CopyMatch(len, base)), j, t);
    }
  }

  /** The distance's symbol and extra bits. */
  lemma DistTaken(cfg: Cfg, S: seq<bool>, st: St, k: nat, t: St) returns (d: nat, de: nat, j: nat)
    requires Finishes(cfg, S, st, k, t) && st.ctl.DistSym? && st.ctl.len > 0
    ensures d < 30 && d < |st.dst| && st.dst[d] > 0 && de < Pow2(DIST_EXTRA[d])
    ensures At(S, st.pos, SymBits(st.dst, d)) && At(S, st.pos + st.dst[d], ToBits(de, DIST_EXTRA[d]))
    ensures 0 < DIST_BASE[d] + de <= |st.out| && Near(cfg, DIST_BASE[d] + de) && j < k
    ensures Finishes(cfg, S,
        st.(ctl := CopyMatch(st.ctl.len, DIST_BASE[d] + de), pos := st.pos + st.dst[d] + DIST_EXTRA[d]), j, t)
  {
    hide Finishes, DistStep, StartMatch, ToBits, Pow2, At, SymBits, Usable, Short, Near;
    Here(cfg, S, st, k, t);
    d := SymTaken(cfg, S, st, st.dst, k, t);
    var u := st.(pos := st.pos + st.dst[d]);
    DistFork(cfg, st, d, st.dst[d]);
    if d >= 30 {
      StartTaken(cfg, S, u, st.ctl.len, 0, k - 1, t);
      assert false;
    }
    de, j := DistRest(cfg, S, u, st.ctl.len, DIST_BASE[d], DIST_EXTRA[d], k - 1, t);
  }

  /** The state in front of an item, after the item. */
  function Past(st: St, n: nat, out: seq<byte>): St {
    st.(pos := st.pos + n, out := out)
  }

  /** A match was there: all of its four parts. */
  lemma MatchTaken(cfg: Cfg, S: seq<bool>, st: St, l: nat, k: nat, t: St) returns (i: Item, j: nat)
    requires WellFormed(st) && st.ctl.LitLen? && l < 29 && 257 + l < |st.lit| && st.lit[257 + l] > 0
        && At(S, st.pos, SymBits(st.lit, 257 + l))
    requires Finishes(cfg, S, LitLenStep(cfg, st, 257 + l, st.lit[257 + l]), k, t)
    ensures Reaches(i, st.out) && Spans(cfg, i) && Coded(i, st.lit, st.dst)
        && At(S, st.pos, ItemBits(i, st.lit, st.dst)) && j < k
    ensures Finishes(cfg, S, Past(st, |ItemBits(i, st.lit, st.dst)|, Apply(i, st.out)), j, t)
  {
    hide Finishes, LitLenStep, ToBits, Pow2, At, SymBits, Near, CopyBytes, CodesOk;
    var le, v, j1 := LenTaken(cfg, S, st, l, st.lit[257 + l], k, t);
    LengthTable(l);
    var d, de, j2 := DistTaken(cfg, S, v, j1, t);
    i := Copy(l, le, d, de);
    var w := v.(ctl := CopyMatch(v.ctl.len, DIST_BASE[d] + de), pos := v.pos + v.dst[d] + DIST_EXTRA[d]);
    j := CopyTaken(cfg, S, w, j2, t);
    FourJoin(S, st.pos, SymBits(st.lit, 257 + l), ToBits(le, LENGTH_EXTRA[l]), SymBits(st.dst, d),
        ToBits(de, DIST_EXTRA[d]));
  }

  lemma FourJoin(S: seq<bool>, pos: nat, a: seq<bool>, b: seq<bool>, c: seq<bool>, d: seq<bool>)
    requires At(S, pos, a) && At(S, pos + |a|, b) && At(S, pos + |a| + |b|, c) && At(S, pos + |a| + |b| + |c|, d)
    ensures At(S, pos, a + (b + (c + d)))
  {
    hide At;
    AtJoin(S, pos + |a| + |b|, c, d);
    AtJoin(S, pos + |a|, b, c + d);
    AtJoin(S, pos, a, b + (c + d));
  }

  /** A literal was there. */
  lemma LitTaken2(cfg: Cfg, S: seq<bool>, st: St, b: nat, n: nat, k: nat, t: St)
    requires b < 256 && st.ctl.LitLen? && Finishes(cfg, S, LitLenStep(cfg, st, b, n), k, t)
    ensures k > 0 && Finishes(cfg, S, Past(st, n, st.out + [b]), k - 1, t)
  {
    hide Finishes, ToBits, CodesOk;
    var u := LitLenStep(cfg, st, b, n);
    Here(cfg, S, u, k, t);
    var v := FieldTaken(cfg, S, u, k, t);
    FieldIs(cfg, u, v);
  }

  lemma ItemsMore(acc: seq<Item>, i: Item, out: seq<byte>, lit: seq<nat>, dst: seq<nat>)
    requires ItemsOk(acc, out) && AllCoded(acc, lit, dst) && Reaches(i, ApplyAll(acc, out)) && Coded(i, lit, dst)
    ensures ItemsOk(acc + [i], out) && AllCoded(acc + [i], lit, dst)
    ensures ApplyAll(acc + [i], out) == Apply(i, ApplyAll(acc, out))
        && ItemsBits(acc + [i], lit, dst) == ItemsBits(acc, lit, dst) + ItemBits(i, lit, dst)
  {
    hide Apply, ItemBits, Coded;
    assert (acc + [i])[..|acc|] == acc;
  }

  /** The items of a block, up to its end. */
  lemma {:induction false} ItemsTaken(cfg: Cfg, S: seq<bool>, b: St, acc: seq<Item>, k: nat, t: St)
      returns (items: seq<Item>, j: nat)
    requires b.ctl.LitLen? && ItemsOk(acc, b.out) && AllCoded(acc, b.lit, b.dst) && AllSpan(cfg, acc)
        && At(S, b.pos, ItemsBits(acc, b.lit, b.dst))
    requires Finishes(cfg, S, Past(b, |ItemsBits(acc, b.lit, b.dst)|, ApplyAll(acc, b.out)), k, t)
    ensures BodyOk(items, b.lit, b.dst, b.out) && AllSpan(cfg, items)
        && At(S, b.pos, CodedBits(items, b.lit, b.dst, b.out)) && j < k
    ensures Finishes(cfg, S,
        AfterBlock(cfg, b.(out := ApplyAll(items, b.out)), b.pos + |CodedBits(items, b.lit, b.dst, b.out)|), j, t)
    decreases k
  {
    hide Finishes, LitLenStep, ToBits, At, SymBits, ItemsOk, ApplyAll, ItemsBits, AllCoded, Apply, ItemBits, CodesOk,
        Spans, Coded, AfterBlock;
    var st := Past(b, |ItemsBits(acc, b.lit, b.dst)|, ApplyAll(acc, b.out));
    Here(cfg, S, st, k, t);
    var s := SymTaken(cfg, S, st, st.lit, k, t);
    if s == 256 {
      items, j := acc, k - 1;
      AtJoin(S, b.pos, ItemsBits(acc, b.lit, b.dst), SymBits(b.lit, 256));
      EndOf(cfg, b, st, ApplyAll(acc, b.out), st.lit[256]);
    } else {
      var i;
      i, j := ItemTaken(cfg, S, st, s, k - 1, t);
      ItemsMore(acc, i, b.out, b.lit, b.dst);
      AtJoin(S, b.pos, ItemsBits(acc, b.lit, b.dst), ItemBits(i, b.lit, b.dst));
      items, j := ItemsTaken(cfg, S, b, acc + [i], j, t);
    }
  }

  lemma EndOf(cfg: Cfg, b: St, st: St, out: seq<byte>, n: nat)
    requires st == b.(pos := st.pos, out := out)
    ensures LitLenStep(cfg, st, 256, n) == AfterBlock(cfg, b.(out := out), st.pos + n)
  {
  }

  /** A literal or a match. */
  lemma ItemTaken(cfg: Cfg, S: seq<bool>, st: St, s: nat, k: nat, t: St) returns (i: Item, j: nat)
    requires WellFormed(st) && st.ctl.LitLen? && s < |st.lit| && s != 256 && st.lit[s] > 0
        && At(S, st.pos, SymBits(st.lit, s))
    requires Finishes(cfg, S, LitLenStep(cfg, st, s, st.lit[s]), k, t)
    ensures Reaches(i, st.out) && Spans(cfg, i) && Coded(i, st.lit, st.dst)
        && At(S, st.pos, ItemBits(i, st.lit, st.dst)) && j < k
    ensures Finishes(cfg, S, Past(st, |ItemBits(i, st.lit, st.dst)|, Apply(i, st.out)), j, t)
  {
    hide Finishes, ToBits, At, SymBits, CodesOk, CopyBytes;
    if s < 256 {
      LitTaken2(cfg, S, st, s, st.lit[s], k, t);
      i, j := Lit(s), k - 1;
    } else if s - 257 < 29 {
      i, j := MatchTaken(cfg, S, st, s - 257, k, t);
    } else {
      NotStuck(cfg, S, LitLenStep(cfg, st, s, st.lit[s]), k, t);
      assert false;
    }
  }

  // ----- stored blocks -----

  lemma ByteTaken(cfg: Cfg, S: seq<bool>, st: St, k: nat, t: St) returns (v: nat)
    requires Finishes(cfg, S, st, k, t) && (st.ctl.RawHdr? || st.ctl.Trailer? || (st.ctl.RawCopy? && st.ctl.left > 0)
        || st.ctl.Zhdr0? || st.ctl.Zhdr1?)
    ensures v < 256 && At(S, st.pos, ToBits(v, 8)) && k > 0 && Finishes(cfg, S, FieldStep(cfg, st, v), k - 1, t)
  {
    assert Pow2(8) == 256;
    hide Finishes, FieldStep, ToBits, At, Pow2;
    Here(cfg, S, st, k, t);
    v := FieldTaken(cfg, S, st, k, t);
  }

  lemma TwoBytesAt(S: seq<bool>, pos: nat, a: nat, b: nat)
    requires a < 256 && b < 256 && At(S, pos, ToBits(a, 8)) && At(S, pos + 8, ToBits(b, 8))
    ensures At(S, pos, ToBits(a + 256 * b, 16))
  {
    assert Pow2(8) == 256;
    hide ToBits, At, Pow2;
    assert a + b * Pow2(8) == a + 256 * b;
    ToBitsConcat(a, 8, b, 8);
    AtJoin(S, pos, ToBits(a, 8), ToBits(b, 8));
  }

  lemma RawHdrIs(cfg: Cfg, st: St, hdr: seq<nat>, v: nat)
    requires WellFormed(st) && st.ctl == RawHdr(hdr)
    ensures FieldStep(cfg, st, v) == RawHdrStep(st, hdr, v) && |hdr| < 4
    ensures |hdr| < 3 ==> FieldStep(cfg, st, v) == st.(pos := st.pos + 8, ctl := RawHdr(hdr + [v]))
  {
  }

  /** One of the first three bytes of a stored block's header. */
  lemma HdrTaken(cfg: Cfg, S: seq<bool>, st: St, hdr: seq<nat>, k: nat, t: St) returns (v: nat)
    requires Finishes(cfg, S, st, k, t) && st.ctl == RawHdr(hdr) && |hdr| < 3
    ensures v < 256 && At(S, st.pos, ToBits(v, 8)) && k > 0
    ensures Finishes(cfg, S, st.(pos := st.pos + 8, ctl := RawHdr(hdr + [v])), k - 1, t)
  {
    hide Finishes, ToBits, At, FieldStep;
    Here(cfg, S, st, k, t);
    v := ByteTaken(cfg, S, st, k, t);
    RawHdrIs(cfg, st, hdr, v);
  }

  /** Length and complement of a stored block. */
  lemma LengthTaken(cfg: Cfg, S: seq<bool>, st: St, k: nat, t: St) returns (n: nat, j: nat)
    requires Finishes(cfg, S, st, k, t) && st.ctl == RawHdr([])
    ensures n < 65536 && At(S, st.pos, ToBits(n, 16)) && At(S, st.pos + 16, ToBits(65535 - n, 16)) && j < k
    ensures Finishes(cfg, S, st.(pos := st.pos + 32, ctl := RawCopy(n)), j, t)
  {
    hide Finishes, ToBits, At, RawHdrStep, FieldStep, WellFormed;
    var b0 := HdrTaken(cfg, S, st, [], k, t);
    var u := st.(pos := st.pos + 8, ctl := RawHdr([] + [b0]));
    var b1 := HdrTaken(cfg, S, u, [] + [b0], k - 1, t);
    var v := st.(pos := st.pos + 16, ctl := RawHdr([] + [b0] + [b1]));
    var b2 := HdrTaken(cfg, S, v, [] + [b0] + [b1], k - 2, t);
    var w := st.(pos := st.pos + 24, ctl := RawHdr([] + [b0] + [b1] + [b2]));
    assert [] + [b0] + [b1] + [b2] == [b0, b1, b2];
    var b3 := ByteTaken(cfg, S, w, k - 3, t);
    Here(cfg, S, w, k - 3, t);
    RawHdrIs(cfg, w, [b0, b1, b2], b3);
    NotStuck(cfg, S, RawHdrStep(w, [b0, b1, b2], b3), k - 4, t);
    LastHdr(w, b0, b1, b2, b3);
    n, j := b0 + 256 * b1, k - 4;
    TwoBytesAt(S, st.pos, b0, b1);
    TwoBytesAt(S, st.pos + 16, b2, b3);
  }

  lemma LastHdr(w: St, b0: nat, b1: nat, b2: nat, b3: nat)
    ensures RawHdrStep(w, [b0, b1, b2], b3)
         == w.(pos := w.pos + 8, ctl := if b0 + 256 * b1 + (b2 + 256 * b3) != 65535 then Failed(39)
             else RawCopy(b0 + 256 * b1))
  {
  }

  /** The bytes of a stored block, up to its end. */
  lemma {:induction false} BytesTaken(cfg: Cfg, S: seq<bool>, h: St, n: nat, acc: seq<byte>, k: nat, t: St)
      returns (data: seq<byte>, j: nat)
    requires |acc| <= n && At(S, h.pos, ByteBits(acc))
    requires Finishes(cfg, S, h.(ctl := RawCopy(n - |acc|), pos := h.pos + 8 * |acc|, out := h.out + acc), k, t)
    ensures |data| == n && At(S, h.pos, ByteBits(data)) && j < k
    ensures Finishes(cfg, S, AfterBlock(cfg, h.(out := h.out + data), h.pos + 8 * n), j, t)
    decreases k
  {
    hide Finishes, ToBits, ByteBits, At, Pow2, AfterBlock;
    var st := h.(ctl := RawCopy(n - |acc|), pos := h.pos + 8 * |acc|, out := h.out + acc);
    Here(cfg, S, st, k, t);
    if |acc| == n {
      var v := FieldTaken(cfg, S, st, k, t);
      data, j := acc, k - 1;
      AfterOf(cfg, h.(out := h.out + acc), st, st.pos);
    } else {
      var v := ByteTaken(cfg, S, st, k, t);
      var u := st.(ctl := RawEmit(n - |acc|, v), pos := st.pos + 8);
      FieldIs(cfg, st, v);
      Here(cfg, S, u, k - 1, t);
      var z := FieldTaken(cfg, S, u, k - 1, t);
      FieldIs(cfg, u, z);
      OneMoreByte(S, h.pos, acc, v);
      assert h.out + acc + [v] == h.out + (acc + [v]);
      data, j := BytesTaken(cfg, S, h, n, acc + [v], k - 2, t);
    }
  }

  lemma OneMoreByte(S: seq<bool>, pos: nat, acc: seq<byte>, v: byte)
    requires At(S, pos, ByteBits(acc)) && At(S, pos + 8 * |acc|, ToBits(v, 8))
    ensures At(S, pos, ByteBits(acc + [v]))
  {
    hide ToBits, ByteBits, At;
    ByteBitsSnoc(acc, v);
    AtJoin(S, pos, ByteBits(acc), ToBits(v, 8));
  }

  lemma StoredTaken(cfg: Cfg, S: seq<bool>, st: St, k: nat, t: St) returns (data: seq<byte>, j: nat)
    requires Finishes(cfg, S, st, k, t) && st.ctl == RawHdr([])
    ensures |data| < 65536 && At(S, st.pos, StoredBits(data)) && j < k
    ensures Finishes(cfg, S, AfterBlock(cfg, st.(out := st.out + data), st.pos + |StoredBits(data)|), j, t)
  {
    hide Finishes, ToBits, ByteBits, At, Pow2, AfterBlock;
    var n, j1 := LengthTaken(cfg, S, st, k, t);
    var h := st.(pos := st.pos + 32);
    NoBytesAt(S, h, j1, cfg, t, n);
    assert st.out + [] == st.out;
    data, j := BytesTaken(cfg, S, h, n, [], j1, t);
    AtJoin(S, st.pos + 16, ToBits(65535 - n, 16), ByteBits(data));
    AtJoin(S, st.pos, ToBits(n, 16), ToBits(65535 - n, 16) + ByteBits(data));
    AfterSame(cfg, st, st.out + data, h.pos, h.pos + 8 * n);
    AfterOf(cfg, st.(out := st.out + data), h.(out := st.out + data), h.pos + 8 * n);
  }

  lemma NoBytesAt(S: seq<bool>, h: St, k: nat, cfg: Cfg, t: St, n: nat)
    requires Finishes(cfg, S, h.(ctl := RawCopy(n)), k, t)
    ensures At(S, h.pos, ByteBits([]))
  {
    hide Finishes;
    EmptyField(cfg, S, h.(ctl := RawCopy(n)), k, t);
    assert S[h.pos..h.pos] == [];
  }

  // ----- dynamic headers -----

  lemma SizesIs(cfg: Cfg, st: St, sizes: seq<nat>, v: nat)
    requires WellFormed(st) && st.ctl == Sizes(sizes)
    ensures |sizes| < 3 && FieldStep(cfg, st, v) == SizesStep(st, sizes, v)
    ensures Width(st.ctl) == if |sizes| < 2 then 5 else 4
  {
  }

  /** One of the three table sizes. */
  lemma SizeTaken(cfg: Cfg, S: seq<bool>, st: St, sizes: seq<nat>, k: nat, t: St) returns (v: nat)
    requires Finishes(cfg, S, st, k, t) && st.ctl == Sizes(sizes) && |sizes| < 3
    ensures At(S, st.pos, ToBits(v, if |sizes| < 2 then 5 else 4)) && k > 0
    ensures Finishes(cfg, S, SizesStep(st, sizes, v), k - 1, t)
  {
    hide Finishes, ToBits, At, Pow2, FieldStep;
    Here(cfg, S, st, k, t);
    SizesIs(cfg, st, sizes, 0);
    v := FieldTaken(cfg, S, st, k, t);
    SizesIs(cfg, st, sizes, v);
  }

  lemma SizesSteps(st: St, v0: nat, v1: nat, v2: nat)
    ensures SizesStep(st, [], v0) == st.(pos := st.pos + 5, ctl := Sizes([v0 + 257]))
    ensures SizesStep(st, [v0 + 257], v1) == st.(pos := st.pos + 5, ctl := Sizes([v0 + 257, v1 + 1]))
    ensures SizesStep(st, [v0 + 257, v1 + 1], v2) == st.(pos := st.pos + 4,
        ctl := ClLens([v0 + 257, v1 + 1, v2 + 4], Repeat(0, 19), 0))
  {
    assert [] + [v0 + 257] == [v0 + 257] && [v0 + 257] + [v1 + 1] == [v0 + 257, v1 + 1];
    assert [v0 + 257, v1 + 1] + [v2 + 4] == [v0 + 257, v1 + 1, v2 + 4];
  }

  /** The three table sizes. */
  lemma SizesTaken(cfg: Cfg, S: seq<bool>, st: St, k: nat, t: St) returns (hlit: nat, hdist: nat, hclen: nat, j: nat)
    requires Finishes(cfg, S, st, k, t) && st.ctl == Sizes([])
    ensures 257 <= hlit <= 288 && 1 <= hdist <= 32 && 4 <= hclen <= 19 && j < k
    ensures At(S, st.pos, ToBits(hlit - 257, 5)) && At(S, st.pos + 5, ToBits(hdist - 1, 5))
        && At(S, st.pos + 10, ToBits(hclen - 4, 4))
    ensures Finishes(cfg, S, st.(pos := st.pos + 14, ctl := ClLens([hlit, hdist, hclen], Repeat(0, 19), 0)), j, t)
  {
    hide Finishes, ToBits, At, SizesStep;
    var v0 := SizeTaken(cfg, S, st, [], k, t);
    SizesSteps(st, v0, 0, 0);
    var u := st.(pos := st.pos + 5, ctl := Sizes([v0 + 257]));
    var v1 := SizeTaken(cfg, S, u, [v0 + 257], k - 1, t);
    SizesSteps(u, v0, v1, 0);
    var w := st.(pos := st.pos + 10, ctl := Sizes([v0 + 257, v1 + 1]));
    var v2 := SizeTaken(cfg, S, w, [v0 + 257, v1 + 1], k - 2, t);
    SizesSteps(w, v0, v1, v2);
    hlit, hdist, hclen, j := v0 + 257, v1 + 1, v2 + 4, k - 3;
    SizesRange(cfg, S, st.(pos := st.pos + 14, ctl := ClLens([hlit, hdist, hclen], Repeat(0, 19), 0)), hlit, hdist,
        hclen, j, t);
  }

  lemma SizesRange(cfg: Cfg, S: seq<bool>, st: St, hlit: nat, hdist: nat, hclen: nat, k: nat, t: St)
    requires Finishes(cfg, S, st, k, t) && st.ctl == ClLens([hlit, hdist, hclen], Repeat(0, 19), 0)
    ensures 257 <= hlit <= 288 && 1 <= hdist <= 32 && 4 <= hclen <= 19
  {
    Here(cfg, S, st, k, t);
  }

  /** Setting a later length leaves the bits of the earlier ones. */
  lemma {:induction false} ClSame(cl: seq<nat>, n: nat, i: nat, v: nat)
    requires |cl| == 19 && i <= n < 19 && SWIZZLE[n] < 19
    ensures ClBits(cl[SWIZZLE[n] := v], i) == ClBits(cl, i)
  {
    hide ToBits;
    if i > 0 {
      SwizzleInverse(i - 1);
      SwizzleInverse(n);
      ClSame(cl, n, i - 1, v);
    }
  }

  /** The lengths of the code-length code that are still to come are zero. */
  ghost predicate ClPart(cl: seq<nat>, n: nat) {
    && |cl| == 19 && n <= 19 && (forall i :: 0 <= i < 19 ==> cl[i] < 8)
    && forall i {:trigger SWIZZLE[i]} :: n <= i < 19 ==> SWIZZLE[i] < 19 && cl[SWIZZLE[i]] == 0
  }

  lemma ClMore(cl: seq<nat>, n: nat, v: nat)
    requires n < 19 && v < 8 && ClPart(cl, n)
    ensures |cl| == 19 && SWIZZLE[n] < 19
    ensures var c := cl[SWIZZLE[n] := v]; ClPart(c, n + 1) && ClBits(c, n + 1) == ClBits(cl, n) + ToBits(v, 3)
  {
    hide ToBits;
    SwizzleInverse(n);
    var c := cl[SWIZZLE[n] := v];
    ClSame(cl, n, n, v);
    forall i {:trigger SWIZZLE[i]} | n + 1 <= i < 19 ensures SWIZZLE[i] < 19 && c[SWIZZLE[i]] == 0 {
      SwizzleInverse(i);
    }
  }

  lemma ClIs(cfg: Cfg, st: St, sizes: seq<nat>, cl: seq<nat>, n: nat, v: nat)
    requires WellFormed(st) && st.ctl == ClLens(sizes, cl, n)
    ensures |sizes| == 3 && |cl| == 19 && n < sizes[2] <= 19 && SWIZZLE[n] < 19 && Width(st.ctl) == 3 && Pow2(3) == 8
    ensures FieldStep(cfg, st, v) == ClLensStep(st, sizes, cl, n, v)
  {
    SwizzleInverse(n);
  }

  /** One length of the code-length code. */
  lemma OneClTaken(cfg: Cfg, S: seq<bool>, b: St, sizes: seq<nat>, cl: seq<nat>, n: nat, k: nat, t: St)
      returns (c: seq<nat>)
    requires |sizes| == 3 && n < sizes[2] <= 19 && ClPart(cl, n)
    requires At(S, b.pos, ClBits(cl, n))
        && Finishes(cfg, S, b.(pos := b.pos + 3 * n, ctl := ClLens(sizes, cl, n)), k, t)
    ensures ClPart(c, n + 1) && At(S, b.pos, ClBits(c, n + 1)) && k > 0 && (n + 1 < sizes[2] || Usable(c))
    ensures Finishes(cfg, S, b.(pos := b.pos + 3 * (n + 1), ctl := if n + 1 < sizes[2] then ClLens(sizes, c, n + 1)
        else Lens(sizes[0], sizes[0] + sizes[1], c, [])), k - 1, t)
  {
    hide Finishes, ToBits, At, Pow2, FieldStep, ClBits, Usable, WellFormed, ClPart;
    var st := b.(pos := b.pos + 3 * n, ctl := ClLens(sizes, cl, n));
    Here(cfg, S, st, k, t);
    ClIs(cfg, st, sizes, cl, n, 0);
    var v := FieldTaken(cfg, S, st, k, t);
    ClIs(cfg, st, sizes, cl, n, v);
    ClMore(cl, n, v);
    c := cl[SWIZZLE[n] := v];
    AtJoin(S, b.pos, ClBits(cl, n), ToBits(v, 3));
    NotStuck(cfg, S, ClLensStep(st, sizes, cl, n, v), k - 1, t);
  }

  /** The code-length code's lengths. */
  lemma {:induction false} ClTaken(cfg: Cfg, S: seq<bool>, b: St, sizes: seq<nat>, cl: seq<nat>, n: nat, k: nat, t: St)
    returns (all: seq<nat>, j: nat)
    requires |sizes| == 3 && n < sizes[2] <= 19 && ClPart(cl, n)
    requires At(S, b.pos, ClBits(cl, n))
        && Finishes(cfg, S, b.(pos := b.pos + 3 * n, ctl := ClLens(sizes, cl, n)), k, t)
    ensures ClPart(all, sizes[2]) && Usable(all) && j < k && At(S, b.pos, ClBits(all, sizes[2]))
    ensures Finishes(cfg, S, b.(pos := b.pos + 3 * sizes[2], ctl := Lens(sizes[0], sizes[0] + sizes[1], all, [])), j, t)
    decreases k
  {
    hide Finishes, At, ClBits, Usable, ClPart;
    all := OneClTaken(cfg, S, b, sizes, cl, n, k, t);
    j := k - 1;
    if n + 1 < sizes[2] {
      all, j := ClTaken(cfg, S, b, sizes, all, n + 1, k - 1, t);
    }
  }

  lemma PacksMore(acc: seq<Pack>, p: Pack, cl: seq<nat>)
    requires PacksOk(acc) && PacksCoded(acc, cl) && PackOk(p, UnpackAll(acc)) && p.sym < |cl| && cl[p.sym] > 0
    ensures PacksOk(acc + [p]) && PacksCoded(acc + [p], cl)
    ensures UnpackAll(acc + [p]) == Unpack(p, UnpackAll(acc))
        && PacksBits(acc + [p], cl) == PacksBits(acc, cl) + PackBits(p, cl)
  {
    hide PackBits, Unpack, PackOk;
    assert (acc + [p])[..|acc|] == acc;
  }

  lemma ExtraIs(cfg: Cfg, st: St, v: nat)
    requires WellFormed(st) && st.ctl.LensExtra?
    ensures st.ctl.hlit <= st.ctl.total && 16 <= st.ctl.sym < 19 && (st.ctl.sym == 16 ==> st.ctl.got != [])
        && Width(st.ctl) == PackExtra(st.ctl.sym)
    ensures FieldStep(cfg, st, v)
         == LensDone(st.(pos := st.pos + PackExtra(st.ctl.sym)), st.ctl.hlit, st.ctl.total, st.ctl.cl,
             Unpack(Pack(st.ctl.sym, v), st.ctl.got))
  {
    hide CodesOk, HeadStep, RawHdrStep, SizesStep, ClLensStep, LensDone, StartMatch, TrailerStep, BadZlibHeader,
        AfterBlock, Unpack, CopyStep, Usable,
         PackExtra;
  }

  /** One packed symbol with its extra bits. */
  lemma PackTaken(cfg: Cfg, S: seq<bool>, st: St, k: nat, t: St) returns (p: Pack, j: nat)
    requires Finishes(cfg, S, st, k, t) && st.ctl.Lens? && |st.ctl.cl| == 19
    ensures PackOk(p, st.ctl.got) && st.ctl.cl[p.sym] > 0 && At(S, st.pos, PackBits(p, st.ctl.cl)) && j < k
        && st.ctl.hlit <= st.ctl.total
    ensures Finishes(cfg, S, LensDone(st.(pos := st.pos + |PackBits(p, st.ctl.cl)|), st.ctl.hlit, st.ctl.total,
        st.ctl.cl, Unpack(p, st.ctl.got)), j, t)
  {
    hide Finishes, ToBits, At, Pow2, FieldStep, SymBits, LensDone, Usable;
    var c := st.ctl;
    var s := SymTaken(cfg, S, st, c.cl, k, t);
    var u := st.(pos := st.pos + c.cl[s]);
    if s < 16 {
      p, j := Pack(s, 0), k - 1;
      ZeroExtra(cfg, S, u, c, c.got + [s], j, t);
      AtJoin(S, st.pos, SymBits(c.cl, s), ToBits(0, 0));
      PowZero();
    } else {
      NotStuck(cfg, S, LensStep(st, c.hlit, c.total, c.cl, c.got, s, c.cl[s]), k - 1, t);
      var w := u.(ctl := LensExtra(c.hlit, c.total, c.cl, c.got, s));
      Here(cfg, S, w, k - 1, t);
      ExtraIs(cfg, w, 0);
      var v := FieldTaken(cfg, S, w, k - 1, t);
      ExtraIs(cfg, w, v);
      p, j := Pack(s, v), k - 2;
      AtJoin(S, st.pos, SymBits(c.cl, s), ToBits(v, PackExtra(s)));
      LensDoneSame(w.(pos := w.pos + PackExtra(s)), c, c.hlit, c.total, c.cl, Unpack(p, c.got));
    }
  }

  lemma ZeroExtra(cfg: Cfg, S: seq<bool>, u: St, c: Ctl, got: seq<nat>, k: nat, t: St)
    requires c.Lens? && c.hlit <= c.total && Finishes(cfg, S, LensDone(u, c.hlit, c.total, c.cl, got), k, t)
    ensures At(S, u.pos, ToBits(0, 0))
  {
    hide Finishes, Usable;
    var d := LensDone(u, c.hlit, c.total, c.cl, got);
    EmptyField(cfg, S, d, k, t);
  }

  /** The packed code lengths, up to the announced number of lengths. */
  lemma {:induction false} PacksTaken(cfg: Cfg, S: seq<bool>, b: St, hlit: nat, total: nat, cl: seq<nat>,
      acc: seq<Pack>, k: nat, t: St)
    returns (packs: seq<Pack>, j: nat)
    requires hlit <= total && |cl| == 19 && PacksOk(acc) && PacksCoded(acc, cl) && At(S, b.pos, PacksBits(acc, cl))
    requires Finishes(cfg, S, b.(pos := b.pos + |PacksBits(acc, cl)|, ctl := Lens(hlit, total, cl, UnpackAll(acc))), k,
        t)
    ensures PacksOk(packs) && PacksCoded(packs, cl) && At(S, b.pos, PacksBits(packs, cl))
        && |UnpackAll(packs)| == total && j < k
    ensures Usable(UnpackAll(packs)[..hlit]) && Usable(UnpackAll(packs)[hlit..])
    ensures Finishes(cfg, S, b.(pos := b.pos + |PacksBits(packs, cl)|, ctl := LitLen, lit := UnpackAll(packs)[..hlit],
        dst := UnpackAll(packs)[hlit..]), j, t)
    decreases k
  {
    hide Finishes, ToBits, At, Pow2, SymBits, Usable, PackBits, PacksBits, PacksOk, PacksCoded, UnpackAll, Unpack;
    var st := b.(pos := b.pos + |PacksBits(acc, cl)|, ctl := Lens(hlit, total, cl, UnpackAll(acc)));
    var p;
    p, j := PackTaken(cfg, S, st, k, t);
    PacksMore(acc, p, cl);
    AtJoin(S, b.pos, PacksBits(acc, cl), PackBits(p, cl));
    var got := Unpack(p, UnpackAll(acc));
    var u := st.(pos := st.pos + |PackBits(p, cl)|);
    NotStuck(cfg, S, LensDone(u, hlit, total, cl, got), j, t);
    if |got| < total {
      packs, j := PacksTaken(cfg, S, b, hlit, total, cl, acc + [p], j, t);
    } else {
      packs := acc + [p];
    }
  }

  /** A dynamic header. */
  lemma HeaderTaken(cfg: Cfg, S: seq<bool>, st: St, k: nat, t: St) returns (h: Header, j: nat)
    requires Finishes(cfg, S, st, k, t) && st.ctl == Sizes([])
    ensures HeaderOk(h) && At(S, st.pos, HeaderBits(h)) && j < k
    ensures Finishes(cfg, S, st.(pos := st.pos + |HeaderBits(h)|, ctl := LitLen, lit := HeaderLit(h),
        dst := HeaderDist(h)), j, t)
  {
    hide Finishes, ToBits, At, Pow2, Usable, PacksBits, PacksOk, PacksCoded, UnpackAll, ClBits;
    var hlit, hdist, hclen, j1 := SizesTaken(cfg, S, st, k, t);
    var b := st.(pos := st.pos + 14);
    AllZero();
    ClNothing(cfg, S, b, ClLens([hlit, hdist, hclen], Repeat(0, 19), 0), j1, t);
    var cl, j2 := ClTaken(cfg, S, b, [hlit, hdist, hclen], Repeat(0, 19), 0, j1, t);
    var c := b.(pos := b.pos + 3 * hclen);
    NoPacks(cfg, S, c, Lens(hlit, hlit + hdist, cl, []), cl, j2, t);
    var packs;
    packs, j := PacksTaken(cfg, S, c, hlit, hlit + hdist, cl, [], j2, t);
    h := Header(hlit, hdist, hclen, cl, packs);
    AtJoin(S, b.pos, ClBits(cl, hclen), PacksBits(packs, cl));
    AtJoin(S, st.pos + 10, ToBits(hclen - 4, 4), ClBits(cl, hclen) + PacksBits(packs, cl));
    AtJoin(S, st.pos + 5, ToBits(hdist - 1, 5), ToBits(hclen - 4, 4) + (ClBits(cl, hclen) + PacksBits(packs, cl)));
    AtJoin(S, st.pos, ToBits(hlit - 257, 5),
        ToBits(hdist - 1, 5) + (ToBits(hclen - 4, 4) + (ClBits(cl, hclen) + PacksBits(packs, cl))));
  }

  lemma AllZero()
    ensures ClPart(Repeat(0, 19), 0)
  {
    forall i {:trigger SWIZZLE[i]} | 0 <= i < 19 ensures SWIZZLE[i] < 19 {
      SwizzleInverse(i);
    }
  }

  lemma ClNothing(cfg: Cfg, S: seq<bool>, b: St, c: Ctl, k: nat, t: St)
    requires Finishes(cfg, S, b.(ctl := c), k, t) && c.ClLens?
    ensures At(S, b.pos, ClBits(Repeat(0, 19), 0))
  {
    hide Finishes;
    EmptyField(cfg, S, b.(ctl := c), k, t);
    assert S[b.pos..b.pos] == [];
  }

  lemma NoPacks(cfg: Cfg, S: seq<bool>, b: St, c: Ctl, cl: seq<nat>, k: nat, t: St)
    requires Finishes(cfg, S, b.(ctl := c), k, t) && c.Lens?
    ensures PacksOk([]) && PacksCoded([], cl) && PacksBits([], cl) == [] && UnpackAll([]) == [] && At(S, b.pos, [])
  {
    hide Finishes;
    EmptyField(cfg, S, b.(ctl := c), k, t);
    assert S[b.pos..b.pos] == [];
  }

  // ----- blocks -----

  lemma HeadIs(cfg: Cfg, st: St, v: nat)
    requires WellFormed(st) && st.ctl.Head?
    ensures FieldStep(cfg, st, v) == HeadStep(st, v) && Width(st.ctl) == 3 && Pow2(3) == 8
  {
  }

  /** The first three bits of a block. */
  lemma HeadTaken(cfg: Cfg, S: seq<bool>, st: St, k: nat, t: St) returns (final: bool, kind: nat)
    requires Finishes(cfg, S, st, k, t) && st.ctl == Head
    ensures kind < 3 && At(S, st.pos, [final] + ToBits(kind, 2)) && k > 0
    ensures Finishes(cfg, S, HeadStep(st, (if final then 1 else 0) + 2 * kind), k - 1, t)
  {
    hide Finishes, ToBits, At, FieldStep, Pow2;
    Here(cfg, S, st, k, t);
    HeadIs(cfg, st, 0);
    var v := FieldTaken(cfg, S, st, k, t);
    HeadIs(cfg, st, v);
    final, kind := v % 2 == 1, v / 2;
    NotStuck(cfg, S, HeadStep(st, v), k - 1, t);
    HeadBits(final, kind);
  }

  /** A block's bits: head and body. */
  lemma BlockJoin(S: seq<bool>, b: Block, final: bool, pos: nat, out: seq<byte>)
    requires BlockOk(b, pos, out) && At(S, pos, [final] + ToBits(Kind(b), 2)) && At(S, pos + 3, BodyBits(b, pos, out))
    ensures At(S, pos, BlockBits(b, final, pos, out)) && |BlockBits(b, final, pos, out)| == 3 + |BodyBits(b, pos, out)|
  {
    hide At, ToBits, BlockOk, BodyBits;
    AtJoin(S, pos, [final] + ToBits(Kind(b), 2), BodyBits(b, pos, out));
    assert [final] + ToBits(Kind(b), 2) + BodyBits(b, pos, out) == BlockBits(b, final, pos, out);
  }

  lemma NoItems(st: St)
    ensures ItemsOk([], st.out) && ApplyAll([], st.out) == st.out && AllCoded([], st.lit, st.dst)
        && ItemsBits([], st.lit, st.dst) == []
    ensures Past(st, 0, st.out) == st
  {
  }

  lemma NothingAt(cfg: Cfg, S: seq<bool>, st: St, k: nat, t: St)
    requires Finishes(cfg, S, st, k, t) && !st.ctl.Done?
    ensures At(S, st.pos, [])
  {
    hide Finishes;
    EmptyField(cfg, S, st, k, t);
    assert S[st.pos..st.pos] == [];
  }

  /** The coded part of a block. */
  lemma CodedTaken(cfg: Cfg, S: seq<bool>, st: St, k: nat, t: St) returns (items: seq<Item>, u: St, j: nat)
    requires Finishes(cfg, S, st, k, t) && st.ctl == LitLen
    ensures BodyOk(items, st.lit, st.dst, st.out) && AllSpan(cfg, items)
        && At(S, st.pos, CodedBits(items, st.lit, st.dst, st.out)) && j < k
    ensures Finishes(cfg, S, u, j, t)
        && AtBlockEnd(cfg, u, st.final, st.pos + |CodedBits(items, st.lit, st.dst, st.out)|, ApplyAll(items, st.out))
  {
    hide Finishes, At, AllCoded, ItemsOk, ApplyAll, AfterBlock, AtBlockEnd, ItemsBits, SymBits;
    NoItems(st);
    NothingAt(cfg, S, st, k, t);
    items, j := ItemsTaken(cfg, S, st, [], k, t);
    var out, end := ApplyAll(items, st.out), st.pos + |CodedBits(items, st.lit, st.dst, st.out)|;
    u := AfterBlock(cfg, st.(out := out), end);
    AfterIsEnd(cfg, st.(out := out), end);
  }

  lemma PadAt(S: seq<bool>, pos: nat, rest: seq<bool>) returns (pad: seq<bool>)
    requires At(S, Align(pos), rest)
    ensures |pad| == Padding(pos) && At(S, pos, pad + rest)
  {
    pad := S[pos..Align(pos)];
    AtJoin(S, pos, pad, rest);
  }

  /** A stored block's body. */
  lemma StoredBlockTaken(cfg: Cfg, S: seq<bool>, st: St, pos: nat, k: nat, t: St) returns (b: Block, u: St, j: nat)
    requires Finishes(cfg, S, st, k, t) && st.ctl == RawHdr([]) && st.pos == Align(pos + 3)
    ensures b.Stored? && BlockOk(b, pos, st.out) && At(S, pos + 3, BodyBits(b, pos, st.out)) && j < k
    ensures Finishes(cfg, S, u, j, t)
        && AtBlockEnd(cfg, u, st.final, pos + 3 + |BodyBits(b, pos, st.out)|, BlockOut(b, pos, st.out))
  {
    hide Finishes, At, AfterBlock, AtBlockEnd, StoredBits;
    var data;
    data, j := StoredTaken(cfg, S, st, k, t);
    var pad := PadAt(S, pos + 3, StoredBits(data));
    b := Stored(pad, data);
    u := AfterBlock(cfg, st.(out := st.out + data), st.pos + |StoredBits(data)|);
    AfterIsEnd(cfg, st.(out := st.out + data), st.pos + |StoredBits(data)|);
  }

  /** A block with a dynamic header: its body. */
  lemma DynamicTaken(cfg: Cfg, S: seq<bool>, st: St, k: nat, t: St) returns (b: Block, u: St, j: nat)
    requires Finishes(cfg, S, st, k, t) && st.ctl == Sizes([])
    ensures b.Dynamic? && BlockOk(b, 0, st.out) && BlockSpans(cfg, b) && At(S, st.pos, BodyBits(b, 0, st.out)) && j < k
    ensures Finishes(cfg, S, u, j, t)
        && AtBlockEnd(cfg, u, st.final, st.pos + |BodyBits(b, 0, st.out)|, BlockOut(b, 0, st.out))
  {
    hide Finishes, At, AtBlockEnd, HeaderOk, HeaderBits, HeaderLit, HeaderDist, CodedBits, BodyOk, ApplyAll, AllSpan,
        PacksOk, UnpackAll, PacksCoded;
    var h, j1 := HeaderTaken(cfg, S, st, k, t);
    HeaderParts(h);
    var v := st.(pos := st.pos + |HeaderBits(h)|, ctl := LitLen, lit := HeaderLit(h), dst := HeaderDist(h));
    var items;
    items, u, j := CodedTaken(cfg, S, v, j1, t);
    BodyItems(items, HeaderLit(h), HeaderDist(h), st.out);
    b := Dynamic(h, items);
    AtJoin(S, st.pos, HeaderBits(h), CodedBits(items, HeaderLit(h), HeaderDist(h), st.out));
  }

  lemma HeaderParts(h: Header)
    requires HeaderOk(h)
    ensures PacksOk(h.packs) && h.hlit <= |UnpackAll(h.packs)|
  {
    hide Usable, PacksOk, PacksCoded, UnpackAll, HeaderLit, HeaderDist;
  }

  lemma BodyItems(items: seq<Item>, lit: seq<nat>, dst: seq<nat>, out: seq<byte>)
    requires BodyOk(items, lit, dst, out)
    ensures ItemsOk(items, out)
  {
    hide ItemsOk, AllCoded;
  }

  /** A block was there. */
  lemma BlockTaken(cfg: Cfg, S: seq<bool>, st: St, k: nat, t: St) returns (b: Block, final: bool, u: St, j: nat)
    requires Finishes(cfg, S, st, k, t) && st.ctl == Head
    ensures BlockOk(b, st.pos, st.out) && BlockSpans(cfg, b) && At(S, st.pos, BlockBits(b, final, st.pos, st.out))
        && j < k
    ensures Finishes(cfg, S, u, j, t)
    ensures AtBlockEnd(cfg, u, final, st.pos + |BlockBits(b, final, st.pos, st.out)|, BlockOut(b, st.pos, st.out))
  {
    hide Finishes, At, AtBlockEnd, ToBits, FixedLit, FixedDist, HeaderOk, HeaderBits, HeaderLit, HeaderDist, AllSpan,
        StoredBits, BodyOk, CodedBits, ApplyAll, BlockBits;
    var kind;
    final, kind := HeadTaken(cfg, S, st, k, t);
    var h := HeadStep(st, (if final then 1 else 0) + 2 * kind);
    if kind == 0 {
      b, u, j := StoredBlockTaken(cfg, S, h, st.pos, k - 1, t);
    } else if kind == 1 {
      var items;
      items, u, j := CodedTaken(cfg, S, h, k - 1, t);
      BodyItems(items, FixedLit(), FixedDist(), st.out);
      b := Fixed(items);
    } else {
      b, u, j := DynamicTaken(cfg, S, h, k - 1, t);
    }
    BlockJoin(S, b, final, st.pos, st.out);
  }

  // ----- streams -----

  /** All blocks, up to the final one. */
  lemma {:induction false} ChunksTaken(cfg: Cfg, S: seq<bool>, pos: nat, acc: seq<Chunk>, st: St, k: nat, t: St)
      returns (s: seq<Chunk>, u: St, j: nat)
    requires Finishes(cfg, S, st, k, t) && st.ctl == Head && ChunksSpan(cfg, acc)
        && (forall i :: 0 <= i < |acc| ==> !acc[i].final)
    requires Print(acc, pos).Printed? && st.pos == pos + |Print(acc, pos).bits| && st.out == Print(acc, pos).out
        && At(S, pos, Print(acc, pos).bits)
    ensures Closed(s) && ChunksSpan(cfg, s) && Print(s, pos).Printed? && At(S, pos, Print(s, pos).bits)
    ensures Finishes(cfg, S, u, j, t) && AtBlockEnd(cfg, u, true, pos + |Print(s, pos).bits|, Print(s, pos).out)
    decreases k
  {
    hide Finishes, At, AtBlockEnd, Print, BlockSpans, BlockBits, BlockOk, BlockOut;
    var p := Print(acc, pos);
    var b, final;
    b, final, u, j := BlockTaken(cfg, S, st, k, t);
    var c := Chunk(b, final);
    PrintSnoc(acc, c, pos);
    AtJoin(S, pos, p.bits, BlockBits(b, final, st.pos, st.out));
    if final {
      s := acc + [c];
    } else {
      NextHead(cfg, u, st.pos + |BlockBits(b, final, st.pos, st.out)|, BlockOut(b, st.pos, st.out));
      s, u, j := ChunksTaken(cfg, S, pos, acc + [c], u, j, t);
    }
  }

  lemma NextHead(cfg: Cfg, u: St, pos: nat, out: seq<byte>)
    requires AtBlockEnd(cfg, u, false, pos, out)
    ensures u.ctl == Head && u.pos == pos && u.out == out
  {
  }

  lemma DoneStays(cfg: Cfg, S: seq<bool>, st: St, k: nat, t: St)
    requires Finishes(cfg, S, st, k, t) && st.ctl.Done?
    ensures t == st
  {
    StalledRun(cfg, S, st, k);
  }

  lemma TrailerIs(cfg: Cfg, st: St, v: nat)
    requires WellFormed(st) && st.ctl.Trailer?
    ensures FieldStep(cfg, st, v) == TrailerStep(st, st.ctl.sum, st.ctl.n, v)
  {
  }

  lemma SumOf(b0: nat, b1: nat, b2: nat, b3: nat)
    requires b0 < 256 && b1 < 256 && b2 < 256 && b3 < 256
    ensures var sum := ShiftIn(ShiftIn(ShiftIn(ShiftIn(1, b0), b1), b2), b3);
            sum < 0x1_0000_0000 && SumBytes(sum) == [b0, b1, b2, b3]
  {
    hide ShiftIn;
    ShiftSmall(1, b0);
    ShiftSmall(256 + b0, b1);
    ShiftSmall((256 + b0) * 256 + b1, b2);
    ShiftTop(b0 * 0x1_0000 + b1 * 256 + b2, b3);
    FourDigits(b0, b1, b2, b3);
  }

  lemma FourDigits(b0: nat, b1: nat, b2: nat, b3: nat)
    requires b0 < 256 && b1 < 256 && b2 < 256 && b3 < 256
    ensures var a := b0 * 0x100_0000 + b1 * 0x1_0000 + b2 * 0x100 + b3;
            a / 0x100_0000 == b0 && a / 0x1_0000 % 256 == b1 && a / 0x100 % 256 == b2 && a % 256 == b3
  {
    var hi := b0 * 256 + b1;
    var mid := hi * 256 + b2;
    assert (mid * 256 + b3) / 256 == mid && (mid * 256 + b3) / 0x1_0000 == hi && (mid * 256 + b3) / 0x100_0000 == b0;
  }

  /** The trailer: the four bytes of the sum that the decoder ends with. */
  lemma TrailerTaken(cfg: Cfg, S: seq<bool>, st: St, k: nat, t: St)
    requires Finishes(cfg, S, st, k, t) && st.ctl == Trailer(1, 0)
    ensures t.ctl.Done? && t.ctl.sum < 0x1_0000_0000 && At(S, st.pos, ByteBits(SumBytes(t.ctl.sum)))
    ensures t == st.(ctl := t.ctl, pos := st.pos + 32)
  {
    hide Finishes, ToBits, ByteBits, At, FieldStep, ShiftIn, SumBytes;
    Here(cfg, S, st, k, t);
    var b0 := ByteTaken(cfg, S, st, k, t);
    TrailerIs(cfg, st, b0);
    var u := TrailerStep(st, 1, 0, b0);
    Here(cfg, S, u, k - 1, t);
    var b1 := ByteTaken(cfg, S, u, k - 1, t);
    TrailerIs(cfg, u, b1);
    var v := TrailerStep(u, u.ctl.sum, 1, b1);
    Here(cfg, S, v, k - 2, t);
    var b2 := ByteTaken(cfg, S, v, k - 2, t);
    TrailerIs(cfg, v, b2);
    var w := TrailerStep(v, v.ctl.sum, 2, b2);
    Here(cfg, S, w, k - 3, t);
    var b3 := ByteTaken(cfg, S, w, k - 3, t);
    TrailerIs(cfg, w, b3);
    DoneStays(cfg, S, TrailerStep(w, w.ctl.sum, 3, b3), k - 4, t);
    SumOf(b0, b1, b2, b3);
    FourBytesAt(S, st.pos, b0, b1, b2, b3);
  }

  lemma FourBytesAt(S: seq<bool>, pos: nat, b0: byte, b1: byte, b2: byte, b3: byte)
    requires At(S, pos, ToBits(b0, 8)) && At(S, pos + 8, ToBits(b1, 8)) && At(S, pos + 16, ToBits(b2, 8))
        && At(S, pos + 24, ToBits(b3, 8))
    ensures At(S, pos, ByteBits([b0, b1, b2, b3]))
  {
    hide ToBits, At;
    assert [b0][..0] == [] && [] + ToBits(b0, 8) == ToBits(b0, 8);
    assert ByteBits([b0]) == ToBits(b0, 8);
    hide ByteBits;
    OneMoreByte(S, pos, [b0], b1);
    OneMoreByte(S, pos, [b0] + [b1], b2);
    OneMoreByte(S, pos, [b0] + [b1] + [b2], b3);
    assert [b0] + [b1] + [b2] + [b3] == [b0, b1, b2, b3];
  }

  /** What the reference decoder reads to its end, if no length symbol without a length comes by, is a zlib
      stream: a printed header whose window fits, printed blocks, the last one final, with distances inside the
      buffer, padding, and the four bytes of the sum that it ends with; and its output is the bytes the blocks stand
      for. */
  lemma AcceptedZlib(cfg: Cfg, S: seq<bool>, t: St) returns (z0: byte, z1: byte, s: seq<Chunk>, pad: seq<bool>)
    requires cfg.zlib && WellFormed(Init(cfg)) && Leads(cfg, S, Init(cfg), t) && t.ctl.Done?
    requires forall u :: Leads(cfg, S, Init(cfg), u) ==> u.ctl != DistSym(0)
    ensures ZlibStream(cfg, S, z0, z1, s, pad, t.ctl.sum) && t.out == Print(s, 16).out
  {
    hide Finishes, ToBits, ByteBits, At, FieldStep, Print, GoodHead, ChunksSpan, SumBytes;
    var k := FromInit(cfg, S, t);
    var h := Init(cfg).(ctl := Head, pos := 16);
    z0, z1, k := WrapperTaken(cfg, S, k, t);
    NoBlocks(cfg, S, h, k, t);
    var v, j;
    s, v, j := ChunksTaken(cfg, S, 16, [], h, k, t);
    TrailerTaken(cfg, S, v, j, t);
    pad := PadAt(S, 16 + |Print(s, 16).bits|, ByteBits(SumBytes(t.ctl.sum)));
    AtJoin(S, 16, Print(s, 16).bits, pad + ByteBits(SumBytes(t.ctl.sum)));
    JoinedAt(S, ToBits(z0, 8), ToBits(z1, 8), Print(s, 16).bits, pad + ByteBits(SumBytes(t.ctl.sum)));
  }

  /** The header's two bytes. */
  lemma WrapperTaken(cfg: Cfg, S: seq<bool>, k: nat, t: St) returns (z0: byte, z1: byte, j: nat)
    requires cfg.zlib && Finishes(cfg, S, Init(cfg), k, t)
    ensures GoodHead(cfg, z0, z1) && At(S, 0, ToBits(z0, 8)) && At(S, 8, ToBits(z1, 8))
    ensures Finishes(cfg, S, Init(cfg).(ctl := Head, pos := 16), j, t)
  {
    hide Finishes, ToBits, At, FieldStep, GoodHead;
    var st := Init(cfg);
    z0 := ByteTaken(cfg, S, st, k, t);
    FieldIs(cfg, st, z0);
    var u := st.(ctl := Zhdr1(z0), pos := 8);
    Here(cfg, S, u, k - 1, t);
    z1 := ByteTaken(cfg, S, u, k - 1, t);
    FieldIs(cfg, u, z1);
    HeadAccepted(cfg, z0, z1);
    NotStuck(cfg, S, FieldStep(cfg, u, z1), k - 2, t);
    j := k - 2;
  }

  lemma JoinedAt(S: seq<bool>, a: seq<bool>, b: seq<bool>, c: seq<bool>, d: seq<bool>)
    requires |a| == 8 && |b| == 8 && At(S, 0, a) && At(S, 8, b) && At(S, 16, c + d)
    ensures a + (b + (c + d)) <= S
  {
    hide At;
    AtJoin(S, 8, b, c + d);
    AtJoin(S, 0, a, b + (c + d));
    AtFirst(S, a + (b + (c + d)));
  }

  lemma AtFirst(S: seq<bool>, b: seq<bool>)
    requires At(S, 0, b)
    ensures b <= S
  {
  }

  lemma NoBlocks(cfg: Cfg, S: seq<bool>, h: St, k: nat, t: St)
    requires Finishes(cfg, S, h, k, t) && h.ctl == Head && h.out == []
    ensures Print([], h.pos) == Printed([], []) && At(S, h.pos, []) && ChunksSpan(cfg, [])
  {
    hide Finishes;
    NothingAt(cfg, S, h, k, t);
  }

  lemma FromInit(cfg: Cfg, S: seq<bool>, t: St) returns (k: nat)
    requires WellFormed(Init(cfg)) && Leads(cfg, S, Init(cfg), t) && t.ctl.Done?
    requires forall u :: Leads(cfg, S, Init(cfg), u) ==> u.ctl != DistSym(0)
    ensures Finishes(cfg, S, Init(cfg), k, t)
  {
    hide WellFormed, Step;
    k :| Run(cfg, S, Init(cfg), k) == t;
    forall j: nat | j <= k ensures Run(cfg, S, Init(cfg), j).ctl != DistSym(0) {
      assert Leads(cfg, S, Init(cfg), Run(cfg, S, Init(cfg), j));
    }
  }

  /** The same for a raw stream. */
  lemma AcceptedRaw(cfg: Cfg, S: seq<bool>, t: St) returns (s: seq<Chunk>)
    requires !cfg.zlib && WellFormed(Init(cfg)) && Leads(cfg, S, Init(cfg), t) && t.ctl.Done?
    requires forall u :: Leads(cfg, S, Init(cfg), u) ==> u.ctl != DistSym(0)
    ensures RawStream(cfg, S, s) && t.out == Print(s, 0).out
  {
    hide Finishes, At, Print, ChunksSpan;
    var k := FromInit(cfg, S, t);
    NoBlocks(cfg, S, Init(cfg), k, t);
    var u, j;
    s, u, j := ChunksTaken(cfg, S, 0, [], Init(cfg), k, t);
    DoneStays(cfg, S, u, j, t);
    AtFirst(S, Print(s, 0).bits);
  }
}
