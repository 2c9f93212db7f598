/** The bit-by-bit reference decoder: one step reads exactly the bits of one field, or emits one byte.
    Its control states carry only what a resumable decoder has to remember between two fields. */
module Machine {
  import opened Bits
  import opened Canonical
  import opened Format

  /** Whether the stream has a zlib wrapper, and the caller's output buffer. */
  datatype Cfg = Cfg(zlib: bool, nonWrapping: bool, window: nat)

  datatype Ctl =
    | Zhdr0
    | Zhdr1(z0: nat)
    | Head
    | RawHdr(hdr: seq<nat>)
    | RawCopy(left: nat)
    | RawEmit(left: nat, raw: byte)
    | Sizes(sizes: seq<nat>)
    | ClLens(sizes: seq<nat>, cl: seq<nat>, n: nat)
    | Lens(hlit: nat, total: nat, cl: seq<nat>, got: seq<nat>)
    | LensExtra(hlit: nat, total: nat, cl: seq<nat>, got: seq<nat>, sym: nat)
    | LitLen
    | EmitLit(lit: byte)
    | LenExtra(base: nat, extra: nat)
    | DistSym(len: nat)
    | DistExtra(len: nat, base: nat, extra: nat)
    | CopyMatch(len: nat, dist: nat)
    | WildCopy(left: nat)
    | Trailer(sum: nat, n: nat)
    | Done(sum: nat)
    | Failed(code: nat)
    | Invalid

  /** Control, the current block's final flag and codes, the bit position, the output so far. */
  datatype St = St(ctl: Ctl, final: bool, lit: seq<nat>, dst: seq<nat>, pos: nat, out: seq<byte>)

  datatype Res = Stall | Next(st: St)

  function Init(cfg: Cfg): St {
    St(if cfg.zlib then Zhdr0 else Head, false, [], [], 0, [])
  }

  predicate Halted(c: Ctl) {
    c.Done? || c.Failed? || c.Invalid?
  }

  /** The next n bits as a number. */
  function Peek(S: seq<bool>, pos: nat, n: nat): nat
    requires pos + n <= |S|
  {
    FromBits(S[pos..pos + n])
  }

  predicate BadZlibHeader(cfg: Cfg, z0: nat, z1: nat) {
    || (z0 * 256 + z1) % 31 != 0
    || z1 / 32 % 2 == 1
    || z0 % 16 != 8
    || (!cfg.nonWrapping && (Pow2(8 + z0 / 16) > 32768 || cfg.window < Pow2(8 + z0 / 16)))
  }

  function Align(pos: nat): nat {
    pos + Padding(pos)
  }

  /** The end of a block: the next block's head, or the end of the data. */
  function AfterBlock(cfg: Cfg, st: St, pos: nat): St {
    if !st.final then st.(ctl := Head, pos := pos)
    else if cfg.zlib then st.(ctl := Trailer(1, 0), pos := Align(pos))
    else st.(ctl := Done(1), pos := Align(pos))
  }

  function HeadStep(st: St, v: nat): St {
    var t := st.(final := v % 2 == 1, pos := st.pos + 3);
    if v / 2 == 0 then t.(ctl := RawHdr([]), pos := Align(st.pos + 3))
    else if v / 2 == 1 then t.(ctl := LitLen, lit := FixedLit(), dst := FixedDist())
    else if v / 2 == 2 then t.(ctl := Sizes([]))
    else t.(ctl := Failed(10))
  }

  function RawHdrStep(st: St, hdr: seq<nat>, b: nat): St {
    var h := hdr + [b];
    st.(pos := st.pos + 8,
        ctl := if |h| < 4 then RawHdr(h)
               else if h[0] + 256 * h[1] + (h[2] + 256 * h[3]) != 65535 then Failed(39)
               else RawCopy(h[0] + 256 * h[1]))
  }

  const SIZE_BITS: seq<nat> := [5, 5, 4]
  const MIN_SIZES: seq<nat> := [257, 1, 4]

  function SizesStep(st: St, sizes: seq<nat>, v: nat): St
    requires |sizes| < 3
  {
    var s := sizes + [v + MIN_SIZES[|sizes|]];
    st.(pos := st.pos + SIZE_BITS[|sizes|], ctl := if |s| < 3 then Sizes(s) else ClLens(s, Repeat(0, 19), 0))
  }

  ghost function ClLensStep(st: St, sizes: seq<nat>, cl: seq<nat>, n: nat, v: nat): St
    requires |sizes| == 3 && |cl| == 19 && n < 19
  {
    var c := cl[SWIZZLE[n] := v];
    st.(pos := st.pos + 3,
        ctl := if n + 1 < sizes[2] then ClLens(sizes, c, n + 1)
               else if Usable(c) then Lens(sizes[0], sizes[0] + sizes[1], c, [])
               else Failed(35))
  }

  /** All code lengths read: they must match the announced number and form acceptable codes. */
  ghost function LensDone(st: St, hlit: nat, total: nat, cl: seq<nat>, got: seq<nat>): St
    requires hlit <= total
  {
    if |got| < total then st.(ctl := Lens(hlit, total, cl, got))
    else if |got| != total then st.(ctl := Failed(21))
    else if !Usable(got[hlit..]) || !Usable(got[..hlit]) then st.(ctl := Failed(35))
    else st.(ctl := LitLen, lit := got[..hlit], dst := got[hlit..])
  }

  /** A code length, or the start of a run, from a symbol of n bits. */
  ghost function LensStep(st: St, hlit: nat, total: nat, cl: seq<nat>, got: seq<nat>, sym: nat, n: nat): St
    requires hlit <= total
  {
    var t := st.(pos := st.pos + n);
    if sym < 16 then LensDone(t, hlit, total, cl, got + [sym])
    else if sym == 16 && got == [] then t.(ctl := Failed(17))
    else t.(ctl := LensExtra(hlit, total, cl, got, sym))
  }

  /** A literal, the end of the block, or a length, from a symbol of n bits. The last two length symbols stand for
      no length. */
  function LitLenStep(cfg: Cfg, st: St, sym: nat, n: nat): St {
    var t := st.(pos := st.pos + n);
    if sym < 256 then t.(ctl := EmitLit(sym))
    else if sym == 256 then AfterBlock(cfg, st, t.pos)
    else if sym - 257 >= 29 then t.(ctl := DistSym(0))
    else if LENGTH_EXTRA[sym - 257] > 0 then t.(ctl := LenExtra(LENGTH_BASE[sym - 257], LENGTH_EXTRA[sym - 257]))
    else t.(ctl := DistSym(LENGTH_BASE[sym - 257]))
  }

  /** The buffer still holds the byte dist back. */
  predicate Near(cfg: Cfg, dist: nat) {
    cfg.nonWrapping || dist <= cfg.window
  }

  /** A match starts: its distance must lie within the output, and within a wrapping buffer. */
  function StartMatch(cfg: Cfg, st: St, len: nat, dist: nat): St {
    if cfg.nonWrapping && (dist == 0 || dist > |st.out|) then st.(ctl := Failed(37))
    else if len == 0 then st.(ctl := LitLen)
    else if dist == 0 || dist > |st.out| || !Near(cfg, dist) then st.(ctl := Invalid)
    else st.(ctl := CopyMatch(len, dist))
  }

  /** The last two distance symbols stand for no distance. */
  function DistStep(cfg: Cfg, st: St, len: nat, sym: nat, n: nat): St {
    var t := st.(pos := st.pos + n);
    if sym >= 30 then StartMatch(cfg, t, len, 0)
    else if DIST_EXTRA[sym] > 0 then t.(ctl := DistExtra(len, DIST_BASE[sym], DIST_EXTRA[sym]))
    else StartMatch(cfg, t, len, DIST_BASE[sym])
  }

  function CopyStep(st: St, len: nat, dist: nat): St
    requires 0 < dist <= |st.out| && len > 0
  {
    st.(out := st.out + [st.out[|st.out| - dist]], ctl := if len == 1 then LitLen else CopyMatch(len - 1, dist))
  }

  /** One more byte of a big-endian 32-bit number. */
  function ShiftIn(sum: nat, b: nat): (r: nat)
    ensures r < 0x1_0000_0000
  {
    (sum * 256 + b) % 0x1_0000_0000
  }

  function TrailerStep(st: St, sum: nat, n: nat, b: nat): St {
    var s := ShiftIn(sum, b);
    st.(pos := st.pos + 8, ctl := if n == 3 then Done(s) else Trailer(s, n + 1))
  }

  /** Bits that some symbol's code properly extends. */
  ghost predicate Extendable(lens: seq<nat>, bits: seq<bool>) {
    exists s :: 0 <= s < |lens| && |bits| < lens[s] && bits == SymBits(lens, s)[..|bits|]
  }

  /** States the decoder can be in: the fields have the sizes the steps rely on. */
  ghost predicate WellFormed(st: St) {
    match st.ctl
    case RawHdr(h) => |h| < 4 && forall i :: 0 <= i < |h| ==> h[i] < 256
    case RawEmit(left, _) => left > 0
    case Sizes(s) => |s| < 3 && SizesOk(s)
    case ClLens(s, cl, n) => |s| == 3 && SizesOk(s) && |cl| == 19 && n < s[2] && forall i :: 0 <= i < 19 ==> cl[i] < 8
    case Lens(hlit, total, cl, got) => LensOk(hlit, total, cl, got)
    case LensExtra(hlit, total, cl, got, sym) => LensOk(hlit, total, cl, got) && 16 <= sym < 19
        && (sym == 16 ==> got != [])
    case LitLen => CodesOk(st)
    case EmitLit(_) => CodesOk(st)
    case LenExtra(base, extra) => CodesOk(st) && 3 <= base <= 227 && 0 < extra <= 5
    case DistSym(len) => CodesOk(st) && len <= 258
    case DistExtra(len, base, extra) => CodesOk(st) && len <= 258 && base > 0 && 0 < extra <= 13
        && base + Pow2(extra) <= 32769
    case CopyMatch(len, dist) => CodesOk(st) && 0 < len <= 258 && 0 < dist <= |st.out| && dist <= 32768
    case WildCopy(left) => CodesOk(st) && 0 < left <= 258
    case Trailer(sum, n) => n < 4 && sum < 0x1_0000_0000
    case _ => true
  }

  ghost predicate SizesOk(s: seq<nat>) {
    && (|s| > 0 ==> 257 <= s[0] <= 288) && (|s| > 1 ==> 1 <= s[1] <= 32) && (|s| > 2 ==> 4 <= s[2] <= 19)
  }

  ghost predicate LensOk(hlit: nat, total: nat, cl: seq<nat>, got: seq<nat>) {
    && 257 <= hlit <= 288 && hlit < total <= hlit + 32 && |got| < total && |cl| == 19 && Short(cl) && Usable(cl)
    && forall i :: 0 <= i < |got| ==> got[i] < 16
  }

  ghost predicate CodesOk(st: St) {
    && Usable(st.lit) && Usable(st.dst) && Short(st.lit) && Short(st.dst) && 0 < |st.lit| <= 288 && 0 < |st.dst| <= 32
  }

  /** A field of n bits: wait for all of them. */
  predicate Ready(st: St, S: seq<bool>, n: nat) {
    st.pos + n <= |S|
  }

  /** The next symbol: decoded, still incomplete, or impossible. */
  datatype Sym = Found(s: nat) | Wait | Bad

  ghost function NextSym(lens: seq<nat>, bits: seq<bool>): (r: Sym)
    ensures r.Found? ==> r.s < |lens| && Matches(lens, r.s, bits)
  {
    var s := DecodeSym(lens, bits);
    if s >= 0 then Found(s) else if Extendable(lens, bits) then Wait else Bad
  }

  ghost function SymStep(cfg: Cfg, st: St, S: seq<bool>): Res
    requires WellFormed(st) && st.pos <= |S| && (st.ctl.Lens? || st.ctl.LitLen? || st.ctl.DistSym?)
  {
    var lens := if st.ctl.Lens? then st.ctl.cl else if st.ctl.LitLen? then st.lit else st.dst;
    var r := NextSym(lens, S[st.pos..]);
    if r.Wait? then Stall
    else if r.Bad? then Next(st.(ctl := Invalid))
    else Next(match st.ctl
              case Lens(hlit, total, cl, got) => LensStep(st, hlit, total, cl, got, r.s, cl[r.s])
              case LitLen => LitLenStep(cfg, st, r.s, st.lit[r.s])
              case DistSym(len) => DistStep(cfg, st, len, r.s, st.dst[r.s])
              case _ => st)
  }

  /** A field of fixed width: its width in the current state. */
  function Width(c: Ctl): nat
    requires c.Sizes? ==> |c.sizes| < 3
  {
    match c
    case Zhdr0 => 8
    case Zhdr1(_) => 8
    case Head => 3
    case RawHdr(_) => 8
    case RawCopy(left) => if left == 0 then 0 else 8
    case Sizes(s) => SIZE_BITS[|s|]
    case ClLens(_, _, _) => 3
    case LensExtra(_, _, _, _, sym) => PackExtra(sym)
    case LenExtra(_, n) => n
    case DistExtra(_, _, n) => n
    case Trailer(_, _) => 8
    case _ => 0
  }

  ghost function FieldStep(cfg: Cfg, st: St, v: nat): St
    requires WellFormed(st)
  {
    match st.ctl
    case Zhdr0 => st.(ctl := Zhdr1(v), pos := st.pos + 8)
    case Zhdr1(z0) => st.(ctl := if BadZlibHeader(cfg, z0, v) then Failed(36) else Head, pos := st.pos + 8)
    case Head => HeadStep(st, v)
    case RawHdr(h) => RawHdrStep(st, h, v)
    case RawCopy(left) =>
      if left == 0 then AfterBlock(cfg, st, st.pos) else st.(ctl := RawEmit(left, v % 256), pos := st.pos + 8)
    case RawEmit(left, b) => st.(ctl := RawCopy(left - 1), out := st.out + [b])
    case Sizes(s) => SizesStep(st, s, v)
    case ClLens(s, cl, n) => ClLensStep(st, s, cl, n, v)
    case LensExtra(hlit, total, cl, got, sym) =>
      LensDone(st.(pos := st.pos + PackExtra(sym)), hlit, total, cl, Unpack(Pack(sym, v), got))
    case EmitLit(b) => st.(ctl := LitLen, out := st.out + [b])
    case LenExtra(base, n) => st.(ctl := DistSym(base + v), pos := st.pos + n)
    case DistExtra(len, base, n) => StartMatch(cfg, st.(pos := st.pos + n), len, base + v)
    case CopyMatch(len, dist) => CopyStep(st, len, dist)
    case WildCopy(_) => st.(ctl := Invalid)
    case Trailer(sum, n) => TrailerStep(st, sum, n, v)
    case _ => st
  }

  predicate AtSym(c: Ctl) {
    c.Lens? || c.LitLen? || c.DistSym?
  }

  /** One step on the bits seen so far: S may be any prefix of the stream. */
  ghost function Step(cfg: Cfg, st: St, S: seq<bool>): Res
    requires WellFormed(st)
  {
    if Halted(st.ctl) || st.pos > |S| then Stall
    else if AtSym(st.ctl) then SymStep(cfg, st, S)
    else if !Ready(st, S, Width(st.ctl)) then Stall
    else Next(FieldStep(cfg, st, Peek(S, st.pos, Width(st.ctl))))
  }

  // ----- what every step keeps -----

  lemma FixedLengths()
    ensures Short(FixedLit()) && Short(FixedDist()) && Complete(FixedLit()) && Complete(FixedDist())
  {
    FixedCounts();
    var l := FixedLit();
    assert Used(l, 6) == 0;
    assert Used(l, 7) == 24 && Used(l, 8) == 200 && Used(l, 9) == 512 && Used(l, 10) == 1024 && Used(l, 11) == 2048;
    assert Used(l, 12) == 4096 && Used(l, 13) == 8192 && Used(l, 14) == 16384;
    var d := FixedDist();
    assert Used(d, 4) == 0;
    assert Used(d, 5) == 32 && Used(d, 6) == 64 && Used(d, 7) == 128 && Used(d, 8) == 256 && Used(d, 9) == 512
        && Used(d, 10) == 1024;
    assert Used(d, 11) == 2048 && Used(d, 12) == 4096 && Used(d, 13) == 8192 && Used(d, 14) == 16384;
    assert Pow2(15) == 32768;
  }

  lemma FixedCounts()
    ensures forall l {:trigger Count(FixedLit(), l)} :: Count(FixedLit(), l) == if l == 7 then 24 else if l == 8 then
        152 else if l == 9 then 112 else 0
    ensures forall l {:trigger Count(FixedDist(), l)} :: Count(FixedDist(), l) == if l == 5 then 32 else 0
  {
    forall l ensures Count(FixedLit(), l) == if l == 7 then 24 else if l == 8 then 152 else if l == 9 then 112 else 0 {
      var f := FixedLit();
      assert f == Repeat(8, 144) + (Repeat(9, 112) + (Repeat(7, 24) + Repeat(8, 8)));
      CountSplit(Repeat(8, 144), Repeat(9, 112) + (Repeat(7, 24) + Repeat(8, 8)), l);
      CountSplit(Repeat(9, 112), Repeat(7, 24) + Repeat(8, 8), l);
      CountSplit(Repeat(7, 24), Repeat(8, 8), l);
      CountRepeat(8, 144, l);
      CountRepeat(9, 112, l);
      CountRepeat(7, 24, l);
      CountRepeat(8, 8, l);
    }
    forall l ensures Count(FixedDist(), l) == if l == 5 then 32 else 0 {
      assert FixedDist() == Repeat(5, 32);
      CountRepeat(5, 32, l);
    }
  }

  lemma {:induction false} CountRepeat(x: nat, n: nat, l: nat)
    ensures Count(Repeat(x, n), l) == if x == l then n else 0
  {
    if n > 0 {
      CountRepeat(x, n - 1, l);
      assert Repeat(x, n)[..n - 1] == Repeat(x, n - 1);
    }
  }

  /** A decoded symbol does not depend on what follows it. */
  lemma NextSymMono(lens: seq<nat>, a: seq<bool>, b: seq<bool>)
    requires Usable(lens) && Short(lens) && a <= b
    ensures NextSym(lens, a).Wait? || NextSym(lens, b) == NextSym(lens, a)
  {
    hide Usable, SymBits;
    UsableFits(lens);
    var r := NextSym(lens, a);
    if r.Found? {
      assert b[..lens[r.s]] == a[..lens[r.s]];
      DecodeIs(lens, r.s, b);
    } else if r.Bad? {
      BadStays(lens, a, b);
    }
  }

  /** What fits the longer bits fits the shorter ones. */
  lemma FitsShorter(lens: seq<nat>, a: seq<bool>, b: seq<bool>, s: nat)
    requires s < |lens| && a <= b && (Matches(lens, s, b) || (|b| < lens[s] && b == SymBits(lens, s)[..|b|]))
    ensures Matches(lens, s, a) || Extendable(lens, a)
  {
    hide SymBits;
    var c := SymBits(lens, s);
    if lens[s] <= |a| {
      assert a[..lens[s]] == b[..lens[s]];
    } else {
      assert a == b[..|a|] == c[..|a|];
    }
  }

  lemma BadStays(lens: seq<nat>, a: seq<bool>, b: seq<bool>)
    requires NextSym(lens, a).Bad? && a <= b
    ensures NextSym(lens, b).Bad?
  {
    hide SymBits, Matches;
    if !NextSym(lens, b).Bad? {
      var s := DecodeSym(lens, b);
      if s < 0 {
        s :| 0 <= s < |lens| && |b| < lens[s] && b == SymBits(lens, s)[..|b|];
      }
      FitsShorter(lens, a, b, s);
      assert false;
    }
  }

  /** More input never changes a step already possible. */
  lemma StepMono(cfg: Cfg, st: St, S: seq<bool>, T: seq<bool>)
    requires WellFormed(st) && S <= T
    ensures Step(cfg, st, S).Stall? || Step(cfg, st, T) == Step(cfg, st, S)
  {
    hide FieldStep, LensStep, LitLenStep, DistStep, NextSym, Usable;
    if !Halted(st.ctl) && st.pos <= |S| {
      if AtSym(st.ctl) {
        var lens := if st.ctl.Lens? then st.ctl.cl else if st.ctl.LitLen? then st.lit else st.dst;
        assert S[st.pos..] <= T[st.pos..];
        NextSymMono(lens, S[st.pos..], T[st.pos..]);
      } else if Ready(st, S, Width(st.ctl)) {
        assert S[st.pos..st.pos + Width(st.ctl)] == T[st.pos..st.pos + Width(st.ctl)];
      }
    }
  }

  lemma PeekSmall(S: seq<bool>, pos: nat, n: nat)
    requires pos + n <= |S|
    ensures Peek(S, pos, n) < Pow2(n)
  {
    hide FromBits, Pow2;
    var b := S[pos..pos + n];
    assert |b| == n;
  }

  /** Every step leads to a well-formed state, moves forward and only appends output. */
  lemma StepKeeps(cfg: Cfg, st: St, S: seq<bool>)
    requires WellFormed(st) && Step(cfg, st, S).Next?
    ensures var t := Step(cfg, st, S).st; WellFormed(t) && st.pos <= t.pos && st.out <= t.out
  {
    hide NextSym, Peek, Usable;
    if AtSym(st.ctl) {
      SymKeeps(cfg, st, S);
    } else {
      PeekSmall(S, st.pos, Width(st.ctl));
      FieldKeeps(cfg, st, Peek(S, st.pos, Width(st.ctl)));
    }
  }

  /** t may follow st. */
  ghost predicate Follows(st: St, t: St) {
    WellFormed(t) && st.pos <= t.pos && st.out <= t.out
  }

  lemma SymKeeps(cfg: Cfg, st: St, S: seq<bool>)
    requires WellFormed(st) && st.pos <= |S| && AtSym(st.ctl) && SymStep(cfg, st, S).Next?
    ensures Follows(st, SymStep(cfg, st, S).st)
  {
    hide NextSym, LensStep, LitLenStep, DistStep, Follows;
    var lens := if st.ctl.Lens? then st.ctl.cl else if st.ctl.LitLen? then st.lit else st.dst;
    var r := NextSym(lens, S[st.pos..]);
    if r.Bad? {
      InvalidFollows(st);
    } else {
      match st.ctl
      case Lens(hlit, total, cl, got) => LensKeeps(st, hlit, total, cl, got, r.s, cl[r.s]);
      case LitLen => LitLenKeeps(cfg, st, r.s, st.lit[r.s]);
      case DistSym(len) => DistKeeps(cfg, st, len, r.s, st.dst[r.s]);
    }
  }

  lemma InvalidFollows(st: St)
    ensures Follows(st, st.(ctl := Invalid))
  {
  }

  lemma LensKeeps(st: St, hlit: nat, total: nat, cl: seq<nat>, got: seq<nat>, sym: nat, n: nat)
    requires WellFormed(st) && st.ctl == Lens(hlit, total, cl, got) && sym < 19
    ensures Follows(st, LensStep(st, hlit, total, cl, got, sym, n))
  {
    hide Usable, LensDone;
    if sym < 16 {
      LensDoneKeeps(st.(pos := st.pos + n), hlit, total, cl, got + [sym]);
    }
  }

  lemma LensDoneKeeps(st: St, hlit: nat, total: nat, cl: seq<nat>, got: seq<nat>)
    requires 257 <= hlit <= 288 && hlit < total <= hlit + 32 && |cl| == 19 && Short(cl) && Usable(cl)
    requires forall i :: 0 <= i < |got| ==> got[i] < 16
    ensures Follows(st, LensDone(st, hlit, total, cl, got))
  {
    hide Usable;
  }

  lemma LitLenKeeps(cfg: Cfg, st: St, sym: nat, n: nat)
    requires WellFormed(st) && st.ctl.LitLen?
    ensures Follows(st, LitLenStep(cfg, st, sym, n))
  {
    hide Usable;
    if 257 <= sym < 286 {
      LengthTable(sym - 257);
    }
  }

  lemma DistKeeps(cfg: Cfg, st: St, len: nat, sym: nat, n: nat)
    requires WellFormed(st) && st.ctl == DistSym(len)
    ensures Follows(st, DistStep(cfg, st, len, sym, n))
  {
    hide Usable, Short, StartMatch;
    if sym < 30 {
      DistTable(sym);
    }
    StartKeeps(cfg, st, st.(pos := st.pos + n), len, if sym < 30 then DIST_BASE[sym] else 0);
  }

  lemma FieldKeeps(cfg: Cfg, st: St, v: nat)
    requires WellFormed(st) && !AtSym(st.ctl) && !Halted(st.ctl) && v < Pow2(Width(st.ctl))
    ensures Follows(st, FieldStep(cfg, st, v))
  {
    hide Usable, Pow2, HeadStep, RawHdrStep, SizesStep, ClLensStep, LensDone, StartMatch, CopyStep, TrailerStep;
    match st.ctl
    case Head => HeadKeeps(st, v);
    case RawHdr(h) => RawHdrKeeps(st, h, v);
    case Sizes(s) => SizesKeeps(st, s, v);
    case ClLens(s, cl, n) => ClLensKeeps(st, s, cl, n, v);
    case LensExtra(hlit, total, cl, got, sym) =>
      UnpackSmall(sym, v, got);
      LensDoneKeeps(st.(pos := st.pos + PackExtra(sym)), hlit, total, cl, Unpack(Pack(sym, v), got));
    case LenExtra(base, n) => SmallField(v, n, 5);
    case DistExtra(len, base, n) => StartKeeps(cfg, st, st.(pos := st.pos + n), len, base + v);
    case CopyMatch(len, dist) => CopyKeeps(st, len, dist);
    case Trailer(sum, n) => TrailerKeeps(st, sum, n, v);
    case _ =>
  }

  lemma StartKeeps(cfg: Cfg, st: St, t: St, len: nat, dist: nat)
    requires CodesOk(t) && len <= 258 && dist <= 32768 && st.pos <= t.pos && st.out <= t.out
    ensures Follows(st, StartMatch(cfg, t, len, dist))
  {
    hide Usable;
  }

  lemma CopyKeeps(st: St, len: nat, dist: nat)
    requires WellFormed(st) && st.ctl == CopyMatch(len, dist)
    ensures Follows(st, CopyStep(st, len, dist))
  {
    hide Usable;
  }

  lemma TrailerKeeps(st: St, sum: nat, n: nat, b: nat)
    requires n < 4
    ensures Follows(st, TrailerStep(st, sum, n, b))
  {
    hide ShiftIn;
  }

  lemma UnpackSmall(sym: nat, v: nat, got: seq<nat>)
    requires 16 <= sym && (sym == 16 ==> got != []) && forall i :: 0 <= i < |got| ==> got[i] < 16
    ensures forall i :: 0 <= i < |Unpack(Pack(sym, v), got)| ==> Unpack(Pack(sym, v), got)[i] < 16
  {
  }

  lemma SmallField(v: nat, n: nat, m: nat)
    requires v < Pow2(n) && n <= m <= 5
    ensures v < 32
  {
    Pow2Mono(n, 5);
    assert Pow2(5) == 32;
  }

  lemma HeadKeeps(st: St, v: nat)
    requires v < Pow2(3)
    ensures Follows(st, HeadStep(st, v))
  {
    hide Usable;
    FixedUsable();
    assert |FixedLit()| == 288 && |FixedDist()| == 32;
  }

  lemma RawHdrKeeps(st: St, h: seq<nat>, v: nat)
    requires |h| < 4 && (forall i :: 0 <= i < |h| ==> h[i] < 256) && v < Pow2(8)
    ensures Follows(st, RawHdrStep(st, h, v))
  {
    assert Pow2(8) == 256;
  }

  lemma SizesKeeps(st: St, s: seq<nat>, v: nat)
    requires |s| < 3 && SizesOk(s) && v < Pow2(SIZE_BITS[|s|])
    ensures Follows(st, SizesStep(st, s, v))
  {
    assert Pow2(4) == 16 && Pow2(5) == 32;
  }

  lemma SwizzleTable(i: nat)
    requires i < 19
    ensures SWIZZLE[i] < 19
  {
  }

  lemma ClLensKeeps(st: St, s: seq<nat>, cl: seq<nat>, n: nat, v: nat)
    requires WellFormed(st) && st.ctl == ClLens(s, cl, n) && v < Pow2(3)
    ensures Follows(st, ClLensStep(st, s, cl, n, v))
  {
    hide Usable;
    SwizzleTable(n);
    assert Pow2(3) == 8;
  }

  lemma FixedUsable()
    ensures Usable(FixedLit()) && Usable(FixedDist()) && Short(FixedLit()) && Short(FixedDist())
  {
    FixedLengths();
  }

  /** A field's step, state by state. */
  lemma FieldIs(cfg: Cfg, st: St, v: nat)
    requires WellFormed(st)
    ensures st.ctl.Trailer? ==> FieldStep(cfg, st, v) == TrailerStep(st, st.ctl.sum, st.ctl.n, v)
    ensures st.ctl.Head? ==> FieldStep(cfg, st, v) == HeadStep(st, v)
    ensures st.ctl.RawHdr? ==> FieldStep(cfg, st, v) == RawHdrStep(st, st.ctl.hdr, v)
    ensures st.ctl.Sizes? ==> |st.ctl.sizes| < 3 && FieldStep(cfg, st, v) == SizesStep(st, st.ctl.sizes, v)
    ensures st.ctl.LenExtra? ==>
        FieldStep(cfg, st, v) == st.(ctl := DistSym(st.ctl.base + v), pos := st.pos + st.ctl.extra)
    ensures st.ctl.DistExtra? ==>
        FieldStep(cfg, st, v) == StartMatch(cfg, st.(pos := st.pos + st.ctl.extra), st.ctl.len, st.ctl.base + v)
    ensures st.ctl.EmitLit? ==> FieldStep(cfg, st, v) == st.(ctl := LitLen, out := st.out + [st.ctl.lit])
    ensures st.ctl.RawEmit? ==> st.ctl.left > 0
    ensures st.ctl.RawEmit? ==>
              FieldStep(cfg, st, v) == st.(ctl := RawCopy(st.ctl.left - 1), out := st.out + [st.ctl.raw])
    ensures st.ctl.RawCopy? && st.ctl.left > 0 ==>
        FieldStep(cfg, st, v) == st.(ctl := RawEmit(st.ctl.left, v % 256), pos := st.pos + 8)
    ensures st.ctl.ClLens? ==> |st.ctl.sizes| == 3 && |st.ctl.cl| == 19 && st.ctl.n < 19
    ensures st.ctl.ClLens? ==> FieldStep(cfg, st, v) == ClLensStep(st, st.ctl.sizes, st.ctl.cl, st.ctl.n, v)
    ensures st.ctl.Zhdr0? ==> FieldStep(cfg, st, v) == st.(ctl := Zhdr1(v), pos := st.pos + 8)
    ensures st.ctl.Zhdr1? ==> FieldStep(cfg, st, v) == st.(ctl := if BadZlibHeader(cfg, st.ctl.z0, v) then Failed(36)
        else Head, pos := st.pos + 8)
  {
    hide StartMatch, TrailerStep, HeadStep, RawHdrStep, SizesStep, ClLensStep, BadZlibHeader, CodesOk, LensOk;
  }
}
