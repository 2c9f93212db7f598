/** The part of the compressor that records literals and matches and counts their symbols
    (third-party/miniz.c:1711-1750). */
module TokenBuffer {
  import opened Bits
  import opened Tokens
  import HuffmanTable
  import P = Penalty

  const CODE_BUF: nat := 65536

  /** How many source bytes the tokens stand for. */
  function Bytes(s: seq<Tok>): nat {
    if s == [] then 0 else Bytes(s[..|s| - 1]) + (if s[|s| - 1].TLit? then 1 else s[|s| - 1].len)
  }

  function LitSym(t: Tok): (r: nat)
    requires t.TMatch? ==> 3 <= t.len
    ensures r < 286 && r != 256
  {
    if t.TLit? then t.b else 257 + LenSym(t.len)
  }

  /** The total length of the tokens' literal and length symbols, for given lengths. */
  function LitLens(s: seq<Tok>, r: seq<nat>): nat
    requires |r| == 288 && ToksOk(s)
  {
    if s == [] then 0 else LitLens(s[..|s| - 1], r) + r[LitSym(s[|s| - 1])]
  }

  /** The total length of the tokens' distance symbols. */
  function DistLens(s: seq<Tok>, r: seq<nat>): nat
    requires |r| == 32 && ToksOk(s)
  {
    if s == [] then 0 else DistLens(s[..|s| - 1], r) + (if s[|s| - 1].TMatch? then r[DistSym(s[|s| - 1].dist)] else 0)
  }

  /** Every symbol that the tokens need has been counted as often as they need it. */
  ghost predicate Counted(s: seq<Tok>, lit: seq<nat>, dst: seq<nat>) {
    && |lit| == 288 && |dst| == 32 && ToksOk(s)
    && (forall k :: 0 <= k < |s| ==> lit[LitSym(s[k])] > 0 && (s[k].TMatch? ==> dst[DistSym(s[k].dist)] > 0))
    && lit[256] == lit[286] == lit[287] == dst[30] == dst[31] == 0
    && HuffmanTable.Total(lit) == |s| && HuffmanTable.Total(dst) <= |s|
    && (forall r {:trigger P.Dot(lit, r)} :: |r| == 288 ==> P.Dot(lit, r) == LitLens(s, r))
    && (forall r {:trigger P.Dot(dst, r)} :: |r| == 32 ==> P.Dot(dst, r) == DistLens(s, r))
  }

  lemma {:induction false} TotalBump(s: seq<nat>, i: nat)
    requires i < |s|
    ensures HuffmanTable.Total(s[i := s[i] + 1]) == HuffmanTable.Total(s) + 1
  {
    var t := s[i := s[i] + 1];
    if i == 0 {
      assert t[1..] == s[1..];
    } else {
      TotalBump(s[1..], i - 1);
      assert t[1..] == s[1..][i - 1 := s[1..][i - 1] + 1];
    }
  }

  lemma {:induction false} TotalZeros(n: nat)
    ensures HuffmanTable.Total(seq(n, _ => 0)) == 0
  {
    if n > 0 {
      TotalZeros(n - 1);
      assert seq(n, _ => 0)[1..] == seq(n - 1, _ => 0);
    }
  }

  lemma CountedMore(s: seq<Tok>, t: Tok, lit: seq<nat>, dst: seq<nat>, lit': seq<nat>, dst': seq<nat>)
    requires Counted(s, lit, dst) && TokOk(t) && lit' == lit[LitSym(t) := lit[LitSym(t)] + 1]
    requires dst' == if t.TMatch? then dst[DistSym(t.dist) := dst[DistSym(t.dist)] + 1] else dst
    ensures Counted(s + [t], lit', dst')
  {
    hide HuffmanTable.Total, LenSym, DistSym, P.Dot;
    TotalBump(lit, LitSym(t));
    if t.TMatch? {
      TotalBump(dst, DistSym(t.dist));
    }
    assert (s + [t])[..|s|] == s;
    forall r {:trigger P.Dot(lit', r)} | |r| == 288 ensures P.Dot(lit', r) == LitLens(s + [t], r) {
      DotBump(lit, r, LitSym(t));
    }
    forall r {:trigger P.Dot(dst', r)} | |r| == 32 ensures P.Dot(dst', r) == DistLens(s + [t], r) {
      if t.TMatch? {
        DotBump(dst, r, DistSym(t.dist));
      }
    }
  }

  lemma DotBump(f: seq<nat>, r: seq<nat>, x: nat)
    requires |f| == |r| && x < |f|
    ensures P.Dot(f[x := f[x] + 1], r) == P.Dot(f, r) + r[x]
  {
    P.DotUpdate(f, r, x, f[x] + 1);
  }

  lemma NothingCounted(lit: seq<nat>, dst: seq<nat>)
    requires |lit| == 288 && |dst| == 32 && (forall i :: 0 <= i < 288 ==> lit[i] == 0) && forall i :: 0 <= i < 32 ==>
        dst[i] == 0
    ensures Counted([], lit, dst)
  {
    hide HuffmanTable.Total, P.Dot;
    forall r {:trigger P.Dot(lit, r)} | |r| == 288 ensures P.Dot(lit, r) == 0 {
      P.DotZero(lit, r);
    }
    forall r {:trigger P.Dot(dst, r)} | |r| == 32 ensures P.Dot(dst, r) == 0 {
      P.DotZero(dst, r);
    }
    assert lit == seq(288, _ => 0) && dst == seq(32, _ => 0);
    TotalZeros(288);
    TotalZeros(32);
  }

  lemma NothingLaid(buf: seq<byte>)
    ensures Layout(buf, [], 8)
  {
  }

  class Recorder {
    const buf: array<byte>
    const litCount: array<nat>
    const distCount: array<nat>
    var codePos: nat
    var flagPos: nat
    var flagsLeft: nat
    var total: nat
    ghost var toks: seq<Tok>

    ghost predicate Valid()
      reads this, buf, litCount, distCount
    {
      && buf.Length == CODE_BUF && litCount != distCount
      && codePos == Pos(toks, |toks|) <= CODE_BUF && flagPos == FlagPos(toks, |toks|) && flagsLeft == 8 - |toks| % 8
      && Layout(buf[..], toks, flagsLeft) && total == Bytes(toks) && Counted(toks, litCount[..], distCount[..])
    }

    constructor ()
      ensures Valid() && toks == [] && fresh(buf) && fresh(litCount) && fresh(distCount)
    {
      buf := new byte[CODE_BUF](_ => 0);
      litCount, distCount := new nat[288](_ => 0), new nat[32](_ => 0);
      new;
      hide Counted, Layout;
      Reset();
    }

    /** tdefl_record_literal. */
    method RecordLiteral(lit: byte)
      requires Valid() && codePos + 2 <= CODE_BUF
      modifies this, buf, litCount
      ensures Valid() && toks == old(toks) + [TLit(lit)] && codePos <= old(codePos) + 2
    {
      hide Layout, Counted, ToBits, Recorded, Pos, FlagPos, Bytes, LenSym;
      ghost var t, was := TLit(lit), buf[..];
      FlagOrder(toks, |toks|, |toks|);
      Shapes(toks, litCount[..], distCount[..]);
      CountedMore(toks, t, litCount[..], distCount[..], litCount[..][lit := litCount[..][lit] + 1], distCount[..]);
      total := total + 1;
      buf[codePos] := lit;
      buf[flagPos] := buf[flagPos] / 2;
      litCount[lit] := litCount[lit] + 1;
      LitRecorded(was, buf[..], toks, lit);
      RecordOk(was, buf[..], toks, t);
      Advance(toks, t);
      codePos, flagsLeft := codePos + 1, flagsLeft - 1;
      if flagsLeft == 0 {
        flagsLeft, flagPos, codePos := 8, codePos, codePos + 1;
      }
      toks := toks + [t];
    }

    /** tdefl_record_match. */
    method RecordMatch(len: nat, dist: nat)
      requires Valid() && codePos + 4 <= CODE_BUF && TokOk(TMatch(len, dist))
      modifies this, buf, litCount, distCount
      ensures Valid() && toks == old(toks) + [TMatch(len, dist)] && codePos <= old(codePos) + 4
    {
      hide Layout, Counted, ToBits, Recorded, Pos, FlagPos, Bytes, LenSym, DistSym;
      ghost var t, was := TMatch(len, dist), buf[..];
      FlagOrder(toks, |toks|, |toks|);
      Shapes(toks, litCount[..], distCount[..]);
      var l, d := 257 + LenSym(len), DistSym(dist);
      CountedMore(toks, t, litCount[..], distCount[..], litCount[..][l := litCount[..][l] + 1],
          distCount[..][d := distCount[..][d] + 1]);
      total := total + len;
      buf[codePos] := len - MIN_MATCH;
      buf[codePos + 1] := (dist - 1) % 256;
      buf[codePos + 2] := (dist - 1) / 256;
      buf[flagPos] := buf[flagPos] / 2 + 128;
      distCount[d] := distCount[d] + 1;
      litCount[l] := litCount[l] + 1;
      MatchRecorded(was, buf[..], toks, len, dist);
      RecordOk(was, buf[..], toks, t);
      Advance(toks, t);
      codePos, flagsLeft := codePos + 3, flagsLeft - 1;
      if flagsLeft == 0 {
        flagsLeft, flagPos, codePos := 8, codePos, codePos + 1;
      }
      toks := toks + [t];
    }

    /** Before a block is printed: shift the last flag byte into place, and leave out a flag byte that no token uses. */
    method Seal() returns (end: nat)
      requires Valid()
      modifies buf
      ensures Layout(buf[..], toks, 0) && end == End(toks) <= CODE_BUF && ToksOk(toks)
    {
      hide Layout, Counted, ToBits, Shr;
      ghost var was := buf[..];
      FlagOrder(toks, |toks|, |toks|);
      FlagShift(buf[flagPos], flagsLeft);
      buf[flagPos] := Shr(buf[flagPos], flagsLeft);
      Settle(was, buf[..], toks, buf[flagPos]);
      LayoutToks(was, toks, flagsLeft);
      end := codePos - (if flagsLeft == 8 then 1 else 0);
    }

    /** After a block: no tokens, no counts. */
    method Reset()
      requires buf.Length == CODE_BUF && litCount.Length == 288 && distCount.Length == 32 && litCount != distCount
      modifies this, litCount, distCount
      ensures Valid() && toks == []
    {
      hide Layout, Counted;
      codePos, flagPos, flagsLeft, total, toks := 1, 0, 8, 0, [];
      ClearCounts(litCount);
      ClearCounts(distCount);
      NothingCounted(litCount[..], distCount[..]);
      NothingLaid(buf[..]);
    }
  }

  method ClearCounts(a: array<nat>)
    modifies a
    ensures forall i :: 0 <= i < a.Length ==> a[i] == 0
  {
    forall i | 0 <= i < a.Length { a[i] := 0; }
  }

  lemma LayoutToks(buf: seq<byte>, s: seq<Tok>, left: nat)
    requires Layout(buf, s, left)
    ensures ToksOk(s)
  {
  }

  lemma Shapes(s: seq<Tok>, lit: seq<nat>, dst: seq<nat>)
    requires Counted(s, lit, dst)
    ensures |lit| == 288 && |dst| == 32
  {
  }

  lemma LitRecorded(was: seq<byte>, buf: seq<byte>, s: seq<Tok>, lit: byte)
    requires FlagPos(s, |s|) < Pos(s, |s|) < |was|
        && buf == was[Pos(s, |s|) := lit][FlagPos(s, |s|) := was[FlagPos(s, |s|)] / 2]
    ensures Recorded(was, buf, s, TLit(lit))
  {
    hide Pos, FlagPos;
  }

  lemma MatchRecorded(was: seq<byte>, buf: seq<byte>, s: seq<Tok>, len: nat, dist: nat)
    requires TokOk(TMatch(len, dist)) && FlagPos(s, |s|) < Pos(s, |s|) && Pos(s, |s|) + 2 < |was|
    requires var p, f := Pos(s, |s|), FlagPos(s, |s|);
             buf == was[p := len - 3][p + 1 := (dist - 1) % 256][p + 2 := (dist - 1) / 256][f := was[f] / 2 + 128]
    ensures Recorded(was, buf, s, TMatch(len, dist))
  {
    hide Pos, FlagPos;
  }

  lemma PosNext(s: seq<Tok>, t: Tok)
    ensures var u := s + [t];
            Bytes(u) == Bytes(s) + (if t.TLit? then 1 else t.len) && Sizes(u[..|u|]) == Sizes(s[..|s|]) + Size(t)
  {
    var u, n := s + [t], |s|;
    assert u[..n] == s && s[..n] == s && u[..n + 1] == u;
  }

  /** Where the next token goes. */
  lemma Advance(s: seq<Tok>, t: Tok)
    ensures var u := s + [t];
            && Bytes(u) == Bytes(s) + (if t.TLit? then 1 else t.len)
            && Pos(u, |u|) == Pos(s, |s|) + Size(t) + (if |u| % 8 == 0 then 1 else 0)
            && FlagPos(u, |u|) == (if |u| % 8 == 0 then Pos(s, |s|) + Size(t) else FlagPos(s, |s|))
            && |u| % 8 == (if |s| % 8 == 7 then 0 else |s| % 8 + 1)
  {
    hide Bytes, Sizes;
    var u, n := s + [t], |s|;
    PosNext(s, t);
    var q, m := n / 8, n % 8;
    assert n == 8 * q + m;
    assert (n + 1) / 8 == if m == 7 then q + 1 else q;
    if m != 7 {
      assert (n + 1) - (n + 1) % 8 == n - n % 8;
      assert u[..n - n % 8] == s[..n - n % 8];
    }
  }
}
