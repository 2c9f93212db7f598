/** Lazy LZ77 parsing: in every state the recorded tokens and the pending literal and match reproduce the source
    (third-party/miniz.c:1814-1889). */
module Parsing {
  import opened Bits
  import opened Format
  import opened Tokens
  import opened TokenBuffer
  import opened Dictionary
  import opened Flushing

  datatype Options = Options(zlib: bool, adler: bool, greedy: bool, rle: bool, filter: bool, forceStatic: bool,
      forceRaw: bool, probes: nat)

  /** m_max_probes, for short and for long matches. */
  function MaxProbes(opt: Options, long: bool): (r: nat)
    ensures r > 0
  {
    if long then 1 + (opt.probes / 4 + 2) / 3 else 1 + (opt.probes + 2) / 3
  }

  // ----- tokens reproduce the source -----

  lemma ItemsSnoc(s: seq<Tok>, t: Tok)
    requires ToksOk(s) && TokOk(t)
    ensures ToksOk(s + [t]) && Items(s + [t]) == Items(s) + [ItemOf(t)] && Items(s + [t])[..|s|] == Items(s)
  {
  }

  lemma ApplySnoc(s: seq<Tok>, t: Tok, out: seq<byte>)
    requires ToksOk(s) && TokOk(t) && ItemsOk(Items(s), out) && Reaches(ItemOf(t), ApplyAll(Items(s), out))
    ensures ToksOk(s + [t]) && ItemsOk(Items(s + [t]), out)
    ensures ApplyAll(Items(s + [t]), out) == Apply(ItemOf(t), ApplyAll(Items(s), out))
  {
    hide ItemOf, Reaches;
    ItemsSnoc(s, t);
  }

  /** A literal reproduces one byte more. */
  lemma LiteralNext(s: seq<Tok>, out: seq<byte>, d: seq<byte>, b: byte)
    requires Reproduces(s, out, d)
    ensures Reproduces(s + [TLit(b)], out, d + [b])
  {
    hide ItemsOk, ApplyAll;
    ApplySnoc(s, TLit(b), out);
    assert out + d + [b] == out + (d + [b]);
  }

  /** Copying a match gives the bytes that repeat. */
  lemma {:induction false} MatchCopies(data: seq<byte>, p: nat, dist: nat, len: nat)
    requires IsMatch(data, p, dist, len)
    ensures CopyBytes(data[..p], dist, len) == data[..p + len]
    decreases len
  {
    hide IsMatch;
    MatchFirst(data, p, dist, len);
    if len > 0 {
      assert data[..p] + [data[p]] == data[..p + 1];
      MatchCopies(data, p + 1, dist, len - 1);
    }
  }

  lemma MatchFirst(data: seq<byte>, p: nat, dist: nat, len: nat)
    requires IsMatch(data, p, dist, len)
    ensures 0 < dist <= p && p + len <= |data|
    ensures len > 0 ==> data[p] == data[p - dist] && IsMatch(data, p + 1, dist, len - 1)
  {
  }

  /** A match reproduces the bytes it repeats. */
  lemma MatchNext(s: seq<Tok>, data: seq<byte>, start: nat, p: nat, dist: nat, len: nat)
    requires start <= p && IsMatch(data, p, dist, len) && TokOk(TMatch(len, dist))
        && Reproduces(s, data[..start], data[start..p])
    ensures Reproduces(s + [TMatch(len, dist)], data[..start], data[start..p + len])
  {
    hide ItemsOk, ApplyAll, LenSym, Tokens.DistSym;
    var t := TMatch(len, dist);
    assert data[..start] + data[start..p] == data[..p];
    assert data[..start] + data[start..p + len] == data[..p + len];
    ItemMeans(t);
    MatchCopies(data, p, dist, len);
    ApplySnoc(s, t, data[..start]);
  }

  // ----- the parser -----

  /** The match put off, which starts at the byte before the lookahead. */
  ghost predicate Deferred(data: seq<byte>, p: nat, size: nat, len: nat, dist: nat, lit: byte) {
    && 3 <= len < 128 && len - 1 <= size && 0 < p <= |data| && lit == data[p - 1]
    && IsMatch(data, p - 1, dist, len) && dist <= DICT_SIZE
  }

  /** How far the tokens have got. */
  function ParsedTo(p: nat, savedLen: nat): nat {
    if savedLen > 0 && p > 0 then p - 1 else p
  }

  /** The tokens reproduce the source from start to p. */
  ghost predicate UpTo(data: seq<byte>, p: nat, start: nat, s: seq<Tok>) {
    start <= p <= |data| && Bytes(s) == p - start && Reproduces(s, data[..start], data[start..p])
  }

  /** The parse so far: the tokens reproduce the block up to the pending literal. */
  ghost predicate Lossless(data: seq<byte>, p: nat, size: nat, start: nat, s: seq<Tok>, len: nat, dist: nat,
      lit: byte) {
    UpTo(data, ParsedTo(p, len), start, s) && (len > 0 ==> Deferred(data, p, size, len, dist, lit))
  }

  /** The same seen from a full flush on: the tokens since then reach no further back. */
  ghost predicate Since(base: nat, data: seq<byte>, p: nat, size: nat, start: nat, s: seq<Tok>, len: nat, dist: nat,
      lit: byte) {
    base <= start && base <= p && base <= |data|
        && Lossless(data[base..], p - base, size, start - base, s, len, dist, lit)
  }

  /** What the search for a match finds: none, or one of at least three bytes within the live window. */
  ghost predicate Found(data: seq<byte>, p: nat, size: nat, window: nat, len: nat, dist: nat) {
    dist > 0 ==> 3 <= len <= size && dist <= window && IsMatch(data, p, dist, len)
  }

  /** More lookahead changes nothing that was parsed. */
  lemma LosslessMore(data: seq<byte>, more: seq<byte>, p: nat, size: nat, start: nat, s: seq<Tok>, len: nat, dist: nat,
      lit: byte)
    requires Lossless(data, p, size, start, s, len, dist, lit) && p <= |data|
    ensures start <= |data| && (data + more)[..start] == data[..start]
    ensures Lossless(data + more, p, size + |more|, start, s, len, dist, lit)
  {
    hide Reproduces;
    var q := ParsedTo(p, len);
    assert (data + more)[..start] == data[..start] && (data + more)[start..q] == data[start..q];
  }

  lemma SinceMore(base: nat, data: seq<byte>, more: seq<byte>, p: nat, size: nat, start: nat, s: seq<Tok>, len: nat,
      dist: nat, lit: byte)
    requires Since(base, data, p, size, start, s, len, dist, lit) && p <= |data|
    ensures Since(base, data + more, p, size + |more|, start, s, len, dist, lit)
  {
    hide Lossless;
    LosslessMore(data[base..], more, p - base, size, start - base, s, len, dist, lit);
    assert data[base..] + more == (data + more)[base..];
  }

  class Parser {
    const ring: Ring
    const rec: Recorder
    const opt: Options
    var savedLen: nat
    var savedDist: nat
    var savedLit: byte
    var blockStart: nat

    /** Where the last full flush was. */
    ghost var base: nat

    ghost predicate Apart()
      reads this, ring, rec
    {
      && rec.litCount != ring.next && rec.litCount != ring.hash && rec.distCount != ring.next
         && rec.distCount != ring.hash
      && rec.buf != ring.dict
    }

    ghost predicate Valid()
      reads this, ring, rec, ring.dict, rec.buf, rec.litCount, rec.distCount
    {
      && Apart() && ring.Valid() && rec.Valid()
      && Lossless(ring.data, ring.lookaheadPos, ring.lookaheadSize, blockStart, rec.toks, savedLen, savedDist, savedLit)
      && Since(base, ring.data, ring.lookaheadPos, ring.lookaheadSize, blockStart, rec.toks, savedLen, savedDist,
         savedLit)
      && base + ring.dictSize <= ring.lookaheadPos
    }

    constructor (opt: Options)
      ensures Valid() && this.opt == opt && ring.data == [] && rec.toks == [] && blockStart == 0 && savedLen == 0
          && base == 0
      ensures ring.lookaheadSize == 0 && rec.codePos == 1
      ensures fresh(ring) && fresh(ring.dict) && fresh(ring.next) && fresh(ring.hash)
      ensures fresh(rec) && fresh(rec.buf) && fresh(rec.litCount) && fresh(rec.distCount)
    {
      this.opt := opt;
      ring := new Ring();
      rec := new Recorder();
      savedLen, savedDist, savedLit, blockStart, base := 0, 0, 0, 0, 0;
    }

    /** More of the source enters the lookahead. */
    method Feed(src: seq<byte>, from: nat) returns (used: nat)
      requires Valid() && from <= |src|
      modifies ring, ring.dict, ring.next, ring.hash
      ensures Valid() && used == Min(|src| - from, 258 - old(ring.lookaheadSize))
          && ring.data == old(ring.data) + src[from..from + used]
      ensures ring.lookaheadSize == old(ring.lookaheadSize) + used
    {
      hide RingOk, Layout, Counted, Lossless, Since;
      ghost var was, size := ring.data, ring.lookaheadSize;
      used := ring.Fill(src, from);
      LosslessMore(was, src[from..from + used], ring.lookaheadPos, size, blockStart, rec.toks, savedLen, savedDist,
          savedLit);
      SinceMore(base, was, src[from..from + used], ring.lookaheadPos, size, blockStart, rec.toks, savedLen, savedDist,
          savedLit);
    }

    /** The match to consider at the front of the lookahead. */
    method Choose() returns (len: nat, dist: nat)
      requires ring.Valid() && ring.lookaheadSize > 0 && (savedLen == 0 || 3 <= savedLen < 128)
      ensures Found(ring.data, ring.lookaheadPos, ring.lookaheadSize, ring.dictSize, len, dist)
      ensures dist == 0 ==> len == 0 || len == 2 || len == savedLen
    {
      hide RingOk, IsMatch;
      dist, len := 0, if savedLen > 0 then savedLen else 2;
      var p := ring.lookaheadPos;
      if opt.rle || opt.forceRaw {
        if ring.dictSize > 0 && !opt.forceRaw {
          len := ring.RunLength();
          if len < 3 {
            len := 0;
          } else {
            dist := 1;
          }
        }
      } else {
        ghost var visited;
        dist, len, visited := FindMatch(ring.dict, ring.next, p, ring.dictSize, ring.lookaheadSize, len,
            MaxProbes(opt, len >= 32), ring.data);
      }
      if (len == 3 && dist >= 8192) || p % DICT_SIZE == dist || (opt.filter && len <= 5) {
        dist, len := 0, 0;
      }
    }

    /** Record the literal put off in front of a better match. */
    method RecordSaved()
      requires Valid() && savedLen > 0 && rec.codePos + 2 <= CODE_BUF
      modifies this, rec, rec.buf, rec.litCount
      ensures Valid() && savedLen == 0 && rec.codePos <= old(rec.codePos) + 2 && blockStart == old(blockStart)
          && base == old(base)
    {
      hide RingOk, IsMatch, Layout, Counted, UpTo, Since;
      ghost var d, p, s := ring.data, ring.lookaheadPos, rec.toks;
      SavedRecorded(d, p, ring.lookaheadSize, blockStart, s, savedLen, savedDist, savedLit);
      SavedSince(base, d, p, ring.lookaheadSize, blockStart, s, savedLen, savedDist, savedLit);
      rec.RecordLiteral(savedLit);
      savedLen := 0;
    }

    /** Record a literal or a match at the front, or put it off; tells how far to move. */
    method RecordFront(len: nat, dist: nat, eager: bool) returns (move: nat)
      requires Valid() && savedLen == 0 && ring.lookaheadSize > 0 && rec.codePos + 4 <= CODE_BUF
      requires Found(ring.data, ring.lookaheadPos, ring.lookaheadSize, ring.dictSize, len, dist)
      modifies this, rec, rec.buf, rec.litCount, rec.distCount
      ensures 0 < move <= ring.lookaheadSize && rec.codePos <= old(rec.codePos) + 4 && Apart() && rec.Valid()
      ensures blockStart == old(blockStart) && base == old(base)
      ensures Lossless(ring.data, ring.lookaheadPos + move, ring.lookaheadSize - move, blockStart, rec.toks, savedLen,
          savedDist, savedLit)
      ensures Since(base, ring.data, ring.lookaheadPos + move, ring.lookaheadSize - move, blockStart, rec.toks,
          savedLen, savedDist, savedLit)
    {
      hide RingOk, IsMatch, Layout, Counted, UpTo, Since;
      ghost var d, p, s := ring.data, ring.lookaheadPos, rec.toks;
      FrontRecorded(d, p, ring.lookaheadSize, ring.dictSize, blockStart, s, len, dist);
      FrontSince(base, d, p, ring.lookaheadSize, ring.dictSize, blockStart, s, len, dist, savedDist, savedLit);
      if dist == 0 {
        var c := ring.Front();
        rec.RecordLiteral(c);
        move := 1;
      } else if eager || len >= 128 {
        rec.RecordMatch(len, dist);
        move := len;
      } else {
        savedLit := ring.Front();
        savedDist, savedLen := dist, len;
        move := 1;
      }
    }

    /** Record the match put off; tells how far to move. */
    method RecordDeferred() returns (move: nat)
      requires Valid() && savedLen > 0 && rec.codePos + 4 <= CODE_BUF
      modifies this, rec, rec.buf, rec.litCount, rec.distCount
      ensures 0 < move <= ring.lookaheadSize && rec.codePos <= old(rec.codePos) + 4 && Apart() && rec.Valid()
      ensures blockStart == old(blockStart) && base == old(base)
      ensures Lossless(ring.data, ring.lookaheadPos + move, ring.lookaheadSize - move, blockStart, rec.toks, savedLen,
          savedDist, savedLit)
      ensures Since(base, ring.data, ring.lookaheadPos + move, ring.lookaheadSize - move, blockStart, rec.toks,
          savedLen, savedDist, savedLit)
    {
      hide RingOk, IsMatch, Layout, Counted, UpTo, Since;
      SavedMatch(ring.data, ring.lookaheadPos, ring.lookaheadSize, blockStart, rec.toks, savedLen, savedDist, savedLit);
      SavedMatchSince(base, ring.data, ring.lookaheadPos, ring.lookaheadSize, blockStart, rec.toks, savedLen,
          savedDist, savedLit);
      rec.RecordMatch(savedLen, savedDist);
      move := savedLen - 1;
      savedLen := 0;
    }

    /** One step of the lazy parse: a better match turns the one put off into a literal, otherwise the one put off
        is recorded. */
    method Step()
      requires Valid() && ring.lookaheadSize > 0 && rec.codePos + 8 <= CODE_BUF
      modifies this, ring, rec, rec.buf, rec.litCount, rec.distCount
      ensures Valid() && ring.data == old(ring.data) && ring.lookaheadSize < old(ring.lookaheadSize)
      ensures rec.codePos <= old(rec.codePos) + 8 && blockStart == old(blockStart) && base == old(base)
    {
      hide RingOk, IsMatch, Layout, Counted, Lossless, Since, Found;
      SavedRange(ring.data, ring.lookaheadPos, ring.lookaheadSize, blockStart, rec.toks, savedLen, savedDist, savedLit);
      var len, dist := Choose();
      var move;
      if savedLen > 0 && len <= savedLen {
        move := RecordDeferred();
      } else {
        var eager := savedLen == 0 && (opt.greedy || opt.rle);
        if savedLen > 0 {
          RecordSaved();
        }
        move := RecordFront(len, dist, eager);
      }
      ring.Advance(move);
    }

    /** A full flush, when everything is parsed and printed: no match will reach back behind it. */
    method Forget()
      requires Valid() && ring.lookaheadSize == 0 && savedLen == 0 && rec.toks == [] && blockStart == ring.lookaheadPos
      modifies this`base, ring, ring.next, ring.hash
      ensures Valid() && base == |ring.data| && ring.data == old(ring.data) && ring.lookaheadSize == 0
    {
      hide RingOk, Layout, Counted, Lossless, Since, Recorder.Valid;
      SinceHere(ring.data, savedDist, savedLit);
      ring.Forget();
      base := ring.lookaheadPos;
    }
  }

  lemma SavedRange(data: seq<byte>, p: nat, size: nat, start: nat, s: seq<Tok>, len: nat, dist: nat, lit: byte)
    requires Lossless(data, p, size, start, s, len, dist, lit)
    ensures len == 0 || 3 <= len < 128
  {
    hide IsMatch, UpTo;
  }

  /** The literal put off becomes a token. */
  lemma SavedRecorded(data: seq<byte>, p: nat, size: nat, start: nat, s: seq<Tok>, len: nat, dist: nat, lit: byte)
    requires Lossless(data, p, size, start, s, len, dist, lit) && len > 0
    ensures Lossless(data, p, size, start, s + [TLit(lit)], 0, dist, lit)
  {
    hide IsMatch, Reproduces;
    LiteralNext(s, data[..start], data[start..p - 1], lit);
    assert data[start..p - 1] + [lit] == data[start..p];
  }

  /** The match put off becomes a token. */
  lemma SavedMatch(data: seq<byte>, p: nat, size: nat, start: nat, s: seq<Tok>, len: nat, dist: nat, lit: byte)
    requires Lossless(data, p, size, start, s, len, dist, lit) && len > 0
    ensures TokOk(TMatch(len, dist))
        && Lossless(data, p + (len - 1), size - (len - 1), start, s + [TMatch(len, dist)], 0, dist, lit)
  {
    hide IsMatch, Reproduces;
    MatchInside(data, p - 1, dist, len);
    MatchNext(s, data, start, p - 1, dist, len);
  }

  lemma MatchInside(data: seq<byte>, p: nat, dist: nat, len: nat)
    requires IsMatch(data, p, dist, len)
    ensures p + len <= |data| && 0 < dist <= p
  {
  }

  /** A literal or a match at the front becomes a token, or is put off. */
  lemma FrontRecorded(data: seq<byte>, p: nat, size: nat, window: nat, start: nat, s: seq<Tok>, len: nat, dist: nat)
    requires p + size == |data| && size > 0 && size <= 258 && window <= DICT_SIZE
        && Found(data, p, size, window, len, dist) && UpTo(data, p, start, s)
    ensures dist == 0 ==> UpTo(data, p + 1, start, s + [TLit(data[p])])
    ensures dist > 0 ==> TokOk(TMatch(len, dist)) && UpTo(data, p + len, start, s + [TMatch(len, dist)])
    ensures 0 < dist && len < 128 ==> Lossless(data, p + 1, size - 1, start, s, len, dist, data[p])
  {
    hide IsMatch, Reproduces;
    if dist == 0 {
      LiteralNext(s, data[..start], data[start..p], data[p]);
      assert data[start..p] + [data[p]] == data[start..p + 1];
    } else {
      MatchInside(data, p, dist, len);
      MatchNext(s, data, start, p, dist, len);
    }
  }

  // ----- since a full flush -----

  lemma SavedSince(base: nat, data: seq<byte>, p: nat, size: nat, start: nat, s: seq<Tok>, len: nat, dist: nat,
      lit: byte)
    requires Since(base, data, p, size, start, s, len, dist, lit) && len > 0
    ensures Since(base, data, p, size, start, s + [TLit(lit)], 0, dist, lit)
  {
    hide Lossless;
    SavedRecorded(data[base..], p - base, size, start - base, s, len, dist, lit);
  }

  lemma SavedMatchSince(base: nat, data: seq<byte>, p: nat, size: nat, start: nat, s: seq<Tok>, len: nat, dist: nat,
      lit: byte)
    requires Since(base, data, p, size, start, s, len, dist, lit) && len > 0
    ensures Since(base, data, p + (len - 1), size - (len - 1), start, s + [TMatch(len, dist)], 0, dist, lit)
  {
    hide Lossless;
    SavedMatch(data[base..], p - base, size, start - base, s, len, dist, lit);
  }

  lemma FoundSince(base: nat, data: seq<byte>, p: nat, size: nat, window: nat, len: nat, dist: nat)
    requires base + window <= p <= |data| && Found(data, p, size, window, len, dist)
    ensures Found(data[base..], p - base, size, window, len, dist)
  {
  }

  lemma FrontSince(base: nat, data: seq<byte>, p: nat, size: nat, window: nat, start: nat, s: seq<Tok>, len: nat,
      dist: nat, dist0: nat, lit0: byte)
    requires p + size == |data| && 0 < size <= 258 && window <= DICT_SIZE && base + window <= p
        && Found(data, p, size, window, len, dist)
    requires Since(base, data, p, size, start, s, 0, dist0, lit0)
    ensures dist == 0 ==> Since(base, data, p + 1, size - 1, start, s + [TLit(data[p])], 0, dist0, lit0)
    ensures dist > 0 ==> Since(base, data, p + len, size - len, start, s + [TMatch(len, dist)], 0, dist0, lit0)
    ensures 0 < dist && len < 128 ==> Since(base, data, p + 1, size - 1, start, s, len, dist, data[p])
  {
    hide IsMatch, UpTo;
    FoundSince(base, data, p, size, window, len, dist);
    FrontRecorded(data[base..], p - base, size, window, start - base, s, len, dist);
  }

  lemma SinceHere(data: seq<byte>, dist: nat, lit: byte)
    ensures Since(|data|, data, |data|, 0, |data|, [], 0, dist, lit)
  {
    var none: seq<Tok>, out: seq<byte> := [], [];
    assert data[|data|..] == out && out[0..0] == out && out[..0] == out && Items(none) == [] && out + out == out;
  }
}
