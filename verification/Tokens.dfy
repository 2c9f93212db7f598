/** The compressor's record of literals and matches: the code buffer with its interleaved flag bytes, and the length and
    distance symbols of section 3.2.5 of RFC 1951. */
module Tokens {
  import opened Bits
  import opened Format

  const MIN_MATCH: nat := 3
  const MAX_MATCH: nat := 258

  datatype Tok = TLit(b: byte) | TMatch(len: nat, dist: nat)

  ghost predicate TokOk(t: Tok) {
    t.TMatch? ==> MIN_MATCH <= t.len <= MAX_MATCH && 1 <= t.dist <= DICT_SIZE
  }

  // ----- symbols -----

  /** The last length symbol whose base is at most len, from the i-th down; 258 has a symbol of its own. */
  function LenIndex(len: nat, i: nat): (r: nat)
    requires i < 29 && 3 <= len
    ensures r <= i && LENGTH_BASE[r] <= len && (r < i ==> len < LENGTH_BASE[r + 1])
  {
    if i == 0 || LENGTH_BASE[i] <= len then i else LenIndex(len, i - 1)
  }

  /** s_tdefl_len_sym, less 257. */
  function LenSym(len: nat): (r: nat)
    requires 3 <= len
    ensures r < 29
  {
    LenIndex(len, 28)
  }

  function DistIndex(dist: nat, i: nat): (r: nat)
    requires i < 30 && 1 <= dist
    ensures r <= i && DIST_BASE[r] <= dist && (r < i ==> dist < DIST_BASE[r + 1])
  {
    if i == 0 || DIST_BASE[i] <= dist then i else DistIndex(dist, i - 1)
  }

  /** s_tdefl_small_dist_sym and s_tdefl_large_dist_sym. */
  function DistSym(dist: nat): (r: nat)
    requires 1 <= dist
    ensures r < 30
  {
    DistIndex(dist, 29)
  }

  lemma MaskSub(m: nat, base: nat, p: nat)
    requires p > 0 && base <= m < base + p && base % p == 0
    ensures m % p == m - base
  {
    DivUnique(m, p, base / p, m - base);
  }

  /** The length symbol with its masked extra bits stands for the length. */
  lemma LenCoded(len: nat)
    requires MIN_MATCH <= len <= MAX_MATCH
    ensures var l := LenSym(len); var e := (len - 3) % Pow2(LENGTH_EXTRA[l]);
            e < Pow2(LENGTH_EXTRA[l]) && LENGTH_BASE[l] + e == len
  {
    SmallPowers();
    hide Pow2;
    var l := LenSym(len);
    LengthTable(l);
    if l < 28 {
      MaskSub(len - 3, LENGTH_BASE[l] - 3, Pow2(LENGTH_EXTRA[l]));
    }
  }

  /** The distance symbol with its masked extra bits stands for the distance. */
  lemma DistCoded(dist: nat)
    requires 1 <= dist <= DICT_SIZE
    ensures var d := DistSym(dist); var e := (dist - 1) % Pow2(DIST_EXTRA[d]);
            e < Pow2(DIST_EXTRA[d]) && DIST_BASE[d] + e == dist
  {
    SmallPowers();
    hide Pow2;
    var d := DistSym(dist);
    DistTable(d);
    MaskSub(dist - 1, DIST_BASE[d] - 1, Pow2(DIST_EXTRA[d]));
  }

  /** The item that a token stands for. */
  function ItemOf(t: Tok): Item
    requires t.TMatch? ==> MIN_MATCH <= t.len && 1 <= t.dist
  {
    match t
    case TLit(b) => Lit(b)
    case TMatch(len, dist) =>
      Copy(LenSym(len), (len - 3) % Pow2(LENGTH_EXTRA[LenSym(len)]), DistSym(dist),
          (dist - 1) % Pow2(DIST_EXTRA[DistSym(dist)]))
  }

  /** Emitting and decoding a length and a distance returns them. */
  lemma ItemMeans(t: Tok)
    requires TokOk(t)
    ensures ValidItem(ItemOf(t)) && (t.TMatch? ==> CopyLen(ItemOf(t)) == t.len && CopyDist(ItemOf(t)) == t.dist)
  {
    hide LenSym, DistSym, Pow2;
    if t.TMatch? {
      LenCoded(t.len);
      DistCoded(t.dist);
    }
  }

  ghost predicate ToksOk(s: seq<Tok>) {
    forall i :: 0 <= i < |s| ==> TokOk(s[i])
  }

  ghost function Items(s: seq<Tok>): (r: seq<Item>)
    requires ToksOk(s)
    ensures |r| == |s|
  {
    seq(|s|, i requires 0 <= i < |s| => ItemOf(s[i]))
  }

  // ----- the code buffer -----

  function Size(t: Tok): nat {
    if t.TLit? then 1 else 3
  }

  /** The payload bytes of the tokens. */
  function Sizes(s: seq<Tok>): (r: nat)
    ensures |s| <= r <= 3 * |s|
  {
    if s == [] then 0 else Sizes(s[..|s| - 1]) + Size(s[|s| - 1])
  }

  /** Where token k's payload starts: a flag byte stands before every eight tokens. */
  function Pos(s: seq<Tok>, k: nat): nat
    requires k <= |s|
  {
    1 + Sizes(s[..k]) + k / 8
  }

  /** The position of the flag byte for token k. */
  function FlagPos(s: seq<Tok>, k: nat): nat
    requires k <= |s|
  {
    Pos(s, k - k % 8) - 1
  }

  predicate Payload(buf: seq<byte>, p: nat, t: Tok)
    requires TokOk(t)
  {
    match t
    case TLit(b) => p < |buf| && buf[p] == b
    case TMatch(len, dist) =>
      p + 2 < |buf| && buf[p] == len - 3 && buf[p + 1] == (dist - 1) % 256 && buf[p + 2] == (dist - 1) / 256
  }

  /** Token k's flag; in the last group, flags still sit `left` bits too high. */
  ghost predicate Flagged(buf: seq<byte>, s: seq<Tok>, k: nat, left: nat)
    requires k < |s|
  {
    var j := k % 8 + (if k / 8 == |s| / 8 then left else 0);
    FlagPos(s, k) < |buf| && j < 8 && ToBits(buf[FlagPos(s, k)], 8)[j] == s[k].TMatch?
  }

  /** The buffer holds the tokens. */
  ghost predicate Layout(buf: seq<byte>, s: seq<Tok>, left: nat) {
    && ToksOk(s)
    && (forall k :: 0 <= k < |s| ==> Payload(buf, Pos(s, k), s[k]))
    && (forall k :: 0 <= k < |s| ==> Flagged(buf, s, k, left))
  }

  /** Where the last complete or begun group of tokens ends: without the flag byte of a group that was not begun. */
  function End(s: seq<Tok>): nat {
    Pos(s, |s|) - (if |s| % 8 == 0 then 1 else 0)
  }

  lemma SizesPrefix(s: seq<Tok>, k: nat)
    requires k < |s|
    ensures Sizes(s[..k + 1]) == Sizes(s[..k]) + Size(s[k])
  {
    assert s[..k + 1][..k] == s[..k];
  }

  /** Payloads and flag bytes come in order and do not overlap. */
  lemma {:induction false} PosOrder(s: seq<Tok>, k: nat, m: nat)
    requires k < m <= |s|
    ensures Pos(s, k) + Size(s[k]) + (m / 8 - k / 8) <= Pos(s, m)
    decreases m - k
  {
    SizesPrefix(s, m - 1);
    if k < m - 1 {
      PosOrder(s, k, m - 1);
    }
  }

  lemma FlagOrder(s: seq<Tok>, k: nat, m: nat)
    requires k <= m <= |s|
    ensures FlagPos(s, k) < Pos(s, k) && (k / 8 == m / 8 ==> FlagPos(s, k) == FlagPos(s, m))
    ensures k / 8 < m / 8 ==> FlagPos(s, k) < FlagPos(s, m) && (k < |s| ==> Pos(s, k) + Size(s[k]) <= FlagPos(s, m))
    ensures k / 8 == m / 8 && k < |s| ==> FlagPos(s, m) < Pos(s, k)
  {
    hide Sizes, Size;
    var a, b := k - k % 8, m - m % 8;
    if a < k {
      PosOrder(s, a, k);
    }
    if a < b {
      PosOrder(s, a, b);
    }
    if k < b {
      PosOrder(s, k, b);
    }
    assert a / 8 == k / 8 && b / 8 == m / 8;
  }

  lemma SamePos(s: seq<Tok>, t: Tok, k: nat)
    requires k <= |s|
    ensures Pos(s + [t], k) == Pos(s, k) && FlagPos(s + [t], k) == FlagPos(s, k)
  {
    assert (s + [t])[..k] == s[..k];
    assert (s + [t])[..k - k % 8] == s[..k - k % 8];
  }

  /** A flag shifted in at the top of a byte. */
  lemma FlagIn(v: byte, f: bool)
    ensures var w := v / 2 + (if f then 128 else 0); w < 256 && ToBits(w, 8) == ToBits(v, 8)[1..] + [f]
  {
    assert Pow2(7) == 128;
    ToBitsConcat(v / 2, 7, if f then 1 else 0, 1);
    assert ToBits(if f then 1 else 0, 1) == [f];
  }

  lemma FlagShift(v: byte, left: nat)
    requires left <= 8
    ensures Shr(v, left) < 256 && ToBits(v, 8)[left..] == ToBits(Shr(v, left), 8 - left)
  {
    ToBitsShift(v, left, 8 - left);
    ShrLess(v, left);
  }

  lemma {:induction false} ShrLess(v: nat, n: nat)
    ensures Shr(v, n) <= v
  {
    if n > 0 {
      ShrLess(v / 2, n - 1);
    }
  }

  /** The bytes written for one more token. */
  ghost predicate Recorded(old_: seq<byte>, buf: seq<byte>, s: seq<Tok>, t: Tok)
    requires TokOk(t)
  {
    var f, p := FlagPos(s, |s|), Pos(s, |s|);
    && |buf| == |old_| && f < |buf| && p + Size(t) <= |buf|
    && (forall i :: 0 <= i < p && i != f ==> buf[i] == old_[i])
    && buf[f] == old_[f] / 2 + (if t.TMatch? then 128 else 0) && Payload(buf, p, t)
  }

  /** Recording a token keeps the layout. */
  lemma RecordOk(old_: seq<byte>, buf: seq<byte>, s: seq<Tok>, t: Tok)
    requires Layout(old_, s, 8 - |s| % 8) && TokOk(t) && Recorded(old_, buf, s, t)
    ensures Layout(buf, s + [t], 8 - |s + [t]| % 8)
  {
    hide ToBits, Pos, FlagPos;
    var u, n := s + [t], |s|;
    assert ToksOk(u);
    forall k | 0 <= k < |u| ensures Payload(buf, Pos(u, k), u[k]) {
      SamePos(s, t, k);
      if k < n {
        FlagOrder(s, k, n);
        PosOrder(s, k, n);
        KeptPayload(old_, buf, s, t, k);
      }
    }
    var left := 8 - |u| % 8;
    forall k | 0 <= k < |u| ensures Flagged(buf, u, k, left) {
      if k < n {
        KeptFlag(old_, buf, s, t, k);
      } else {
        NewFlag(old_, buf, s, t);
      }
    }
  }

  lemma KeptPayload(old_: seq<byte>, buf: seq<byte>, s: seq<Tok>, t: Tok, k: nat)
    requires k < |s| && TokOk(s[k]) && Payload(old_, Pos(s, k), s[k]) && TokOk(t) && Recorded(old_, buf, s, t)
    requires Pos(s, k) + Size(s[k]) <= Pos(s, |s|)
        && (FlagPos(s, |s|) < Pos(s, k) || Pos(s, k) + Size(s[k]) <= FlagPos(s, |s|))
    ensures Payload(buf, Pos(s, k), s[k])
  {
    hide Pos, FlagPos;
  }

  lemma KeptFlag(old_: seq<byte>, buf: seq<byte>, s: seq<Tok>, t: Tok, k: nat)
    requires k < |s| && Flagged(old_, s, k, 8 - |s| % 8) && TokOk(t) && Recorded(old_, buf, s, t)
    ensures Flagged(buf, s + [t], k, 8 - |s + [t]| % 8)
  {
    hide ToBits, Pos, FlagPos, Payload;
    var n := |s|;
    SamePos(s, t, k);
    FlagOrder(s, k, n);
    FlagIn(old_[FlagPos(s, n)], t.TMatch?);
    if k / 8 == n / 8 {
      assert k % 8 + (8 - n % 8) >= 1;
    } else {
      assert FlagPos(s, k) < FlagPos(s, n);
      FlagOrder(s, n, n);
    }
  }

  lemma NewFlag(old_: seq<byte>, buf: seq<byte>, s: seq<Tok>, t: Tok)
    requires TokOk(t) && Recorded(old_, buf, s, t)
    ensures Flagged(buf, s + [t], |s|, 8 - |s + [t]| % 8)
  {
    hide ToBits, Pos, FlagPos, Payload;
    var n := |s|;
    SamePos(s, t, n);
    FlagIn(old_[FlagPos(s, n)], t.TMatch?);
    if (n + 1) % 8 != 0 {
      assert (n + 1) / 8 == n / 8 && (n + 1) % 8 == n % 8 + 1;
    } else {
      assert (n + 1) / 8 == n / 8 + 1 && n % 8 == 7;
    }
  }

  /** Shifting the last flag byte into place. */
  lemma Settle(old_: seq<byte>, buf: seq<byte>, s: seq<Tok>, v: byte)
    requires Layout(old_, s, 8 - |s| % 8) && FlagPos(s, |s|) < |old_|
    requires v == Shr(old_[FlagPos(s, |s|)], 8 - |s| % 8) && buf == old_[FlagPos(s, |s|) := v]
    ensures Layout(buf, s, 0)
  {
    hide ToBits, Pos, FlagPos, Shr;
    var n := |s|;
    FlagShift(old_[FlagPos(s, n)], 8 - n % 8);
    forall k | 0 <= k < n ensures Payload(buf, Pos(s, k), s[k]) {
      FlagOrder(s, k, n);
    }
    forall k | 0 <= k < n ensures Flagged(buf, s, k, 0) {
      FlagOrder(s, k, n);
      assert Flagged(old_, s, k, 8 - n % 8);
      if k / 8 == n / 8 {
        SettledFlag(old_, buf, s, k);
      } else {
        OtherFlag(old_, buf, s, k);
      }
    }
  }

  lemma OtherFlag(old_: seq<byte>, buf: seq<byte>, s: seq<Tok>, k: nat)
    requires k < |s| && k / 8 != |s| / 8 && Flagged(old_, s, k, 8 - |s| % 8) && |buf| == |old_|
    requires buf[FlagPos(s, k)] == old_[FlagPos(s, k)]
    ensures Flagged(buf, s, k, 0)
  {
    hide ToBits, Pos, FlagPos;
  }

  lemma SettledFlag(old_: seq<byte>, buf: seq<byte>, s: seq<Tok>, k: nat)
    requires k < |s| && k / 8 == |s| / 8 && Flagged(old_, s, k, 8 - |s| % 8) && FlagPos(s, k) == FlagPos(s, |s|) < |buf|
    requires Shr(old_[FlagPos(s, |s|)], 8 - |s| % 8) == buf[FlagPos(s, |s|)]
    requires ToBits(old_[FlagPos(s, |s|)], 8)[8 - |s| % 8..] == ToBits(buf[FlagPos(s, |s|)], |s| % 8)
    ensures Flagged(buf, s, k, 0)
  {
    hide ToBits, Pos, FlagPos, Shr;
    var v := buf[FlagPos(s, |s|)];
    ToBitsShift(v, |s| % 8, 8 - |s| % 8);
    assert ToBits(v, 8)[k % 8] == ToBits(v, |s| % 8)[k % 8];
  }
}
