/** The compressor's dictionary: a ring of 32768 bytes whose first 257 are mirrored behind its end, hash chains
    that only suggest positions, and the search for matches (third-party/miniz.c:1481-1523, 1759-1812). */
module Dictionary {
  import opened Bits
  import opened Format

  const MAX_MATCH: nat := 258
  const MIRROR: nat := 257

  /** The bytes at stream positions lo and up are in the ring, and in its mirror where that reaches. */
  ghost predicate RingOk(dict: seq<byte>, data: seq<byte>, lo: int) {
    && |dict| == DICT_SIZE + MIRROR
    && forall p :: lo <= p < |data| && 0 <= p ==>
         dict[p % DICT_SIZE] == data[p] && (p % DICT_SIZE < MIRROR ==> dict[DICT_SIZE + p % DICT_SIZE] == data[p])
  }

  /** Reading ahead from a position never needs to wrap. */
  lemma RingAt(dict: seq<byte>, data: seq<byte>, lo: int, p: nat, i: nat)
    requires RingOk(dict, data, lo) && lo <= p && p + i < |data| && i <= MIRROR
    ensures p % DICT_SIZE + i < |dict| && dict[p % DICT_SIZE + i] == data[p + i]
  {
    var q, m := p / DICT_SIZE, p % DICT_SIZE;
    assert p == DICT_SIZE * q + m;
    if m + i < DICT_SIZE {
      assert p + i == DICT_SIZE * q + (m + i);
      assert (p + i) % DICT_SIZE == m + i;
    } else {
      assert p + i == DICT_SIZE * (q + 1) + (m + i - DICT_SIZE);
      assert (p + i) % DICT_SIZE == m + i - DICT_SIZE;
    }
  }

  lemma RingDiffer(p: nat, n: nat)
    requires p < n < p + DICT_SIZE
    ensures p % DICT_SIZE != n % DICT_SIZE
  {
    var a, b := p / DICT_SIZE, n / DICT_SIZE;
    if a == b {
      assert p % DICT_SIZE < n % DICT_SIZE;
    }
  }

  /** One more byte overwrites the oldest. */
  lemma RingPut(dict: seq<byte>, now: seq<byte>, data: seq<byte>, c: byte, lo: int)
    requires RingOk(dict, data, lo) && |now| == |dict|
    requires now == (var m := |data| % DICT_SIZE; if m < MIRROR then dict[m := c][DICT_SIZE + m := c] else dict[m := c])
    ensures RingOk(now, data + [c], Max(lo, |data| + 1 - DICT_SIZE))
  {
    var n := |data|;
    forall p | Max(lo, n + 1 - DICT_SIZE) <= p < n + 1 && 0 <= p
      ensures now[p % DICT_SIZE] == (data + [c])[p]
          && (p % DICT_SIZE < MIRROR ==> now[DICT_SIZE + p % DICT_SIZE] == (data + [c])[p])
    {
      if p < n {
        RingDiffer(p, n);
      }
    }
  }

  lemma RingLess(dict: seq<byte>, data: seq<byte>, lo: int, hi: int)
    requires RingOk(dict, data, lo) && lo <= hi
    ensures RingOk(dict, data, hi)
  {
  }

  /** Mixing a byte into the hash. */
  function Mix(h: nat, c: byte): (r: nat)
    requires h < 0x1_0000
    ensures r < DICT_SIZE
  {
    ((((h as bv32) << 5) ^ (c as bv32)) as nat) % DICT_SIZE
  }

  /** What a match promises: the bytes at the position repeat those dist before it. */
  ghost predicate IsMatch(data: seq<byte>, p: nat, dist: nat, len: nat) {
    && 0 < dist <= p && p + len <= |data| && forall i {:trigger data[i]} :: p <= i < p + len ==>
       data[i] == data[i - dist]
  }

  /** One probe of the hash chain: the chain ends, or a candidate whose last two bytes do or do not agree. */
  datatype Probe = Stop | Miss(pos: nat, dist: nat) | Hit(pos: nat, dist: nat)

  lemma ProbePos(p: nat, cand: nat, dist: nat)
    requires dist == (p - cand) % 65536 && dist <= p
    ensures cand % DICT_SIZE == (p - dist) % DICT_SIZE
  {
    var q := (p - cand) / 65536;
    assert p - cand == q * 65536 + dist;
    assert p - dist == cand + DICT_SIZE * (2 * q);
    ModPlus(cand, 2 * q);
  }

  lemma ModPlus(a: nat, k: int)
    requires a + DICT_SIZE * k >= 0
    ensures (a + DICT_SIZE * k) % DICT_SIZE == a % DICT_SIZE
  {
    var b := a + DICT_SIZE * k;
    assert b == DICT_SIZE * (a / DICT_SIZE + k) + a % DICT_SIZE;
  }

  /** Where the chain continues behind the candidates visited. */
  function ChainAt(p: nat, visited: seq<nat>): (r: nat)
    requires forall i :: 0 <= i < |visited| ==> visited[i] <= p
    ensures r < DICT_SIZE
  {
    if visited == [] then p % DICT_SIZE else (p - visited[|visited| - 1]) % DICT_SIZE
  }

  /** These are the distances of the first candidates of the chain. */
  ghost predicate Walked(next: seq<nat>, p: nat, maxDist: nat, visited: seq<nat>) {
    && |next| == DICT_SIZE && maxDist <= p && (forall i :: 0 <= i < |visited| ==> visited[i] <= maxDist)
    && forall i :: 0 <= i < |visited| ==> Follows(next, p, visited[..i], visited[i])
  }

  /** The next candidate of the chain is this far back. */
  ghost predicate Follows(next: seq<nat>, p: nat, visited: seq<nat>, dist: nat) {
    && |next| == DICT_SIZE && (forall i :: 0 <= i < |visited| ==> visited[i] <= p)
    && next[ChainAt(p, visited)] != 0 && dist == (p - next[ChainAt(p, visited)]) % 65536
  }

  /** The chain ends here: there is no next candidate, or it is out of the window, or the last one was the
      position itself. */
  ghost predicate ChainEnds(next: seq<nat>, p: nat, maxDist: nat, visited: seq<nat>) {
    || (visited != [] && visited[|visited| - 1] == 0)
    || (&& |next| == DICT_SIZE && (forall i :: 0 <= i < |visited| ==> visited[i] <= p)
        && (next[ChainAt(p, visited)] == 0 || (p - next[ChainAt(p, visited)]) % 65536 > maxDist))
  }

  /** No candidate visited agrees with the position for more than len bytes. */
  ghost predicate NoneLonger(data: seq<byte>, p: nat, visited: seq<nat>, len: nat) {
    forall i :: 0 <= i < |visited| ==> !IsMatch(data, p, visited[i], len + 1)
  }

  lemma WalkOn(next: seq<nat>, p: nat, maxDist: nat, visited: seq<nat>, dist: nat)
    requires Walked(next, p, maxDist, visited) && Follows(next, p, visited, dist) && dist <= maxDist
    ensures Walked(next, p, maxDist, visited + [dist])
  {
    hide Follows;
    var more := visited + [dist];
    forall i | 0 <= i < |more| ensures Follows(next, p, more[..i], more[i]) {
      assert more[..i] == if i < |visited| then visited[..i] else visited;
    }
  }

  lemma NoneMore(data: seq<byte>, p: nat, visited: seq<nat>, len: nat, dist: nat)
    requires NoneLonger(data, p, visited, len) && !IsMatch(data, p, dist, len + 1)
    ensures NoneLonger(data, p, visited + [dist], len)
  {
    hide IsMatch;
  }

  lemma StillNone(data: seq<byte>, p: nat, visited: seq<nat>, len: nat, more: nat)
    requires NoneLonger(data, p, visited, len) && len <= more
    ensures NoneLonger(data, p, visited, more)
  {
    forall i | 0 <= i < |visited| ensures !IsMatch(data, p, visited[i], more + 1) {
      if IsMatch(data, p, visited[i], more + 1) {
        assert IsMatch(data, p, visited[i], len + 1);
      }
    }
  }

  /** The byte at the position that a longer match would have to agree with, and the one before it. */
  ghost predicate LastTwo(data: seq<byte>, p: nat, len: nat, c0: byte, c1: byte) {
    0 < len && p + len < |data| && c0 == data[p + len] && c1 == data[p + len - 1]
  }

  /** TDEFL_PROBE: a candidate that does not agree in the two bytes at the end is no longer match. */
  method NextProbe(dict: array<byte>, next: array<nat>, p: nat, maxDist: nat, len: nat, c0: byte, c1: byte, from: nat,
                   ghost data: seq<byte>, ghost visited: seq<nat>)
    returns (r: Probe)
    requires RingOk(dict[..], data, p - maxDist) && Walked(next[..], p, maxDist, visited) && from == ChainAt(p, visited)
    requires len < MAX_MATCH && LastTwo(data, p, len, c0, c1)
    ensures if r.Stop? then ChainEnds(next[..], p, maxDist, visited)
            else
              && Walked(next[..], p, maxDist, visited + [r.dist]) && r.pos == ChainAt(p, visited + [r.dist])
                 && r.dist <= maxDist
              && (r.Miss? ==> !IsMatch(data, p, r.dist, len + 1))
  {
    hide RingOk, IsMatch, Walked, Follows;
    WalkedFacts(next[..], p, maxDist, visited);
    RingSize(dict[..], data, p - maxDist);
    var cand := next[from];
    var dist := (p - cand) % 65536;
    if cand == 0 || dist > maxDist {
      return Stop;
    }
    ProbePos(p, cand, dist);
    assert Follows(next[..], p, visited, dist) by { FollowsHere(next[..], p, visited, dist); }
    WalkOn(next[..], p, maxDist, visited, dist);
    var pos := cand % DICT_SIZE;
    if dict[pos + len] == c0 && dict[pos + len - 1] == c1 {
      r := Hit(pos, dist);
    } else {
      r := Miss(pos, dist);
      NotLonger(dict[..], data, p, maxDist, dist, len, c0, c1);
    }
  }

  lemma WalkedFacts(next: seq<nat>, p: nat, maxDist: nat, visited: seq<nat>)
    requires Walked(next, p, maxDist, visited)
    ensures |next| == DICT_SIZE && maxDist <= p && forall i :: 0 <= i < |visited| ==> visited[i] <= maxDist
  {
  }

  lemma FollowsHere(next: seq<nat>, p: nat, visited: seq<nat>, dist: nat)
    requires |next| == DICT_SIZE && (forall i :: 0 <= i < |visited| ==> visited[i] <= p)
    requires next[ChainAt(p, visited)] != 0 && dist == (p - next[ChainAt(p, visited)]) % 65536
    ensures Follows(next, p, visited, dist)
  {
  }

  lemma NotLonger(dict: seq<byte>, data: seq<byte>, p: nat, maxDist: nat, dist: nat, len: nat, c0: byte, c1: byte)
    requires RingOk(dict, data, p - maxDist) && dist <= maxDist <= p && len < MAX_MATCH && LastTwo(data, p, len, c0, c1)
    requires |dict| == DICT_SIZE + MIRROR
        && !(dict[(p - dist) % DICT_SIZE + len] == c0 && dict[(p - dist) % DICT_SIZE + len - 1] == c1)
    ensures !IsMatch(data, p, dist, len + 1)
  {
    hide RingOk;
    if IsMatch(data, p, dist, len + 1) {
      RingAt(dict, data, p - maxDist, p - dist, len);
      RingAt(dict, data, p - maxDist, p - dist, len - 1);
    }
  }

  /** Probes until one hits: three for each unit of the probe budget. */
  method Search(dict: array<byte>, next: array<nat>, p: nat, maxDist: nat, len: nat, c0: byte, c1: byte, from: nat,
      probes: nat,
                ghost data: seq<byte>, ghost visited0: seq<nat>)
    returns (r: Probe, left: nat, ghost visited: seq<nat>)
    requires RingOk(dict[..], data, p - maxDist) && Walked(next[..], p, maxDist, visited0)
        && from == ChainAt(p, visited0)
    requires len < MAX_MATCH && LastTwo(data, p, len, c0, c1) && NoneLonger(data, p, visited0, len) && probes > 0
    ensures !r.Miss? && left <= probes && Walked(next[..], p, maxDist, visited)
        && |visited| - |visited0| >= probes - left - 1 && visited0 <= visited
    ensures r.Stop? ==> NoneLonger(data, p, visited, len) && (left == 0 || ChainEnds(next[..], p, maxDist, visited))
    ensures r.Hit? ==>
              && 0 < left < probes && visited != [] && r.dist == visited[|visited| - 1] && r.pos == ChainAt(p, visited)
                 && r.dist <= maxDist
              && NoneLonger(data, p, visited[..|visited| - 1], len) && |visited| - |visited0| >= probes - left
  {
    hide RingOk, IsMatch, Walked, ChainEnds, LastTwo, NoneLonger, ChainAt;
    WalkedFacts(next[..], p, maxDist, visited0);
    left, visited := probes, visited0;
    var at := from;
    while true
      invariant 0 < left <= probes && |visited| - |visited0| >= probes - left && Walked(next[..], p, maxDist, visited)
          && visited0 <= visited
      invariant 0 <= at && (forall i :: 0 <= i < |visited| ==> visited[i] <= p) && at == ChainAt(p, visited)
      invariant NoneLonger(data, p, visited, len)
      decreases left
    {
      left := left - 1;
      if left == 0 {
        return Stop, left, visited;
      }
      r, visited := ProbeOnce(dict, next, p, maxDist, len, c0, c1, at, data, visited);
      if r.Miss? {
        r, visited := ProbeOnce(dict, next, p, maxDist, len, c0, c1, r.pos, data, visited);
      }
      if r.Miss? {
        r, visited := ProbeOnce(dict, next, p, maxDist, len, c0, c1, r.pos, data, visited);
      }
      if !r.Miss? {
        return;
      }
      at := r.pos;
    }
  }

  /** One probe, and the candidates visited with it. */
  method ProbeOnce(dict: array<byte>, next: array<nat>, p: nat, maxDist: nat, len: nat, c0: byte, c1: byte, from: nat,
                   ghost data: seq<byte>, ghost visited0: seq<nat>)
    returns (r: Probe, ghost visited: seq<nat>)
    requires RingOk(dict[..], data, p - maxDist) && Walked(next[..], p, maxDist, visited0)
        && from == ChainAt(p, visited0)
    requires len < MAX_MATCH && LastTwo(data, p, len, c0, c1) && NoneLonger(data, p, visited0, len)
    ensures Walked(next[..], p, maxDist, visited) && (forall i :: 0 <= i < |visited| ==> visited[i] <= p)
    ensures if r.Stop? then visited == visited0 && ChainEnds(next[..], p, maxDist, visited)
        else visited == visited0 + [r.dist]
    ensures !r.Stop? ==> r.pos == ChainAt(p, visited) && r.dist <= maxDist
    ensures !r.Hit? ==> NoneLonger(data, p, visited, len)
  {
    hide RingOk, IsMatch, Walked, ChainEnds, LastTwo, NoneLonger, ChainAt;
    WalkedFacts(next[..], p, maxDist, visited0);
    r := NextProbe(dict, next, p, maxDist, len, c0, c1, from, data, visited0);
    visited := visited0;
    if !r.Stop? {
      visited := visited0 + [r.dist];
      if r.Miss? {
        NoneMore(data, p, visited0, len, r.dist);
      }
    }
  }

  lemma MatchNone(data: seq<byte>, p: nat, dist: nat)
    requires 0 < dist <= p <= |data|
    ensures IsMatch(data, p, dist, 0)
  {
  }

  lemma MatchMore(data: seq<byte>, p: nat, dist: nat, len: nat)
    requires IsMatch(data, p, dist, len) && p + len < |data|
    ensures data[p + len] == data[p - dist + len] ==> IsMatch(data, p, dist, len + 1)
  {
  }

  lemma Differ(data: seq<byte>, p: nat, dist: nat, len: nat)
    requires 0 < dist <= p && p + len < |data| && data[p + len] != data[p - dist + len]
    ensures !IsMatch(data, p, dist, len + 1)
  {
  }

  /** The common length of the bytes at the position and at a candidate. */
  method Compare(dict: array<byte>, p: nat, dist: nat, maxLen: nat, ghost data: seq<byte>, ghost lo: int)
      returns (len: nat)
    requires RingOk(dict[..], data, lo) && lo <= p - dist && 0 < dist <= p && p + maxLen <= |data|
        && maxLen <= MAX_MATCH
    ensures len <= maxLen && IsMatch(data, p, dist, len) && (len < maxLen ==> !IsMatch(data, p, dist, len + 1))
  {
    hide RingOk, IsMatch;
    len := 0;
    MatchNone(data, p, dist);
    while len < maxLen
      invariant 0 <= len <= maxLen && IsMatch(data, p, dist, len)
    {
      RingAt(dict[..], data, lo, p, len);
      RingAt(dict[..], data, lo, p - dist, len);
      MatchMore(data, p, dist, len);
      if dict[p % DICT_SIZE + len] != dict[(p - dist) % DICT_SIZE + len] {
        Differ(data, p, dist, len);
        return;
      }
      len := len + 1;
    }
  }

  /** What a search has seen is enough: a match of the greatest length, the whole chain, or as many candidates as
      it may. */
  ghost predicate Exhausted(next: seq<nat>, p: nat, maxDist: nat, visited: seq<nat>, len: nat, maxLen: nat,
      probes: nat) {
    len >= maxLen || ChainEnds(next, p, maxDist, visited) || |visited| >= probes - 1
  }

  /** tdefl_find_match: the longest match, longer than the one given, among the candidates at the start of the
      position's hash chain; whatever the chains contain, what is found is a match. */
  method FindMatch(dict: array<byte>, next: array<nat>, p: nat, maxDist: nat, maxLen: nat, len0: nat, probes: nat,
      ghost data: seq<byte>)
    returns (dist: nat, len: nat, ghost visited: seq<nat>)
    requires next.Length == DICT_SIZE && RingOk(dict[..], data, p - maxDist) && maxDist <= p && p + maxLen <= |data|
    requires maxLen <= MAX_MATCH && 0 < len0 < MAX_MATCH && probes > 0
    ensures if dist == 0 then len == len0 else dist <= maxDist && len0 < len <= maxLen && IsMatch(data, p, dist, len)
    ensures dist == 0 || dist in visited
    ensures Walked(next[..], p, maxDist, visited) && Exhausted(next[..], p, maxDist, visited, len, maxLen, probes)
    ensures len < maxLen ==> NoneLonger(data, p, visited, len)
  {
    hide RingOk, IsMatch, Walked, ChainEnds, NoneLonger;
    dist, len, visited := 0, len0, [];
    NothingWalked(next[..], p, maxDist, data, len);
    if maxLen <= len {
      return;
    }
    RingSize(dict[..], data, p - maxDist);
    var pos := p % DICT_SIZE;
    var from, left := pos, probes;
    var c0, c1 := dict[pos + len], dict[pos + len - 1];
    RingTwo(dict[..], data, p, maxDist, len);
    while true
      invariant 0 < left <= probes && len < maxLen && LastTwo(data, p, len, c0, c1) && |visited| >= probes - left
      invariant Walked(next[..], p, maxDist, visited) && (forall i :: 0 <= i < |visited| ==> visited[i] <= p)
          && 0 <= from == ChainAt(p, visited)
      invariant NoneLonger(data, p, visited, len)
      invariant if dist == 0 then len == len0
                else dist <= maxDist && dist in visited && len0 < len <= maxLen && IsMatch(data, p, dist, len)
      decreases left
    {
      var r;
      ghost var before, probes0 := visited, left;
      r, left, visited := Search(dict, next, p, maxDist, len, c0, c1, from, left, data, visited);
      WalkedFacts(next[..], p, maxDist, visited);
      if r.Stop? || r.dist == 0 {
        SeenAll(next[..], p, maxDist, data, visited, len, r);
        return;
      }
      from := r.pos;
      var n := Compare(dict, p, r.dist, maxLen, data, p - maxDist);
      HitSeen(data, p, visited, r.dist, len, n, maxLen);
      if n > len {
        dist, len := r.dist, n;
        if len == maxLen {
          return;
        }
        c0, c1 := dict[pos + len], dict[pos + len - 1];
        RingTwo(dict[..], data, p, maxDist, len);
      }
    }
  }

  lemma NothingWalked(next: seq<nat>, p: nat, maxDist: nat, data: seq<byte>, len: nat)
    requires |next| == DICT_SIZE && maxDist <= p
    ensures Walked(next, p, maxDist, []) && NoneLonger(data, p, [], len) && ChainAt(p, []) == p % DICT_SIZE
  {
  }

  lemma RingTwo(dict: seq<byte>, data: seq<byte>, p: nat, maxDist: nat, len: nat)
    requires RingOk(dict, data, p - maxDist) && 0 < len < MAX_MATCH && p + len < |data|
    ensures |dict| == DICT_SIZE + MIRROR && p % DICT_SIZE + len < |dict|
    ensures LastTwo(data, p, len, dict[p % DICT_SIZE + len], dict[p % DICT_SIZE + len - 1])
  {
    hide RingOk;
    RingSize(dict, data, p - maxDist);
    RingAt(dict, data, p - maxDist, p, len);
    RingAt(dict, data, p - maxDist, p, len - 1);
  }

  /** The search has ended: nothing visited is longer. */
  lemma SeenAll(next: seq<nat>, p: nat, maxDist: nat, data: seq<byte>, visited: seq<nat>, len: nat, r: Probe)
    requires r.Stop? ==> NoneLonger(data, p, visited, len)
    requires r.Hit? ==>
               r.dist == 0 && visited != [] && visited[|visited| - 1] == 0
                   && NoneLonger(data, p, visited[..|visited| - 1], len)
    requires !r.Miss?
    ensures NoneLonger(data, p, visited, len) && (r.Hit? ==> ChainEnds(next, p, maxDist, visited))
  {
    if r.Hit? {
      var n := |visited| - 1;
      assert !IsMatch(data, p, 0, len + 1);
      NoneMore(data, p, visited[..n], len, 0);
      assert visited == visited[..n] + [0];
    }
  }

  /** A candidate that was compared. */
  lemma HitSeen(data: seq<byte>, p: nat, visited: seq<nat>, dist: nat, len: nat, n: nat, maxLen: nat)
    requires visited != [] && visited[|visited| - 1] == dist && NoneLonger(data, p, visited[..|visited| - 1], len)
        && len < maxLen
    requires n < maxLen ==> !IsMatch(data, p, dist, n + 1)
    ensures n <= len ==> NoneLonger(data, p, visited, len)
    ensures len < n < maxLen ==> NoneLonger(data, p, visited, n)
  {
    hide IsMatch;
    var k := |visited| - 1;
    assert visited == visited[..k] + [dist];
    if n < maxLen {
      var more := Max(len, n);
      StillNone(data, p, visited[..k], len, more);
      NotEven(data, p, dist, n, more);
      NoneMore(data, p, visited[..k], more, dist);
    }
  }

  lemma NotEven(data: seq<byte>, p: nat, dist: nat, n: nat, more: nat)
    requires !IsMatch(data, p, dist, n + 1) && n <= more
    ensures !IsMatch(data, p, dist, more + 1)
  {
  }

  /** Store a byte, and mirror it if it is among the first. */
  method StoreByte(dict: array<byte>, c: byte, ghost data: seq<byte>, ghost lo: int, dstPos: nat)
    requires RingOk(dict[..], data, lo) && dstPos == |data| % DICT_SIZE
    modifies dict
    ensures RingOk(dict[..], data + [c], Max(lo, |data| + 1 - DICT_SIZE))
  {
    ghost var was := dict[..];
    dict[dstPos] := c;
    if dstPos < MAX_MATCH - 1 {
      dict[DICT_SIZE + dstPos] := c;
    }
    RingPut(was, dict[..], data, c, lo);
  }

  /** Insert a position at the head of its hash chain. */
  method Chain(next: array<nat>, hash: array<nat>, insPos: nat, h: nat)
    requires next.Length == hash.Length == DICT_SIZE && h < DICT_SIZE && next != hash
    modifies next, hash
  {
    next[insPos % DICT_SIZE] := hash[h];
    hash[h] := insPos % 65536;
  }

  lemma NextSlot(n: nat)
    ensures (n % DICT_SIZE + 1) % DICT_SIZE == (n + 1) % DICT_SIZE
  {
    var q, m := n / DICT_SIZE, n % DICT_SIZE;
    assert n + 1 == DICT_SIZE * q + (m + 1);
    if m + 1 == DICT_SIZE {
      assert n + 1 == DICT_SIZE * (q + 1);
    }
  }

  method Clear(a: array<nat>)
    modifies a
    ensures forall i :: 0 <= i < a.Length ==> a[i] == 0
  {
    forall i | 0 <= i < a.Length { a[i] := 0; }
  }

  class Ring {
    const dict: array<byte>
    const next: array<nat>
    const hash: array<nat>
    var lookaheadPos: nat
    var lookaheadSize: nat
    var dictSize: nat
    ghost var data: seq<byte>

    /** The ring holds the lookahead and the dictSize bytes before it. */
    ghost predicate Valid()
      reads this, dict
    {
      && next.Length == hash.Length == DICT_SIZE && next != hash
      && |data| == lookaheadPos + lookaheadSize && lookaheadSize <= MAX_MATCH && dictSize <= lookaheadPos
         && dictSize + lookaheadSize <= DICT_SIZE
      && RingOk(dict[..], data, lookaheadPos - dictSize)
    }

    constructor ()
      ensures Valid() && data == [] && lookaheadPos == lookaheadSize == dictSize == 0 && fresh(dict) && fresh(next)
          && fresh(hash)
    {
      dict := new byte[DICT_SIZE + MIRROR](_ => 0);
      next, hash := new nat[DICT_SIZE](_ => 0), new nat[DICT_SIZE](_ => 0);
      lookaheadPos, lookaheadSize, dictSize, data := 0, 0, 0, [];
    }

    /** With at least two bytes known, the hash rolls. */
    method FillRolling(src: seq<byte>, from: nat, n: nat)
      requires Valid() && from + n <= |src| && lookaheadSize + n <= MAX_MATCH && lookaheadSize + dictSize >= 2
      modifies dict, next, hash
      ensures RingOk(dict[..], data + src[from..from + n], Max(lookaheadPos - dictSize, |data| + n - DICT_SIZE))
    {
      hide RingOk, Mix;
      var dstPos := (lookaheadPos + lookaheadSize) % DICT_SIZE;
      var insPos := lookaheadPos + lookaheadSize - 2;
      RingSize(dict[..], data, lookaheadPos - dictSize);
      var h := Mix(dict[insPos % DICT_SIZE], dict[(insPos + 1) % DICT_SIZE]);
      assert data + src[from..from] == data;
      for k := 0 to n
        invariant RingOk(dict[..], data + src[from..from + k], Max(lookaheadPos - dictSize, |data| + k - DICT_SIZE))
        invariant 0 <= dstPos == (|data| + k) % DICT_SIZE && insPos == |data| + k - 2 && 0 <= h < DICT_SIZE
      {
        var c := src[from + k];
        assert data + src[from..from + k] + [c] == data + src[from..from + k + 1];
        StoreByte(dict, c, data + src[from..from + k], Max(lookaheadPos - dictSize, |data| + k - DICT_SIZE), dstPos);
        h := Mix(h, c);
        Chain(next, hash, insPos, h);
        NextSlot(|data| + k);
        dstPos, insPos := (dstPos + 1) % DICT_SIZE, insPos + 1;
      }
    }

    /** At the start, one byte at a time until there is something to hash. */
    method FillSlowly(src: seq<byte>, from: nat, n: nat)
      requires Valid() && from + n <= |src| && lookaheadSize + n <= MAX_MATCH
      modifies dict, next, hash
      ensures RingOk(dict[..], data + src[from..from + n], Max(lookaheadPos - dictSize, |data| + n - DICT_SIZE))
    {
      hide RingOk, Mix;
      assert data + src[from..from] == data;
      for k := 0 to n
        invariant RingOk(dict[..], data + src[from..from + k], Max(lookaheadPos - dictSize, |data| + k - DICT_SIZE))
      {
        var c := src[from + k];
        var size := lookaheadSize + k;
        assert data + src[from..from + k] + [c] == data + src[from..from + k + 1];
        StoreByte(dict, c, data + src[from..from + k], Max(lookaheadPos - dictSize, |data| + k - DICT_SIZE),
            (lookaheadPos + size) % DICT_SIZE);
        RingSize(dict[..], data + src[from..from + k + 1], Max(lookaheadPos - dictSize, |data| + k + 1 - DICT_SIZE));
        if size + 1 + dictSize >= 3 {
          var insPos := lookaheadPos + size - 2;
          var h := Mix(Mix(dict[insPos % DICT_SIZE], dict[(insPos + 1) % DICT_SIZE]), c);
          Chain(next, hash, insPos, h);
        }
      }
    }

    /** Keep the lookahead as long as the longest match, as far as there is input. */
    method Fill(src: seq<byte>, from: nat) returns (used: nat)
      requires Valid() && from <= |src|
      modifies this, dict, next, hash
      ensures Valid() && used == Min(|src| - from, MAX_MATCH - old(lookaheadSize))
          && data == old(data) + src[from..from + used]
      ensures lookaheadPos == old(lookaheadPos) && lookaheadSize == old(lookaheadSize) + used
      ensures dictSize == Min(DICT_SIZE - lookaheadSize, old(dictSize))
    {
      hide RingOk;
      used := Min(|src| - from, MAX_MATCH - lookaheadSize);
      if lookaheadSize + dictSize >= 2 {
        FillRolling(src, from, used);
      } else {
        FillSlowly(src, from, used);
      }
      data := data + src[from..from + used];
      lookaheadSize := lookaheadSize + used;
      ghost var was := Max(lookaheadPos - dictSize, |data| - DICT_SIZE);
      dictSize := Min(DICT_SIZE - lookaheadSize, dictSize);
      RingLess(dict[..], data, was, lookaheadPos - dictSize);
    }

    /** Move on by n bytes. */
    method Advance(n: nat)
      requires Valid() && n <= lookaheadSize
      modifies this
      ensures Valid() && lookaheadPos == old(lookaheadPos) + n && lookaheadSize == old(lookaheadSize) - n
          && data == old(data)
      ensures dictSize == Min(old(dictSize) + n, DICT_SIZE)
    {
      lookaheadPos := lookaheadPos + n;
      lookaheadSize := lookaheadSize - n;
      dictSize := Min(dictSize + n, DICT_SIZE);
    }

    /** The byte at the front of the lookahead. */
    method Front() returns (c: byte)
      requires Valid() && lookaheadSize > 0
      ensures c == data[lookaheadPos]
    {
      RingAt(dict[..], data, lookaheadPos - dictSize, lookaheadPos, 0);
      c := dict[lookaheadPos % DICT_SIZE];
    }

    /** TDEFL_RLE_MATCHES: how far the byte before the lookahead repeats. */
    method RunLength() returns (len: nat)
      requires Valid() && dictSize > 0
      ensures len <= lookaheadSize && IsMatch(data, lookaheadPos, 1, len)
      ensures len < lookaheadSize ==> !IsMatch(data, lookaheadPos, 1, len + 1)
    {
      hide RingOk, IsMatch;
      var lo := lookaheadPos - dictSize;
      len := 0;
      MatchNone(data, lookaheadPos, 1);
      RingAt(dict[..], data, lo, lookaheadPos - 1, 0);
      var c := dict[(lookaheadPos - 1) % DICT_SIZE];
      while len < lookaheadSize
        invariant 0 <= len <= lookaheadSize && IsMatch(data, lookaheadPos, 1, len) && data[lookaheadPos - 1 + len] == c
      {
        RingAt(dict[..], data, lo, lookaheadPos, len);
        MatchMore(data, lookaheadPos, 1, len);
        if dict[lookaheadPos % DICT_SIZE + len] != c {
          Differ(data, lookaheadPos, 1, len);
          break;
        }
        len := len + 1;
      }
    }

    /** A full flush forgets the hash chains and the dictionary. */
    method Forget()
      requires Valid()
      modifies this, next, hash
      ensures Valid() && data == old(data) && dictSize == 0 && lookaheadPos == old(lookaheadPos)
          && lookaheadSize == old(lookaheadSize)
    {
      hide RingOk;
      Clear(next);
      Clear(hash);
      RingLess(dict[..], data, lookaheadPos - dictSize, lookaheadPos);
      dictSize := 0;
    }
  }

  lemma RingSize(dict: seq<byte>, data: seq<byte>, lo: int)
    requires RingOk(dict, data, lo)
    ensures |dict| == DICT_SIZE + MIRROR
  {
  }
}
