/** The compressor's Huffman tables: from symbol counts to limited code lengths and reversed codes. */
module HuffmanTable {
  import opened Bits
  import Canonical
  import opened RadixSort
  import M = MinRedundancy
  import L = LengthLimiter
  import S = SortedLengths
  import P = Penalty

  const MAX_SYMBOLS: nat := 288

  // ----- counting code lengths -----

  lemma {:induction false} CountZeros(n: nat, l: nat)
    requires l > 0
    ensures Canonical.Count(seq(n, _ => 0), l) == 0
  {
    if n > 0 {
      CountZeros(n - 1, l);
      assert seq(n, _ => 0)[..n - 1] == seq(n - 1, _ => 0);
    }
  }

  /** The canonical code's usage is the limiter's Kraft sum. */
  lemma {:induction false} UsedIsWeight(h: seq<int>, lens: seq<nat>, m: nat, i: nat)
    requires 0 < i <= m && i < |h| && forall l :: 0 < l <= i ==> h[l] == Canonical.Count(lens, l)
    ensures L.Weight(h, m, i) == Canonical.Used(lens, i) * Pow2(m - i)
  {
    if i == 1 {
      assert L.Weight(h, m, 0) == 0;
      assert Canonical.NextCode(lens, 1) == 0;
    } else {
      UsedIsWeight(h, lens, m, i - 1);
      UsageStep(Canonical.Used(lens, i - 1), h[i], Pow2(m - i));
    }
  }

  lemma UsageStep(u: int, c: int, p: int)
    ensures u * (2 * p) + c * p == (2 * u + c) * p
  {
  }

  lemma {:induction false} UsedBeyond(lens: seq<nat>, a: nat, b: nat)
    requires 0 < a <= b && forall i :: 0 <= i < |lens| ==> lens[i] <= a
    ensures Canonical.Used(lens, b) == Canonical.Used(lens, a) * Pow2(b - a)
    decreases b
  {
    if a < b {
      UsedBeyond(lens, a, b - 1);
      CountNone(lens, b);
      Double(Canonical.Used(lens, a), Pow2(b - 1 - a));
    }
  }

  lemma {:induction false} CountNone(lens: seq<nat>, l: nat)
    requires forall i :: 0 <= i < |lens| ==> lens[i] != l
    ensures Canonical.Count(lens, l) == 0
  {
    if lens != [] {
      CountNone(lens[..|lens| - 1], l);
    }
  }

  /** A limited histogram with Kraft sum one makes a complete canonical code. */
  lemma LimitedComplete(h: seq<int>, lens: seq<nat>, m: nat)
    requires 0 < m <= Canonical.MAX_LEN && m < |h| && (forall l :: 0 < l <= m ==> h[l] == Canonical.Count(lens, l))
    requires L.Weight(h, m, m) == Pow2(m) && forall i :: 0 <= i < |lens| ==> lens[i] <= m
    ensures Canonical.Complete(lens)
  {
    UsedIsWeight(h, lens, m, m);
    assert Pow2(m - m) == 1;
    UsedBeyond(lens, m, Canonical.MAX_LEN);
    Pow2Add(m, Canonical.MAX_LEN - m);
  }

  // ----- assigning lengths to symbols -----

  ghost predicate Distinct(s: seq<nat>) {
    forall i, j :: 0 <= i < j < |s| ==> s[i] != s[j]
  }

  /** Lengths handed out from the most frequent symbol down, shortest first. */
  ghost predicate Assigned(sizes: seq<nat>, ord: seq<nat>, j: nat, limit: nat)
    requires j <= |ord|
  {
    && (forall p :: j <= p < |ord| ==> ord[p] < |sizes| && 0 < sizes[ord[p]] <= limit)
    && (forall x :: 0 <= x < |sizes| && x !in ord[j..] ==> sizes[x] == 0)
    && (forall p, q :: j <= p < q < |ord| ==> sizes[ord[p]] >= sizes[ord[q]])
  }

  lemma AssignNext(sizes: seq<nat>, ord: seq<nat>, j: nat, limit: nat)
    requires 0 < j <= |ord| && Assigned(sizes, ord, j, limit) && Distinct(ord) && limit > 0
    requires ord[j - 1] < |sizes|
    ensures sizes[ord[j - 1]] == 0 && Assigned(sizes[ord[j - 1] := limit], ord, j - 1, limit)
  {
    var x := ord[j - 1];
    assert x !in ord[j..];
    assert ord[j - 1..] == [x] + ord[j..];
  }

  /** The lengths handed out so far, shortest first. */
  ghost predicate Listed(sizes: seq<nat>, ord: seq<nat>, j: nat, v: seq<nat>, limit: nat) {
    ListedAt(sizes, ord, j, v) && forall l :: 0 < l <= limit ==> Canonical.Count(v, l) == Canonical.Count(sizes, l)
  }

  ghost predicate ListedAt(sizes: seq<nat>, ord: seq<nat>, j: nat, v: seq<nat>) {
    j <= |ord| && (forall p :: 0 <= p < |ord| ==> ord[p] < |sizes|) && v == P.Rev(P.Pick(sizes, ord[j..]))
  }

  lemma ListedAtNext(sizes: seq<nat>, ord: seq<nat>, j: nat, v: seq<nat>, i: nat)
    requires 0 < j && ListedAt(sizes, ord, j, v) && Distinct(ord)
    ensures ListedAt(sizes[ord[j - 1] := i], ord, j - 1, v + [i])
  {
    var x := ord[j - 1];
    var a, b := P.Pick(sizes, ord[j..]), P.Pick(sizes[x := i], ord[j - 1..]);
    assert b == [i] + a;
    assert P.Rev(b) == P.Rev(a) + [i];
  }

  lemma ListedNext(sizes: seq<nat>, ord: seq<nat>, j: nat, v: seq<nat>, limit: nat, i: nat)
    requires 0 < j && Listed(sizes, ord, j, v, limit) && Distinct(ord) && j <= |ord| && ord[j - 1] < |sizes|
        && sizes[ord[j - 1]] == 0
    ensures Listed(sizes[ord[j - 1] := i], ord, j - 1, v + [i], limit)
  {
    hide Canonical.Count, ListedAt, Distinct;
    var x, u := ord[j - 1], v + [i];
    ListedAtNext(sizes, ord, j, v, i);
    forall l | 0 < l <= limit ensures Canonical.Count(u, l) == Canonical.Count(sizes[x := i], l) {
      Canonical.CountUpdate(sizes, x, i, l);
      CountSnoc(v, i, l);
    }
  }

  lemma CountSnoc(v: seq<nat>, i: nat, l: nat)
    ensures Canonical.Count(v + [i], l) == Canonical.Count(v, l) + (if i == l then 1 else 0)
  {
    assert (v + [i])[..|v|] == v;
  }

  method AssignSizes(ord: seq<nat>, numCodes: array<int>, limit: nat, tableLen: nat)
      returns (sizes: array<nat>, ghost v: seq<nat>)
    requires Distinct(ord) && (forall p :: 0 <= p < |ord| ==> ord[p] < tableLen)
    requires 0 < limit < numCodes.Length && L.Codes(numCodes[..], 0, limit) == |ord|
    requires forall i :: 0 <= i <= limit ==> numCodes[i] >= 0
    ensures fresh(sizes) && sizes.Length == tableLen && Assigned(sizes[..], ord, 0, limit)
    ensures forall l :: 0 < l <= limit ==> Canonical.Count(sizes[..], l) == numCodes[l]
    ensures Listed(sizes[..], ord, 0, v, limit)
  {
    hide Canonical.Count, L.Codes, Assigned, Distinct, Listed;
    sizes := new nat[tableLen](_ => 0);
    assert sizes[..] == seq(tableLen, _ => 0);
    forall l | 0 < l <= limit ensures Canonical.Count(sizes[..], l) == 0 {
      CountZeros(tableLen, l);
    }
    ghost var h := numCodes[..];
    var j := |ord|;
    v := [];
    StartAssigned(sizes[..], ord);
    StartListed(sizes[..], ord, limit);
    NoCodes(h);
    for i: nat := 1 to limit + 1
      invariant numCodes[..] == h && 0 <= j == |ord| - L.Codes(h, 0, i - 1) <= |ord|
      invariant Assigned(sizes[..], ord, j, i - 1) && Listed(sizes[..], ord, j, v, limit)
      invariant forall l :: 0 < l <= limit ==> Canonical.Count(sizes[..], l) == if l < i then h[l] else 0
    {
      CodesBound(h, i, limit);
      Relax(sizes[..], ord, j, i);
      j, v := AssignLength(sizes, ord, numCodes[i], i, j, limit, v);
    }
  }

  /** Hand length i to the next `num` symbols. */
  method AssignLength(sizes: array<nat>, ord: seq<nat>, num: int, i: nat, j0: nat, ghost limit: nat,
      ghost v0: seq<nat>) returns (j: nat, ghost v: seq<nat>)
    requires Distinct(ord) && (forall p :: 0 <= p < |ord| ==> ord[p] < sizes.Length)
    requires 0 < i <= limit && 0 <= num <= j0 <= |ord| && Assigned(sizes[..], ord, j0, i)
        && Listed(sizes[..], ord, j0, v0, limit)
    modifies sizes
    ensures j == j0 - num && Assigned(sizes[..], ord, j, i) && Listed(sizes[..], ord, j, v, limit)
    ensures forall k :: 0 < k <= limit ==>
              Canonical.Count(sizes[..], k) == Canonical.Count(old(sizes[..]), k) + (if k == i then num else 0)
  {
    hide Canonical.Count, Assigned, Distinct, Listed;
    j, v := j0, v0;
    var l := num;
    while l > 0
      invariant 0 <= l <= num && j == j0 - num + l && Assigned(sizes[..], ord, j, i)
          && Listed(sizes[..], ord, j, v, limit)
      invariant forall k :: 0 < k <= limit ==>
                  Canonical.Count(sizes[..], k) == Canonical.Count(old(sizes[..]), k) + (if k == i then num - l else 0)
    {
      ghost var before := sizes[..];
      AssignNext(before, ord, j, i);
      ListedNext(before, ord, j, v, limit, i);
      j := j - 1;
      forall k | 0 < k <= limit
        ensures Canonical.Count(before[ord[j] := i], k) == Canonical.Count(before, k) + (if k == i then 1 else 0)
      {
        Canonical.CountUpdate(before, ord[j], i, k);
      }
      sizes[ord[j]] := i;
      v := v + [i];
      assert sizes[..] == before[ord[j] := i];
      l := l - 1;
    }
  }

  lemma StartListed(sizes: seq<nat>, ord: seq<nat>, limit: nat)
    requires (forall l :: 0 < l <= limit ==> Canonical.Count(sizes, l) == 0) && forall p :: 0 <= p < |ord| ==>
        ord[p] < |sizes|
    ensures Listed(sizes, ord, |ord|, [], limit)
  {
  }

  lemma NoCodes(h: seq<int>)
    requires |h| > 0
    ensures L.Codes(h, 0, 0) == 0
  {
  }

  lemma StartAssigned(sizes: seq<nat>, ord: seq<nat>)
    requires forall x :: 0 <= x < |sizes| ==> sizes[x] == 0
    ensures Assigned(sizes, ord, |ord|, 0)
  {
  }

  lemma Relax(sizes: seq<nat>, ord: seq<nat>, j: nat, i: nat)
    requires j <= |ord| && 0 < i && Assigned(sizes, ord, j, i - 1)
    ensures Assigned(sizes, ord, j, i)
  {
  }

  lemma {:induction false} CodesBound(h: seq<int>, i: nat, limit: nat)
    requires 0 < i <= limit < |h| && forall l :: 0 <= l <= limit ==> h[l] >= 0
    ensures L.Codes(h, 0, i) == L.Codes(h, 0, i - 1) + h[i] <= L.Codes(h, 0, limit)
    decreases limit
  {
    if i < limit {
      CodesBound(h, i, limit - 1);
    }
  }

  // ----- assigning codes -----

  /** The emitted form of the canonical code: each code bit-reversed, ready for the bit writer. */
  ghost predicate CodesFor(codes: seq<nat>, sizes: seq<nat>) {
    && |codes| == |sizes|
    && forall i :: 0 <= i < |sizes| && sizes[i] > 0 ==>
         codes[i] < Pow2(sizes[i]) && ToBits(codes[i], sizes[i]) == Canonical.SymBits(sizes, i)
  }

  lemma NextFirst(lens: seq<nat>, l: nat)
    ensures Canonical.NextCode(lens, l) == if l <= 1 then 0
        else 2 * (Canonical.NextCode(lens, l - 1) + Canonical.Count(lens, l - 1))
  {
  }

  /** The first code of each length. */
  method NextCodes(ghost lens: seq<nat>, numCodes: array<int>, limit: nat) returns (nextCode: array<nat>)
    requires 0 < limit < numCodes.Length && limit <= L.MAX_SUPPORTED
    requires forall l :: 0 < l <= limit ==> numCodes[l] == Canonical.Count(lens, l)
    ensures fresh(nextCode) && nextCode.Length == L.MAX_SUPPORTED + 1
    ensures forall l :: 1 <= l <= limit ==> nextCode[l] == Canonical.NextCode(lens, l)
  {
    hide Canonical.Count, Canonical.NextCode;
    NextFirst(lens, 1);
    nextCode := new nat[L.MAX_SUPPORTED + 1](_ => 0);
    var j := 0;
    for i := 2 to limit + 1
      invariant forall l :: 0 < l <= limit ==> numCodes[l] == Canonical.Count(lens, l)
      invariant j == Canonical.NextCode(lens, i - 1)
      invariant forall l :: 1 <= l < i ==> nextCode[l] == Canonical.NextCode(lens, l)
    {
      NextFirst(lens, i);
      j := (j + numCodes[i - 1]) * 2;
      nextCode[i] := j;
    }
  }

  method AssignCodes(sizes: array<nat>, numCodes: array<int>, limit: nat) returns (codes: array<nat>)
    requires 0 < limit < numCodes.Length && limit <= L.MAX_SUPPORTED
    requires forall i :: 0 <= i < sizes.Length ==> sizes[i] <= limit
    requires forall l :: 0 < l <= limit ==> numCodes[l] == Canonical.Count(sizes[..], l)
    ensures fresh(codes) && CodesFor(codes[..], sizes[..])
  {
    hide Canonical.Count, Canonical.NextCode, Pow2, ToBits, CodeBits, FromBits;
    ghost var lens := sizes[..];
    var nextCode := NextCodes(lens, numCodes, limit);
    codes := new nat[sizes.Length](_ => 0);
    assert lens[..0] == [];
    forall l ensures Canonical.Count([], l) == 0 {
      CountNone([], l);
    }
    for i := 0 to sizes.Length
      invariant sizes[..] == lens
      invariant forall l :: 1 <= l <= limit ==>
          nextCode[l] == Canonical.NextCode(lens, l) + Canonical.Count(lens[..i], l)
      invariant forall k :: 0 <= k < i && lens[k] > 0 ==>
                  codes[k] < Pow2(lens[k]) && ToBits(codes[k], lens[k]) == Canonical.SymBits(lens, k)
    {
      Canonical.CountStep(lens, i);
      var codeSize := sizes[i];
      if codeSize != 0 {
        var code := nextCode[codeSize];
        nextCode[codeSize] := nextCode[codeSize] + 1;
        codes[i] := ReverseCode(code, codeSize);
      }
    }
  }

  // ----- from counts to sorted weights -----

  function Keys(s: seq<SymFreq>): (k: seq<nat>)
    ensures |k| == |s| && forall i :: 0 <= i < |s| ==> k[i] == s[i].key
  {
    seq(|s|, i requires 0 <= i < |s| => s[i].key)
  }

  function Syms(s: seq<SymFreq>): (k: seq<nat>)
    ensures |k| == |s| && forall i :: 0 <= i < |s| ==> k[i] == s[i].sym
  {
    seq(|s|, i requires 0 <= i < |s| => s[i].sym)
  }

  function Total(s: seq<nat>): nat {
    if s == [] then 0 else s[0] + Total(s[1..])
  }

  lemma {:induction false} TotalIsSum(s: seq<nat>, a: nat)
    requires a <= |s|
    ensures M.Sum(s, a, |s|) == Total(s[a..])
    decreases |s| - a
  {
    if a < |s| {
      TotalIsSum(s, a + 1);
    }
  }

  lemma {:induction false} TotalConcat(s: seq<nat>, t: seq<nat>)
    ensures Total(s + t) == Total(s) + Total(t)
  {
    if s == [] {
      assert s + t == t;
    } else {
      TotalConcat(s[1..], t);
      assert (s + t)[1..] == s[1..] + t;
    }
  }

  /** Equal multisets have equal sums. */
  lemma {:induction false} TotalMultiset(s: seq<nat>, t: seq<nat>)
    requires multiset(s) == multiset(t)
    ensures Total(s) == Total(t)
  {
    if s == [] {
      assert |multiset(t)| == 0;
    } else {
      var x := s[0];
      assert x in multiset(t);
      var i :| 0 <= i < |t| && t[i] == x;
      var u := t[..i] + t[i + 1..];
      assert s == [x] + s[1..];
      assert t == t[..i] + ([x] + t[i + 1..]);
      assert multiset(u) == multiset(t) - multiset{x};
      assert multiset(s[1..]) == multiset(s) - multiset{x};
      TotalMultiset(s[1..], u);
      TotalConcat(t[..i], [x] + t[i + 1..]);
      TotalConcat([x], t[i + 1..]);
      TotalConcat(t[..i], t[i + 1..]);
    }
  }

  function Positions(s: seq<nat>, v: nat): set<nat> {
    set i: nat | i < |s| && s[i] == v
  }

  lemma {:induction false} PositionsCard(s: seq<nat>, v: nat)
    ensures |Positions(s, v)| == multiset(s)[v]
  {
    if s == [] {
      assert Positions(s, v) == {};
    } else {
      var n := |s| - 1;
      PositionsCard(s[..n], v);
      assert s == s[..n] + [s[n]];
      assert Positions(s, v) == if s[n] == v then Positions(s[..n], v) + {n} else Positions(s[..n], v);
    }
  }

  /** Sorting does not change the total weight. */
  lemma SortedTotal(s: seq<SymFreq>, t: seq<SymFreq>, src: seq<nat>, dst: seq<nat>)
    requires Rearranged(s, t, src, dst)
    ensures Total(Keys(s)) == Total(Keys(t))
  {
    var a, b := Keys(s), Keys(t);
    var ma: multiset<nat>, mb: multiset<nat> := multiset(a), multiset(b);
    forall v: nat ensures ma[v] == mb[v] {
      PositionsCard(a, v);
      PositionsCard(b, v);
      InjectiveCard(Positions(a, v), Positions(b, v), dst);
      InjectiveCard(Positions(b, v), Positions(a, v), src);
    }
    assert ma == mb;
    TotalMultiset(a, b);
  }

  /** The used symbols with their counts, in symbol order. */
  ghost predicate Gathered(s: seq<SymFreq>, counts: seq<nat>) {
    && (forall k :: 0 <= k < |s| ==> s[k].sym < |counts| && 0 < s[k].key == counts[s[k].sym])
    && (forall k, l :: 0 <= k < l < |s| ==> s[k].sym < s[l].sym)
    && (forall x :: 0 <= x < |counts| && counts[x] > 0 ==> exists k :: 0 <= k < |s| && s[k].sym == x)
  }

  lemma GatherUsed(s: seq<SymFreq>, counts: seq<nat>, c: nat)
    requires Gathered(s, counts) && c > 0
    ensures Gathered(s + [SymFreq(c, |counts|)], counts + [c]) && Keys(s + [SymFreq(c, |counts|)]) == Keys(s) + [c]
  {
    var t, more := s + [SymFreq(c, |counts|)], counts + [c];
    forall k | 0 <= k < |t| ensures t[k].sym < |more| && 0 < t[k].key == more[t[k].sym] {
      assert k < |s| ==> t[k] == s[k] && more[s[k].sym] == counts[s[k].sym];
    }
    forall x | 0 <= x < |more| && more[x] > 0 ensures exists k :: 0 <= k < |t| && t[k].sym == x {
      if x < |counts| {
        assert more[x] == counts[x];
        var k :| 0 <= k < |s| && s[k].sym == x;
        assert t[k].sym == x;
      } else {
        assert t[|s|].sym == x;
      }
    }
    assert Keys(t) == Keys(s) + [c];
  }

  lemma GatherOne(s: seq<SymFreq>, counts: seq<nat>, c: nat)
    requires Gathered(s, counts) && (forall k :: 0 <= k < |s| ==> s[k].sym < |counts|)
    ensures c > 0 ==>
              Gathered(s + [SymFreq(c, |counts|)], counts + [c]) && Keys(s + [SymFreq(c, |counts|)]) == Keys(s) + [c]
    ensures c == 0 ==> Gathered(s, counts + [c])
  {
    if c > 0 {
      GatherUsed(s, counts, c);
    } else {
      forall x | 0 <= x < |counts| + 1 && (counts + [c])[x] > 0 ensures exists k :: 0 <= k < |s| && s[k].sym == x {
        assert (counts + [c])[x] == counts[x];
      }
    }
  }

  ghost predicate GatheredUpTo(s: seq<SymFreq>, counts: seq<nat>, i: nat)
    requires i <= |counts|
  {
    Gathered(s, counts[..i]) && Total(Keys(s)) == Total(counts[..i])
  }

  lemma GatherNext(s: seq<SymFreq>, counts: seq<nat>, i: nat)
    requires i < |counts| && GatheredUpTo(s, counts, i)
    ensures GatheredUpTo(if counts[i] > 0 then s + [SymFreq(counts[i], i)] else s, counts, i + 1)
  {
    var c := counts[i];
    GatherOne(s, counts[..i], c);
    assert counts[..i + 1] == counts[..i] + [c];
    TotalConcat(counts[..i], [c]);
    TotalConcat(Keys(s), [c]);
    assert Total([c]) == c;
  }

  lemma StartGather(counts: seq<nat>)
    ensures GatheredUpTo([], counts, 0)
  {
  }

  method Gather(counts: seq<nat>, syms0: array<SymFreq>) returns (n: nat)
    requires |counts| <= syms0.Length
    modifies syms0
    ensures n <= |counts| && Gathered(syms0[..n], counts) && Total(Keys(syms0[..n])) == Total(counts)
  {
    hide Gathered, Total, Keys;
    n := 0;
    ghost var s: seq<SymFreq> := [];
    StartGather(counts);
    for i := 0 to |counts|
      invariant n == |s| <= i && GatheredUpTo(s, counts, i)
      invariant forall k :: 0 <= k < n ==> syms0[k] == s[k]
    {
      hide GatheredUpTo;
      GatherNext(s, counts, i);
      if counts[i] != 0 {
        s := s + [SymFreq(counts[i], i)];
        syms0[n] := SymFreq(counts[i], i);
        n := n + 1;
      }
    }
    assert syms0[..n] == s;
    assert counts[..|counts|] == counts;
  }

  // ----- the histogram of the minimum-redundancy lengths -----

  function HistOf(lens: seq<nat>): (h: seq<int>)
    ensures |h| == L.MAX_SUPPORTED + 1 && forall l :: 0 <= l < |h| ==> h[l] == Canonical.Count(lens, l)
  {
    seq(L.MAX_SUPPORTED + 1, l requires 0 <= l < L.MAX_SUPPORTED + 1 => Canonical.Count(lens, l))
  }

  lemma HistPush(lens: seq<nat>)
    requires lens != [] && lens[|lens| - 1] <= L.MAX_SUPPORTED
    ensures var n := |lens| - 1; var h := HistOf(lens[..n]);
            HistOf(lens) == h[lens[n] := h[lens[n]] + 1]
  {
  }

  lemma {:induction false} KraftIsWeight(lens: seq<nat>)
    requires forall i :: 0 <= i < |lens| ==> 0 < lens[i] <= L.MAX_SUPPORTED
    ensures L.Weight(HistOf(lens), L.MAX_SUPPORTED, L.MAX_SUPPORTED) == M.Kraft(lens, L.MAX_SUPPORTED)
    ensures L.Codes(HistOf(lens), 0, L.MAX_SUPPORTED) == |lens|
  {
    hide L.Weight, L.Codes, HistOf, Pow2;
    var m := L.MAX_SUPPORTED;
    if lens == [] {
      EmptyHist();
    } else {
      var n := |lens| - 1;
      var x := lens[n];
      var h := HistOf(lens[..n]);
      KraftIsWeight(lens[..n]);
      HistPush(lens);
      L.WeightUpdate(h, m, m, x, h[x] + 1);
      L.CodesUpdate(h, 0, m, x, h[x] + 1);
      KraftPush(lens, m);
    }
  }

  lemma EmptyHist()
    ensures L.Weight(HistOf([]), L.MAX_SUPPORTED, L.MAX_SUPPORTED) == 0 == M.Kraft([], L.MAX_SUPPORTED)
    ensures L.Codes(HistOf([]), 0, L.MAX_SUPPORTED) == 0
  {
    hide L.Weight, L.Codes;
    var h := HistOf([]);
    forall j | 0 <= j < |h| ensures h[j] == 0 {
      CountNone([], j);
    }
    L.EmptyBelow(h, L.MAX_SUPPORTED, L.MAX_SUPPORTED);
  }

  lemma KraftPush(lens: seq<nat>, m: nat)
    requires lens != [] && lens[|lens| - 1] <= m
    ensures M.Kraft(lens, m) == M.Kraft(lens[..|lens| - 1], m) + Pow2(m - lens[|lens| - 1])
  {
    hide Pow2;
    var n := |lens| - 1;
    var f, g := M.KraftTerms(lens, m), M.KraftTerms(lens[..n], m);
    M.SumSplit(f, 0, n, n + 1);
    assert M.Sum(f, n, n + 1) == f[n] + M.Sum(f, n + 1, n + 1);
    assert f[..n] == g[..n];
    M.SumSame(f, g, n);
  }

  method CountLengths(lens: array<nat>) returns (numCodes: array<int>)
    requires forall i :: 0 <= i < lens.Length ==> lens[i] <= L.MAX_SUPPORTED
    ensures fresh(numCodes) && numCodes[..] == HistOf(lens[..])
  {
    hide Canonical.Count;
    numCodes := new int[L.MAX_SUPPORTED + 1](_ => 0);
    ghost var s := lens[..];
    assert s[..0] == [];
    forall l ensures Canonical.Count([], l) == 0 {
      CountNone([], l);
    }
    for i := 0 to lens.Length
      invariant lens[..] == s && forall l :: 0 <= l <= L.MAX_SUPPORTED ==> numCodes[l] == Canonical.Count(s[..i], l)
    {
      Canonical.CountStep(s, i);
      numCodes[lens[i]] := numCodes[lens[i]] + 1;
    }
    assert s[..|s|] == s;
    assert numCodes[..] == HistOf(s);
  }

  // ----- the whole table -----

  /** What the block writer relies on. */
  ghost predicate TableFor(counts: seq<nat>, sizes: seq<nat>, codes: seq<nat>, limit: nat) {
    && |sizes| == |counts| && CodesFor(codes, sizes)
    && (forall x :: 0 <= x < |counts| ==> sizes[x] <= limit && (sizes[x] > 0 <==> counts[x] > 0))
    && (forall x, y :: 0 <= x < |counts| && 0 <= y < |counts| && 0 < counts[x] < counts[y] ==> sizes[x] >= sizes[y])
    && Canonical.Usable(sizes)
  }

  /** A limited histogram of n codes: nothing negative or lost, and a Kraft sum of one for two codes or more. */
  ghost predicate Limited(h: seq<int>, n: nat, limit: nat) {
    && 0 < limit < |h| && (forall i :: 0 <= i <= limit ==> h[i] >= 0) && L.Codes(h, 0, limit) == n
    && (n > 1 ==> limit <= L.MAX_SUPPORTED && L.Weight(h, limit, limit) == Pow2(limit))
  }

  lemma CompleteLengths(w: seq<nat>, lens: seq<nat>)
    requires M.MinimumRedundancy(w, lens)
    ensures L.CompleteHist(HistOf(lens)) && L.Codes(HistOf(lens), 0, L.MAX_SUPPORTED) == |lens|
    ensures forall i :: 0 <= i < |lens| ==> 0 < lens[i] <= L.MAX_SUPPORTED
  {
    hide M.Kraft, L.Weight, L.Codes, Pow2;
    KraftIsWeight(lens);
  }

  lemma FewLengths(lens: seq<nat>, limit: nat)
    requires |lens| <= 1 && (|lens| == 1 ==> lens[0] == 1) && 0 < limit <= Canonical.MAX_LEN
    ensures Limited(HistOf(lens), |lens|, limit)
  {
    hide L.Weight;
    var h := HistOf(lens);
    if |lens| == 1 {
      assert lens[..0] == [];
      assert h[1] == 1;
      forall i | 1 < i <= limit ensures h[i] == 0 {
        CountNone(lens, i);
      }
      CountNone(lens, 0);
      TailEmpty(h, 1, limit);
      assert L.Codes(h, 0, 1) == h[1];
    } else {
      forall i | 0 <= i <= limit ensures h[i] == 0 {
        CountNone(lens, i);
      }
      TailEmpty(h, 0, limit);
    }
  }

  lemma {:induction false} TailEmpty(h: seq<int>, a: nat, b: nat)
    requires a <= b < |h| && forall i :: a < i <= b ==> h[i] == 0
    ensures L.Codes(h, 0, b) == L.Codes(h, 0, a)
  {
    if a < b {
      TailEmpty(h, a, b - 1);
    }
  }

  lemma {:induction false} CountRev(s: seq<nat>, l: nat)
    ensures Canonical.Count(P.Rev(s), l) == Canonical.Count(s, l)
  {
    if s == [] {
      assert P.Rev(s) == [];
    } else {
      var n := |s| - 1;
      CountRev(s[..n], l);
      P.RevSnoc(s);
      Canonical.CountSplit([s[n]], P.Rev(s[..n]), l);
      assert [s[n]][..0] == [];
    }
  }

  /** Lengths beyond m become m. */
  function Clamp(d: seq<nat>, m: nat): (e: seq<nat>)
    ensures |e| == |d| && forall q :: 0 <= q < |d| ==> e[q] == if d[q] < m then d[q] else m
  {
    seq(|d|, q requires 0 <= q < |d| => if d[q] < m then d[q] else m)
  }

  function AtLeast(d: seq<nat>, m: nat): nat {
    if d == [] then 0 else AtLeast(d[..|d| - 1], m) + (if d[|d| - 1] >= m then 1 else 0)
  }

  lemma {:induction false} CountClamp(d: seq<nat>, m: nat, l: nat)
    requires l <= m
    ensures Canonical.Count(Clamp(d, m), l) == if l < m then Canonical.Count(d, l) else AtLeast(d, m)
  {
    if d != [] {
      var n := |d| - 1;
      CountClamp(d[..n], m, l);
      assert Clamp(d, m)[..n] == Clamp(d[..n], m);
    }
  }

  lemma {:induction false} AtLeastIs(d: seq<nat>, m: nat)
    requires 0 < m < L.MAX_SUPPORTED && forall i :: 0 <= i < |d| ==> 0 < d[i] <= L.MAX_SUPPORTED
    ensures AtLeast(d, m) == HistOf(d)[m] + L.Codes(HistOf(d), m, L.MAX_SUPPORTED)
  {
    hide L.Codes, HistOf;
    if d == [] {
      NoTail(m, L.MAX_SUPPORTED);
    } else {
      var n := |d| - 1;
      var h := HistOf(d[..n]);
      AtLeastIs(d[..n], m);
      HistPush(d);
      L.CodesUpdate(h, m, L.MAX_SUPPORTED, d[n], h[d[n]] + 1);
    }
  }

  lemma {:induction false} NoTail(m: nat, b: nat)
    requires m <= b <= L.MAX_SUPPORTED
    ensures L.Codes(HistOf([]), m, b) == 0
  {
    if m < b {
      NoTail(m, b - 1);
    }
  }

  /** The clamped lengths, sorted, are what folding makes of the histogram. */
  lemma FoldsOf(w: seq<nat>, lens: seq<nat>, limit: nat)
    requires M.MinimumRedundancy(w, lens) && 0 < limit <= Canonical.MAX_LEN
    ensures L.Folds(HistOf(lens), Clamp(P.Rev(lens), limit), limit)
  {
    hide M.Kraft, M.Cost, M.Sum, M.Fib, L.Codes, Pow2, Canonical.Count, AtLeast;
    var d := P.Rev(lens);
    var e := Clamp(d, limit);
    forall l | 0 < l <= limit ensures Canonical.Count(e, l) == if l < limit then Canonical.Count(lens, l)
        else AtLeast(d, limit) {
      CountClamp(d, limit, l);
      CountRev(lens, l);
    }
    AtLeastIs(d, limit);
    SameHist(lens, d);
  }

  lemma SameHist(lens: seq<nat>, d: seq<nat>)
    requires d == P.Rev(lens)
    ensures HistOf(d) == HistOf(lens)
  {
    hide Canonical.Count;
    forall l: nat ensures Canonical.Count(d, l) == Canonical.Count(lens, l) {
      CountRev(lens, l);
    }
  }

  /** The limited lengths cost little more than the minimum. */
  ghost predicate CheapLengths(w: seq<nat>, lens: seq<nat>, g: seq<nat>) {
    && M.MinimumRedundancy(w, lens) && |g| == |w|
    && 100000 * P.Dot(P.Rev(w), g) <= 100000 * M.Cost(w, lens) + 354 * |w| * M.Sum(w, 0, |w|)
  }

  lemma LimitIsCheap(w: seq<nat>, lens: seq<nat>, g: seq<nat>, x: nat)
    requires M.MinimumRedundancy(w, lens) && |w| <= 320 && S.Touched(Clamp(P.Rev(lens), 15), g, 15, x)
    ensures CheapLengths(w, lens, g)
  {
    hide M.Kraft, M.Cost, M.Sum, M.Fib, Pow2, S.KraftOf, S.Touched, P.Dot;
    var f, d := P.Rev(w), P.Rev(lens);
    P.KraftRev(lens, 22);
    P.KraftIsOf(lens, 22);
    P.TouchedParts(Clamp(d, 15), g, 15, x);
    P.LimitCost(f, d, Clamp(d, 15), g, M.Sum(w, 0, |w|), x);
    P.DotRev(w, lens);
    P.CostIsDot(w, lens);
  }

  /** Minimum-redundancy lengths of the sorted weights, as a limited histogram; g are the limited lengths,
      shortest first. */
  method LimitedLengths(keys: array<nat>, limit: nat)
      returns (numCodes: array<int>, ghost lens: seq<nat>, ghost g: seq<nat>)
    requires M.Sorted(keys[..]) && (forall j :: 0 <= j < keys.Length ==> keys[j] > 0)
        && M.Sum(keys[..], 0, keys.Length) < 65536
    requires keys.Length <= Pow2(limit) && 0 < limit <= Canonical.MAX_LEN && keys.Length <= MAX_SYMBOLS
    modifies keys
    ensures fresh(numCodes) && numCodes.Length == L.MAX_SUPPORTED + 1 && Limited(numCodes[..], keys.Length, limit)
    ensures keys.Length > 1 ==> L.HistIs(numCodes[..], g, limit) && S.Ranked(g, limit) && |g| == keys.Length
    ensures keys.Length > 1 && limit == 15 ==> CheapLengths(old(keys[..]), lens, g)
    ensures keys.Length == 1 ==> numCodes[1] == 1
  {
    hide M.MinimumRedundancy, M.Sorted, M.Sum, L.Codes, L.Weight, Pow2, HistOf, L.Folds, S.Touched, S.Ranked,
        CheapLengths, Canonical.Count;
    var n := keys.Length;
    ghost var w := keys[..];
    M.CalculateMinimumRedundancy(keys);
    lens := keys[..];
    if n > 1 {
      CompleteLengths(w, lens);
      FoldsOf(w, lens, limit);
    } else {
      FewLengths(lens, limit);
    }
    numCodes := CountLengths(keys);
    HistNonNegative(lens);
    OneLength(lens);
    ghost var x;
    g, x := L.EnforceMaxCodeSize(numCodes, n, limit, Clamp(P.Rev(lens), limit));
    if n > 1 {
      RankedResult(Clamp(P.Rev(lens), limit), g, limit, x);
      if limit == 15 {
        LimitIsCheap(w, lens, g, x);
      }
    }
  }

  lemma OneLength(lens: seq<nat>)
    ensures |lens| == 1 && lens[0] == 1 ==> HistOf(lens)[1] == 1
  {
    if |lens| == 1 {
      assert lens[..0] == [];
    }
  }

  lemma RankedResult(e: seq<nat>, g: seq<nat>, m: nat, x: nat)
    requires S.Touched(e, g, m, x)
    ensures S.Ranked(g, m) && |g| == |e|
  {
  }

  lemma HistNonNegative(lens: seq<nat>)
    ensures L.NonNegative(HistOf(lens))
  {
  }

  // ----- the sorted order -----

  lemma {:induction false} TotalMember(s: seq<nat>, i: nat)
    requires i < |s|
    ensures s[i] <= Total(s)
  {
    if i > 0 {
      TotalMember(s[1..], i - 1);
    }
  }

  lemma KeysSmall(s: seq<SymFreq>)
    requires Total(Keys(s)) < 65536
    ensures forall i :: 0 <= i < |s| ==> s[i].key < 65536
  {
    forall i | 0 <= i < |s| ensures s[i].key < 65536 {
      TotalMember(Keys(s), i);
    }
  }

  /** The used symbols, sorted by count: no repetition, none missing. */
  ghost predicate Ordered(t: seq<SymFreq>, counts: seq<nat>) {
    && Distinct(Syms(t)) && M.Sorted(Keys(t))
    && (forall p :: 0 <= p < |t| ==> t[p].sym < |counts| && 0 < t[p].key == counts[t[p].sym])
    && (forall x :: 0 <= x < |counts| && counts[x] > 0 ==> exists p :: 0 <= p < |t| && t[p].sym == x)
  }

  lemma SortedOrder(s: seq<SymFreq>, t: seq<SymFreq>, src: seq<nat>, dst: seq<nat>, counts: seq<nat>)
    requires Gathered(s, counts) && Rearranged(s, t, src, dst) && SortedByKey(t)
    ensures Ordered(t, counts)
  {
    forall p, q | 0 <= p < q < |t| ensures t[p].sym != t[q].sym {
      assert src[p] != src[q];
      assert s[src[p]].sym != s[src[q]].sym;
    }
    forall x | 0 <= x < |counts| && counts[x] > 0 ensures exists p :: 0 <= p < |t| && t[p].sym == x {
      var k :| 0 <= k < |s| && s[k].sym == x;
      assert t[dst[k]].sym == x;
    }
  }

  lemma {:induction false} FewUsed(sizes: seq<nat>, x: nat)
    requires forall i :: 0 <= i < |sizes| && i != x ==> sizes[i] == 0
    ensures Canonical.UsedSyms(sizes) <= 1 && (x >= |sizes| ==> Canonical.UsedSyms(sizes) == 0)
  {
    if sizes != [] {
      FewUsed(sizes[..|sizes| - 1], x);
    }
  }

  lemma AssignedBounded(sizes: seq<nat>, ord: seq<nat>, limit: nat)
    requires Assigned(sizes, ord, 0, limit)
    ensures forall i :: 0 <= i < |sizes| ==> sizes[i] <= limit
    ensures forall i :: 0 <= i < |sizes| ==> (sizes[i] > 0 <==> i in ord)
  {
    assert ord[0..] == ord;
  }

  lemma UsableSizes(h: seq<int>, sizes: seq<nat>, ord: seq<nat>, limit: nat)
    requires Limited(h, |ord|, limit) && Assigned(sizes, ord, 0, limit) && 0 < limit <= Canonical.MAX_LEN
    requires forall l :: 0 < l <= limit ==> Canonical.Count(sizes, l) == h[l]
    ensures Canonical.Usable(sizes)
  {
    hide L.Weight, L.Codes, Canonical.Complete, Canonical.Count, Pow2;
    AssignedBounded(sizes, ord, limit);
    if |ord| > 1 {
      LimitedComplete(h, sizes, limit);
    } else {
      FewUsed(sizes, if |ord| == 1 then ord[0] else |sizes|);
    }
  }

  /** More frequent symbols get no longer codes. */
  lemma FrequentShort(t: seq<SymFreq>, counts: seq<nat>, sizes: seq<nat>, limit: nat)
    requires Ordered(t, counts) && |sizes| == |counts| && Assigned(sizes, Syms(t), 0, limit)
    ensures forall x :: 0 <= x < |counts| ==> sizes[x] <= limit && (sizes[x] > 0 <==> counts[x] > 0)
    ensures forall x, y :: 0 <= x < |counts| && 0 <= y < |counts| && 0 < counts[x] < counts[y] ==> sizes[x] >= sizes[y]
  {
    var ord := Syms(t);
    AssignedBounded(sizes, ord, limit);
    forall x | 0 <= x < |counts| ensures sizes[x] > 0 <==> counts[x] > 0 {
      if counts[x] > 0 {
        var p :| 0 <= p < |t| && t[p].sym == x;
        assert ord[p] == x;
      }
    }
    forall x, y | 0 <= x < |counts| && 0 <= y < |counts| && 0 < counts[x] < counts[y] ensures sizes[x] >= sizes[y] {
      ListedInOrder(t, counts, x, y);
    }
  }

  /** The less frequent of two used symbols is listed first. */
  lemma ListedInOrder(t: seq<SymFreq>, counts: seq<nat>, x: nat, y: nat)
    requires Ordered(t, counts) && x < |counts| && y < |counts| && 0 < counts[x] < counts[y]
    ensures exists p, q :: 0 <= p < q < |t| && Syms(t)[p] == x && Syms(t)[q] == y
  {
    var p :| 0 <= p < |t| && t[p].sym == x;
    var q :| 0 <= q < |t| && t[q].sym == y;
    assert Keys(t)[p] < Keys(t)[q];
    assert p < q;
    assert Syms(t)[p] == x && Syms(t)[q] == y;
  }

  /** The used symbols sorted by count. */
  method SortSymbols(counts: seq<nat>) returns (pSyms: array<SymFreq>, n: nat)
    requires |counts| <= MAX_SYMBOLS && Total(counts) < 65536
    ensures fresh(pSyms) && n <= pSyms.Length && n <= |counts|
    ensures Ordered(pSyms[..n], counts) && Total(Keys(pSyms[..n])) == Total(counts)
  {
    hide Gathered, SortedByKey, Total, Keys, Rearranged;
    var syms0 := new SymFreq[MAX_SYMBOLS](_ => SymFreq(0, 0));
    var syms1 := new SymFreq[MAX_SYMBOLS](_ => SymFreq(0, 0));
    n := Gather(counts, syms0);
    ghost var s := syms0[..n];
    KeysSmall(s);
    ghost var src, dst;
    pSyms, src, dst := RadixSortSyms(n, syms0, syms1);
    SortedTotal(s, pSyms[..n], src, dst);
    SortedOrder(s, pSyms[..n], src, dst, counts);
  }

  // ----- the cost of a table -----

  /** Other lengths for the used symbols, with a Kraft sum of at most one. */
  ghost predicate Rival(counts: seq<nat>, r: seq<nat>) {
    && |r| == |counts| && (forall x :: 0 <= x < |r| && counts[x] > 0 ==> 0 < r[x] <= 15)
       && P.KraftUsed(counts, r, 15) <= Pow2(15)
  }

  /** No rival of at most 15 bits is much cheaper. */
  ghost predicate NearOptimal(counts: seq<nat>, sizes: seq<nat>) {
    |sizes| == |counts| &&
    forall r :: Rival(counts, r) ==>
        100000 * P.Dot(counts, sizes) <= 100000 * P.Dot(counts, r) + 354 * |counts| * Total(counts)
  }

  /** Two sorted lists with the same counts are equal. */
  lemma {:induction false} SortedSame(u: seq<nat>, v: seq<nat>, m: nat)
    requires S.Ranked(u, m) && S.Ranked(v, m) && |u| == |v| && forall l :: 0 < l <= m ==>
        Canonical.Count(u, l) == Canonical.Count(v, l)
    ensures u == v
  {
    hide Canonical.Count;
    if u != [] {
      var n := |u| - 1;
      L.Present(u, n);
      L.Present(v, n);
      var a := L.Somewhere(v, u[n]);
      var b := L.Somewhere(u, v[n]);
      forall l | 0 < l <= m ensures Canonical.Count(u[..n], l) == Canonical.Count(v[..n], l) {
        CountSnoc(u[..n], u[n], l);
        CountSnoc(v[..n], v[n], l);
        assert u == u[..n] + [u[n]] && v == v[..n] + [v[n]];
      }
      SortedSame(u[..n], v[..n], m);
      assert u == u[..n] + [u[n]] && v == v[..n] + [v[n]];
    }
  }

  lemma RankedRev(sizes: seq<nat>, ord: seq<nat>, limit: nat)
    requires forall p :: 0 <= p < |ord| ==> ord[p] < |sizes| && 0 < sizes[ord[p]] <= limit
    requires forall p, q :: 0 <= p < q < |ord| ==> sizes[ord[p]] >= sizes[ord[q]]
    ensures S.Ranked(P.Rev(P.Pick(sizes, ord)), limit)
  {
    var u := P.Pick(sizes, ord);
    var v, n := P.Rev(u), |ord|;
    forall q | 0 <= q < n ensures 0 < v[q] <= limit {
      assert v[q] == u[n - 1 - q] == sizes[ord[n - 1 - q]];
    }
    forall p, q | 0 <= p <= q < n ensures v[p] <= v[q] {
      assert v[p] == u[n - 1 - p] == sizes[ord[n - 1 - p]] && v[q] == u[n - 1 - q] == sizes[ord[n - 1 - q]];
    }
  }

  lemma ListedRanked(sizes: seq<nat>, ord: seq<nat>, v: seq<nat>, limit: nat)
    requires Assigned(sizes, ord, 0, limit) && Listed(sizes, ord, 0, v, limit)
    ensures S.Ranked(v, limit) && (forall p :: 0 <= p < |ord| ==> ord[p] < |sizes|) && v == P.Rev(P.Pick(sizes, ord))
  {
    hide Canonical.Count;
    assert ord[0..] == ord;
    RankedRev(sizes, ord, limit);
  }

  lemma OrderedLists(t: seq<SymFreq>, counts: seq<nat>)
    requires Ordered(t, counts)
    ensures P.Lists(counts, Syms(t)) && P.Pick(counts, Syms(t)) == Keys(t)
  {
    hide M.Sorted;
    var ord := Syms(t);
    forall s | 0 <= s < |counts| && counts[s] > 0 ensures s in ord {
      var p :| 0 <= p < |t| && t[p].sym == s;
      assert ord[p] == s;
    }
  }

  /** A rival of the symbols, in sorted order. */
  lemma RivalPicked(counts: seq<nat>, r: seq<nat>, ord: seq<nat>)
    requires P.Lists(counts, ord) && Rival(counts, r)
    ensures |r| == |counts| && (forall p :: 0 <= p < |ord| ==> ord[p] < |counts|)
    ensures M.Feasible(P.Pick(r, ord), |ord|, 15) && M.Cost(P.Pick(counts, ord), P.Pick(r, ord)) == P.Dot(counts, r)
  {
    hide M.Kraft, M.Cost, P.Dot, P.KraftUsed, S.KraftOf, Pow2;
    P.KraftPerm(counts, r, ord, 15);
    P.KraftIsOf(P.Pick(r, ord), 15);
    P.DotPerm(counts, r, ord);
    P.CostIsDot(P.Pick(counts, ord), P.Pick(r, ord));
  }

  lemma CheapTable(counts: seq<nat>, ord: seq<nat>, sizes: seq<nat>, lens: seq<nat>, g: seq<nat>)
    requires P.Lists(counts, ord) && |sizes| == |counts| && |ord| <= |counts|
    requires CheapLengths(P.Pick(counts, ord), lens, g) && g == P.Rev(P.Pick(sizes, ord))
    requires M.Sum(P.Pick(counts, ord), 0, |ord|) == Total(counts)
    ensures NearOptimal(counts, sizes)
  {
    hide M.MinimumRedundancy, M.Feasible, M.Cost, M.Sum, P.Dot, Total, P.KraftUsed, Pow2;
    var w := P.Pick(counts, ord);
    P.DotRev(w, P.Pick(sizes, ord));
    P.DotPerm(counts, sizes, ord);
    forall r | Rival(counts, r)
      ensures 100000 * P.Dot(counts, sizes) <= 100000 * P.Dot(counts, r) + 354 * |counts| * Total(counts)
    {
      RivalPicked(counts, r, ord);
      MinCost(w, lens, P.Pick(r, ord));
      Chain(P.Dot(counts, sizes), M.Cost(w, lens), P.Dot(counts, r), |ord|, |counts|, Total(counts));
    }
  }

  lemma MinCost(w: seq<nat>, lens: seq<nat>, rival: seq<nat>)
    requires M.MinimumRedundancy(w, lens) && M.Feasible(rival, |w|, 15)
    ensures |lens| == |w| == |rival| && M.Cost(w, lens) <= M.Cost(w, rival)
  {
    hide M.Kraft, M.Cost, M.Fib, M.Sum, Pow2;
  }

  lemma Chain(a: nat, b: nat, c: nat, n: nat, k: nat, total: nat)
    requires 100000 * a <= 100000 * b + 354 * n * total && b <= c && n <= k
    ensures 100000 * a <= 100000 * c + 354 * k * total
  {
    MulMono(354 * n, 354 * k, total);
  }

  /** One symbol has a code of one bit, none costs nothing. */
  lemma FewCheap(counts: seq<nat>, ord: seq<nat>, sizes: seq<nat>)
    requires P.Lists(counts, ord) && |sizes| == |counts| && |ord| <= 1 && (|ord| == 1 ==> sizes[ord[0]] == 1)
    ensures NearOptimal(counts, sizes)
  {
    hide P.KraftUsed, P.Dot, Pow2, Total;
    forall r | Rival(counts, r)
      ensures 100000 * P.Dot(counts, sizes) <= 100000 * P.Dot(counts, r) + 354 * |counts| * Total(counts)
    {
      OneCheapest(counts, ord, sizes, r);
    }
  }

  lemma OneCheapest(counts: seq<nat>, ord: seq<nat>, sizes: seq<nat>, r: seq<nat>)
    requires P.Lists(counts, ord) && |sizes| == |counts| && |ord| <= 1 && (|ord| == 1 ==> sizes[ord[0]] == 1)
    requires Rival(counts, r)
    ensures P.Dot(counts, sizes) <= P.Dot(counts, r)
  {
    hide P.KraftUsed, P.Dot, Pow2;
    P.DotPerm(counts, sizes, ord);
    P.DotPerm(counts, r, ord);
    if ord == [] {
      assert P.Pick(sizes, ord) == [] == P.Pick(r, ord);
    } else {
      var c := counts[ord[0]];
      assert P.Pick(counts, ord) == [c] && P.Pick(sizes, ord) == [1] && P.Pick(r, ord) == [r[ord[0]]];
      P.DotOne(c, 1);
      P.DotOne(c, r[ord[0]]);
      MulMono(1, r[ord[0]], c);
    }
  }

  /** Lengths and codes from symbol counts: exactly the used symbols get codes, more frequent symbols get
      no longer codes, the code is complete unless fewer than two symbols are used, and at a limit of 15 it is nearly as
      cheap as any. */
  method OptimizeTable(counts: seq<nat>, limit: nat) returns (sizes: array<nat>, codes: array<nat>)
    requires |counts| <= MAX_SYMBOLS && Total(counts) < 65536 && |counts| <= Pow2(limit)
        && 0 < limit <= Canonical.MAX_LEN
    ensures fresh(sizes) && fresh(codes) && TableFor(counts, sizes[..], codes[..], limit)
    ensures limit == 15 ==> NearOptimal(counts, sizes[..])
  {
    hide M.Sum, Limited, Canonical.Usable, Canonical.Count, Pow2, CodesFor, Assigned, Total, Listed, S.Ranked,
        CheapLengths, NearOptimal;
    var pSyms, n := SortSymbols(counts);
    ghost var t := pSyms[..n];
    var keys := new nat[n](i requires 0 <= i < n && n <= pSyms.Length reads pSyms => pSyms[i].key);
    assert keys[..] == Keys(t);
    TotalIsSum(Keys(t), 0);
    assert Keys(t)[0..] == Keys(t);
    var ord := seq(n, i requires 0 <= i < n && n <= pSyms.Length reads pSyms => pSyms[i].sym);
    assert ord == Syms(t);
    ghost var lens, g;
    var numCodes;
    numCodes, lens, g := LimitedLengths(keys, limit);
    ghost var h := numCodes[..];
    LimitedParts(h, n, limit);
    ghost var v;
    sizes, v := AssignSizes(ord, numCodes, limit, |counts|);
    AssignedBounded(sizes[..], ord, limit);
    UsableSizes(h, sizes[..], ord, limit);
    FrequentShort(t, counts, sizes[..], limit);
    if limit == 15 {
      TableIsCheap(counts, t, sizes[..], numCodes[..], lens, g, v);
    }
    codes := AssignCodes(sizes, numCodes, limit);
  }

  lemma TableIsCheap(counts: seq<nat>, t: seq<SymFreq>, sizes: seq<nat>, h: seq<int>, lens: seq<nat>, g: seq<nat>,
      v: seq<nat>)
    requires Ordered(t, counts) && |t| <= |counts| == |sizes| && M.Sum(Keys(t), 0, |t|) == Total(counts)
    requires Assigned(sizes, Syms(t), 0, 15) && Listed(sizes, Syms(t), 0, v, 15) && |h| > 15
    requires forall l :: 0 < l <= 15 ==> Canonical.Count(sizes, l) == h[l]
    requires |t| > 1 ==> L.HistIs(h, g, 15) && S.Ranked(g, 15) && |g| == |t| && CheapLengths(Keys(t), lens, g)
    requires |t| == 1 ==> h[1] == 1
    ensures NearOptimal(counts, sizes)
  {
    hide M.Sum, Canonical.Count, Total, S.Ranked, CheapLengths, NearOptimal, Assigned, Ordered, P.Lists;
    var ord := Syms(t);
    OrderedLists(t, counts);
    ListedRanked(sizes, ord, v, 15);
    if |t| > 1 {
      SortedSame(v, g, 15);
      CheapTable(counts, ord, sizes, lens, g);
    } else {
      if |t| == 1 {
        LoneSize(sizes, ord, v);
      }
      FewCheap(counts, ord, sizes);
    }
  }

  lemma LoneSize(sizes: seq<nat>, ord: seq<nat>, v: seq<nat>)
    requires |ord| == 1 && ord[0] < |sizes| && Listed(sizes, ord, 0, v, 15) && Canonical.Count(sizes, 1) == 1
    ensures sizes[ord[0]] == 1
  {
    hide Canonical.Count;
    assert ord[0..] == ord;
    var a := L.Somewhere(v, 1);
  }

  lemma LimitedParts(h: seq<int>, n: nat, limit: nat)
    requires Limited(h, n, limit)
    ensures 0 < limit < |h| && (forall i :: 0 <= i <= limit ==> h[i] >= 0) && L.Codes(h, 0, limit) == n
  {
  }

  /** The codes of given lengths, as for the fixed blocks. */
  method StaticTable(lens: seq<nat>) returns (codes: array<nat>)
    requires Canonical.Short(lens)
    ensures fresh(codes) && CodesFor(codes[..], lens)
  {
    hide Canonical.Count, CodesFor;
    var numCodes := new int[L.MAX_SUPPORTED + 1](_ => 0);
    assert lens[..0] == [];
    forall l ensures Canonical.Count([], l) == 0 {
      CountNone([], l);
    }
    for i := 0 to |lens|
      invariant forall l :: 0 <= l < numCodes.Length ==> numCodes[l] == Canonical.Count(lens[..i], l)
    {
      Canonical.CountStep(lens, i);
      numCodes[lens[i]] := numCodes[lens[i]] + 1;
    }
    assert lens[..|lens|] == lens;
    var sizes := new nat[|lens|](i requires 0 <= i < |lens| => lens[i]);
    assert sizes[..] == lens;
    codes := AssignCodes(sizes, numCodes, Canonical.MAX_LEN);
  }

  // ----- trailing unused symbols -----

  lemma {:induction false} ZerosUncounted(a: seq<nat>, b: seq<nat>, l: nat)
    requires l > 0 && forall i :: 0 <= i < |b| ==> b[i] == 0
    ensures Canonical.Count(a + b, l) == Canonical.Count(a, l)
  {
    Canonical.CountSplit(a, b, l);
    CountNone(b, l);
  }

  lemma {:induction false} SameFirst(a: seq<nat>, b: seq<nat>, l: nat)
    requires forall k :: 0 < k < l ==> Canonical.Count(a, k) == Canonical.Count(b, k)
    ensures Canonical.NextCode(a, l) == Canonical.NextCode(b, l)
  {
    if l > 1 {
      SameFirst(a, b, l - 1);
    }
  }

  lemma {:induction false} ZerosUnused(a: seq<nat>, b: seq<nat>)
    requires forall i :: 0 <= i < |b| ==> b[i] == 0
    ensures Canonical.UsedSyms(a + b) == Canonical.UsedSyms(a)
  {
    if b == [] {
      assert a + b == a;
    } else {
      var n := |b| - 1;
      assert (a + b)[..|a + b| - 1] == a + b[..n];
      ZerosUnused(a, b[..n]);
    }
  }

  /** Leaving out trailing symbols without codes changes no code. */
  lemma TrimTable(lens: seq<nat>, n: nat)
    requires n <= |lens| && Canonical.Usable(lens) && forall i :: n <= i < |lens| ==> lens[i] == 0
    ensures Canonical.Usable(lens[..n])
    ensures forall s :: 0 <= s < n && lens[s] > 0 ==> Canonical.SymBits(lens[..n], s) == Canonical.SymBits(lens, s)
  {
    hide Canonical.Count, Canonical.NextCode, Canonical.UsedSyms;
    var a, b := lens[..n], lens[n..];
    assert lens == a + b;
    forall l: nat | l > 0 ensures Canonical.Count(a, l) == Canonical.Count(lens, l)
        && Canonical.NextCode(a, l) == Canonical.NextCode(lens, l) {
      forall k | 0 < k <= l ensures Canonical.Count(a, k) == Canonical.Count(lens, k) {
        ZerosUncounted(a, b, k);
      }
      SameFirst(a, lens, l);
    }
    ZerosUnused(a, b);
    forall s | 0 <= s < n && lens[s] > 0 ensures Canonical.SymBits(a, s) == Canonical.SymBits(lens, s) {
      assert a[..s] == lens[..s];
    }
  }
}
