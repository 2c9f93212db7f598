/** Limiting the code lengths of a complete code: the histogram of code lengths is pushed below the
    limit while the Kraft sum is brought back to exactly one. */
module LengthLimiter {
  import opened Bits
  import opened SortedLengths
  import Canonical

  const MAX_SUPPORTED: nat := 32

  /** Kraft sum of the lengths 1..i, in units of 2^-m. */
  function Weight(h: seq<int>, m: nat, i: nat): int
    requires i < |h| && i <= m
  {
    if i == 0 then 0 else Weight(h, m, i - 1) + h[i] * Pow2(m - i)
  }

  /** Number of codes with lengths a+1..b. */
  function Codes(h: seq<int>, a: nat, b: nat): int
    requires a <= b < |h|
  {
    if a == b then 0 else Codes(h, a, b - 1) + h[b]
  }

  ghost predicate NonNegative(h: seq<int>) {
    forall i :: 0 <= i < |h| ==> h[i] >= 0
  }

  lemma {:induction false} WeightUpdate(h: seq<int>, m: nat, i: nat, x: nat, v: int)
    requires i < |h| && i <= m && 0 < x < |h| && x <= m
    ensures Weight(h[x := v], m, i) == Weight(h, m, i) + (if x <= i then (v - h[x]) * Pow2(m - x) else 0)
  {
    if i > 0 {
      WeightUpdate(h, m, i - 1, x, v);
      if x == i {
        Expand(v, h[x], Pow2(m - x));
      }
    }
  }

  lemma Expand(a: int, b: int, p: int)
    ensures a * p == b * p + (a - b) * p
  {
  }

  lemma {:induction false} CodesUpdate(h: seq<int>, a: nat, b: nat, x: nat, v: int)
    requires a <= b < |h| && x < |h|
    ensures Codes(h[x := v], a, b) == Codes(h, a, b) + (if a < x <= b then v - h[x] else 0)
  {
    if a < b {
      CodesUpdate(h, a, b - 1, x, v);
    }
  }

  lemma {:induction false} CodesSplit(h: seq<int>, a: nat, b: nat, c: nat)
    requires a <= b <= c < |h|
    ensures Codes(h, a, c) == Codes(h, a, b) + Codes(h, b, c)
  {
    if b < c {
      CodesSplit(h, a, b, c - 1);
    }
  }

  /** In finer units the weight grows by the factor between them. */
  lemma {:induction false} WeightScale(h: seq<int>, m: nat, k: nat, i: nat)
    requires i < |h| && i <= m <= k
    ensures Weight(h, k, i) == Weight(h, m, i) * Pow2(k - m)
  {
    if i > 0 {
      WeightScale(h, m, k, i - 1);
      Pow2Add(m - i, k - m);
      Factor(Weight(h, m, i - 1), h[i], Pow2(m - i), Pow2(k - m));
    }
  }

  lemma Factor(a: int, b: int, p: int, q: int)
    ensures (a + b * p) * q == a * q + b * (p * q)
  {
    assert b * p * q == b * (p * q);
  }

  /** Codes beyond m weigh at least one unit of 2^-k each. */
  lemma {:induction false} TailWeight(h: seq<int>, m: nat, k: nat, i: nat)
    requires NonNegative(h) && m <= i <= k && i < |h|
    ensures Weight(h, k, i) - Weight(h, k, m) >= Codes(h, m, i)
    ensures m < k ==> 2 * (Weight(h, k, i) - Weight(h, k, m)) <= Codes(h, m, i) * Pow2(k - m)
  {
    if m < i {
      TailWeight(h, m, k, i - 1);
      Pow2Mono(k - i, k - m - 1);
      Bounds(h[i], Pow2(k - i), Pow2(k - m - 1));
      Expand2(Codes(h, m, i - 1), h[i], Pow2(k - m));
    }
  }

  lemma Bounds(a: int, p: nat, q: nat)
    requires a >= 0 && 1 <= p <= q
    ensures a <= a * p && 2 * (a * p) <= a * (2 * q)
  {
    assert a * (p - 1) >= 0;
    assert a * (q - p) >= 0;
  }

  lemma Expand2(a: int, b: int, p: int)
    ensures (a + b) * p == a * p + b * p
  {
  }

  /** A complete histogram: the Kraft sum of all the supported lengths is one. */
  ghost predicate CompleteHist(h: seq<int>) {
    |h| == MAX_SUPPORTED + 1 && NonNegative(h) && Weight(h, MAX_SUPPORTED, MAX_SUPPORTED) == Pow2(MAX_SUPPORTED)
  }

  /** After folding the long codes onto length m the sum exceeds one by at most the codes folded. */
  lemma FoldExcess(h: seq<int>, m: nat)
    requires CompleteHist(h) && 0 < m < MAX_SUPPORTED
    ensures var total := Weight(h, m, m) + Codes(h, m, MAX_SUPPORTED);
            0 <= total - Pow2(m) <= Codes(h, m, MAX_SUPPORTED)
  {
    var k := MAX_SUPPORTED;
    var w, f, d := Weight(h, m, m), Codes(h, m, k), Pow2(k - m);
    WeightScale(h, m, k, m);
    TailWeight(h, m, k, k);
    CodesNonNegative(h, m, k);
    WeightNonNegative(h, m, m);
    Pow2Add(m, k - m);
    Squeeze(w, f, Pow2(m), d);
  }

  lemma {:induction false} WeightNonNegative(h: seq<int>, m: nat, i: nat)
    requires NonNegative(h) && i < |h| && i <= m
    ensures Weight(h, m, i) >= 0
  {
    if i > 0 {
      WeightNonNegative(h, m, i - 1);
      assert h[i] * Pow2(m - i) >= 0;
    }
  }

  lemma {:induction false} CodesNonNegative(h: seq<int>, a: nat, b: nat)
    requires NonNegative(h) && a <= b < |h|
    ensures Codes(h, a, b) >= 0
  {
    if a < b {
      CodesNonNegative(h, a, b - 1);
    }
  }

  /** w*d + T = p*d with f <= T and 2T <= f*d put w + f between p and p + f. */
  lemma Squeeze(w: nat, f: nat, p: nat, d: nat)
    requires d >= 1 && w * d <= p * d - f && 2 * (p * d - w * d) <= f * d
    ensures 0 <= w + f - p <= f
  {
    MulCancel(w, p, d);
    Expand(2 * p, 2 * w, d);
    MulCancel(2 * (p - w), f, d);
  }

  lemma {:induction false} EmptyBelow(h: seq<int>, m: nat, i: nat)
    requires i < |h| && i <= m && forall j :: 0 < j <= i ==> h[j] == 0
    ensures Weight(h, m, i) == 0 && Codes(h, 0, i) == 0
  {
    if i > 0 {
      EmptyBelow(h, m, i - 1);
    }
  }

  /** If only length m is in use, the sum is the number of codes. */
  lemma OnlyLongest(h: seq<int>, m: nat)
    requires 0 < m < |h| && forall j :: 0 < j < m ==> h[j] == 0
    ensures Weight(h, m, m) == Codes(h, 0, m)
  {
    EmptyBelow(h, m, m - 1);
    assert Pow2(m - m) == 1;
  }

  /** One round: take a code off length m, split the longest shorter code i into two of length i + 1. */
  function Donate(h: seq<int>, m: nat, i: nat): seq<int>
    requires 0 < i < m < |h|
  {
    var h1 := h[m := h[m] - 1];
    var h2 := h1[i := h1[i] - 1];
    h2[i + 1 := h2[i + 1] + 2]
  }

  lemma DonateEffect(h: seq<int>, m: nat, i: nat)
    requires 0 < i < m < |h|
    ensures Weight(Donate(h, m, i), m, m) == Weight(h, m, m) - 1
    ensures Codes(Donate(h, m, i), 0, m) == Codes(h, 0, m)
  {
    var h1 := h[m := h[m] - 1];
    var h2 := h1[i := h1[i] - 1];
    WeightUpdate(h, m, m, m, h[m] - 1);
    WeightUpdate(h1, m, m, i, h1[i] - 1);
    WeightUpdate(h2, m, m, i + 1, h2[i + 1] + 2);
    CodesUpdate(h, 0, m, m, h[m] - 1);
    CodesUpdate(h1, 0, m, i, h1[i] - 1);
    CodesUpdate(h2, 0, m, i + 1, h2[i + 1] + 2);
    assert Pow2(m - m) == 1;
    assert Pow2(m - i) == 2 * Pow2(m - (i + 1));
  }

  /** Fold the codes longer than m onto length m. */
  method FoldLong(numCodes: array<int>, m: nat)
    requires numCodes.Length == MAX_SUPPORTED + 1 && 0 < m < MAX_SUPPORTED && NonNegative(numCodes[..])
    modifies numCodes
    ensures numCodes[..] == old(numCodes[..])[m := old(numCodes[m]) + Codes(old(numCodes[..]), m, MAX_SUPPORTED)]
  {
    ghost var h := numCodes[..];
    for i := m + 1 to MAX_SUPPORTED + 1
      invariant numCodes[..] == h[m := h[m] + Codes(h, m, i - 1)]
    {
      numCodes[m] := numCodes[m] + numCodes[i];
    }
  }

  /** The Kraft sum of the lengths up to m, in units of 2^-m. */
  method TotalWeight(numCodes: array<int>, m: nat) returns (total: int)
    requires numCodes.Length == MAX_SUPPORTED + 1 && 0 < m < MAX_SUPPORTED
    ensures total == Weight(numCodes[..], m, m)
  {
    total := 0;
    var i := m;
    while i > 0
      invariant 0 <= i <= m && total == Weight(numCodes[..], m, m) - Weight(numCodes[..], m, i)
    {
      total := total + numCodes[i] * Pow2(m - i);
      i := i - 1;
    }
  }

  /** The state of the reduction: the excess never exceeds the number of codes of length m. */
  ghost predicate Reducing(h: seq<int>, m: nat, n: int, total: int)
    requires 0 < m < |h|
  {
    && 0 <= total - Pow2(m) <= h[m] && total == Weight(h, m, m) && Codes(h, 0, m) == n
    && forall i :: 0 <= i <= m ==> h[i] >= 0
  }

  lemma StartReducing(h: seq<int>, m: nat, h': seq<int>)
    requires 0 < m < MAX_SUPPORTED && CompleteHist(h) && h' == h[m := h[m] + Codes(h, m, MAX_SUPPORTED)]
    ensures Reducing(h', m, Codes(h, 0, MAX_SUPPORTED), Weight(h', m, m))
  {
    hide Weight, Codes;
    FoldExcess(h, m);
    CodesNonNegative(h, m, MAX_SUPPORTED);
    CodesSplit(h, 0, m, MAX_SUPPORTED);
    WeightUpdate(h, m, m, m, h'[m]);
    CodesUpdate(h, 0, m, m, h'[m]);
    assert Pow2(m - m) == 1;
  }

  /** The histogram of lengths up to m. */
  ghost predicate HistIs(h: seq<int>, g: seq<nat>, m: nat) {
    m < |h| && forall l :: 0 < l <= m ==> h[l] == Canonical.Count(g, l)
  }

  /** The histogram whose lengths beyond m are to be folded onto m. */
  ghost predicate Folds(h: seq<int>, e: seq<nat>, m: nat) {
    && |h| == MAX_SUPPORTED + 1 && 0 < m < MAX_SUPPORTED && Ranked(e, m)
    && (forall l :: 0 < l < m ==> h[l] == Canonical.Count(e, l))
    && h[m] + Codes(h, m, MAX_SUPPORTED) == Canonical.Count(e, m)
  }

  /** The Kraft sum read off the histogram. */
  lemma {:induction false} HistKraft(h: seq<int>, g: seq<nat>, m: nat)
    requires HistIs(h, g, m) && Ranked(g, m)
    ensures Weight(h, m, m) == KraftOf(g, m)
    decreases |g|
  {
    hide Weight;
    if g == [] {
      NoHist(h, m, m);
    } else {
      var n := |g| - 1;
      var x := g[n];
      var h' := h[x := h[x] - 1];
      HistKraft(h', g[..n], m);
      WeightUpdate(h, m, m, x, h[x] - 1);
    }
  }

  lemma {:induction false} NoHist(h: seq<int>, m: nat, i: nat)
    requires i <= m < |h| && forall l :: 0 < l <= m ==> h[l] == Canonical.Count([], l)
    ensures Weight(h, m, i) == 0
  {
    if i > 0 {
      NoHist(h, m, i - 1);
    }
  }

  /** A donation in the histogram and in the sorted lengths. */
  lemma DonateSplit(h: seq<int>, e: seq<nat>, g: seq<nat>, m: nat, i: nat, x: nat, total: int)
      returns (g': seq<nat>, y: nat)
    requires 0 < i < m < |h| && h[i] > 0 && h[m] > 0 && (forall j :: i < j < m ==> h[j] == 0)
    requires HistIs(h, g, m) && Touched(e, g, m, x) && KraftIs(g, m, total) && total > Pow2(m)
    ensures HistIs(Donate(h, m, i), g', m) && Touched(e, g', m, y) && KraftIs(g', m, total - 1)
  {
    hide KraftOf, Canonical.Count, Pow2;
    var c := FindShort(g, m, |g|);
    LongestShort(h, g, m, i, c);
    y := TouchedNext(e, g, m, x, c);
    g' := Split(g, c);
    SplitRanked(g, m, c);
    forall l | 0 < l <= m ensures Donate(h, m, i)[l] == Canonical.Count(g', l) {
      SplitCounts(g, m, c, l);
    }
  }

  /** The last short length is the donor's. */
  lemma LongestShort(h: seq<int>, g: seq<nat>, m: nat, i: nat, c: nat)
    requires 0 < i < m < |h| && h[i] > 0 && h[m] > 0 && (forall j :: i < j < m ==> h[j] == 0)
    requires HistIs(h, g, m) && Ranked(g, m) && ShortOnes(g, m, c)
    ensures 0 < c < |g| && g[c - 1] == i
  {
    hide Canonical.Count;
    var a := Somewhere(g, i);
    var b := Somewhere(g, m);
    Present(g, c - 1);
  }

  lemma Present(g: seq<nat>, q: nat)
    requires q < |g|
    ensures Canonical.Count(g, g[q]) > 0
  {
    hide Canonical.Count;
    Canonical.CountBefore(g, q, |g|, g[q]);
    assert g[..|g|] == g;
  }

  lemma {:induction false} Somewhere(g: seq<nat>, l: nat) returns (a: nat)
    requires Canonical.Count(g, l) > 0
    ensures a < |g| && g[a] == l
  {
    var n := |g| - 1;
    if g[n] == l {
      a := n;
    } else {
      a := Somewhere(g[..n], l);
    }
  }

  /** Limit the lengths to m: the sum becomes exactly one, no code is lost, no count goes negative. The lengths e,
      sorted, become g; codes before x keep their length, and x tells how crowded the rest was. */
  method EnforceMaxCodeSize(numCodes: array<int>, codeListLen: nat, m: nat, ghost e: seq<nat>)
      returns (ghost g: seq<nat>, ghost x: nat)
    requires numCodes.Length == MAX_SUPPORTED + 1 && 0 < m < MAX_SUPPORTED && NonNegative(numCodes[..])
    requires codeListLen > 1 ==>
              CompleteHist(numCodes[..]) && Codes(numCodes[..], 0, MAX_SUPPORTED) == codeListLen <= Pow2(m)
    requires codeListLen > 1 ==> Folds(numCodes[..], e, m)
    modifies numCodes
    ensures codeListLen <= 1 ==> numCodes[..] == old(numCodes[..])
    ensures codeListLen > 1 ==>
              && Weight(numCodes[..], m, m) == Pow2(m) && Codes(numCodes[..], 0, m) == codeListLen
              && forall i :: 0 <= i <= m ==> numCodes[i] >= 0
    ensures codeListLen > 1 ==> HistIs(numCodes[..], g, m) && Touched(e, g, m, x)
  {
    hide KraftIs, CompleteHist, Weight, Codes, Pow2, Touched, KraftOf, Canonical.Count, Ranked;
    g, x := e, |e|;
    if codeListLen <= 1 { return; }
    ghost var h := numCodes[..];
    FoldLong(numCodes, m);
    StartReducing(h, m, numCodes[..]);
    StartTouched(numCodes[..], e, m);
    var total := TotalWeight(numCodes, m);
    while total != Pow2(m)
      invariant Reducing(numCodes[..], m, codeListLen, total)
      invariant HistIs(numCodes[..], g, m) && Touched(e, g, m, x) && KraftIs(g, m, total)
      decreases total - Pow2(m)
    {
      ghost var before := numCodes[..];
      var i := FindDonor(numCodes, m, codeListLen, total);
      DonateEffect(before, m, i);
      g, x := DonateSplit(before, e, g, m, i, x, total);
      numCodes[m] := numCodes[m] - 1;
      numCodes[i] := numCodes[i] - 1;
      numCodes[i + 1] := numCodes[i + 1] + 2;
      assert numCodes[..] == Donate(before, m, i);
      total := total - 1;
    }
  }

  ghost predicate KraftIs(g: seq<nat>, m: nat, total: int) {
    (forall q :: 0 <= q < |g| ==> g[q] <= m) && KraftOf(g, m) == total
  }

  lemma StartTouched(h: seq<int>, e: seq<nat>, m: nat)
    requires HistIs(h, e, m) && Ranked(e, m)
    ensures Touched(e, e, m, |e|) && KraftIs(e, m, Weight(h, m, m))
  {
    hide KraftOf, Weight;
    assert e[..|e|] == e;
    HistKraft(h, e, m);
  }

  /** The longest length in use below m; one exists while the sum is too large. */
  method FindDonor(numCodes: array<int>, m: nat, codeListLen: nat, total: int) returns (i: nat)
    requires numCodes.Length == MAX_SUPPORTED + 1 && 0 < m < MAX_SUPPORTED && codeListLen <= Pow2(m) < total
    requires total == Weight(numCodes[..], m, m) && Codes(numCodes[..], 0, m) == codeListLen
    requires forall j :: 0 <= j <= m ==> numCodes[j] >= 0
    ensures 0 < i < m && numCodes[i] > 0 && forall j :: i < j < m ==> numCodes[j] == 0
  {
    i := m - 1;
    while i > 0
      invariant i < m && forall j :: i < j < m ==> numCodes[j] == 0
    {
      if numCodes[i] != 0 { return; }
      i := i - 1;
    }
    OnlyLongest(numCodes[..], m);
    assert false;
  }
}
