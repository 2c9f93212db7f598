/** What limiting code lengths to 15 bits costs: little, because only rare symbols' codes grow. */
module Penalty {
  import opened Bits
  import opened SortedLengths
  import M = MinRedundancy

  /** Total length of all occurrences. */
  function Dot(f: seq<nat>, g: seq<nat>): nat
    requires |f| == |g|
  {
    if f == [] then 0 else Dot(f[..|f| - 1], g[..|f| - 1]) + f[|f| - 1] * g[|f| - 1]
  }

  /** Sorted minimum-redundancy lengths d for the frequencies f, clamped to e and limited to g. */
  ghost predicate Limited(f: seq<nat>, d: seq<nat>, e: seq<nat>, g: seq<nat>, W: nat, x: nat) {
    && |f| == |d| == |e| && |f| <= 320 && Ranked(d, 22) && Touched(e, g, 15, x)
    && (forall q :: 0 <= q < |d| ==> e[q] == if d[q] < 15 then d[q] else 15)
    && KraftOf(d, 22) == Pow2(22)
    && forall q :: 0 <= q < |d| ==> f[q] * M.Fib(d[q] + 1) <= W
  }

  /** What the short codes from x on could grow at most. */
  function Growth(f: seq<nat>, e: seq<nat>, x: nat, k: nat): nat
    requires x <= k <= |f| == |e| && forall q :: 0 <= q < |e| ==> e[q] <= 15
  {
    if k == x then 0 else Growth(f, e, x, k - 1) + (if e[k - 1] < 15 then f[k - 1] * (15 - e[k - 1]) else 0)
  }

  /** The 15-bit codes that those short codes stand for. */
  function Slots(e: seq<nat>, x: nat, k: nat): nat
    requires x <= k <= |e| && forall q :: 0 <= q < |e| ==> e[q] <= 15
  {
    if k == x then 0 else Slots(e, x, k - 1) + (if e[k - 1] < 15 then Pow2(15 - e[k - 1]) else 0)
  }

  lemma Fibs()
    ensures M.Fib(8) == 21 && M.Fib(9) == 34 && M.Fib(10) == 55 && M.Fib(11) == 89 && M.Fib(12) == 144
        && M.Fib(13) == 233
    ensures M.Fib(14) == 377 && M.Fib(15) == 610
  {
    assert M.Fib(5) == 5 && M.Fib(6) == 8;
  }

  /** A short code is rare for its length: the Fibonacci numbers outgrow what it could still grow. */
  lemma TermBound(f: nat, l: nat, W: nat)
    requires 7 <= l < 15 && f * M.Fib(l + 1) <= W
    ensures 100000 * (f * (15 - l)) <= 177 * W * Pow2(15 - l)
  {
    Fibs();
    assert Pow2(1) == 2 && Pow2(2) == 4 && Pow2(3) == 8 && Pow2(4) == 16 && Pow2(5) == 32 && Pow2(6) == 64
        && Pow2(7) == 128 && Pow2(8) == 256;
    hide M.Fib, Pow2;
    assert l == 7 || l == 8 || l == 9 || l == 10 || l == 11 || l == 12 || l == 13 || l == 14;
  }

  lemma {:induction false} GrowthBound(f: seq<nat>, d: seq<nat>, e: seq<nat>, g: seq<nat>, W: nat, x: nat, k: nat)
    requires Limited(f, d, e, g, W, x) && x <= k <= |f| && forall q :: x <= q < |e| ==> e[q] >= 7
    ensures 100000 * Growth(f, e, x, k) <= 177 * W * Slots(e, x, k)
    decreases k
  {
    hide M.Fib, Pow2, KraftOf;
    if k > x {
      GrowthBound(f, d, e, g, W, x, k - 1);
      if e[k - 1] < 15 {
        TermBound(f[k - 1], e[k - 1], W);
        Spread(177 * W, Slots(e, x, k - 1), Pow2(15 - e[k - 1]));
      }
    }
  }

  lemma Spread(a: nat, b: nat, c: nat)
    ensures a * (b + c) == a * b + a * c
  {
  }

  lemma TermGrows(f: nat, g: nat, d: nat, e: nat)
    requires g <= 15 && e == if d < 15 then d else 15
    ensures f * g <= f * d + (if e < 15 then f * (15 - e) else 0)
    ensures g <= d ==> f * g <= f * d
  {
    MulMono(g, 15, f);
    if d < 15 {
      Spread(f, d, 15 - d);
    } else {
      MulMono(15, d, f);
    }
    if g <= d {
      MulMono(g, d, f);
    }
  }

  /** Limiting lengthens no code by more than its growth. */
  lemma {:induction false} DotGrows(f: seq<nat>, d: seq<nat>, e: seq<nat>, g: seq<nat>, W: nat, x: nat, k: nat)
    requires Limited(f, d, e, g, W, x) && k <= |f|
    ensures Dot(f[..k], g[..k]) <= Dot(f[..k], d[..k]) + (if k < x then 0 else Growth(f, e, x, k))
    decreases k
  {
    hide M.Fib, Pow2, KraftOf, Touched;
    TouchedParts(e, g, 15, x);
    if k > 0 {
      DotGrows(f, d, e, g, W, x, k - 1);
      assert f[..k][..k - 1] == f[..k - 1] && g[..k][..k - 1] == g[..k - 1] && d[..k][..k - 1] == d[..k - 1];
      if k <= x {
        assert g[k - 1] == g[..x][k - 1] == e[k - 1] <= d[k - 1];
      }
      TermGrows(f[k - 1], g[k - 1], d[k - 1], e[k - 1]);
    }
  }

  lemma TouchedParts(e: seq<nat>, g: seq<nat>, m: nat, x: nat)
    requires Touched(e, g, m, x)
    ensures |g| == |e| && x <= |e| && g[..x] == e[..x] && forall q :: 0 <= q < |g| ==> g[q] <= m && e[q] <= m
  {
    hide KraftOf;
  }

  /** The short codes up to k, in units of 2^-22 and of 2^-15. */
  lemma {:induction false} ShortKraft(d: seq<nat>, e: seq<nat>)
    requires |d| == |e| && forall q :: 0 <= q < |d| ==> e[q] == d[q] < 15
    ensures KraftOf(d, 22) == 128 * KraftOf(e, 15)
  {
    if d != [] {
      var n := |d| - 1;
      ShortKraft(d[..n], e[..n]);
      UnitScale(d[n]);
    }
  }

  lemma UnitScale(l: nat)
    requires l < 15
    ensures Pow2(22 - l) == 128 * Pow2(15 - l)
  {
    Pow2Add(15 - l, 7);
    assert Pow2(7) == 128;
  }

  /** The codes from a on weigh at least their short ones. */
  lemma {:induction false} TailKraft(d: seq<nat>, e: seq<nat>, a: nat, k: nat)
    requires |d| == |e| && a <= k <= |d| && Ranked(d, 22) && forall q :: 0 <= q < |d| ==> e[q] == if d[q] < 15 then
        d[q] else 15
    ensures KraftOf(d[a..k], 22) >= 128 * Slots(e, a, k) && KraftOf(d[a..k], 22) >= k - a
    decreases k
  {
    if k > a {
      TailKraft(d, e, a, k - 1);
      assert d[a..k][..k - 1 - a] == d[a..k - 1];
      if d[k - 1] < 15 {
        UnitScale(d[k - 1]);
      }
    }
  }

  /** Shorter codes come in whole multiples of a longer code's weight. */
  lemma {:induction false} Multiple(e: seq<nat>, l: nat) returns (c: nat)
    requires l <= 15 && forall q :: 0 <= q < |e| ==> e[q] <= l
    ensures KraftOf(e, 15) == c * Pow2(15 - l)
  {
    hide Pow2, KraftOf;
    KraftLast(e, 15);
    if e == [] {
      c := 0;
    } else {
      var n := |e| - 1;
      var b := Multiple(e[..n], l);
      Pow2Add(l - e[n], 15 - l);
      c := b + Pow2(l - e[n]);
      AddMultiples(KraftOf(e[..n], 15), Pow2(15 - e[n]), b, Pow2(l - e[n]), Pow2(15 - l));
    }
  }

  lemma AddMultiples(x: nat, y: nat, b: nat, z: nat, p: nat)
    requires x == b * p && y == z * p
    ensures x + y == (b + z) * p
  {
  }

  lemma KraftLast(e: seq<nat>, m: nat)
    requires forall q :: 0 <= q < |e| ==> e[q] <= m
    ensures if e == [] then KraftOf(e, m) == 0 else KraftOf(e, m) == KraftOf(e[..|e| - 1], m) + Pow2(m - e[|e| - 1])
  {
  }

  lemma LimitedSizes(f: seq<nat>, d: seq<nat>, e: seq<nat>, g: seq<nat>, W: nat, x: nat)
    requires Limited(f, d, e, g, W, x)
    ensures |f| == |d| == |e| == |g| <= 320 && x <= |e| && forall q :: 0 <= q < |e| ==> e[q] <= 15
    ensures forall q :: x <= q < |e| ==> e[x] <= e[q]
    ensures x < |e| ==> e[x] < 15 && KraftOf(e[..x + 1], 15) + (|e| - 1 - x) > Pow2(15) && forall q :: 0 <= q <= x ==>
        e[q] == d[q] <= e[x]
  {
    hide KraftOf, Pow2, M.Fib;
  }

  lemma LimitedKraft(f: seq<nat>, d: seq<nat>, e: seq<nat>, g: seq<nat>, W: nat, x: nat)
    requires Limited(f, d, e, g, W, x)
    ensures |d| == |e| && KraftOf(d, 22) == Pow2(22) && Ranked(d, 22)
    ensures forall q :: 0 <= q < |d| ==> d[q] <= 22 && e[q] == if d[q] < 15 then d[q] else 15
  {
    hide KraftOf, Pow2, M.Fib;
  }

  /** The codes up to the first one touched leave room for the slots behind it, and for one code more. */
  lemma Balance(f: seq<nat>, d: seq<nat>, e: seq<nat>, g: seq<nat>, W: nat, x: nat)
    requires Limited(f, d, e, g, W, x) && x < |e|
    ensures forall q :: 0 <= q < |e| ==> e[q] <= 15
    ensures KraftOf(e[..x + 1], 15) + Slots(e, x + 1, |e|) <= Pow2(15) && KraftOf(e[..x + 1], 15) < Pow2(15)
  {
    hide Pow2, KraftOf, Slots, Limited, Ranked;
    LimitedSizes(f, d, e, g, W, x);
    LimitedKraft(f, d, e, g, W, x);
    var n := |e|;
    assert d == d[..x + 1] + d[x + 1..n];
    KraftConcat(d[..x + 1], d[x + 1..n], 22);
    ShortKraft(d[..x + 1], e[..x + 1]);
    TailKraft(d, e, x + 1, n);
    Powers();
  }

  lemma Powers()
    ensures Pow2(22) == 128 * Pow2(15) && Pow2(15) == 32768
  {
    Pow2Add(15, 7);
    assert Pow2(7) == 128;
  }

  /** The first code that was touched is long, and few slots lie at or behind it. */
  lemma FewSlots(f: seq<nat>, d: seq<nat>, e: seq<nat>, g: seq<nat>, W: nat, x: nat)
    requires Limited(f, d, e, g, W, x) && x < |e|
    ensures (forall q :: 0 <= q < |e| ==> e[q] <= 15) && (forall q :: x <= q < |e| ==> e[q] >= 7)
        && Slots(e, x, |e|) <= 2 * |e|
  {
    hide Pow2, KraftOf, Slots, Limited;
    LimitedSizes(f, d, e, g, W, x);
    Balance(f, d, e, g, W, x);
    var n := |e|;
    var K := KraftOf(e[..x + 1], 15);
    var p := Pow2(15 - e[x]);
    var c := Multiple(e[..x + 1], e[x]);
    Pow2Add(e[x], 15 - e[x]);
    SlotAtLeast(K, c, p, Pow2(e[x]), Pow2(15));
    SlotsFirst(e, x, n);
    SmallPower(15 - e[x]);
  }

  lemma SlotAtLeast(K: nat, c: nat, p: nat, q: nat, total: nat)
    requires K == c * p && total == q * p && K < total && p > 0
    ensures p <= total - K
  {
    MulCancel(c, q, p);
    if c >= q {
      MulMono(q, c, p);
    }
    MulMono(c + 1, q, p);
  }

  lemma {:induction false} SlotsFirst(e: seq<nat>, x: nat, k: nat)
    requires x < k <= |e| && (forall q :: 0 <= q < |e| ==> e[q] <= 15) && e[x] < 15
    ensures Slots(e, x, k) == Pow2(15 - e[x]) + Slots(e, x + 1, k)
    decreases k
  {
    hide Pow2;
    if k > x + 1 {
      SlotsFirst(e, x, k - 1);
    }
  }

  lemma SmallPower(a: nat)
    requires a <= 15
    ensures Pow2(a) < 320 ==> a <= 8
  {
    if a > 8 {
      Pow2Mono(9, a);
      assert Pow2(9) == 512;
    }
  }

  /** Limiting costs at most 354/100000 of a bit for each symbol and occurrence. */
  lemma LimitCost(f: seq<nat>, d: seq<nat>, e: seq<nat>, g: seq<nat>, W: nat, x: nat)
    requires Limited(f, d, e, g, W, x)
    ensures 100000 * Dot(f, g) <= 100000 * Dot(f, d) + 354 * |f| * W
  {
    hide M.Fib, Pow2, KraftOf, Slots, Growth, Dot, Limited;
    var n := |f|;
    LimitedSizes(f, d, e, g, W, x);
    assert f[..n] == f && g[..n] == g && d[..n] == d;
    DotGrows(f, d, e, g, W, x, n);
    if x < n {
      FewSlots(f, d, e, g, W, x);
      GrowthBound(f, d, e, g, W, x, n);
      ScaleUp(Slots(e, x, n), n, W);
    } else {
      NoGrowth(f, e, n);
    }
  }

  lemma ScaleUp(s: nat, n: nat, W: nat)
    requires s <= 2 * n
    ensures 177 * W * s <= 354 * n * W
  {
    MulMono(s, 2 * n, 177 * W);
    assert 177 * W * (2 * n) == 354 * (n * W);
    assert 354 * n * W == 354 * (n * W);
  }

  lemma NoGrowth(f: seq<nat>, e: seq<nat>, k: nat)
    requires k <= |f| == |e| && forall q :: 0 <= q < |e| ==> e[q] <= 15
    ensures Growth(f, e, k, k) == 0
  {
  }

  // ----- sums in another order -----

  function Rev(s: seq<nat>): (r: seq<nat>)
    ensures |r| == |s| && forall q :: 0 <= q < |s| ==> r[q] == s[|s| - 1 - q]
  {
    seq(|s|, q requires 0 <= q < |s| => s[|s| - 1 - q])
  }

  lemma RevSnoc(s: seq<nat>)
    requires s != []
    ensures Rev(s) == [s[|s| - 1]] + Rev(s[..|s| - 1])
  {
  }

  lemma {:induction false} DotConcat(a: seq<nat>, b: seq<nat>, c: seq<nat>, d: seq<nat>)
    requires |a| == |c| && |b| == |d|
    ensures Dot(a + b, c + d) == Dot(a, c) + Dot(b, d)
  {
    if b == [] {
      assert a + b == a && c + d == c;
    } else {
      var n := |b| - 1;
      DotConcat(a, b[..n], c, d[..n]);
      assert (a + b)[..|a + b| - 1] == a + b[..n] && (c + d)[..|c + d| - 1] == c + d[..n];
    }
  }

  lemma DotOne(x: nat, y: nat)
    ensures Dot([x], [y]) == x * y
  {
    assert [x][..0] == [] && [y][..0] == [];
  }

  lemma {:induction false} DotRev(a: seq<nat>, b: seq<nat>)
    requires |a| == |b|
    ensures Dot(Rev(a), Rev(b)) == Dot(a, b)
  {
    if a == [] {
      assert Rev(a) == [] && Rev(b) == [];
    } else {
      var n := |a| - 1;
      DotRev(a[..n], b[..n]);
      RevSnoc(a);
      RevSnoc(b);
      DotConcat([a[n]], Rev(a[..n]), [b[n]], Rev(b[..n]));
      DotOne(a[n], b[n]);
    }
  }

  lemma {:induction false} KraftRev(s: seq<nat>, m: nat)
    requires forall q :: 0 <= q < |s| ==> s[q] <= m
    ensures KraftOf(Rev(s), m) == KraftOf(s, m)
  {
    if s == [] {
      assert Rev(s) == [];
    } else {
      var n := |s| - 1;
      KraftRev(s[..n], m);
      RevSnoc(s);
      KraftConcat([s[n]], Rev(s[..n]), m);
      assert [s[n]][..0] == [];
    }
  }

  lemma {:induction false} CostIsDot(w: seq<nat>, l: seq<nat>)
    requires |w| == |l|
    ensures M.Cost(w, l) == Dot(w, l)
  {
    if w != [] {
      var n := |w| - 1;
      CostIsDot(w[..n], l[..n]);
      var f, g := M.CostTerms(w, l), M.CostTerms(w[..n], l[..n]);
      M.SumSplit(f, 0, n, n + 1);
      assert M.Sum(f, n, n + 1) == f[n] + M.Sum(f, n + 1, n + 1);
      assert f[..n] == g[..n];
      M.SumSame(f, g, n);
    }
  }

  lemma {:induction false} KraftIsOf(l: seq<nat>, m: nat)
    requires forall q :: 0 <= q < |l| ==> l[q] <= m
    ensures M.Kraft(l, m) == KraftOf(l, m)
  {
    hide Pow2;
    if l != [] {
      var n := |l| - 1;
      KraftIsOf(l[..n], m);
      var f, g := M.KraftTerms(l, m), M.KraftTerms(l[..n], m);
      M.SumSplit(f, 0, n, n + 1);
      assert M.Sum(f, n, n + 1) == f[n] + M.Sum(f, n + 1, n + 1);
      assert f[..n] == g[..n];
      M.SumSame(f, g, n);
    }
  }

  lemma {:induction false} DotUpdate(f: seq<nat>, r: seq<nat>, s: nat, v: nat)
    requires |f| == |r| && s < |f|
    ensures Dot(f[s := v], r) == Dot(f, r) - f[s] * r[s] + v * r[s]
  {
    var n := |f| - 1;
    if s < n {
      DotUpdate(f[..n], r[..n], s, v);
      assert f[s := v][..n] == f[..n][s := v];
    } else {
      assert f[s := v][..n] == f[..n];
    }
  }

  lemma {:induction false} DotZero(f: seq<nat>, r: seq<nat>)
    requires |f| == |r| && forall s :: 0 <= s < |f| ==> f[s] == 0
    ensures Dot(f, r) == 0
  {
    if f != [] {
      DotZero(f[..|f| - 1], r[..|r| - 1]);
    }
  }

  /** The symbols in some order, each used one once. */
  ghost predicate Lists(counts: seq<nat>, ord: seq<nat>) {
    && (forall p :: 0 <= p < |ord| ==> ord[p] < |counts| && counts[ord[p]] > 0)
    && (forall p, q :: 0 <= p < q < |ord| ==> ord[p] != ord[q])
    && (forall s :: 0 <= s < |counts| && counts[s] > 0 ==> s in ord)
  }

  function Pick(r: seq<nat>, ord: seq<nat>): (v: seq<nat>)
    requires forall p :: 0 <= p < |ord| ==> ord[p] < |r|
    ensures |v| == |ord| && forall p :: 0 <= p < |ord| ==> v[p] == r[ord[p]]
  {
    seq(|ord|, p requires 0 <= p < |ord| => r[ord[p]])
  }

  lemma ListsLess(counts: seq<nat>, ord: seq<nat>)
    requires Lists(counts, ord) && ord != []
    ensures Lists(counts[ord[|ord| - 1] := 0], ord[..|ord| - 1])
    ensures Pick(counts[ord[|ord| - 1] := 0], ord[..|ord| - 1]) == Pick(counts, ord)[..|ord| - 1]
  {
    var n := |ord| - 1;
    assert ord == ord[..n] + [ord[n]];
  }

  /** Summing over the symbols or over their order is the same. */
  lemma {:induction false} DotPerm(counts: seq<nat>, r: seq<nat>, ord: seq<nat>)
    requires Lists(counts, ord) && |r| == |counts|
    ensures Dot(counts, r) == Dot(Pick(counts, ord), Pick(r, ord))
    decreases |ord|
  {
    if ord == [] {
      DotZero(counts, r);
    } else {
      var n := |ord| - 1;
      var s := ord[n];
      ListsLess(counts, ord);
      DotPerm(counts[s := 0], r, ord[..n]);
      DotUpdate(counts, r, s, 0);
      assert Pick(r, ord)[..n] == Pick(r, ord[..n]);
    }
  }

  /** Kraft sum of the used symbols' lengths. */
  function KraftUsed(counts: seq<nat>, r: seq<nat>, m: nat): nat
    requires |counts| == |r|
  {
    if counts == [] then 0
    else KraftUsed(counts[..|counts| - 1], r[..|r| - 1], m)
         + (if counts[|counts| - 1] > 0 && r[|r| - 1] <= m then Pow2(m - r[|r| - 1]) else 0)
  }

  lemma {:induction false} KraftUsedZero(counts: seq<nat>, r: seq<nat>, m: nat)
    requires |counts| == |r| && forall s :: 0 <= s < |counts| ==> counts[s] == 0
    ensures KraftUsed(counts, r, m) == 0
  {
    if counts != [] {
      KraftUsedZero(counts[..|counts| - 1], r[..|r| - 1], m);
    }
  }

  lemma {:induction false} KraftUsedUpdate(counts: seq<nat>, r: seq<nat>, m: nat, s: nat)
    requires |counts| == |r| && s < |r| && counts[s] > 0 && r[s] <= m
    ensures KraftUsed(counts[s := 0], r, m) == KraftUsed(counts, r, m) - Pow2(m - r[s])
  {
    var n := |counts| - 1;
    if s < n {
      KraftUsedUpdate(counts[..n], r[..n], m, s);
      assert counts[s := 0][..n] == counts[..n][s := 0];
    } else {
      assert counts[s := 0][..n] == counts[..n];
    }
  }

  lemma {:induction false} KraftPerm(counts: seq<nat>, r: seq<nat>, ord: seq<nat>, m: nat)
    requires Lists(counts, ord) && |r| == |counts| && forall s :: 0 <= s < |r| && counts[s] > 0 ==> r[s] <= m
    ensures KraftUsed(counts, r, m) == KraftOf(Pick(r, ord), m)
    decreases |ord|
  {
    hide Pow2, KraftUsed, KraftOf;
    var v := Pick(r, ord);
    KraftLast(v, m);
    if ord == [] {
      KraftUsedZero(counts, r, m);
    } else {
      var n := |ord| - 1;
      var s := ord[n];
      ListsLess(counts, ord);
      KraftPerm(counts[s := 0], r, ord[..n], m);
      KraftUsedUpdate(counts, r, m, s);
      assert v[..n] == Pick(r, ord[..n]);
    }
  }
}
