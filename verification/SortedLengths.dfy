/** Code lengths in sorted order, and what limiting them by donations does: which codes stay as they are, and how
    far the Kraft sum tells. */
module SortedLengths {
  import opened Bits
  import opened Canonical

  /** Kraft sum in units of 2^-m. */
  function KraftOf(g: seq<nat>, m: nat): nat
    requires forall q :: 0 <= q < |g| ==> g[q] <= m
  {
    if g == [] then 0 else KraftOf(g[..|g| - 1], m) + Pow2(m - g[|g| - 1])
  }

  lemma {:induction false} KraftUpdate(g: seq<nat>, m: nat, x: nat, v: nat)
    requires (forall q :: 0 <= q < |g| ==> g[q] <= m) && x < |g| && v <= m
    ensures KraftOf(g[x := v], m) == KraftOf(g, m) - Pow2(m - g[x]) + Pow2(m - v)
  {
    var n := |g| - 1;
    if x < n {
      KraftUpdate(g[..n], m, x, v);
      assert g[x := v][..n] == g[..n][x := v];
    } else {
      assert g[x := v][..n] == g[..n];
    }
  }

  lemma {:induction false} KraftConcat(a: seq<nat>, b: seq<nat>, m: nat)
    requires (forall q :: 0 <= q < |a| ==> a[q] <= m) && (forall q :: 0 <= q < |b| ==> b[q] <= m)
    ensures KraftOf(a + b, m) == KraftOf(a, m) + KraftOf(b, m)
  {
    if b == [] {
      assert a + b == a;
    } else {
      KraftConcat(a, b[..|b| - 1], m);
      assert (a + b)[..|a + b| - 1] == a + b[..|b| - 1];
    }
  }

  /** Codes of m bits count one unit each. */
  lemma {:induction false} KraftFull(g: seq<nat>, m: nat)
    requires forall q :: 0 <= q < |g| ==> g[q] == m
    ensures KraftOf(g, m) == |g|
  {
    if g != [] {
      KraftFull(g[..|g| - 1], m);
      assert Pow2(0) == 1;
    }
  }

  /** Lengths from 1 to m, shortest first. */
  ghost predicate Ranked(g: seq<nat>, m: nat) {
    && (forall q :: 0 <= q < |g| ==> 0 < g[q] <= m)
    && forall p, q :: 0 <= p <= q < |g| ==> g[p] <= g[q]
  }

  /** The first c lengths are the short ones: below m. */
  ghost predicate ShortOnes(g: seq<nat>, m: nat, c: nat) {
    c <= |g| && forall q :: 0 <= q < |g| ==> (g[q] < m <==> q < c)
  }

  /** A donation: the last short code becomes one bit longer, and the first of the m-bit codes as short as that. */
  function Split(g: seq<nat>, c: nat): seq<nat>
    requires 0 < c < |g|
  {
    g[c - 1 := g[c - 1] + 1][c := g[c - 1] + 1]
  }

  lemma SplitRanked(g: seq<nat>, m: nat, c: nat)
    requires Ranked(g, m) && ShortOnes(g, m, c) && 0 < c < |g|
    ensures Ranked(Split(g, c), m) && KraftOf(Split(g, c), m) == KraftOf(g, m) - 1
  {
    var i := g[c - 1];
    assert g[c] == m;
    var h := g[c - 1 := i + 1];
    KraftUpdate(g, m, c - 1, i + 1);
    KraftUpdate(h, m, c, i + 1);
    assert Pow2(m - i) == 2 * Pow2(m - (i + 1)) && Pow2(m - m) == 1;
  }

  lemma SplitCounts(g: seq<nat>, m: nat, c: nat, l: nat)
    requires Ranked(g, m) && ShortOnes(g, m, c) && 0 < c < |g|
    ensures var i := g[c - 1];
            Count(Split(g, c), l) == Count(g, l) - (if l == i then 1 else 0) - (if l == m then 1
                else 0) + (if l == i + 1 then 2 else 0)
  {
    hide Count;
    var i := g[c - 1];
    assert g[c] == m;
    CountUpdate(g, c - 1, i + 1, l);
    CountUpdate(g[c - 1 := i + 1], c, i + 1, l);
  }

  /** Codes before x are as they were; if x is a code, then with every code behind it at m bits the Kraft sum was
      too large. */
  ghost predicate Touched(e: seq<nat>, g: seq<nat>, m: nat, x: nat) {
    && Ranked(e, m) && Ranked(g, m) && |g| == |e| && x <= |e| && g[..x] == e[..x]
    && (if x == |e| then g == e else e[x] < m && KraftOf(e[..x + 1], m) + (|e| - 1 - x) > Pow2(m))
  }

  /** One more donation, while the Kraft sum is too large. */
  lemma TouchedNext(e: seq<nat>, g: seq<nat>, m: nat, x: nat, c: nat) returns (y: nat)
    requires Touched(e, g, m, x) && ShortOnes(g, m, c) && 0 < c < |g| && KraftOf(g, m) > Pow2(m)
    ensures Touched(e, Split(g, c), m, y)
  {
    hide KraftOf;
    SplitRanked(g, m, c);
    var s := Split(g, c);
    if c - 1 < x {
      y := c - 1;
      assert g[..c] == e[..c] by {
        if x < |e| {
          assert g[..x] == e[..x];
          ShortBefore(e, g, m, x, c);
        }
      }
      assert g == g[..c] + g[c..];
      KraftConcat(g[..c], g[c..], m);
      KraftFull(g[c..], m);
      assert e[c - 1] == g[..c][c - 1];
      assert s[..y] == g[..y] == g[..c][..y] == e[..c][..y];
    } else {
      y := x;
      assert s[..y] == g[..y];
    }
  }

  lemma ShortBefore(e: seq<nat>, g: seq<nat>, m: nat, x: nat, c: nat)
    requires x < |e| == |g| && g[..x] == e[..x] && c - 1 < x
    ensures g[..c] == e[..c]
  {
    assert g[..c] == g[..x][..c] && e[..c] == e[..x][..c];
  }

  /** Where the short lengths end. */
  lemma {:induction false} FindShort(g: seq<nat>, m: nat, k: nat) returns (c: nat)
    requires Ranked(g, m) && k <= |g| && forall q :: k <= q < |g| ==> g[q] == m
    ensures ShortOnes(g, m, c) && c <= k
    decreases k
  {
    if k > 0 && g[k - 1] == m {
      c := FindShort(g, m, k - 1);
    } else {
      c := k;
    }
  }
}
