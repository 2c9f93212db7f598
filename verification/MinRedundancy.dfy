/** Minimum-redundancy code lengths, computed in place from sorted weights: weights, parent indices,
    depths and finally code lengths occupy the same array cells. */
module MinRedundancy {
  import opened Bits

  /** The merge history: w are the leaf weights, iw[p] is the weight of internal node p, and r[p] of the
      internal nodes (hence 2p - r[p] of the leaves) have been merged before node p is made. */
  datatype Tree = Tree(w: seq<nat>, iw: seq<nat>, r: seq<nat>)

  /** Leaves merged before node p. */
  function L(t: Tree, p: nat): int
    requires p < |t.r|
  {
    2 * p - t.r[p]
  }

  ghost predicate Sorted(s: seq<nat>) {
    forall i, j :: 0 <= i < j < |s| ==> s[i] <= s[j]
  }

  /** Each step takes two nodes off the fronts of the two queues. */
  ghost predicate Counts(t: Tree) {
    && |t.r| == |t.iw| + 1 <= |t.w| && t.r[0] == 0
    && (forall p :: 0 <= p < |t.r| ==> 0 <= 2 * p - t.r[p] <= |t.w| && (p > 0 ==> t.r[p] < p))
    && (forall p, q :: 0 <= p && q == p + 1 < |t.r| ==> t.r[p] <= t.r[q] <= t.r[p] + 2)
  }

  /** The weight of node x: a leaf below |w|, an internal node from |w| on. */
  function Wt(t: Tree, x: nat): nat
    requires x < |t.w| + |t.iw|
  {
    if x < |t.w| then t.w[x] else t.iw[x - |t.w|]
  }

  /** The two nodes merged into internal node p. */
  function Kids(t: Tree, p: nat): (k: (nat, nat))
    requires p < |t.iw| && Counts(t)
    ensures k.0 < |t.w| + p && k.1 < |t.w| + p && k.0 != k.1
  {
    var n, a := |t.w|, t.r[p];
    assert t.r[p + 1] <= p;
    assert 0 <= L(t, p) && L(t, p + 1) <= n && L(t, p + 1) == 2 * p + 2 - t.r[p + 1];
    if t.r[p + 1] == a then (L(t, p), L(t, p) + 1)
    else if t.r[p + 1] == a + 1 then (L(t, p), n + a)
    else (n + a, n + a + 1)
  }

  ghost predicate Weights(t: Tree)
    requires Counts(t)
  {
    forall p :: 0 <= p < |t.iw| ==> t.iw[p] == Wt(t, Kids(t, p).0) + Wt(t, Kids(t, p).1)
  }

  /** At every point what has been merged is no heavier than what is left. */
  ghost predicate Cut(t: Tree, p: nat)
    requires Counts(t) && p < |t.r|
  {
    && (forall j, i :: 0 <= j < L(t, p) && t.r[p] <= i < p ==> t.w[j] <= t.iw[i])
    && (forall i, j :: 0 <= i < t.r[p] && L(t, p) <= j < |t.w| ==> t.iw[i] <= t.w[j])
  }

  ghost predicate Greedy(t: Tree) {
    && Sorted(t.w) && (forall j :: 0 <= j < |t.w| ==> t.w[j] > 0)
    && Counts(t) && Weights(t) && Sorted(t.iw)
    && forall p :: 0 <= p < |t.r| ==> Cut(t, p)
  }

  /** A finished tree: all but the last internal node have been merged. */
  ghost predicate Full(t: Tree) {
    Greedy(t) && |t.iw| == |t.w| - 1 && |t.w| >= 2
  }

  lemma FullEnds(t: Tree)
    requires Full(t)
    ensures t.r[|t.w| - 1] == |t.w| - 2 && L(t, |t.w| - 1) == |t.w|
  {
    var p := |t.w| - 1;
    assert t.r[p] < p && L(t, p) <= |t.w|;
  }

  // ----- parents and depths -----

  lemma {:induction false} RMono(t: Tree, p: nat, q: nat)
    requires Counts(t) && p <= q < |t.r|
    ensures t.r[p] <= t.r[q] && L(t, p) <= L(t, q)
    decreases q
  {
    if p < q {
      var m := q - 1;
      RMono(t, p, m);
      assert t.r[m] <= t.r[m + 1] <= t.r[m] + 2;
    }
  }

  /** The internal node, from p on, into which internal node i is merged. */
  function Par(t: Tree, i: nat, p: nat): (q: nat)
    requires Counts(t) && p < |t.r| && t.r[p] <= i < t.r[|t.iw|]
    ensures p <= q < |t.iw| && t.r[q] <= i < t.r[q + 1] && i < q
    decreases |t.r| - p
  {
    assert t.r[p + 1] <= p;
    if i < t.r[p + 1] then p else Par(t, i, p + 1)
  }

  /** The internal node, from p on, into which leaf j is merged. */
  function LeafPar(t: Tree, j: nat, p: nat): (q: nat)
    requires Counts(t) && p < |t.r| && L(t, p) <= j < L(t, |t.iw|)
    ensures p <= q < |t.iw| && L(t, q) <= j < L(t, q + 1)
    decreases |t.r| - p
  {
    assert t.r[p] >= 0;
    if j < L(t, p + 1) then p else LeafPar(t, j, p + 1)
  }

  /** The depth of internal node i below the root. */
  function Depth(t: Tree, i: nat): nat
    requires Full(t) && i <= |t.w| - 2
    decreases |t.w| - i
  {
    FullEnds(t);
    if i == |t.w| - 2 then 0 else 1 + Depth(t, Par(t, i, 0))
  }

  /** The depth of leaf j: its code length. */
  function LeafDepth(t: Tree, j: nat): nat
    requires Full(t) && j < |t.w|
  {
    FullEnds(t);
    1 + Depth(t, LeafPar(t, j, 0))
  }

  lemma ParIs(t: Tree, i: nat, p: nat)
    requires Counts(t) && p < |t.iw| && t.r[p] <= i < t.r[p + 1] && i < t.r[|t.iw|]
    ensures Par(t, i, 0) == p
  {
    var q := Par(t, i, 0);
    if q < p {
      RMono(t, q + 1, p);
    } else if p < q {
      RMono(t, p + 1, q);
    }
  }

  lemma LeafParIs(t: Tree, j: nat, p: nat)
    requires Counts(t) && p < |t.iw| && L(t, p) <= j < L(t, p + 1) && j < L(t, |t.iw|)
    ensures LeafPar(t, j, 0) == p
  {
    var q := LeafPar(t, j, 0);
    if q < p {
      RMono(t, q + 1, p);
    } else if p < q {
      RMono(t, p + 1, q);
    }
  }

  /** Later internal nodes are no deeper. */
  lemma {:induction false} DepthMono(t: Tree, i: nat, j: nat)
    requires Full(t) && i <= j <= |t.w| - 2
    ensures Depth(t, i) >= Depth(t, j)
    decreases |t.w| - i
  {
    hide Weights, Cut, Sorted, Counts, Live, Depth, Par, Greedy, Full;
    FullParts(t);
    TopDepth(t);
    if i < j < |t.w| - 2 {
      var p := DepthStep(t, i);
      var q := DepthStep(t, j);
      if q < p {
        RMono(t, q + 1, p);
        assert false;
      }
      DepthMono(t, p, q);
    }
  }

  /** The code lengths do not increase along the sorted order. */
  lemma LeafDepthMono(t: Tree, i: nat, j: nat)
    requires Full(t) && i <= j < |t.w|
    ensures LeafDepth(t, i) >= LeafDepth(t, j)
  {
    hide Weights, Cut, Sorted;
    FullEnds(t);
    var p, q := LeafPar(t, i, 0), LeafPar(t, j, 0);
    if q < p {
      RMono(t, q + 1, p);
      assert false;
    }
    DepthMono(t, p, q);
  }

  // ----- sums over the nodes not yet merged -----

  function Sum(f: seq<nat>, a: nat, b: nat): nat
    requires a <= b <= |f|
    decreases b - a
  {
    if a == b then 0 else f[a] + Sum(f, a + 1, b)
  }

  lemma {:induction false} SumSplit(f: seq<nat>, a: nat, m: nat, b: nat)
    requires a <= m <= b <= |f|
    ensures Sum(f, a, b) == Sum(f, a, m) + Sum(f, m, b)
    decreases m - a
  {
    if a < m {
      SumSplit(f, a + 1, m, b);
    }
  }

  lemma {:induction false} SumUpdate(f: seq<nat>, a: nat, b: nat, x: nat, v: nat)
    requires a <= b <= |f| && x < |f|
    ensures Sum(f[x := v], a, b) == if a <= x < b then Sum(f, a, b) - f[x] + v else Sum(f, a, b)
    decreases b - a
  {
    if a < b {
      SumUpdate(f, a + 1, b, x, v);
    }
  }

  lemma {:induction false} SumMember(f: seq<nat>, a: nat, b: nat, x: nat)
    requires a <= x < b <= |f|
    ensures f[x] <= Sum(f, a, b)
    decreases b - a
  {
    if a < x {
      SumMember(f, a + 1, b, x);
    }
  }

  /** Node x exists and has not been merged when node p is about to be made. */
  predicate Live(t: Tree, p: nat, x: nat)
    requires Counts(t) && p < |t.r|
  {
    L(t, p) <= x < |t.w| || |t.w| + t.r[p] <= x < |t.w| + p
  }

  /** The sum of f over the live nodes. */
  function Active(t: Tree, p: nat, f: seq<nat>): nat
    requires Counts(t) && p < |t.r| && |f| == |t.w| + |t.iw|
  {
    assert t.r[p] <= p;
    Sum(f, L(t, p), |t.w|) + Sum(f, |t.w| + t.r[p], |t.w| + p)
  }

  /** One merge takes the two children out and puts the new node in. */
  lemma ActiveStep(t: Tree, p: nat, f: seq<nat>)
    requires Counts(t) && p < |t.iw| && |f| == |t.w| + |t.iw|
    ensures var k := Kids(t, p);
            Active(t, p, f) + f[|t.w| + p] == Active(t, p + 1, f) + f[k.0] + f[k.1]
  {
    var n, a := |t.w|, t.r[p];
    assert t.r[p + 1] <= p && 0 <= L(t, p + 1) <= n;
    SumSplit(f, n + t.r[p + 1], n + p, n + p + 1);
    assert Sum(f, n + p, n + p + 1) == f[n + p];
    if t.r[p + 1] == a {
      assert L(t, p + 1) == L(t, p) + 2;
      assert Sum(f, L(t, p), n) == f[L(t, p)] + Sum(f, L(t, p) + 1, n);
    } else if t.r[p + 1] == a + 1 {
      assert L(t, p + 1) == L(t, p) + 1;
    } else {
      assert L(t, p + 1) == L(t, p);
      assert Sum(f, n + a, n + p) == f[n + a] + Sum(f, n + a + 1, n + p);
    }
  }

  lemma ActiveUpdate(t: Tree, p: nat, f: seq<nat>, x: nat, v: nat)
    requires Counts(t) && p < |t.r| && |f| == |t.w| + |t.iw| && x < |f|
    ensures Active(t, p, f[x := v]) == if Live(t, p, x) then Active(t, p, f) - f[x] + v else Active(t, p, f)
    ensures Live(t, p, x) ==> f[x] <= Active(t, p, f)
  {
    assert t.r[p] <= p;
    var n := |t.w|;
    SumUpdate(f, L(t, p), n, x, v);
    SumUpdate(f, n + t.r[p], n + p, x, v);
    if L(t, p) <= x < n {
      SumMember(f, L(t, p), n, x);
    } else if n + t.r[p] <= x < n + p {
      SumMember(f, n + t.r[p], n + p, x);
    }
  }

  // ----- no weight exceeds the total -----

  function Weighted(t: Tree): (f: seq<nat>)
    ensures |f| == |t.w| + |t.iw| && forall x :: 0 <= x < |f| ==> f[x] == Wt(t, x)
  {
    t.w + t.iw
  }

  lemma {:induction false} Conserve(t: Tree, p: nat)
    requires Counts(t) && Weights(t) && p < |t.r|
    ensures Active(t, p, Weighted(t)) == Sum(Weighted(t), 0, |t.w|)
  {
    hide Active, Sum, Weighted, Kids, L;
    if p > 0 {
      Conserve(t, p - 1);
      ActiveStep(t, p - 1, Weighted(t));
      assert t.iw[p - 1] == Wt(t, |t.w| + p - 1);
    } else {
      ActiveStart(t, Weighted(t));
    }
  }

  lemma ActiveStart(t: Tree, f: seq<nat>)
    requires Counts(t) && |f| == |t.w| + |t.iw|
    ensures Active(t, 0, f) == Sum(f, 0, |t.w|)
  {
    assert L(t, 0) == 0;
  }

  lemma WeightBound(t: Tree, p: nat)
    requires Counts(t) && Weights(t) && p < |t.iw|
    ensures t.iw[p] <= Sum(t.w, 0, |t.w|)
  {
    hide Weights, Sum, Weighted, Kids;
    var f, n := Weighted(t), |t.w|;
    Conserve(t, p + 1);
    assert t.r[p + 1] <= p;
    SumMember(f, n + t.r[p + 1], n + p + 1, n + p);
    assert t.iw[p] == Wt(t, n + p);
    SumSame(f, t.w, n);
  }

  lemma {:induction false} SumSame(f: seq<nat>, g: seq<nat>, n: nat)
    requires n <= |f| && n <= |g| && f[..n] == g[..n]
    ensures Sum(f, 0, n) == Sum(g, 0, n)
  {
    SumSameFrom(f, g, 0, n);
  }

  lemma {:induction false} SumSameFrom(f: seq<nat>, g: seq<nat>, a: nat, n: nat)
    requires a <= n <= |f| && n <= |g| && f[..n] == g[..n]
    ensures Sum(f, a, n) == Sum(g, a, n)
    decreases n - a
  {
    if a < n {
      assert f[..n][a] == g[..n][a];
      SumSameFrom(f, g, a + 1, n);
    }
  }

  /** The root carries the whole weight. */
  lemma RootWeight(t: Tree)
    requires Full(t)
    ensures t.iw[|t.w| - 2] == Sum(t.w, 0, |t.w|)
  {
    hide Weights, Sum, Weighted, Kids, Greedy;
    var f, n := Weighted(t), |t.w|;
    FullParts(t);
    Conserve(t, n - 1);
    RootActive(t, f);
    assert t.iw[n - 2] == Wt(t, n + n - 2);
    SumSame(f, t.w, n);
  }

  lemma FullParts(t: Tree)
    requires Full(t)
    ensures Greedy(t) && Counts(t) && Weights(t) && |t.r| == |t.w| && |t.iw| == |t.w| - 1 && |t.w| >= 2
  {
  }

  lemma RootActive(t: Tree, f: seq<nat>)
    requires Full(t) && |f| == |t.w| + |t.iw|
    ensures Active(t, |t.w| - 1, f) == f[2 * |t.w| - 2]
  {
    FullEnds(t);
    var n := |t.w|;
    assert Sum(f, n + n - 2, n + n - 1) == f[n + n - 2] + Sum(f, n + n - 1, n + n - 1);
  }

  // ----- the Kraft equality -----

  function NodeDepth(t: Tree, x: nat): nat
    requires Full(t) && x < 2 * |t.w| - 1
  {
    if x < |t.w| then LeafDepth(t, x) else Depth(t, x - |t.w|)
  }

  lemma KidRange(t: Tree, p: nat, x: nat)
    requires Counts(t) && p < |t.iw| && (x == Kids(t, p).0 || x == Kids(t, p).1)
    ensures if x < |t.w| then L(t, p) <= x < L(t, p + 1) else t.r[p] <= x - |t.w| < t.r[p + 1]
    ensures Live(t, p, x) && !Live(t, p + 1, x)
  {
    assert t.r[p + 1] <= p;
  }

  lemma KidDepth(t: Tree, p: nat, x: nat)
    requires Full(t) && p < |t.iw| && (x == Kids(t, p).0 || x == Kids(t, p).1)
    ensures NodeDepth(t, x) == Depth(t, p) + 1
  {
    hide Kids, Weights, Cut, Sorted, Depth;
    FullEnds(t);
    KidRange(t, p, x);
    RMono(t, p + 1, |t.iw|);
    if x < |t.w| {
      LeafParIs(t, x, p);
    } else {
      MergedDepth(t, p, x - |t.w|);
    }
  }

  lemma MergedDepth(t: Tree, p: nat, i: nat)
    requires Full(t) && p < |t.iw| && t.r[p] <= i < t.r[p + 1] && i < t.r[|t.iw|]
    ensures Depth(t, i) == Depth(t, p) + 1
  {
    hide Weights, Cut, Sorted;
    FullEnds(t);
    ParIs(t, i, p);
  }

  /** The terms of a Kraft sum scaled to 2^m. */
  function KraftTerms(l: seq<nat>, m: nat): (f: seq<nat>)
    ensures |f| == |l|
    ensures forall x {:trigger f[x]} :: 0 <= x < |l| ==> f[x] == KraftTerm(l[x], m)
  {
    seq(|l|, x requires 0 <= x < |l| => KraftTerm(l[x], m))
  }

  function KraftTerm(l: nat, m: nat): nat {
    if l <= m then Pow2(m - l) else 0
  }

  function Kraft(l: seq<nat>, m: nat): nat {
    Sum(KraftTerms(l, m), 0, |l|)
  }

  function CostTerms(wt: seq<nat>, l: seq<nat>): (f: seq<nat>)
    requires |wt| == |l|
    ensures |f| == |l|
    ensures forall x {:trigger f[x]} :: 0 <= x < |l| ==> f[x] == wt[x] * l[x]
  {
    seq(|l|, x requires 0 <= x < |l| => wt[x] * l[x])
  }

  /** Total weighted length. */
  function Cost(wt: seq<nat>, l: seq<nat>): nat
    requires |wt| == |l|
  {
    Sum(CostTerms(wt, l), 0, |l|)
  }

  /** The depths of all the nodes. */
  function AllDepths(t: Tree): (l: seq<nat>)
    requires Full(t)
    ensures |l| == |t.w| + |t.iw| && forall x :: 0 <= x < |l| ==> l[x] == NodeDepth(t, x)
  {
    seq(2 * |t.w| - 1, x requires 0 <= x < 2 * |t.w| - 1 => NodeDepth(t, x))
  }

  /** The code lengths of the leaves. */
  function Lengths(t: Tree): (l: seq<nat>)
    requires Full(t)
    ensures |l| == |t.w| && forall j :: 0 <= j < |l| ==> l[j] == LeafDepth(t, j)
  {
    seq(|t.w|, j requires 0 <= j < |t.w| => LeafDepth(t, j))
  }

  lemma DeepestFirst(t: Tree, x: nat)
    requires Full(t) && x < 2 * |t.w| - 1
    ensures NodeDepth(t, x) <= LeafDepth(t, 0)
  {
    hide Weights, Cut, Sorted, Depth, LeafPar, Par;
    if x < |t.w| {
      LeafDepthMono(t, 0, x);
    } else {
      DepthMono(t, 0, x - |t.w|);
      FirstLeaf(t);
    }
  }

  lemma FirstLeaf(t: Tree)
    requires Full(t)
    ensures LeafDepth(t, 0) == 1 + Depth(t, 0)
  {
    hide Weights, Cut, Sorted, Depth, Par;
    FullEnds(t);
    assert t.r[1] < 1;
    assert L(t, 0) == 0 && L(t, 1) == 2;
    LeafParIs(t, 0, 0);
  }

  /** At every stage of the merging the live nodes' depths satisfy the Kraft equality. */
  lemma {:induction false} KraftLive(t: Tree, p: nat, m: nat)
    requires Full(t) && p < |t.w| && m >= LeafDepth(t, 0)
    ensures Active(t, p, KraftTerms(AllDepths(t), m)) == Pow2(m)
    decreases |t.w| - p
  {
    hide Greedy, Active, AllDepths, NodeDepth, Kids, LeafDepth, L;
    FullParts(t);
    var f := KraftTerms(AllDepths(t), m);
    if p == |t.w| - 1 {
      RootActive(t, f);
      RootDepth(t);
    } else {
      KraftLive(t, p + 1, m);
      ActiveStep(t, p, f);
      var k := Kids(t, p);
      KidDepth(t, p, k.0);
      KidDepth(t, p, k.1);
      DeepestFirst(t, k.0);
      NodeOfInternal(t, p);
    }
  }

  lemma NodeOfInternal(t: Tree, p: nat)
    requires Full(t) && p < |t.iw|
    ensures NodeDepth(t, |t.w| + p) == Depth(t, p)
  {
  }

  lemma RootDepth(t: Tree)
    requires Full(t)
    ensures NodeDepth(t, 2 * |t.w| - 2) == 0
  {
  }

  /** The code lengths satisfy the Kraft equality. */
  lemma KraftEquality(t: Tree, m: nat)
    requires Full(t) && m >= LeafDepth(t, 0)
    ensures Kraft(Lengths(t), m) == Pow2(m)
  {
    hide Greedy, NodeDepth, LeafDepth;
    FullParts(t);
    KraftLive(t, 0, m);
    ActiveStart(t, KraftTerms(AllDepths(t), m));
    LeavesFirst(t);
    SumSame(KraftTerms(AllDepths(t), m), KraftTerms(Lengths(t), m), |t.w|);
  }

  lemma LeavesFirst(t: Tree)
    requires Full(t)
    ensures |AllDepths(t)| >= |t.w| && AllDepths(t)[..|t.w|] == Lengths(t)
  {
  }

  // ----- optimality: no code satisfying the Kraft inequality is cheaper -----

  /** A rival's lengths for the live nodes: within m bits and within the Kraft inequality. */
  ghost predicate Rival(t: Tree, p: nat, l: seq<nat>, m: nat)
    requires Counts(t) && p < |t.r|
  {
    && |l| == |t.w| + |t.iw|
    && (forall x :: 0 <= x < |l| && Live(t, p, x) ==> l[x] <= m)
    && Active(t, p, KraftTerms(l, m)) <= Pow2(m)
  }

  function LiveCost(t: Tree, p: nat, l: seq<nat>): nat
    requires Counts(t) && p < |t.r| && |l| == |t.w| + |t.iw|
  {
    Active(t, p, CostTerms(Weighted(t), l))
  }

  /** Changing one length changes one term of either sum. */
  lemma ChangeOne(t: Tree, p: nat, l: seq<nat>, m: nat, x: nat, v: nat)
    requires Counts(t) && p < |t.r| && |l| == |t.w| + |t.iw| && x < |l| && Live(t, p, x)
    ensures Active(t, p, KraftTerms(l[x := v], m)) == Active(t, p, KraftTerms(l, m)) - KraftTerm(l[x], m)
        + KraftTerm(v, m)
    ensures LiveCost(t, p, l[x := v]) == LiveCost(t, p, l) - Wt(t, x) * l[x] + Wt(t, x) * v
  {
    hide Active, Weighted, Counts, KraftTerm, Live;
    ActiveUpdate(t, p, KraftTerms(l, m), x, KraftTerm(v, m));
    assert KraftTerms(l[x := v], m) == KraftTerms(l, m)[x := KraftTerm(v, m)];
    var wt := Weighted(t);
    ActiveUpdate(t, p, CostTerms(wt, l), x, wt[x] * v);
    assert CostTerms(wt, l[x := v]) == CostTerms(wt, l)[x := wt[x] * v];
  }

  /** A node that is not live does not matter. */
  lemma ChangeDead(t: Tree, p: nat, l: seq<nat>, m: nat, x: nat, v: nat)
    requires Counts(t) && p < |t.r| && |l| == |t.w| + |t.iw| && x < |l| && !Live(t, p, x)
    ensures Active(t, p, KraftTerms(l[x := v], m)) == Active(t, p, KraftTerms(l, m))
    ensures LiveCost(t, p, l[x := v]) == LiveCost(t, p, l)
  {
    hide Active, Weighted, Counts, KraftTerm, Live;
    ActiveUpdate(t, p, KraftTerms(l, m), x, KraftTerm(v, m));
    assert KraftTerms(l[x := v], m) == KraftTerms(l, m)[x := KraftTerm(v, m)];
    var wt := Weighted(t);
    ActiveUpdate(t, p, CostTerms(wt, l), x, wt[x] * v);
    assert CostTerms(wt, l[x := v]) == CostTerms(wt, l)[x := wt[x] * v];
  }

  function Swap(l: seq<nat>, x: nat, y: nat): seq<nat>
    requires x < |l| && y < |l|
  {
    l[x := l[y]][y := l[x]]
  }

  /** Giving the lighter of two nodes the longer code does not cost more. */
  lemma SwapCost(t: Tree, p: nat, l: seq<nat>, m: nat, x: nat, y: nat)
    requires Counts(t) && p < |t.r| && Rival(t, p, l, m) && x < |l| && y < |l| && x != y && Live(t, p, x)
        && Live(t, p, y)
    requires Wt(t, x) <= Wt(t, y) && l[x] <= l[y]
    ensures Rival(t, p, Swap(l, x, y), m) && LiveCost(t, p, Swap(l, x, y)) <= LiveCost(t, p, l)
  {
    hide Active, LiveCost, Counts, KraftTerm, Live, Wt;
    ChangeOne(t, p, l, m, x, l[y]);
    ChangeOne(t, p, l[x := l[y]], m, y, l[x]);
    Rearrange(Wt(t, x), Wt(t, y), l[x], l[y]);
  }

  lemma Rearrange(a: nat, b: nat, x: nat, y: nat)
    requires a <= b && x <= y
    ensures a * y + b * x <= a * x + b * y
  {
    assert (b - a) * (y - x) >= 0;
  }

  /** Live and not one of the two nodes about to be merged. */
  predicate Rest(t: Tree, p: nat, x: nat)
    requires Counts(t) && p < |t.iw|
  {
    Live(t, p, x) && x != Kids(t, p).0 && x != Kids(t, p).1
  }

  lemma RestLive(t: Tree, p: nat, x: nat)
    requires Counts(t) && p < |t.iw| && x < |t.w| + |t.iw|
    ensures Live(t, p + 1, x) <==> Rest(t, p, x) || x == |t.w| + p
    ensures !Live(t, p, |t.w| + p)
  {
    assert t.r[p + 1] <= p && 0 <= L(t, p + 1) <= |t.w|;
  }

  /** The two merged nodes are the lightest. */
  lemma KidsLight(t: Tree, p: nat, u: nat, x: nat)
    requires Greedy(t) && p < |t.iw| && (u == Kids(t, p).0 || u == Kids(t, p).1) && x < |t.w| + |t.iw| && Rest(t, p, x)
    ensures Wt(t, u) <= Wt(t, x)
  {
    hide Kids, Weights;
    KidRange(t, p, u);
    RestLive(t, p, x);
    assert Cut(t, p + 1);
  }

  /** Find a remaining node with a longest code. */
  lemma LongestRest(t: Tree, p: nat, l: seq<nat>) returns (found: bool, x: nat)
    requires Counts(t) && p < |t.iw| && |l| == |t.w| + |t.iw|
    ensures found ==> x < |l| && Rest(t, p, x) && forall y :: 0 <= y < |l| && Rest(t, p, y) ==> l[y] <= l[x]
    ensures !found ==> forall y :: 0 <= y < |l| ==> !Rest(t, p, y)
  {
    hide Rest;
    found, x := false, 0;
    for i := 0 to |l|
      invariant found ==> x < |l| && Rest(t, p, x) && forall y :: 0 <= y < i && Rest(t, p, y) ==> l[y] <= l[x]
      invariant !found ==> forall y :: 0 <= y < i ==> !Rest(t, p, y)
    {
      if Rest(t, p, i) && (!found || l[x] <= l[i]) {
        found, x := true, i;
      }
    }
  }

  /** Node u has at least as long a code as all the remaining nodes. */
  ghost predicate Deepest(t: Tree, p: nat, l: seq<nat>, u: nat)
    requires Counts(t) && p < |t.iw| && |l| == |t.w| + |t.iw| && u < |l|
  {
    forall x :: 0 <= x < |l| && Rest(t, p, x) ==> l[x] <= l[u]
  }

  /** Exchange so that one of the merged nodes is deepest, without spoiling the other one, v. */
  lemma Deepen(t: Tree, p: nat, l: seq<nat>, m: nat, u: nat, v: nat) returns (l': seq<nat>)
    requires Greedy(t) && p < |t.iw| && Rival(t, p, l, m)
    requires Kids(t, p) == (u, v) || Kids(t, p) == (v, u)
    ensures Rival(t, p, l', m) && LiveCost(t, p, l') <= LiveCost(t, p, l)
    ensures Deepest(t, p, l', u) && (Deepest(t, p, l, v) ==> Deepest(t, p, l', v))
  {
    hide LiveCost, Cut, Weights, Live, Wt, Active, Kids;
    var found, x := LongestRest(t, p, l);
    KidRange(t, p, u);
    l' := l;
    if found && l[u] < l[x] {
      KidsLight(t, p, u, x);
      SwapCost(t, p, l, m, u, x);
      l' := Swap(l, u, x);
    }
  }

  /** Every live term is a multiple of 2^(m - s) when no live code is longer than s. */
  lemma Divisible(t: Tree, p: nat, l: seq<nat>, m: nat, s: nat) returns (q: nat)
    requires Counts(t) && p < |t.r| && |l| == |t.w| + |t.iw| && s <= m
    requires forall x :: 0 <= x < |l| && Live(t, p, x) ==> l[x] <= s
    ensures Active(t, p, KraftTerms(l, m)) == q * Pow2(m - s)
  {
    assert t.r[p] <= p;
    var n := |t.w|;
    var a := SumDivisible(l, m, s, L(t, p), n);
    var b := SumDivisible(l, m, s, n + t.r[p], n + p);
    q := a + b;
    Distribute(a, b, Pow2(m - s));
  }

  lemma Distribute(a: nat, b: nat, d: nat)
    ensures (a + b) * d == a * d + b * d
  {
  }

  lemma {:induction false} SumDivisible(l: seq<nat>, m: nat, s: nat, a: nat, b: nat) returns (q: nat)
    requires s <= m && a <= b <= |l| && forall x :: a <= x < b ==> l[x] <= s
    ensures Sum(KraftTerms(l, m), a, b) == q * Pow2(m - s)
    decreases b - a
  {
    if a == b {
      q := 0;
    } else {
      q := SumDivisible(l, m, s, a + 1, b);
      Pow2Add(s - l[a], m - s);
      Distribute(Pow2(s - l[a]), q, Pow2(m - s));
      q := Pow2(s - l[a]) + q;
    }
  }

  lemma RoundDown(q: nat, d: nat, c: nat)
    requires d > 0 && q * d < (c + 1) * d
    ensures q * d <= c * d
  {
    if q > c {
      MulMono(c + 1, q, d);
      assert false;
    }
    MulMono(q, c, d);
  }

  /** With both merged nodes deepest, the longer one can be shortened to the other's length. */
  lemma Level(t: Tree, p: nat, l: seq<nat>, m: nat, u: nat, v: nat) returns (l': seq<nat>)
    requires Counts(t) && p < |t.iw| && Rival(t, p, l, m)
    requires Kids(t, p) == (u, v) || Kids(t, p) == (v, u)
    requires Deepest(t, p, l, u) && Deepest(t, p, l, v) && l[v] <= l[u]
    ensures Rival(t, p, l', m) && LiveCost(t, p, l') <= LiveCost(t, p, l) && l'[u] == l'[v]
    ensures forall x :: 0 <= x < |l'| && Live(t, p, x) ==> l'[x] <= l'[v]
  {
    hide LiveCost, Active, Kids, Wt, Live;
    KidRange(t, p, u);
    KidRange(t, p, v);
    var s := l[v];
    l' := l[u := s];
    ChangeOne(t, p, l, m, u, s);
    forall x | 0 <= x < |l'| && Live(t, p, x) ensures l'[x] <= s {
      assert x == u || x == v || Rest(t, p, x);
    }
    var q := Divisible(t, p, l', m, s);
    Pow2Add(s, m - s);
    Distribute(Pow2(s), 1, Pow2(m - s));
    RoundDown(q, Pow2(m - s), Pow2(s));
    MulMono(s, l[u], Wt(t, u));
  }

  /** Merging the two: the rival for the smaller problem saves exactly their weight. */
  lemma Merge(t: Tree, p: nat, l: seq<nat>, m: nat, u: nat, v: nat) returns (l': seq<nat>)
    requires Counts(t) && Weights(t) && p < |t.iw| && Rival(t, p, l, m)
    requires Kids(t, p) == (u, v) || Kids(t, p) == (v, u)
    requires l[u] == l[v] && forall x :: 0 <= x < |l| && Live(t, p, x) ==> l[x] <= l[v]
    ensures Rival(t, p + 1, l', m)
    ensures LiveCost(t, p + 1, l') + t.iw[p] == LiveCost(t, p, l)
  {
    hide Kids, Wt, Live, Counts, Weights, Active, LiveCost, KraftTerms, Pow2;
    Sizes(t);
    var s, n := l[v], |t.w|;
    KidRange(t, p, u);
    KidRange(t, p, v);
    if s == 0 {
      TwoEmptyCodes(t, p, l, m);
      assert false;
    }
    l' := l[n + p := s - 1];
    MergeKraft(t, p, l, m, s);
    MergeCost(t, p, l, s);
    forall x | 0 <= x < |l'| && Live(t, p + 1, x) ensures l'[x] <= m {
      RestLive(t, p, x);
    }
  }

  lemma Sizes(t: Tree)
    requires Counts(t)
    ensures |t.r| == |t.iw| + 1 <= |t.w|
  {
  }

  lemma MergeKraft(t: Tree, p: nat, l: seq<nat>, m: nat, s: nat)
    requires Counts(t) && p < |t.iw| && |l| == |t.w| + |t.iw| && 0 < s <= m
    requires l[Kids(t, p).0] == l[Kids(t, p).1] == s
    ensures Active(t, p + 1, KraftTerms(l[|t.w| + p := s - 1], m)) == Active(t, p, KraftTerms(l, m))
  {
    hide Kids, Counts, Live, Active;
    Sizes(t);
    var x := |t.w| + p;
    RestLive(t, p, x);
    ChangeDead(t, p, l, m, x, s - 1);
    ActiveStep(t, p, KraftTerms(l[x := s - 1], m));
    assert KraftTerm(s - 1, m) == 2 * KraftTerm(s, m);
  }

  lemma MergeCost(t: Tree, p: nat, l: seq<nat>, s: nat)
    requires Counts(t) && Weights(t) && p < |t.iw| && |l| == |t.w| + |t.iw| && 0 < s
    requires l[Kids(t, p).0] == l[Kids(t, p).1] == s
    ensures LiveCost(t, p + 1, l[|t.w| + p := s - 1]) + t.iw[p] == LiveCost(t, p, l)
  {
    hide Kids, Counts, Live, Active, Weights, Wt;
    Sizes(t);
    var x, k := |t.w| + p, Kids(t, p);
    RestLive(t, p, x);
    ChangeDead(t, p, l, 0, x, s - 1);
    ActiveStep(t, p, CostTerms(Weighted(t), l[x := s - 1]));
    MergedWeight(t, p);
    MergedCost(Wt(t, k.0), Wt(t, k.1), s);
  }

  lemma TwoEmptyCodes(t: Tree, p: nat, l: seq<nat>, m: nat)
    requires Counts(t) && p < |t.iw| && Rival(t, p, l, m)
    ensures l[Kids(t, p).0] > 0 || l[Kids(t, p).1] > 0
  {
    KidsPresent(t, p, l, m);
  }

  lemma MergedWeight(t: Tree, p: nat)
    requires Counts(t) && Weights(t) && p < |t.iw|
    ensures Wt(t, |t.w| + p) == t.iw[p] == Wt(t, Kids(t, p).0) + Wt(t, Kids(t, p).1)
  {
    hide Kids, Counts;
  }

  lemma MergedCost(a: nat, b: nat, s: nat)
    requires s > 0
    ensures (a + b) * (s - 1) + a + b == a * s + b * s
  {
  }

  /** Two codes of length zero would break the Kraft inequality. */
  lemma KidsPresent(t: Tree, p: nat, l: seq<nat>, m: nat)
    requires Counts(t) && p < |t.iw| && |l| == |t.w| + |t.iw|
    ensures var k := Kids(t, p); Active(t, p, KraftTerms(l, m)) >= KraftTerm(l[k.0], m) + KraftTerm(l[k.1], m)
  {
    var f := KraftTerms(l, m);
    ActiveStep(t, p, f);
    ActiveUpdate(t, p + 1, f, |t.w| + p, 0);
    RestLive(t, p, |t.w| + p);
  }

  /** No code satisfying the Kraft inequality is cheaper than the computed lengths. */
  lemma Optimal(t: Tree, rival: seq<nat>, m: nat)
    requires Full(t) && Feasible(rival, |t.w|, m)
    ensures Cost(t.w, Lengths(t)) <= Cost(t.w, rival)
  {
    hide Greedy, NodeDepth, LeafDepth, KraftTerm, Active;
    FullParts(t);
    var l := rival + seq(|t.iw|, _ => 0);
    ActiveStart(t, KraftTerms(l, m));
    assert KraftTerms(l, m)[..|t.w|] == KraftTerms(rival, m);
    SumSame(KraftTerms(l, m), KraftTerms(rival, m), |t.w|);
    LeavesLive(t);
    assert Rival(t, 0, l, m);
    OptimalLive(t, 0, l, m);
    var wt := Weighted(t);
    ActiveStart(t, CostTerms(wt, l));
    ActiveStart(t, CostTerms(wt, AllDepths(t)));
    LeavesFirst(t);
    LeafCosts(t, l, rival);
    LeafCosts(t, AllDepths(t), Lengths(t));
  }

  lemma LeavesLive(t: Tree)
    requires Counts(t)
    ensures forall x: nat :: Live(t, 0, x) ==> x < |t.w|
  {
  }

  lemma LeafCosts(t: Tree, l: seq<nat>, leaves: seq<nat>)
    requires |l| == |t.w| + |t.iw| && |leaves| == |t.w| && l[..|t.w|] == leaves
    ensures Sum(CostTerms(Weighted(t), l), 0, |t.w|) == Cost(t.w, leaves)
  {
    var f, g := CostTerms(Weighted(t), l), CostTerms(t.w, leaves);
    forall j | 0 <= j < |t.w| ensures f[j] == g[j] {
      assert l[..|t.w|][j] == l[j];
      assert Weighted(t)[j] == t.w[j];
    }
    assert f[..|t.w|] == g[..|t.w|];
    SumSame(f, g, |t.w|);
  }

  /** The merged tree's depths cost no more than any rival, at every stage. */
  lemma {:induction false} OptimalLive(t: Tree, p: nat, l: seq<nat>, m: nat)
    requires Full(t) && p < |t.w| && Rival(t, p, l, m)
    ensures LiveCost(t, p, AllDepths(t)) <= LiveCost(t, p, l)
    decreases |t.w| - p
  {
    hide Kids, Rival, LiveCost, AllDepths, Deepest, Weights, Cut, Live, Counts;
    FullParts(t);
    if p == |t.w| - 1 {
      RootCost(t);
    } else {
      var k := Kids(t, p);
      var l1 := Deepen(t, p, l, m, k.0, k.1);
      var l2 := Deepen(t, p, l1, m, k.1, k.0);
      RivalSize(t, p, l2, m);
      var l3 := Level(t, p, l2, m, if l2[k.1] <= l2[k.0] then k.0 else k.1, if l2[k.1] <= l2[k.0] then k.1 else k.0);
      var l4 := Merge(t, p, l3, m, k.0, k.1);
      OptimalLive(t, p + 1, l4, m);
      OwnCost(t, p);
    }
  }

  lemma RivalSize(t: Tree, p: nat, l: seq<nat>, m: nat)
    requires Counts(t) && p < |t.r| && Rival(t, p, l, m)
    ensures |l| == |t.w| + |t.iw|
  {
  }

  lemma RootCost(t: Tree)
    requires Full(t)
    ensures LiveCost(t, |t.w| - 1, AllDepths(t)) == 0
  {
    hide Active, NodeDepth, Weighted;
    RootActive(t, CostTerms(Weighted(t), AllDepths(t)));
    RootDepth(t);
  }

  lemma OwnCost(t: Tree, p: nat)
    requires Full(t) && p < |t.iw|
    ensures LiveCost(t, p, AllDepths(t)) == LiveCost(t, p + 1, AllDepths(t)) + t.iw[p]
  {
    hide Active, NodeDepth, Weighted, Kids, Greedy, Wt;
    FullParts(t);
    var k := Kids(t, p);
    ActiveStep(t, p, CostTerms(Weighted(t), AllDepths(t)));
    KidDepth(t, p, k.0);
    KidDepth(t, p, k.1);
    NodeOfInternal(t, p);
    MergedWeight(t, p);
    MergedCost(Wt(t, k.0), Wt(t, k.1), Depth(t, p) + 1);
  }

  // ----- the Fibonacci bound on the depth -----

  function Fib(n: nat): nat {
    if n <= 1 then n else Fib(n - 1) + Fib(n - 2)
  }

  /** What was merged before node p is no heavier than what is live at p. */
  lemma MergedBefore(t: Tree, p: nat, u: nat, x: nat)
    requires Greedy(t) && p < |t.r| && u < |t.w| + p && x < |t.w| + p && !Live(t, p, u) && Live(t, p, x)
    ensures Wt(t, u) <= Wt(t, x)
  {
    hide Weights;
    assert Cut(t, p);
  }

  lemma FibStep(h: nat, f: nat)
    ensures f * Fib(h + 3) == f * Fib(h + 2) + f * Fib(h + 1)
  {
    assert Fib(h + 3) == Fib(h + 2) + Fib(h + 1);
  }

  /** From an internal node whose weight and child weight reach f times consecutive Fibonacci numbers, every level up
      adds one step of the sequence. */
  lemma {:induction false} FibUp(t: Tree, i: nat, u: nat, h: nat, f: nat)
    requires Counts(t) && Full(t) && i < |t.iw| && (u == Kids(t, i).0 || u == Kids(t, i).1)
    requires t.iw[i] >= f * Fib(h + 2) && Wt(t, u) >= f * Fib(h + 1)
    ensures t.iw[|t.w| - 2] >= f * Fib(h + Depth(t, i) + 2)
    decreases |t.w| - i
  {
    hide Kids, Counts, Weights, Cut, Sorted, Wt, Live, Par, Full, Greedy, L, Fib, Depth;
    FullParts(t);
    TopDepth(t);
    if i < |t.w| - 2 {
      var p := DepthStep(t, i);
      var sib := FindSibling(t, i, p);
      SiblingHeavier(t, i, u, p, sib);
      FibStep(h, f);
      FibUp(t, p, |t.w| + i, h + 1, f);
      assert h + 1 + Depth(t, p) + 2 == h + Depth(t, i) + 2;
    }
  }

  lemma TopDepth(t: Tree)
    requires Full(t)
    ensures Depth(t, |t.w| - 2) == 0
  {
  }

  lemma DepthStep(t: Tree, i: nat) returns (p: nat)
    requires Full(t) && i < |t.w| - 2
    ensures i < p < |t.iw| && t.r[p] <= i < t.r[p + 1] && Depth(t, i) == Depth(t, p) + 1
  {
    hide Weights, Cut, Sorted;
    FullEnds(t);
    p := Par(t, i, 0);
  }

  lemma FindSibling(t: Tree, i: nat, p: nat) returns (sib: nat)
    requires Counts(t) && Weights(t) && i < p < |t.iw| && t.r[p] <= i < t.r[p + 1]
    ensures Kids(t, p) == (|t.w| + i, sib) || Kids(t, p) == (sib, |t.w| + i)
    ensures t.iw[p] == t.iw[i] + Wt(t, sib) && Wt(t, |t.w| + i) == t.iw[i]
  {
    hide Kids, Weights, Counts, Wt;
    KidOfInternal(t, p, i);
    sib := if Kids(t, p).0 == |t.w| + i then Kids(t, p).1 else Kids(t, p).0;
    MergedWeight(t, p);
    WtInternal(t, i);
  }

  lemma SiblingHeavier(t: Tree, i: nat, u: nat, p: nat, x: nat)
    requires Greedy(t) && i < p < |t.iw| && (u == Kids(t, i).0 || u == Kids(t, i).1)
    requires x == Kids(t, p).0 || x == Kids(t, p).1
    ensures Wt(t, u) <= Wt(t, x)
  {
    hide Kids, Weights, Cut, Sorted, Wt;
    KidRange(t, i, u);
    RMono(t, i + 1, p);
    KidRange(t, p, x);
    MergedBefore(t, p, u, x);
  }

  lemma WtInternal(t: Tree, i: nat)
    requires i < |t.iw|
    ensures Wt(t, |t.w| + i) == t.iw[i]
  {
  }

  lemma KidOfInternal(t: Tree, p: nat, i: nat)
    requires Counts(t) && p < |t.iw| && t.r[p] <= i < t.r[p + 1]
    ensures |t.w| + i == Kids(t, p).0 || |t.w| + i == Kids(t, p).1
  {
  }

  /** A code of length d needs a total weight of at least the (d+2)nd Fibonacci number. */
  lemma FibonacciBound(t: Tree, j: nat)
    requires Full(t) && j < |t.w|
    ensures Fib(LeafDepth(t, j) + 2) <= Sum(t.w, 0, |t.w|)
  {
    hide Cut, Kids, Weights, Sorted, Wt;
    FullEnds(t);
    var p := LeafPar(t, j, 0);
    MergedWeight(t, p);
    var k := Kids(t, p);
    KidOfLeaf(t, p, j);
    KidPositive(t, k.0);
    KidPositive(t, k.1);
    assert Fib(3) == 2;
    FibUp(t, p, j, 1, 1);
    RootWeight(t);
  }

  /** The weight of a symbol times the (d+1)st Fibonacci number, for a code of length d, is at most the total weight. */
  lemma LeafWeight(t: Tree, j: nat)
    requires Full(t) && j < |t.w|
    ensures t.w[j] * Fib(LeafDepth(t, j) + 1) <= Sum(t.w, 0, |t.w|)
  {
    hide Cut, Kids, Weights, Sorted, Wt, Fib;
    FullEnds(t);
    var p := LeafPar(t, j, 0);
    MergedWeight(t, p);
    KidOfLeaf(t, p, j);
    LeafWt(t, j);
    FirstFibs();
    FibUp(t, p, j, 0, t.w[j]);
    RootWeight(t);
  }

  lemma LeafWt(t: Tree, j: nat)
    requires j < |t.w|
    ensures Wt(t, j) == t.w[j]
  {
  }

  lemma FirstFibs()
    ensures Fib(1) == 1 && Fib(2) == 1
  {
  }

  lemma KidOfLeaf(t: Tree, p: nat, j: nat)
    requires Counts(t) && p < |t.iw| && L(t, p) <= j < L(t, p + 1)
    ensures j == Kids(t, p).0 || j == Kids(t, p).1
  {
  }

  lemma {:induction false} KidPositive(t: Tree, x: nat)
    requires Greedy(t) && x < |t.w| + |t.iw|
    ensures Wt(t, x) > 0
    decreases x
  {
    hide Cut, Sorted, Kids, Weights;
    if x >= |t.w| {
      var p := x - |t.w|;
      MergedWeight(t, p);
      KidPositive(t, Kids(t, p).0);
    }
  }

  lemma {:induction false} FibMono(a: nat, b: nat)
    requires a <= b
    ensures Fib(a) <= Fib(b)
  {
    if a < b {
      FibMono(a, b - 1);
    }
  }

  /** Sixteen-bit totals keep every code within 22 bits, so the 33-entry length histogram suffices. */
  lemma DepthBound(t: Tree, j: nat)
    requires Full(t) && j < |t.w| && Sum(t.w, 0, |t.w|) < 65536
    ensures LeafDepth(t, j) <= 22
  {
    hide Full, LeafDepth;
    FibonacciBound(t, j);
    var d := LeafDepth(t, j);
    if d > 22 {
      FibMono(25, d + 2);
      Fib25();
      assert false;
    }
  }

  lemma Fib25()
    ensures Fib(25) == 75025
  {
    assert Fib(10) == 55 && Fib(11) == 89;
    assert Fib(12) == 144 && Fib(13) == 233;
    assert Fib(14) == 377 && Fib(15) == 610;
    assert Fib(16) == 987 && Fib(17) == 1597;
    assert Fib(18) == 2584 && Fib(19) == 4181;
    assert Fib(20) == 6765 && Fib(21) == 10946;
    assert Fib(22) == 17711 && Fib(23) == 28657;
  }

  // ----- phase one: merging, weights turning into parent indices -----

  /** One more merge, taking d internal nodes (and 2 - d leaves). */
  function Push(t: Tree, d: nat, v: nat): Tree
    requires |t.r| > 0
  {
    Tree(t.w, t.iw + [v], t.r + [t.r[|t.r| - 1] + d])
  }

  /** The pair is the lightest one. */
  ghost predicate Lightest(t: Tree, d: nat)
    requires Counts(t)
  {
    var k, n := |t.iw|, |t.w|;
    var l, a := L(t, k), t.r[k];
    && 0 < k < n - 1 && d <= 2 && a + d <= k && l + 2 - d <= n
    && (d < 2 && a + d < k ==> t.w[l + 1 - d] <= t.iw[a + d])
    && (0 < d && l + 2 - d < n ==> t.iw[a + d - 1] <= t.w[l + 2 - d])
  }

  /** The weight of the merged pair. */
  ghost function PairWeight(t: Tree, d: nat): nat
    requires Counts(t) && Lightest(t, d)
  {
    var l, a := L(t, |t.iw|), t.r[|t.iw|];
    if d == 0 then t.w[l] + t.w[l + 1] else if d == 1 then t.w[l] + t.iw[a] else t.iw[a] + t.iw[a + 1]
  }

  lemma PushCounts(t: Tree, d: nat, v: nat)
    requires Counts(t) && Lightest(t, d)
    ensures Counts(Push(t, d, v))
    ensures forall p :: 0 <= p < |t.iw| ==> Kids(Push(t, d, v), p) == Kids(t, p)
    ensures forall x :: 0 <= x < |t.w| + |t.iw| ==> Wt(Push(t, d, v), x) == Wt(t, x)
  {
    var t' := Push(t, d, v);
    var k := |t.iw|;
    PushRange(t, d, v);
    forall p | 0 <= p < k ensures Kids(t', p) == Kids(t, p) {
      assert t'.r[p] == t.r[p] && t'.r[p + 1] == t.r[p + 1] && L(t', p) == L(t, p);
    }
  }

  lemma PushRange(t: Tree, d: nat, v: nat)
    requires Counts(t) && Lightest(t, d)
    ensures Counts(Push(t, d, v))
  {
    var t' := Push(t, d, v);
    var k := |t.iw|;
    assert t.r[k] < k;
    assert t'.r[k + 1] == t.r[k] + d;
    assert t'.r[0] == t.r[0];
    forall p | 0 <= p < |t'.r| ensures 0 <= 2 * p - t'.r[p] <= |t.w| && (p > 0 ==> t'.r[p] < p) {
      assert p <= k ==> t'.r[p] == t.r[p];
    }
    forall p, q | 0 <= p && q == p + 1 < |t'.r| ensures t'.r[p] <= t'.r[q] <= t'.r[p] + 2 {
      assert t'.r[p] == t.r[p];
      assert p < k ==> t'.r[q] == t.r[q];
    }
  }

  lemma PushKids(t: Tree, d: nat, v: nat)
    requires Counts(t) && Lightest(t, d) && Counts(Push(t, d, v))
    ensures var k := Kids(Push(t, d, v), |t.iw|);
            k.0 < |t.w| + |t.iw| && Live(t, |t.iw|, k.0) && k.1 < |t.w| + |t.iw| && Live(t, |t.iw|, k.1)
            && PairWeight(t, d) == Wt(t, k.0) + Wt(t, k.1)
  {
    var t' := Push(t, d, v);
    var m := |t.iw|;
    assert t'.r[m] == t.r[m];
    assert t'.r[m + 1] == t.r[m] + d;
    assert L(t', m) == L(t, m);
  }

  lemma PushSorted(t: Tree, d: nat)
    requires Greedy(t) && Lightest(t, d) && Counts(Push(t, d, PairWeight(t, d)))
    ensures Sorted(Push(t, d, PairWeight(t, d)).iw)
  {
    hide Kids, Cut, Live, Lightest, Weights;
    var k, v := |t.iw|, PairWeight(t, d);
    PushKids(t, d, v);
    var pair := Kids(Push(t, d, v), k);
    assert 0 < k by { Positive(t, d); }
    var last := Kids(t, k - 1);
    KidRange(t, k - 1, last.0);
    KidRange(t, k - 1, last.1);
    MergedWeight(t, k - 1);
    MergedBefore(t, k, last.0, pair.0);
    MergedBefore(t, k, last.1, pair.1);
    assert t.iw[k - 1] <= v;
  }

  lemma Positive(t: Tree, d: nat)
    requires Counts(t) && Lightest(t, d)
    ensures 0 < |t.iw|
  {
  }

  lemma PairHeavy(t: Tree, d: nat, u: nat)
    requires Greedy(t) && Lightest(t, d) && u < |t.w| + |t.iw| && !Live(t, |t.iw|, u)
    ensures Wt(t, u) <= PairWeight(t, d)
  {
    hide Kids, Weights, Cut, Lightest, Live, Wt, PairWeight;
    var v := PairWeight(t, d);
    PushCounts(t, d, v);
    PushKids(t, d, v);
    var pair := Kids(Push(t, d, v), |t.iw|);
    MergedBefore(t, |t.iw|, u, pair.0);
  }

  lemma PushCutLeaves(t: Tree, d: nat, j: nat, i: nat)
    requires Greedy(t) && Lightest(t, d) && j < L(t, |t.iw|) + 2 - d && t.r[|t.iw|] + d <= i < |t.iw|
    ensures t.w[j] <= t.iw[i]
  {
    hide Weights;
    assert Cut(t, |t.iw|);
  }

  lemma PushCutNodes(t: Tree, d: nat, i: nat, j: nat)
    requires Greedy(t) && Lightest(t, d) && L(t, |t.iw|) + 2 - d <= j < |t.w| && i < t.r[|t.iw|] + d
    ensures t.iw[i] <= t.w[j]
  {
    hide Weights;
    assert Cut(t, |t.iw|);
  }

  lemma PushCutPair(t: Tree, d: nat, j: nat)
    requires Greedy(t) && Lightest(t, d) && j < L(t, |t.iw|) + 2 - d
    ensures t.w[j] <= PairWeight(t, d)
  {
    hide Weights, Cut, Kids;
    if j < L(t, |t.iw|) {
      PairHeavy(t, d, j);
    }
  }

  lemma PushCut(t: Tree, d: nat)
    requires Greedy(t) && Lightest(t, d) && Counts(Push(t, d, PairWeight(t, d)))
    ensures Cut(Push(t, d, PairWeight(t, d)), |t.iw| + 1)
  {
    hide Kids, Weights, PairWeight, Lightest, Counts;
    PushInRange(t, d);
    var k, n, v := |t.iw|, |t.w|, PairWeight(t, d);
    var t' := Push(t, d, v);
    var l, a := L(t, k), t.r[k];
    assert t'.r[k + 1] == a + d && L(t', k + 1) == l + 2 - d;
    forall j, i | 0 <= j < l + 2 - d && a + d <= i < k + 1 ensures t'.w[j] <= t'.iw[i] {
      if i < k {
        PushCutLeaves(t, d, j, i);
      } else {
        PushCutPair(t, d, j);
      }
    }
    forall i, j | 0 <= i < a + d && l + 2 - d <= j < n ensures t'.iw[i] <= t'.w[j] {
      PushCutNodes(t, d, i, j);
    }
  }

  lemma PushInRange(t: Tree, d: nat)
    requires Counts(t) && Lightest(t, d)
    ensures |t.r| == |t.iw| + 1 && t.r[|t.iw|] + d <= |t.iw| && 0 <= L(t, |t.iw|) <= L(t, |t.iw|) + 2 - d <= |t.w|
  {
  }

  lemma PushOldCut(t: Tree, d: nat, v: nat, p: nat)
    requires Counts(t) && Counts(Push(t, d, v)) && p < |t.r| && Cut(t, p)
    ensures Cut(Push(t, d, v), p)
  {
    var t' := Push(t, d, v);
    assert t'.r[p] == t.r[p];
    assert t.r[p] <= p;
  }

  /** Merging the lightest pair keeps the history greedy. */
  lemma PushGreedy(t: Tree, d: nat)
    requires Greedy(t) && Lightest(t, d)
    ensures Greedy(Push(t, d, PairWeight(t, d)))
  {
    hide Kids, Cut, Lightest, Weights, Wt;
    var k, v := |t.iw|, PairWeight(t, d);
    var t' := Push(t, d, v);
    PushCounts(t, d, v);
    PushSorted(t, d);
    PushWeights(t, d);
    PushCut(t, d);
    forall p | 0 <= p < |t'.r| ensures Cut(t', p) {
      if p < |t.r| {
        PushOldCut(t, d, v, p);
      }
    }
  }

  lemma PushWeights(t: Tree, d: nat)
    requires Greedy(t) && Lightest(t, d) && Counts(Push(t, d, PairWeight(t, d)))
    ensures Weights(Push(t, d, PairWeight(t, d)))
  {
    hide Kids, Cut, Lightest, Wt;
    var k, v := |t.iw|, PairWeight(t, d);
    var t' := Push(t, d, v);
    PushCounts(t, d, v);
    PushKids(t, d, v);
    forall p | 0 <= p < |t'.iw| ensures t'.iw[p] == Wt(t', Kids(t', p).0) + Wt(t', Kids(t', p).1) {
      if p < k {
        assert t'.iw[p] == t.iw[p];
      }
    }
  }

  /** The array in the middle of phase one: parent indices, then internal weights, then leaf weights. */
  ghost predicate Merging(a: seq<nat>, t: Tree)
    requires Counts(t)
  {
    var k := |t.iw|;
    && |a| == |t.w|
    && (forall i :: 0 <= i < t.r[k] ==> a[i] < k && t.r[a[i]] <= i < t.r[a[i] + 1])
    && (forall i :: t.r[k] <= i < k ==> a[i] == t.iw[i])
    && (forall j :: L(t, k) <= j < |t.w| ==> a[j] == t.w[j])
  }

  function U16(x: nat): (r: nat)
    ensures r < 65536
  {
    x % 65536
  }

  lemma Advance(a: seq<nat>, a': seq<nat>, t: Tree, d: nat, v: nat)
    requires Counts(t) && Merging(a, t) && Lightest(t, d) && Counts(Push(t, d, v)) && |a'| == |a|
    requires a'[|t.iw|] == v
    requires forall i :: t.r[|t.iw|] <= i < t.r[|t.iw|] + d ==> a'[i] == |t.iw|
    requires forall i :: 0 <= i < |a| && i != |t.iw| && !(t.r[|t.iw|] <= i < t.r[|t.iw|] + d) ==> a'[i] == a[i]
    ensures Merging(a', Push(t, d, v))
  {
    var t' := Push(t, d, v);
    var k := |t.iw|;
    var r0 := t.r[k];
    assert r0 < k && k < L(t, k) && r0 + d <= k;
    hide Counts, Lightest;
    assert t'.r[k] == r0 && t'.r[k + 1] == r0 + d && L(t', k + 1) == L(t, k) + 2 - d;
    forall i | 0 <= i < r0 + d ensures a'[i] < k + 1 && t'.r[a'[i]] <= i < t'.r[a'[i] + 1] {
      if i < r0 {
        assert a'[i] == a[i];
        assert t'.r[a[i]] == t.r[a[i]] && t'.r[a[i] + 1] == t.r[a[i] + 1];
      } else {
        assert a'[i] == k;
      }
    }
  }

  lemma FirstStep(t: Tree, w: seq<nat>)
    requires |w| >= 2 && Sorted(w) && (forall j :: 0 <= j < |w| ==> w[j] > 0)
    requires t == Tree(w, [w[0] + w[1]], [0, 0])
    ensures Greedy(t)
  {
    assert L(t, 0) == 0 && L(t, 1) == 2;
    assert Kids(t, 0) == (0, 1);
  }

  lemma NoTruncation(t: Tree, d: nat)
    requires Greedy(t) && Lightest(t, d)
    ensures PairWeight(t, d) <= Sum(t.w, 0, |t.w|)
  {
    hide Weights, Cut, Sum, Kids, Lightest, Sorted;
    PushGreedy(t, d);
    WeightBound(Push(t, d, PairWeight(t, d)), |t.iw|);
  }

  /** The first pick of a round: the lighter front becomes the new node's weight. */
  method PickFirst(a: array<nat>, next: nat, root0: nat, leaf0: nat) returns (root: nat, leaf: nat, ghost first: bool)
    requires root0 < next < leaf0 <= a.Length
    modifies a
    ensures first <==> leaf0 >= a.Length || old(a[root0]) < old(a[leaf0])
    ensures root == root0 + (if first then 1 else 0) && leaf == leaf0 + (if first then 0 else 1)
    ensures a[next] == if first then old(a[root0]) else old(a[leaf0])
    ensures a[root0] == if first then next else old(a[root0])
    ensures forall i :: 0 <= i < a.Length && i != next && i != root0 ==> a[i] == old(a[i])
  {
    root, leaf, first := root0, leaf0, leaf0 >= a.Length || a[root0] < a[leaf0];
    if leaf >= a.Length || a[root] < a[leaf] {
      a[next] := a[root];
      a[root] := next;
      root := root + 1;
    } else {
      a[next] := a[leaf];
      leaf := leaf + 1;
    }
  }

  /** The second pick: the lighter front is added, in sixteen bits. */
  method PickSecond(a: array<nat>, next: nat, root0: nat, leaf0: nat) returns (root: nat, leaf: nat, ghost second: bool)
    requires root0 <= next < leaf0 <= a.Length && next < a.Length && (leaf0 == a.Length ==> root0 < next)
    modifies a
    ensures second <==> leaf0 >= a.Length || (root0 < next && old(a[root0]) < old(a[leaf0]))
    ensures root == root0 + (if second then 1 else 0) && leaf == leaf0 + (if second then 0 else 1)
    ensures a[next] == U16(old(a[next]) + (if second then old(a[root0]) else old(a[leaf0])))
    ensures second ==> a[root0] == next
    ensures forall i :: 0 <= i < a.Length && i != next && !(second && i == root0) ==> a[i] == old(a[i])
  {
    root, leaf, second := root0, leaf0, leaf0 >= a.Length || (root0 < next && a[root0] < a[leaf0]);
    if leaf >= a.Length || (root < next && a[root] < a[leaf]) {
      a[next] := U16(a[next] + a[root]);
      a[root] := next;
      root := root + 1;
    } else {
      a[next] := U16(a[next] + a[leaf]);
      leaf := leaf + 1;
    }
  }

  /** One round of the merge loop: pick the lighter front twice. */
  method MergeRound(a: array<nat>, next: nat, root0: nat, leaf0: nat, ghost t: Tree)
    returns (root: nat, leaf: nat, ghost d: nat)
    requires Greedy(t) && Merging(a[..], t) && next == |t.iw| && 0 < next < a.Length - 1
    requires root0 == t.r[next] && leaf0 == L(t, next)
    requires Sum(t.w, 0, |t.w|) < 65536
    modifies a
    ensures Lightest(t, d) && root == root0 + d && leaf == leaf0 + 2 - d
    ensures Counts(Push(t, d, PairWeight(t, d))) && Merging(a[..], Push(t, d, PairWeight(t, d)))
  {
    hide Weights, Cut, Sum, Kids, Counts, Lightest, PairWeight, U16;
    Fronts(t);
    ghost var a0 := a[..];
    ghost var first, second;
    root, leaf, first := PickFirst(a, next, root0, leaf0);
    root, leaf, second := PickSecond(a, next, root, leaf);
    d := root - root0;
    Picked(t, first, second, d);
    NoTruncation(t, d);
    ghost var v := PairWeight(t, d);
    PushRange(t, d, v);
    NoWrap(v);
    Advance(a0, a[..], t, d, v);
  }

  lemma NoWrap(x: nat)
    requires x < 65536
    ensures U16(x) == x
  {
  }

  /** Where the two queues stand before a merge. */
  lemma Fronts(t: Tree)
    requires Greedy(t) && 0 < |t.iw| < |t.w| - 1
    ensures |t.r| == |t.iw| + 1 && t.r[|t.iw|] < |t.iw| && |t.iw| < L(t, |t.iw|) <= |t.w|
    ensures L(t, |t.iw|) == |t.w| ==> t.r[|t.iw|] + 1 < |t.iw|
    ensures L(t, |t.iw|) == |t.w| - 1 ==> t.r[|t.iw|] < |t.iw|
  {
  }

  /** Picking the lighter front twice takes the lightest pair, whichever way the comparisons go. */
  lemma Picked(t: Tree, first: bool, second: bool, d: nat)
    requires Greedy(t) && 0 < |t.iw| < |t.w| - 1
    requires var k, n := |t.iw|, |t.w|;
             var l, a := L(t, k), t.r[k];
             && a < k && l <= n
             && (first <==> l >= n || t.iw[a] < t.w[l])
             && (first ==> (second <==> l >= n || (a + 1 < k && t.iw[a + 1] < t.w[l])))
             && (!first ==> (second <==> l + 1 >= n || (a < k && t.iw[a] < t.w[l + 1])))
             && d == (if first then 1 else 0) + (if second then 1 else 0)
    ensures Lightest(t, d)
    ensures var k := |t.iw|;
            var l, a := L(t, k), t.r[k];
            PairWeight(t, d) == (if first then t.iw[a] else t.w[l])
              + (if second then (if first then t.iw[a + 1] else t.iw[a]) else (if first then t.w[l] else t.w[l + 1]))
  {
    hide Cut, Weights;
  }

  /** Phase one. */
  method MergePhase(a: array<nat>) returns (ghost t: Tree)
    requires a.Length >= 2 && Sorted(a[..]) && (forall j :: 0 <= j < a.Length ==> a[j] > 0)
    requires Sum(a[..], 0, a.Length) < 65536
    modifies a
    ensures t.w == old(a[..]) && Full(t) && Merging(a[..], t)
  {
    hide Weights, Cut, Sum, Kids, Lightest, PairWeight, Counts, Sorted;
    var n := a.Length;
    ghost var w := a[..];
    t := Tree(w, [w[0] + w[1]], [0, 0]);
    FirstStep(t, w);
    SumTwo(w);
    a[0] := U16(a[0] + a[1]);
    Sizes(t);
    assert L(t, 1) == 2;
    assert Merging(a[..], t);
    var root, leaf := 0, 2;
    for next := 1 to n - 1
      invariant t.w == w && |t.iw| == next && |t.r| == next + 1 && Greedy(t) && Merging(a[..], t)
      invariant root == t.r[next] && leaf == L(t, next)
    {
      ghost var d;
      Sizes(t);
      root, leaf, d := MergeRound(a, next, root, leaf, t);
      PushGreedy(t, d);
      t := Push(t, d, PairWeight(t, d));
    }
  }

  lemma SumTwo(w: seq<nat>)
    requires |w| >= 2
    ensures w[0] + w[1] <= Sum(w, 0, |w|)
  {
  }

  /** The depths of the internal nodes. */
  function Depths(t: Tree): (d: seq<nat>)
    requires Full(t)
    ensures |d| == |t.w| - 1 && forall i :: 0 <= i < |d| ==> d[i] == Depth(t, i)
  {
    seq(|t.w| - 1, i requires 0 <= i < |t.w| - 1 => Depth(t, i))
  }

  /** The parents of the internal nodes below the root. */
  function Parents(t: Tree): (q: seq<nat>)
    requires Full(t)
    ensures |q| == |t.w| - 2 && forall i :: 0 <= i < |q| ==> i < q[i] <= |q| && Depths(t)[i] == Depths(t)[q[i]] + 1
  {
    FullEnds(t);
    seq(|t.w| - 2, i requires 0 <= i < |t.w| - 2 => Par(t, i, 0))
  }

  lemma CellsAreParents(a: seq<nat>, t: Tree)
    requires Full(t) && Merging(a, t)
    ensures |a| == |t.w| && Depths(t)[|t.w| - 2] == 0
    ensures forall i :: 0 <= i < |t.w| - 2 ==> a[i] == Parents(t)[i]
  {
    hide Weights, Cut, Sorted, Depth;
    FullEnds(t);
    RootAtTop(t);
    forall i | 0 <= i < |t.w| - 2 ensures a[i] == Parents(t)[i] {
      ParIs(t, i, a[i]);
    }
  }

  lemma RootAtTop(t: Tree)
    requires Full(t)
    ensures Depth(t, |t.w| - 2) == 0
  {
  }

  /** Phase two: parent indices q turn into depths d, from the root down. */
  method DepthPhase(a: array<nat>, ghost q: seq<nat>, ghost d: seq<nat>)
    requires a.Length >= 2 && |d| == a.Length - 1 && |q| == a.Length - 2 && d[|q|] == 0
    requires forall i {:trigger q[i]} :: 0 <= i < |q| ==> i < q[i] <= |q| && d[i] == d[q[i]] + 1
    requires forall i :: 0 <= i < |d| ==> d[i] < 65536
    requires forall i :: 0 <= i < |q| ==> a[i] == q[i]
    modifies a
    ensures a[..|d|] == d
  {
    hide U16;
    var n := a.Length;
    a[n - 2] := 0;
    var next := n - 3;
    while next >= 0
      invariant -1 <= next <= n - 3
      invariant forall i :: next < i <= n - 2 ==> a[i] == d[i]
      invariant forall i :: 0 <= i <= next ==> a[i] == q[i]
    {
      assert a[a[next]] == d[q[next]] && d[next] == d[q[next]] + 1;
      NoWrap(d[next]);
      a[next] := U16(a[a[next]] + 1);
      next := next - 1;
    }
  }

  /** Internal nodes no deeper than level l start at index s. */
  ghost predicate LevelStart(d: seq<nat>, l: int, s: nat) {
    s <= |d| && forall i :: 0 <= i < |d| ==> (d[i] <= l <==> s <= i)
  }

  /** One level down: the nodes whose parents start at s start at r[s]. */
  lemma NextLevel(t: Tree, l: nat, s: nat)
    requires Full(t) && LevelStart(Depths(t), l - 1, s)
    ensures LevelStart(Depths(t), l, t.r[s])
  {
    hide Weights, Cut, Sorted;
    FullEnds(t);
    var d := Depths(t);
    RMono(t, s, |t.w| - 1);
    forall i | 0 <= i < |d| ensures d[i] <= l <==> t.r[s] <= i {
      if i < |t.w| - 2 {
        var p := Par(t, i, 0);
        assert d[p] <= l - 1 <==> s <= p;
        if p < s {
          RMono(t, p + 1, s);
        } else {
          RMono(t, s, p);
        }
      }
    }
  }

  /** How many leaves a level holds, from the counts of internal nodes on the levels around it. */
  lemma LevelSizes(t: Tree, s: nat, prev: nat)
    requires Counts(t) && s <= prev < |t.r| && t.r[prev] == s
    ensures L(t, prev) == L(t, s) + 2 * (prev - s) - (s - t.r[s])
    ensures 0 <= L(t, s) <= L(t, prev) && t.r[s] <= s && t.r[s] <= L(t, s)
    ensures s == prev ==> L(t, prev) == 0
  {
    RMono(t, s, prev);
  }

  /** Leaves whose parents are at level l - 1 are at level l. */
  lemma LeafLevel(t: Tree, l: nat, s: nat, prev: nat, j: nat)
    requires Full(t) && l > 0 && LevelStart(Depths(t), l - 1, s) && LevelStart(Depths(t), l - 2, prev) && s <= prev
    requires L(t, s) <= j < L(t, prev)
    ensures j < |t.w| && Lengths(t)[j] == l
  {
    hide Weights, Cut, Sorted;
    FullEnds(t);
    var q := LeafPar(t, j, 0);
    if q < s {
      RMono(t, q + 1, s);
      assert false;
    }
    if prev <= q {
      RMono(t, prev, q);
      assert false;
    }
    assert Depths(t)[q] == l - 1;
  }

  /** The leaves of level l occupy the cells from L(s) to L(prev). */
  lemma LevelLeaves(t: Tree, l: nat, s: nat, prev: nat, low: int)
    requires Full(t) && Sum(t.w, 0, |t.w|) < 65536 && s <= prev < |t.r|
    requires l == 0 ==> low == |t.w| - 1
    requires l > 0 ==>
              LevelStart(Depths(t), l - 1, s) && LevelStart(Depths(t), l - 2, prev) && low == L(t, s) - 1 && s < prev
    ensures -1 <= low && l < 65536
    ensures l > 0 ==> L(t, prev) <= |t.w| && AtLevel(Lengths(t), low, L(t, prev), l)
  {
    FullParts(t);
    hide Full, Greedy, LevelStart, Sum, Depths, Lengths, Weights;
    if l > 0 {
      LevelSmall(t, l, s, prev);
      assert t.r[s] <= s && 2 * prev - t.r[prev] <= |t.w|;
      forall j | low < j < L(t, prev) ensures Lengths(t)[j] == l {
        LeafLevel(t, l, s, prev, j);
      }
    }
  }

  lemma LevelSmall(t: Tree, l: nat, s: nat, prev: nat)
    requires Full(t) && Sum(t.w, 0, |t.w|) < 65536 && s < prev < |t.r| && l > 0
    requires LevelStart(Depths(t), l - 1, s) && LevelStart(Depths(t), l - 2, prev)
    ensures l < 65536
  {
    hide Greedy, Sum;
    DepthsSmall(t, s);
    assert Depths(t)[s] > l - 2;
  }

  /** Phase three: depths of internal nodes turn into depths of leaves, level by level from the right. */
  method LengthPhase(a: array<nat>, ghost t: Tree)
    requires Full(t) && a.Length == |t.w| && a[..|t.w| - 1] == Depths(t)
    requires Sum(t.w, 0, |t.w|) < 65536
    modifies a
    ensures a[..] == Lengths(t)
  {
    FullParts(t);
    FullEnds(t);
    hide Full, Greedy, Counts, Sum, LevelStart, L, Depths, Lengths, Halves, AtLevel;
    var n := a.Length;
    ghost var d, lens := Depths(t), Lengths(t);
    var avbl, used, dpth := 1, 0, 0;
    var root, next := n - 2, n - 1;
    ghost var prev := n - 1;
    FirstLevel(d);
    FirstHalves(a[..], d, lens);
    while avbl > 0
      invariant -1 <= root <= n - 2 && used == 0 && root + 1 <= prev <= n - 1 && -1 <= next < n
      invariant LevelStart(d, dpth - 1, root + 1)
      invariant dpth == 0 ==> avbl == 1 && next == n - 1 && root == n - 2
      invariant dpth > 0 ==> LevelStart(d, dpth - 2, prev) && root + 1 == t.r[prev]
      invariant dpth > 0 ==> avbl == 2 * (prev - root - 1) && next + 1 == L(t, prev)
      invariant Halves(a[..], d, lens, root, next)
      decreases if dpth == 0 then n else prev
    {
      ghost var s := root + 1;
      NextLevel(t, dpth, s);
      if dpth > 0 {
        LevelSizes(t, s, prev);
      }
      root, used := SkipLevel(a, d, lens, dpth, root, next, t.r[s]);
      LevelLeaves(t, dpth, s, prev, next - avbl + used);
      next, avbl := FillLevel(a, d, lens, dpth, root, next, avbl, used);
      avbl := 2 * used;
      dpth := dpth + 1;
      used := 0;
      prev := s;
    }
    LevelSizes(t, root + 1, prev);
    LastHalf(a[..], d, lens, root, next);
  }

  lemma FirstLevel(d: seq<nat>)
    ensures LevelStart(d, -1, |d|)
  {
  }

  lemma LevelOrder(d: seq<nat>, l: int, s: nat, s': nat)
    requires LevelStart(d, l - 1, s) && LevelStart(d, l, s')
    ensures s' <= s <= |d|
  {
    if s < |d| {
      assert d[s] <= l - 1;
    }
  }

  /** The cells while the lengths are filled in: depths up to root, and lengths behind next. */
  ghost predicate Halves(a: seq<nat>, d: seq<nat>, lens: seq<nat>, root: int, next: int) {
    && |lens| == |a| == |d| + 1 && -1 <= root < |d| && -1 <= next < |a|
    && (forall i :: 0 <= i <= root ==> a[i] == d[i]) && (forall j :: next < j < |a| ==> a[j] == lens[j])
  }

  /** The leaves behind low and before high are at one level. */
  ghost predicate AtLevel(lens: seq<nat>, low: int, high: int, l: nat) {
    -1 <= low && high <= |lens| && forall j :: low < j < high ==> lens[j] == l
  }

  lemma FirstHalves(a: seq<nat>, d: seq<nat>, lens: seq<nat>)
    requires |lens| == |a| == |d| + 1 && a[..|d|] == d
    ensures Halves(a, d, lens, |d| - 1, |a| - 1)
  {
    assert forall i :: 0 <= i < |d| ==> a[..|d|][i] == a[i];
  }

  lemma LastHalf(a: seq<nat>, d: seq<nat>, lens: seq<nat>, root: int, next: int)
    requires Halves(a, d, lens, root, next) && next == -1
    ensures a == lens
  {
  }

  /** Count the internal nodes of the current level. */
  method SkipLevel(a: array<nat>, ghost d: seq<nat>, ghost lens: seq<nat>, dpth: nat, root0: int, ghost next: int,
      ghost s': nat)
    returns (root: int, used: nat)
    requires Halves(a[..], d, lens, root0, next)
    requires LevelStart(d, dpth - 1, root0 + 1) && LevelStart(d, dpth, s')
    ensures root == s' - 1 && used == root0 - root && root <= root0 && Halves(a[..], d, lens, root, next)
  {
    LevelOrder(d, dpth, root0 + 1, s');
    root, used := root0, 0;
    while root >= 0 && a[root] == dpth
      invariant s' - 1 <= root <= root0 && used == root0 - root
    {
      used := used + 1;
      root := root - 1;
    }
  }

  /** Write the current level's leaves, from the right. */
  method FillLevel(a: array<nat>, ghost d: seq<nat>, ghost lens: seq<nat>, dpth: nat, ghost root: int,
                   next0: int, avbl0: nat, used: nat)
    returns (next: int, avbl: nat)
    requires Halves(a[..], d, lens, root, next0) && dpth < 65536
    requires avbl0 >= used && root <= next0 + used - avbl0
    requires avbl0 > used ==> AtLevel(lens, next0 + used - avbl0, next0 + 1, dpth)
    modifies a
    ensures next == next0 + used - avbl0 && Halves(a[..], d, lens, root, next)
  {
    next, avbl := next0, avbl0;
    while avbl > used
      invariant avbl >= used && next - avbl == next0 - avbl0 && Halves(a[..], d, lens, root, next)
    {
      a[next] := U16(dpth);
      next := next - 1;
      avbl := avbl - 1;
    }
  }

  lemma DepthsSmall(t: Tree, i: nat)
    requires Full(t) && i <= |t.w| - 2 && Sum(t.w, 0, |t.w|) < 65536
    ensures Depths(t)[i] <= 22
  {
    hide Greedy, Depth, LeafDepth, Sum;
    DeepestFirst(t, |t.w| + i);
    DepthBound(t, 0);
  }

  /** Lengths that do not increase along the array. */
  ghost predicate NonIncreasing(s: seq<nat>) {
    forall i, j :: 0 <= i <= j < |s| ==> s[i] >= s[j]
  }

  /** Lengths of n codes of at most m bits that satisfy the Kraft inequality. */
  ghost predicate Feasible(lens: seq<nat>, n: nat, m: nat) {
    |lens| == n && (forall j :: 0 <= j < n ==> lens[j] <= m) && Kraft(lens, m) <= Pow2(m)
  }

  /** What is promised of the code lengths for sorted positive weights. */
  ghost predicate MinimumRedundancy(w: seq<nat>, lens: seq<nat>) {
    && |lens| == |w| && NonIncreasing(lens)
    && (forall i :: 0 <= i < |lens| ==> 0 < lens[i] <= 22)
    && (forall m: nat :: m >= 22 ==> Kraft(lens, m) == Pow2(m))
    && (forall i :: 0 <= i < |lens| ==> w[i] * Fib(lens[i] + 1) <= Sum(w, 0, |w|))
    && forall rival: seq<nat>, m: nat :: Feasible(rival, |w|, m) ==> Cost(w, lens) <= Cost(w, rival)
  }

  /** The lengths of a finished tree are minimum-redundancy lengths. */
  lemma LengthsMinimal(t: Tree)
    requires Full(t) && Sum(t.w, 0, |t.w|) < 65536
    ensures MinimumRedundancy(t.w, Lengths(t))
  {
    hide Full, Depth, Kraft, Cost, Sum, Pow2, Fib;
    var lens := Lengths(t);
    forall i | 0 <= i < |lens| ensures t.w[i] * Fib(lens[i] + 1) <= Sum(t.w, 0, |t.w|) {
      LeafWeight(t, i);
    }
    forall i, j | 0 <= i <= j < |lens| ensures lens[i] >= lens[j] {
      LeafDepthMono(t, i, j);
    }
    forall i | 0 <= i < |lens| ensures 0 < lens[i] <= 22 {
      DepthBound(t, i);
    }
    forall m: nat | m >= 22 ensures Kraft(lens, m) == Pow2(m) {
      NonEmpty(t);
      DepthBound(t, 0);
      KraftEquality(t, m);
    }
    forall rival: seq<nat>, m: nat | Feasible(rival, |t.w|, m)
      ensures Cost(t.w, lens) <= Cost(t.w, rival)
    {
      Optimal(t, rival, m);
    }
  }

  lemma NonEmpty(t: Tree)
    requires Full(t)
    ensures |t.w| >= 2
  {
  }

  /** The whole computation on an array of sorted positive weights. */
  method CalculateMinimumRedundancy(a: array<nat>)
    requires Sorted(a[..]) && (forall j :: 0 <= j < a.Length ==> a[j] > 0) && Sum(a[..], 0, a.Length) < 65536
    modifies a
    ensures a.Length == 1 ==> a[0] == 1
    ensures a.Length >= 2 ==> MinimumRedundancy(old(a[..]), a[..])
  {
    hide Greedy, Sum, MinimumRedundancy, Depths, Parents, Lengths, Merging;
    if a.Length == 0 {
      return;
    } else if a.Length == 1 {
      a[0] := 1;
      return;
    }
    ghost var t := MergePhase(a);
    CellsAreParents(a[..], t);
    forall i | 0 <= i < |Depths(t)| ensures Depths(t)[i] < 65536 {
      DepthsSmall(t, i);
    }
    DepthPhase(a, Parents(t), Depths(t));
    LengthPhase(a, t);
    LengthsMinimal(t);
  }
}
