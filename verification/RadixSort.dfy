/** The two-pass radix sort of symbol frequencies by their sixteen-bit keys. */
module RadixSort {

  datatype SymFreq = SymFreq(key: nat, sym: nat)

  /** The byte of the key that a pass sorts by. */
  function Digit(x: SymFreq, pass: nat): (d: nat)
    ensures d < 256
  {
    if pass == 0 then x.key % 256 else x.key / 256 % 256
  }

  function CountDigit(s: seq<SymFreq>, pass: nat, d: nat): (n: nat)
    ensures n <= |s|
  {
    if s == [] then 0
    else CountDigit(s[..|s| - 1], pass, d) + (if Digit(s[|s| - 1], pass) == d then 1 else 0)
  }

  /** Where the entries with digit d start. */
  function Start(s: seq<SymFreq>, pass: nat, d: nat): nat {
    if d == 0 then 0 else Start(s, pass, d - 1) + CountDigit(s, pass, d - 1)
  }

  /** Where the pass puts entry i. */
  function Rank(s: seq<SymFreq>, pass: nat, i: nat): nat
    requires i < |s|
  {
    var d := Digit(s[i], pass);
    Start(s, pass, d) + CountDigit(s[..i], pass, d)
  }

  lemma CountStep(s: seq<SymFreq>, pass: nat, i: nat)
    requires i < |s|
    ensures forall d ::
              CountDigit(s[..i + 1], pass, d) == CountDigit(s[..i], pass, d) + (if Digit(s[i], pass) == d then 1 else 0)
  {
    assert s[..i + 1][..i] == s[..i];
  }

  lemma {:induction false} CountMono(s: seq<SymFreq>, pass: nat, i: nat, j: nat, d: nat)
    requires i <= j <= |s|
    ensures CountDigit(s[..i], pass, d) <= CountDigit(s[..j], pass, d)
    decreases j - i
  {
    if i < j {
      CountStep(s, pass, j - 1);
      CountMono(s, pass, i, j - 1, d);
    }
  }

  lemma {:induction false} StartMono(s: seq<SymFreq>, pass: nat, a: nat, b: nat)
    requires a <= b
    ensures Start(s, pass, a) <= Start(s, pass, b)
  {
    if a < b {
      StartMono(s, pass, a, b - 1);
    }
  }

  /** Among equal digits the pass keeps the order; smaller digits come first. */
  lemma RankOrder(s: seq<SymFreq>, pass: nat, i: nat, j: nat)
    requires i < |s| && j < |s|
    requires Digit(s[i], pass) < Digit(s[j], pass) || (Digit(s[i], pass) == Digit(s[j], pass) && i < j)
    ensures Rank(s, pass, i) < Rank(s, pass, j)
  {
    var d, e := Digit(s[i], pass), Digit(s[j], pass);
    CountStep(s, pass, i);
    if d < e {
      CountMono(s, pass, i + 1, |s|, d);
      assert s[..|s|] == s;
      StartMono(s, pass, d + 1, e);
    } else {
      CountMono(s, pass, i + 1, j, d);
    }
  }

  lemma {:induction false} StartSum(s: seq<SymFreq>, pass: nat, d: nat)
    ensures s != [] ==> Start(s, pass, d) == Start(s[..|s| - 1], pass, d) + (if Digit(s[|s| - 1], pass) < d then 1
        else 0)
  {
    if d > 0 {
      StartSum(s, pass, d - 1);
    }
  }

  lemma {:induction false} StartAll(s: seq<SymFreq>, pass: nat)
    ensures Start(s, pass, 256) == |s|
  {
    if s == [] {
      StartEmpty(pass, 256);
    } else {
      StartSum(s, pass, 256);
      StartAll(s[..|s| - 1], pass);
    }
  }

  lemma {:induction false} StartEmpty(pass: nat, d: nat)
    ensures Start([], pass, d) == 0
  {
    if d > 0 {
      StartEmpty(pass, d - 1);
    }
  }

  lemma RankInRange(s: seq<SymFreq>, pass: nat, i: nat)
    requires i < |s|
    ensures Rank(s, pass, i) < |s|
  {
    var d := Digit(s[i], pass);
    CountStep(s, pass, i);
    CountMono(s, pass, i + 1, |s|, d);
    assert s[..|s|] == s;
    StartMono(s, pass, d + 1, 256);
    StartAll(s, pass);
  }

  lemma {:induction false} NthDigit(s: seq<SymFreq>, pass: nat, d: nat, k: nat) returns (i: nat)
    requires k < CountDigit(s, pass, d)
    ensures i < |s| && Digit(s[i], pass) == d && CountDigit(s[..i], pass, d) == k
  {
    var n := |s| - 1;
    if k < CountDigit(s[..n], pass, d) {
      i := NthDigit(s[..n], pass, d, k);
      assert s[..n][..i] == s[..i];
    } else {
      i := n;
    }
  }

  /** Every cell receives some entry. */
  lemma {:induction false} Unrank(s: seq<SymFreq>, pass: nat, c: nat, d: nat) returns (i: nat)
    requires c < Start(s, pass, d)
    ensures i < |s| && Rank(s, pass, i) == c
    decreases d
  {
    if c < Start(s, pass, d - 1) {
      i := Unrank(s, pass, c, d - 1);
    } else {
      i := NthDigit(s, pass, d - 1, c - Start(s, pass, d - 1));
    }
  }

  /** t is s rearranged: src and dst are inverse to each other. */
  ghost predicate Rearranged(s: seq<SymFreq>, t: seq<SymFreq>, src: seq<nat>, dst: seq<nat>) {
    && |s| == |t| == |src| == |dst|
    && (forall c :: 0 <= c < |t| ==> src[c] < |s| && t[c] == s[src[c]] && dst[src[c]] == c)
    && (forall i :: 0 <= i < |s| ==> dst[i] < |t| && src[dst[i]] == i)
  }

  ghost predicate SortedByKey(s: seq<SymFreq>) {
    forall i, j :: 0 <= i < j < |s| ==> s[i].key <= s[j].key
  }

  /** The result of a pass as a sequence. */
  ghost predicate Passed(s: seq<SymFreq>, t: seq<SymFreq>, pass: nat) {
    |t| == |s| && forall i :: 0 <= i < |s| ==> Rank(s, pass, i) < |s| && t[Rank(s, pass, i)] == s[i]
  }

  lemma PassRearranges(s: seq<SymFreq>, t: seq<SymFreq>, pass: nat) returns (src: seq<nat>, dst: seq<nat>)
    requires Passed(s, t, pass)
    ensures Rearranged(s, t, src, dst) && forall i :: 0 <= i < |s| ==> dst[i] == Rank(s, pass, i)
  {
    hide Rank;
    dst := seq(|s|, i requires 0 <= i < |s| => Rank(s, pass, i));
    src := [];
    StartAll(s, pass);
    for c := 0 to |s|
      invariant |src| == c && forall e :: 0 <= e < c ==> src[e] < |s| && Rank(s, pass, src[e]) == e
    {
      var i := Unrank(s, pass, c, 256);
      src := src + [i];
    }
    forall i | 0 <= i < |s| ensures src[dst[i]] == i {
      RankInjective(s, pass, src[dst[i]], i);
    }
  }

  lemma RankInjective(s: seq<SymFreq>, pass: nat, i: nat, j: nat)
    requires i < |s| && j < |s| && Rank(s, pass, i) == Rank(s, pass, j)
    ensures i == j
  {
    if i != j {
      if Digit(s[i], pass) < Digit(s[j], pass) || (Digit(s[i], pass) == Digit(s[j], pass) && i < j) {
        RankOrder(s, pass, i, j);
      } else {
        RankOrder(s, pass, j, i);
      }
    }
  }

  lemma Compose(s: seq<SymFreq>, t: seq<SymFreq>, u: seq<SymFreq>, src1: seq<nat>, dst1: seq<nat>, src2: seq<nat>,
      dst2: seq<nat>)
    returns (src: seq<nat>, dst: seq<nat>)
    requires Rearranged(s, t, src1, dst1) && Rearranged(t, u, src2, dst2)
    ensures Rearranged(s, u, src, dst)
  {
    src := seq(|u|, c requires 0 <= c < |u| => src1[src2[c]]);
    dst := seq(|s|, i requires 0 <= i < |s| => dst2[dst1[i]]);
  }

  /** Sorting by the low byte and then stably by the high byte sorts by the key. */
  lemma TwoPassesSort(s: seq<SymFreq>, t: seq<SymFreq>, u: seq<SymFreq>)
    requires Passed(s, t, 0) && Passed(t, u, 1) && forall i :: 0 <= i < |s| ==> s[i].key < 65536
    ensures SortedByKey(u)
  {
    hide Rank, Digit;
    var src1, dst1 := PassRearranges(s, t, 0);
    var src2, dst2 := PassRearranges(t, u, 1);
    forall a, b | 0 <= a < b < |u| ensures u[a].key <= u[b].key {
      PassOrder(t, 1, src2[a], src2[b]);
      if Digit(u[a], 1) == Digit(u[b], 1) {
        var i, j := src2[a], src2[b];
        PassOrder(s, 0, src1[i], src1[j]);
        SameHigh(u[a], u[b]);
      } else {
        HigherByte(u[a], u[b]);
      }
    }
  }

  /** The cells of a pass are ordered by digit, then by original position. */
  lemma PassOrder(s: seq<SymFreq>, pass: nat, i: nat, j: nat)
    requires i < |s| && j < |s| && Rank(s, pass, i) < Rank(s, pass, j)
    ensures Digit(s[i], pass) < Digit(s[j], pass) || (Digit(s[i], pass) == Digit(s[j], pass) && i < j)
  {
    hide Rank;
    if i == j {
    } else if !(Digit(s[i], pass) < Digit(s[j], pass) || (Digit(s[i], pass) == Digit(s[j], pass) && i < j)) {
      RankOrder(s, pass, j, i);
    }
  }

  lemma SameHigh(x: SymFreq, y: SymFreq)
    requires x.key < 65536 && y.key < 65536 && Digit(x, 1) == Digit(y, 1) && Digit(x, 0) <= Digit(y, 0)
    ensures x.key <= y.key
  {
  }

  lemma HigherByte(x: SymFreq, y: SymFreq)
    requires x.key < 65536 && y.key < 65536 && Digit(x, 1) < Digit(y, 1)
    ensures x.key <= y.key
  {
  }

  /** With every high byte zero one pass is enough. */
  lemma OnePassSorts(s: seq<SymFreq>, t: seq<SymFreq>)
    requires Passed(s, t, 0) && (forall i :: 0 <= i < |s| ==> s[i].key < 65536) && CountDigit(s, 1, 0) == |s|
    ensures SortedByKey(t)
  {
    hide Rank, Digit;
    var src, dst := PassRearranges(s, t, 0);
    forall a, b | 0 <= a < b < |t| ensures t[a].key <= t[b].key {
      PassOrder(s, 0, src[a], src[b]);
      AllZero(s, src[a]);
      AllZero(s, src[b]);
      SameHigh(t[a], t[b]);
    }
  }

  lemma {:induction false} AllZero(s: seq<SymFreq>, i: nat)
    requires CountDigit(s, 1, 0) == |s| && i < |s|
    ensures Digit(s[i], 1) == 0
  {
    if i < |s| - 1 {
      AllZero(s[..|s| - 1], i);
    }
  }

  // ----- the sort itself -----

  /** Both histograms in one array: entry 256*pass + d counts digit d. */
  method Histogram(syms: array<SymFreq>, n: nat) returns (hist: array<nat>)
    requires n <= syms.Length
    ensures fresh(hist) && hist.Length == 512
    ensures forall d :: 0 <= d < 256 ==> hist[d] == CountDigit(syms[..n], 0, d)
    ensures forall d :: 0 <= d < 256 ==> hist[256 + d] == CountDigit(syms[..n], 1, d)
  {
    hide CountDigit, Digit;
    ghost var s := syms[..n];
    hist := new nat[512](_ => 0);
    assert s[..0] == [];
    CountEmpty(0);
    CountEmpty(1);
    for i := 0 to n
      invariant forall d :: 0 <= d < 256 ==> hist[d] == CountDigit(s[..i], 0, d)
      invariant forall e :: 256 <= e < 512 ==> hist[e] == CountDigit(s[..i], 1, e - 256)
    {
      CountStep(s, 0, i);
      CountStep(s, 1, i);
      var low, high := Digit(syms[i], 0), 256 + Digit(syms[i], 1);
      hist[low] := hist[low] + 1;
      hist[high] := hist[high] + 1;
    }
    assert s[..n] == s;
  }

  /** The offsets at which the digits' entries start. */
  method Offsets(hist: array<nat>, pass: nat, ghost s: seq<SymFreq>) returns (offsets: array<nat>)
    requires hist.Length == 512 && pass < 2
    requires forall d :: 0 <= d < 256 ==> hist[256 * pass + d] == CountDigit(s, pass, d)
    ensures fresh(offsets) && offsets.Length == 256 && forall d :: 0 <= d < 256 ==> offsets[d] == Start(s, pass, d)
  {
    hide CountDigit;
    offsets := new nat[256];
    var curOfs := 0;
    for i := 0 to 256
      invariant curOfs == Start(s, pass, i)
      invariant forall d :: 0 <= d < 256 ==> hist[256 * pass + d] == CountDigit(s, pass, d)
      invariant forall d :: 0 <= d < i ==> offsets[d] == Start(s, pass, d)
    {
      offsets[i] := curOfs;
      curOfs := curOfs + hist[256 * pass + i];
    }
  }

  /** One counting pass from cur to the other array's cells. */
  method Pass(cur: array<SymFreq>, target: array<SymFreq>, n: nat, pass: nat, hist: array<nat>)
    requires cur != target && n <= cur.Length && n <= target.Length && hist.Length == 512 && pass < 2
    requires forall d :: 0 <= d < 256 ==> hist[256 * pass + d] == CountDigit(cur[..n], pass, d)
    modifies target
    ensures Passed(cur[..n], target[..n], pass)
  {
    hide CountDigit, Start, Digit;
    ghost var s := cur[..n];
    var offsets := Offsets(hist, pass, s);
    assert s[..0] == [];
    CountEmpty(pass);
    for i := 0 to n
      invariant cur[..n] == s
      invariant forall d :: 0 <= d < 256 ==> offsets[d] == Start(s, pass, d) + CountDigit(s[..i], pass, d)
      invariant forall j :: 0 <= j < i ==> Rank(s, pass, j) < n && target[Rank(s, pass, j)] == s[j]
    {
      RankInRange(s, pass, i);
      CountStep(s, pass, i);
      RankFresh(s, pass, i);
      var d := Digit(cur[i], pass);
      target[offsets[d]] := cur[i];
      offsets[d] := offsets[d] + 1;
    }
  }

  lemma RankFresh(s: seq<SymFreq>, pass: nat, i: nat)
    requires i < |s|
    ensures forall j :: 0 <= j < i ==> Rank(s, pass, j) != Rank(s, pass, i)
  {
    hide Rank;
    forall j | 0 <= j < i ensures Rank(s, pass, j) != Rank(s, pass, i) {
      if Rank(s, pass, j) == Rank(s, pass, i) {
        RankInjective(s, pass, j, i);
      }
    }
  }

  lemma CountEmpty(pass: nat)
    ensures forall d :: CountDigit([], pass, d) == 0
  {
  }

  /** Sort n entries; the result is in one of the two arrays. */
  method RadixSortSyms(n: nat, syms0: array<SymFreq>, syms1: array<SymFreq>)
    returns (sorted: array<SymFreq>, ghost src: seq<nat>, ghost dst: seq<nat>)
    requires syms0 != syms1 && n <= syms0.Length && n <= syms1.Length
    requires forall i :: 0 <= i < n ==> syms0[i].key < 65536
    modifies syms0, syms1
    ensures sorted == syms0 || sorted == syms1
    ensures SortedByKey(sorted[..n]) && Rearranged(old(syms0[..n]), sorted[..n], src, dst)
  {
    hide CountDigit, SortedByKey, Rank;
    ghost var s := syms0[..n];
    var hist := Histogram(syms0, n);
    var totalPasses := 2;
    if n == hist[256] {
      totalPasses := 1;
    }
    Pass(syms0, syms1, n, 0, hist);
    ghost var t := syms1[..n];
    src, dst := PassRearranges(s, t, 0);
    sorted := syms1;
    if totalPasses == 1 {
      OnePassSorts(s, t);
    } else {
      ghost var src1, dst1 := src, dst;
      SameCounts(s, t, src, dst);
      Pass(syms1, syms0, n, 1, hist);
      TwoPassesSort(s, t, syms0[..n]);
      ghost var src2, dst2 := PassRearranges(t, syms0[..n], 1);
      src, dst := Compose(s, t, syms0[..n], src1, dst1, src2, dst2);
      sorted := syms0;
    }
  }

  /** Rearranging does not change the histogram of the high bytes. */
  lemma SameCounts(s: seq<SymFreq>, t: seq<SymFreq>, src: seq<nat>, dst: seq<nat>)
    requires Rearranged(s, t, src, dst)
    ensures forall d :: CountDigit(s, 1, d) == CountDigit(t, 1, d)
  {
    hide CountDigit;
    forall d ensures CountDigit(s, 1, d) == CountDigit(t, 1, d) {
      CountLe(s, t, src, dst, d);
      CountLe(t, s, dst, src, d);
    }
  }

  function Cells(s: seq<SymFreq>, d: nat): set<nat> {
    set i: nat | 0 <= i < |s| && Digit(s[i], 1) == d
  }

  /** An injective map into t shows t counts at least as many. */
  lemma CountLe(s: seq<SymFreq>, t: seq<SymFreq>, src: seq<nat>, dst: seq<nat>, d: nat)
    requires Rearranged(s, t, src, dst)
    ensures CountDigit(s, 1, d) <= CountDigit(t, 1, d)
  {
    CountIsCard(s, d);
    CountIsCard(t, d);
    InjectiveCard(Cells(s, d), Cells(t, d), dst);
  }

  lemma {:induction false} CountIsCard(s: seq<SymFreq>, d: nat)
    ensures CountDigit(s, 1, d) == |Cells(s, d)|
  {
    if s == [] {
      assert Cells(s, d) == {};
    } else {
      var n := |s| - 1;
      CountIsCard(s[..n], d);
      assert Cells(s, d) == if Digit(s[n], 1) == d then Cells(s[..n], d) + {n} else Cells(s[..n], d);
    }
  }

  lemma Member(a: set<nat>) returns (x: nat)
    requires |a| > 0
    ensures x in a
  {
    x :| x in a;
  }

  lemma {:induction false} InjectiveCard(a: set<nat>, b: set<nat>, f: seq<nat>)
    requires forall x :: x in a ==> 0 <= x < |f| && f[x] in b
    requires forall x, y :: x in a && y in a && x != y ==> f[x] != f[y]
    ensures |a| <= |b|
  {
    if |a| > 0 {
      var x := Member(a);
      InjectiveCard(a - {x}, b - {f[x]}, f);
    }
  }
}
