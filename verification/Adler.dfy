/** The Adler-32 checksum with the modulus taken only once per 5552-byte block. */
module Adler {
  import opened Bits

  const BASE: nat := 65521
  const BLOCK: nat := 5552

  datatype Sums = Sums(s1: nat, s2: nat)

  /** Section 2.2 of RFC 1950: both sums modulo 65521 after every byte. */
  function Update(a: Sums, d: seq<byte>): Sums {
    if d == [] then a
    else
      var b := Update(a, d[..|d| - 1]);
      Sums((b.s1 + d[|d| - 1]) % BASE, (b.s2 + (b.s1 + d[|d| - 1]) % BASE) % BASE)
  }

  function Split(adler: nat): Sums {
    Sums(adler % 65536, adler / 65536)
  }

  function Join(a: Sums): nat {
    a.s2 * 65536 + a.s1
  }

  /** The checksum of d, started from the value `adler`. */
  function Adler32(adler: nat, d: seq<byte>): nat {
    if d == [] then adler else Join(Update(Split(adler), d))
  }

  /** The checksum of d itself. */
  function Checksum(d: seq<byte>): nat {
    Adler32(1, d)
  }

  lemma {:induction false} UpdateConcat(a: Sums, c: seq<byte>, d: seq<byte>)
    ensures Update(a, c + d) == Update(Update(a, c), d)
  {
    if d == [] {
      assert c + d == c;
    } else {
      UpdateConcat(a, c, d[..|d| - 1]);
      assert (c + d)[..|c + d| - 1] == c + d[..|d| - 1];
    }
  }

  lemma UpdateReduced(a: Sums, d: seq<byte>)
    requires d != []
    ensures Update(a, d).s1 < BASE && Update(a, d).s2 < BASE
  {
  }

  lemma SplitJoin(a: Sums)
    requires a.s1 < 65536
    ensures Split(Join(a)) == a
  {
  }

  /** The checksum composes over concatenation. */
  lemma AdlerConcat(adler: nat, c: seq<byte>, d: seq<byte>)
    ensures Adler32(Adler32(adler, c), d) == Adler32(adler, c + d)
  {
    if c == [] {
      assert c + d == d;
    } else if d == [] {
      assert c + d == c;
    } else {
      UpdateConcat(Split(adler), c, d);
      UpdateReduced(Split(adler), c);
      SplitJoin(Update(Split(adler), c));
    }
  }

  /** The running sums without any modulus. */
  function Raw(a: Sums, d: seq<byte>): Sums {
    if d == [] then a
    else
      var b := Raw(a, d[..|d| - 1]);
      Sums(b.s1 + d[|d| - 1], b.s2 + (b.s1 + d[|d| - 1]))
  }

  ghost predicate Congruent(a: Sums, b: Sums) {
    a.s1 % BASE == b.s1 % BASE && a.s2 % BASE == b.s2 % BASE
  }

  /** Taking the modulus late gives the same residues, from any congruent start. */
  lemma {:induction false} RawResidue(a: Sums, b: Sums, d: seq<byte>)
    requires Congruent(a, b)
    ensures Congruent(Raw(a, d), Update(b, d))
  {
    if d != [] {
      var n := |d| - 1;
      RawResidue(a, b, d[..n]);
      var r, u, x := Raw(a, d[..n]), Update(b, d[..n]), d[n];
      ModAdd(r.s1, u.s1, x, x);
      ModAdd(r.s2, u.s2, r.s1 + x, u.s1 + x);
    }
  }

  lemma ModAdd(r: nat, u: nat, x: nat, y: nat)
    requires r % BASE == u % BASE && x % BASE == y % BASE
    ensures (r + x) % BASE == (u + y) % BASE == (u + y % BASE) % BASE == (u + y % BASE) % BASE % BASE
  {
    ModSum(r, x);
    ModSum(u, y);
    ModSum(u, y % BASE);
  }

  lemma ModSum(a: nat, b: nat)
    ensures (a + b) % BASE == (a % BASE + b % BASE) % BASE
  {
    var q, p := a / BASE, b / BASE;
    assert a + b == (q + p) * BASE + (a % BASE + b % BASE);
  }

  /** Over one block the sums stay below 2^32. */
  lemma {:induction false} RawBound(a: Sums, d: seq<byte>)
    requires a.s1 < 65536 && a.s2 < 65536 && |d| <= BLOCK
    ensures Raw(a, d).s1 <= a.s1 + 255 * |d|
    ensures 2 * Raw(a, d).s2 <= 2 * a.s2 + 2 * |d| * a.s1 + 255 * (|d| * (|d| + 1))
    ensures Raw(a, d).s2 < 0x1_0000_0000 && Raw(a, d).s1 < 0x1_0000_0000
  {
    hide Raw;
    RawTriangle(a, d);
    SmallProducts(|d|, a.s1);
  }

  lemma SmallProducts(n: nat, s1: nat)
    requires n <= BLOCK && s1 < 65536
    ensures n * s1 <= BLOCK * 65535 && n * (n + 1) <= BLOCK * (BLOCK + 1)
  {
    MulMono(n, BLOCK, s1);
    MulMono(s1, 65535, BLOCK);
    MulMono(n, BLOCK, n + 1);
    MulMono(n + 1, BLOCK + 1, BLOCK);
  }

  lemma {:induction false} RawTriangle(a: Sums, d: seq<byte>)
    ensures Raw(a, d).s1 <= a.s1 + 255 * |d|
    ensures 2 * Raw(a, d).s2 <= 2 * a.s2 + 2 * |d| * a.s1 + 255 * (|d| * (|d| + 1))
  {
    if d != [] {
      var n := |d| - 1;
      RawTriangle(a, d[..n]);
      assert (n + 1) * (n + 2) == n * (n + 1) + 2 * (n + 1);
      assert 2 * (n + 1) * a.s1 == 2 * n * a.s1 + 2 * a.s1;
    }
  }

  lemma RawNone(a: Sums, d: seq<byte>)
    requires d == []
    ensures Raw(a, d) == a
  {
  }

  /** Eight bytes at a time, then one at a time, to the end of the block. */
  method SumBlock(ptr: seq<byte>, pos: nat, blockLen: nat, a: Sums) returns (s1: nat, s2: nat)
    requires pos + blockLen <= |ptr| && blockLen <= BLOCK && a.s1 < 65536 && a.s2 < 65536
    ensures Sums(s1, s2) == Raw(a, ptr[pos..pos + blockLen]) && s1 < 0x1_0000_0000 && s2 < 0x1_0000_0000
  {
    hide Raw;
    assert Raw(a, ptr[pos..pos]) == a by { RawNone(a, ptr[pos..pos]); }
    s1, s2 := a.s1, a.s2;
    var i := 0;
    while i + 7 < blockLen
      invariant i <= blockLen && Sums(s1, s2) == Raw(a, ptr[pos..pos + i])
    {
      var j := 0;
      while j < 8
        invariant j <= 8 && Sums(s1, s2) == Raw(a, ptr[pos..pos + i + j])
      {
        s1, s2 := AddByte(ptr, pos, i + j, a, s1, s2);
        j := j + 1;
      }
      i := i + 8;
    }
    while i < blockLen
      invariant i <= blockLen && Sums(s1, s2) == Raw(a, ptr[pos..pos + i])
    {
      s1, s2 := AddByte(ptr, pos, i, a, s1, s2);
      i := i + 1;
    }
    RawBound(a, ptr[pos..pos + blockLen]);
  }

  /** One byte in 32-bit arithmetic; the sums never wrap. */
  method AddByte(ptr: seq<byte>, pos: nat, i: nat, ghost a: Sums, s1: nat, s2: nat) returns (t1: nat, t2: nat)
    requires pos + i < |ptr| && i < BLOCK && a.s1 < 65536 && a.s2 < 65536 && Sums(s1, s2) == Raw(a, ptr[pos..pos + i])
    ensures Sums(t1, t2) == Raw(a, ptr[pos..pos + i + 1])
  {
    assert ptr[pos..pos + i + 1][..i] == ptr[pos..pos + i];
    RawBound(a, ptr[pos..pos + i + 1]);
    t1 := (s1 + ptr[pos + i]) % 0x1_0000_0000;
    t2 := (s2 + t1) % 0x1_0000_0000;
  }

  /** Where the sums stand after pos bytes: reduced once a block has been summed. */
  ghost predicate Summed(cur: Sums, a: Sums, d: seq<byte>) {
    if d == [] then Congruent(cur, a) else cur == Update(a, d)
  }

  lemma BlockSummed(cur: Sums, a: Sums, c: seq<byte>, d: seq<byte>)
    requires Summed(cur, a, c)
    ensures Summed(Sums(Raw(cur, d).s1 % BASE, Raw(cur, d).s2 % BASE), a, c + d)
  {
    hide Raw, Update, Congruent;
    UpdateConcat(a, c, d);
    SummedCongruent(cur, a, c);
    RawResidue(cur, Update(a, c), d);
    if d == [] {
      assert c + d == c;
      ReducedStill(Raw(cur, d), a, c);
    } else {
      UpdateReduced(Update(a, c), d);
      Residues(Raw(cur, d), Update(Update(a, c), d));
    }
  }

  lemma SummedCongruent(cur: Sums, a: Sums, c: seq<byte>)
    requires Summed(cur, a, c)
    ensures Congruent(cur, Update(a, c))
  {
  }

  lemma Residues(x: Sums, y: Sums)
    requires Congruent(x, y) && y.s1 < BASE && y.s2 < BASE
    ensures Sums(x.s1 % BASE, x.s2 % BASE) == y
  {
  }

  lemma ReducedStill(x: Sums, a: Sums, c: seq<byte>)
    requires Congruent(x, Update(Update(a, c), []))
    ensures Summed(Sums(x.s1 % BASE, x.s2 % BASE), a, c)
  {
    if c != [] {
      UpdateReduced(a, c);
    }
  }

  /** The checksum loop: a short first block (possibly empty), then full blocks. */
  method ComputeAdler32(adler: nat, ptr: seq<byte>) returns (r: nat)
    requires adler < 0x1_0000_0000
    ensures r == Adler32(adler, ptr) && r < 0x1_0000_0000
    ensures r == if ptr == [] then adler else Formula(adler, ptr)
  {
    hide Summed, Raw, Update, Formula;
    ClosedForm(adler, ptr);
    var a := Split(adler);
    var s1, s2 := a.s1, a.s2;
    var bufLen := |ptr|;
    var blockLen := bufLen % BLOCK;
    var pos := 0;
    StartSummed(a, ptr);
    while bufLen > 0
      invariant 0 <= pos && 0 <= bufLen && pos + bufLen == |ptr| && 0 <= s1 < 65536 && 0 <= s2 < 65536
      invariant if blockLen < BLOCK then blockLen == bufLen % BLOCK && pos == 0
                else blockLen == BLOCK && bufLen % BLOCK == 0
      invariant Summed(Sums(s1, s2), a, ptr[..pos]) && (ptr == [] ==> s1 == a.s1 && s2 == a.s2)
      decreases bufLen, BLOCK - blockLen
    {
      ghost var cur := Sums(s1, s2);
      NextBlock(bufLen, blockLen);
      s1, s2 := SumBlock(ptr, pos, blockLen, Sums(s1, s2));
      BlockSummed(cur, a, ptr[..pos], ptr[pos..pos + blockLen]);
      assert ptr[..pos] + ptr[pos..pos + blockLen] == ptr[..pos + blockLen];
      s1, s2 := s1 % BASE, s2 % BASE;
      bufLen := bufLen - blockLen;
      pos := pos + blockLen;
      blockLen := BLOCK;
    }
    assert ptr[..pos] == ptr;
    FinalSum(Sums(s1, s2), a, adler, ptr);
    r := s2 * 65536 + s1;
  }

  lemma NextBlock(n: nat, b: nat)
    requires n > 0 && (b == n % BLOCK || (b == BLOCK && n % BLOCK == 0))
    ensures b <= n && (n - b) % BLOCK == 0
  {
  }

  lemma StartSummed(a: Sums, d: seq<byte>)
    ensures Summed(a, a, d[..0])
  {
  }

  lemma FinalSum(cur: Sums, a: Sums, adler: nat, d: seq<byte>)
    requires Summed(cur, a, d) && a == Split(adler) && (d == [] ==> cur == a)
    ensures Adler32(adler, d) == cur.s2 * 65536 + cur.s1
  {
  }

  // ----- the definition in one formula -----

  ghost function Total(s: seq<nat>): nat {
    if s == [] then 0 else Total(s[..|s| - 1]) + s[|s| - 1]
  }

  /** Every byte counted as often as there are bytes from it on. */
  ghost function Weighted(d: seq<byte>): (s: seq<nat>)
    ensures |s| == |d|
  {
    seq(|d|, i requires 0 <= i < |d| => (|d| - i) * d[i])
  }

  lemma TotalSnoc(s: seq<nat>, x: nat)
    ensures Total(s + [x]) == Total(s) + x
  {
    assert (s + [x])[..|s|] == s;
  }

  lemma {:induction false} TotalPlus(a: seq<nat>, b: seq<nat>, c: seq<nat>)
    requires |a| == |b| == |c| && forall i :: 0 <= i < |a| ==> c[i] == a[i] + b[i]
    ensures Total(c) == Total(a) + Total(b)
  {
    if a != [] {
      var n := |a| - 1;
      TotalPlus(a[..n], b[..n], c[..n]);
    }
  }

  lemma OnceMore(k: nat, x: nat)
    ensures (k + 1) * x == k * x + x
  {
  }

  /** One more byte adds itself, and every byte before it once more. */
  lemma WeightedSnoc(d: seq<byte>, x: byte)
    ensures Total(Weighted(d + [x])) == Total(Weighted(d)) + Total(d) + x
  {
    hide Total;
    var n, w := |d|, Weighted(d + [x]);
    forall i | 0 <= i < n ensures w[i] == Weighted(d)[i] + d[i] {
      OnceMore(n - i, d[i]);
    }
    TotalPlus(Weighted(d), d, w[..n]);
    TotalSnoc(w[..n], x);
    assert w[..n] + [x] == w;
  }

  lemma {:induction false} RawSums(a: Sums, d: seq<byte>)
    ensures Raw(a, d) == Sums(a.s1 + Total(d), a.s2 + |d| * a.s1 + Total(Weighted(d)))
  {
    if d != [] {
      var n := |d| - 1;
      RawSums(a, d[..n]);
      WeightedSnoc(d[..n], d[n]);
      OnceMore(n, a.s1);
      assert d[..n] + [d[n]] == d;
    }
  }

  /** Section 2.2 of RFC 1950 in one formula, from the halves of the starting value: the sum of the bytes on top
      of the first, and on top of the second the sum of the first's values after each byte, both modulo 65521. */
  ghost function Formula(adler: nat, d: seq<byte>): nat {
    (adler % 65536 + Total(d)) % 65521 + 65536 * ((adler / 65536 + |d| * (adler % 65536) + Total(Weighted(d))) % 65521)
  }

  lemma ClosedForm(adler: nat, d: seq<byte>)
    ensures Adler32(adler, d) == if d == [] then adler else Formula(adler, d)
  {
    hide Raw, Update, Total, Weighted;
    if d != [] {
      var a := Split(adler);
      RawSums(a, d);
      RawResidue(a, a, d);
      UpdateReduced(a, d);
      Residues(Raw(a, d), Update(a, d));
    }
  }

  lemma {:induction false} SumsOf255(d: seq<byte>)
    requires forall i :: 0 <= i < |d| ==> d[i] == 255
    ensures Total(d) == 255 * |d| && 2 * Total(Weighted(d)) == 255 * (|d| * (|d| + 1))
  {
    if d != [] {
      var n := |d| - 1;
      SumsOf255(d[..n]);
      WeightedSnoc(d[..n], d[n]);
      assert d[..n] + [d[n]] == d;
      assert (n + 1) * (n + 2) == n * (n + 1) + 2 * (n + 1);
    }
  }

  /** 257 bytes of 255, where both sums pass the modulus. */
  lemma PastModulus(d: seq<byte>)
    requires |d| == 257 && forall i :: 0 <= i < |d| ==> d[i] == 255
    ensures Checksum(d) == 0x080F000F
  {
    hide Total, Weighted, Adler32;
    SumsOf255(d);
    ClosedForm(1, d);
  }
}
