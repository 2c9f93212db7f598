/** Bytes, bit strings and the two orders in which DEFLATE packs numbers into them.
    A stream is a sequence of bits, the low-order bit of each byte first (section 3.1.1 of RFC 1951). */
module Bits {

  type byte = x: nat | x < 256

  function Pow2(n: nat): (r: nat)
    ensures r >= 1
  {
    if n == 0 then 1 else 2 * Pow2(n - 1)
  }

  lemma SmallPowers()
    ensures Pow2(0) == 1 && Pow2(1) == 2 && Pow2(2) == 4 && Pow2(3) == 8 && Pow2(4) == 16 && Pow2(5) == 32
        && Pow2(6) == 64
    ensures Pow2(7) == 128 && Pow2(8) == 256 && Pow2(9) == 512 && Pow2(10) == 1024 && Pow2(11) == 2048
        && Pow2(12) == 4096 && Pow2(13) == 8192
  {
  }

  function Min(a: nat, b: nat): nat {
    if a < b then a else b
  }

  function Max(a: int, b: int): int {
    if a < b then b else a
  }

  /** A number of two bytes. */
  function Word(high: nat, low: nat): nat {
    high * 256 + low
  }

  /** The low n bits of v, least significant first. */
  function ToBits(v: nat, n: nat): (r: seq<bool>)
    ensures |r| == n
  {
    if n == 0 then [] else [v % 2 == 1] + ToBits(v / 2, n - 1)
  }

  /** The value of a bit string whose first bit is the least significant. */
  function FromBits(b: seq<bool>): (r: nat)
    ensures r < Pow2(|b|)
  {
    if b == [] then 0 else (if b[0] then 1 else 0) + 2 * FromBits(b[1..])
  }

  /** The right shift of an unsigned word. */
  function Shr(v: nat, n: nat): nat {
    if n == 0 then v else Shr(v / 2, n - 1)
  }

  /** The low n bits of a word, as a number. */
  function Low(v: nat, n: nat): (r: nat)
    ensures r < Pow2(n)
  {
    FromBits(ToBits(v, n))
  }

  /** The low n bits of c, most significant first: the order of Huffman codes. */
  function CodeBits(c: nat, n: nat): (r: seq<bool>)
    ensures |r| == n
  {
    if n == 0 then [] else CodeBits(c / 2, n - 1) + [c % 2 == 1]
  }

  /** The value of a bit string whose first bit is the most significant. */
  function MsbVal(b: seq<bool>): (r: nat)
    ensures r < Pow2(|b|)
  {
    if b == [] then 0 else 2 * MsbVal(b[..|b| - 1]) + (if b[|b| - 1] then 1 else 0)
  }

  /** The bits of a byte string. */
  function ByteBits(s: seq<byte>): (r: seq<bool>)
    ensures |r| == 8 * |s|
  {
    if s == [] then [] else ByteBits(s[..|s| - 1]) + ToBits(s[|s| - 1], 8)
  }

  lemma {:induction false} Pow2Add(a: nat, b: nat)
    ensures Pow2(a + b) == Pow2(a) * Pow2(b)
  {
    if a > 0 {
      Pow2Add(a - 1, b);
    }
  }

  lemma {:induction false} Pow2Mono(a: nat, b: nat)
    requires a <= b
    ensures Pow2(a) <= Pow2(b)
  {
    if a < b {
      Pow2Mono(a, b - 1);
    }
  }

  lemma MulMono(a: int, b: int, c: nat)
    requires a <= b
    ensures a * c <= b * c
  {
    assert (b - a) * c >= 0;
    assert b * c - a * c == (b - a) * c;
  }

  lemma MulCancel(a: nat, b: nat, p: nat)
    requires p > 0 && a * p <= b * p
    ensures a <= b
  {
    if b < a {
      MulMono(b + 1, a, p);
      assert false;
    }
  }

  lemma DivLess(v: nat, a: nat, b: nat)
    requires b > 0 && v < a * b
    ensures v / b < a
  {
    var q := v / b;
    if a <= q {
      MulMono(a, q, b);
      assert false;
    }
  }

  /** A quotient and a remainder in range are the only ones. */
  lemma DivUnique(v: nat, b: nat, c: nat, r: nat)
    requires b > 0 && r < b && v == c * b + r
    ensures v / b == c && v % b == r
  {
    var q := v / b;
    assert v == q * b + v % b;
    if q < c {
      MulMono(q + 1, c, b);
      assert false;
    } else if c < q {
      MulMono(c + 1, q, b);
      assert false;
    }
  }

  /** Appending bits above the low n is concatenation: the bit buffer's "or with a shifted byte". */
  lemma {:induction false} ToBitsConcat(v: nat, n: nat, c: nat, m: nat)
    requires v < Pow2(n)
    ensures ToBits(v + c * Pow2(n), n + m) == ToBits(v, n) + ToBits(c, m)
  {
    if n == 0 {
      assert v == 0;
      assert ToBits(v, n) == [];
    } else {
      var p := Pow2(n - 1);
      assert c * Pow2(n) == 2 * (c * p);
      assert (v + c * Pow2(n)) / 2 == v / 2 + c * p;
      assert (v + c * Pow2(n)) % 2 == v % 2;
      ToBitsConcat(v / 2, n - 1, c, m);
    }
  }

  /** Dropping the low n bits is the shift. */
  lemma {:induction false} ToBitsShift(v: nat, n: nat, m: nat)
    ensures ToBits(v, n + m) == ToBits(v, n) + ToBits(Shr(v, n), m)
  {
    if n == 0 {
      assert ToBits(v, n) == [];
    } else {
      ToBitsShift(v / 2, n - 1, m);
    }
  }

  /** Keeping the low n bits is the mask. */
  lemma ToBitsLow(v: nat, n: nat)
    ensures ToBits(Low(v, n), n) == ToBits(v, n)
    ensures v == Low(v, n) + Shr(v, n) * Pow2(n)
  {
    ToFromBits(ToBits(v, n));
    SplitLow(v, n);
  }

  lemma {:induction false} SplitLow(v: nat, n: nat)
    ensures v == Low(v, n) + Shr(v, n) * Pow2(n)
  {
    if n > 0 {
      SplitLow(v / 2, n - 1);
      assert ToBits(v, n)[1..] == ToBits(v / 2, n - 1);
      Double(Shr(v / 2, n - 1), Pow2(n - 1));
    }
  }

  lemma Double(q: nat, p: nat)
    ensures q * (2 * p) == 2 * (q * p)
  {
  }

  /** The shift and the mask are the quotient and the remainder by the power of two. */
  lemma ShrLow(v: nat, n: nat)
    ensures Shr(v, n) == v / Pow2(n) && Low(v, n) == v % Pow2(n)
  {
    ToBitsLow(v, n);
    DivUnique(v, Pow2(n), Shr(v, n), Low(v, n));
  }

  lemma {:induction false} ShrNext(v: nat, n: nat)
    ensures Shr(v, n + 1) == Shr(v, n) / 2
  {
    if n > 0 {
      ShrNext(v / 2, n - 1);
    }
  }

  lemma {:induction false} FromToBits(v: nat, n: nat)
    requires v < Pow2(n)
    ensures FromBits(ToBits(v, n)) == v
  {
    if n > 0 {
      FromToBits(v / 2, n - 1);
      assert ToBits(v, n)[1..] == ToBits(v / 2, n - 1);
    }
  }

  lemma {:induction false} ToFromBits(b: seq<bool>)
    ensures ToBits(FromBits(b), |b|) == b
  {
    if b != [] {
      ToFromBits(b[1..]);
    }
  }

  lemma {:induction false} MsbCode(c: nat, n: nat)
    requires c < Pow2(n)
    ensures MsbVal(CodeBits(c, n)) == c
  {
    if n > 0 {
      MsbCode(c / 2, n - 1);
      assert CodeBits(c, n)[..n - 1] == CodeBits(c / 2, n - 1);
    }
  }

  lemma {:induction false} CodeMsb(b: seq<bool>)
    ensures CodeBits(MsbVal(b), |b|) == b
  {
    if b != [] {
      CodeMsb(b[..|b| - 1]);
    }
  }

  /** The first k bits of a code are the code shifted right. */
  lemma {:induction false} CodePrefix(c: nat, n: nat, k: nat)
    requires k <= n
    ensures CodeBits(c, n)[..k] == CodeBits(Shr(c, n - k), k)
  {
    if k < n {
      CodePrefix(c / 2, n - 1, k);
      assert CodeBits(c, n)[..k] == CodeBits(c / 2, n - 1)[..k];
    }
  }

  /** The most significant of n + 1 code bits is bit n of the number. */
  lemma {:induction false} CodeTop(c: nat, n: nat)
    ensures CodeBits(c, n + 1) == [Shr(c, n) % 2 == 1] + CodeBits(c, n)
  {
    if n == 0 {
      assert CodeBits(c, 1) == CodeBits(c / 2, 0) + [c % 2 == 1];
    } else {
      CodeTop(c / 2, n - 1);
    }
  }

  lemma {:induction false} ByteBitsConcat(s: seq<byte>, t: seq<byte>)
    ensures ByteBits(s + t) == ByteBits(s) + ByteBits(t)
  {
    if t == [] {
      assert s + t == s;
    } else {
      ByteBitsConcat(s, t[..|t| - 1]);
      assert (s + t)[..|s + t| - 1] == s + t[..|t| - 1];
    }
  }

  /** The value of the reversed code: its code bits read least significant first. */
  function Reversed(c: nat, n: nat): (r: nat)
    ensures r < Pow2(n)
  {
    FromBits(CodeBits(c, n))
  }

  /** The bit-reversal loop that both the encoder and the decoder run over a code. */
  method ReverseCode(code0: nat, codeSize: nat) returns (revCode: nat)
    ensures revCode == Reversed(code0, codeSize)
    ensures ToBits(revCode, codeSize) == CodeBits(code0, codeSize)
  {
    revCode := 0;
    var code, l := code0, codeSize;
    while l > 0
      invariant 0 <= l <= codeSize
      invariant code == Shr(code0, codeSize - l)
      invariant revCode == Reversed(code0, codeSize - l)
    {
      ghost var k := codeSize - l;
      CodeTop(code0, k);
      assert CodeBits(code0, k + 1)[1..] == CodeBits(code0, k);
      ShrNext(code0, k);
      revCode := revCode * 2 + code % 2;
      code := code / 2;
      l := l - 1;
    }
    ToFromBits(CodeBits(code0, codeSize));
  }

  lemma ByteBitsSnoc(s: seq<byte>, c: byte)
    ensures ByteBits(s + [c]) == ByteBits(s) + ToBits(c, 8)
  {
    assert (s + [c])[..|s|] == s;
  }
}
