/** Canonical Huffman codes: the assignment of section 3.2.2 of RFC 1951, shared by the
    compressor and the decompressor, and a bit-by-bit reference decoder for it. */
module Canonical {
  import opened Bits

  const MAX_LEN: nat := 15

  /** Code lengths of at most 15 bits. */
  ghost predicate Short(lens: seq<nat>) {
    forall i :: 0 <= i < |lens| ==> lens[i] <= MAX_LEN
  }

  /** How many symbols have code length l. */
  function Count(lens: seq<nat>, l: nat): (r: nat)
    ensures r <= |lens|
  {
    if lens == [] then 0
    else Count(lens[..|lens| - 1], l) + (if lens[|lens| - 1] == l then 1 else 0)
  }

  /** The first code of length l. */
  function NextCode(lens: seq<nat>, l: nat): nat {
    if l <= 1 then 0 else 2 * (NextCode(lens, l - 1) + Count(lens, l - 1))
  }

  /** How many l-bit strings start with a code of length at most l. */
  function Used(lens: seq<nat>, l: nat): nat
    requires l > 0
  {
    NextCode(lens, l) + Count(lens, l)
  }

  /** The code of a symbol, as the number whose bits are sent most significant first. */
  function Code(lens: seq<nat>, s: nat): nat
    requires s < |lens|
  {
    NextCode(lens, lens[s]) + Count(lens[..s], lens[s])
  }

  /** The bits of a symbol, in stream order. */
  function SymBits(lens: seq<nat>, s: nat): (r: seq<bool>)
    requires s < |lens|
    ensures |r| == lens[s]
  {
    CodeBits(Code(lens, s), lens[s])
  }

  /** Not oversubscribed: at every length the codes so far fit. */
  ghost predicate Fits(lens: seq<nat>) {
    Used(lens, MAX_LEN) <= Pow2(MAX_LEN)
  }

  /** The Kraft sum is exactly one (the source's total of 65536). */
  ghost predicate Complete(lens: seq<nat>) {
    Used(lens, MAX_LEN) == Pow2(MAX_LEN)
  }

  function UsedSyms(lens: seq<nat>): (r: nat)
    ensures r <= |lens|
  {
    if lens == [] then 0
    else UsedSyms(lens[..|lens| - 1]) + (if lens[|lens| - 1] > 0 then 1 else 0)
  }

  /** What the decompressor accepts: a complete code, or at most one symbol. */
  ghost predicate Usable(lens: seq<nat>) {
    Complete(lens) || UsedSyms(lens) <= 1
  }

  lemma {:induction false} CountSplit(a: seq<nat>, b: seq<nat>, l: nat)
    ensures Count(a + b, l) == Count(a, l) + Count(b, l)
  {
    if b == [] {
      assert a + b == a;
    } else {
      CountSplit(a, b[..|b| - 1], l);
      assert (a + b)[..|a + b| - 1] == a + b[..|b| - 1];
    }
  }

  lemma {:induction false} CountUpdate(lens: seq<nat>, x: nat, v: nat, l: nat)
    requires x < |lens|
    ensures Count(lens[x := v], l)
         == Count(lens, l) - (if lens[x] == l then 1 else 0) + (if v == l then 1 else 0)
  {
    var n := |lens| - 1;
    if x < n {
      CountUpdate(lens[..n], x, v, l);
      assert lens[x := v][..n] == lens[..n][x := v];
    } else {
      assert lens[x := v][..n] == lens[..n];
    }
  }

  lemma CountStep(lens: seq<nat>, i: nat)
    requires i < |lens|
    ensures forall l :: Count(lens[..i + 1], l) == Count(lens[..i], l) + (if lens[i] == l then 1 else 0)
  {
    assert lens[..i + 1][..i] == lens[..i];
  }

  lemma {:induction false} CountBefore(lens: seq<nat>, s: nat, t: nat, l: nat)
    requires s < t <= |lens| && lens[s] == l
    ensures Count(lens[..s], l) < Count(lens[..t], l)
  {
    assert lens[..t] == lens[..s] + ([l] + lens[s + 1..t]);
    CountSplit(lens[..s], [l] + lens[s + 1..t], l);
    CountSplit([l], lens[s + 1..t], l);
    assert [l][..0] == [];
    assert Count([l], l) == 1;
  }

  /** Codes of longer lengths lie above everything the shorter codes use. */
  lemma {:induction false} NextCodeAbove(lens: seq<nat>, a: nat, b: nat)
    requires 1 <= a < b
    ensures Shr(NextCode(lens, b), b - a) >= Used(lens, a)
    decreases b
  {
    if b > a + 1 {
      NextCodeAbove(lens, a, b - 1);
      ShrMono(NextCode(lens, b - 1), Used(lens, b - 1), b - 1 - a);
    }
  }

  lemma {:induction false} ShrMono(x: nat, y: nat, n: nat)
    requires x <= y
    ensures Shr(x, n) <= Shr(y, n)
  {
    if n > 0 {
      ShrMono(x / 2, y / 2, n - 1);
    }
  }

  lemma CodeInRange(lens: seq<nat>, s: nat)
    requires s < |lens| && lens[s] > 0
    ensures NextCode(lens, lens[s]) <= Code(lens, s) < Used(lens, lens[s])
  {
    CountBefore(lens, s, |lens|, lens[s]);
    assert lens[..|lens|] == lens;
  }

  lemma {:induction false} UsedGrows(lens: seq<nat>, a: nat, b: nat)
    requires 1 <= a <= b
    ensures Used(lens, a) * Pow2(b - a) <= Used(lens, b)
    decreases b
  {
    if a < b {
      UsedGrows(lens, a, b - 1);
      assert Used(lens, b) >= 2 * Used(lens, b - 1);
      Double(Used(lens, a), Pow2(b - 1 - a));
    }
  }

  lemma UsedBound(lens: seq<nat>, l: nat)
    requires Fits(lens) && 1 <= l <= MAX_LEN
    ensures Used(lens, l) <= Pow2(l)
  {
    UsedGrows(lens, l, MAX_LEN);
    Pow2Add(l, MAX_LEN - l);
    MulCancel(Used(lens, l), Pow2(l), Pow2(MAX_LEN - l));
  }

  /** A code fits its length. */
  lemma CodeFits(lens: seq<nat>, s: nat)
    requires Fits(lens) && s < |lens| && 0 < lens[s] <= MAX_LEN
    ensures Code(lens, s) < Pow2(lens[s])
  {
    CodeInRange(lens, s);
    UsedBound(lens, lens[s]);
  }

  lemma CodesDiffer(lens: seq<nat>, s: nat, t: nat)
    requires s < |lens| && t < |lens| && s != t && 0 < lens[s] <= lens[t]
    ensures Shr(Code(lens, t), lens[t] - lens[s]) != Code(lens, s)
  {
    var a, b := lens[s], lens[t];
    CodeInRange(lens, s);
    CodeInRange(lens, t);
    if a < b {
      NextCodeAbove(lens, a, b);
      ShrMono(NextCode(lens, b), Code(lens, t), b - a);
    } else if s < t {
      CountBefore(lens, s, t, a);
    } else {
      CountBefore(lens, t, s, a);
    }
  }

  /** No code is a prefix of another. */
  lemma PrefixFree(lens: seq<nat>, s: nat, t: nat)
    requires Fits(lens) && s < |lens| && t < |lens| && s != t
    requires 0 < lens[s] <= lens[t] <= MAX_LEN
    ensures SymBits(lens, t)[..lens[s]] != SymBits(lens, s)
  {
    hide NextCode, Used;
    var a, b := lens[s], lens[t];
    var c, d := Code(lens, s), Code(lens, t);
    CodesDiffer(lens, s, t);
    CodeFits(lens, s);
    CodeFits(lens, t);
    CodePrefix(d, b, a);
    MsbCode(c, a);
    ShrBound(d, b, a);
    MsbCode(Shr(d, b - a), a);
  }

  lemma {:induction false} ShrBound(v: nat, n: nat, k: nat)
    requires v < Pow2(n) && k <= n
    ensures Shr(v, n - k) < Pow2(k)
  {
    if k < n {
      ShrBound(v / 2, n - 1, k);
    }
  }

  /** Symbol s is the next symbol of the stream. */
  predicate Matches(lens: seq<nat>, s: nat, bits: seq<bool>)
    requires s < |lens|
  {
    0 < lens[s] <= |bits| && SymBits(lens, s) == bits[..lens[s]]
  }

  /** At most one symbol matches. */
  lemma MatchUnique(lens: seq<nat>, s: nat, t: nat, bits: seq<bool>)
    requires Fits(lens) && s < |lens| && t < |lens| && lens[s] <= MAX_LEN && lens[t] <= MAX_LEN
    requires Matches(lens, s, bits) && Matches(lens, t, bits)
    ensures s == t
  {
    if lens[s] <= lens[t] {
      assert bits[..lens[t]][..lens[s]] == bits[..lens[s]];
      if s != t {
        PrefixFree(lens, s, t);
        assert false;
      }
    } else {
      assert bits[..lens[s]][..lens[t]] == bits[..lens[t]];
      PrefixFree(lens, t, s);
      assert false;
    }
  }

  /** The reference decoder: the first symbol, from index s on, whose code starts the bits. */
  function FindSym(lens: seq<nat>, bits: seq<bool>, s: nat): (r: int)
    requires s <= |lens|
    ensures -1 <= r < |lens|
    ensures r >= 0 ==> Matches(lens, r, bits)
    ensures r < 0 ==> forall t :: s <= t < |lens| ==> !Matches(lens, t, bits)
    decreases |lens| - s
  {
    if s == |lens| then -1
    else if Matches(lens, s, bits) then s
    else FindSym(lens, bits, s + 1)
  }

  function DecodeSym(lens: seq<nat>, bits: seq<bool>): (r: int)
    ensures -1 <= r < |lens|
    ensures r >= 0 ==> Matches(lens, r, bits)
    ensures r < 0 ==> forall t :: 0 <= t < |lens| ==> !Matches(lens, t, bits)
  {
    FindSym(lens, bits, 0)
  }

  lemma DecodeIs(lens: seq<nat>, s: nat, bits: seq<bool>)
    requires Fits(lens) && s < |lens| && Short(lens)
    requires Matches(lens, s, bits)
    ensures DecodeSym(lens, bits) == s
  {
    var t := DecodeSym(lens, bits);
    MatchUnique(lens, s, t, bits);
  }

  /** Decoding what was emitted gives the symbol back, whatever follows it. */
  lemma DecodeEmitted(lens: seq<nat>, s: nat, rest: seq<bool>)
    requires Fits(lens) && s < |lens| && lens[s] > 0 && Short(lens)
    ensures DecodeSym(lens, SymBits(lens, s) + rest) == s
  {
    assert (SymBits(lens, s) + rest)[..lens[s]] == SymBits(lens, s);
    DecodeIs(lens, s, SymBits(lens, s) + rest);
  }

  lemma {:induction false} NthWithLength(lens: seq<nat>, l: nat, k: nat) returns (s: nat)
    requires k < Count(lens, l)
    ensures s < |lens| && lens[s] == l && Count(lens[..s], l) == k
  {
    var n := |lens| - 1;
    if k < Count(lens[..n], l) {
      s := NthWithLength(lens[..n], l, k);
      assert lens[..n][..s] == lens[..s];
    } else {
      s := n;
    }
  }

  /** A prefix of the bits, read as a code of length l, that the shorter codes do not cover. */
  lemma {:induction false} Descend(lens: seq<nat>, bits: seq<bool>, l: nat) returns (s: nat)
    requires 1 <= l <= |bits| && MsbVal(bits[..l]) < Used(lens, l)
    ensures s < |lens| && lens[s] <= l && Matches(lens, s, bits)
    decreases l
  {
    var v := MsbVal(bits[..l]);
    assert bits[..l][..l - 1] == bits[..l - 1];
    if v >= NextCode(lens, l) {
      s := NthWithLength(lens, l, v - NextCode(lens, l));
      CodeMsb(bits[..l]);
    } else {
      s := Descend(lens, bits, l - 1);
    }
  }

  /** With a complete code, any 15 bits start with exactly one symbol. */
  lemma CompleteDecodes(lens: seq<nat>, bits: seq<bool>)
    requires Complete(lens) && |bits| >= MAX_LEN
    ensures DecodeSym(lens, bits) >= 0
  {
    var s := Descend(lens, bits, MAX_LEN);
  }

  lemma {:induction false} NoSyms(lens: seq<nat>, l: nat)
    requires l > 0
    ensures Count(lens, l) <= UsedSyms(lens)
  {
    if lens != [] {
      NoSyms(lens[..|lens| - 1], l);
    }
  }

  lemma {:induction false} TwoLengths(lens: seq<nat>, a: nat, b: nat)
    requires 0 < a < b
    ensures Count(lens, a) + Count(lens, b) <= UsedSyms(lens)
  {
    if lens != [] {
      TwoLengths(lens[..|lens| - 1], a, b);
    }
  }

  /** A code of at most one symbol stays below the top of its range. */
  lemma {:induction false} SparseUsed(lens: seq<nat>, l: nat)
    requires UsedSyms(lens) <= 1 && l >= 1
    ensures Used(lens, l) <= Pow2(l - 1)
    ensures NextCode(lens, l) > 0 ==> exists a :: 0 < a < l && Count(lens, a) > 0
  {
    NoSyms(lens, l);
    if l > 1 {
      SparseUsed(lens, l - 1);
      if NextCode(lens, l) > 0 {
        if NextCode(lens, l - 1) > 0 {
          var a :| 0 < a < l - 1 && Count(lens, a) > 0;
        } else {
          assert Count(lens, l - 1) > 0;
        }
        var a :| 0 < a < l && Count(lens, a) > 0;
        TwoLengths(lens, a, l);
      }
    }
  }

  /** Every code the decompressor accepts is decodable. */
  lemma UsableFits(lens: seq<nat>)
    requires Usable(lens)
    ensures Fits(lens)
  {
    if !Complete(lens) {
      SparseUsed(lens, MAX_LEN);
      Pow2Mono(MAX_LEN - 1, MAX_LEN);
    }
  }
}
