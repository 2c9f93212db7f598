/** The decompressor's look-ahead bit buffer: fixed-width fields and Huffman symbols read through it are the
    fields and symbols of the bit stream, and no byte is read that the next item does not need. */
module BitReader {
  import opened Bits
  import opened Canonical
  import opened Lookup
  import opened Machine
  import Runs

  /** The buffer holds the next numBits bits of S. */
  ghost predicate Buffered(S: seq<bool>, pos: nat, numBits: nat, bitBuf: nat) {
    pos + numBits <= |S| && bitBuf < Pow2(numBits) && ToBits(bitBuf, numBits) == S[pos..pos + numBits]
  }

  /** inp is the part of all after the first base bytes; every byte read from it is in the buffer or used up. */
  ghost predicate InSync(all: seq<byte>, base: nat, inp: seq<byte>, inCur: nat, pos: nat, numBits: nat, bitBuf: nat) {
    && base <= |all| && inp == all[base..] && inCur <= |inp| && numBits <= 30
    && pos + numBits == 8 * (base + inCur) && Buffered(ByteBits(all), pos, numBits, bitBuf)
  }

  /** A byte shifted in above the bits of the buffer; the bits there are zero, so "or" is addition. */
  function Push(bitBuf: nat, numBits: nat, c: byte): nat {
    bitBuf + c * Pow2(numBits)
  }

  lemma NextByte(all: seq<byte>, base: nat, inp: seq<byte>, inCur: nat, pos: nat, numBits: nat, bitBuf: nat)
    requires InSync(all, base, inp, inCur, pos, numBits, bitBuf) && inCur < |inp| && numBits <= 22
    ensures InSync(all, base, inp, inCur + 1, pos, numBits + 8, Push(bitBuf, numBits, inp[inCur]))
    ensures Push(bitBuf, numBits, inp[inCur]) < 0x1_0000_0000
  {
    hide ToBits, ByteBits;
    var S, c := ByteBits(all), inp[inCur];
    assert S[0..|S|] == S;
    Runs.ByteAt(S, 0, all, base + inCur);
    ToBitsConcat(bitBuf, numBits, c, 8);
    BufferGrows(bitBuf, numBits, c);
    assert S[pos..pos + numBits + 8] == S[pos..pos + numBits] + S[pos + numBits..pos + numBits + 8];
  }

  lemma BufferGrows(bitBuf: nat, numBits: nat, c: byte)
    requires bitBuf < Pow2(numBits) && numBits <= 22
    ensures bitBuf + c * Pow2(numBits) < Pow2(numBits + 8) < 0x1_0000_0000
  {
    hide Pow2;
    Pow2Add(numBits, 8);
    Runs.PowByte();
    MulMono(c, 255, Pow2(numBits));
    Pow2Mono(numBits + 8, 30);
    Pow2Add(15, 15);
    PowMax();
  }

  lemma PowMax()
    ensures Pow2(15) == 32768
  {
    assert Pow2(8) == 256;
  }

  lemma DropBits(all: seq<byte>, base: nat, inp: seq<byte>, inCur: nat, pos: nat, numBits: nat, bitBuf: nat, n: nat)
    requires InSync(all, base, inp, inCur, pos, numBits, bitBuf) && n <= numBits
    ensures InSync(all, base, inp, inCur, pos + n, numBits - n, Shr(bitBuf, n))
    ensures Low(bitBuf, n) == Peek(ByteBits(all), pos, n)
  {
    hide ToBits, ByteBits, FromBits, Shr, Pow2;
    var S := ByteBits(all);
    ToBitsShift(bitBuf, n, numBits - n);
    assert S[pos..pos + numBits][..n] == S[pos..pos + n];
    assert S[pos..pos + numBits][n..] == S[pos + n..pos + numBits];
    ShrBound(bitBuf, numBits, numBits - n);
    assert ToBits(bitBuf, n) == ToBits(bitBuf, numBits)[..n];
  }

  /** Read a byte at a time until n bits are there, then take them. */
  method GetBits(inp: seq<byte>, inCur0: nat, numBits0: nat, bitBuf0: nat, n: nat, ghost all: seq<byte>,
      ghost base: nat, ghost pos: nat)
    returns (ok: bool, v: nat, inCur: nat, numBits: nat, bitBuf: nat)
    requires InSync(all, base, inp, inCur0, pos, numBits0, bitBuf0) && n <= 15
    ensures inCur0 <= inCur
    ensures ok ==> InSync(all, base, inp, inCur, pos + n, numBits, bitBuf) && v == Peek(ByteBits(all), pos, n)
    ensures ok ==> (if inCur == inCur0 then numBits + n == numBits0 else numBits < 8 && numBits0 < n)
    ensures !ok ==> inCur == |inp| && InSync(all, base, inp, inCur, pos, numBits, bitBuf) && numBits < n && numBits0 < n
  {
    hide InSync, Push;
    v, inCur, numBits, bitBuf := 0, inCur0, numBits0, bitBuf0;
    while numBits < n
      invariant InSync(all, base, inp, inCur, pos, numBits, bitBuf) && inCur0 <= inCur
      invariant if inCur == inCur0 then numBits == numBits0 else numBits < n + 8 && numBits0 < n
      decreases n - numBits
    {
      SyncFacts(all, base, inp, inCur, pos, numBits, bitBuf);
      if inCur >= |inp| {
        ok := false;
        return;
      }
      NextByte(all, base, inp, inCur, pos, numBits, bitBuf);
      bitBuf := Push(bitBuf, numBits, inp[inCur]);
      numBits := numBits + 8;
      inCur := inCur + 1;
    }
    DropBits(all, base, inp, inCur, pos, numBits, bitBuf, n);
    ok, v := true, Low(bitBuf, n);
    bitBuf := Shr(bitBuf, n);
    numBits := numBits - n;
  }

  lemma SyncFacts(all: seq<byte>, base: nat, inp: seq<byte>, inCur: nat, pos: nat, numBits: nat, bitBuf: nat)
    requires InSync(all, base, inp, inCur, pos, numBits, bitBuf)
    ensures inCur <= |inp| && numBits <= 30 && pos + numBits == 8 * (base + inCur) <= 8 * |all|
    ensures inCur == |inp| ==> pos + numBits == |ByteBits(all)|
  {
  }

  // ----- Huffman symbols -----

  /** The buffer's bits, extended by zeros, still start with a found symbol's code. */
  lemma FoundWalk(lookUp: seq<int>, tree: seq<int>, lens: seq<nat>, v: nat, nb: nat, s: nat)
    requires TableOk(lookUp, tree, lens) && Short(lens) && s < |lens| && Matches(lens, s, ToBits(v, nb))
    ensures Walk(lookUp, tree, v) == (s, lens[s])
  {
    hide ToBits, SymBits, Walk;
    var c := CodesOf(lens)[s];
    var k := if nb < MAX_LEN then nb else MAX_LEN;
    ToBitsShift(v, k, nb - k);
    ToBitsShift(v, k, MAX_LEN - k);
    assert ToBits(v, nb)[..k] == ToBits(v, MAX_LEN)[..k];
    assert c == ToBits(v, nb)[..lens[s]] == ToBits(v, nb)[..k][..lens[s]] == ToBits(v, MAX_LEN)[..lens[s]];
    assert c <= ToBits(v, MAX_LEN);
  }

  lemma {:induction false} ZeroExtend(v: nat, nb: nat, m: nat)
    requires v < Pow2(nb)
    ensures ToBits(v, nb + m) == ToBits(v, nb) + ToBits(0, m)
  {
    ToBitsConcat(v, nb, 0, m);
  }

  /** A lone symbol's code is all zeros. */
  lemma SparseZero(lens: seq<nat>, s: nat)
    requires UsedSyms(lens) <= 1 && s < |lens| && lens[s] > 0
    ensures SymBits(lens, s) == ToBits(0, lens[s])
  {
    SparseUsed(lens, lens[s]);
    NoSyms(lens, lens[s]);
    if NextCode(lens, lens[s]) > 0 {
      var a :| 0 < a < lens[s] && Count(lens, a) > 0;
      CountBefore(lens, s, |lens|, lens[s]);
      assert lens[..|lens|] == lens;
      TwoLengths(lens, a, lens[s]);
      assert false;
    }
    CodeInRange(lens, s);
    ZeroCode(lens[s]);
  }

  lemma {:induction false} ZeroCode(n: nat)
    ensures CodeBits(0, n) == ToBits(0, n)
  {
    if n > 0 {
      ZeroCode(n - 1);
      ZeroRev(n - 1);
    }
  }

  lemma {:induction false} ZeroRev(n: nat)
    ensures ToBits(0, n) + [false] == [false] + ToBits(0, n)
  {
    if n > 0 {
      ZeroRev(n - 1);
      assert ToBits(0, n) + [false] == [false] + (ToBits(0, n - 1) + [false]);
    }
  }

  /** A symbol found only in more bits is longer than the bits. */
  lemma StillWaits(lens: seq<nat>, s: nat, a: seq<bool>, b: seq<bool>)
    requires NextSym(lens, a).Wait? && a <= b && s < |lens| && Matches(lens, s, b)
    ensures |a| < lens[s]
  {
    hide SymBits;
    assert !Matches(lens, s, a);
    PrefixSame(a, b, lens[s]);
  }

  lemma PrefixSame(a: seq<bool>, b: seq<bool>, n: nat)
    requires a <= b
    ensures n <= |a| ==> b[..n] == a[..n]
  {
  }

  /** While no symbol is complete, the zero-extended buffer decodes to one longer than the buffer. */
  lemma WaitWalk(lookUp: seq<int>, tree: seq<int>, lens: seq<nat>, v: nat, nb: nat) returns (s: nat)
    requires TableOk(lookUp, tree, lens) && Short(lens) && Usable(lens) && v < Pow2(nb)
        && NextSym(lens, ToBits(v, nb)).Wait?
    ensures nb < MAX_LEN && s < |lens| && Walk(lookUp, tree, v) == (s, lens[s]) && lens[s] > nb
  {
    hide ToBits, SymBits, Walk, UsedSyms, TableOk, Complete, CodeBits;
    var t :| 0 <= t < |lens| && nb < lens[t] && ToBits(v, nb) == SymBits(lens, t)[..nb];
    var w := ToBits(v, MAX_LEN);
    ZeroExtend(v, nb, MAX_LEN - nb);
    if Complete(lens) {
      CompleteDecodes(lens, w);
      s := DecodeSym(lens, w);
      StillWaits(lens, s, ToBits(v, nb), w);
    } else {
      s := t;
      SparseZero(lens, s);
      ToBitsShift(0, nb, lens[s] - nb);
      assert ToBits(v, nb) == ToBits(0, nb);
      ToBitsInjective(v, 0, nb);
      ToBitsShift(0, lens[s], MAX_LEN - lens[s]);
      assert w[..lens[s]] == SymBits(lens, s);
    }
    FoundWalk(lookUp, tree, lens, v, MAX_LEN, s);
  }

  /** What the tables say of a buffer. */
  ghost predicate Says(lookUp: seq<int>, tree: seq<int>, lens: seq<nat>, v: nat, nb: nat, r: Sym) {
    |lookUp| == FAST_SIZE &&
    match r
    case Found(s) => s < |lens| && 0 < lens[s] <= nb && lens[s] <= MAX_LEN && Walk(lookUp, tree, v) == (s, lens[s])
    case Wait =>
      nb < MAX_LEN && exists s :: 0 <= s < |lens| && nb < lens[s] <= MAX_LEN && Walk(lookUp, tree, v) == (s, lens[s])
    case Bad => true
  }

  lemma TableSays(lookUp: seq<int>, tree: seq<int>, lens: seq<nat>, v: nat, nb: nat)
    requires TableOk(lookUp, tree, lens) && Short(lens) && Usable(lens) && v < Pow2(nb)
    ensures Says(lookUp, tree, lens, v, nb, NextSym(lens, ToBits(v, nb)))
  {
    hide ToBits, Walk, Usable, Pow2;
    var r := NextSym(lens, ToBits(v, nb));
    if r.Found? {
      FoundWalk(lookUp, tree, lens, v, nb, r.s);
    } else if r.Wait? {
      var s := WaitWalk(lookUp, tree, lens, v, nb);
    }
  }

  /** The tables built for a usable code. */
  ghost predicate Tables(lookUp: array<int>, tree: array<int>, lens: seq<nat>)
    reads lookUp, tree
  {
    TableOk(lookUp[..], tree[..], lens) && Short(lens) && Usable(lens)
  }

  /** Walk down the overflow tree until a symbol or the limit of codeLen bits. */
  method TreeDown(tree: array<int>, entry: int, v: nat, limit: nat) returns (temp: int, codeLen: nat)
    requires entry < 0 && limit > FAST_BITS && WalkTree(tree[..], entry, v, FAST_BITS).1 > 0
    ensures FAST_BITS < codeLen <= limit
    ensures temp >= 0 ==> (temp, codeLen) == WalkTree(tree[..], entry, v, FAST_BITS)
    ensures temp < 0 ==> codeLen == limit < WalkTree(tree[..], entry, v, FAST_BITS).1
  {
    hide Shr;
    temp, codeLen := entry, FAST_BITS;
    while true
      invariant temp < 0 && FAST_BITS <= codeLen < limit
      invariant WalkTree(tree[..], entry, v, FAST_BITS) == WalkTree(tree[..], temp, v, codeLen)
      decreases limit - codeLen
    {
      TreeLonger(tree[..], temp, v, codeLen);
      temp := tree[-temp - 1 + Shr(v, codeLen) % 2];
      codeLen := codeLen + 1;
      if temp >= 0 || codeLen >= limit {
        if temp < 0 {
          TreeLonger(tree[..], temp, v, codeLen);
        }
        return;
      }
    }
  }

  /** A walk that ends uses at least one more bit. */
  lemma {:induction false} TreeLonger(tree: seq<int>, temp: int, v: nat, codeLen: nat)
    requires temp < 0 && WalkTree(tree, temp, v, codeLen).1 > 0
    ensures codeLen < WalkTree(tree, temp, v, codeLen).1 && codeLen < MAX_LEN
        && 0 <= -temp - 1 + Shr(v, codeLen) % 2 < |tree|
    decreases MAX_LEN - codeLen
  {
    hide Shr;
    var cell := -temp - 1 + Shr(v, codeLen) % 2;
    if 0 <= cell < |tree| && codeLen < MAX_LEN && tree[cell] < 0 {
      TreeLonger(tree, tree[cell], v, codeLen + 1);
    }
  }

  /** Whether the buffer already holds a whole symbol. */
  method CanDecode(lookUp: array<int>, tree: array<int>, bitBuf: nat, numBits: nat) returns (yes: bool)
    requires lookUp.Length == FAST_SIZE && (lookUp[bitBuf % FAST_SIZE] < 0 ==> Walk(lookUp[..], tree[..], bitBuf).1 > 0)
    ensures yes <==> 0 < Walk(lookUp[..], tree[..], bitBuf).1 <= numBits
  {
    hide WalkTree;
    var temp := lookUp[bitBuf % FAST_SIZE];
    if temp >= 0 {
      var codeLen := temp / 512;
      yes := codeLen > 0 && numBits >= codeLen;
    } else if numBits > FAST_BITS {
      var t, codeLen := TreeDown(tree, temp, bitBuf, numBits);
      yes := t >= 0;
    } else {
      TreeLonger(tree[..], temp, bitBuf, FAST_BITS);
      yes := false;
    }
  }

  /** A lookup entry or a tree cell, from which the symbol and its length follow. */
  method FindEntry(lookUp: array<int>, tree: array<int>, v: nat) returns (entry: nat, codeLen: nat)
    requires lookUp.Length == FAST_SIZE && (lookUp[v % FAST_SIZE] < 0 ==> Walk(lookUp[..], tree[..], v).1 > 0)
    ensures codeLen == Walk(lookUp[..], tree[..], v).1
    ensures entry == Walk(lookUp[..], tree[..], v).0 || entry % 512 == Walk(lookUp[..], tree[..], v).0
  {
    hide WalkTree;
    var temp := lookUp[v % FAST_SIZE];
    if temp >= 0 {
      entry, codeLen := temp, temp / 512;
    } else {
      TreeLong(tree[..], temp, v, FAST_BITS);
      var t, n := TreeDown(tree, temp, v, MAX_LEN);
      entry, codeLen := t, n;
    }
  }

  lemma {:induction false} TreeLong(tree: seq<int>, temp: int, v: nat, codeLen: nat)
    requires codeLen <= MAX_LEN
    ensures WalkTree(tree, temp, v, codeLen).1 <= MAX_LEN
    decreases MAX_LEN - codeLen
  {
    hide Shr;
    var cell := -temp - 1 + Shr(v, codeLen) % 2;
    if 0 <= cell < |tree| && codeLen < MAX_LEN && tree[cell] < 0 {
      TreeLong(tree, tree[cell], v, codeLen + 1);
    }
  }

  /** The bits of the buffer. */
  ghost function Buf(numBits: nat, bitBuf: nat): (r: seq<bool>)
    ensures |r| == numBits
  {
    ToBits(bitBuf, numBits)
  }

  /** A buffer in sync holds a prefix of what is left of the stream. */
  lemma BufPrefix(lens: seq<nat>, all: seq<byte>, base: nat, inp: seq<byte>, inCur: nat, pos: nat, numBits: nat,
      bitBuf: nat)
    requires InSync(all, base, inp, inCur, pos, numBits, bitBuf) && Usable(lens) && Short(lens)
    requires pos <= |ByteBits(all)| && !NextSym(lens, ByteBits(all)[pos..]).Bad?
    ensures !NextSym(lens, Buf(numBits, bitBuf)).Bad?
    ensures NextSym(lens, Buf(numBits, bitBuf)).Found? ==>
        NextSym(lens, ByteBits(all)[pos..]) == NextSym(lens, Buf(numBits, bitBuf))
    ensures inCur == |inp| ==> NextSym(lens, ByteBits(all)[pos..]) == NextSym(lens, Buf(numBits, bitBuf))
  {
    hide ToBits, ByteBits, NextSym, Usable, Pow2;
    var rest := ByteBits(all)[pos..];
    assert Buf(numBits, bitBuf) == rest[..numBits];
    assert inCur == |inp| ==> rest[..numBits] == rest;
    NextSymMono(lens, Buf(numBits, bitBuf), rest);
    BadLater(lens, Buf(numBits, bitBuf), rest);
  }

  lemma BadLater(lens: seq<nat>, a: seq<bool>, b: seq<bool>)
    requires a <= b && !NextSym(lens, b).Bad?
    ensures !NextSym(lens, a).Bad?
  {
    hide NextSym;
    if NextSym(lens, a).Bad? {
      BadStays(lens, a, b);
    }
  }

  /** What the last byte read completed. */
  ghost predicate JustRead(lens: seq<nat>, numBits: nat, bitBuf: nat) {
    numBits >= 8 && NextSym(lens, Buf(numBits, bitBuf)[..numBits - 8]).Wait?
  }

  lemma OneMore(lens: seq<nat>, numBits: nat, bitBuf: nat, c: byte)
    requires NextSym(lens, Buf(numBits, bitBuf)).Wait? && bitBuf < Pow2(numBits)
    ensures JustRead(lens, numBits + 8, Push(bitBuf, numBits, c))
  {
    hide ToBits, NextSym;
    ToBitsConcat(bitBuf, numBits, c, 8);
    assert Buf(numBits + 8, Push(bitBuf, numBits, c))[..numBits] == Buf(numBits, bitBuf);
  }

  lemma LittleLeft(lens: seq<nat>, numBits: nat, bitBuf: nat, s: nat)
    requires JustRead(lens, numBits, bitBuf) && NextSym(lens, Buf(numBits, bitBuf)) == Found(s)
    ensures numBits - 8 < lens[s] <= numBits
  {
    hide Matches;
    StillWaits(lens, s, Buf(numBits, bitBuf)[..numBits - 8], Buf(numBits, bitBuf));
    FoundShort(lens, s, Buf(numBits, bitBuf));
  }

  lemma FoundShort(lens: seq<nat>, s: nat, b: seq<bool>)
    requires s < |lens| && Matches(lens, s, b)
    ensures lens[s] <= |b|
  {
  }

  /** Near the end of the input: read one byte at a time, and only while no symbol is complete. A resumed decoder
      goes straight to the byte it was waiting for. The bits to come may have no meaning unless clean. */
  method Fill(lookUp: array<int>, tree: array<int>, inp: seq<byte>, inCur0: nat, numBits0: nat, bitBuf0: nat,
      resume: bool,
              ghost clean: bool, ghost lens: seq<nat>, ghost all: seq<byte>, ghost base: nat, ghost pos: nat)
    returns (ok: bool, inCur: nat, numBits: nat, bitBuf: nat)
    requires Tables(lookUp, tree, lens) && lens != [] && lookUp.Length == FAST_SIZE && numBits0 < 15
    requires InSync(all, base, inp, inCur0, pos, numBits0, bitBuf0)
    requires pos <= |ByteBits(all)| && (clean ==> !NextSym(lens, ByteBits(all)[pos..]).Bad?)
    requires clean && resume ==> NextSym(lens, Buf(numBits0, bitBuf0)).Wait?
    ensures inCur0 <= inCur && InSync(all, base, inp, inCur, pos, numBits, bitBuf)
    ensures ok ==>
              Walk(lookUp[..], tree[..], bitBuf).1 <= numBits && (clean ==> NextSym(lens, Buf(numBits, bitBuf)).Found?)
    ensures !ok ==> inCur == |inp| && numBits < 15 && (clean ==> NextSym(lens, Buf(numBits, bitBuf)).Wait?)
    ensures numBits == numBits0 + 8 * (inCur - inCur0) && (inCur == inCur0 ==> bitBuf == bitBuf0)
    ensures clean && inCur > inCur0 ==> JustRead(lens, numBits, bitBuf)
  {
    hide InSync, NextSym, TableOk, Walk, Usable, ByteBits, Buf, JustRead, Push, Pow2;
    inCur, numBits, bitBuf := inCur0, numBits0, bitBuf0;
    var check := !resume;
    while numBits < 15
      invariant inCur0 <= inCur && InSync(all, base, inp, inCur, pos, numBits, bitBuf)
      invariant !check ==> numBits < 15 && (clean ==> NextSym(lens, Buf(numBits, bitBuf)).Wait?)
      invariant numBits == numBits0 + 8 * (inCur - inCur0) && (inCur == inCur0 ==> bitBuf == bitBuf0)
      invariant clean && inCur > inCur0 ==> JustRead(lens, numBits, bitBuf)
      decreases |inp| - inCur
    {
      BufferWalks(lookUp, tree, lens, bitBuf);
      if clean {
        BufferSays(lookUp, tree, lens, all, base, inp, inCur, pos, numBits, bitBuf);
      }
      if check {
        var yes := CanDecode(lookUp, tree, bitBuf, numBits);
        if yes {
          ok := true;
          return;
        }
      }
      check := true;
      SyncFacts(all, base, inp, inCur, pos, numBits, bitBuf);
      if inCur >= |inp| {
        ok := false;
        return;
      }
      if clean {
        OneMore(lens, numBits, bitBuf, inp[inCur]);
      }
      NextByte(all, base, inp, inCur, pos, numBits, bitBuf);
      bitBuf := Push(bitBuf, numBits, inp[inCur]);
      numBits := numBits + 8;
      inCur := inCur + 1;
    }
    BufferWalks(lookUp, tree, lens, bitBuf);
    if clean {
      BufferSays(lookUp, tree, lens, all, base, inp, inCur, pos, numBits, bitBuf);
    }
    ok := true;
  }

  /** From any buffer the tables lead to some symbol. */
  lemma BufferWalks(lookUp: array<int>, tree: array<int>, lens: seq<nat>, bitBuf: nat)
    requires Tables(lookUp, tree, lens) && lens != [] && lookUp.Length == FAST_SIZE
    ensures var r := Walk(lookUp[..], tree[..], bitBuf);
            0 <= r.0 < |lens| && r.1 <= MAX_LEN && (lookUp[bitBuf % FAST_SIZE] < 0 ==> r.1 > 0)
                && (r.1 == 0 ==> r.0 == 0)
  {
    hide Walk, Decodes, Usable;
    assert WalkEnds(lookUp[..], tree[..], |lens|, bitBuf) by { var r := Walk(lookUp[..], tree[..], bitBuf); }
  }

  /** Reading the tables off a buffer in sync. */
  lemma BufferSays(lookUp: array<int>, tree: array<int>, lens: seq<nat>, all: seq<byte>, base: nat, inp: seq<byte>,
      inCur: nat,
                   pos: nat, numBits: nat, bitBuf: nat)
    requires Tables(lookUp, tree, lens) && lookUp.Length == FAST_SIZE
    requires InSync(all, base, inp, inCur, pos, numBits, bitBuf)
    requires pos <= |ByteBits(all)| && !NextSym(lens, ByteBits(all)[pos..]).Bad?
    ensures bitBuf < Pow2(numBits) && Walk(lookUp[..], tree[..], bitBuf).1 > 0
    ensures NextSym(lens, Buf(numBits, bitBuf)).Found? <==> Walk(lookUp[..], tree[..], bitBuf).1 <= numBits
    ensures NextSym(lens, Buf(numBits, bitBuf)).Wait? <==> Walk(lookUp[..], tree[..], bitBuf).1 > numBits
    ensures NextSym(lens, Buf(numBits, bitBuf)).Wait? ==> numBits < MAX_LEN
    ensures NextSym(lens, Buf(numBits, bitBuf)).Found? ==>
              Walk(lookUp[..], tree[..], bitBuf) == (NextSym(lens, Buf(numBits, bitBuf)).s,
                  lens[NextSym(lens, Buf(numBits, bitBuf)).s])
              && NextSym(lens, ByteBits(all)[pos..]) == NextSym(lens, Buf(numBits, bitBuf))
  {
    hide NextSym, Walk, ToBits, ByteBits, TableOk, Usable, Pow2;
    BufPrefix(lens, all, base, inp, inCur, pos, numBits, bitBuf);
    TableSays(lookUp[..], tree[..], lens, bitBuf, numBits);
  }

  /** Two bytes at once, whatever the next symbol needs. */
  lemma NextTwo(all: seq<byte>, base: nat, inp: seq<byte>, inCur: nat, pos: nat, numBits: nat, bitBuf: nat)
    requires InSync(all, base, inp, inCur, pos, numBits, bitBuf) && inCur + 2 <= |inp| && numBits < 15
    ensures InSync(all, base, inp, inCur + 2, pos, numBits + 16,
        Push(Push(bitBuf, numBits, inp[inCur]), numBits + 8, inp[inCur + 1]))
  {
    hide InSync, Push;
    SyncFacts(all, base, inp, inCur, pos, numBits, bitBuf);
    NextByte(all, base, inp, inCur, pos, numBits, bitBuf);
    NextByte(all, base, inp, inCur + 1, pos, numBits + 8, Push(bitBuf, numBits, inp[inCur]));
  }

  /** Take the symbol that the buffer starts with, and its n bits. */
  method TakeSymbol(lookUp: array<int>, tree: array<int>, inp: seq<byte>, inCur: nat, numBits0: nat, bitBuf0: nat,
                    ghost clean: bool, ghost lens: seq<nat>, ghost all: seq<byte>, ghost base: nat, ghost pos: nat)
    returns (entry: nat, numBits: nat, bitBuf: nat, ghost n: nat)
    requires Tables(lookUp, tree, lens) && lens != [] && lookUp.Length == FAST_SIZE && |lens| <= 512
    requires InSync(all, base, inp, inCur, pos, numBits0, bitBuf0)
    requires pos <= |ByteBits(all)| && (clean ==> !NextSym(lens, ByteBits(all)[pos..]).Bad?)
    requires Walk(lookUp[..], tree[..], bitBuf0).1 <= numBits0
    ensures entry % 512 < |lens| && n <= 15 && numBits + n == numBits0 && (n == 0 ==> entry % 512 == 0)
    ensures InSync(all, base, inp, inCur, pos + n, numBits, bitBuf)
    ensures clean ==> NextSym(lens, ByteBits(all)[pos..]) == Found(entry % 512) && n == lens[entry % 512]
    ensures clean ==> NextSym(lens, Buf(numBits0, bitBuf0)) == Found(entry % 512)
  {
    hide InSync, NextSym, TableOk, Walk, Usable, ByteBits, Buf;
    BufferWalks(lookUp, tree, lens, bitBuf0);
    if clean {
      BufferSays(lookUp, tree, lens, all, base, inp, inCur, pos, numBits0, bitBuf0);
    }
    var codeLen;
    entry, codeLen := FindEntry(lookUp, tree, bitBuf0);
    DropBits(all, base, inp, inCur, pos, numBits0, bitBuf0, codeLen);
    bitBuf := Shr(bitBuf0, codeLen);
    numBits, n := numBits0 - codeLen, codeLen;
  }

  /** Every byte taken from the input can be given back, but for the bits of one byte. */
  predicate Recoverable(numBits: nat, inCur: nat) {
    numBits < 8 + 8 * inCur
  }

  /** Enough bits for the next symbol, without reading a byte that it may not need. */
  method Refill(lookUp: array<int>, tree: array<int>, inp: seq<byte>, inCur0: nat, numBits0: nat, bitBuf0: nat,
      resume: bool,
                ghost clean: bool, ghost lens: seq<nat>, ghost all: seq<byte>, ghost base: nat, ghost pos: nat)
    returns (ok: bool, inCur: nat, numBits: nat, bitBuf: nat)
    requires Tables(lookUp, tree, lens) && lens != [] && lookUp.Length == FAST_SIZE
    requires InSync(all, base, inp, inCur0, pos, numBits0, bitBuf0)
    requires pos <= |ByteBits(all)| && (clean ==> !NextSym(lens, ByteBits(all)[pos..]).Bad?)
    requires if resume then numBits0 < 15 && (clean ==> NextSym(lens, Buf(numBits0, bitBuf0)).Wait?) else clean ==>
        Recoverable(numBits0, inCur0)
    ensures inCur0 <= inCur && InSync(all, base, inp, inCur, pos, numBits, bitBuf)
        && numBits == numBits0 + 8 * (inCur - inCur0)
    ensures ok ==> Walk(lookUp[..], tree[..], bitBuf).1 <= numBits
    ensures ok && clean ==> JustRead(lens, numBits, bitBuf) || Recoverable(numBits, inCur)
    ensures !ok ==> inCur == |inp| && numBits < 15 && (clean ==> NextSym(lens, Buf(numBits, bitBuf)).Wait?)
  {
    hide InSync, NextSym, Usable, ByteBits, Buf, JustRead, TableOk, Tables, Push, Pow2, Walk;
    SyncFacts(all, base, inp, inCur0, pos, numBits0, bitBuf0);
    ok, inCur, numBits, bitBuf := true, inCur0, numBits0, bitBuf0;
    if numBits < 15 {
      if resume || |inp| - inCur < 2 {
        ok, inCur, numBits, bitBuf := Fill(lookUp, tree, inp, inCur, numBits, bitBuf, resume, clean, lens, all, base,
            pos);
        return;
      }
      NextTwo(all, base, inp, inCur, pos, numBits, bitBuf);
      bitBuf := Push(Push(bitBuf, numBits, inp[inCur]), numBits + 8, inp[inCur + 1]);
      inCur := inCur + 2;
      numBits := numBits + 16;
    }
    BufferWalks(lookUp, tree, lens, bitBuf);
  }

  /** The careful symbol decoder: a symbol and the number of its bits. */
  method HuffDecode(lookUp: array<int>, tree: array<int>, inp: seq<byte>, inCur0: nat, numBits0: nat, bitBuf0: nat,
      resume: bool,
                    ghost clean: bool, ghost lens: seq<nat>, ghost all: seq<byte>, ghost base: nat, ghost pos: nat)
    returns (ok: bool, sym: nat, inCur: nat, numBits: nat, bitBuf: nat, ghost n: nat)
    requires Tables(lookUp, tree, lens) && lens != [] && lookUp.Length == FAST_SIZE && |lens| <= 512
    requires InSync(all, base, inp, inCur0, pos, numBits0, bitBuf0)
    requires pos <= |ByteBits(all)| && (clean ==> !NextSym(lens, ByteBits(all)[pos..]).Bad?)
    requires if resume then numBits0 < 15 && (clean ==> NextSym(lens, Buf(numBits0, bitBuf0)).Wait?) else clean ==>
        Recoverable(numBits0, inCur0)
    ensures inCur0 <= inCur && (Recoverable(numBits0, inCur0) ==> Recoverable(numBits, inCur))
    ensures ok ==> sym < |lens| && n <= 15 && (n == 0 ==> sym == 0)
    ensures ok ==> InSync(all, base, inp, inCur, pos + n, numBits, bitBuf)
    ensures ok && clean ==>
              NextSym(lens, ByteBits(all)[pos..]) == Found(sym) && n == lens[sym] && Recoverable(numBits, inCur)
    ensures !ok ==> InSync(all, base, inp, inCur, pos, numBits, bitBuf) && inCur == |inp| && numBits < 15
    ensures !ok && clean ==> NextSym(lens, ByteBits(all)[pos..]).Wait?
  {
    hide InSync, NextSym, Usable, ByteBits, Buf, JustRead, TableOk, Push, Pow2, Walk;
    sym, n := 0, 0;
    ok, inCur, numBits, bitBuf := Refill(lookUp, tree, inp, inCur0, numBits0, bitBuf0, resume, clean, lens, all, base,
        pos);
    if !ok {
      if clean {
        BufPrefix(lens, all, base, inp, inCur, pos, numBits, bitBuf);
      }
      return;
    }
    ghost var nb, bb := numBits, bitBuf;
    var entry;
    entry, numBits, bitBuf, n := TakeSymbol(lookUp, tree, inp, inCur, numBits, bitBuf, clean, lens, all, base, pos);
    sym := entry % 512;
    if clean && JustRead(lens, nb, bb) {
      LittleLeft(lens, nb, bb, sym);
    }
  }

  /** Give back the bytes looked ahead of, as far as they came from this call's input. */
  method PutBack(inCur0: nat, numBits0: nat, bitBuf0: nat, inp: seq<byte>, ghost all: seq<byte>, ghost base: nat,
      ghost pos: nat)
    returns (inCur: nat, numBits: nat, bitBuf: nat)
    requires InSync(all, base, inp, inCur0, pos, numBits0, bitBuf0)
    ensures InSync(all, base, inp, inCur, pos, numBits, bitBuf) && inCur <= inCur0
    ensures Recoverable(numBits0, inCur0) ==> numBits < 8
    ensures numBits <= numBits0
  {
    inCur, numBits := inCur0, numBits0;
    while inCur > 0 && numBits >= 8
      invariant pos + numBits == 8 * (base + inCur) && numBits <= numBits0 && inCur <= inCur0
    {
      inCur := inCur - 1;
      numBits := numBits - 8;
    }
    MaskBits(all, base, inp, inCur0, pos, numBits0, bitBuf0, numBits);
    bitBuf := Low(bitBuf0, numBits);
  }

  lemma MaskBits(all: seq<byte>, base: nat, inp: seq<byte>, inCur: nat, pos: nat, numBits: nat, bitBuf: nat, n: nat)
    requires InSync(all, base, inp, inCur, pos, numBits, bitBuf) && n <= numBits
    ensures Buffered(ByteBits(all), pos, n, Low(bitBuf, n))
  {
    hide ByteBits, ToBits, Low, Pow2;
    var S := ByteBits(all);
    ToBitsLow(bitBuf, n);
    ToBitsShift(bitBuf, n, numBits - n);
    assert ToBits(Low(bitBuf, n), n) == ToBits(bitBuf, n);
    assert ToBits(bitBuf, n) == ToBits(bitBuf, numBits)[..n];
    assert S[pos..pos + numBits][..n] == S[pos..pos + n];
  }
}
