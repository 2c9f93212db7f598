/** The decompressor's decoding tables: a 1024-entry lookup indexed by the next ten bits and an
    overflow tree for longer codes. A negative entry -(2j+1) points at tree node j, whose two
    children are cells 2j and 2j+1; zero means "unassigned" and also "symbol 0". */
module Lookup {
  import opened Bits
  import opened Canonical

  const FAST_BITS: nat := 10
  const FAST_SIZE: nat := 1024

  function Id(j: nat): int { -(2 * j + 1) }

  /** Follow the overflow tree from the entry temp, codeLen bits of v having been used;
      a length of 0 stands for leaving the table. */
  function WalkTree(tree: seq<int>, temp: int, v: nat, codeLen: nat): (r: (int, nat))
    decreases MAX_LEN - codeLen
  {
    var cell := -temp - 1 + Shr(v, codeLen) % 2;
    if codeLen >= MAX_LEN || !(0 <= cell < |tree|) then (0, 0)
    else if tree[cell] < 0 then WalkTree(tree, tree[cell], v, codeLen + 1)
    else (tree[cell], codeLen + 1)
  }

  /** Decode one symbol from the bit buffer v: the symbol and its length. */
  function Walk(lookUp: seq<int>, tree: seq<int>, v: nat): (r: (int, nat))
    requires |lookUp| == FAST_SIZE
  {
    var temp := lookUp[v % FAST_SIZE];
    if temp >= 0 then (temp % 512, temp / 512) else WalkTree(tree, temp, v, FAST_BITS)
  }

  /** Bit strings of the symbols' codes, empty for an unused symbol. */
  type Codes = seq<seq<bool>>

  /** The tables decode every bit buffer that starts with a symbol's code to that symbol. */
  ghost predicate Decodes(lookUp: seq<int>, tree: seq<int>, codes: Codes) {
    |lookUp| == FAST_SIZE &&
    forall v: nat, s: nat {:trigger codes[s], ToBits(v, MAX_LEN)} ::
      s < |codes| && codes[s] != [] && codes[s] <= ToBits(v, MAX_LEN) ==> Walk(lookUp, tree, v) == (s, |codes[s]|)
  }

  /** The tree's ghost picture: node j stands for the bit string paths[j], a proper prefix of the code
      of symbol own[j]; up[j] is the cell that points at it. */
  datatype Trie = Trie(paths: seq<seq<bool>>, own: seq<nat>, up: seq<nat>)

  function CellPath(t: Trie, c: nat): seq<bool>
    requires c / 2 < |t.paths|
  {
    t.paths[c / 2] + [c % 2 == 1]
  }

  ghost predicate Shape(t: Trie, codes: Codes) {
    && |t.own| == |t.paths| && |t.up| == |t.paths|
    && (forall j :: 0 <= j < |t.paths| ==>
          FAST_BITS <= |t.paths[j]| && t.own[j] < |codes| && t.paths[j] < codes[t.own[j]])
    && (forall i, j :: 0 <= i < j < |t.paths| ==> t.paths[i] != t.paths[j])
  }

  /** A negative lookup entry points at the node of its ten bits... */
  ghost predicate FastNeg(lookUp: seq<int>, t: Trie)
    requires |lookUp| == FAST_SIZE
  {
    forall i :: 0 <= i < FAST_SIZE && lookUp[i] < 0 ==>
      exists j :: 0 <= j < |t.paths| && lookUp[i] == Id(j) && t.paths[j] == ToBits(i, FAST_BITS)
  }

  /** ... and every ten-bit node has its entry. */
  ghost predicate FastNode(lookUp: seq<int>, t: Trie)
    requires |lookUp| == FAST_SIZE
  {
    forall j :: 0 <= j < |t.paths| && |t.paths[j]| == FAST_BITS ==> lookUp[FastIndex(t.paths[j])] == Id(j)
  }

  /** A positive entry belongs to an inserted short code. */
  ghost predicate FastPos(lookUp: seq<int>, codes: Codes, k: nat)
    requires |lookUp| == FAST_SIZE && k <= |codes|
  {
    forall i :: 0 <= i < FAST_SIZE && lookUp[i] > 0 ==>
      exists s :: 0 <= s < k && codes[s] != [] && codes[s] <= ToBits(i, FAST_BITS)
  }

  /** Every inserted short code fills all the entries it starts. */
  ghost predicate FastSym(lookUp: seq<int>, codes: Codes, k: nat)
    requires |lookUp| == FAST_SIZE && k <= |codes|
  {
    forall i, s {:trigger codes[s], lookUp[i]} ::
      0 <= i < FAST_SIZE && 0 <= s < k && codes[s] != [] && codes[s] <= ToBits(i, FAST_BITS) ==>
      lookUp[i] == |codes[s]| * 512 + s
  }

  function FastIndex(p: seq<bool>): (r: nat)
    requires |p| == FAST_BITS
    ensures r < FAST_SIZE && ToBits(r, FAST_BITS) == p
  {
    ToFromBits(p);
    assert Pow2(10) == 1024;
    FromBits(p)
  }

  ghost predicate TreeZero(tree: seq<int>, t: Trie) {
    && 2 * |t.paths| <= |tree|
    && forall c :: 2 * |t.paths| <= c < |tree| ==> tree[c] == 0
  }

  ghost predicate TreeNeg(tree: seq<int>, t: Trie)
    requires 2 * |t.paths| <= |tree|
  {
    forall c :: 0 <= c < 2 * |t.paths| && tree[c] < 0 ==>
      exists j :: 0 <= j < |t.paths| && tree[c] == Id(j) && t.paths[j] == CellPath(t, c)
  }

  ghost predicate TreePos(tree: seq<int>, t: Trie, codes: Codes, k: nat)
    requires 2 * |t.paths| <= |tree| && k <= |codes|
  {
    forall c :: 0 <= c < 2 * |t.paths| && tree[c] > 0 ==> tree[c] < k && codes[tree[c]] == CellPath(t, c)
  }

  ghost predicate TreeUp(tree: seq<int>, t: Trie)
    requires 2 * |t.paths| <= |tree|
  {
    && |t.up| == |t.paths|
    && forall j :: 0 <= j < |t.paths| && |t.paths[j]| > FAST_BITS ==>
      t.up[j] < 2 * |t.paths| && tree[t.up[j]] == Id(j) && CellPath(t, t.up[j]) == t.paths[j]
  }

  /** leaf[s] is the cell of the long symbol s. */
  ghost predicate TreeLeaf(tree: seq<int>, t: Trie, codes: Codes, leaf: seq<nat>)
    requires 2 * |t.paths| <= |tree|
  {
    && |leaf| <= |codes|
    && forall s :: 0 <= s < |leaf| && |codes[s]| > FAST_BITS ==>
      leaf[s] < 2 * |t.paths| && tree[leaf[s]] == s && CellPath(t, leaf[s]) == codes[s]
  }

  // ----- what the finished tables decode -----

  lemma BitAt(v: nat, n: nat, i: nat)
    requires i < n
    ensures ToBits(v, n)[i] == (Shr(v, i) % 2 == 1)
  {
    ToBitsShift(v, i, n - i);
    assert ToBits(v, n)[i] == ToBits(Shr(v, i), n - i)[0];
  }

  lemma LowTen(v: nat)
    ensures ToBits(v % FAST_SIZE, FAST_BITS) == ToBits(v, FAST_BITS)
    ensures ToBits(v, MAX_LEN)[..FAST_BITS] == ToBits(v, FAST_BITS)
  {
    assert Pow2(10) == 1024;
    ShrLow(v, FAST_BITS);
    ToBitsLow(v, FAST_BITS);
    ToBitsShift(v, FAST_BITS, 5);
  }

  lemma ToBitsInjective(a: nat, b: nat, n: nat)
    requires ToBits(a, n) == ToBits(b, n) && a < Pow2(n) && b < Pow2(n)
    ensures a == b
  {
    FromToBits(a, n);
    FromToBits(b, n);
  }

  lemma ShortDecodes(lookUp: seq<int>, tree: seq<int>, codes: Codes, v: nat, s: nat)
    requires |lookUp| == FAST_SIZE && FastSym(lookUp, codes, |codes|) && |codes| <= 512
    requires s < |codes| && 0 < |codes[s]| <= FAST_BITS && codes[s] <= ToBits(v, MAX_LEN)
    ensures Walk(lookUp, tree, v) == (s, |codes[s]|)
  {
    hide ToBits;
    LowTen(v);
    var i := v % FAST_SIZE;
    assert codes[s] <= ToBits(i, FAST_BITS);
    assert lookUp[i] == |codes[s]| * 512 + s;
  }

  lemma FastIndexOf(v: nat, p: seq<bool>)
    requires |p| == FAST_BITS && p <= ToBits(v, MAX_LEN)
    ensures FastIndex(p) == v % FAST_SIZE
  {
    LowTen(v);
    assert Pow2(10) == 1024;
    ToBitsInjective(v % FAST_SIZE, FastIndex(p), FAST_BITS);
  }

  /** Decoding a buffer that starts with the path of node j passes through node j. */
  lemma {:induction false} PassesNode(lookUp: seq<int>, tree: seq<int>, t: Trie, v: nat, j: nat)
    requires |lookUp| == FAST_SIZE && FastNode(lookUp, t) && 2 * |t.paths| <= |tree| && TreeUp(tree, t)
    requires j < |t.paths| && FAST_BITS <= |t.paths[j]| <= MAX_LEN && t.paths[j] <= ToBits(v, MAX_LEN)
    requires forall i :: 0 <= i < |t.paths| ==> FAST_BITS <= |t.paths[i]|
    ensures Walk(lookUp, tree, v) == WalkTree(tree, Id(j), v, |t.paths[j]|)
    decreases |t.paths[j]|
  {
    hide ToBits, Shr, FromBits;
    var d := |t.paths[j]|;
    if d == FAST_BITS {
      FastIndexOf(v, t.paths[j]);
    } else {
      var c := t.up[j];
      var n := c / 2;
      assert CellPath(t, c) == t.paths[j];
      assert t.paths[n] == t.paths[j][..d - 1];
      PassesNode(lookUp, tree, t, v, n);
      BitAt(v, MAX_LEN, d - 1);
      assert t.paths[j][d - 1] == (c % 2 == 1);
    }
  }

  lemma LongDecodes(lookUp: seq<int>, tree: seq<int>, t: Trie, codes: Codes, leaf: seq<nat>, v: nat, s: nat)
    requires |lookUp| == FAST_SIZE && FastNode(lookUp, t) && 2 * |t.paths| <= |tree| && TreeUp(tree, t)
    requires forall i :: 0 <= i < |t.paths| ==> FAST_BITS <= |t.paths[i]|
    requires TreeLeaf(tree, t, codes, leaf) && |leaf| == |codes|
    requires s < |codes| && FAST_BITS < |codes[s]| <= MAX_LEN && codes[s] <= ToBits(v, MAX_LEN)
    ensures Walk(lookUp, tree, v) == (s, |codes[s]|)
  {
    hide ToBits, Shr, FastNode, TreeUp;
    var c := leaf[s];
    var d := |codes[s]| - 1;
    assert CellPath(t, c) == codes[s];
    assert t.paths[c / 2] == codes[s][..d];
    PassesNode(lookUp, tree, t, v, c / 2);
    BitAt(v, MAX_LEN, d);
    assert (c % 2 == 1) == codes[s][d];
  }

  lemma TablesDecode(lookUp: seq<int>, tree: seq<int>, t: Trie, codes: Codes, leaf: seq<nat>)
    requires |lookUp| == FAST_SIZE && FastSym(lookUp, codes, |codes|) && |codes| <= 512
    requires FastNode(lookUp, t) && 2 * |t.paths| <= |tree| && TreeUp(tree, t)
    requires forall i :: 0 <= i < |t.paths| ==> FAST_BITS <= |t.paths[i]|
    requires TreeLeaf(tree, t, codes, leaf) && |leaf| == |codes|
    ensures Decodes(lookUp, tree, codes)
  {
    forall v: nat, s: nat | s < |codes| && codes[s] != [] && codes[s] <= ToBits(v, MAX_LEN)
      ensures Walk(lookUp, tree, v) == (s, |codes[s]|)
    {
      if |codes[s]| <= FAST_BITS {
        ShortDecodes(lookUp, tree, codes, v, s);
      } else {
        LongDecodes(lookUp, tree, t, codes, leaf, v, s);
      }
    }
  }

  // ----- filling the tables -----

  ghost predicate PrefixFreeCodes(codes: Codes) {
    && (forall s :: 0 <= s < |codes| ==> |codes[s]| <= MAX_LEN)
    && forall s, t :: 0 <= s < |codes| && 0 <= t < |codes| && s != t && codes[s] != [] ==> !(codes[s] <= codes[t])
  }

  /** However the code prefixes are numbered, their nodes fit a tree of this many cells. */
  ghost predicate Roomy(codes: Codes, size: nat) {
    forall t: Trie :: Shape(t, codes) ==> 2 * |t.paths| <= size
  }

  /** The tables after the symbols below k. */
  ghost predicate Inv(lookUp: seq<int>, tree: seq<int>, t: Trie, codes: Codes, k: nat, leaf: seq<nat>) {
    && |lookUp| == FAST_SIZE && k == |leaf| <= |codes|
    && Shape(t, codes) && FastNeg(lookUp, t) && FastNode(lookUp, t) && FastPos(lookUp, codes, k)
       && FastSym(lookUp, codes, k)
    && TreeZero(tree, t) && TreeNeg(tree, t) && TreePos(tree, t, codes, k) && TreeUp(tree, t)
       && TreeLeaf(tree, t, codes, leaf)
  }

  /** Ten bits that no code starts with and that start no code, which a complete code does not have: the finished tables
      answer symbol 0 and no bits. */
  lemma Unassigned(lookUp: seq<int>, tree: seq<int>, t: Trie, codes: Codes, leaf: seq<nat>, v: nat)
    requires Inv(lookUp, tree, t, codes, |codes|, leaf)
    requires forall s :: 0 <= s < |codes| && codes[s] != [] ==>
              !(codes[s] <= ToBits(v, FAST_BITS)) && !(ToBits(v, FAST_BITS) <= codes[s])
    ensures Walk(lookUp, tree, v) == (0, 0)
  {
    hide ToBits, FastNode, FastSym, TreeZero, TreeNeg, TreePos, TreeUp, TreeLeaf;
    LowTen(v);
    var i := v % FAST_SIZE;
    assert forall j :: 0 <= j < |t.paths| ==> t.paths[j] < codes[t.own[j]];
    assert lookUp[i] == 0;
  }

  /** From any bit buffer the walk stays within the tree and ends at one of n symbols, whose length the tables
      give; only a code without that bit string leads to no bits at all, and then to symbol 0. */
  ghost predicate Walkable(lookUp: seq<int>, tree: seq<int>, n: nat) {
    |lookUp| == FAST_SIZE && forall v: nat {:trigger Walk(lookUp, tree, v)} :: WalkEnds(lookUp, tree, n, v)
  }

  ghost predicate WalkEnds(lookUp: seq<int>, tree: seq<int>, n: nat, v: nat)
    requires |lookUp| == FAST_SIZE
  {
    var r := Walk(lookUp, tree, v);
    0 <= r.0 < n && r.1 <= MAX_LEN && (lookUp[v % FAST_SIZE] < 0 ==> r.1 > 0) && (r.1 == 0 ==> r.0 == 0)
  }

  /** A negative cell is the node of its own path. */
  lemma CellNode(tree: seq<int>, t: Trie, codes: Codes, c: nat) returns (k: nat)
    requires Shape(t, codes) && 2 * |t.paths| <= |tree| && TreeNeg(tree, t) && PrefixFreeCodes(codes)
    requires c < 2 * |t.paths| && tree[c] < 0
    ensures k < |t.paths| && tree[c] == Id(k) && |t.paths[k]| == |t.paths[c / 2]| + 1 < MAX_LEN
  {
    k :| 0 <= k < |t.paths| && tree[c] == Id(k) && t.paths[k] == CellPath(t, c);
    assert t.paths[k] < codes[t.own[k]];
  }

  /** Below a node the walk finds a symbol before the codes' greatest length is used up. */
  lemma {:induction false} NodeWalk(tree: seq<int>, t: Trie, codes: Codes, j: nat, v: nat)
    requires Shape(t, codes) && 2 * |t.paths| <= |tree| && TreeNeg(tree, t) && TreePos(tree, t, codes, |codes|)
        && PrefixFreeCodes(codes)
    requires j < |t.paths| && |t.paths[j]| < MAX_LEN && codes != []
    ensures var r := WalkTree(tree, Id(j), v, |t.paths[j]|); 0 < r.1 <= MAX_LEN && 0 <= r.0 < |codes|
    decreases MAX_LEN - |t.paths[j]|
  {
    hide Shr, Shape, TreeNeg, PrefixFreeCodes;
    var c := 2 * j + Shr(v, |t.paths[j]|) % 2;
    if tree[c] < 0 {
      var k := CellNode(tree, t, codes, c);
      NodeWalk(tree, t, codes, k, v);
    }
  }

  lemma NodeShort(t: Trie, codes: Codes, j: nat)
    requires Shape(t, codes) && PrefixFreeCodes(codes) && j < |t.paths|
    ensures |t.paths[j]| < MAX_LEN
  {
    assert t.paths[j] < codes[t.own[j]];
  }

  lemma CodesShort(codes: Codes)
    requires PrefixFreeCodes(codes)
    ensures forall s :: 0 <= s < |codes| ==> |codes[s]| <= MAX_LEN
  {
  }

  lemma EntryWalk(lookUp: seq<int>, tree: seq<int>, t: Trie, codes: Codes, leaf: seq<nat>, v: nat)
    requires Inv(lookUp, tree, t, codes, |codes|, leaf) && PrefixFreeCodes(codes) && 0 < |codes| <= 512
    ensures WalkEnds(lookUp, tree, |codes|, v)
  {
    hide ToBits, Shape, TreeNeg, TreePos, TreeUp, TreeLeaf, FastNode, FastPos, FastSym, WalkTree, PrefixFreeCodes;
    CodesShort(codes);
    var i := v % FAST_SIZE;
    if lookUp[i] < 0 {
      var j :| 0 <= j < |t.paths| && lookUp[i] == Id(j) && t.paths[j] == ToBits(i, FAST_BITS);
      NodeShort(t, codes, j);
      NodeWalk(tree, t, codes, j, v);
    } else if lookUp[i] > 0 {
      ShortEntry(lookUp, codes, i);
    }
  }

  /** A positive entry is a symbol with its length. */
  lemma ShortEntry(lookUp: seq<int>, codes: Codes, i: nat)
    requires |lookUp| == FAST_SIZE && FastPos(lookUp, codes, |codes|) && FastSym(lookUp, codes, |codes|)
        && |codes| <= 512
    requires i < FAST_SIZE && lookUp[i] > 0
    ensures lookUp[i] % 512 < |codes| && 0 < lookUp[i] / 512 <= FAST_BITS
  {
    hide ToBits;
    var s :| 0 <= s < |codes| && codes[s] != [] && codes[s] <= ToBits(i, FAST_BITS);
    assert lookUp[i] == |codes[s]| * 512 + s;
  }

  lemma AllWalkable(lookUp: seq<int>, tree: seq<int>, t: Trie, codes: Codes, leaf: seq<nat>)
    requires Inv(lookUp, tree, t, codes, |codes|, leaf) && PrefixFreeCodes(codes) && 0 < |codes| <= 512
    ensures Walkable(lookUp, tree, |codes|)
  {
    hide Inv, PrefixFreeCodes, WalkEnds, Walk;
    InvShape(lookUp, tree, t, codes, leaf);
    forall v: nat ensures WalkEnds(lookUp, tree, |codes|, v) {
      EntryWalk(lookUp, tree, t, codes, leaf, v);
    }
  }

  lemma InvShape(lookUp: seq<int>, tree: seq<int>, t: Trie, codes: Codes, leaf: seq<nat>)
    requires Inv(lookUp, tree, t, codes, |codes|, leaf)
    ensures |lookUp| == FAST_SIZE
  {
  }

  function Grow(t: Trie, p: seq<bool>, s: nat, c: nat): Trie {
    Trie(t.paths + [p], t.own + [s], t.up + [c])
  }

  lemma GrowShape(t: Trie, codes: Codes, p: seq<bool>, k: nat, c: nat)
    requires Shape(t, codes) && k < |codes| && FAST_BITS <= |p| && p < codes[k]
    requires forall j :: 0 <= j < |t.paths| ==> t.paths[j] != p
    ensures Shape(Grow(t, p, k, c), codes)
  {
  }

  lemma AllocFastEntry(lookUp: seq<int>, t: Trie, p: seq<bool>, k: nat, i: nat)
    requires |lookUp| == FAST_SIZE && FastNeg(lookUp, t) && FastNode(lookUp, t)
    requires |p| == FAST_BITS && i == FastIndex(p) && lookUp[i] == 0
    ensures var t' := Grow(t, p, k, 0);
            var lookUp' := lookUp[i := Id(|t.paths|)];
            FastNeg(lookUp', t') && FastNode(lookUp', t')
    ensures forall j :: 0 <= j < |t.paths| ==> t.paths[j] != p
  {
    var t' := Grow(t, p, k, 0);
    var n := |t.paths|;
    var lookUp' := lookUp[i := Id(n)];
    forall e | 0 <= e < FAST_SIZE && lookUp'[e] < 0
      ensures exists j :: 0 <= j < n + 1 && lookUp'[e] == Id(j) && t'.paths[j] == ToBits(e, FAST_BITS)
    {
      if e == i {
        assert lookUp'[e] == Id(n) && t'.paths[n] == p;
      } else {
        var j :| 0 <= j < n && lookUp[e] == Id(j) && t.paths[j] == ToBits(e, FAST_BITS);
        assert t'.paths[j] == t.paths[j];
      }
    }
    forall j | 0 <= j < n + 1 && |t'.paths[j]| == FAST_BITS ensures lookUp'[FastIndex(t'.paths[j])] == Id(j) {
      if j < n {
        assert t'.paths[j] == t.paths[j];
        assert FastIndex(t.paths[j]) != i;
      }
    }
  }

  lemma AllocFastTree(tree: seq<int>, t: Trie, codes: Codes, p: seq<bool>, k: nat, leaf: seq<nat>)
    requires TreeZero(tree, t) && TreeNeg(tree, t) && TreeUp(tree, t) && k <= |codes| && TreePos(tree, t, codes, k)
    requires TreeLeaf(tree, t, codes, leaf) && 2 * |t.paths| + 2 <= |tree| && |p| == FAST_BITS
    ensures var t' := Grow(t, p, k, 0);
            TreeZero(tree, t') && TreeNeg(tree, t') && TreeUp(tree, t') && TreePos(tree, t', codes, k)
            && TreeLeaf(tree, t', codes, leaf)
  {
    var t' := Grow(t, p, k, 0);
    var n := |t.paths|;
    assert forall c :: 0 <= c < 2 * n ==> CellPath(t', c) == CellPath(t, c);
    assert forall j :: 0 <= j < n ==> t'.paths[j] == t.paths[j];
    forall c | 0 <= c < 2 * n + 2 && tree[c] < 0
      ensures exists j :: 0 <= j < n + 1 && tree[c] == Id(j) && t'.paths[j] == CellPath(t', c)
    {
      var j :| 0 <= j < n && tree[c] == Id(j) && t.paths[j] == CellPath(t, c);
      assert t'.paths[j] == t.paths[j];
    }
  }

  lemma AllocFastSyms(lookUp: seq<int>, codes: Codes, k: nat, i: nat, e: int)
    requires |lookUp| == FAST_SIZE && k <= |codes| && FastPos(lookUp, codes, k) && FastSym(lookUp, codes, k)
    requires i < FAST_SIZE && lookUp[i] == 0 && e < 0
    ensures FastPos(lookUp[i := e], codes, k) && FastSym(lookUp[i := e], codes, k)
  {
    forall s | 0 <= s < k && codes[s] != [] ensures !(codes[s] <= ToBits(i, FAST_BITS)) {
      if codes[s] <= ToBits(i, FAST_BITS) {
        assert false;
      }
    }
  }

  /** A new node for a code's ten-bit prefix. */
  lemma AllocFast(lookUp: seq<int>, tree: seq<int>, t: Trie, codes: Codes, k: nat, leaf: seq<nat>, i: nat)
    requires Inv(lookUp, tree, t, codes, k, leaf) && k < |codes| && |codes[k]| > FAST_BITS
    requires Roomy(codes, |tree|)
    requires i == FastIndex(codes[k][..FAST_BITS]) && lookUp[i] == 0
    ensures Inv(lookUp[i := Id(|t.paths|)], tree, Grow(t, codes[k][..FAST_BITS], k, 0), codes, k, leaf)
  {
    var p := codes[k][..FAST_BITS];
    AllocFastEntry(lookUp, t, p, k, i);
    GrowShape(t, codes, p, k, 0);
    AllocFastTree(tree, t, codes, p, k, leaf);
    AllocFastSyms(lookUp, codes, k, i, Id(|t.paths|));
  }

  /** A nonzero lookup entry for a long code's ten bits is a node. */
  lemma EntryIsNode(lookUp: seq<int>, tree: seq<int>, t: Trie, codes: Codes, k: nat, leaf: seq<nat>, i: nat)
      returns (j: nat)
    requires Inv(lookUp, tree, t, codes, k, leaf) && k < |codes| && |codes[k]| > FAST_BITS
    requires PrefixFreeCodes(codes)
    requires i == FastIndex(codes[k][..FAST_BITS]) && lookUp[i] != 0
    ensures j < |t.paths| && lookUp[i] == Id(j) && t.paths[j] == codes[k][..FAST_BITS]
  {
    assert ToBits(i, FAST_BITS) <= codes[k];
    if lookUp[i] > 0 {
      assert false;
    }
    j :| 0 <= j < |t.paths| && lookUp[i] == Id(j) && t.paths[j] == ToBits(i, FAST_BITS);
  }

  lemma CellInjective(t: Trie, u: nat, c: nat)
    requires u / 2 < |t.paths| && c / 2 < |t.paths| && CellPath(t, u) == CellPath(t, c)
    requires forall i, j :: 0 <= i < j < |t.paths| ==> t.paths[i] != t.paths[j]
    ensures u == c
  {
    var p := CellPath(t, u);
    assert t.paths[u / 2] == p[..|p| - 1];
    assert t.paths[c / 2] == p[..|p| - 1];
    assert (u % 2 == 1) == p[|p| - 1];
    assert (c % 2 == 1) == p[|p| - 1];
  }

  lemma NewPath(tree: seq<int>, t: Trie, c: nat)
    requires TreeZero(tree, t) && TreeUp(tree, t) && c < 2 * |t.paths| && tree[c] == 0
    requires |t.paths[c / 2]| >= FAST_BITS
    requires forall i, j :: 0 <= i < j < |t.paths| ==> t.paths[i] != t.paths[j]
    ensures forall j :: 0 <= j < |t.paths| ==> t.paths[j] != CellPath(t, c)
  {
    var p := CellPath(t, c);
    forall j | 0 <= j < |t.paths| ensures t.paths[j] != p {
      if t.paths[j] == p {
        CellInjective(t, t.up[j], c);
        assert false;
      }
    }
  }

  lemma GrowLeaf(tree: seq<int>, t: Trie, codes: Codes, k: nat, leaf: seq<nat>, c: nat)
    requires TreeZero(tree, t) && TreeLeaf(tree, t, codes, leaf) && |leaf| == k < |codes| && PrefixFreeCodes(codes)
    requires c < 2 * |t.paths| && CellPath(t, c) < codes[k] && tree[c] == 0
    requires 2 * |t.paths| + 2 <= |tree|
    ensures TreeLeaf(tree[c := Id(|t.paths|)], Grow(t, CellPath(t, c), k, c), codes, leaf)
  {
    var t' := Grow(t, CellPath(t, c), k, c);
    assert forall e :: 0 <= e < 2 * |t.paths| ==> CellPath(t', e) == CellPath(t, e);
    forall s | 0 <= s < k && |codes[s]| > FAST_BITS ensures leaf[s] != c {
      assert codes[s] == CellPath(t, leaf[s]);
      assert !(codes[s] <= codes[k]);
    }
  }

  /** A new node below an existing one. */
  lemma AllocTree(lookUp: seq<int>, tree: seq<int>, t: Trie, codes: Codes, k: nat, leaf: seq<nat>, c: nat)
    requires Inv(lookUp, tree, t, codes, k, leaf) && k < |codes| && PrefixFreeCodes(codes) && Roomy(codes, |tree|)
    requires c < 2 * |t.paths| && CellPath(t, c) < codes[k] && tree[c] == 0
    ensures Inv(lookUp, tree[c := Id(|t.paths|)], Grow(t, CellPath(t, c), k, c), codes, k, leaf)
  {
    var p := CellPath(t, c);
    var t' := Grow(t, p, k, c);
    NewPath(tree, t, c);
    GrowShape(t, codes, p, k, c);
    AllocTreeFast(lookUp, t, codes, t', p, k, c);
    AllocTreeCells(tree, t, codes, t', p, k, c);
    GrowLeaf(tree, t, codes, k, leaf, c);
  }

  lemma AllocTreeFast(lookUp: seq<int>, t: Trie, codes: Codes, t': Trie, p: seq<bool>, k: nat, c: nat)
    requires |lookUp| == FAST_SIZE && FastNeg(lookUp, t) && FastNode(lookUp, t) && |p| > FAST_BITS
    requires t' == Grow(t, p, k, c)
    ensures FastNeg(lookUp, t') && FastNode(lookUp, t')
  {
    forall e | 0 <= e < FAST_SIZE && lookUp[e] < 0
      ensures exists j :: 0 <= j < |t'.paths| && lookUp[e] == Id(j) && t'.paths[j] == ToBits(e, FAST_BITS)
    {
      var j :| 0 <= j < |t.paths| && lookUp[e] == Id(j) && t.paths[j] == ToBits(e, FAST_BITS);
      assert t'.paths[j] == t.paths[j];
    }
    forall j | 0 <= j < |t'.paths| && |t'.paths[j]| == FAST_BITS ensures lookUp[FastIndex(t'.paths[j])] == Id(j) {
      assert t'.paths[j] == t.paths[j];
    }
  }

  lemma AllocTreeCells(tree: seq<int>, t: Trie, codes: Codes, t': Trie, p: seq<bool>, k: nat, c: nat)
    requires TreeZero(tree, t) && TreeNeg(tree, t) && TreeUp(tree, t) && k <= |codes| && TreePos(tree, t, codes, k)
    requires c < 2 * |t.paths| && tree[c] == 0 && p == CellPath(t, c) && t' == Grow(t, p, k, c)
    requires 2 * |t'.paths| <= |tree|
    ensures var tree' := tree[c := Id(|t.paths|)];
            TreeZero(tree', t') && TreeNeg(tree', t') && TreeUp(tree', t') && TreePos(tree', t', codes, k)
  {
    hide TreeNeg, TreeUp, TreePos;
    AllocTreeNeg(tree, t, p, k, c);
    AllocTreeUp(tree, t, p, k, c);
    AllocTreePos(tree, t, codes, p, k, c);
  }

  lemma GrowCells(t: Trie, p: seq<bool>, k: nat, c: nat)
    ensures var t' := Grow(t, p, k, c);
            && (forall e :: 0 <= e < 2 * |t.paths| ==> CellPath(t', e) == CellPath(t, e))
            && (forall j :: 0 <= j < |t.paths| ==> t'.paths[j] == t.paths[j]) && t'.paths[|t.paths|] == p
  {
  }

  lemma AllocTreeNeg(tree: seq<int>, t: Trie, p: seq<bool>, k: nat, c: nat)
    requires TreeZero(tree, t) && TreeNeg(tree, t) && c < 2 * |t.paths| && tree[c] == 0 && p == CellPath(t, c)
    requires 2 * |t.paths| + 2 <= |tree|
    ensures TreeNeg(tree[c := Id(|t.paths|)], Grow(t, p, k, c))
  {
    hide CellPath;
    var n, t' := |t.paths|, Grow(t, p, k, c);
    var tree' := tree[c := Id(n)];
    GrowCells(t, p, k, c);
    forall e | 0 <= e < 2 * n + 2 && tree'[e] < 0
      ensures exists j :: 0 <= j < n + 1 && tree'[e] == Id(j) && t'.paths[j] == CellPath(t', e)
    {
      if e == c {
        assert tree'[e] == Id(n) && t'.paths[n] == CellPath(t', e);
      } else {
        var j :| 0 <= j < n && tree[e] == Id(j) && t.paths[j] == CellPath(t, e);
        assert t'.paths[j] == t.paths[j];
      }
    }
  }

  lemma AllocTreeUp(tree: seq<int>, t: Trie, p: seq<bool>, k: nat, c: nat)
    requires 2 * |t.paths| + 2 <= |tree| && TreeUp(tree, t) && c < 2 * |t.paths| && tree[c] == 0 && p == CellPath(t, c)
    ensures TreeUp(tree[c := Id(|t.paths|)], Grow(t, p, k, c))
  {
    hide CellPath;
    GrowCells(t, p, k, c);
  }

  lemma AllocTreePos(tree: seq<int>, t: Trie, codes: Codes, p: seq<bool>, k: nat, c: nat)
    requires TreeZero(tree, t) && k <= |codes| && TreePos(tree, t, codes, k) && c < 2 * |t.paths|
        && 2 * |t.paths| + 2 <= |tree|
    ensures TreePos(tree[c := Id(|t.paths|)], Grow(t, p, k, c), codes, k)
  {
    hide CellPath;
    GrowCells(t, p, k, c);
  }

  /** A nonzero cell on the way to a code is a node: in particular it is not another symbol's leaf. */
  lemma CellIsNode(lookUp: seq<int>, tree: seq<int>, t: Trie, codes: Codes, k: nat, leaf: seq<nat>, c: nat)
      returns (j: nat)
    requires Inv(lookUp, tree, t, codes, k, leaf) && k < |codes| && PrefixFreeCodes(codes)
    requires c < 2 * |t.paths| && CellPath(t, c) < codes[k] && tree[c] != 0
    ensures j < |t.paths| && tree[c] == Id(j) && t.paths[j] == CellPath(t, c)
  {
    if tree[c] > 0 {
      assert false;
    }
    j :| 0 <= j < |t.paths| && tree[c] == Id(j) && t.paths[j] == CellPath(t, c);
  }

  lemma LeafCellEmpty(lookUp: seq<int>, tree: seq<int>, t: Trie, codes: Codes, k: nat, leaf: seq<nat>, c: nat)
    requires Inv(lookUp, tree, t, codes, k, leaf) && k < |codes| && PrefixFreeCodes(codes)
    requires c < 2 * |t.paths| && CellPath(t, c) == codes[k]
    ensures tree[c] == 0 && forall s :: 0 <= s < k && |codes[s]| > FAST_BITS ==> leaf[s] != c
  {
    if tree[c] < 0 {
      assert false;
    }
    if tree[c] > 0 {
      assert false;
    }
    forall s | 0 <= s < k && |codes[s]| > FAST_BITS ensures leaf[s] != c {
      assert codes[s] == CellPath(t, leaf[s]);
      assert !(codes[s] <= codes[k]);
    }
  }

  lemma NextFast(lookUp: seq<int>, codes: Codes, k: nat)
    requires |lookUp| == FAST_SIZE && k < |codes| && FastPos(lookUp, codes, k) && FastSym(lookUp, codes, k)
    requires codes[k] == [] || |codes[k]| > FAST_BITS
    ensures FastPos(lookUp, codes, k + 1) && FastSym(lookUp, codes, k + 1)
  {
    forall i | 0 <= i < FAST_SIZE && lookUp[i] > 0
      ensures exists s :: 0 <= s < k + 1 && codes[s] != [] && codes[s] <= ToBits(i, FAST_BITS)
    {
      var s :| 0 <= s < k && codes[s] != [] && codes[s] <= ToBits(i, FAST_BITS);
    }
  }

  /** Writing the leaf; its cell was empty, even though an empty cell and symbol 0 look alike. */
  lemma SetLeaf(lookUp: seq<int>, tree: seq<int>, t: Trie, codes: Codes, k: nat, leaf: seq<nat>, c: nat)
    requires Inv(lookUp, tree, t, codes, k, leaf) && k < |codes| && PrefixFreeCodes(codes)
    requires c < 2 * |t.paths| && CellPath(t, c) == codes[k] && |codes[k]| > FAST_BITS
    ensures Inv(lookUp, tree[c := k], t, codes, k + 1, leaf + [c])
  {
    LeafCellEmpty(lookUp, tree, t, codes, k, leaf, c);
    NextFast(lookUp, codes, k);
    SetLeafCells(tree, t, codes, k, leaf, c);
  }

  lemma SetLeafCells(tree: seq<int>, t: Trie, codes: Codes, k: nat, leaf: seq<nat>, c: nat)
    requires TreeZero(tree, t) && TreeNeg(tree, t) && TreeUp(tree, t) && k == |leaf| < |codes|
        && TreePos(tree, t, codes, k)
    requires TreeLeaf(tree, t, codes, leaf)
    requires c < 2 * |t.paths| && CellPath(t, c) == codes[k] && tree[c] == 0
    requires forall s :: 0 <= s < k && |codes[s]| > FAST_BITS ==> leaf[s] != c
    ensures var tree' := tree[c := k];
            TreeZero(tree', t) && TreeNeg(tree', t) && TreeUp(tree', t) && TreePos(tree', t, codes, k + 1)
            && TreeLeaf(tree', t, codes, leaf + [c])
  {
    hide TreeNeg, TreeUp, TreePos, TreeLeaf, CellPath;
    SetLeafNeg(tree, t, k, c);
    SetLeafUp(tree, t, k, c);
    SetLeafPos(tree, t, codes, k, c);
    SetLeafLeaf(tree, t, codes, k, leaf, c);
  }

  lemma SetLeafNeg(tree: seq<int>, t: Trie, k: nat, c: nat)
    requires 2 * |t.paths| <= |tree| && TreeNeg(tree, t) && c < 2 * |t.paths|
    ensures TreeNeg(tree[c := k], t)
  {
    hide CellPath;
    var tree' := tree[c := k];
    forall e | 0 <= e < 2 * |t.paths| && tree'[e] < 0
      ensures exists j :: 0 <= j < |t.paths| && tree'[e] == Id(j) && t.paths[j] == CellPath(t, e)
    {
      assert tree[e] == tree'[e];
    }
  }

  lemma SetLeafUp(tree: seq<int>, t: Trie, k: nat, c: nat)
    requires 2 * |t.paths| <= |tree| && TreeUp(tree, t) && c < 2 * |t.paths| && tree[c] == 0
    ensures TreeUp(tree[c := k], t)
  {
    hide CellPath;
  }

  lemma SetLeafPos(tree: seq<int>, t: Trie, codes: Codes, k: nat, c: nat)
    requires 2 * |t.paths| <= |tree| && k < |codes| && TreePos(tree, t, codes, k) && c < 2 * |t.paths|
        && CellPath(t, c) == codes[k]
    ensures TreePos(tree[c := k], t, codes, k + 1)
  {
    hide CellPath;
  }

  lemma SetLeafLeaf(tree: seq<int>, t: Trie, codes: Codes, k: nat, leaf: seq<nat>, c: nat)
    requires 2 * |t.paths| <= |tree| && k == |leaf| < |codes| && TreeLeaf(tree, t, codes, leaf)
    requires c < 2 * |t.paths| && CellPath(t, c) == codes[k] && forall s :: 0 <= s < k && |codes[s]| > FAST_BITS ==>
        leaf[s] != c
    ensures TreeLeaf(tree[c := k], t, codes, leaf + [c])
  {
    hide CellPath;
  }

  /** An unused symbol changes nothing. */
  lemma SkipSym(lookUp: seq<int>, tree: seq<int>, t: Trie, codes: Codes, k: nat, leaf: seq<nat>)
    requires Inv(lookUp, tree, t, codes, k, leaf) && k < |codes| && codes[k] == []
    ensures Inv(lookUp, tree, t, codes, k + 1, leaf + [0])
  {
    NextFast(lookUp, codes, k);
    NextTree(tree, t, codes, k, leaf);
  }

  lemma NextTree(tree: seq<int>, t: Trie, codes: Codes, k: nat, leaf: seq<nat>)
    requires 2 * |t.paths| <= |tree| && k == |leaf| < |codes| && TreePos(tree, t, codes, k)
        && TreeLeaf(tree, t, codes, leaf)
    requires |codes[k]| <= FAST_BITS
    ensures TreePos(tree, t, codes, k + 1) && TreeLeaf(tree, t, codes, leaf + [0])
  {
  }

  /** Entry i belongs to a short code: its low bits are the reversed code. */
  lemma EntryOf(i: nat, code: seq<bool>, rev: nat)
    requires i < FAST_SIZE && 0 < |code| <= FAST_BITS && rev < Pow2(|code|) && ToBits(rev, |code|) == code
    ensures code <= ToBits(i, FAST_BITS) <==> Congruent(i, Pow2(|code|), rev)
  {
    var l := |code|;
    ToBitsShift(i, l, FAST_BITS - l);
    ToBitsLow(i, l);
    ShrLow(i, l);
    if code <= ToBits(i, FAST_BITS) {
      assert ToBits(i, l) == code;
      ToBitsInjective(Low(i, l), rev, l);
    }
  }

  /** Filling the entries of a short code meets no other code's entries. */
  lemma SetShort(lookUp: seq<int>, lookUp': seq<int>, tree: seq<int>, t: Trie, codes: Codes, k: nat, leaf: seq<nat>)
    requires Inv(lookUp, tree, t, codes, k, leaf) && k < |codes| && PrefixFreeCodes(codes)
    requires 0 < |codes[k]| <= FAST_BITS && |lookUp'| == FAST_SIZE
    requires forall i :: 0 <= i < FAST_SIZE ==>
               lookUp'[i] == if codes[k] <= ToBits(i, FAST_BITS) then |codes[k]| * 512 + k else lookUp[i]
    ensures Inv(lookUp', tree, t, codes, k + 1, leaf + [0])
  {
    SetShortSyms(lookUp, lookUp', codes, k);
    NextTree(tree, t, codes, k, leaf);
    forall j | 0 <= j < |t.paths| && |t.paths[j]| == FAST_BITS ensures lookUp'[FastIndex(t.paths[j])] == Id(j) {
      assert t.own[j] != k;
      assert !(codes[k] <= codes[t.own[j]]);
    }
    forall e | 0 <= e < FAST_SIZE && lookUp'[e] < 0
      ensures exists j :: 0 <= j < |t.paths| && lookUp'[e] == Id(j) && t.paths[j] == ToBits(e, FAST_BITS)
    {
      assert lookUp[e] == lookUp'[e];
    }
  }

  lemma PrefixTotal(a: seq<bool>, b: seq<bool>, w: seq<bool>)
    requires a <= w && b <= w
    ensures a <= b || b <= a
  {
    assert a == w[..|a|] && b == w[..|b|];
  }

  lemma SetShortSyms(lookUp: seq<int>, lookUp': seq<int>, codes: Codes, k: nat)
    requires |lookUp| == FAST_SIZE && k < |codes| && FastPos(lookUp, codes, k) && FastSym(lookUp, codes, k)
    requires PrefixFreeCodes(codes) && 0 < |codes[k]| && |lookUp'| == FAST_SIZE
    requires forall i :: 0 <= i < FAST_SIZE ==>
               lookUp'[i] == if codes[k] <= ToBits(i, FAST_BITS) then |codes[k]| * 512 + k else lookUp[i]
    ensures FastPos(lookUp', codes, k + 1) && FastSym(lookUp', codes, k + 1)
  {
    forall i | 0 <= i < FAST_SIZE && lookUp'[i] > 0
      ensures exists s :: 0 <= s < k + 1 && codes[s] != [] && codes[s] <= ToBits(i, FAST_BITS)
    {
      if !(codes[k] <= ToBits(i, FAST_BITS)) {
        var s :| 0 <= s < k && codes[s] != [] && codes[s] <= ToBits(i, FAST_BITS);
      }
    }
    forall i, s | 0 <= i < FAST_SIZE && 0 <= s < k + 1 && codes[s] != [] && codes[s] <= ToBits(i, FAST_BITS)
      ensures lookUp'[i] == |codes[s]| * 512 + s
    {
      if s < k && codes[k] <= ToBits(i, FAST_BITS) {
        PrefixTotal(codes[s], codes[k], ToBits(i, FAST_BITS));
        assert false;
      }
    }
  }

  // ----- the tree is large enough -----

  function CodesOf(lens: seq<nat>): (r: Codes)
    ensures |r| == |lens| && forall s :: 0 <= s < |lens| ==> r[s] == SymBits(lens, s) && |r[s]| == lens[s]
  {
    seq(|lens|, s requires 0 <= s < |lens| => SymBits(lens, s))
  }

  lemma CodesPrefixFree(lens: seq<nat>)
    requires Fits(lens) && Short(lens)
    ensures PrefixFreeCodes(CodesOf(lens))
  {
    var codes := CodesOf(lens);
    forall s, t | 0 <= s < |codes| && 0 <= t < |codes| && s != t && codes[s] != [] ensures !(codes[s] <= codes[t]) {
      if codes[s] <= codes[t] {
        PrefixFree(lens, s, t);
      }
    }
  }

  lemma {:induction false} Pigeonhole(xs: seq<int>, m: nat)
    requires forall i :: 0 <= i < |xs| ==> 0 <= xs[i] < m
    requires forall i, j :: 0 <= i < j < |xs| ==> xs[i] != xs[j]
    ensures |xs| <= m
  {
    if xs != [] {
      assert xs[0] < m;
      if k :| 0 <= k < |xs| && xs[k] == m - 1 {
        Pigeonhole(xs[..k] + xs[k + 1..], m - 1);
      } else {
        Pigeonhole(xs[1..], m - 1);
      }
    }
  }

  /** How many d-bit strings are proper prefixes of a complete code's longer codes. */
  function Gap(lens: seq<nat>, d: nat): int
    requires d > 0
  {
    Pow2(d) - Used(lens, d)
  }

  /** How many such strings are at least ten and fewer than d bits long. */
  function Below(lens: seq<nat>, d: nat): int {
    if d <= FAST_BITS then 0 else Below(lens, d - 1) + Gap(lens, d - 1)
  }

  function LongCount(lens: seq<nat>, d: nat): nat {
    if d <= FAST_BITS then 0 else LongCount(lens, d - 1) + Count(lens, d)
  }

  lemma {:induction false} BelowIs(lens: seq<nat>, d: nat)
    requires d >= FAST_BITS
    ensures Below(lens, d) == Gap(lens, d) - Gap(lens, FAST_BITS) + LongCount(lens, d)
  {
    if d > FAST_BITS {
      BelowIs(lens, d - 1);
    }
  }

  lemma {:induction false} LongCountBound(lens: seq<nat>)
    ensures LongCount(lens, MAX_LEN) <= |lens|
  {
    assert LongCount(lens, 11) == Count(lens, 11);
    assert LongCount(lens, 12) == LongCount(lens, 11) + Count(lens, 12);
    assert LongCount(lens, 13) == LongCount(lens, 12) + Count(lens, 13);
    assert LongCount(lens, 14) == LongCount(lens, 13) + Count(lens, 14);
    assert LongCount(lens, 15) == LongCount(lens, 14) + Count(lens, 15);
    FiveCounts(lens);
  }

  lemma {:induction false} FiveCounts(lens: seq<nat>)
    ensures Count(lens, 11) + Count(lens, 12) + Count(lens, 13) + Count(lens, 14) + Count(lens, 15) <= |lens|
  {
    if lens != [] {
      FiveCounts(lens[..|lens| - 1]);
    }
  }

  lemma {:induction false} BelowMono(lens: seq<nat>, a: nat, b: nat)
    requires Fits(lens) && a <= b <= MAX_LEN
    ensures Below(lens, a) <= Below(lens, b)
  {
    if a < b {
      BelowMono(lens, a, b - 1);
      if b > FAST_BITS {
        UsedBound(lens, b - 1);
      }
    }
  }

  /** The number of a node: distinct nodes have distinct numbers below |lens|. */
  function NodeNumber(lens: seq<nat>, p: seq<bool>): int
    requires |p| > 0
  {
    Below(lens, |p|) + MsbVal(p) - Used(lens, |p|)
  }

  lemma CodeAbove(lens: seq<nat>, s: nat, d: nat)
    requires Fits(lens) && Short(lens) && s < |lens| && 0 < d < lens[s]
    ensures Used(lens, d) <= Shr(Code(lens, s), lens[s] - d) < Pow2(d)
  {
    CodeInRange(lens, s);
    CodeFits(lens, s);
    ShrBound(Code(lens, s), lens[s], d);
    NextCodeAbove(lens, d, lens[s]);
    ShrMono(NextCode(lens, lens[s]), Code(lens, s), lens[s] - d);
  }

  /** A proper prefix of a code lies above what codes of its own length use. */
  lemma PrefixValue(lens: seq<nat>, d: nat, s: nat)
    requires Fits(lens) && Short(lens) && s < |lens| && 0 < d < lens[s]
    ensures Used(lens, d) <= MsbVal(SymBits(lens, s)[..d]) < Pow2(d)
  {
    hide Code, CodeBits, MsbVal, Shr, Used, Pow2, Fits;
    CodeAbove(lens, s, d);
    CodePrefix(Code(lens, s), lens[s], d);
    MsbCode(Shr(Code(lens, s), lens[s] - d), d);
  }

  lemma BelowRange(lens: seq<nat>, d: nat)
    requires Complete(lens) && FAST_BITS <= d < MAX_LEN
    ensures 0 <= Below(lens, d) && Below(lens, d + 1) <= |lens|
  {
    BelowMono(lens, 0, d);
    BelowMono(lens, d + 1, MAX_LEN);
    BelowIs(lens, MAX_LEN);
    LongCountBound(lens);
    UsedBound(lens, FAST_BITS);
  }

  lemma NodeNumberRange(lens: seq<nat>, p: seq<bool>, s: nat)
    requires Complete(lens) && Short(lens) && s < |lens| && FAST_BITS <= |p| && p < SymBits(lens, s)
    ensures 0 <= Below(lens, |p|) <= NodeNumber(lens, p) < Below(lens, |p| + 1) <= |lens|
  {
    PrefixValue(lens, |p|, s);
    assert p == SymBits(lens, s)[..|p|];
    BelowRange(lens, |p|);
  }

  lemma CompletePaths(lens: seq<nat>, t: Trie)
    requires Complete(lens) && Short(lens) && Shape(t, CodesOf(lens))
    ensures |t.paths| <= |lens|
  {
    var n := |t.paths|;
    forall j | 0 <= j < n
      ensures 0 <= Below(lens, |t.paths[j]|) <= NodeNumber(lens, t.paths[j]) < Below(lens, |t.paths[j]| + 1) <= |lens|
    {
      NodeNumberRange(lens, t.paths[j], t.own[j]);
    }
    var ns := seq(n, j requires 0 <= j < n => NodeNumber(lens, t.paths[j]));
    forall i, j | 0 <= i < j < n ensures ns[i] != ns[j] {
      SameNumber(lens, t.paths[i], t.paths[j]);
    }
    Pigeonhole(ns, |lens|);
  }

  lemma CompleteRoomy(lens: seq<nat>, size: nat)
    requires Complete(lens) && Short(lens) && size >= 2 * |lens|
    ensures Roomy(CodesOf(lens), size)
  {
    forall t: Trie | Shape(t, CodesOf(lens)) ensures 2 * |t.paths| <= size {
      CompletePaths(lens, t);
    }
  }

  lemma MsbInjective(p: seq<bool>, q: seq<bool>)
    requires |p| == |q| && p != q
    ensures MsbVal(p) != MsbVal(q)
  {
    CodeMsb(p);
    CodeMsb(q);
  }

  lemma NumbersApart(lens: seq<nat>, a: nat, m: int, b: nat, n: int)
    requires Fits(lens) && a < b < MAX_LEN && m < Below(lens, a + 1) && Below(lens, b) <= n
    ensures m < n
  {
    BelowMono(lens, a + 1, b);
  }

  lemma SameNumber(lens: seq<nat>, p: seq<bool>, q: seq<bool>)
    requires Fits(lens) && p != q && FAST_BITS <= |p| < MAX_LEN && FAST_BITS <= |q| < MAX_LEN
    requires Below(lens, |p|) <= NodeNumber(lens, p) < Below(lens, |p| + 1)
    requires Below(lens, |q|) <= NodeNumber(lens, q) < Below(lens, |q| + 1)
    ensures NodeNumber(lens, p) != NodeNumber(lens, q)
  {
    if |p| < |q| {
      NumbersApart(lens, |p|, NodeNumber(lens, p), |q|, NodeNumber(lens, q));
    } else if |q| < |p| {
      NumbersApart(lens, |q|, NodeNumber(lens, q), |p|, NodeNumber(lens, p));
    } else {
      MsbInjective(p, q);
    }
  }

  lemma {:induction false} OnlyUsed(lens: seq<nat>, s: nat, t: nat)
    requires UsedSyms(lens) <= 1 && s < t < |lens| && lens[s] > 0
    ensures lens[t] == 0
  {
    var n := |lens| - 1;
    if t < n {
      OnlyUsed(lens[..n], s, t);
    } else {
      SomeUsed(lens[..n], s);
    }
  }

  lemma {:induction false} SomeUsed(lens: seq<nat>, s: nat)
    requires s < |lens| && lens[s] > 0
    ensures UsedSyms(lens) >= 1
  {
    if s < |lens| - 1 {
      SomeUsed(lens[..|lens| - 1], s);
    }
  }

  lemma SparseRoomy(lens: seq<nat>, size: nat)
    requires UsedSyms(lens) <= 1 && Short(lens) && size >= 10
    ensures Roomy(CodesOf(lens), size)
  {
    var codes := CodesOf(lens);
    forall t: Trie | Shape(t, codes) ensures 2 * |t.paths| <= size {
      var ns := seq(|t.paths|, j requires 0 <= j < |t.paths| => |t.paths[j]| - FAST_BITS);
      forall i, j | 0 <= i < j < |ns| ensures ns[i] != ns[j] {
        if t.own[i] < t.own[j] {
          OnlyUsed(lens, t.own[i], t.own[j]);
        } else if t.own[j] < t.own[i] {
          OnlyUsed(lens, t.own[j], t.own[i]);
        }
        assert t.paths[i] != t.paths[j];
      }
      Pigeonhole(ns, 5);
    }
  }

  // ----- the construction itself -----

  /** The tables decode the canonical code of lens. */
  ghost predicate TableOk(lookUp: seq<int>, tree: seq<int>, lens: seq<nat>) {
    Decodes(lookUp, tree, CodesOf(lens)) && (lens != [] ==> Walkable(lookUp, tree, |lens|))
  }

  function CountUpTo(lens: seq<nat>, l: nat): nat {
    if l == 0 then 0 else CountUpTo(lens, l - 1) + Count(lens, l)
  }

  lemma {:induction false} CountUpToPush(lens: seq<nat>, x: nat, l: nat)
    ensures CountUpTo(lens + [x], l) == CountUpTo(lens, l) + (if 0 < x <= l then 1 else 0)
  {
    if l > 0 {
      CountUpToPush(lens, x, l - 1);
      assert (lens + [x])[..|lens|] == lens;
    }
  }

  lemma {:induction false} UsedSymsIs(lens: seq<nat>)
    requires Short(lens)
    ensures CountUpTo(lens, MAX_LEN) == UsedSyms(lens)
  {
    if lens == [] {
      NoCount(MAX_LEN);
    } else {
      var n := |lens| - 1;
      UsedSymsIs(lens[..n]);
      CountUpToPush(lens[..n], lens[n], MAX_LEN);
      assert lens == lens[..n] + [lens[n]];
    }
  }

  lemma {:induction false} NoCount(l: nat)
    ensures CountUpTo([], l) == 0
  {
    if l > 0 {
      NoCount(l - 1);
    }
  }

  /** The histogram of the code lengths. */
  method CountLengths(lens: seq<nat>) returns (totalSyms: array<nat>)
    requires Short(lens)
    ensures fresh(totalSyms) && totalSyms.Length == 16
    ensures forall l :: 0 <= l < 16 ==> totalSyms[l] == Count(lens, l)
  {
    totalSyms := new nat[16](_ => 0);
    for i := 0 to |lens|
      invariant forall l :: 0 <= l < 16 ==> totalSyms[l] == Count(lens[..i], l)
    {
      CountStep(lens, i);
      totalSyms[lens[i]] := totalSyms[lens[i]] + 1;
    }
    assert lens[..|lens|] == lens;
  }

  /** The first code of every length, and whether the code is acceptable. */
  method FirstCodes(lens: seq<nat>) returns (nextCode: array<nat>, ok: bool)
    requires Short(lens)
    ensures fresh(nextCode) && nextCode.Length == 17
    ensures forall l :: 0 <= l < 17 ==> nextCode[l] == NextCode(lens, l)
    ensures ok <==> Usable(lens)
  {
    hide Count, UsedSyms, Complete, NextCode, CountUpTo;
    CodesStart(lens);
    var totalSyms := CountLengths(lens);
    nextCode := new nat[17](_ => 0);
    var usedSyms, total := 0, 0;
    for i := 1 to 16
      invariant forall l :: 0 <= l <= i ==> nextCode[l] == NextCode(lens, l)
      invariant forall l :: 0 <= l < 16 ==> totalSyms[l] == Count(lens, l)
      invariant total == NextCode(lens, i) && usedSyms == CountUpTo(lens, i - 1)
    {
      CodesNext(lens, i);
      usedSyms := usedSyms + totalSyms[i];
      total := (total + totalSyms[i]) * 2;
      nextCode[i + 1] := total;
    }
    UsedSymsIs(lens);
    AcceptIs(lens, total);
    ok := !(65536 != total && usedSyms > 1);
  }

  lemma CodesStart(lens: seq<nat>)
    ensures NextCode(lens, 0) == 0 && NextCode(lens, 1) == 0 && CountUpTo(lens, 0) == 0
  {
  }

  lemma CodesNext(lens: seq<nat>, i: nat)
    requires i > 0
    ensures NextCode(lens, i + 1) == (NextCode(lens, i) + Count(lens, i)) * 2
    ensures CountUpTo(lens, i) == CountUpTo(lens, i - 1) + Count(lens, i)
  {
  }

  lemma AcceptIs(lens: seq<nat>, total: nat)
    requires total == NextCode(lens, MAX_LEN + 1)
    ensures total == 65536 <==> Complete(lens)
  {
    assert total == 2 * Used(lens, MAX_LEN);
    assert Pow2(15) == 32768;
  }

  /** Fill every entry whose low bits are the reversed code. */
  method FillShort(lookUp: array<int>, ghost code: seq<bool>, codeSize: nat, revCode0: nat, k: int)
    requires lookUp.Length == FAST_SIZE && 0 < codeSize <= FAST_BITS
    requires |code| == codeSize && revCode0 < Pow2(codeSize) && ToBits(revCode0, codeSize) == code
    modifies lookUp
    ensures forall i :: 0 <= i < FAST_SIZE ==>
              lookUp[i] == if code <= ToBits(i, FAST_BITS) then k else old(lookUp[i])
  {
    hide ToBits, Pow2, Congruent;
    var step := Pow2(codeSize);
    var revCode := revCode0;
    FirstMultiple(revCode0, step);
    while revCode < FAST_SIZE
      invariant Congruent(revCode, step, revCode0)
      invariant forall i :: 0 <= i < FAST_SIZE ==>
                  lookUp[i] == if i < revCode && Congruent(i, step, revCode0) then k else old(lookUp[i])
    {
      lookUp[revCode] := k;
      NextMultiple(revCode, step, revCode0);
      revCode := revCode + step;
    }
    forall i | 0 <= i < FAST_SIZE
      ensures lookUp[i] == if code <= ToBits(i, FAST_BITS) then k else old(lookUp[i])
    {
      EntryOf(i, code, revCode0);
    }
  }

  predicate Congruent(i: nat, p: nat, r: nat)
    requires p > 0
  {
    i % p == r
  }

  lemma FirstMultiple(r: nat, p: nat)
    requires r < p
    ensures Congruent(r, p, r) && forall i: nat :: i < r ==> !Congruent(i, p, r)
  {
  }

  lemma NextMultiple(v: nat, p: nat, r: nat)
    requires p > 0 && Congruent(v, p, r)
    ensures Congruent(v + p, p, r)
    ensures forall i :: v < i < v + p ==> !Congruent(i, p, r)
  {
    var q := v / p;
    DivUnique(v + p, p, q + 1, r);
    forall i | v < i < v + p ensures !Congruent(i, p, r) {
      var d := i - v;
      if r + d < p {
        DivUnique(i, p, q, r + d);
      } else {
        DivUnique(i, p, q + 1, r + d - p);
      }
    }
  }

  lemma InvRange(lookUp: seq<int>, tree: seq<int>, t: Trie, codes: Codes, k: nat, leaf: seq<nat>)
    requires Inv(lookUp, tree, t, codes, k, leaf)
    ensures |lookUp| == FAST_SIZE && k == |leaf| <= |codes| && 2 * |t.paths| <= |tree|
  {
    hide Shape, FastNeg, FastNode, FastPos, FastSym, TreeNeg, TreePos, TreeUp, TreeLeaf;
  }

  /** Insert a code longer than ten bits: a lookup entry, a chain of nodes, a leaf. */
  method InsertLong(lookUp: array<int>, tree: array<int>, ghost codes: Codes, symIndex: nat, codeSize: nat,
                    revCode0: nat, treeNext0: int, ghost t0: Trie, ghost leaf: seq<nat>)
    returns (treeNext: int, ghost t: Trie, ghost cell: nat)
    requires lookUp != tree && Inv(lookUp[..], tree[..], t0, codes, symIndex, leaf) && treeNext0 == Id(|t0.paths|)
    requires symIndex < |codes| && |codes[symIndex]| == codeSize > FAST_BITS
    requires revCode0 < Pow2(codeSize) && ToBits(revCode0, codeSize) == codes[symIndex]
    requires PrefixFreeCodes(codes) && Roomy(codes, tree.Length)
    modifies lookUp, tree
    ensures Inv(lookUp[..], tree[..], t, codes, symIndex + 1, leaf + [cell]) && treeNext == Id(|t.paths|)
  {
    hide Inv, Roomy, PrefixFreeCodes, Shr, ToBits, FastIndex, Pow2;
    treeNext, t := treeNext0, t0;
    InvRange(lookUp[..], tree[..], t, codes, symIndex, leaf);
    ghost var code := codes[symIndex];
    ghost var cur: nat;
    var i := revCode0 % FAST_SIZE;
    CodeIndex(revCode0, code);
    var treeCur := lookUp[i];
    if 0 == treeCur {
      AllocFast(lookUp[..], tree[..], t, codes, symIndex, leaf, i);
      cur, t := |t.paths|, Grow(t, code[..FAST_BITS], symIndex, 0);
      lookUp[i] := treeNext;
      treeCur := treeNext;
      treeNext := treeNext - 2;
    } else {
      cur := EntryIsNode(lookUp[..], tree[..], t, codes, symIndex, leaf, i);
    }
    var revCode := Shr(revCode0, FAST_BITS - 1);
    var j := codeSize;
    while j > FAST_BITS + 1
      invariant FAST_BITS + 1 <= j <= codeSize
      invariant Inv(lookUp[..], tree[..], t, codes, symIndex, leaf) && treeNext == Id(|t.paths|)
      invariant cur < |t.paths| && treeCur == Id(cur) && t.paths[cur] == code[..FAST_BITS + codeSize - j]
      invariant revCode == Shr(revCode0, FAST_BITS - 1 + codeSize - j)
    {
      ghost var d := FAST_BITS + codeSize - j;
      InvRange(lookUp[..], tree[..], t, codes, symIndex, leaf);
      ShrNext(revCode0, d - 1);
      revCode := revCode / 2;
      treeCur := treeCur - revCode % 2;
      ghost var c := 2 * cur + revCode % 2;
      StepPath(t, code, revCode0, cur, d);
      assert treeCur == -(c + 1);
      if tree[-treeCur - 1] == 0 {
        AllocTree(lookUp[..], tree[..], t, codes, symIndex, leaf, c);
        cur, t := |t.paths|, Grow(t, CellPath(t, c), symIndex, c);
        tree[-treeCur - 1] := treeNext;
        treeCur := treeNext;
        treeNext := treeNext - 2;
      } else {
        cur := CellIsNode(lookUp[..], tree[..], t, codes, symIndex, leaf, c);
        treeCur := tree[-treeCur - 1];
      }
      j := j - 1;
    }
    InvRange(lookUp[..], tree[..], t, codes, symIndex, leaf);
    ShrNext(revCode0, codeSize - 2);
    revCode := revCode / 2;
    treeCur := treeCur - revCode % 2;
    cell := 2 * cur + revCode % 2;
    StepPath(t, code, revCode0, cur, codeSize - 1);
    SetLeaf(lookUp[..], tree[..], t, codes, symIndex, leaf, cell);
    tree[-treeCur - 1] := symIndex;
  }

  lemma CodeIndex(rev: nat, code: seq<bool>)
    requires |code| > FAST_BITS && ToBits(rev, |code|) == code
    ensures rev % FAST_SIZE == FastIndex(code[..FAST_BITS])
  {
    assert Pow2(10) == 1024;
    ToBitsShift(rev, FAST_BITS, |code| - FAST_BITS);
    ShrLow(rev, FAST_BITS);
    ToBitsLow(rev, FAST_BITS);
    ToBitsInjective(rev % FAST_SIZE, FastIndex(code[..FAST_BITS]), FAST_BITS);
  }

  /** Bit d of the reversed code picks the child on the code's path. */
  lemma StepPath(t: Trie, code: seq<bool>, rev: nat, cur: nat, d: nat)
    requires cur < |t.paths| && d < |code| && ToBits(rev, |code|) == code && t.paths[cur] == code[..d]
    ensures CellPath(t, 2 * cur + Shr(rev, d) % 2) == code[..d + 1]
  {
    BitAt(rev, |code|, d);
    var c := 2 * cur + Shr(rev, d) % 2;
    assert c / 2 == cur && c % 2 == Shr(rev, d) % 2;
    assert code[..d + 1] == code[..d] + [code[d]];
  }

  method InsertSym(lookUp: array<int>, tree: array<int>, ghost codes: Codes, symIndex: nat, codeSize: nat,
                   revCode: nat, treeNext0: int, ghost t0: Trie, ghost leaf: seq<nat>)
    returns (treeNext: int, ghost t: Trie, ghost cell: nat)
    requires lookUp != tree && Inv(lookUp[..], tree[..], t0, codes, symIndex, leaf) && treeNext0 == Id(|t0.paths|)
    requires symIndex < |codes| && |codes[symIndex]| == codeSize > 0
    requires revCode < Pow2(codeSize) && ToBits(revCode, codeSize) == codes[symIndex]
    requires PrefixFreeCodes(codes) && Roomy(codes, tree.Length)
    modifies lookUp, tree
    ensures Inv(lookUp[..], tree[..], t, codes, symIndex + 1, leaf + [cell]) && treeNext == Id(|t.paths|)
  {
    hide Shape, FastNeg, FastNode, FastPos, FastSym, TreeZero, TreeNeg, TreePos, TreeUp, TreeLeaf, Roomy,
        PrefixFreeCodes, ToBits;
    if codeSize <= FAST_BITS {
      ghost var before := lookUp[..];
      FillShort(lookUp, codes[symIndex], codeSize, revCode, codeSize * 512 + symIndex);
      SetShort(before, lookUp[..], tree[..], t0, codes, symIndex, leaf);
      treeNext, t, cell := treeNext0, t0, 0;
    } else {
      treeNext, t, cell := InsertLong(lookUp, tree, codes, symIndex, codeSize, revCode, treeNext0, t0, leaf);
    }
  }

  lemma EmptyInv(lookUp: seq<int>, tree: seq<int>, codes: Codes)
    requires |lookUp| == FAST_SIZE
    requires forall i :: 0 <= i < |lookUp| ==> lookUp[i] == 0
    requires forall i :: 0 <= i < |tree| ==> tree[i] == 0
    ensures Inv(lookUp, tree, Trie([], [], []), codes, 0, [])
  {
  }

  /** Build the lookup and the overflow tree of a code. */
  method BuildTables(lookUp: array<int>, tree: array<int>, lens: seq<nat>) returns (ok: bool)
    requires lookUp != tree && lookUp.Length == FAST_SIZE && Short(lens) && |lens| <= 288
    requires tree.Length >= 2 * |lens| && tree.Length >= 10
    modifies lookUp, tree
    ensures ok <==> Usable(lens)
    ensures ok ==> TableOk(lookUp[..], tree[..], lens)
  {
    hide Inv, Roomy, PrefixFreeCodes, ToBits, CodeBits, Usable, Decodes, Walkable, Fits, Count, NextCode, FromBits,
        Pow2;
    forall i | 0 <= i < FAST_SIZE { lookUp[i] := 0; }
    forall i | 0 <= i < tree.Length { tree[i] := 0; }
    var nextCode;
    nextCode, ok := FirstCodes(lens);
    EmptyInv(lookUp[..], tree[..], CodesOf(lens));
    if !ok { return; }
    ghost var codes := CodesOf(lens);
    UsableFits(lens);
    CodesPrefixFree(lens);
    UsableRoomy(lens, tree.Length);
    var treeNext := -1;
    ghost var t, leaf: seq<nat> := Trie([], [], []), [];
    for symIndex := 0 to |lens|
      invariant Inv(lookUp[..], tree[..], t, codes, symIndex, leaf) && treeNext == Id(|t.paths|)
      invariant forall l :: 1 <= l < 16 ==> nextCode[l] == NextCode(lens, l) + Count(lens[..symIndex], l)
    {
      var codeSize := lens[symIndex];
      CountStep(lens, symIndex);
      if codeSize == 0 {
        SkipSym(lookUp[..], tree[..], t, codes, symIndex, leaf);
        leaf := leaf + [0];
      } else {
        var curCode := nextCode[codeSize];
        nextCode[codeSize] := nextCode[codeSize] + 1;
        var revCode := ReverseCode(curCode, codeSize);
        assert CodeBits(curCode, codeSize) == codes[symIndex];
        ghost var cell;
        treeNext, t, cell := InsertSym(lookUp, tree, codes, symIndex, codeSize, revCode, treeNext, t, leaf);
        leaf := leaf + [cell];
      }
    }
    InvDecodes(lookUp[..], tree[..], t, codes, leaf);
    if lens != [] {
      AllWalkable(lookUp[..], tree[..], t, codes, leaf);
    }
  }

  lemma InvDecodes(lookUp: seq<int>, tree: seq<int>, t: Trie, codes: Codes, leaf: seq<nat>)
    requires Inv(lookUp, tree, t, codes, |codes|, leaf) && |codes| <= 512
    ensures Decodes(lookUp, tree, codes)
  {
    TablesDecode(lookUp, tree, t, codes, leaf);
  }

  lemma UsableRoomy(lens: seq<nat>, size: nat)
    requires Usable(lens) && Short(lens) && size >= 2 * |lens| && size >= 10
    ensures Roomy(CodesOf(lens), size)
  {
    if Complete(lens) {
      CompleteRoomy(lens, size);
    } else {
      SparseRoomy(lens, size);
    }
  }
}
