/** Run-length packing of code lengths with the symbols 16, 17 and 18 (section 3.2.7 of RFC 1951). */
module RunLengths {
  import opened Bits
  import opened Format

  const MAX_SIZES: nat := 320

  /** The packed bytes: a symbol, and after 16, 17 and 18 its repeat count. */
  function Flat(p: seq<Pack>): seq<nat> {
    if p == [] then []
    else Flat(p[..|p| - 1]) + (if p[|p| - 1].sym < 16 then [p[|p| - 1].sym] else [p[|p| - 1].sym, p[|p| - 1].extra])
  }

  function SymCount(p: seq<Pack>, s: nat): (r: nat)
    ensures r <= |p|
  {
    if p == [] then 0 else SymCount(p[..|p| - 1], s) + (if p[|p| - 1].sym == s then 1 else 0)
  }

  lemma Snoc(p: seq<Pack>, x: Pack)
    ensures (p + [x])[..|p + [x]| - 1] == p && (p + [x])[|p + [x]| - 1] == x
  {
  }

  /** One more packed symbol. */
  lemma Push(p: seq<Pack>, x: Pack)
    requires PacksOk(p) && PackOk(x, UnpackAll(p))
    ensures PacksOk(p + [x]) && UnpackAll(p + [x]) == Unpack(x, UnpackAll(p))
    ensures Flat(p + [x]) == Flat(p) + (if x.sym < 16 then [x.sym] else [x.sym, x.extra])
    ensures forall s {:trigger SymCount(p + [x], s)} :: SymCount(p + [x], s) == SymCount(p, s) + (if x.sym == s then 1
        else 0)
  {
    Snoc(p, x);
  }

  /** What has been packed so far. */
  ghost predicate Packed(p: seq<Pack>, packed: array<nat>, n: nat, counts: array<nat>)
    reads packed, counts
  {
    && PacksOk(p) && n <= packed.Length && packed[..n] == Flat(p)
    && counts.Length == 19 && forall s :: 0 <= s < 19 ==> counts[s] == SymCount(p, s)
  }

  lemma PackedOk(p: seq<Pack>, packed: array<nat>, n: nat, counts: array<nat>)
    requires Packed(p, packed, n, counts)
    ensures PacksOk(p)
  {
  }

  lemma Extras(sym: nat, e: nat)
    requires 16 <= sym < 19 && e < (if sym == 16 then 4 else if sym == 17 then 8 else 128)
    ensures e < Pow2(PackExtra(sym))
  {
    assert Pow2(2) == 4 && Pow2(3) == 8 && Pow2(7) == 128;
  }

  /** A length sent as itself, count times. */
  method PackPlain(ghost p0: seq<Pack>, size: nat, count: nat, packed: array<nat>, n0: nat, counts: array<nat>)
      returns (n: nat, ghost p: seq<Pack>)
    requires packed != counts && Packed(p0, packed, n0, counts) && size < 16 && n0 + count <= packed.Length
    modifies packed, counts
    ensures Packed(p, packed, n, counts) && n == n0 + count && UnpackAll(p) == UnpackAll(p0) + Repeat(size, count)
  {
    p, n := p0, n0;
    var left := count;
    assert UnpackAll(p) == UnpackAll(p0) + Repeat(size, 0);
    while left > 0
      invariant 0 <= left <= count && n == n0 + (count - left) && Packed(p, packed, n, counts)
      invariant UnpackAll(p) == UnpackAll(p0) + Repeat(size, count - left)
    {
      Push(p, Pack(size, 0));
      assert Repeat(size, count - left) + [size] == Repeat(size, count - left + 1);
      counts[size] := counts[size] + 1;
      packed[n] := size;
      assert packed[..n + 1] == packed[..n] + [size];
      p := p + [Pack(size, 0)];
      n, left := n + 1, left - 1;
    }
  }

  /** A run sent with a repeat symbol. */
  method PackRun(ghost p0: seq<Pack>, sym: nat, extra: nat, packed: array<nat>, n0: nat, counts: array<nat>)
      returns (n: nat, ghost p: seq<Pack>)
    requires packed != counts && Packed(p0, packed, n0, counts) && 16 <= sym < 19 && n0 + 2 <= packed.Length
    requires PackOk(Pack(sym, extra), UnpackAll(p0))
    modifies packed, counts
    ensures Packed(p, packed, n, counts) && n == n0 + 2 && UnpackAll(p) == Unpack(Pack(sym, extra), UnpackAll(p0))
  {
    Push(p0, Pack(sym, extra));
    p := p0 + [Pack(sym, extra)];
    counts[sym] := counts[sym] + 1;
    packed[n0], packed[n0 + 1] := sym, extra;
    assert packed[..n0 + 2] == packed[..n0] + [sym, extra];
    n := n0 + 2;
  }

  /** TDEFL_RLE_PREV_CODE_SIZE. */
  method FlushRepeat(ghost p0: seq<Pack>, prev: nat, count: nat, packed: array<nat>, n0: nat, counts: array<nat>)
      returns (n: nat, ghost p: seq<Pack>)
    requires packed != counts && Packed(p0, packed, n0, counts) && n0 + count <= packed.Length
    requires count <= 6
    requires (count > 0 ==> prev < 16 && UnpackAll(p0) != [] && UnpackAll(p0)[|UnpackAll(p0)| - 1] == prev)
    modifies packed, counts
    ensures Packed(p, packed, n, counts) && n0 <= n <= n0 + count && UnpackAll(p) == UnpackAll(p0) + Repeat(prev, count)
  {
    n, p := n0, p0;
    assert UnpackAll(p0) + Repeat(prev, 0) == UnpackAll(p0);
    if count > 0 {
      if count < 3 {
        n, p := PackPlain(p0, prev, count, packed, n0, counts);
      } else {
        Extras(16, count - 3);
        n, p := PackRun(p0, 16, count - 3, packed, n0, counts);
      }
    }
  }

  /** TDEFL_RLE_ZERO_CODE_SIZE. */
  method FlushZeros(ghost p0: seq<Pack>, count: nat, packed: array<nat>, n0: nat, counts: array<nat>)
      returns (n: nat, ghost p: seq<Pack>)
    requires packed != counts && Packed(p0, packed, n0, counts) && n0 + count <= packed.Length && count <= 138
    modifies packed, counts
    ensures Packed(p, packed, n, counts) && n0 <= n <= n0 + count && UnpackAll(p) == UnpackAll(p0) + Repeat(0, count)
  {
    n, p := n0, p0;
    assert UnpackAll(p0) + Repeat(0, 0) == UnpackAll(p0);
    if count > 0 {
      if count < 3 {
        n, p := PackPlain(p0, 0, count, packed, n0, counts);
      } else if count <= 10 {
        Extras(17, count - 3);
        n, p := PackRun(p0, 17, count - 3, packed, n0, counts);
      } else {
        Extras(18, count - 11);
        n, p := PackRun(p0, 18, count - 11, packed, n0, counts);
      }
    }
  }

  /** The lengths still to be packed: a run of the previous length, or a run of zeros. */
  ghost predicate Pending(sizes: seq<nat>, i: nat, got: seq<nat>, prev: nat, repeats: nat, zeros: nat)
    requires i <= |sizes|
  {
    && repeats < 6 && zeros < 138 && (repeats == 0 || zeros == 0)
    && got + Repeat(prev, repeats) + Repeat(0, zeros) == sizes[..i]
    && (if i == 0 then prev == 255 && repeats == 0 && zeros == 0 else prev == sizes[i - 1] < 16)
    && (zeros > 0 ==> prev == 0)
    && (i > 0 && prev != 0 ==> got != [] && got[|got| - 1] == prev)
    && (prev == 0 ==> repeats == 0)
  }

  /** A pending run can be sent as one: it repeats the last length sent. */
  lemma RunPending(sizes: seq<nat>, i: nat, got: seq<nat>, prev: nat, repeats: nat, zeros: nat)
    requires i < |sizes| && sizes[i] < 16 && Pending(sizes, i, got, prev, repeats, zeros)
    ensures repeats < 6 && zeros < 138 && (repeats == 0 || zeros == 0) && got + Repeat(0, 0) == got
    ensures repeats > 0 || (sizes[i] == prev && sizes[i] > 0) ==> prev < 16 && got != [] && got[|got| - 1] == prev
  {
    assert got + Repeat(0, 0) == got;
  }

  /** A zero ends the run of the previous length; the 138th one fills the run of zeros. */
  lemma ZeroPending(sizes: seq<nat>, i: nat, got: seq<nat>, prev: nat, repeats: nat, zeros: nat)
    requires i < |sizes| && sizes[i] == 0 && Pending(sizes, i, got, prev, repeats, zeros)
    ensures var now := got + Repeat(prev, repeats);
            if zeros + 1 < 138 then Pending(sizes, i + 1, now, 0, 0, zeros + 1)
                else Pending(sizes, i + 1, now + Repeat(0, zeros + 1), 0, 0, 0)
  {
    var now := got + Repeat(prev, repeats);
    MoreOf(0, zeros);
    assert now + Repeat(0, 0) + Repeat(0, zeros + 1) == now + Repeat(0, zeros) + [0] == sizes[..i + 1];
    assert now + Repeat(0, zeros + 1) + Repeat(0, 0) + Repeat(0, 0) == sizes[..i + 1];
  }

  /** Any other length ends the run of zeros; a new one is sent, and the sixth of a run fills it. */
  lemma SizePending(sizes: seq<nat>, i: nat, got: seq<nat>, prev: nat, repeats: nat, zeros: nat)
    requires i < |sizes| && 0 < sizes[i] < 16 && Pending(sizes, i, got, prev, repeats, zeros)
    ensures var size, now := sizes[i], got + Repeat(0, zeros);
            if size != prev then Pending(sizes, i + 1, now + Repeat(prev, repeats) + Repeat(size, 1), size, 0, 0)
            else now == got && if repeats + 1 < 6 then Pending(sizes, i + 1, now, size, repeats + 1, 0)
                               else Pending(sizes, i + 1, now + Repeat(size, repeats + 1), size, 0, 0)
  {
    var size, now := sizes[i], got + Repeat(0, zeros);
    assert now + Repeat(prev, repeats) == got + Repeat(prev, repeats) + Repeat(0, zeros);
    MoreOf(size, repeats);
    if size != prev {
      var all := now + Repeat(prev, repeats) + Repeat(size, 1);
      assert all == sizes[..i + 1] && all + Repeat(size, 0) + Repeat(0, 0) == all;
    } else {
      assert now == got;
      assert got + Repeat(size, repeats + 1) == got + Repeat(size, repeats) + [size] == sizes[..i + 1];
      var all := got + Repeat(size, repeats + 1);
      assert all + Repeat(0, 0) == all && all + Repeat(size, 0) + Repeat(0, 0) == all;
    }
  }

  /** One more length. */
  method PackNext(ghost p0: seq<Pack>, ghost sizes: seq<nat>, ghost i: nat, size: nat, prev: nat, repeats0: nat,
      zeros0: nat,
                  packed: array<nat>, n0: nat, counts: array<nat>)
    returns (n: nat, repeats: nat, zeros: nat, ghost p: seq<Pack>)
    requires packed != counts && Packed(p0, packed, n0, counts) && i < |sizes| <= packed.Length && size == sizes[i] < 16
    requires Pending(sizes, i, UnpackAll(p0), prev, repeats0, zeros0) && n0 + repeats0 + zeros0 <= i
    modifies packed, counts
    ensures Packed(p, packed, n, counts) && Pending(sizes, i + 1, UnpackAll(p), size, repeats, zeros)
        && n + repeats + zeros <= i + 1
  {
    hide Packed, UnpackAll, Pending, Repeat;
    n, repeats, zeros, p := n0, repeats0, zeros0, p0;
    PackedOk(p0, packed, n, counts);
    RunPending(sizes, i, UnpackAll(p0), prev, repeats, zeros);
    if size == 0 {
      ZeroPending(sizes, i, UnpackAll(p0), prev, repeats, zeros);
      n, p := FlushRepeat(p, prev, repeats, packed, n, counts);
      repeats, zeros := 0, zeros + 1;
      if zeros == 138 {
        n, p := FlushZeros(p, zeros, packed, n, counts);
        zeros := 0;
      }
    } else {
      SizePending(sizes, i, UnpackAll(p0), prev, repeats, zeros);
      n, p := FlushZeros(p, zeros, packed, n, counts);
      zeros := 0;
      if size != prev {
        n, p := FlushRepeat(p, prev, repeats, packed, n, counts);
        repeats := 0;
        n, p := PackPlain(p, size, 1, packed, n, counts);
      } else {
        repeats := repeats + 1;
        if repeats == 6 {
          n, p := FlushRepeat(p, prev, repeats, packed, n, counts);
          repeats := 0;
        }
      }
    }
  }

  /** Packing every length in turn: unpacking the result gives the lengths back, and it is never longer than they
      are. */
  method PackSizes(sizes: seq<nat>, packed: array<nat>, counts: array<nat>) returns (n: nat, ghost p: seq<Pack>)
    requires packed != counts && packed.Length == MAX_SIZES && counts.Length == 19
    requires |sizes| <= MAX_SIZES && forall i :: 0 <= i < |sizes| ==> sizes[i] < 16
    modifies packed, counts
    ensures Packed(p, packed, n, counts) && UnpackAll(p) == sizes && n <= |sizes|
  {
    hide PacksOk, Flat, UnpackAll, SymCount;
    for s := 0 to 19
      invariant forall k :: 0 <= k < s ==> counts[k] == 0
    {
      counts[s] := 0;
    }
    NothingPacked();
    p, n := [], 0;
    var prev, repeats, zeros := 255, 0, 0;
    for i := 0 to |sizes|
      invariant Packed(p, packed, n, counts) && Pending(sizes, i, UnpackAll(p), prev, repeats, zeros) && 0 <= repeats
          && 0 <= zeros && 0 <= prev
      invariant n + repeats + zeros <= i
    {
      n, repeats, zeros, p := PackNext(p, sizes, i, sizes[i], prev, repeats, zeros, packed, n, counts);
      prev := sizes[i];
    }
    assert sizes[..|sizes|] == sizes;
    if repeats > 0 {
      n, p := FlushRepeat(p, prev, repeats, packed, n, counts);
    } else {
      n, p := FlushZeros(p, zeros, packed, n, counts);
    }
  }

  lemma NothingPacked()
    ensures PacksOk([]) && UnpackAll([]) == [] && Flat([]) == [] && forall s :: SymCount([], s) == 0
  {
  }

  lemma MoreOf(x: nat, n: nat)
    ensures Repeat(x, n) + [x] == Repeat(x, n + 1)
  {
  }
}
