/** The output buffer: a wrapping power-of-two window, or a plain buffer that holds the whole output; and the
    copying of matches within it, equal on every path to appending byte by byte to the unbounded output. */
module Window {
  import opened Bits
  import opened Format
  import opened Machine

  /** Where output byte k lies: masking by a power of two less one is the remainder. An empty buffer holds none. */
  function Slot(cfg: Cfg, k: nat): nat {
    if cfg.nonWrapping || cfg.window == 0 then k else k % cfg.window
  }

  /** The write position in a buffer that ends at end. */
  ghost predicate Placed(cfg: Cfg, size: nat, cur: nat, end: nat, n: nat) {
    && cur <= end <= size
    && (cfg.nonWrapping || end == size == cfg.window)
    && if cfg.nonWrapping || cfg.window == 0 then cur == n
       else (cur < cfg.window && cur == n % cfg.window) || (cur == cfg.window && n % cfg.window == 0)
  }

  /** The buffer's last bytes are the output's. */
  ghost predicate Recent(cfg: Cfg, buf: seq<byte>, out: seq<byte>) {
    forall j :: 0 <= j < |out| && (cfg.nonWrapping || |out| <= j + cfg.window) ==>
                  Slot(cfg, j) < |buf| && buf[Slot(cfg, j)] == out[j]
  }

  ghost predicate Holds(cfg: Cfg, buf: seq<byte>, cur: nat, end: nat, out: seq<byte>) {
    Placed(cfg, |buf|, cur, end, |out|) && Recent(cfg, buf, out)
  }

  lemma ModNext(k: nat, w: nat)
    requires w > 0
    ensures (k + 1) % w == if k % w == w - 1 then 0 else k % w + 1
  {
    var q, r := k / w, k % w;
    assert k == q * w + r;
    if r == w - 1 {
      assert k + 1 == (q + 1) * w + 0;
      DivUnique(k + 1, w, q + 1, 0);
    } else {
      DivUnique(k + 1, w, q, r + 1);
    }
  }

  /** Going n forward from a remainder without wrapping. */
  lemma ModAdd(k: nat, n: nat, w: nat)
    requires w > 0 && k % w + n < w
    ensures (k + n) % w == k % w + n
  {
    DivUnique(k + n, w, k / w, k % w + n);
  }

  lemma ModMinus(k: nat, n: nat, w: nat)
    requires 0 < n <= k && n <= w
    ensures (k - n) % w == if n <= k % w then k % w - n else k % w - n + w
  {
    var q, r := k / w, k % w;
    assert k == q * w + r;
    if n <= r {
      DivUnique(k - n, w, q, r - n);
    } else {
      assert (q - 1) * w == q * w - w;
      IntDivUnique(k - n, w, q - 1, r - n + w);
    }
  }

  lemma SmallMod(x: int, w: nat)
    requires 0 <= x + w && x < w && w > 0
    ensures x % w == if x >= 0 then x else if x + w == 0 then 0 else x + w
  {
    if x < 0 {
      if x + w == 0 {
        IntDivUnique(x, w, -1, 0);
      } else {
        IntDivUnique(x, w, -1, x + w);
      }
    }
  }

  /** Going n back from position cur, which stands for k. */
  lemma ModBack(k: nat, n: nat, w: nat, cur: nat)
    requires 0 < n <= k && n <= w && cur <= w && (cur == k % w || (cur == w && k % w == 0))
    ensures (cur - n) % w == (k - n) % w
  {
    ModMinus(k, n, w);
    SmallMod(cur - n, w);
  }

  lemma ModDiffer(j: nat, k: nat, w: nat)
    requires j < k < j + w
    ensures j % w != k % w
  {
    if j % w == k % w {
      var a, b := j / w, k / w;
      assert k - j == (b - a) * w;
      if b > a {
        MulMono(1, b - a, w);
      } else {
        MulMono(b - a, 0, w);
      }
      assert false;
    }
  }

  /** One byte more. */
  lemma Emit(cfg: Cfg, buf: seq<byte>, cur: nat, end: nat, out: seq<byte>, b: byte)
    requires Holds(cfg, buf, cur, end, out) && cur < end
    ensures Holds(cfg, buf[cur := b], cur + 1, end, out + [b])
  {
    var n, buf', out' := |out|, buf[cur := b], out + [b];
    if !cfg.nonWrapping {
      ModNext(n, cfg.window);
    }
    assert cur == Slot(cfg, n);
    forall j | 0 <= j < |out'| && (cfg.nonWrapping || |out'| <= j + cfg.window)
      ensures Slot(cfg, j) < |buf'| && buf'[Slot(cfg, j)] == out'[j]
    {
      if j < n && !cfg.nonWrapping {
        ModDiffer(j, n, cfg.window);
      }
    }
  }

  /** The byte dist back from the write position. */
  lemma Source(cfg: Cfg, buf: seq<byte>, cur: nat, end: nat, out: seq<byte>, dist: nat)
    requires Holds(cfg, buf, cur, end, out) && 0 < dist <= |out| && Near(cfg, dist)
    ensures Slot(cfg, |out| - dist) < |buf| && buf[Slot(cfg, |out| - dist)] == out[|out| - dist]
    ensures cfg.nonWrapping ==> Slot(cfg, |out| - dist) == cur - dist
    ensures !cfg.nonWrapping ==> Slot(cfg, |out| - dist) == (cur - dist) % cfg.window
  {
    if !cfg.nonWrapping {
      ModBack(|out|, dist, cfg.window, cur);
    }
  }

  lemma {:induction false} CopySnoc(out: seq<byte>, dist: nat, n: nat)
    requires 0 < dist <= |out|
    ensures var r := CopyBytes(out, dist, n); CopyBytes(out, dist, n + 1) == r + [r[|r| - dist]]
    decreases n
  {
    if n > 0 {
      CopySnoc(out + [out[|out| - dist]], dist, n - 1);
    }
  }

  /** One copied byte, from slot src. */
  lemma CopyOne(cfg: Cfg, buf: seq<byte>, cur: nat, end: nat, out: seq<byte>, dist: nat, n: nat, src: nat)
    requires 0 < dist <= |out| && Near(cfg, dist) && Holds(cfg, buf, cur, end, CopyBytes(out, dist, n)) && cur < end
    requires src == Slot(cfg, |out| + n - dist)
    ensures src < |buf| && CopyBytes(out, dist, n + 1) == CopyBytes(out, dist, n) + [buf[src]]
  {
    hide Holds, CopyBytes, Slot;
    var r := CopyBytes(out, dist, n);
    CopySnoc(out, dist, n);
    Source(cfg, buf, cur, end, r, dist);
  }

  /** Offset k, whose slot the masked counter at computes. */
  ghost predicate Tracks(cfg: Cfg, at: nat, k: nat) {
    if cfg.nonWrapping || cfg.window == 0 then at == k else at % cfg.window == k % cfg.window
  }

  lemma TracksNext(cfg: Cfg, at: nat, k: nat)
    requires Tracks(cfg, at, k)
    ensures Tracks(cfg, at + 1, k + 1)
  {
    if !cfg.nonWrapping && cfg.window > 0 {
      ModNext(at, cfg.window);
      ModNext(k, cfg.window);
    }
  }

  /** The masked difference of the offset and the distance. */
  lemma TracksSlot(cfg: Cfg, at: nat, k: nat, dist: nat)
    requires Tracks(cfg, at, k) && Near(cfg, dist) && 0 < dist <= k
    ensures if cfg.nonWrapping then at - dist == Slot(cfg, k - dist)
        else (at - dist) % cfg.window == Slot(cfg, k - dist)
  {
    if !cfg.nonWrapping {
      var w := cfg.window;
      ModBack(k, dist, w, k % w);
      var q, r := at / w, at % w;
      assert at - dist == q * w + (r - dist);
      ShiftMod(q, r - dist, w);
    }
  }

  lemma ShiftMod(q: nat, x: int, w: nat)
    requires w > 0
    ensures (q * w + x) % w == x % w
  {
    var a, b := x / w, x % w;
    assert x == a * w + b;
    assert q * w + x == (q + a) * w + b;
    IntDivUnique(q * w + x, w, q + a, b);
  }

  lemma IntDivUnique(v: int, w: nat, c: int, r: nat)
    requires r < w && v == c * w + r
    ensures v % w == r
  {
    var q := v / w;
    assert v == q * w + v % w;
    if q < c {
      MulMono(q + 1, c, w);
      assert false;
    } else if c < q {
      MulMono(c + 1, q, w);
      assert false;
    }
  }

  /** The masked slot, as the program computes it; the mask of an empty buffer is all ones. */
  function Masked(cfg: Cfg, at: nat, dist: nat): int {
    if cfg.nonWrapping then at - dist else if cfg.window == 0 then (at - dist) % 0x1_0000_0000
        else (at - dist) % cfg.window
  }

  /** A distance that lies within the output and the buffer. */
  ghost predicate Proper(cfg: Cfg, dist: nat, out: seq<byte>) {
    0 < dist <= |out| && Near(cfg, dist)
  }

  /** Whatever the distance, a byte that has room is read from within the buffer; for a proper distance it is the
      byte dist back. */
  lemma MaskedSource(cfg: Cfg, buf: seq<byte>, cur: nat, end: nat, out: seq<byte>, w: seq<byte>, dist: nat, n: nat,
      at: nat)
    requires Holds(cfg, buf, cur, end, w) && cur < end && Tracks(cfg, at, |w|) && out <= w && |w| == |out| + n
    requires cfg.nonWrapping ==> Proper(cfg, dist, out)
    ensures 0 <= Masked(cfg, at, dist) < |buf|
    ensures Proper(cfg, dist, out) ==> Masked(cfg, at, dist) == Slot(cfg, |out| + n - dist)
  {
    if Proper(cfg, dist, out) {
      TracksSlot(cfg, at, |w|, dist);
      Source(cfg, buf, cur, end, w, dist);
    }
  }

  /** The careful copy: one byte at a time, wrapping, stopping when the buffer is full.
      left is the counter after the decrement of the byte that found no room. */
  method CopySlow(cfg: Cfg, buf: array<byte>, cur0: nat, end: nat, counter: nat, dist: nat, at0: nat,
      ghost out: seq<byte>)
    returns (full: bool, cur: nat, left: nat, at: nat, ghost n: nat, ghost w: seq<byte>)
    requires Holds(cfg, buf[..], cur0, end, out) && Tracks(cfg, at0, |out|)
        && (cfg.nonWrapping ==> Proper(cfg, dist, out))
    modifies buf
    ensures n <= counter && cur == cur0 + n && out <= w && |w| == |out| + n && Holds(cfg, buf[..], cur, end, w)
    ensures Proper(cfg, dist, out) ==> w == CopyBytes(out, dist, n)
    ensures if full then cur == end && n + left + 1 == counter && Tracks(cfg, at, |w|) else n == counter
    ensures forall k :: 0 <= k < buf.Length && !(cur0 <= k < cur) ==> buf[k] == old(buf[k])
  {
    hide Holds, CopyBytes, Tracks, Slot, Masked, Near;
    if Proper(cfg, dist, out) {
      CopyNone(out, dist);
    }
    full, cur, left, at, n, w := false, cur0, counter, at0, 0, out;
    while left > 0
      invariant cur == cur0 + n && n + left == counter && out <= w && |w| == |out| + n
          && Holds(cfg, buf[..], cur, end, w)
      invariant Tracks(cfg, at, |w|) && (Proper(cfg, dist, out) ==> w == CopyBytes(out, dist, n))
      invariant forall k :: 0 <= k < buf.Length && !(cur0 <= k < cur) ==> buf[k] == old(buf[k])
    {
      left := left - 1;
      HoldsPlaced(cfg, buf[..], cur, end, w);
      if cur >= end {
        full := true;
        return;
      }
      MaskedSource(cfg, buf[..], cur, end, out, w, dist, n, at);
      var b := buf[Masked(cfg, at, dist)];
      if Proper(cfg, dist, out) {
        CopyOne(cfg, buf[..], cur, end, out, dist, n, Masked(cfg, at, dist));
      }
      Emit(cfg, buf[..], cur, end, w, b);
      TracksNext(cfg, at, |w|);
      ghost var was := buf[..];
      buf[cur] := b;
      assert buf[..] == was[cur := b];
      at, cur, n, w := at + 1, cur + 1, n + 1, w + [b];
    }
  }

  lemma HoldsPlaced(cfg: Cfg, buf: seq<byte>, cur: nat, end: nat, out: seq<byte>)
    requires Holds(cfg, buf, cur, end, out)
    ensures cur <= end <= |buf| && (cfg.nonWrapping || end == |buf| == cfg.window)
  {
  }

  lemma SlotAdd(cfg: Cfg, k: nat, n: nat, size: nat)
    requires cfg.nonWrapping || (cfg.window >= size && size > 0)
    requires cfg.nonWrapping || Slot(cfg, k) + n < size
    ensures Slot(cfg, k + n) == Slot(cfg, k) + n
  {
    if !cfg.nonWrapping {
      ModAdd(k, n, cfg.window);
    }
  }

  /** One of the byte moves of the fast copy. */
  method CopyByte(cfg: Cfg, buf: array<byte>, cur: nat, end: nat, src: nat, dist: nat, ghost out: seq<byte>,
      ghost n: nat, ghost src0: nat,
                  ghost w: seq<byte>) returns (ghost w': seq<byte>)
    requires Holds(cfg, buf[..], cur, end, w) && src == src0 + n && cur < end && src < end
    requires Proper(cfg, dist, out) ==> src0 == Slot(cfg, |out| - dist) && w == CopyBytes(out, dist, n)
    modifies buf
    ensures Holds(cfg, buf[..], cur + 1, end, w') && w <= w' && |w'| == |w| + 1
    ensures Proper(cfg, dist, out) ==> w' == CopyBytes(out, dist, n + 1)
    ensures forall k :: 0 <= k < buf.Length && k != cur ==> buf[k] == old(buf[k])
  {
    hide Holds, CopyBytes, Slot, Near;
    HoldsPlaced(cfg, buf[..], cur, end, w);
    if Proper(cfg, dist, out) {
      SlotAdd(cfg, |out| - dist, n, end);
      CopyOne(cfg, buf[..], cur, end, out, dist, n, src);
    }
    ghost var was := buf[..];
    w' := w + [buf[src]];
    Emit(cfg, buf[..], cur, end, w, buf[src]);
    buf[cur] := buf[src];
    assert buf[..] == was[cur := was[src]];
  }

  /** The fast copy, three bytes at a time: neither the source nor the destination wraps. */
  method CopyFast(cfg: Cfg, buf: array<byte>, cur0: nat, end: nat, counter0: nat, src0: nat, dist: nat,
      ghost out: seq<byte>)
    returns (cur: nat, ghost w: seq<byte>)
    requires Holds(cfg, buf[..], cur0, end, out) && cur0 + counter0 <= end && src0 + counter0 <= end
    requires Proper(cfg, dist, out) ==> src0 == Slot(cfg, |out| - dist)
    modifies buf
    ensures cur == cur0 + counter0 && out <= w && |w| == |out| + counter0 && Holds(cfg, buf[..], cur, end, w)
    ensures Proper(cfg, dist, out) ==> w == CopyBytes(out, dist, counter0)
    ensures forall k :: 0 <= k < buf.Length && !(cur0 <= k < cur) ==> buf[k] == old(buf[k])
  {
    hide Holds, CopyBytes, Slot, Near;
    if Proper(cfg, dist, out) {
      CopyNone(out, dist);
    }
    cur, w := cur0, out;
    var counter, src := counter0, src0;
    while counter > 2
      invariant 0 <= counter <= counter0 && cur == cur0 + (counter0 - counter) && src == src0 + (counter0 - counter)
      invariant out <= w && |w| == |out| + (counter0 - counter) && Holds(cfg, buf[..], cur, end, w)
      invariant Proper(cfg, dist, out) ==> w == CopyBytes(out, dist, counter0 - counter)
      invariant forall k :: 0 <= k < buf.Length && !(cur0 <= k < cur) ==> buf[k] == old(buf[k])
    {
      ghost var n := counter0 - counter;
      w := CopyByte(cfg, buf, cur, end, src, dist, out, n, src0, w);
      w := CopyByte(cfg, buf, cur + 1, end, src + 1, dist, out, n + 1, src0, w);
      w := CopyByte(cfg, buf, cur + 2, end, src + 2, dist, out, n + 2, src0, w);
      cur, src, counter := cur + 3, src + 3, counter - 3;
    }
    if counter > 0 {
      ghost var n := counter0 - counter;
      w := CopyByte(cfg, buf, cur, end, src, dist, out, n, src0, w);
      if counter > 1 {
        w := CopyByte(cfg, buf, cur + 1, end, src + 1, dist, out, n + 1, src0, w);
      }
      cur := cur + counter;
    }
  }

  lemma CopyNone(out: seq<byte>, dist: nat)
    requires 0 < dist <= |out|
    ensures CopyBytes(out, dist, 0) == out
  {
  }
}
