/** The DEFLATE format as a printer: the bits of length-limited Huffman-coded items, of blocks and of streams
    (section 3.2 of RFC 1951), with the bytes they stand for. */
module Format {
  import opened Bits
  import opened Canonical

  /** The farthest back that a distance reaches. */
  const DICT_SIZE: nat := 32768

  const LENGTH_BASE: seq<nat> :=
    [3, 4, 5, 6, 7, 8, 9, 10, 11, 13, 15, 17, 19, 23, 27, 31, 35, 43, 51, 59, 67, 83, 99, 115, 131, 163, 195, 227, 258]
  const LENGTH_EXTRA: seq<nat> :=
    [0, 0, 0, 0, 0, 0, 0, 0, 1, 1, 1, 1, 2, 2, 2, 2, 3, 3, 3, 3, 4, 4, 4, 4, 5, 5, 5, 5, 0]
  const DIST_BASE: seq<nat> :=
    [1, 2, 3, 4, 5, 7, 9, 13, 17, 25, 33, 49, 65, 97, 129, 193, 257, 385, 513, 769, 1025, 1537, 2049, 3073, 4097, 6145,
        8193, 12289,
     16385, 24577]
  const DIST_EXTRA: seq<nat> :=
    [0, 0, 0, 0, 1, 1, 2, 2, 3, 3, 4, 4, 5, 5, 6, 6, 7, 7, 8, 8, 9, 9, 10, 10, 11, 11, 12, 12, 13, 13]
  const SWIZZLE: seq<nat> := [16, 17, 18, 0, 8, 7, 9, 6, 10, 5, 11, 4, 12, 3, 13, 2, 14, 1, 15]

  /** The rows of the length table: each length is in the range of one symbol, and the extra bits are the low bits
      of it. */
  lemma LengthTable(i: nat)
    requires i < 29
    ensures 3 <= LENGTH_BASE[i] <= 258 && LENGTH_EXTRA[i] <= 5 && (LENGTH_EXTRA[i] > 0 ==> LENGTH_BASE[i] <= 227)
    ensures i < 27 ==> LENGTH_BASE[i + 1] == LENGTH_BASE[i] + Pow2(LENGTH_EXTRA[i])
    ensures i == 27 ==> LENGTH_BASE[i] == 227 && LENGTH_EXTRA[i] == 5
    ensures i == 28 ==> LENGTH_BASE[i] == 258 && LENGTH_EXTRA[i] == 0
    ensures (LENGTH_BASE[i] - 3) % Pow2(LENGTH_EXTRA[i]) == 0
  {
    SmallPowers();
    hide Pow2;
  }

  /** The same for distances. */
  lemma DistTable(i: nat)
    requires i < 30
    ensures 1 <= DIST_BASE[i] <= 32768 && DIST_EXTRA[i] <= 13 && DIST_BASE[i] + Pow2(DIST_EXTRA[i]) <= 32769
    ensures i < 29 ==> DIST_BASE[i + 1] == DIST_BASE[i] + Pow2(DIST_EXTRA[i])
    ensures i == 29 ==> DIST_BASE[i] == 24577 && DIST_EXTRA[i] == 13
    ensures (DIST_BASE[i] - 1) % Pow2(DIST_EXTRA[i]) == 0
  {
    SmallPowers();
    hide Pow2;
    if i < 29 {
      DistNext(i);
    }
  }

  lemma DistNext(i: nat)
    requires i < 29
    ensures DIST_BASE[i + 1] == DIST_BASE[i] + Pow2(DIST_EXTRA[i])
  {
    SmallPowers();
    hide Pow2;
  }

  // ----- literals and matches -----

  /** A literal byte, or a match with its length and distance symbols and their extra bits. */
  datatype Item = Lit(b: byte) | Copy(lsym: nat, lextra: nat, dsym: nat, dextra: nat)

  ghost predicate ValidItem(i: Item) {
    match i
    case Lit(_) => true
    case Copy(l, le, d, de) => l < 29 && le < Pow2(LENGTH_EXTRA[l]) && d < 30 && de < Pow2(DIST_EXTRA[d])
  }

  function CopyLen(i: Item): nat
    requires i.Copy? && i.lsym < 29
  {
    LENGTH_BASE[i.lsym] + i.lextra
  }

  function CopyDist(i: Item): nat
    requires i.Copy? && i.dsym < 30
  {
    DIST_BASE[i.dsym] + i.dextra
  }

  /** The symbols an item needs have codes. */
  ghost predicate Coded(i: Item, lit: seq<nat>, dst: seq<nat>) {
    match i
    case Lit(b) => b < |lit| && lit[b] > 0
    case Copy(l, _, d, _) => 257 + l < |lit| && lit[257 + l] > 0 && d < |dst| && dst[d] > 0
  }

  ghost function ItemBits(i: Item, lit: seq<nat>, dst: seq<nat>): seq<bool>
    requires ValidItem(i) && Coded(i, lit, dst)
  {
    match i
    case Lit(b) => SymBits(lit, b)
    case Copy(l, le, d, de) =>
      SymBits(lit, 257 + l) + (ToBits(le, LENGTH_EXTRA[l]) + (SymBits(dst, d) + ToBits(de, DIST_EXTRA[d])))
  }

  /** A match copied byte by byte from dist back, so that it may overlap itself. */
  function CopyBytes(out: seq<byte>, dist: nat, len: nat): (r: seq<byte>)
    requires 0 < dist <= |out|
    ensures |r| == |out| + len && out <= r
    decreases len
  {
    if len == 0 then out else CopyBytes(out + [out[|out| - dist]], dist, len - 1)
  }

  /** The item stands for something: its distance lies within the output so far. */
  ghost predicate Reaches(i: Item, out: seq<byte>) {
    ValidItem(i) && (i.Copy? ==> 0 < CopyDist(i) <= |out|)
  }

  ghost function Apply(i: Item, out: seq<byte>): (r: seq<byte>)
    requires Reaches(i, out)
    ensures out <= r
  {
    match i
    case Lit(b) => out + [b]
    case Copy(_, _, _, _) => CopyBytes(out, CopyDist(i), CopyLen(i))
  }

  /** Items that all reach into what the ones before them produced. */
  ghost predicate ItemsOk(s: seq<Item>, out: seq<byte>)
    decreases |s|, 0
  {
    s == [] || (var n := |s| - 1; ItemsOk(s[..n], out) && Reaches(s[n], ApplyAll(s[..n], out)))
  }

  /** The output after the items. */
  ghost function ApplyAll(s: seq<Item>, out: seq<byte>): (r: seq<byte>)
    requires ItemsOk(s, out)
    ensures out <= r
    decreases |s|, 1
  {
    if s == [] then out else Apply(s[|s| - 1], ApplyAll(s[..|s| - 1], out))
  }

  ghost predicate AllCoded(s: seq<Item>, lit: seq<nat>, dst: seq<nat>) {
    forall i :: 0 <= i < |s| ==> ValidItem(s[i]) && Coded(s[i], lit, dst)
  }

  ghost function ItemsBits(s: seq<Item>, lit: seq<nat>, dst: seq<nat>): seq<bool>
    requires AllCoded(s, lit, dst)
  {
    if s == [] then [] else ItemsBits(s[..|s| - 1], lit, dst) + ItemBits(s[|s| - 1], lit, dst)
  }

  // ----- packed code lengths -----

  /** A code-length symbol with its repeat count's extra bits. */
  datatype Pack = Pack(sym: nat, extra: nat)

  function PackExtra(sym: nat): nat {
    if sym < 16 then 0 else if sym == 16 then 2 else if sym == 17 then 3 else 7
  }

  function PackBase(sym: nat): nat {
    if sym < 18 then 3 else 11
  }

  function Repeat(x: nat, n: nat): (r: seq<nat>)
    ensures |r| == n && forall i :: 0 <= i < n ==> r[i] == x
  {
    seq(n, _ => x)
  }

  ghost predicate PackOk(p: Pack, got: seq<nat>) {
    p.sym < 19 && p.extra < Pow2(PackExtra(p.sym)) && (p.sym == 16 ==> got != [])
  }

  /** The lengths a packed symbol adds: one length, or a run. */
  function Unpack(p: Pack, got: seq<nat>): seq<nat>
    requires p.sym == 16 ==> got != []
  {
    if p.sym < 16 then got + [p.sym]
    else got + Repeat(if p.sym == 16 then got[|got| - 1] else 0, PackBase(p.sym) + p.extra)
  }

  ghost predicate PacksOk(s: seq<Pack>)
    decreases |s|, 0
  {
    s == [] || (var n := |s| - 1; PacksOk(s[..n]) && PackOk(s[n], UnpackAll(s[..n])))
  }

  /** The code lengths that packed symbols stand for. */
  ghost function UnpackAll(s: seq<Pack>): seq<nat>
    requires PacksOk(s)
    decreases |s|, 1
  {
    if s == [] then [] else Unpack(s[|s| - 1], UnpackAll(s[..|s| - 1]))
  }

  ghost predicate PacksCoded(s: seq<Pack>, cl: seq<nat>) {
    forall i :: 0 <= i < |s| ==> s[i].sym < |cl| && cl[s[i].sym] > 0
  }

  ghost function PackBits(p: Pack, cl: seq<nat>): seq<bool>
    requires p.sym < |cl|
  {
    SymBits(cl, p.sym) + ToBits(p.extra, PackExtra(p.sym))
  }

  ghost function PacksBits(s: seq<Pack>, cl: seq<nat>): seq<bool>
    requires PacksCoded(s, cl)
  {
    if s == [] then [] else PacksBits(s[..|s| - 1], cl) + PackBits(s[|s| - 1], cl)
  }

  // ----- blocks -----

  datatype Header = Header(hlit: nat, hdist: nat, hclen: nat, cl: seq<nat>, packs: seq<Pack>)

  datatype Block =
    | Stored(pad: seq<bool>, data: seq<byte>)
    | Fixed(items: seq<Item>)
    | Dynamic(h: Header, items: seq<Item>)

  function FixedLit(): (r: seq<nat>)
    ensures |r| == 288
  {
    seq(288, i => if i <= 143 then 8 else if i <= 255 then 9 else if i <= 279 then 7 else 8)
  }

  function FixedDist(): (r: seq<nat>)
    ensures |r| == 32
  {
    seq(32, _ => 5)
  }

  /** The first n three-bit lengths, in their peculiar order. */
  function ClBits(cl: seq<nat>, n: nat): (r: seq<bool>)
    requires |cl| == 19 && n <= 19
    ensures |r| == 3 * n
  {
    if n == 0 then [] else ClBits(cl, n - 1) + ToBits(cl[SWIZZLE[n - 1]], 3)
  }

  ghost predicate HeaderOk(h: Header) {
    && 257 <= h.hlit <= 288 && 1 <= h.hdist <= 32 && 4 <= h.hclen <= 19
    && |h.cl| == 19 && (forall i :: 0 <= i < 19 ==> h.cl[i] < 8)
    && (forall i {:trigger SWIZZLE[i]} :: h.hclen <= i < 19 ==> h.cl[SWIZZLE[i]] == 0)
    && Usable(h.cl) && PacksOk(h.packs) && PacksCoded(h.packs, h.cl)
    && |UnpackAll(h.packs)| == h.hlit + h.hdist
    && Usable(HeaderLit(h)) && Usable(HeaderDist(h))
  }

  /** The literal/length code's lengths. */
  ghost function HeaderLit(h: Header): seq<nat>
    requires PacksOk(h.packs) && h.hlit <= |UnpackAll(h.packs)|
  {
    UnpackAll(h.packs)[..h.hlit]
  }

  /** The distance code's lengths. */
  ghost function HeaderDist(h: Header): seq<nat>
    requires PacksOk(h.packs) && h.hlit <= |UnpackAll(h.packs)|
  {
    UnpackAll(h.packs)[h.hlit..]
  }

  ghost function HeaderBits(h: Header): seq<bool>
    requires HeaderOk(h)
  {
    ToBits(h.hlit - 257, 5) + (ToBits(h.hdist - 1, 5) + (ToBits(h.hclen - 4, 4)
      + (ClBits(h.cl, h.hclen) + PacksBits(h.packs, h.cl))))
  }

  /** Bits up to the next byte boundary. */
  function Padding(pos: nat): (r: nat)
    ensures r < 8 && (pos + r) % 8 == 0
  {
    (8 - pos % 8) % 8
  }

  /** A block's items, with their end-of-block symbol, are codable. */
  ghost predicate BodyOk(items: seq<Item>, lit: seq<nat>, dst: seq<nat>, out: seq<byte>) {
    ItemsOk(items, out) && AllCoded(items, lit, dst) && 256 < |lit| && lit[256] > 0
  }

  ghost function CodedBits(items: seq<Item>, lit: seq<nat>, dst: seq<nat>, out: seq<byte>): seq<bool>
    requires BodyOk(items, lit, dst, out)
  {
    ItemsBits(items, lit, dst) + SymBits(lit, 256)
  }

  ghost predicate BlockOk(b: Block, pos: nat, out: seq<byte>) {
    match b
    case Stored(pad, data) => |pad| == Padding(pos + 3) && |data| < 65536
    case Fixed(items) => BodyOk(items, FixedLit(), FixedDist(), out)
    case Dynamic(h, items) => HeaderOk(h) && BodyOk(items, HeaderLit(h), HeaderDist(h), out)
  }

  function StoredBits(data: seq<byte>): seq<bool>
    requires |data| < 65536
  {
    ToBits(|data|, 16) + (ToBits(65535 - |data|, 16) + ByteBits(data))
  }

  ghost function BodyBits(b: Block, pos: nat, out: seq<byte>): seq<bool>
    requires BlockOk(b, pos, out)
  {
    match b
    case Stored(pad, data) => pad + StoredBits(data)
    case Fixed(items) => CodedBits(items, FixedLit(), FixedDist(), out)
    case Dynamic(h, items) => HeaderBits(h) + CodedBits(items, HeaderLit(h), HeaderDist(h), out)
  }

  function Kind(b: Block): nat {
    match b case Stored(_, _) => 0 case Fixed(_) => 1 case Dynamic(_, _) => 2
  }

  /** The bits of a block that starts at bit position pos of the stream. */
  ghost function BlockBits(b: Block, final: bool, pos: nat, out: seq<byte>): seq<bool>
    requires BlockOk(b, pos, out)
  {
    [final] + (ToBits(Kind(b), 2) + BodyBits(b, pos, out))
  }

  ghost function BlockOut(b: Block, pos: nat, out: seq<byte>): (r: seq<byte>)
    requires BlockOk(b, pos, out)
    ensures out <= r
  {
    match b
    case Stored(_, data) => out + data
    case Fixed(items) => ApplyAll(items, out)
    case Dynamic(_, items) => ApplyAll(items, out)
  }

  // ----- streams -----

  datatype Chunk = Chunk(b: Block, final: bool)

  /** What blocks print: their bits and the bytes they stand for, unless one does not fit its place. */
  datatype Printed = Unprintable | Printed(bits: seq<bool>, out: seq<byte>)

  /** One more block. */
  ghost function PrintNext(p: Printed, c: Chunk, pos: nat): Printed {
    if p.Printed? && BlockOk(c.b, pos + |p.bits|, p.out) then
      Printed(p.bits + BlockBits(c.b, c.final, pos + |p.bits|, p.out), BlockOut(c.b, pos + |p.bits|, p.out))
    else Unprintable
  }

  /** Blocks printed one after the other from bit position pos. */
  ghost function Print(s: seq<Chunk>, pos: nat): Printed {
    if s == [] then Printed([], []) else PrintNext(Print(s[..|s| - 1], pos), s[|s| - 1], pos)
  }

  lemma PrintSnoc(s: seq<Chunk>, c: Chunk, pos: nat)
    ensures Print(s + [c], pos) == PrintNext(Print(s, pos), c, pos)
  {
    assert (s + [c])[..|s|] == s;
  }

  /** Only the last block is final. */
  ghost predicate Closed(s: seq<Chunk>) {
    s != [] && s[|s| - 1].final && forall i :: 0 <= i < |s| - 1 ==> !s[i].final
  }

  // ----- the zlib header, section 2.2 of RFC 1950 -----

  /** The window size that an exponent announces. */
  function WindowSize(exp: nat): nat {
    256 * Pow2(exp)
  }

  /** The two header bytes for a window exponent and a compression level: method 8, no preset dictionary, and
      check bits that make the number they form a multiple of 31. Where all five bits would be set, none may be. */
  function HeadBytes(exp: nat, level: nat, low: bool): (nat, nat)
    requires exp < 16 && level < 4
  {
    var n := 256 * (16 * exp + 8) + 64 * level;
    (16 * exp + 8, 64 * level + (if low && n % 31 == 0 then 0 else 31 - n % 31))
  }
}
