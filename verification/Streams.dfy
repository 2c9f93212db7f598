/** The reference decoder reads back every printed stream: its bytes, and exactly its length. */
module Streams {
  import opened Bits
  import opened Canonical
  import opened Format
  import opened Machine
  import opened Runs

  /** Where a block leaves the decoder. */
  ghost predicate AtBlockEnd(cfg: Cfg, t: St, final: bool, pos: nat, out: seq<byte>) {
    && t.final == final && t.out == out
    && if !final then t.ctl == Head && t.pos == pos
       else t.pos == Align(pos) && t.ctl == if cfg.zlib then Trailer(1, 0) else Done(1)
  }

  lemma HeadBits(final: bool, k: nat)
    requires k < 4
    ensures [final] + ToBits(k, 2) == ToBits((if final then 1 else 0) + 2 * k, 3)
    ensures (if final then 1 else 0) + 2 * k < Pow2(3)
  {
    assert Pow2(3) == 8;
    var v := (if final then 1 else 0) + 2 * k;
    assert ToBits(v, 3) == [v % 2 == 1] + ToBits(v / 2, 2);
  }

  /** The three header bits of a block. */
  lemma HeadLeads(cfg: Cfg, S: seq<bool>, st: St, final: bool, k: nat, body: seq<bool>)
    requires WellFormed(st) && st.ctl == Head && k < 3 && At(S, st.pos, [final] + (ToBits(k, 2) + body))
    ensures var t := HeadStep(st, (if final then 1 else 0) + 2 * k);
            Leads(cfg, S, st, t) && WellFormed(t) && At(S, st.pos + 3, body)
  {
    hide Leads, At, ToBits, HeadStep, Pow2;
    assert [final] + (ToBits(k, 2) + body) == ([final] + ToBits(k, 2)) + body;
    AtSplit(S, st.pos, [final] + ToBits(k, 2), body);
    HeadBits(final, k);
    FieldAt(cfg, S, st, (if final then 1 else 0) + 2 * k);
  }

  /** The end-of-block symbol. */
  lemma EndLeads(cfg: Cfg, S: seq<bool>, st: St)
    requires WellFormed(st) && st.ctl.LitLen? && 256 < |st.lit| && st.lit[256] > 0
        && At(S, st.pos, SymBits(st.lit, 256))
    ensures Leads(cfg, S, st, AfterBlock(cfg, st, st.pos + st.lit[256]))
  {
    hide Leads, At, Usable, SymBits, AfterBlock;
    SymAt(st.lit, S, st.pos, 256);
    InRange(S, st.pos, SymBits(st.lit, 256));
    SymLeads(cfg, S, st, AfterBlock(cfg, st, st.pos + st.lit[256]));
  }

  lemma CodedLeads(cfg: Cfg, S: seq<bool>, st: St, items: seq<Item>)
    requires WellFormed(st) && st.ctl.LitLen? && BodyOk(items, st.lit, st.dst, st.out) && AllSpan(cfg, items)
    requires At(S, st.pos, CodedBits(items, st.lit, st.dst, st.out))
    ensures var n := |CodedBits(items, st.lit, st.dst, st.out)|;
            Leads(cfg, S, st, AfterBlock(cfg, st.(out := ApplyAll(items, st.out)), st.pos + n))
  {
    hide Leads, At, Usable, SymBits, AfterBlock, ItemsOk, AllCoded, ItemsBits, ApplyAll, WellFormed, AllSpan;
    AtSplit(S, st.pos, ItemsBits(items, st.lit, st.dst), SymBits(st.lit, 256));
    ItemsLead(cfg, S, st, items);
    var t := st.(pos := st.pos + |ItemsBits(items, st.lit, st.dst)|, out := ApplyAll(items, st.out));
    LeadsKeeps(cfg, S, st, t);
    EndLeads(cfg, S, t);
    AfterSame(cfg, st, ApplyAll(items, st.out), t.pos, t.pos + st.lit[256]);
    LeadsTrans(cfg, S, st, t, AfterBlock(cfg, t, t.pos + st.lit[256]));
  }

  lemma AfterSame(cfg: Cfg, st: St, out: seq<byte>, p: nat, q: nat)
    ensures AfterBlock(cfg, st.(pos := p, out := out), q) == AfterBlock(cfg, st.(out := out), q)
  {
  }

  lemma AfterIsEnd(cfg: Cfg, st: St, pos: nat)
    ensures AtBlockEnd(cfg, AfterBlock(cfg, st, pos), st.final, pos, st.out)
  {
  }

  lemma StoredLeads(cfg: Cfg, S: seq<bool>, st: St, data: seq<byte>)
    requires WellFormed(st) && st.ctl == RawHdr([]) && |data| < 65536 && At(S, st.pos, StoredBits(data))
    ensures Leads(cfg, S, st, AfterBlock(cfg, st.(out := st.out + data), st.pos + |StoredBits(data)|))
  {
    hide Leads, At, ToBits, ByteBits, AfterBlock, Pow2;
    var n := |data|;
    AtSplit(S, st.pos, ToBits(n, 16), ToBits(65535 - n, 16) + ByteBits(data));
    AtSplit(S, st.pos + 16, ToBits(65535 - n, 16), ByteBits(data));
    RawHeader(cfg, S, st, n);
    var t := st.(ctl := RawCopy(n), pos := st.pos + 32);
    LeadsKeeps(cfg, S, st, t);
    assert data[0..] == data;
    RawLeads(cfg, S, t, data, 0);
    var u := t.(ctl := RawCopy(0), pos := t.pos + 8 * n, out := st.out + data);
    LeadsTrans(cfg, S, st, t, u);
    LeadsKeeps(cfg, S, st, u);
    InRange(S, t.pos, ByteBits(data));
    NoBits(S, u.pos);
    FieldAt(cfg, S, u, 0);
    AfterOf(cfg, st, u, u.pos);
    LeadsTrans(cfg, S, st, u, AfterBlock(cfg, u, u.pos));
  }

  lemma NoBits(S: seq<bool>, pos: nat)
    requires pos <= |S|
    ensures At(S, pos, ToBits(0, 0)) && Pow2(0) == 1
  {
  }

  lemma AfterOf(cfg: Cfg, st: St, u: St, pos: nat)
    requires u.final == st.final && u.lit == st.lit && u.dst == st.dst
    ensures AfterBlock(cfg, u, pos) == AfterBlock(cfg, st.(out := u.out), pos)
  {
  }

  /** The block's distances lie within a wrapping buffer. */
  ghost predicate BlockSpans(cfg: Cfg, b: Block) {
    match b
    case Stored(_, _) => true
    case Fixed(items) => AllSpan(cfg, items)
    case Dynamic(_, items) => AllSpan(cfg, items)
  }

  ghost predicate ChunksSpan(cfg: Cfg, s: seq<Chunk>) {
    forall i :: 0 <= i < |s| ==> BlockSpans(cfg, s[i].b)
  }

  lemma WideItem(cfg: Cfg, i: Item)
    requires (cfg.nonWrapping || cfg.window >= 32768) && ValidItem(i)
    ensures Spans(cfg, i)
  {
    if i.Copy? {
      DistTable(i.dsym);
    }
  }

  lemma WideItems(cfg: Cfg, s: seq<Item>, lit: seq<nat>, dst: seq<nat>)
    requires (cfg.nonWrapping || cfg.window >= 32768) && AllCoded(s, lit, dst)
    ensures AllSpan(cfg, s)
  {
    hide Spans, ValidItem, Coded;
    forall k | 0 <= k < |s| ensures Spans(cfg, s[k]) {
      WideItem(cfg, s[k]);
    }
  }

  /** A 32 KiB buffer spans every distance that can be printed. */
  lemma {:induction false} WideSpans(cfg: Cfg, s: seq<Chunk>, pos: nat)
    requires (cfg.nonWrapping || cfg.window >= 32768) && Print(s, pos).Printed?
    ensures ChunksSpan(cfg, s)
  {
    hide AllSpan, AllCoded, ItemsOk, HeaderLit, HeaderDist, BlockBits, BlockOut, Usable, UnpackAll, PacksOk;
    if s != [] {
      var n := |s| - 1;
      WideSpans(cfg, s[..n], pos);
      match s[n].b {
        case Stored(_, _) =>
        case Fixed(items) => WideItems(cfg, items, FixedLit(), FixedDist());
        case Dynamic(h, items) => WideItems(cfg, items, HeaderLit(h), HeaderDist(h));
      }
    }
  }

  lemma StoredEnds(cfg: Cfg, S: seq<bool>, st: St, data: seq<byte>) returns (t: St)
    requires WellFormed(st) && st.ctl == RawHdr([]) && |data| < 65536 && At(S, st.pos, StoredBits(data))
    ensures Leads(cfg, S, st, t) && WellFormed(t)
        && AtBlockEnd(cfg, t, st.final, st.pos + |StoredBits(data)|, st.out + data)
  {
    hide Leads, At, WellFormed, StoredBits, AfterBlock, AtBlockEnd;
    StoredLeads(cfg, S, st, data);
    t := AfterBlock(cfg, st.(out := st.out + data), st.pos + |StoredBits(data)|);
    AfterIsEnd(cfg, st.(out := st.out + data), st.pos + |StoredBits(data)|);
    LeadsKeeps(cfg, S, st, t);
  }

  lemma CodedEnds(cfg: Cfg, S: seq<bool>, st: St, items: seq<Item>) returns (t: St)
    requires WellFormed(st) && st.ctl.LitLen? && BodyOk(items, st.lit, st.dst, st.out) && AllSpan(cfg, items)
    requires At(S, st.pos, CodedBits(items, st.lit, st.dst, st.out))
    ensures Leads(cfg, S, st, t) && WellFormed(t)
    ensures AtBlockEnd(cfg, t, st.final, st.pos + |CodedBits(items, st.lit, st.dst, st.out)|, ApplyAll(items, st.out))
  {
    hide Leads, At, WellFormed, CodedBits, AllCoded, AfterBlock, AtBlockEnd, AllSpan;
    CodedLeads(cfg, S, st, items);
    var n := |CodedBits(items, st.lit, st.dst, st.out)|;
    t := AfterBlock(cfg, st.(out := ApplyAll(items, st.out)), st.pos + n);
    AfterIsEnd(cfg, st.(out := ApplyAll(items, st.out)), st.pos + n);
    LeadsKeeps(cfg, S, st, t);
  }

  /** Every printed block is read back. */
  lemma BlockLeads(cfg: Cfg, S: seq<bool>, st: St, b: Block, final: bool) returns (t: St)
    requires WellFormed(st) && st.ctl == Head && BlockOk(b, st.pos, st.out) && BlockSpans(cfg, b)
        && At(S, st.pos, BlockBits(b, final, st.pos, st.out))
    ensures Leads(cfg, S, st, t) && WellFormed(t)
    ensures AtBlockEnd(cfg, t, final, st.pos + |BlockBits(b, final, st.pos, st.out)|, BlockOut(b, st.pos, st.out))
  {
    hide Leads, At, ToBits, WellFormed, HeaderBits, CodedBits, StoredBits, ItemsOk, AllCoded, HeaderOk, AfterBlock,
        AtBlockEnd, Usable, AllSpan;
    HeadLeads(cfg, S, st, final, Kind(b), BodyBits(b, st.pos, st.out));
    var v := (if final then 1 else 0) + 2 * Kind(b);
    var h := HeadStep(st, v);
    var n := |BlockBits(b, final, st.pos, st.out)|;
    match b
    case Stored(pad, data) =>
      AtSplit(S, st.pos + 3, pad, StoredBits(data));
      t := StoredEnds(cfg, S, h, data);
      LeadsTrans(cfg, S, st, h, t);
    case Fixed(items) =>
      t := CodedEnds(cfg, S, h, items);
      LeadsTrans(cfg, S, st, h, t);
    case Dynamic(hdr, items) =>
      t := DynamicLeads(cfg, S, h, hdr, items);
      LeadsTrans(cfg, S, st, h, t);
  }

  lemma DynamicLeads(cfg: Cfg, S: seq<bool>, st: St, h: Header, items: seq<Item>) returns (t: St)
    requires WellFormed(st) && st.ctl == Sizes([]) && HeaderOk(h) && BodyOk(items, HeaderLit(h), HeaderDist(h), st.out)
        && AllSpan(cfg, items)
    requires At(S, st.pos, HeaderBits(h) + CodedBits(items, HeaderLit(h), HeaderDist(h), st.out))
    ensures Leads(cfg, S, st, t) && WellFormed(t)
    ensures AtBlockEnd(cfg, t, st.final, st.pos + |HeaderBits(h) + CodedBits(items, HeaderLit(h), HeaderDist(h),
        st.out)|, ApplyAll(items, st.out))
  {
    hide Leads, At, WellFormed, HeaderBits, CodedBits, ItemsOk, AllCoded, AfterBlock, AtBlockEnd, Usable, HeaderLit,
        HeaderDist, PacksOk, PacksCoded, AllSpan;
    var lit, dst := HeaderLit(h), HeaderDist(h);
    var n := |HeaderBits(h)|;
    AtSplit(S, st.pos, HeaderBits(h), CodedBits(items, lit, dst, st.out));
    HeaderLeads(cfg, S, st, h);
    var u := st.(ctl := LitLen, lit := lit, dst := dst, pos := st.pos + n);
    LeadsKeeps(cfg, S, st, u);
    t := CodedEnds(cfg, S, u, items);
    LeadsTrans(cfg, S, st, u, t);
  }

  /** Non-final blocks lead from head to head. */
  lemma {:induction false} ChunksLead(cfg: Cfg, S: seq<bool>, st: St, s: seq<Chunk>) returns (t: St)
    requires WellFormed(st) && st.ctl == Head && st.out == [] && Print(s, st.pos).Printed?
        && At(S, st.pos, Print(s, st.pos).bits)
    requires ChunksSpan(cfg, s) && forall i :: 0 <= i < |s| ==> !s[i].final
    ensures Leads(cfg, S, st, t) && WellFormed(t) && t.ctl == Head
    ensures t.pos == st.pos + |Print(s, st.pos).bits| && t.out == Print(s, st.pos).out
    decreases |s|
  {
    hide Leads, At, WellFormed, BlockBits, BlockOk, BlockOut, BlockSpans;
    if s == [] {
      t := st;
      LeadsSelf(cfg, S, st);
    } else {
      var n := |s| - 1;
      var p := Print(s[..n], st.pos);
      AtSplit(S, st.pos, p.bits, BlockBits(s[n].b, s[n].final, st.pos + |p.bits|, p.out));
      var u := ChunksLead(cfg, S, st, s[..n]);
      t := BlockLeads(cfg, S, u, s[n].b, false);
      LeadsTrans(cfg, S, st, u, t);
    }
  }

  /** A closed sequence of blocks leads to the end of the data. */
  lemma ClosedLeads(cfg: Cfg, S: seq<bool>, st: St, s: seq<Chunk>) returns (t: St)
    requires WellFormed(st) && st.ctl == Head && st.out == [] && Closed(s) && ChunksSpan(cfg, s)
        && Print(s, st.pos).Printed? && At(S, st.pos, Print(s, st.pos).bits)
    ensures Leads(cfg, S, st, t) && WellFormed(t)
    ensures AtBlockEnd(cfg, t, true, st.pos + |Print(s, st.pos).bits|, Print(s, st.pos).out)
  {
    hide Leads, At, WellFormed, BlockBits, BlockOk, BlockOut, BlockSpans, AtBlockEnd;
    var n := |s| - 1;
    var p := Print(s[..n], st.pos);
    AtSplit(S, st.pos, p.bits, BlockBits(s[n].b, s[n].final, st.pos + |p.bits|, p.out));
    var u := ChunksLead(cfg, S, st, s[..n]);
    t := BlockLeads(cfg, S, u, s[n].b, true);
    LeadsTrans(cfg, S, st, u, t);
  }

  // ----- whole streams -----

  /** A raw stream whose distances a wrapping buffer spans: the blocks, then anything. */
  ghost predicate RawStream(cfg: Cfg, S: seq<bool>, s: seq<Chunk>) {
    Closed(s) && ChunksSpan(cfg, s) && Print(s, 0).Printed? && Print(s, 0).bits <= S
  }

  /** The decoder reads a raw stream to its last bit and returns its bytes. */
  lemma RawStreamLeads(cfg: Cfg, S: seq<bool>, s: seq<Chunk>) returns (t: St)
    requires !cfg.zlib && RawStream(cfg, S, s)
    ensures Leads(cfg, S, Init(cfg), t) && t.ctl == Done(1) && t.out == Print(s, 0).out
        && t.pos == Align(|Print(s, 0).bits|)
  {
    hide Leads, Print, BlockSpans;
    var bits := Print(s, 0).bits;
    assert S[0..|bits|] == bits;
    t := ClosedLeads(cfg, S, Init(cfg), s);
  }

  /** The four bytes of the checksum, most significant first. */
  function SumBytes(a: nat): (r: seq<byte>)
    ensures |r| == 4
  {
    [a / 0x100_0000 % 256, a / 0x1_0000 % 256, a / 0x100 % 256, a % 256]
  }

  /** A header announces a window that the output buffer can hold; a plain buffer holds any. */
  ghost predicate HeadFits(cfg: Cfg, exp: nat) {
    cfg.nonWrapping || (exp <= 7 && WindowSize(exp) <= cfg.window)
  }

  /** The two bytes are a printed header whose window fits. */
  ghost predicate GoodHead(cfg: Cfg, z0: nat, z1: nat) {
    exists exp: nat, level: nat, low: bool ::
      exp < 16 && level < 4 && (z0, z1) == HeadBytes(exp, level, low) && HeadFits(cfg, exp)
  }

  lemma AnnouncedSize(exp: nat)
    ensures Pow2(8 + exp) == WindowSize(exp) && (Pow2(8 + exp) > 32768 <==> exp > 7)
  {
    assert Pow2(8) == 256;
    assert Pow2(15) == 32768;
    hide Pow2;
    Pow2Add(8, exp);
    if exp > 7 {
      Pow2Mono(16, 8 + exp);
      assert Pow2(16) == 65536 by { Pow2Add(8, 8); }
    } else {
      Pow2Mono(8 + exp, 15);
    }
  }

  lemma HeadIsRight(exp: nat, level: nat, low: bool)
    requires exp < 16 && level < 4
    ensures var z := HeadBytes(exp, level, low);
            z.0 < 256 && z.1 < 256 && (256 * z.0 + z.1) % 31 == 0 && z.1 / 32 % 2 == 0 && z.0 % 16 == 8
                && z.0 / 16 == exp
  {
    var n := 256 * (16 * exp + 8) + 64 * level;
    var c := if low && n % 31 == 0 then 0 else 31 - n % 31;
    assert n + c == 31 * (n / 31) + (if low && n % 31 == 0 then 0 else 31);
    assert (64 * level + c) / 32 == 2 * level;
  }

  lemma RightIsHead(z0: nat, z1: nat)
    requires z0 < 256 && z1 < 256 && (256 * z0 + z1) % 31 == 0 && z1 / 32 % 2 == 0 && z0 % 16 == 8
    ensures z0 / 16 < 16 && z1 / 64 < 4 && (z0, z1) == HeadBytes(z0 / 16, z1 / 64, z1 % 64 == 0)
  {
    LowBits(z0, z1);
    CheckBits(256 * z0 + 64 * (z1 / 64), z1 % 64);
  }

  lemma LowBits(z0: nat, z1: nat)
    requires z0 % 16 == 8 && z1 / 32 % 2 == 0
    ensures z0 == 16 * (z0 / 16) + 8 && z1 == 64 * (z1 / 64) + z1 % 64 && z1 % 64 < 32
  {
    assert z1 / 32 == 2 * (z1 / 64) + z1 % 64 / 32;
  }

  lemma CheckBits(n: nat, c: nat)
    requires c < 32 && (n + c) % 31 == 0
    ensures c == if c == 0 && n % 31 == 0 then 0 else 31 - n % 31
  {
    var q, r, p := n / 31, n % 31, (n + c) / 31;
    assert n == 31 * q + r && n + c == 31 * p;
    assert r + c == 31 * (p - q);
  }

  /** The header check of the decoder accepts exactly the printed headers whose window fits. */
  lemma HeadAccepted(cfg: Cfg, z0: nat, z1: nat)
    requires z0 < 256 && z1 < 256
    ensures !BadZlibHeader(cfg, z0, z1) <==> GoodHead(cfg, z0, z1)
  {
    hide Pow2, WindowSize, HeadBytes;
    AnnouncedSize(z0 / 16);
    if exp: nat, level: nat, low: bool :|
      exp < 16 && level < 4 && (z0, z1) == HeadBytes(exp, level, low) && HeadFits(cfg, exp) {
      HeadIsRight(exp, level, low);
    }
    if !BadZlibHeader(cfg, z0, z1) {
      RightIsHead(z0, z1);
      assert HeadFits(cfg, z0 / 16);
    }
  }

  /** A zlib stream (section 2.2 of RFC 1950): two header bytes, the blocks, padding, the checksum, then anything. */
  ghost predicate ZlibStream(cfg: Cfg, S: seq<bool>, z0: byte, z1: byte, s: seq<Chunk>, pad: seq<bool>, sum: nat) {
    && GoodHead(cfg, z0, z1) && Closed(s) && ChunksSpan(cfg, s) && Print(s, 16).Printed? && sum < 0x1_0000_0000
    && |pad| == Padding(16 + |Print(s, 16).bits|)
    && ToBits(z0, 8) + (ToBits(z1, 8) + (Print(s, 16).bits + (pad + ByteBits(SumBytes(sum))))) <= S
  }

  /** With two bytes of a zlib stream the decoder is at the first block exactly if they are a printed header whose
      window fits; otherwise it has failed. */
  lemma HeaderBytes(cfg: Cfg, S: seq<bool>, z0: byte, z1: byte) returns (t: St)
    requires cfg.zlib && At(S, 0, ToBits(z0, 8)) && At(S, 8, ToBits(z1, 8))
    ensures t == Init(cfg).(ctl := if GoodHead(cfg, z0, z1) then Head else Failed(36), pos := 16)
    ensures Leads(cfg, S, Init(cfg), t) && WellFormed(t)
  {
    hide Leads, At, ToBits, BadZlibHeader, GoodHead, Pow2;
    PowByte();
    HeadAccepted(cfg, z0, z1);
    FieldAt(cfg, S, Init(cfg), z0);
    var u := Init(cfg).(ctl := Zhdr1(z0), pos := 8);
    FieldAt(cfg, S, u, z1);
    t := Init(cfg).(ctl := if GoodHead(cfg, z0, z1) then Head else Failed(36), pos := 16);
    LeadsTrans(cfg, S, Init(cfg), u, t);
  }

  lemma TrailerByte(cfg: Cfg, S: seq<bool>, st: St, b: byte)
    requires WellFormed(st) && st.ctl.Trailer? && At(S, st.pos, ToBits(b, 8))
    ensures var t := TrailerStep(st, st.ctl.sum, st.ctl.n, b); Leads(cfg, S, st, t) && WellFormed(t)
  {
    hide Leads, At, ToBits, Pow2;
    PowByte();
    FieldAt(cfg, S, st, b);
  }

  lemma ShiftSmall(x: nat, b: nat)
    requires x < 0x100_0000 && b < 256
    ensures ShiftIn(x, b) == x * 256 + b
  {
  }

  lemma ShiftTop(x: nat, b: nat)
    requires x < 0x100_0000 && b < 256
    ensures ShiftIn(0x100_0000 + x, b) == x * 256 + b
  {
  }

  lemma SumBack(a: nat)
    requires a < 0x1_0000_0000
    ensures var s := SumBytes(a); ShiftIn(ShiftIn(ShiftIn(ShiftIn(1, s[0]), s[1]), s[2]), s[3]) == a
  {
    hide ShiftIn;
    var b0: nat, b1: nat, b2: nat, b3: nat := a / 0x100_0000 % 256, a / 0x1_0000 % 256, a / 0x100 % 256, a % 256;
    FourBytes(a);
    assert SumBytes(a) == [b0, b1, b2, b3];
    ShiftSmall(1, b0);
    ShiftSmall(256 + b0, b1);
    ShiftSmall((256 + b0) * 256 + b1, b2);
    ShiftTop(b0 * 0x1_0000 + b1 * 256 + b2, b3);
  }

  lemma FourBytes(a: nat)
    requires a < 0x1_0000_0000
    ensures a == a / 0x100_0000 % 256 * 0x100_0000 + a / 0x1_0000 % 256 * 0x1_0000 + a / 0x100 % 256 * 0x100 + a % 256
  {
  }

  lemma TrailerLeads(cfg: Cfg, S: seq<bool>, st: St, sum: nat)
    requires WellFormed(st) && st.ctl == Trailer(1, 0) && sum < 0x1_0000_0000 && At(S, st.pos, ByteBits(SumBytes(sum)))
    ensures Leads(cfg, S, st, st.(ctl := Done(sum), pos := st.pos + 32))
  {
    hide Leads, At, ToBits, ByteBits, SumBytes;
    var s := SumBytes(sum);
    ByteAt(S, st.pos, s, 0);
    ByteAt(S, st.pos, s, 1);
    ByteAt(S, st.pos, s, 2);
    ByteAt(S, st.pos, s, 3);
    SumBack(sum);
    TrailerByte(cfg, S, st, s[0]);
    var t1 := TrailerStep(st, 1, 0, s[0]);
    TrailerByte(cfg, S, t1, s[1]);
    var t2 := TrailerStep(t1, t1.ctl.sum, 1, s[1]);
    TrailerByte(cfg, S, t2, s[2]);
    var t3 := TrailerStep(t2, t2.ctl.sum, 2, s[2]);
    TrailerByte(cfg, S, t3, s[3]);
    LeadsTrans(cfg, S, st, t1, t2);
    LeadsTrans(cfg, S, st, t2, t3);
    LeadsTrans(cfg, S, st, t3, st.(ctl := Done(sum), pos := st.pos + 32));
  }

  /** The decoder reads a zlib stream up to its trailer. */
  lemma ZlibBodyLeads(cfg: Cfg, S: seq<bool>, z0: byte, z1: byte, s: seq<Chunk>, pad: seq<bool>, sum: nat)
      returns (v: St)
    requires cfg.zlib && ZlibStream(cfg, S, z0, z1, s, pad, sum)
    ensures Leads(cfg, S, Init(cfg), v) && WellFormed(v) && v.ctl == Trailer(1, 0) && v.out == Print(s, 16).out
    ensures v.pos == Align(16 + |Print(s, 16).bits|) && At(S, v.pos, ByteBits(SumBytes(sum)))
  {
    hide Leads, Print, At, ToBits, ByteBits, SumBytes, GoodHead, BlockSpans;
    ZlibParts(cfg, S, z0, z1, s, pad, sum);
    var u := HeaderBytes(cfg, S, z0, z1);
    v := ClosedLeads(cfg, S, u, s);
    LeadsTrans(cfg, S, Init(cfg), u, v);
  }

  /** The decoder reads a zlib stream to its last bit and returns its bytes and its checksum. */
  lemma ZlibStreamLeads(cfg: Cfg, S: seq<bool>, z0: byte, z1: byte, s: seq<Chunk>, pad: seq<bool>, sum: nat)
      returns (t: St)
    requires cfg.zlib && ZlibStream(cfg, S, z0, z1, s, pad, sum)
    ensures Leads(cfg, S, Init(cfg), t) && t.ctl == Done(sum) && t.out == Print(s, 16).out
    ensures t.pos == Align(16 + |Print(s, 16).bits|) + 32
  {
    hide Leads, Print, At, ToBits, ByteBits, SumBytes, GoodHead, BlockSpans;
    var v := ZlibBodyLeads(cfg, S, z0, z1, s, pad, sum);
    TrailerLeads(cfg, S, v, sum);
    t := v.(ctl := Done(sum), pos := v.pos + 32);
    LeadsTrans(cfg, S, Init(cfg), v, t);
  }

  lemma ZlibParts(cfg: Cfg, S: seq<bool>, z0: byte, z1: byte, s: seq<Chunk>, pad: seq<bool>, sum: nat)
    requires ZlibStream(cfg, S, z0, z1, s, pad, sum)
    ensures var bits := Print(s, 16).bits;
            && At(S, 0, ToBits(z0, 8)) && At(S, 8, ToBits(z1, 8)) && At(S, 16, bits)
            && At(S, 16 + |bits| + |pad|, ByteBits(SumBytes(sum)))
  {
    hide Print, ToBits, ByteBits, SumBytes, GoodHead, BlockSpans;
    var bits, e := Print(s, 16).bits, ByteBits(SumBytes(sum));
    var all := ToBits(z0, 8) + (ToBits(z1, 8) + (bits + (pad + e)));
    assert S[0..|all|] == all;
    AtSplit(S, 0, ToBits(z0, 8), ToBits(z1, 8) + (bits + (pad + e)));
    AtSplit(S, 8, ToBits(z1, 8), bits + (pad + e));
    AtSplit(S, 16, bits, pad + e);
    AtSplit(S, 16 + |bits|, pad, e);
  }
}
