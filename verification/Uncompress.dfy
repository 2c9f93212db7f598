/** Unpacking a zlib stream into machine memory through a 32 KiB window and a callback
    (third-party/miniz.c:2969-2997, webcm.cpp:41-63). */
module Uncompress {
  import opened Bits
  import opened Format
  import opened Machine
  import opened Runs
  import opened Suspension
  import opened Decompressor
  import Inflater
  import Window
  import Adler

  /** uncompress_env: the machine's memory and the next address to write. */
  class Env {
    const machine: array<byte>
    var offset: nat

    /** The sizes of the callbacks so far. */
    ghost var sizes: seq<nat>

    constructor (machine: array<byte>, paddr: nat)
      ensures this.machine == machine && offset == paddr && sizes == []
    {
      this.machine, offset, sizes := machine, paddr, [];
    }

    /** uncompress_cb: a write outside the memory fails, and the program exits. */
    method Write(data: seq<byte>) returns (ok: bool)
      modifies this, machine
      ensures ok <==> old(offset) + |data| <= machine.Length
      ensures ok ==>
                offset == old(offset) + |data| && sizes == old(sizes) + [|data|] && machine[old(offset)..offset] == data
      ensures ok ==> forall k :: 0 <= k < machine.Length && !(old(offset) <= k < offset) ==>
          machine[k] == old(machine[k])
      ensures !ok ==> offset == old(offset) && sizes == old(sizes) && machine[..] == old(machine[..])
    {
      ok := offset + |data| <= machine.Length;
      if ok {
        forall k | 0 <= k < |data| { machine[offset + k] := data[k]; }
        offset, sizes := offset + |data|, sizes + [|data|];
      }
    }
  }

  /** The window after a full turn. */
  lemma Rewound(cfg: Cfg, buf: seq<byte>, out: seq<byte>)
    requires Window.Holds(cfg, buf, |buf|, |buf|, out) && !cfg.nonWrapping
    ensures Window.Holds(cfg, buf, 0, |buf|, out)
  {
    var w := cfg.window;
    if w > 0 && |out| % w != 0 {
      assert false;
    }
  }

  lemma FreshWindow(cfg: Cfg, buf: seq<byte>)
    requires !cfg.nonWrapping && |buf| == cfg.window == DICT_SIZE
    ensures Window.Holds(cfg, buf, 0, DICT_SIZE, [])
  {
  }

  lemma DictPower()
    ensures PowerOfTwo(DICT_SIZE)
  {
    assert PowerOfTwo(16);
    assert PowerOfTwo(512);
    assert PowerOfTwo(16384);
  }

  /** The flags of uncompress_memory: a zlib header, and a wrapping window. */
  function TheCfg(): Cfg {
    CfgOf(true, false, DICT_SIZE)
  }

  /** Where the decoder stands between two callbacks: what it has written is summed; on a valid stream it is on
      the run. */
  ghost predicate Under(d: Tinfl, inp: seq<byte>, ofs: nat)
    reads d, d.ts.lookUp0, d.ts.tree0, d.ts.lookUp1, d.ts.tree1, d.ts.lookUp2, d.ts.tree2
  {
    && d.Valid() && d.cfg == TheCfg() && ofs <= |inp| && d.seen == inp[..ofs] && d.skipped == 0 && d.regs.numBits < 8
    && (CleanAll(TheCfg(), inp) ==> d.sure && OnTheRun(inp, d.st))
  }

  ghost predicate OnTheRun(inp: seq<byte>, st: St) {
    WellFormed(Init(TheCfg())) && Leads(TheCfg(), ByteBits(inp), Init(TheCfg()), st) && WellFormed(st)
  }

  /** The memory holds these bytes from paddr up to the offset. */
  ghost predicate Delivered(env: Env, paddr: nat, out: seq<byte>)
    reads env, env.machine
  {
    env.offset == paddr + |out| <= env.machine.Length && env.machine[paddr..env.offset] == out
  }

  lemma Under0(d: Tinfl, inp: seq<byte>)
    requires d.Valid() && d.cfg == TheCfg() && d.st == Init(TheCfg()) && d.seen == [] && d.regs.pc.P0? && d.sure
        && d.skipped == 0
    ensures Under(d, inp, 0)
  {
    hide Leads, WellFormed, CleanAll, ByteBits, Kept;
    InitWell(TheCfg());
    LeadsSelf(TheCfg(), ByteBits(inp), Init(TheCfg()));
  }

  /** After a call, the decoder stands further on the same run. */
  lemma UnderNext(inp: seq<byte>, st: St, t: St)
    requires OnTheRun(inp, st) && WellFormed(st) && Leads(TheCfg(), ByteBits(inp), st, t)
    ensures OnTheRun(inp, t) && st.out <= t.out
  {
    hide Leads, WellFormed, ByteBits;
    LeadsTrans(TheCfg(), ByteBits(inp), Init(TheCfg()), st, t);
    LeadsKeeps(TheCfg(), ByteBits(inp), st, t);
  }

  /** One call on the rest of the input, with the whole window for output. */
  method Turn(d: Tinfl, inp: seq<byte>, ofs0: nat, dict: array<byte>) returns (status: Status, ofs: nat, n: nat)
    requires Under(d, inp, ofs0) && dict.Length == DICT_SIZE && Window.Holds(TheCfg(), dict[..], 0, DICT_SIZE, d.st.out)
    modifies d, dict, d.ts.lookUp0, d.ts.tree0, d.ts.lookUp1, d.ts.tree1, d.ts.lookUp2, d.ts.tree2
    ensures d.Valid() && d.cfg == TheCfg() && ofs <= |inp| && d.seen == inp[..ofs] && n <= DICT_SIZE
        && status !in {BadParam, Asserted}
    ensures d.st.out == old(d.st.out) + dict[..n] && Window.Holds(TheCfg(), dict[..], n, DICT_SIZE, d.st.out)
    ensures CleanAll(TheCfg(), inp) ==>
              d.sure && OnTheRun(inp, d.st) && Ended(status, TheCfg(), false, d.seen, d.st, n == DICT_SIZE)
    ensures status == HasMoreOutput ==> n == DICT_SIZE && Under(d, inp, ofs)
    ensures status == CannotProgress ==> ofs == |inp|
    ensures d.st.ctl.Done? ==> (status == StatusDone <==> d.st.ctl.sum == Adler.Checksum(d.st.out))
  {
    hide Leads, WellFormed, ByteBits, CleanAll, Window.Holds, Saved, Inflater.Built, Inflater.Laid, Ended,
        Adler.Checksum, PowerOfTwo;
    DictPower();
    ghost var st := d.st;
    assert d.seen + inp[ofs0..] == inp;
    var inUsed;
    status, inUsed, n := d.Decompress(inp[ofs0..], dict, 0, DICT_SIZE, true, false, false, false);
    ofs := ofs0 + inUsed;
    assert inp[..ofs0] + inp[ofs0..][..inUsed] == inp[..ofs];
    if CleanAll(TheCfg(), inp) {
      UnderNext(inp, st, d.st);
    }
  }

  /** What unpacking must achieve: the stream is complete, its checksum agrees, and its bytes fit the memory. */
  ghost predicate Unpacks(inp: seq<byte>, t: St, room: nat) {
    Decodable(TheCfg(), inp, t) && t.ctl.sum == Adler.Checksum(t.out) && |t.out| <= room
  }

  /** The last call of a stream: done, or no complete stream with a right checksum is there. */
  lemma LastCall(inp: seq<byte>, ofs: nat, status: Status, st: St, t: St, full: bool)
    requires ofs <= |inp| && WellFormed(Init(TheCfg())) && Leads(TheCfg(), ByteBits(inp), Init(TheCfg()), st)
        && WellFormed(st)
    requires Ended(status, TheCfg(), false, inp[..ofs], st, full) && status != HasMoreOutput
        && (status == CannotProgress ==> ofs == |inp|)
    requires st.ctl.Done? ==> (status == StatusDone <==> st.ctl.sum == Adler.Checksum(st.out))
    requires Decodable(TheCfg(), inp, t)
    ensures if status == StatusDone then t == st && t.ctl.sum == Adler.Checksum(t.out)
        else t.ctl.sum != Adler.Checksum(t.out)
  {
    hide Leads, WellFormed, ByteBits, Adler.Checksum, Step;
    var S := ByteBits(inp);
    if Halted(st.ctl) {
      HaltsOnce(TheCfg(), S, Init(TheCfg()), st, t);
    } else {
      assert inp[..ofs] == inp;
      LeadsToEnd(TheCfg(), S, Init(TheCfg()), st, t);
      StalledLeads(TheCfg(), S, st, t);
    }
  }

  /** No stream in the input unpacks. */
  ghost predicate Hopeless(inp: seq<byte>, room: nat) {
    forall t :: !Unpacks(inp, t, room)
  }

  lemma Final(inp: seq<byte>, ofs: nat, status: Status, st: St, full: bool, room: nat)
    requires ofs <= |inp| && WellFormed(Init(TheCfg())) && Leads(TheCfg(), ByteBits(inp), Init(TheCfg()), st)
        && WellFormed(st)
    requires Ended(status, TheCfg(), false, inp[..ofs], st, full) && status != HasMoreOutput
        && (status == CannotProgress ==> ofs == |inp|)
    requires st.ctl.Done? ==> (status == StatusDone <==> st.ctl.sum == Adler.Checksum(st.out))
    ensures status == StatusDone && |st.out| <= room ==> Unpacks(inp, st, room) && st.pos == 8 * ofs
    ensures status != StatusDone ==> Hopeless(inp, room)
  {
    hide Leads, WellFormed, ByteBits, Adler.Checksum, Inflater.Starved;
    forall t ensures status != StatusDone ==> !Unpacks(inp, t, room) {
      if Decodable(TheCfg(), inp, t) {
        LastCall(inp, ofs, status, st, t, full);
      }
    }
  }

  /** What was written so far does not fit, so the whole cannot. */
  lemma TooLong(inp: seq<byte>, st: St, room: nat)
    requires WellFormed(Init(TheCfg())) && Leads(TheCfg(), ByteBits(inp), Init(TheCfg()), st) && WellFormed(st)
        && |st.out| > room
    ensures Hopeless(inp, room)
  {
    hide Leads, WellFormed, ByteBits, Adler.Checksum;
    forall t ensures !Unpacks(inp, t, room) {
      if Decodable(TheCfg(), inp, t) {
        LeadsToEnd(TheCfg(), ByteBits(inp), Init(TheCfg()), st, t);
        LeadsKeeps(TheCfg(), ByteBits(inp), st, t);
      }
    }
  }

  /** One more callback. */
  method Hand(env: Env, data: seq<byte>, ghost paddr: nat, ghost out: seq<byte>) returns (ok: bool)
    requires Delivered(env, paddr, out)
    modifies env, env.machine
    ensures ok <==> paddr + |out + data| <= env.machine.Length
    ensures ok ==> Delivered(env, paddr, out + data)
    ensures ok ==> env.sizes == old(env.sizes) + (if data == [] then [] else [|data|])
    ensures !ok ==> env.sizes == old(env.sizes) && env.offset == old(env.offset)
    ensures forall k :: 0 <= k < env.machine.Length && !(paddr <= k < env.offset) ==>
        env.machine[k] == old(env.machine[k])
  {
    ok := true;
    assert out + [] == out;
    if data != [] {
      ghost var was := env.machine[..];
      ok := env.Write(data);
      if ok {
        assert env.machine[paddr..env.offset] == env.machine[paddr..paddr + |out|]
            + env.machine[paddr + |out|..env.offset];
        assert env.machine[paddr..paddr + |out|] == was[paddr..paddr + |out|];
      }
    }
  }

  /** tinfl_decompress_mem_to_callback with uncompress_cb. Whatever the input, it ends, every callback but the
      last carries 32768 bytes, and only the memory from paddr up to the offset changes. On a stream that is valid as
      far as it goes the result is true exactly if the whole stream was there, summed right and fitted. */
  method MemToCallback(inp: seq<byte>, env: Env) returns (result: bool, used: nat, ghost t: St)
    requires env.offset <= env.machine.Length && env.sizes == []
    modifies env, env.machine
    ensures forall k :: 0 <= k < env.machine.Length && !(old(env.offset) <= k < env.offset) ==>
        env.machine[k] == old(env.machine[k])
    ensures forall i :: 0 <= i < |env.sizes| - 1 ==> env.sizes[i] == DICT_SIZE
    ensures used <= |inp| && (result ==> Delivered(env, old(env.offset), t.out))
    ensures CleanAll(TheCfg(), inp) && result ==>
              Unpacks(inp, t, env.machine.Length - old(env.offset)) && 8 * used == t.pos
    ensures CleanAll(TheCfg(), inp) && !result ==> Hopeless(inp, env.machine.Length - old(env.offset))
  {
    hide Leads, WellFormed, ByteBits, CleanAll, Window.Holds, Ended, Adler.Checksum, Decodable, Unpacks, Hopeless;
    hide Saved, Inflater.Built, Inflater.Laid;
    ghost var paddr, room: nat := env.offset, env.machine.Length - env.offset;
    var dict := new byte[DICT_SIZE](_ => 0);
    var d := new Tinfl(TheCfg());
    Under0(d, inp);
    FreshWindow(TheCfg(), dict[..]);
    var ofs := 0;
    while true
      invariant Under(d, inp, ofs) && Window.Holds(TheCfg(), dict[..], 0, DICT_SIZE, d.st.out) && 0 <= ofs
      invariant Delivered(env, paddr, d.st.out) && forall i :: 0 <= i < |env.sizes| ==> env.sizes[i] == DICT_SIZE
      invariant forall k :: 0 <= k < env.machine.Length && !(paddr <= k < env.offset) ==>
          env.machine[k] == old(env.machine[k])
      invariant fresh(d) && fresh(dict) && fresh(d.ts.lookUp0) && fresh(d.ts.tree0) && fresh(d.ts.lookUp1)
          && fresh(d.ts.tree1)
      invariant fresh(d.ts.lookUp2) && fresh(d.ts.tree2)
      decreases env.machine.Length - env.offset
    {
      ghost var out0 := d.st.out;
      var n, status;
      status, ofs, n := Turn(d, inp, ofs, dict);
      used, t := ofs, d.st;
      var ok := Hand(env, dict[..n], paddr, out0);
      if !ok {
        if CleanAll(TheCfg(), inp) {
          TooLong(inp, d.st, room);
        }
        return false, used, t;
      }
      if status != HasMoreOutput {
        if CleanAll(TheCfg(), inp) {
          Final(inp, ofs, status, d.st, n == DICT_SIZE, room);
        }
        result := status == StatusDone;
        return;
      }
      Rewound(TheCfg(), dict[..], d.st.out);
    }
  }

  /** uncompress_memory: whatever the data, it ends and changes no memory below paddr. On a stream that is valid
      as far as it goes it returns exactly if unpacking succeeded; then the memory from paddr on holds the bytes, the
      rest of it is unchanged, and the value returned is the length of the stream. Otherwise the program exits. */
  method UncompressMemory(machine: array<byte>, paddr: nat, data: seq<byte>)
      returns (exits: bool, size: nat, ghost t: St)
    requires paddr <= machine.Length
    modifies machine
    ensures machine[..paddr] == old(machine[..paddr]) && size <= |data|
    ensures !exits ==>
              && paddr + |t.out| <= machine.Length
              && machine[..] == old(machine[..paddr]) + t.out + old(machine[paddr + |t.out|..])
    ensures CleanAll(TheCfg(), data) ==> (exits <==> Hopeless(data, machine.Length - paddr))
    ensures CleanAll(TheCfg(), data) && !exits ==> Unpacks(data, t, machine.Length - paddr) && 8 * size == t.pos
  {
    hide Leads, WellFormed, ByteBits, CleanAll, Decodable, Adler.Checksum;
    ghost var was := machine[..];
    var env := new Env(machine, paddr);
    var ok;
    ok, size, t := MemToCallback(data, env);
    exits := !ok;
    assert machine[..paddr] == was[..paddr];
    if ok {
      assert machine[paddr + |t.out|..] == was[paddr + |t.out|..];
      assert machine[..] == machine[..paddr] + machine[paddr..paddr + |t.out|] + machine[paddr + |t.out|..];
    }
  }
}
