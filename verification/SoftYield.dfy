/** The soft-yield fetch protocol between guests and their host (webcm.cpp:114-255,
    https-proxy/https-proxy.cpp:147-171). Each yield is one step of the host; fetches complete in between. Access to
    guest memory is taken to succeed. */
module SoftYield {

  const REQUEST: nat := 1
  const POLL_RESPONSE: nat := 2
  const POLL_RESPONSE_BODY: nat := 3

  /** fetch_object: once done, status and size are fixed. */
  datatype Fetch = Fetch(done: bool, status: nat, total: nat)

  /** What the host wrote: register a0, which still holds the yield's type unless the step was performed, and the two
      structures a step may fill in the guest's memory. */
  datatype Reply = Reply(a0: nat, status: nat, total: nat, body: nat)

  /** The host's answer to a yield, and the fetches afterwards. */
  datatype Outcome = Outcome(ok: bool, reply: Reply, fetches: map<nat, Fetch>, closed: bool)

  /** What the host does: a request opens a fetch unless the uid has one; a response poll closes a fetch without body; a
      body poll closes the fetch. */
  function HostStep(fetches: map<nat, Fetch>, kind: nat, uid: nat): Outcome
    requires kind == POLL_RESPONSE && uid in fetches ==> fetches[uid].done
  {
    var silent := Outcome(true, Reply(kind, 0, 0, 0), fetches, false);
    if kind == REQUEST then
      if uid in fetches then silent else Outcome(true, Reply(0, 0, 0, 0), fetches[uid := Fetch(false, 0, 0)], false)
    else if kind == POLL_RESPONSE then
      if uid !in fetches then silent
      else
        var f := fetches[uid];
        if f.total == 0 then Outcome(true, Reply(0, f.status, 0, 0), fetches - {uid}, true)
        else Outcome(true, Reply(0, f.status, f.total, 0), fetches, false)
    else if kind == POLL_RESPONSE_BODY then
      if uid !in fetches then silent else Outcome(true, Reply(0, 0, 0, fetches[uid].total), fetches - {uid}, true)
    else Outcome(false, Reply(kind, 0, 0, 0), fetches, false)
  }

  class Host {
    var fetches: map<nat, Fetch>

    /** The uids whose fetch was closed, once for each closing. */
    ghost var closed: multiset<nat>

    /** handle_softyield. The arrival is what a pending fetch completes with while a response poll waits for it. */
    method HandleSoftyield(kind: nat, uid: nat, arrival: Fetch) returns (ok: bool, reply: Reply)
      requires arrival.done
      modifies this
      ensures var waited := if kind == POLL_RESPONSE && uid in old(fetches) && !old(fetches)[uid].done then
          old(fetches)[uid := arrival] else old(fetches);
              var o := HostStep(waited, kind, uid);
              ok == o.ok && reply == o.reply && fetches == o.fetches
              && closed == (if o.closed then old(closed) + multiset{uid} else old(closed))
    {
      reply := Reply(kind, 0, 0, 0);
      if kind == REQUEST {
        if uid in fetches {
          return true, reply;
        }
        fetches := fetches[uid := Fetch(false, 0, 0)];
      } else if kind == POLL_RESPONSE {
        if uid !in fetches {
          return true, reply;
        }
        if !fetches[uid].done {
          fetches := fetches[uid := arrival];
        }
        var f := fetches[uid];
        reply := reply.(status := f.status, total := f.total);
        if f.total == 0 {
          closed := closed + multiset{uid};
          fetches := fetches - {uid};
        }
      } else if kind == POLL_RESPONSE_BODY {
        if uid !in fetches {
          return true, reply;
        }
        reply := reply.(body := fetches[uid].total);
        closed := closed + multiset{uid};
        fetches := fetches - {uid};
      } else {
        return false, reply;
      }
      reply := reply.(a0 := 0);
      ok := true;
    }
  }

  // ----- the guests -----

  /** Where handle_request stands: before its request, before either poll, or with its answer. */
  datatype Phase = Start | AwaitHead | AwaitBody(size: nat) | Answered(a: Answer)

  datatype Answer = Response(status: nat, body: nat) | RequestFailed | HeadersFailed | BodyFailed | FetchFailed

  /** The yield a phase makes. */
  function Kind(p: Phase): nat
    requires !p.Answered?
  {
    match p case Start => REQUEST case AwaitHead => POLL_RESPONSE case AwaitBody(_) => POLL_RESPONSE_BODY
  }

  /** How a guest goes on after its yield: the status it saw is kept for the answer. */
  function GuestStep(p: Phase, status: nat, r: Reply): Phase
    requires !p.Answered?
  {
    match p
    case Start => if r.a0 != 0 then Answered(RequestFailed) else AwaitHead
    case AwaitHead =>
      if r.a0 != 0 then Answered(HeadersFailed)
      else if r.total > 0 then AwaitBody(r.total)
      else if r.status == 0 then Answered(FetchFailed)
      else Answered(Response(r.status, 0))
    case AwaitBody(n) => if r.a0 != 0 then Answered(BodyFailed) else Answered(Response(status, n))
  }

  /** Host and guests, one guest for each uid. A guest's status is what its response poll returned; a result is what a
      fetch completed with. */
  datatype World = World(fetches: map<nat, Fetch>, closed: multiset<nat>, phases: map<nat, Phase>, status: map<nat,
      nat>, results: map<nat, Fetch>)

  ghost predicate InitWorld(w: World) {
    && w.fetches == map[] && w.closed == multiset{} && w.results == map[]
    && (forall u :: u in w.phases ==> w.phases[u] == Start) && w.status.Keys == w.phases.Keys
  }

  /** A guest may yield; a response poll goes through once its fetch is done. */
  ghost predicate MayYield(w: World, u: nat) {
    && u in w.phases && u in w.status && !w.phases[u].Answered?
    && (w.phases[u].AwaitHead? && u in w.fetches ==> w.fetches[u].done)
  }

  ghost function Yielded(w: World, u: nat): World
    requires MayYield(w, u)
  {
    var o := HostStep(w.fetches, Kind(w.phases[u]), u);
    World(o.fetches, if o.closed then w.closed + multiset{u} else w.closed,
          w.phases[u := GuestStep(w.phases[u], w.status[u], o.reply)],
          if w.phases[u].AwaitHead? then w.status[u := o.reply.status] else w.status, w.results)
  }

  /** A fetch completes. */
  ghost predicate Completes(w: World, w': World, u: nat, f: Fetch) {
    u in w.fetches && !w.fetches[u].done && f.done
        && w' == w.(fetches := w.fetches[u := f], results := w.results[u := f])
  }

  /** A new guest starts with a uid of its own. */
  ghost predicate Arrives(w: World, w': World, u: nat) {
    u !in w.phases && w' == w.(phases := w.phases[u := Start], status := w.status[u := 0])
  }

  ghost predicate Yields(w: World, w': World, u: nat) {
    MayYield(w, u) && w' == Yielded(w, u)
  }

  ghost predicate Next(w: World, w': World) {
    (exists u :: Yields(w, w', u)) || (exists u, f :: Completes(w, w', u, f)) || (exists u :: Arrives(w, w', u))
  }

  /** A guest whose request was accepted and whose fetch is still open. */
  predicate Open(p: Phase) {
    p.AwaitHead? || p.AwaitBody?
  }

  /** The answer a guest must give for what its fetch returned. */
  function AnswerFor(f: Fetch): Answer {
    if f.total == 0 && f.status == 0 then FetchFailed else Response(f.status, f.total)
  }

  /** What holds of a guest: its fetch is in the map exactly while it is open, is closed once, when the guest has
      its answer, and a guest about to poll a body has a finished fetch with a body of just the size it made room for.
      */
  ghost predicate GuestOk(w: World, u: nat) {
    && (u in w.status <==> u in w.phases)
    && (u in w.fetches <==> u in w.phases && Open(w.phases[u]))
    && (u in w.fetches && w.fetches[u].done ==> u in w.results && w.results[u] == w.fetches[u])
    && w.closed[u] == (if u in w.phases && w.phases[u].Answered? then 1 else 0)
    && (u in w.phases && w.phases[u].AwaitBody? ==>
          w.fetches[u].done && w.fetches[u].total == w.phases[u].size > 0 && w.status[u] == w.fetches[u].status)
    && (u in w.phases && w.phases[u].Answered? ==> u in w.results && w.phases[u].a == AnswerFor(w.results[u]))
  }

  ghost predicate Inv(w: World) {
    forall u :: GuestOk(w, u)
  }

  lemma InvInit(w: World)
    requires InitWorld(w)
    ensures Inv(w)
  {
  }

  /** The host performs every yield of a protocol run, and the guest sees zero; a body poll finds a body of the size the
      guest made room for. */
  lemma Performed(w: World, u: nat)
    requires GuestOk(w, u) && MayYield(w, u)
    ensures var o := HostStep(w.fetches, Kind(w.phases[u]), u);
            && o.ok && o.reply.a0 == 0
            && (w.phases[u].Start? ==> u !in w.fetches && u in o.fetches)
            && (w.phases[u].AwaitBody? ==> u in w.fetches && o.reply.body == w.phases[u].size > 0)
  {
  }

  /** A step of the host touches no other uid's fetch. */
  lemma OthersKept(fetches: map<nat, Fetch>, kind: nat, u: nat, v: nat)
    requires (kind == POLL_RESPONSE && u in fetches ==> fetches[u].done) && u != v
    ensures var o := HostStep(fetches, kind, u);
            (v in o.fetches <==> v in fetches) && (v in fetches ==> o.fetches[v] == fetches[v])
  {
  }

  lemma YieldOwn(w: World, u: nat)
    requires GuestOk(w, u) && MayYield(w, u)
    ensures GuestOk(Yielded(w, u), u)
  {
  }

  lemma YieldOther(w: World, u: nat, v: nat)
    requires GuestOk(w, v) && MayYield(w, u) && u != v
    ensures GuestOk(Yielded(w, u), v)
  {
    OthersKept(w.fetches, Kind(w.phases[u]), u, v);
    hide HostStep;
  }

  lemma InvNext(w: World, w': World)
    requires Inv(w) && Next(w, w')
    ensures Inv(w')
  {
    forall v ensures GuestOk(w', v) {
      assert GuestOk(w, v);
      if u :| Yields(w, w', u) {
        assert GuestOk(w, u);
        YieldOwn(w, u);
        if u != v {
          YieldOther(w, u, v);
        }
      } else if u :| Arrives(w, w', u) {
        ArriveKeeps(w, w', u, v);
      } else {
        var u, f :| Completes(w, w', u, f);
        CompleteKeeps(w, w', u, f, v);
      }
    }
  }

  lemma ArriveKeeps(w: World, w': World, u: nat, v: nat)
    requires GuestOk(w, v) && Arrives(w, w', u)
    ensures GuestOk(w', v)
  {
  }

  lemma CompleteKeeps(w: World, w': World, u: nat, f: Fetch, v: nat)
    requires GuestOk(w, v) && Completes(w, w', u, f)
    ensures GuestOk(w', v)
  {
  }

  /** A run: states that follow one another. */
  ghost predicate IsRun(run: seq<World>) {
    run != [] && InitWorld(run[0]) && forall i :: 0 <= i < |run| - 1 ==> Next(run[i], run[i + 1])
  }

  /** In every state of every run. */
  lemma {:induction false} InvRun(run: seq<World>, n: nat)
    requires IsRun(run) && n < |run|
    ensures Inv(run[n])
    decreases n
  {
    if n == 0 {
      InvInit(run[0]);
    } else {
      InvRun(run, n - 1);
      InvNext(run[n - 1], run[n]);
    }
  }

  /** Every answer a guest ever gives is the result of its own fetch, which was closed exactly once and is gone. */
  lemma Answers(run: seq<World>, n: nat, u: nat)
    requires IsRun(run) && n < |run| && u in run[n].phases && run[n].phases[u].Answered?
    ensures u in run[n].results && run[n].phases[u].a == AnswerFor(run[n].results[u]) && run[n].closed[u] == 1
        && u !in run[n].fetches
  {
    InvRun(run, n);
    assert GuestOk(run[n], u);
  }

  /** No fetch leaks: once every guest has its answer, the host holds none. */
  lemma NothingLeft(run: seq<World>, n: nat)
    requires IsRun(run) && n < |run| && forall u :: u in run[n].phases ==> run[n].phases[u].Answered?
    ensures run[n].fetches == map[]
  {
    InvRun(run, n);
    forall u ensures u !in run[n].fetches {
      assert GuestOk(run[n], u);
    }
  }

  /** The guest's zero tells exactly whether the host performed the step, whatever the state: a repeated uid or a
      missing fetch leaves the type in the register. */
  lemma ZeroMeansPerformed(fetches: map<nat, Fetch>, kind: nat, uid: nat)
    requires kind == POLL_RESPONSE && uid in fetches ==> fetches[uid].done
    requires kind == REQUEST || kind == POLL_RESPONSE || kind == POLL_RESPONSE_BODY
    ensures var o := HostStep(fetches, kind, uid);
            && (o.reply.a0 == 0 <==> if kind == REQUEST then uid !in fetches else uid in fetches)
            && (o.reply.a0 != 0 ==> o.fetches == fetches && !o.closed)
            && (o.closed <==> o.fetches == fetches - {uid} && uid in fetches)
  {
  }

  /** How many yields a guest has left at most. */
  function Left(p: Phase): nat {
    match p case Start => 3 case AwaitHead => 2 case AwaitBody(_) => 1 case Answered(_) => 0
  }

  /** Every yield brings its guest closer to its answer, and leaves the other guests where they are. */
  lemma Closer(w: World, u: nat)
    requires MayYield(w, u)
    ensures var w' := Yielded(w, u);
            w'.phases.Keys == w.phases.Keys && Left(w'.phases[u]) < Left(w.phases[u])
            && forall v :: v in w.phases && v != u ==> w'.phases[v] == w.phases[v]
  {
  }

  /** No guest is stuck: in every state of every run one that has no answer may yield, or waits for a fetch that
      can complete. */
  lemma NoneStuck(run: seq<World>, n: nat, u: nat)
    requires IsRun(run) && n < |run| && u in run[n].phases && !run[n].phases[u].Answered?
    ensures MayYield(run[n], u) || exists w', f :: Completes(run[n], w', u, f)
  {
    InvRun(run, n);
    var w := run[n];
    assert GuestOk(w, u);
    if !MayYield(w, u) {
      var f := Fetch(true, 0, 0);
      assert Completes(w, w.(fetches := w.fetches[u := f], results := w.results[u := f]), u, f);
    }
  }
}
