/** How far runs of the end-to-end system go (cli/src/rpc.rs, 453-524 and 531-631;
    cli/src/msgpack_rpc.rs, 66-110): what the peer sends causes a bounded number of steps, and a
    run that cannot go on has delivered everything, unless the receive task is held up. */
module EndToEndProgress {
  import opened Common
  import opened StreamTable
  import opened StreamRuns
  import opened StreamProperties
  import opened EndToEnd

  // ---- What a stream still costs ----

  /** A bound on the steps a stream frame causes once it is sent. */
  function FrameWeight(f: Frame): nat {
    match f
    case Data(_, segment) => 3 * |segment| + 6
    case Ended(_) => 3
    case _ => 0
  }

  function WeightFor(f: Frame, id: u32): nat {
    if About(f) == Some(id) then FrameWeight(f) else 0
  }

  function ChanWeight(chan: seq<Frame>, id: u32): nat {
    if chan == [] then 0 else WeightFor(chan[0], id) + ChanWeight(chan[1..], id)
  }

  lemma {:induction false} ChanWeightPush(chan: seq<Frame>, f: Frame, id: u32)
    ensures ChanWeight(chan + [f], id) == ChanWeight(chan, id) + WeightFor(f, id)
    decreases |chan|
  {
    hide WeightFor;
    if chan == [] {
      assert chan + [f] == [f] && [f][1..] == [];
    } else {
      assert (chan + [f])[0] == chan[0] && (chan + [f])[1..] == chan[1..] + [f];
      ChanWeightPush(chan[1..], f, id);
    }
  }

  ghost function LeftFor(s: State, id: u32): nat
    requires Inv(s)
  {
    if id in s.current then Left(ViewOf(s, s.current[id])) else 0
  }

  /** A bound on the steps still to be taken for a stream, by the receive loop, its end task and
      its write loop together. */
  ghost function Potential(n: Net, id: u32): nat
    requires Inv(n.streams)
  {
    ChanWeight(n.chan, id) + (if id in n.enders then 2 else 0) + LeftFor(n.streams, id)
  }

  /** The act is a step for stream `id` on this side. */
  predicate For(n: Net, a: Act, id: u32)
    requires Can(n, a)
  {
    match a
    case Handle => About(n.chan[0]) == Some(id)
    case RunEnder(i) => i == id
    case Inside(e) => TaskEvent(e) && id in n.streams.current && Subject(n.streams, e) == Some(n.streams.current[id])
    case _ => false
  }

  /** What the peer adds to a stream's potential. */
  function Brought(a: Act, id: u32): nat {
    if PeerAct(a) then WeightFor(FrameOf(a), id) else 0
  }

  lemma {:induction false} WeightPush(q: seq<Buf>, buf: Buf)
    ensures Weight(q + [buf]) == Weight(q) + |buf| + 1
  {
    if q == [] {
      assert q + [buf] == [buf] && [buf][1..] == [];
    } else {
      assert (q + [buf])[1..] == q[1..] + [buf];
      WeightPush(q[1..], buf);
    }
  }

  /** How much a step may add to what is left of its subject. */
  function Added(e: Event): int {
    match e
    case Write(_, buf) => 3 * |buf| + 5
    case Remove(_) => 1
    case PeerDrops(_) => 0
    case _ => -1
  }

  lemma ViewLeft(v: View, e: Event)
    requires HalfOk(v) && EnabledOn(v, e)
    ensures Left(StepView(v, e)) <= Left(v) + Added(e)
  {
    if e.Write? { WeightPush(v.rec.value.q, e.buf); }
    if TaskEvent(e) { StepShrinks(v, e); }
  }

  lemma LeftOfStep(s: State, e: Event, id: u32)
    requires Inv(s) && Enabled(s, e) && !e.Insert?
    ensures Inv(Next(s, e))
    ensures LeftFor(Next(s, e), id) <= LeftFor(s, id) +
              if id in s.current && Subject(s, e) == Some(s.current[id]) then Added(e) else 0
  {
    hide Left, StepView, HalfOk, Next, EnabledOn, ViewOf;
    StepKeepsInv(s, e);
    CurrentStays(s, e);
    if id in s.current {
      CurrentHalf(s, id);
      var w := s.current[id];
      StepSeenBy(s, e, w);
      if Subject(s, e) == Some(w) { ViewLeft(ViewOf(s, w), e); }
    }
  }

  lemma LeftOfInsert(s: State, id0: u32, w: Handle, id: u32)
    requires Inv(s) && w !in s.halves && id0 !in s.current && id0 !in s.recs
    ensures Inv(Next(s, Insert(id0, w)))
    ensures LeftFor(Next(s, Insert(id0, w)), id) == LeftFor(s, id)
  {
    hide ViewOf, Inv;
    StepKeepsInv(s, Insert(id0, w));
    InsertedView(s, id0, w);
    if id in s.current { CurrentHalf(s, id); }
  }

  lemma InsertedView(s: State, id: u32, w: Handle)
    requires Inv(s) && w !in s.halves && id !in s.recs
    ensures var s' := Next(s, Insert(id, w));
            && s'.current == s.current[id := w] && w in s'.halves && Left(ViewOf(s', w)) == 0
            && forall x | x in s.halves :: x in s'.halves && ViewOf(s', x) == ViewOf(s, x)
  {
    hide ViewOf;
    InsertIsLocal(s, id, w);
  }

  lemma OnlyOneSubject(s: State, e: Event, id: u32)
    requires Inv(s) && Enabled(s, e) && (e.Write? || e.Remove?) && id in s.current && id != e.id
    ensures Subject(s, e) != Some(s.current[id])
  {
    CurrentHalf(s, id);
  }

  lemma PeerShrinks(n: Net, a: Act, id: u32)
    requires NetInv(n) && Can(n, a) && PeerAct(a)
    ensures Inv(Do(n, a).streams) && !For(n, a, id)
    ensures Potential(Do(n, a), id) == Potential(n, id) + Brought(a, id)
  {
    hide Inv, LeftFor;
    ChanWeightPush(n.chan, FrameOf(a), id);
  }

  lemma HandleShrinks(n: Net, id: u32)
    requires NetInv(n) && Can(n, Handle)
    ensures Inv(Do(n, Handle).streams)
    ensures Potential(Do(n, Handle), id) <= Potential(n, id) - if For(n, Handle, id) then 1 else 0
  {
    hide Inv, LeftFor, Next, Subject;
    var f := n.chan[0];
    if f.Data? {
      var e := Write(f.id, f.segment);
      LeftOfStep(n.streams, e, id);
      if id in n.streams.current && id != f.id { OnlyOneSubject(n.streams, e, id); }
    }
  }

  lemma TaskShrinks(n: Net, a: Act, id: u32)
    requires NetInv(n) && Can(n, a) && TaskAct(a)
    ensures Inv(Do(n, a).streams)
    ensures Potential(Do(n, a), id) <= Potential(n, id) - if For(n, a, id) then 1 else 0
  {
    hide Inv, Next, LeftFor, Subject;
    var e := EventOf(a);
    LeftOfStep(n.streams, e, id);
    if a.RunEnder? && id in n.streams.current && id != a.id { OnlyOneSubject(n.streams, e, id); }
  }

  lemma InsertShrinks(n: Net, w: Handle, id: u32)
    requires NetInv(n) && Can(n, InsertNext(w))
    ensures Inv(Do(n, InsertNext(w)).streams)
    ensures Potential(Do(n, InsertNext(w)), id) == Potential(n, id)
  {
    hide Inv, Next, LeftFor;
    FreshStream(n, n.mode.ids[0]);
    assert n.mode.ids[0] in n.mode.ids;
    LeftOfInsert(n.streams, n.mode.ids[0], w, id);
  }

  lemma ActShrinks(n: Net, a: Act, id: u32)
    requires NetInv(n) && Can(n, a)
    ensures NetInv(Do(n, a))
    ensures Potential(Do(n, a), id) <= Potential(n, id) + Brought(a, id) - if For(n, a, id) then 1 else 0
  {
    hide Potential, Inv;
    ActKeepsInv(n, a);
    if PeerAct(a) {
      PeerShrinks(n, a, id);
    } else if TaskAct(a) {
      TaskShrinks(n, a, id);
    } else {
      match a {
        case Handle => HandleShrinks(n, id);
        case InsertNext(w) => InsertShrinks(n, w, id);
        case _ => QueueKeepsPotential(n, a, id);
      }
    }
  }

  lemma QueueKeepsPotential(n: Net, a: Act, id: u32)
    requires NetInv(n) && Can(n, a) && QueueAct(a)
    ensures Inv(Do(n, a).streams) && Potential(Do(n, a), id) == Potential(n, id)
  {}

  ghost function StepsFor(n: Net, acts: seq<Act>, id: u32): nat
    requires CanAll(n, acts)
    decreases |acts|
  {
    if acts == [] then 0
    else (if For(n, acts[0], id) then 1 else 0) + StepsFor(Do(n, acts[0]), acts[1..], id)
  }

  function BroughtBy(acts: seq<Act>, id: u32): nat {
    if acts == [] then 0 else Brought(acts[0], id) + BroughtBy(acts[1..], id)
  }

  /** Whatever else runs and whether or not its other end stays, a stream takes at most as many
      steps as its potential and what the peer still sends for it allow. */
  lemma {:induction false} StreamsAreFinite(n: Net, acts: seq<Act>, id: u32)
    requires NetInv(n) && CanAll(n, acts)
    ensures NetInv(DoAll(n, acts))
    ensures StepsFor(n, acts, id) + Potential(DoAll(n, acts), id) <= Potential(n, id) + BroughtBy(acts, id)
    decreases |acts|
  {
    hide Potential, For, Can, Do, Brought, Inv, Announced, Framed, Carried;
    if acts != [] {
      ActShrinks(n, acts[0], id);
      StreamsAreFinite(Do(n, acts[0]), acts[1..], id);
    }
  }

  // ---- What the receive task still has to do ----

  function LoopSteps(f: Frame): nat {
    match f
    case Request(k) => 4 + k
    case Plain(_) => 4
    case _ => 3
  }

  function LoopWeight(chan: seq<Frame>): nat {
    if chan == [] then 0 else LoopSteps(chan[0]) + LoopWeight(chan[1..])
  }

  lemma {:induction false} LoopWeightPush(chan: seq<Frame>, f: Frame)
    ensures LoopWeight(chan + [f]) == LoopWeight(chan) + LoopSteps(f)
    decreases |chan|
  {
    if chan == [] {
      assert chan + [f] == [f] && [f][1..] == [];
    } else {
      assert (chan + [f])[0] == chan[0] && (chan + [f])[1..] == chan[1..] + [f];
      LoopWeightPush(chan[1..], f);
    }
  }

  function ModeWeight(m: Mode): nat {
    match m
    case Select => 1
    case Drain(left) => if left > 0 then 0 else 2
    case Register(_, ids) => 2 + |ids|
  }

  function LoopPotential(n: Net): nat {
    LoopWeight(n.chan) + |n.queue| + ModeWeight(n.mode)
  }

  predicate LoopAct(a: Act) {
    a.Read? || a.Handle? || a.InsertNext? || a.DrainDone? || a.Dequeue?
  }

  /** What others add to the receive task's work. */
  function LoopBrought(a: Act): nat {
    if PeerAct(a) then LoopSteps(FrameOf(a)) else if a.SenderEnqueues? then 1 else 0
  }

  lemma LoopShrinks(n: Net, a: Act)
    requires Can(n, a)
    ensures LoopPotential(Do(n, a)) <= LoopPotential(n) + LoopBrought(a) - if LoopAct(a) then 1 else 0
  {
    hide Next;
    if PeerAct(a) { LoopWeightPush(n.chan, FrameOf(a)); }
    if a.Handle? && n.chan[0].Request? {
      assert |ReceiveLoop.StreamIds(n.nextId, n.chan[0].streams)| == n.chan[0].streams;
    }
  }

  function LoopStepsIn(acts: seq<Act>): nat {
    if acts == [] then 0 else (if LoopAct(acts[0]) then 1 else 0) + LoopStepsIn(acts[1..])
  }

  function LoopBroughtBy(acts: seq<Act>): nat {
    if acts == [] then 0 else LoopBrought(acts[0]) + LoopBroughtBy(acts[1..])
  }

  /** The receive task, too, takes a number of steps bounded by what others hand it. */
  lemma {:induction false} LoopIsFinite(n: Net, acts: seq<Act>)
    requires CanAll(n, acts)
    ensures LoopStepsIn(acts) + LoopPotential(DoAll(n, acts)) <= LoopPotential(n) + LoopBroughtBy(acts)
    decreases |acts|
  {
    hide LoopPotential, LoopBrought, LoopAct, Can, Do;
    if acts != [] {
      LoopShrinks(n, acts[0]);
      LoopIsFinite(Do(n, acts[0]), acts[1..]);
    }
  }

  // ---- A run that cannot go on has delivered everything ----

  /** Nothing but what the peer, the senders and departing other ends may do is possible. */
  ghost predicate Stuck(n: Net) {
    forall a | Can(n, a) :: PeerAct(a) || a.SenderEnqueues? || a.TakeIds? || (a.Inside? && a.e.PeerDrops?)
  }

  /** The receive task waits for room in its own full queue, or has run out of ids. */
  predicate HeldUp(n: Net) {
    n.mode.Drain? && n.mode.left > 0 && n.chan != [] && !Room(n, n.chan[0])
  }

  lemma FreshHandle(halves: map<Handle, Half>) returns (w: Handle)
    ensures w !in halves
  {
    w := Above(halves.Keys);
    assert w !in halves.Keys;
  }

  lemma {:induction false} Above(ws: set<Handle>) returns (w: Handle)
    ensures forall x | x in ws :: x < w
    decreases ws
  {
    if ws == {} {
      w := 0;
    } else {
      var x :| x in ws;
      var y := Above(ws - {x});
      w := if x < y then y else x + 1;
      forall z | z in ws ensures z < w { assert z == x || z in ws - {x}; }
    }
  }

  /** A receive task that is not held up ends in its select, with nothing to read or write. */
  lemma LoopAtRest(n: Net)
    requires NetInv(n) && Stuck(n) && !HeldUp(n)
    ensures n.mode.Select? && n.chan == [] && n.queue == []
  {
    hide Inv, Carried, Announced;
    match n.mode {
      case Select =>
        assert !Can(n, Read(|n.chan|));
        assert !Can(n, Dequeue);
      case Drain(left) =>
        DrainGoesOn(n);
        assert false;
      case Register(_, _) =>
        var w := FreshHandle(n.streams.halves);
        assert !Can(n, InsertNext(w));
        StillToInsert(n);
        assert false;
    }
  }

  lemma DrainGoesOn(n: Net)
    requires NetInv(n) && n.mode.Drain? && !HeldUp(n)
    ensures Can(n, DrainDone) || Can(n, Handle)
  {}

  lemma StillToInsert(n: Net)
    requires NetInv(n) && n.mode.Register?
    ensures n.mode.ids != []
  {}

  lemma TasksAtRest(n: Net, w: Handle)
    requires Stuck(n)
    ensures n.enders == {} && Resting(n.streams, w)
  {
    forall i ensures i !in n.enders { assert !Can(n, RunEnder(i)); }
    forall e | TaskEvent(e) ensures !Enabled(n.streams, e) { assert !Can(n, Inside(e)); }
  }

  lemma AllTold(n: Net, id: u32)
    requires NetInv(n) && n.queue == []
    ensures id in n.sent <==> id in n.streams.current
  {
    hide Inv, Carried;
    if id in n.streams.current { assert Known(n, id); }
  }

  /** However the system ran, once it can go on only if others act, either the receive task is
      held up in the middle of a drain, or everything is done: every message is written out, the
      peer knows of every stream, and the half of every stream has got all the bytes the peer
      sent for it, if its other end stayed, and was shut down once if the peer ended the stream
      and is parked if not. */
  lemma StuckMeansDelivered(acts: seq<Act>, id: u32)
    requires CanAll(START, acts) && Stuck(DoAll(START, acts)) && !HeldUp(DoAll(START, acts))
    ensures var n := DoAll(START, acts);
            && n.chan == [] && n.queue == []
            && (id in n.sent <==> id in n.streams.current)
            && (id in n.streams.current ==>
                  n.streams.current[id] in n.streams.halves &&
                  var half := HalfFor(n.streams, id);
                  && half.delivered <= SentBy(acts, id)
                  && (!half.broken ==> half.delivered == SentBy(acts, id))
                  && (if PeerEnds(id) in acts then half.shutdowns == 1 && id !in n.streams.recs
                      else id in n.streams.recs && half.shutdowns == 0))
  {
    hide Inv, Carried;
    ReachableNet(acts);
    var n := DoAll(START, acts);
    SentIsWhatPeerSent(acts, id);
    LoopAtRest(n);
    AllTold(n, id);
    if id in n.streams.current {
      TasksAtRest(n, n.streams.current[id]);
      InFull(n, id);
      InOrder(n, id);
    }
  }
}
