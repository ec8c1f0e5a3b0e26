/** What a frame costs the write queue is what gets enqueued for it (cli/src/msgpack_rpc.rs,
    71-97, and cli/src/rpc.rs, 453-524): over every run of the receive loop, replies,
    announcements and the messages of stream readers add up to the costs of the frames
    received, less the replies still owed. */
module MessageCosts {
  import opened Common
  import opened Backpressure

  import ReceiveLoop

  /** The frame that opened stream `id`, as far as the log shows. */
  function Opener(log: seq<ReceiveLoop.Out>, id: u32): Option<nat> {
    if log == [] then None
    else
      var out := log[|log| - 1];
      if out.StreamsStarted? && id in out.ids then Some(out.ticket) else Opener(log[..|log| - 1], id)
  }

  /** The message was sent by a reader of a stream that frame `k` opened. */
  predicate SentFor(log: seq<ReceiveLoop.Out>, out: ReceiveLoop.Out, k: nat) {
    match out
    case StreamData(id, _) => Opener(log, id) == Some(k)
    case StreamEnded(id) => Opener(log, id) == Some(k)
    case _ => false
  }

  /** How many messages the stream readers of frame `k` have enqueued. */
  function StreamMessages(log: seq<ReceiveLoop.Out>, k: nat): nat {
    if log == [] then 0
    else
      var before := log[..|log| - 1];
      StreamMessages(before, k) + if SentFor(before, log[|log| - 1], k) then 1 else 0
  }

  lemma LogPush(log: seq<ReceiveLoop.Out>, out: ReceiveLoop.Out)
    ensures forall k :: StreamMessages(log + [out], k) == StreamMessages(log, k) + if SentFor(log, out, k) then 1 else 0
    ensures forall id :: Opener(log + [out], id)
                      == if out.StreamsStarted? && id in out.ids then Some(out.ticket) else Opener(log, id)
  {
    var longer := log + [out];
    assert longer[..|longer| - 1] == log && longer[|longer| - 1] == out;
  }

  function CostAt(s: ReceiveLoop.State, k: nat): Cost
    requires k < |s.received|
  {
    CostOf(s.methods, s.received[k], StreamMessages(s.log, k))
  }

  /** The costs of all frames received so far, readers included. */
  function Costs(s: ReceiveLoop.State): seq<Cost> {
    seq(|s.received|, k requires 0 <= k < |s.received| => CostAt(s, k))
  }

  /** Frames whose reply a spawned future has yet to enqueue. */
  function Owed(s: ReceiveLoop.State): set<nat> {
    set k | k in s.pending && k < |s.received| && s.received[k].id.Some?
  }

  ghost predicate OpenersOk(s: ReceiveLoop.State) {
    && (forall id: u32 :: Opener(s.log, id).Some? ==> Opener(s.log, id).value < |s.received|)
    && (forall id | id in s.readers :: OpenedBy(s, id))
    && (forall k: nat | |s.received| <= k :: StreamMessages(s.log, k) == 0)
  }

  ghost predicate OpenedBy(s: ReceiveLoop.State, id: u32) {
    Opener(s.log, id).Some? && var k := Opener(s.log, id).value;
    k < |s.received| && ReceiveLoop.OpensStreams(s.methods, s.received[k])
  }

  ghost predicate Balanced(s: ReceiveLoop.State) {
    |s.log| + |Owed(s)| == Total(Costs(s))
  }

  lemma {:induction false} TotalPush(fs: seq<Cost>, c: Cost)
    ensures Total(fs + [c]) == Total(fs) + (if c.direct then 1 else 0) + c.later
  {
    if fs == [] {
      assert fs + [c] == [c] && [c][1..] == [];
    } else {
      assert (fs + [c])[1..] == fs[1..] + [c];
      TotalPush(fs[1..], c);
    }
  }

  lemma {:induction false} TotalRaised(fs: seq<Cost>, k: nat)
    requires k < |fs|
    ensures Total(fs[k := fs[k].(later := fs[k].later + 1)]) == Total(fs) + 1
  {
    var raised := fs[k := fs[k].(later := fs[k].later + 1)];
    if k == 0 {
      assert raised[1..] == fs[1..];
    } else {
      assert raised[1..] == fs[1..][k - 1 := fs[1..][k - 1].(later := fs[1..][k - 1].later + 1)];
      TotalRaised(fs[1..], k - 1);
    }
  }

  /** Enqueuing anything but a reader's message leaves the costs of earlier frames alone. */
  lemma SameCosts(s: ReceiveLoop.State, s': ReceiveLoop.State)
    requires s'.methods == s.methods && s'.received == s.received
    requires s'.log == s.log || (|s'.log| == |s.log| + 1 && s'.log[..|s.log|] == s.log && !s'.log[|s.log|].StreamData?
                                 && !s'.log[|s.log|].StreamEnded?)
    ensures Costs(s') == Costs(s)
  {
    if s'.log != s.log {
      LogPush(s.log, s'.log[|s.log|]);
      assert s'.log == s.log + [s'.log[|s.log|]];
    }
  }

  lemma CostsPush(s: ReceiveLoop.State, m: ReceiveLoop.Incoming)
    requires OpenersOk(s) && ReceiveLoop.Enabled(s, ReceiveLoop.Receive(m))
    ensures Costs(ReceiveLoop.Next(s, ReceiveLoop.Receive(m))) == Costs(s) + [CostOf(s.methods, m, 0)]
  {
    hide CostOf, StreamMessages, Opener;
    var s' := ReceiveLoop.Next(s, ReceiveLoop.Receive(m));
    if s'.log != s.log {
      LogPush(s.log, s'.log[|s.log|]);
      assert s'.log == s.log + [s'.log[|s.log|]];
    }
  }

  /** What the receive step enqueues itself, and whether it leaves a future behind. */
  lemma ReceiveEnqueues(s: ReceiveLoop.State, m: ReceiveLoop.Incoming)
    requires ReceiveLoop.Enabled(s, ReceiveLoop.Receive(m))
    ensures var s', cost := ReceiveLoop.Next(s, ReceiveLoop.Receive(m)), CostOf(s.methods, m, 0);
            |s'.log| == |s.log| + (if cost.direct then 1 else 0)
  {
    hide ReceiveLoop.StreamIds;
  }

  lemma ReceiveSpawns(s: ReceiveLoop.State, m: ReceiveLoop.Incoming)
    requires ReceiveLoop.Enabled(s, ReceiveLoop.Receive(m))
    ensures var s', cost := ReceiveLoop.Next(s, ReceiveLoop.Receive(m)), CostOf(s.methods, m, 0);
            && s'.received == s.received + [m] && cost.later <= 1
            && (m.id.Some? ==>
                  s'.pending.Keys == s.pending.Keys + if cost.later == 1 then {|s.received|} else {})
            && (m.id.None? ==> cost.later == 0 && s'.pending.Keys <= s.pending.Keys + {|s.received|}
                               && s.pending.Keys <= s'.pending.Keys)
  {
    hide ReceiveLoop.StreamIds;
  }

  lemma OwedByNewFrame(s: ReceiveLoop.State, m: ReceiveLoop.Incoming)
    requires ReceiveLoop.Inv(s) && ReceiveLoop.Enabled(s, ReceiveLoop.Receive(m))
    ensures var s', cost := ReceiveLoop.Next(s, ReceiveLoop.Receive(m)), CostOf(s.methods, m, 0);
            && |s'.log| == |s.log| + (if cost.direct then 1 else 0)
            && Owed(s') == Owed(s) + (if cost.later == 1 then {|s.received|} else {})
            && cost.later <= 1 && |s.received| !in Owed(s)
  {
    hide ReceiveLoop.Next, ReceiveLoop.Inv, CostOf;
    NoneOwedYet(s);
    ReceiveEnqueues(s, m);
    ReceiveSpawns(s, m);
    var s' := ReceiveLoop.Next(s, ReceiveLoop.Receive(m));
    forall k ensures k in Owed(s') <==> k in Owed(s) || (CostOf(s.methods, m, 0).later == 1 && k == |s.received|) {
      assert k in s'.pending <==> k in s'.pending.Keys;
      assert k in s.pending <==> k in s.pending.Keys;
    }
  }

  lemma NoneOwedYet(s: ReceiveLoop.State)
    requires ReceiveLoop.Inv(s)
    ensures forall k | k in s.pending :: k < |s.received|
  {}

  lemma ReceiveBalanced(s: ReceiveLoop.State, m: ReceiveLoop.Incoming)
    requires ReceiveLoop.Inv(s) && OpenersOk(s) && Balanced(s) && ReceiveLoop.Enabled(s, ReceiveLoop.Receive(m))
    ensures Balanced(ReceiveLoop.Next(s, ReceiveLoop.Receive(m)))
  {
    hide ReceiveLoop.Inv, ReceiveLoop.Next, Costs, Owed, CostOf, Total, OpenersOk;
    CostsPush(s, m);
    TotalPush(Costs(s), CostOf(s.methods, m, 0));
    OwedByNewFrame(s, m);
  }

  lemma OwedNoMore(s: ReceiveLoop.State, k: nat, ok: bool)
    requires ReceiveLoop.Inv(s) && k in s.pending
    ensures var s' := ReceiveLoop.Next(s, ReceiveLoop.Complete(k, ok));
            && Owed(s') == Owed(s) - {k} && |s'.log| == |s.log| + (if k in Owed(s) then 1 else 0)
            && s'.methods == s.methods && s'.received == s.received && s'.log[..|s.log|] == s.log
            && (s'.log != s.log ==> s'.log[|s.log|].Answer?)
  {
    assert ReceiveLoop.TicketOk(s, k);
  }

  lemma CompleteBalanced(s: ReceiveLoop.State, k: nat, ok: bool)
    requires ReceiveLoop.Inv(s) && Balanced(s) && k in s.pending
    ensures Balanced(ReceiveLoop.Next(s, ReceiveLoop.Complete(k, ok)))
  {
    hide ReceiveLoop.Inv, ReceiveLoop.Next, Costs, Owed, Total;
    var s' := ReceiveLoop.Next(s, ReceiveLoop.Complete(k, ok));
    OwedNoMore(s, k, ok);
    SameCosts(s, s');
  }

  predicate ReaderEvent(e: ReceiveLoop.Event) {
    e.Read? || e.ReadEnd?
  }

  lemma CostsRaised(s: ReceiveLoop.State, e: ReceiveLoop.Event)
    requires OpenersOk(s) && ReceiveLoop.Enabled(s, e) && ReaderEvent(e)
    ensures OpenedBy(s, e.id)
    ensures var k, cs := Opener(s.log, e.id).value, Costs(s);
            k < |cs| && Costs(ReceiveLoop.Next(s, e)) == cs[k := cs[k].(later := cs[k].later + 1)]
  {
    hide StreamMessages, Opener;
    var s' := ReceiveLoop.Next(s, e);
    LogPush(s.log, s'.log[|s.log|]);
    assert OpenedBy(s, e.id);
  }

  lemma ReadBalanced(s: ReceiveLoop.State, e: ReceiveLoop.Event)
    requires OpenersOk(s) && Balanced(s) && ReceiveLoop.Enabled(s, e) && ReaderEvent(e)
    ensures Balanced(ReceiveLoop.Next(s, e))
  {
    hide Costs, Total, OpenersOk, Opener;
    CostsRaised(s, e);
    TotalRaised(Costs(s), Opener(s.log, e.id).value);
    assert Owed(ReceiveLoop.Next(s, e)) == Owed(s);
  }

  lemma OpenersStay(s: ReceiveLoop.State, e: ReceiveLoop.Event)
    requires OpenersOk(s) && ReceiveLoop.Enabled(s, e)
    ensures OpenersOk(ReceiveLoop.Next(s, e))
  {
    hide StreamMessages, Opener, ReceiveLoop.Next, ReceiveLoop.OpensStreams, ReceiveLoop.StreamIds;
    var s' := ReceiveLoop.Next(s, e);
    ReceiveLoop.StepMoves(s, e);
    if s'.log != s.log { LogPush(s.log, s'.log[|s.log|]); }
    forall id | id in s'.readers ensures OpenedBy(s', id) {
      if id in s.readers { assert OpenedBy(s, id); }
    }
  }

  lemma StepBalanced(s: ReceiveLoop.State, e: ReceiveLoop.Event)
    requires ReceiveLoop.Inv(s) && OpenersOk(s) && Balanced(s) && ReceiveLoop.Enabled(s, e)
    ensures Balanced(ReceiveLoop.Next(s, e))
  {
    hide ReceiveLoop.Inv, OpenersOk, Balanced, ReceiveLoop.Next;
    match e {
      case Receive(m) => ReceiveBalanced(s, m);
      case Complete(k, ok) => CompleteBalanced(s, k, ok);
      case Read(_, _) => ReadBalanced(s, e);
      case ReadEnd(_) => ReadBalanced(s, e);
    }
  }

  lemma {:induction false} RunBalanced(s: ReceiveLoop.State, evs: seq<ReceiveLoop.Event>)
    requires ReceiveLoop.Inv(s) && OpenersOk(s) && Balanced(s) && ReceiveLoop.Runs(s, evs)
    ensures Balanced(ReceiveLoop.Exec(s, evs))
    decreases |evs|
  {
    hide ReceiveLoop.Inv, OpenersOk, Balanced, ReceiveLoop.Next;
    if evs != [] {
      StepBalanced(s, evs[0]);
      OpenersStay(s, evs[0]);
      ReceiveLoop.StepKeepsInv(s, evs[0]);
      RunBalanced(ReceiveLoop.Next(s, evs[0]), evs[1..]);
    }
  }

  /** In every reachable state, what was enqueued and what spawned futures still owe together are
      the costs of the frames received, each with the messages its own stream readers sent. */
  lemma CostIsWhatIsEnqueued(methods: map<string, ReceiveLoop.Method>, evs: seq<ReceiveLoop.Event>)
    requires ReceiveLoop.Runs(ReceiveLoop.Init(methods), evs)
    ensures var s := ReceiveLoop.Exec(ReceiveLoop.Init(methods), evs);
            |s.log| + |Owed(s)| == Total(Costs(s))
  {
    var start := ReceiveLoop.Init(methods);
    assert Owed(start) == {} && Costs(start) == [];
    RunBalanced(start, evs);
  }
}
