/** Streams carried end to end (cli/src/rpc.rs, 279-291 and 453-524, and
    cli/src/msgpack_rpc.rs, 59-110).  The receive task announces the streams of a duplex call on
    the write queue and inserts them one by one before it handles another frame; it alone
    empties that queue, between drains.  The peer sends for a stream once it has been told of
    it.  Data is handled inline, `stream_ended` is spawned as a task of its own, and all of it
    runs on top of every interleaving of the write loops. */
module EndToEnd {
  import opened Common
  import opened StreamTable
  import opened StreamRuns
  import opened StreamProperties

  import Backpressure
  import Calls
  import ReceiveLoop

  /** What the peer sends: a duplex call opening that many streams, the frames of a stream, or
      anything else, for which the receive task itself enqueues a message or does not. */
  datatype Frame = Request(streams: nat) | Data(id: u32, segment: seq<byte>) | Ended(id: u32) | Plain(direct: bool)

  /** What is on the write queue: a `streams_started`, or any other message. */
  datatype Message = Announcement(ids: seq<u32>) | Other

  /** Where the receive task is: in its select, handling the decoded frames (`left` are still to
      be handled), or in `register_stream` with `ids` still to be inserted. */
  datatype Mode = Select | Drain(left: nat) | Register(left: nat, ids: seq<u32>)

  /** What the peer has sent for a stream. */
  datatype Sent = Sent(bytes: seq<byte>, over: bool)

  datatype Net = Net(
    chan: seq<Frame>,          // sent by the peer and not yet handled, oldest first
    mode: Mode,
    queue: seq<Message>,
    sent: map<u32, Sent>,      // for each stream the peer has been told of
    enders: set<u32>,          // spawned `stream_ended` tasks that have not taken the lock yet
    nextId: nat,               // the id counter, short of wrapping
    streams: State)

  datatype Act =
    | PeerCalls(f: Frame)
    | PeerSends(id: u32, segment: seq<byte>)
    | PeerEnds(id: u32)
    | Read(k: nat)             // a read completes k frames
    | Handle                   // the oldest frame is dispatched
    | InsertNext(w: Handle)    // the next insert of register_stream
    | DrainDone
    | Dequeue                  // the oldest message is written out to the peer
    | SenderEnqueues           // a reader task or a spawned future sends a message
    | TakeIds(k: nat)          // other users of the id counter
    | RunEnder(id: u32)        // a spawned stream_ended task calls remove
    | Inside(e: Event)         // a step of a write loop, or a peer going away

  const START := Net([], Select, [], map[], {}, 0, INITIAL)

  /** The receive task itself enqueues a message for the frame. */
  predicate Direct(f: Frame) {
    f.Request? || (f.Plain? && f.direct)
  }

  /** The queue has room for what handling the frame enqueues, and the counter has the ids. */
  predicate Room(n: Net, f: Frame) {
    && (Direct(f) ==> |n.queue| < Backpressure.CAPACITY)
    && (f.Request? ==> n.nextId + f.streams <= Calls.ID_LIMIT)
  }

  predicate Can(n: Net, a: Act) {
    match a
    case PeerCalls(f) => f.Request? || f.Plain?
    case PeerSends(id, _) => id in n.sent && !n.sent[id].over
    case PeerEnds(id) => id in n.sent && !n.sent[id].over
    case Read(k) => n.mode.Select? && 0 < k <= |n.chan|
    case Handle => n.mode.Drain? && n.mode.left > 0 && n.chan != [] && Room(n, n.chan[0])
    case InsertNext(w) => n.mode.Register? && n.mode.ids != [] && w !in n.streams.halves
    case DrainDone => n.mode == Drain(0)
    case Dequeue => n.mode.Select? && n.queue != []
    case SenderEnqueues => |n.queue| < Backpressure.CAPACITY
    case TakeIds(k) => n.nextId + k <= Calls.ID_LIMIT
    case RunEnder(id) => id in n.enders
    case Inside(e) => (TaskEvent(e) || e.PeerDrops?) && Enabled(n.streams, e)
  }

  function Registering(left: nat, ids: seq<u32>): Mode {
    if ids == [] then Drain(left) else Register(left, ids)
  }

  function AfterHandle(n: Net, f: Frame): Net
    requires n.mode.Drain? && n.mode.left > 0 && n.chan != [] && Room(n, f)
  {
    var left := n.mode.left - 1;
    var n1 := n.(chan := n.chan[1..], mode := Drain(left));
    match f
    case Request(k) =>
      var ids := ReceiveLoop.StreamIds(n.nextId, k);
      n1.(queue := n.queue + [Announcement(ids)], mode := Registering(left, ids), nextId := n.nextId + k)
    case Data(id, segment) => n1.(streams := Next(n.streams, Write(id, segment)))
    case Ended(id) => n1.(enders := n.enders + {id})
    case Plain(direct) => if direct then n1.(queue := n.queue + [Other]) else n1
  }

  /** The peer learns of `ids`. */
  function Told(sent: map<u32, Sent>, ids: seq<u32>): map<u32, Sent> {
    (map id | id in ids :: Sent([], false)) + sent
  }

  function Do(n: Net, a: Act): Net
    requires Can(n, a)
  {
    match a
    case PeerCalls(f) => n.(chan := n.chan + [f])
    case PeerSends(id, segment) =>
      n.(chan := n.chan + [Data(id, segment)],
         sent := n.sent[id := n.sent[id].(bytes := n.sent[id].bytes + segment)])
    case PeerEnds(id) => n.(chan := n.chan + [Ended(id)], sent := n.sent[id := n.sent[id].(over := true)])
    case Read(k) => n.(mode := Drain(k))
    case Handle => AfterHandle(n, n.chan[0])
    case InsertNext(w) =>
      n.(streams := Next(n.streams, Insert(n.mode.ids[0], w)), mode := Registering(n.mode.left, n.mode.ids[1..]))
    case DrainDone => n.(mode := Select)
    case Dequeue =>
      n.(queue := n.queue[1..],
         sent := match n.queue[0] case Announcement(ids) => Told(n.sent, ids) case Other => n.sent)
    case SenderEnqueues => n.(queue := n.queue + [Other])
    case TakeIds(k) => n.(nextId := n.nextId + k)
    case RunEnder(id) => n.(enders := n.enders - {id}, streams := Next(n.streams, Remove(id)))
    case Inside(e) => n.(streams := Next(n.streams, e))
  }

  predicate CanAll(n: Net, acts: seq<Act>)
    decreases |acts|
  {
    acts != [] ==> Can(n, acts[0]) && CanAll(Do(n, acts[0]), acts[1..])
  }

  function DoAll(n: Net, acts: seq<Act>): Net
    requires CanAll(n, acts)
    decreases |acts|
  {
    if acts == [] then n else DoAll(Do(n, acts[0]), acts[1..])
  }

  // ---- The frames of one stream in the channel ----

  datatype Phase = Streaming | Over

  /** The stream a frame is about. */
  function About(f: Frame): Option<u32> {
    match f
    case Data(id, _) => Some(id)
    case Ended(id) => Some(id)
    case _ => None
  }

  function Advance(p: Option<Phase>, f: Frame): Option<Phase> {
    if p != Some(Streaming) then None else if f.Ended? then Some(Over) else Some(Streaming)
  }

  /** The phase stream `id` is in after the frames in `chan`, None if they are out of order. */
  function Through(p: Option<Phase>, chan: seq<Frame>, id: u32): Option<Phase>
    decreases |chan|
  {
    if chan == [] then p
    else Through(if About(chan[0]) == Some(id) then Advance(p, chan[0]) else p, chan[1..], id)
  }

  function Segment(f: Frame, id: u32): seq<byte> {
    if f.Data? && f.id == id then f.segment else []
  }

  function Payload(chan: seq<Frame>, id: u32): seq<byte> {
    if chan == [] then [] else Segment(chan[0], id) + Payload(chan[1..], id)
  }

  lemma {:induction false} ThroughPush(p: Option<Phase>, chan: seq<Frame>, f: Frame, id: u32)
    ensures Through(p, chan + [f], id)
         == if About(f) == Some(id) then Advance(Through(p, chan, id), f) else Through(p, chan, id)
    decreases |chan|
  {
    hide Advance;
    var longer := chan + [f];
    if chan == [] {
      assert longer[0] == f && longer[1..] == [];
    } else {
      assert longer[0] == chan[0] && longer[1..] == chan[1..] + [f];
      ThroughPush(if About(chan[0]) == Some(id) then Advance(p, chan[0]) else p, chan[1..], f, id);
    }
  }

  lemma {:induction false} PayloadPush(chan: seq<Frame>, f: Frame, id: u32)
    ensures Payload(chan + [f], id) == Payload(chan, id) + Segment(f, id)
    decreases |chan|
  {
    hide Segment;
    var longer := chan + [f];
    if chan == [] {
      assert longer[0] == f && longer[1..] == [];
    } else {
      assert longer[0] == chan[0] && longer[1..] == chan[1..] + [f];
      PayloadPush(chan[1..], f, id);
      var first, last := Segment(chan[0], id), Segment(f, id);
      assert first + (Payload(chan[1..], id) + last) == (first + Payload(chan[1..], id)) + last;
    }
  }

  lemma {:induction false} NoneStays(chan: seq<Frame>, id: u32)
    ensures Through(None, chan, id) == None
    decreases |chan|
  {
    if chan != [] { NoneStays(chan[1..], id); }
  }

  ghost predicate Mentions(chan: seq<Frame>, id: u32) {
    exists i :: 0 <= i < |chan| && About(chan[i]) == Some(id)
  }

  lemma {:induction false} NotMentioned(p: Option<Phase>, chan: seq<Frame>, id: u32)
    requires !Mentions(chan, id)
    ensures Through(p, chan, id) == p && Payload(chan, id) == []
    decreases |chan|
  {
    if chan != [] {
      assert About(chan[0]) != Some(id);
      assert !Mentions(chan[1..], id) by {
        forall i | 0 <= i < |chan[1..]| ensures About(chan[1..][i]) != Some(id) { assert chan[1..][i] == chan[i + 1]; }
      }
      NotMentioned(p, chan[1..], id);
    }
  }

  // ---- The invariant ----

  ghost predicate EndingAt(s: State, id: u32)
    requires Inv(s) && id in s.current
  {
    Ending(ViewOf(s, s.current[id]))
  }

  /** How far the receiver has come with a stream. */
  ghost function Reached(n: Net, id: u32): Phase
    requires Inv(n.streams) && id in n.streams.current
  {
    if id in n.enders || EndingAt(n.streams, id) then Over else Streaming
  }

  /** What the peer has sent for a stream, nothing before it is told. */
  function SentOf(n: Net, id: u32): Sent {
    if id in n.sent then n.sent[id] else Sent([], false)
  }

  /** The channel continues from where the receiver is to where the peer is, and carries
      exactly the bytes in between. */
  predicate Consistent(reached: Phase, accepted: seq<byte>, chan: seq<Frame>, sent: Sent, id: u32) {
    && Through(Some(reached), chan, id) == Some(if sent.over then Over else Streaming)
    && accepted + Payload(chan, id) == sent.bytes
  }

  function HalfFor(s: State, id: u32): Half
    requires id in s.current && s.current[id] in s.halves
  {
    s.halves[s.current[id]]
  }

  lemma CurrentHalf(s: State, id: u32)
    requires Inv(s) && id in s.current
    ensures s.current[id] in s.halves && s.halves[s.current[id]].id == id
  {}

  ghost predicate Carried(n: Net, id: u32)
    requires Inv(n.streams) && id in n.streams.current
  {
    Consistent(Reached(n, id), HalfFor(n.streams, id).accepted, n.chan, SentOf(n, id), id)
  }

  /** The stream was inserted, or the receive task is about to. */
  predicate Known(n: Net, id: u32) {
    id in n.streams.current || (n.mode.Register? && id in n.mode.ids)
  }

  ghost predicate MessageOk(n: Net, m: Message) {
    m.Announcement? ==> forall id | id in m.ids :: Known(n, id)
  }

  /** The peer was told of the stream, or the announcement is on its way. */
  ghost predicate Promised(n: Net, id: u32) {
    id in n.sent || exists i :: 0 <= i < |n.queue| && n.queue[i].Announcement? && id in n.queue[i].ids
  }

  /** Every announced stream is known, and inserted once the peer is told of it; those still to
      be inserted are new; and no stream is left unannounced. */
  ghost predicate Announced(n: Net) {
    && (forall i | 0 <= i < |n.queue| :: MessageOk(n, n.queue[i]))
    && (forall id | id in n.sent :: id in n.streams.current)
    && (forall id | id in n.streams.current :: id < n.nextId)
    && (forall id | Known(n, id) :: Promised(n, id))
    && (n.mode.Register? ==>
          && n.mode.ids != [] && NoDuplicates(n.mode.ids)
          && forall id | id in n.mode.ids :: id < n.nextId && id !in n.streams.current)
  }

  ghost predicate Framed(n: Net) {
    && (forall i | 0 <= i < |n.chan| :: About(n.chan[i]).Some? ==> About(n.chan[i]).value in n.sent)
    && (forall id | id in n.enders :: id in n.streams.current)
    && (!n.mode.Select? ==> n.mode.left <= |n.chan|)
  }

  ghost predicate NetInv(n: Net) {
    Inv(n.streams) && Announced(n) && Framed(n) && forall id | id in n.streams.current :: Carried(n, id)
  }

  lemma StillPromised(n: Net, n': Net, id: u32)
    requires Promised(n, id) && forall i | i in n.sent :: i in n'.sent
    requires n.queue <= n'.queue || (n.queue != [] && n'.queue == n.queue[1..])
    requires !(n.queue <= n'.queue) && n.queue[0].Announcement? ==> forall i | i in n.queue[0].ids :: i in n'.sent
    ensures Promised(n', id)
  {
    if id !in n'.sent {
      var i :| 0 <= i < |n.queue| && n.queue[i].Announcement? && id in n.queue[i].ids;
      assert n.queue[i] == if n.queue <= n'.queue then n'.queue[i] else n'.queue[i - 1];
    }
  }

  // ---- The peer's steps ----

  lemma Emitted(reached: Phase, accepted: seq<byte>, chan: seq<Frame>, sent: Sent, f: Frame, id: u32)
    requires Consistent(reached, accepted, chan, sent, id) && !sent.over && About(f) == Some(id)
    ensures Consistent(reached, accepted, chan + [f], Sent(sent.bytes + Segment(f, id), f.Ended?), id)
  {
    ThroughPush(Some(reached), chan, f, id);
    PayloadPush(chan, f, id);
    assert accepted + (Payload(chan, id) + Segment(f, id)) == (accepted + Payload(chan, id)) + Segment(f, id);
  }

  lemma Unrelated(reached: Phase, accepted: seq<byte>, chan: seq<Frame>, sent: Sent, f: Frame, id: u32)
    requires Consistent(reached, accepted, chan, sent, id) && About(f) != Some(id)
    ensures Consistent(reached, accepted, chan + [f], sent, id)
  {
    ThroughPush(Some(reached), chan, f, id);
    PayloadPush(chan, f, id);
    assert Payload(chan, id) + [] == Payload(chan, id);
  }

  predicate PeerAct(a: Act) {
    a.PeerCalls? || a.PeerSends? || a.PeerEnds?
  }

  function FrameOf(a: Act): Frame
    requires PeerAct(a)
  {
    match a
    case PeerCalls(f) => f
    case PeerSends(id, segment) => Data(id, segment)
    case PeerEnds(id) => Ended(id)
  }

  lemma PeerCarries(n: Net, a: Act, id: u32)
    requires NetInv(n) && Can(n, a) && PeerAct(a) && id in n.streams.current
    ensures Carried(Do(n, a), id)
  {
    hide Inv, EndingAt, Through, Payload, Consistent, Announced, Framed;
    var f := FrameOf(a);
    CurrentHalf(n.streams, id);
    var reached, accepted, sent := Reached(n, id), HalfFor(n.streams, id).accepted, SentOf(n, id);
    assert Carried(n, id);
    if About(f) == Some(id) {
      Emitted(reached, accepted, n.chan, sent, f, id);
      assert sent.bytes + [] == sent.bytes;
    } else {
      Unrelated(reached, accepted, n.chan, sent, f, id);
    }
  }

  lemma PeerStep(n: Net, a: Act)
    requires NetInv(n) && Can(n, a) && PeerAct(a)
    ensures NetInv(Do(n, a))
  {
    hide Inv, Carried, Promised;
    forall id | Known(n, id) ensures Promised(Do(n, a), id) { StillPromised(n, Do(n, a), id); }
    forall id | id in n.streams.current ensures Carried(Do(n, a), id) { PeerCarries(n, a, id); }
  }

  // ---- The steps of the receive task ----

  /** Taking the oldest frame off the channel advances the receiver by that frame. */
  lemma Handled(reached: Phase, accepted: seq<byte>, chan: seq<Frame>, sent: Sent, id: u32)
    requires Consistent(reached, accepted, chan, sent, id) && chan != []
    ensures if About(chan[0]) != Some(id) then Consistent(reached, accepted, chan[1..], sent, id)
            else reached.Streaming?
                 && Consistent(if chan[0].Ended? then Over else Streaming, accepted + Segment(chan[0], id),
                               chan[1..], sent, id)
  {
    NoneStays(chan[1..], id);
    assert accepted + (Segment(chan[0], id) + Payload(chan[1..], id))
        == (accepted + Segment(chan[0], id)) + Payload(chan[1..], id);
    assert [] + Payload(chan[1..], id) == Payload(chan[1..], id);
    assert accepted + [] == accepted;
  }

  lemma ViewProgress(v: View, e: Event)
    requires HalfOk(v) && EnabledOn(v, e)
    ensures Ending(StepView(v, e)) == (Ending(v) || e.Remove?)
    ensures StepView(v, e).half.accepted == if e.Write? then v.half.accepted + e.buf else v.half.accepted
  {}

  /** What a step does to one stream's progress at the receiver. */
  lemma ProgressOf(s: State, e: Event, id: u32)
    requires Inv(s) && Enabled(s, e) && Guarded(s, e) && id in s.current && !(e.Insert? && e.id == id)
    ensures Inv(Next(s, e)) && id in Next(s, e).current
    ensures EndingAt(Next(s, e), id) == (EndingAt(s, id) || e == Remove(id))
    ensures HalfFor(Next(s, e), id).accepted
         == if e.Write? && e.id == id && id in s.recs then HalfFor(s, id).accepted + e.buf else HalfFor(s, id).accepted
  {
    hide HalfOk, Next, StepView, EnabledOn;
    var w := s.current[id];
    StepSeenBy(s, e, w);
    StepKeepsInv(s, e);
    CurrentStays(s, e);
    if Subject(s, e) == Some(w) {
      ViewProgress(ViewOf(s, w), e);
      SubjectsId(s, e, id);
    } else {
      OtherSubject(s, e, id);
    }
  }

  lemma CurrentStays(s: State, e: Event)
    requires Enabled(s, e)
    ensures Next(s, e).current == if e.Insert? then s.current[e.id := e.w] else s.current
  {
    hide Written, Removed, AfterTurn;
  }

  lemma SubjectsId(s: State, e: Event, id: u32)
    requires Inv(s) && Enabled(s, e) && id in s.current && Subject(s, e) == Some(s.current[id])
    ensures (e.Write? || e.Remove?) ==> e.id == id && id in s.recs
  {}

  lemma OtherSubject(s: State, e: Event, id: u32)
    requires Inv(s) && Enabled(s, e) && id in s.current && Subject(s, e) != Some(s.current[id])
    ensures e.Write? && e.id == id ==> id !in s.recs
    ensures e == Remove(id) ==> EndingAt(s, id)
  {}

  lemma OpenHasRecord(s: State, id: u32)
    requires Inv(s) && id in s.current && !EndingAt(s, id)
    ensures id in s.recs
  {}

  lemma HandleCarries(n: Net, id: u32)
    requires NetInv(n) && Can(n, Handle) && id in n.streams.current
    ensures var n' := Do(n, Handle); Inv(n'.streams) && id in n'.streams.current && Carried(n', id)
  {
    hide Inv, Next, EndingAt, Consistent, Through, Payload, Announced, Framed;
    var f := n.chan[0];
    assert Carried(n, id);
    CurrentHalf(n.streams, id);
    Handled(Reached(n, id), HalfFor(n.streams, id).accepted, n.chan, SentOf(n, id), id);
    if f.Data? {
      ProgressOf(n.streams, Write(f.id, f.segment), id);
      if f.id == id { OpenHasRecord(n.streams, id); }
    } else if f.Ended? && f.id == id {
      assert HalfFor(n.streams, id).accepted + [] == HalfFor(n.streams, id).accepted;
    }
  }

  lemma NewIds(from: nat, k: nat)
    requires from + k <= Calls.ID_LIMIT
    ensures NoDuplicates(ReceiveLoop.StreamIds(from, k))
    ensures forall id | id in ReceiveLoop.StreamIds(from, k) :: from <= id < from + k
  {}

  lemma HandleAnnounces(n: Net)
    requires NetInv(n) && Can(n, Handle)
    ensures Announced(Do(n, Handle)) && Framed(Do(n, Handle))
    ensures Do(n, Handle).streams.current == n.streams.current
  {
    hide Inv, Carried, Next, ReceiveLoop.StreamIds;
    var n', f := Do(n, Handle), n.chan[0];
    if f.Request? {
      NewIds(n.nextId, f.streams);
    } else if f.Data? {
      CurrentStays(n.streams, Write(f.id, f.segment));
    }
    forall i | 0 <= i < |n'.queue| ensures MessageOk(n', n'.queue[i]) {
      if i < |n.queue| { assert MessageOk(n, n.queue[i]); }
    }
    forall id | Known(n', id) ensures Promised(n', id) {
      if Known(n, id) {
        StillPromised(n, n', id);
      } else {
        assert n'.queue[|n.queue|].Announcement? && id in n'.queue[|n.queue|].ids;
      }
    }
  }

  lemma HandleStep(n: Net)
    requires NetInv(n) && Can(n, Handle)
    ensures NetInv(Do(n, Handle))
  {
    hide Inv, Carried, Announced, Framed, Do;
    HandleAnnounces(n);
    HandleKeepsInv(n);
    var n' := Do(n, Handle);
    forall id | id in n'.streams.current ensures Carried(n', id) { HandleCarries(n, id); }
  }

  lemma HandleKeepsInv(n: Net)
    requires NetInv(n) && Can(n, Handle)
    ensures Inv(Do(n, Handle).streams)
  {
    hide Inv, Carried, Announced, Framed, Next;
    var f := n.chan[0];
    if f.Data? { StepKeepsInv(n.streams, Write(f.id, f.segment)); }
  }

  lemma {:induction false} FreshStream(n: Net, id: u32)
    requires NetInv(n) && id !in n.streams.current
    ensures !Mentions(n.chan, id) && id !in n.enders && id !in n.sent && id !in n.streams.recs
  {
    hide Carried;
  }

  lemma InsertCarries(n: Net, w: Handle, id: u32)
    requires NetInv(n) && Can(n, InsertNext(w)) && id in Do(n, InsertNext(w)).streams.current
    ensures var n' := Do(n, InsertNext(w)); Inv(n'.streams) && Carried(n', id)
  {
    hide Inv, Next, EndingAt, Consistent, Framed;
    var id0 := n.mode.ids[0];
    FreshStream(n, id0);
    StepKeepsInv(n.streams, Insert(id0, w));
    CurrentStays(n.streams, Insert(id0, w));
    if id == id0 {
      NotMentioned(Some(Streaming), n.chan, id);
      NewStream(n.streams, id, w);
      NothingSent(n.chan, id);
    } else {
      assert Carried(n, id);
      ProgressOf(n.streams, Insert(id0, w), id);
    }
  }

  lemma NothingSent(chan: seq<Frame>, id: u32)
    requires Through(Some(Streaming), chan, id) == Some(Streaming) && Payload(chan, id) == []
    ensures Consistent(Streaming, [], chan, Sent([], false), id)
  {}

  lemma NewStream(s: State, id: u32, w: Handle)
    requires Inv(s) && w !in s.halves && id !in s.recs
    ensures var s' := Next(s, Insert(id, w));
            Inv(s') && id in s'.current && !EndingAt(s', id) && HalfFor(s', id).accepted == []
  {
    StepKeepsInv(s, Insert(id, w));
    InsertIsLocal(s, id, w);
  }

  lemma RestOfIds(ids: seq<u32>)
    requires ids != [] && NoDuplicates(ids)
    ensures NoDuplicates(ids[1..]) && ids[0] !in ids[1..]
    ensures forall id :: id in ids <==> id == ids[0] || id in ids[1..]
  {}

  lemma InsertAnnounces(n: Net, w: Handle)
    requires NetInv(n) && Can(n, InsertNext(w))
    ensures Announced(Do(n, InsertNext(w))) && Framed(Do(n, InsertNext(w)))
  {
    hide Inv, Carried, Next, NoDuplicates, Promised;
    var n', ids := Do(n, InsertNext(w)), n.mode.ids;
    CurrentStays(n.streams, Insert(ids[0], w));
    RestOfIds(ids);
    forall i | 0 <= i < |n'.queue| ensures MessageOk(n', n'.queue[i]) { assert MessageOk(n, n.queue[i]); }
    forall id | Known(n', id) ensures Promised(n', id) {
      assert Known(n, id);
      StillPromised(n, n', id);
    }
  }

  lemma InsertStep(n: Net, w: Handle)
    requires NetInv(n) && Can(n, InsertNext(w))
    ensures NetInv(Do(n, InsertNext(w)))
  {
    hide Inv, Carried, Framed, Next;
    var n' := Do(n, InsertNext(w));
    InsertAnnounces(n, w);
    FreshStream(n, n.mode.ids[0]);
    StepKeepsInv(n.streams, Insert(n.mode.ids[0], w));
    forall id | id in n'.streams.current ensures Carried(n', id) { InsertCarries(n, w, id); }
  }

  /** Only the queue, the peer's knowledge, the counter and the mode of the receive task change. */
  predicate QueueAct(a: Act) {
    a.Read? || a.DrainDone? || a.Dequeue? || a.SenderEnqueues? || a.TakeIds?
  }

  lemma QueueAnnounces(n: Net, a: Act)
    requires NetInv(n) && Can(n, a) && QueueAct(a)
    ensures Announced(Do(n, a)) && Framed(Do(n, a))
  {
    hide Inv, Carried, Promised;
    var n' := Do(n, a);
    if a.Dequeue? { assert MessageOk(n, n.queue[0]); }
    forall i | 0 <= i < |n'.queue| ensures MessageOk(n', n'.queue[i]) {
      if a.Dequeue? {
        assert MessageOk(n, n.queue[i + 1]);
      } else if i < |n.queue| {
        assert MessageOk(n, n.queue[i]);
      }
    }
    forall id | Known(n', id) ensures Promised(n', id) {
      assert Known(n, id);
      StillPromised(n, n', id);
    }
  }

  lemma QueueStep(n: Net, a: Act)
    requires NetInv(n) && Can(n, a) && QueueAct(a)
    ensures NetInv(Do(n, a))
  {
    hide Inv, Announced, Framed, Consistent;
    QueueAnnounces(n, a);
    forall id | id in n.streams.current ensures Carried(Do(n, a), id) { assert Carried(n, id); }
  }

  // ---- Spawned tasks and write loops ----

  predicate TaskAct(a: Act) {
    a.Inside? || a.RunEnder?
  }

  function EventOf(a: Act): Event
    requires TaskAct(a)
  {
    if a.Inside? then a.e else Remove(a.id)
  }

  lemma TaskCarries(n: Net, a: Act, id: u32)
    requires NetInv(n) && Can(n, a) && TaskAct(a) && id in n.streams.current
    ensures var n' := Do(n, a); Inv(n'.streams) && id in n'.streams.current && Carried(n', id)
  {
    hide Inv, Next, EndingAt, Consistent, Announced, Framed;
    assert Carried(n, id);
    ProgressOf(n.streams, EventOf(a), id);
  }

  lemma TaskStep(n: Net, a: Act)
    requires NetInv(n) && Can(n, a) && TaskAct(a)
    ensures NetInv(Do(n, a))
  {
    hide Inv, Next, Carried, Promised;
    var n' := Do(n, a);
    StepKeepsInv(n.streams, EventOf(a));
    CurrentStays(n.streams, EventOf(a));
    forall id | Known(n', id) ensures Promised(n', id) { StillPromised(n, n', id); }
    forall i | 0 <= i < |n'.queue| ensures MessageOk(n', n'.queue[i]) { assert MessageOk(n, n.queue[i]); }
    forall id | id in n'.streams.current ensures Carried(n', id) { TaskCarries(n, a, id); }
  }

  lemma ActKeepsInv(n: Net, a: Act)
    requires NetInv(n) && Can(n, a)
    ensures NetInv(Do(n, a))
  {
    hide NetInv, Do;
    match a {
      case PeerCalls(_) => PeerStep(n, a);
      case PeerSends(_, _) => PeerStep(n, a);
      case PeerEnds(_) => PeerStep(n, a);
      case Handle => HandleStep(n);
      case InsertNext(w) => InsertStep(n, w);
      case RunEnder(_) => TaskStep(n, a);
      case Inside(_) => TaskStep(n, a);
      case _ => QueueStep(n, a);
    }
  }

  lemma {:induction false} RunInv(n: Net, acts: seq<Act>)
    requires NetInv(n) && CanAll(n, acts)
    ensures NetInv(DoAll(n, acts))
    decreases |acts|
  {
    hide NetInv, Can, Do;
    if acts != [] {
      ActKeepsInv(n, acts[0]);
      RunInv(Do(n, acts[0]), acts[1..]);
    }
  }

  lemma ReachableNet(acts: seq<Act>)
    requires CanAll(START, acts)
    ensures NetInv(DoAll(START, acts))
  {
    assert Inv(INITIAL);
    RunInv(START, acts);
  }

  // ---- What the peer sent in a run ----

  /** The bytes the peer sends for a stream in a run. */
  function SentBy(acts: seq<Act>, id: u32): seq<byte> {
    if acts == [] then []
    else (if acts[0].PeerSends? && acts[0].id == id then acts[0].segment else []) + SentBy(acts[1..], id)
  }

  lemma StepSent(n: Net, a: Act, id: u32)
    requires Can(n, a)
    ensures SentOf(Do(n, a), id).bytes == SentOf(n, id).bytes + if a.PeerSends? && a.id == id then a.segment else []
    ensures SentOf(Do(n, a), id).over <==> SentOf(n, id).over || a == PeerEnds(id)
  {
    hide Next, ReceiveLoop.StreamIds;
    assert SentOf(n, id).bytes + [] == SentOf(n, id).bytes;
  }

  lemma {:induction false} RunSent(n: Net, acts: seq<Act>, id: u32)
    requires CanAll(n, acts)
    ensures SentOf(DoAll(n, acts), id).bytes == SentOf(n, id).bytes + SentBy(acts, id)
    ensures SentOf(DoAll(n, acts), id).over <==> SentOf(n, id).over || PeerEnds(id) in acts
    decreases |acts|
  {
    hide Can, Do, SentOf;
    if acts == [] {
      assert SentOf(n, id).bytes + [] == SentOf(n, id).bytes;
    } else {
      var a, rest := acts[0], acts[1..];
      StepSent(n, a, id);
      RunSent(Do(n, a), rest, id);
      assert acts == [a] + rest;
      var now := if a.PeerSends? && a.id == id then a.segment else [];
      assert SentOf(n, id).bytes + now + SentBy(rest, id) == SentOf(n, id).bytes + (now + SentBy(rest, id));
    }
  }

  /** What counts as sent for a stream is what the peer's acts sent, in order. */
  lemma SentIsWhatPeerSent(acts: seq<Act>, id: u32)
    requires CanAll(START, acts)
    ensures SentOf(DoAll(START, acts), id) == Sent(SentBy(acts, id), PeerEnds(id) in acts)
  {
    RunSent(START, acts, id);
    assert [] + SentBy(acts, id) == SentBy(acts, id);
  }

  // ---- Main results ----

  /** No stream is announced too early: whatever the peer sends for a stream, the stream has been
      inserted by then, and the oldest data frame finds its record. */
  lemma FramesAlwaysHandled(acts: seq<Act>)
    requires CanAll(START, acts)
    ensures var n := DoAll(START, acts);
            && (forall i | 0 <= i < |n.chan| ::
                  About(n.chan[i]).Some? ==> About(n.chan[i]).value in n.streams.current)
            && (n.chan != [] && n.chan[0].Data? ==> n.chan[0].id in n.streams.recs)
            && (n.mode.Drain? && n.mode.left > 0 ==> n.chan != [] && (Room(n, n.chan[0]) ==> Can(n, Handle)))
  {
    ReachableNet(acts);
    var n := DoAll(START, acts);
    if n.chan != [] && n.chan[0].Data? { OldestHandled(n); }
  }

  lemma OldestHandled(n: Net)
    requires NetInv(n) && n.chan != [] && n.chan[0].Data?
    ensures n.chan[0].id in n.streams.current && n.chan[0].id in n.streams.recs
  {
    hide Inv, Consistent, EndingAt;
    var id := n.chan[0].id;
    assert About(n.chan[0]) == Some(id);
    assert Carried(n, id);
    CurrentHalf(n.streams, id);
    Handled(Reached(n, id), HalfFor(n.streams, id).accepted, n.chan, SentOf(n, id), id);
    OpenHasRecord(n.streams, id);
  }

  /** The receive task inserts every stream once: what it inserts has no record and never had. */
  lemma InsertsAreGuarded(acts: seq<Act>, w: Handle)
    requires CanAll(START, acts) && Can(DoAll(START, acts), InsertNext(w))
    ensures var n := DoAll(START, acts);
            n.mode.ids[0] !in n.streams.current && Guarded(n.streams, Insert(n.mode.ids[0], w))
  {
    ReachableNet(acts);
    FreshStream(DoAll(START, acts), DoAll(START, acts).mode.ids[0]);
  }

  /** In every reachable state the write half of a stream has got a prefix of the bytes the peer
      sent for it; it is shut down at most once, and then only after the peer ended the stream
      and, if the other end stayed, with all that was sent. */
  lemma DeliveredInOrder(acts: seq<Act>, id: u32)
    requires CanAll(START, acts) && id in DoAll(START, acts).streams.current
    ensures var n := DoAll(START, acts);
            n.streams.current[id] in n.streams.halves &&
            var half := HalfFor(n.streams, id);
            && half.delivered <= SentBy(acts, id)
            && half.shutdowns <= 1
            && (half.shutdowns == 1 ==> PeerEnds(id) in acts && (!half.broken ==> half.delivered == SentBy(acts, id)))
  {
    hide Inv, Carried;
    ReachableNet(acts);
    SentIsWhatPeerSent(acts, id);
    InOrder(DoAll(START, acts), id);
  }

  lemma InOrder(n: Net, id: u32)
    requires NetInv(n) && id in n.streams.current
    ensures n.streams.current[id] in n.streams.halves
    ensures var half, sent := HalfFor(n.streams, id), SentOf(n, id);
            && half.delivered <= sent.bytes
            && half.shutdowns <= 1
            && (half.shutdowns == 1 ==> sent.over && (!half.broken ==> half.delivered == sent.bytes))
  {
    hide Through, Payload, HalfOk;
    assert Carried(n, id);
    var v := ViewOf(n.streams, n.streams.current[id]);
    HalfInOrder(v);
    NothingAfterOver(n.chan, id);
    assert v.half.accepted <= v.half.accepted + Payload(n.chan, id);
  }

  lemma HalfInOrder(v: View)
    requires HalfOk(v)
    ensures v.half.delivered <= v.half.accepted && v.half.shutdowns <= 1
    ensures v.half.shutdowns == 1 ==> Ending(v) && (!v.half.broken ==> v.half.delivered == v.half.accepted)
  {}

  lemma {:induction false} NothingAfterOver(chan: seq<Frame>, id: u32)
    ensures Through(Some(Over), chan, id) in {Some(Over), None}
    ensures Through(Some(Over), chan, id).Some? ==> Payload(chan, id) == []
    decreases |chan|
  {
    if chan != [] {
      NoneStays(chan[1..], id);
      NothingAfterOver(chan[1..], id);
    }
  }

  /** Once nothing of a stream is left to handle and its write loop rests, its half holds exactly
      what the peer sent; if the peer ended the stream, it was shut down once, and else it is
      parked. */
  lemma DeliveredInFull(acts: seq<Act>, id: u32)
    requires CanAll(START, acts) && id in DoAll(START, acts).streams.current
    requires var n := DoAll(START, acts);
             !Mentions(n.chan, id) && id !in n.enders && Resting(n.streams, n.streams.current[id])
    ensures var n := DoAll(START, acts);
            n.streams.current[id] in n.streams.halves &&
            var half := HalfFor(n.streams, id);
            && (!half.broken ==> half.delivered == SentBy(acts, id))
            && (if PeerEnds(id) in acts then half.shutdowns == 1 && id !in n.streams.recs
                else id in n.streams.recs && half.shutdowns == 0
                     && n.streams.recs[id] == StreamRec(Some(n.streams.current[id]), [], false))
  {
    hide Inv, Carried, Resting, Mentions;
    ReachableNet(acts);
    SentIsWhatPeerSent(acts, id);
    InFull(DoAll(START, acts), id);
  }

  lemma InFull(n: Net, id: u32)
    requires NetInv(n) && id in n.streams.current
    requires !Mentions(n.chan, id) && id !in n.enders && Resting(n.streams, n.streams.current[id])
    ensures n.streams.current[id] in n.streams.halves
    ensures var half, sent := HalfFor(n.streams, id), SentOf(n, id);
            && (!half.broken ==> half.delivered == sent.bytes)
            && (if sent.over then half.shutdowns == 1 && id !in n.streams.recs
                else id in n.streams.recs && half.shutdowns == 0
                     && n.streams.recs[id] == StreamRec(Some(n.streams.current[id]), [], false))
  {
    hide HalfOk, Mentions;
    assert Carried(n, id);
    NotMentioned(Some(Reached(n, id)), n.chan, id);
    AtRest(n.streams, n.streams.current[id]);
    assert HalfFor(n.streams, id).accepted + [] == HalfFor(n.streams, id).accepted;
  }
}
