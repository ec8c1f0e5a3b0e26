/** What the receive loop answers (cli/src/rpc.rs, 99-272, 402-524, and
    cli/src/msgpack_rpc.rs, 66-110): dispatch of incoming frames, the spawned futures and
    stream readers, and the write channel they all feed. */
module ReceiveLoop {
  import opened Common
  import Calls

  datatype Method = Sync | Async | Duplex(streams: nat)

  datatype Reply = Success(id: u32) | Error(id: u32, code: int)

  /** `PartialIncoming` and its body, with the two facts about the body that dispatch depends
      on: whether its params decode, and, for a sync method, whether the callback succeeds. */
  datatype Incoming = Incoming(id: Option<u32>, methodName: Option<string>, error: Option<Calls.ResponseError>,
                               body: seq<byte>, paramsOk: bool, runsOk: bool)

  /** A future returned by dispatch: already decided, or a callback still to finish. */
  datatype Fut = Ready(reply: Option<Reply>) | Running(id: Option<u32>)

  datatype MaybeSync =
    | Panic                                    // unwrapping a missing id
    | Direct(reply: Option<Reply>)
    | Future(fut: Fut)
    | Stream(streams: Option<nat>, fut: Fut)   // how many duplex streams to register, if any

  function Finished(id: Option<u32>, ok: bool): Option<Reply> {
    match id
    case None => None
    case Some(i) => Some(if ok then Success(i) else Error(i, -1))
  }

  function BadParams(id: Option<u32>): Option<Reply> {
    match id
    case None => None
    case Some(i) => Some(Error(i, 0))
  }

  function Dispatch(methods: map<string, Method>, m: Incoming): MaybeSync {
    if m.methodName.None? then (if m.id.None? then Panic else Direct(None))    // a response: goes to the call table
    else if m.methodName.value !in methods then Direct(Finished(m.id, false))
    else match methods[m.methodName.value]
      case Sync => Direct(if m.paramsOk then Finished(m.id, m.runsOk) else BadParams(m.id))
      case Async => Future(if m.paramsOk then Running(m.id) else Ready(BadParams(m.id)))
      case Duplex(n) =>
        if m.paramsOk then Stream(Some(n), Running(m.id)) else Stream(None, Ready(BadParams(m.id)))
  }

  function ResponseOf(m: Incoming): Calls.Response
    requires m.id.Some?
  {
    Calls.Response(m.id.value, m.error, m.body)
  }

  class Dispatcher {
    const methods: map<string, Method>
    const table: Calls.CallTable

    constructor (methods: map<string, Method>, table: Calls.CallTable)
      ensures this.methods == methods && this.table == table
    {
      this.methods, this.table := methods, table;
    }

    /** `dispatch_with_partial`: requests go to their method; a frame without a method is a
        response, whose id is unwrapped, and takes its callback out of the call table. */
    method DispatchWithPartial(m: Incoming) returns (r: MaybeSync, fired: Option<Calls.Fire>)
      modifies table
      ensures r == Dispatch(methods, m)
      ensures m.methodName.Some? || m.id.None? ==> fired == None && table.calls == old(table.calls)
      ensures m.methodName.None? && m.id.Some? ==>
                var id := m.id.value;
                && table.calls == old(table.calls) - {id}
                && fired == match Calls.Lookup(old(table.calls), id)
                            case Some(call) =>
                              Some(Calls.Fire(call, id, match m.error
                                case Some(e) => Calls.Error(e.code, e.message)
                                case None => Calls.Success(m.body)))
                            case None => None
      ensures m.methodName.None? && m.id.Some? ==>
                forall s: Calls.State | s.calls == old(table.calls) ::
                  var s' := Calls.Next(s, Calls.Respond(ResponseOf(m)));
                  table.calls == s'.calls && s'.fired == s.fired + if fired.Some? then [fired.value] else []
    {
      fired := None;
      if m.methodName.Some? {
        if m.methodName.value in methods {
          match methods[m.methodName.value] {
            case Sync =>
              var reply := BadParams(m.id);
              if m.paramsOk { reply := Finished(m.id, m.runsOk); }
              r := Direct(reply);
            case Async =>
              if !m.paramsOk { return Future(Ready(BadParams(m.id))), None; }
              r := Future(Running(m.id));
            case Duplex(n) =>
              if !m.paramsOk { return Stream(None, Ready(BadParams(m.id))), None; }
              r := Stream(Some(n), Running(m.id));
          }
        } else {
          r := Direct(Finished(m.id, false));
        }
      } else if m.id.None? {
        r := Panic;
      } else {
        var callback := table.Take(m.id.value);
        if callback.Some? {
          var outcome := Calls.Success(m.body);
          if m.error.Some? { outcome := Calls.Error(m.error.value.code, m.error.value.message); }
          fired := Some(Calls.Fire(callback.value, m.id.value, outcome));
        }
        r := Direct(None);
      }
    }
  }

  // ---- The loop, its spawned tasks and the write channel ----

  /** What is enqueued on the write channel.  `ticket` is the position of the frame being
      answered among all frames received. */
  datatype Out =
    | Answer(ticket: nat, reply: Reply)
    | StreamsStarted(ticket: nat, forRequest: u32, ids: seq<u32>)
    | StreamData(id: u32, segment: seq<byte>)
    | StreamEnded(id: u32)

  /** Size of the buffer a stream reader reads into. */
  const READ_BUFFER := 4096

  datatype State = State(
    methods: map<string, Method>,
    received: seq<Incoming>,
    log: seq<Out>,              // everything enqueued so far, in order
    pending: map<nat, Fut>,     // spawned futures by ticket
    readers: set<u32>,          // live reader tasks by stream id
    nextId: nat,                // the id counter, short of wrapping
    crashed: bool,              // the receive task has panicked
    // history: where a ticket was answered, and how its callback finished
    answered: map<nat, nat>,
    finished: map<nat, bool>)

  datatype Event =
    | Receive(m: Incoming)
    | Complete(ticket: nat, ok: bool)           // a spawned future finishes
    | Read(id: u32, segment: seq<byte>)         // a reader task got some bytes
    | ReadEnd(id: u32)

  function Init(methods: map<string, Method>): State {
    State(methods, [], [], map[], {}, 0, false, map[], map[])
  }

  function StreamIds(from: nat, n: nat): seq<u32>
    requires from + n <= Calls.ID_LIMIT
  {
    seq(n, i requires 0 <= i < n => from + i)
  }

  predicate Enabled(s: State, e: Event) {
    match e
    case Receive(m) =>
      !s.crashed &&
      (match Dispatch(s.methods, m)
       case Stream(Some(n), _) => s.nextId + n <= Calls.ID_LIMIT
       case _ => true)
    case Complete(ticket, _) => ticket in s.pending
    case Read(id, segment) => id in s.readers && 0 < |segment| <= READ_BUFFER
    case ReadEnd(id) => id in s.readers
  }

  function Enqueued(s: State, ticket: nat, reply: Option<Reply>): State {
    match reply
    case None => s
    case Some(r) => s.(log := s.log + [Answer(ticket, r)], answered := s.answered[ticket := |s.log|])
  }

  /** `register_stream`: announce the ids, then start their readers. */
  function Registered(s: State, ticket: nat, id: Option<u32>, n: nat): State
    requires s.nextId + n <= Calls.ID_LIMIT
  {
    var ids := StreamIds(s.nextId, n);
    s.(log := s.log + [StreamsStarted(ticket, if id.Some? then id.value else 0, ids)],
       readers := s.readers + (set i | i in ids), nextId := s.nextId + n)
  }

  function Next(s: State, e: Event): State
    requires Enabled(s, e)
  {
    match e
    case Receive(m) =>
      var ticket := |s.received|;
      var s1 := s.(received := s.received + [m]);
      (match Dispatch(s.methods, m)
       case Panic => s1.(crashed := true)
       case Direct(reply) => Enqueued(s1, ticket, reply)
       case Future(fut) => s1.(pending := s.pending[ticket := fut])
       case Stream(None, fut) => s1.(pending := s.pending[ticket := fut])
       case Stream(Some(n), fut) =>
         Registered(s1, ticket, m.id, n).(pending := s.pending[ticket := fut]))
    case Complete(ticket, ok) =>
      var s1 := s.(pending := s.pending - {ticket});
      (match s.pending[ticket]
       case Ready(reply) => Enqueued(s1, ticket, reply)
       case Running(id) => Enqueued(s1.(finished := s.finished[ticket := ok]), ticket, Finished(id, ok)))
    case Read(id, segment) => s.(log := s.log + [StreamData(id, segment)])
    case ReadEnd(id) => s.(log := s.log + [StreamEnded(id)], readers := s.readers - {id})
  }

  predicate Runs(s: State, evs: seq<Event>)
    decreases |evs|
  {
    evs != [] ==> Enabled(s, evs[0]) && Runs(Next(s, evs[0]), evs[1..])
  }

  function Exec(s: State, evs: seq<Event>): State
    requires Runs(s, evs)
    decreases |evs|
  {
    if evs == [] then s else Exec(Next(s, evs[0]), evs[1..])
  }

  // ---- What a step enqueues ----

  predicate OpensStreams(methods: map<string, Method>, m: Incoming) {
    m.methodName.Some? && m.methodName.value in methods && methods[m.methodName.value].Duplex? && m.paramsOk
  }

  /** What enqueuing `out` does to the readers and the id counter. */
  predicate Grows(s: State, s': State, out: Out) {
    && s'.log == s.log + [out]
    && match out
       case Answer(_, _) => s'.readers == s.readers && s'.nextId == s.nextId
       case StreamsStarted(_, _, ids) =>
         && s'.nextId == s.nextId + |ids| <= Calls.ID_LIMIT
         && ids == StreamIds(s.nextId, |ids|)
         && s'.readers == s.readers + set i | i in ids
       case StreamData(id, _) => id in s.readers && s'.readers == s.readers && s'.nextId == s.nextId
       case StreamEnded(id) => id in s.readers && s'.readers == s.readers - {id} && s'.nextId == s.nextId
  }

  /** At most one message is enqueued, which answers or announces for `ticket` or comes from a
      reader. */
  predicate Moves(s: State, s': State, ticket: nat) {
    && s'.methods == s.methods && s.received <= s'.received
    && if s'.log == s.log then s'.readers == s.readers && s'.nextId == s.nextId && s'.answered == s.answered
       else
         |s'.log| == |s.log| + 1 &&
         var out := s'.log[|s.log|];
         && Grows(s, s', out)
         && (out.Answer? || out.StreamsStarted? ==> out.ticket == ticket)
         && s'.answered == if out.Answer? then s.answered[ticket := |s.log|] else s.answered
  }

  lemma EnqueuedMoves(s: State, ticket: nat, reply: Option<Reply>)
    ensures var s' := Enqueued(s, ticket, reply);
            Moves(s, s', ticket) && (s'.log != s.log ==> s'.log[|s.log|].Answer?)
  {}

  lemma RegisteredMoves(s: State, ticket: nat, id: Option<u32>, n: nat)
    requires s.nextId + n <= Calls.ID_LIMIT
    ensures Moves(s, Registered(s, ticket, id, n), ticket)
    ensures Registered(s, ticket, id, n).received == s.received
    ensures |Registered(s, ticket, id, n).log| > |s.log| && Registered(s, ticket, id, n).log[|s.log|].StreamsStarted?
  {}

  function TicketOf(s: State, e: Event): nat {
    if e.Complete? then e.ticket else |s.received|
  }

  /** An announcement is enqueued only for a frame that opens streams. */
  predicate OpensWhatItAnnounces(s: State, s': State, e: Event) {
    |s'.log| > |s.log| && s'.log[|s.log|].StreamsStarted? ==>
      e.Receive? && s'.received == s.received + [e.m] && OpensStreams(s.methods, e.m)
  }

  /** What the receive task and the futures enqueue is not of a stream reader. */
  predicate FromReadersOnly(s: State, s': State, e: Event) {
    match e
    case Read(id, segment) => s'.log == s.log + [StreamData(id, segment)]
    case ReadEnd(id) => s'.log == s.log + [StreamEnded(id)]
    case _ =>
      s'.log == s.log || (|s'.log| > |s.log| && (s'.log[|s.log|].Answer? || s'.log[|s.log|].StreamsStarted?))
  }

  lemma ReceiveMoves(s: State, m: Incoming)
    requires Enabled(s, Receive(m))
    ensures Moves(s, Next(s, Receive(m)), |s.received|)
    ensures OpensWhatItAnnounces(s, Next(s, Receive(m)), Receive(m))
    ensures FromReadersOnly(s, Next(s, Receive(m)), Receive(m))
  {
    hide Enqueued, Registered, StreamIds;
    var s1 := s.(received := s.received + [m]);
    match Dispatch(s.methods, m) {
      case Direct(reply) => EnqueuedMoves(s1, |s.received|, reply);
      case Stream(Some(n), _) => RegisteredMoves(s1, |s.received|, m.id, n);
      case _ =>
    }
  }

  lemma CompleteMoves(s: State, k: nat, ok: bool)
    requires k in s.pending
    ensures Moves(s, Next(s, Complete(k, ok)), k)
    ensures OpensWhatItAnnounces(s, Next(s, Complete(k, ok)), Complete(k, ok))
    ensures FromReadersOnly(s, Next(s, Complete(k, ok)), Complete(k, ok))
  {
    hide Enqueued, Registered, Finished;
    var s1 := s.(pending := s.pending - {k});
    match s.pending[k] {
      case Ready(reply) => EnqueuedMoves(s1, k, reply);
      case Running(id) => EnqueuedMoves(s1.(finished := s.finished[k := ok]), k, Finished(id, ok));
    }
  }

  lemma ReaderMoves(s: State, e: Event)
    requires Enabled(s, e) && (e.Read? || e.ReadEnd?)
    ensures Moves(s, Next(s, e), |s.received|) && OpensWhatItAnnounces(s, Next(s, e), e)
    ensures FromReadersOnly(s, Next(s, e), e)
  {}

  lemma StepMoves(s: State, e: Event)
    requires Enabled(s, e)
    ensures Moves(s, Next(s, e), TicketOf(s, e)) && OpensWhatItAnnounces(s, Next(s, e), e)
    ensures FromReadersOnly(s, Next(s, e), e)
  {
    hide Next, Moves, OpensWhatItAnnounces, FromReadersOnly;
    match e {
      case Receive(m) => ReceiveMoves(s, m);
      case Complete(k, ok) => CompleteMoves(s, k, ok);
      case _ => ReaderMoves(s, e);
    }
  }

  // ---- Reply discipline ----

  /** The reply a frame deserves, from what happened to it: `ran` is how its callback ended
      (None: it did not run, or has not finished). */
  function Deserved(methods: map<string, Method>, m: Incoming, ran: Option<bool>): Option<Reply> {
    if m.methodName.None? || m.id.None? then None
    else if m.methodName.value !in methods then Some(Error(m.id.value, -1))
    else if !m.paramsOk then Some(Error(m.id.value, 0))
    else var ok := if methods[m.methodName.value].Sync? then Some(m.runsOk) else ran;
      match ok
      case None => None
      case Some(b) => Some(if b then Success(m.id.value) else Error(m.id.value, -1))
  }

  function Ran(s: State, ticket: nat): Option<bool> {
    if ticket in s.finished then Some(s.finished[ticket]) else None
  }

  /** A ticket is pending with the right future, or settled with the reply it deserves. */
  ghost predicate TicketOk(s: State, k: nat)
    requires k < |s.received|
  {
    var m := s.received[k];
    if k in s.pending then
      && k !in s.answered && k !in s.finished
      && m.methodName.Some? && m.methodName.value in s.methods && !s.methods[m.methodName.value].Sync?
      && s.pending[k] == (if m.paramsOk then Running(m.id) else Ready(BadParams(m.id)))
    else
      match Deserved(s.methods, m, Ran(s, k))
      case None => k !in s.answered
                   && (m.methodName.Some? && m.methodName.value in s.methods && m.paramsOk ==> m.id.None?)
      case Some(r) => k in s.answered && s.answered[k] < |s.log| && s.log[s.answered[k]] == Answer(k, r)
  }

  ghost predicate Inv(s: State) {
    && (forall k | k in s.pending || k in s.answered || k in s.finished :: k < |s.received|)
    && (forall k | 0 <= k < |s.received| :: TicketOk(s, k))
    && (forall p | 0 <= p < |s.log| && s.log[p].Answer? ::
          s.log[p].ticket in s.answered && s.answered[s.log[p].ticket] == p)
  }

  lemma EnqueuedKeeps(s: State, ticket: nat, reply: Option<Reply>)
    requires ticket !in s.pending && ticket !in s.answered && ticket < |s.received|
    requires forall k | k in s.pending || k in s.answered || k in s.finished :: k < |s.received|
    requires forall k | 0 <= k < |s.received| && k != ticket :: TicketOk(s, k)
    requires forall p | 0 <= p < |s.log| && s.log[p].Answer? ::
               s.log[p].ticket in s.answered && s.answered[s.log[p].ticket] == p
    requires reply == Deserved(s.methods, s.received[ticket], Ran(s, ticket))
    requires reply == None ==> TicketOk(s, ticket)
    ensures Inv(Enqueued(s, ticket, reply))
  {
    var s' := Enqueued(s, ticket, reply);
    forall k | 0 <= k < |s.received| ensures TicketOk(s', k) {
      if k != ticket { assert TicketOk(s, k); }
    }
  }

  /** Ticket `k` is pending, answered and finished in `s'` as in `s`. */
  predicate Untouched(s: State, s': State, k: nat) {
    && s'.methods == s.methods && s.received <= s'.received && s.log <= s'.log
    && (k in s'.pending <==> k in s.pending) && (k in s.pending ==> s'.pending[k] == s.pending[k])
    && (k in s'.answered <==> k in s.answered) && (k in s.answered ==> s'.answered[k] == s.answered[k])
    && Ran(s', k) == Ran(s, k)
  }

  lemma TicketStays(s: State, s': State, k: nat)
    requires k < |s.received| && TicketOk(s, k) && Untouched(s, s', k)
    ensures k < |s'.received| && TicketOk(s', k)
  {
    hide Deserved, BadParams;
  }

  lemma SpawnKeepsInv(s: State, m: Incoming)
    requires Inv(s) && Enabled(s, Receive(m)) && !Dispatch(s.methods, m).Direct?
    ensures Inv(Next(s, Receive(m)))
  {
    hide TicketOk, Untouched;
    var s' := Next(s, Receive(m));
    forall j | 0 <= j < |s'.received| ensures TicketOk(s', j) {
      if j < |s.received| {
        SpawnLeaves(s, m, j);
        TicketStays(s, s', j);
      } else {
        NewTicket(s, m);
      }
    }
  }

  lemma SpawnLeaves(s: State, m: Incoming, k: nat)
    requires Inv(s) && Enabled(s, Receive(m)) && !Dispatch(s.methods, m).Direct? && k < |s.received|
    ensures Untouched(s, Next(s, Receive(m)), k)
  {
    hide Inv, TicketOk, StreamIds;
  }

  lemma NewTicket(s: State, m: Incoming)
    requires Inv(s) && Enabled(s, Receive(m)) && !Dispatch(s.methods, m).Direct?
    ensures var s' := Next(s, Receive(m)); |s.received| < |s'.received| && TicketOk(s', |s.received|)
  {}

  lemma ReceiveKeepsInv(s: State, m: Incoming)
    requires Inv(s) && Enabled(s, Receive(m))
    ensures Inv(Next(s, Receive(m)))
  {
    if Dispatch(s.methods, m).Direct? {
      var s1 := s.(received := s.received + [m]);
      forall j | 0 <= j < |s.received| ensures TicketOk(s1, j) { assert TicketOk(s, j); }
      EnqueuedKeeps(s1, |s.received|, Dispatch(s.methods, m).reply);
    } else {
      SpawnKeepsInv(s, m);
    }
  }

  lemma CompleteKeepsInv(s: State, k: nat, ok: bool)
    requires Inv(s) && k in s.pending
    ensures Inv(Next(s, Complete(k, ok)))
  {
    assert TicketOk(s, k);
    var s1 := s.(pending := s.pending - {k});
    match s.pending[k] {
      case Ready(reply) =>
        forall j | 0 <= j < |s.received| && j != k ensures TicketOk(s1, j) { assert TicketOk(s, j); }
        EnqueuedKeeps(s1, k, reply);
      case Running(id) =>
        var s2 := s1.(finished := s.finished[k := ok]);
        forall j | 0 <= j < |s.received| && j != k ensures TicketOk(s2, j) { assert TicketOk(s, j); }
        EnqueuedKeeps(s2, k, Finished(id, ok));
    }
  }

  lemma StepKeepsInv(s: State, e: Event)
    requires Inv(s) && Enabled(s, e)
    ensures Inv(Next(s, e))
  {
    match e {
      case Receive(m) => ReceiveKeepsInv(s, m);
      case Complete(k, ok) => CompleteKeepsInv(s, k, ok);
      case Read(_, _) => forall k | 0 <= k < |s.received| ensures TicketOk(Next(s, e), k) { assert TicketOk(s, k); }
      case ReadEnd(_) => forall k | 0 <= k < |s.received| ensures TicketOk(Next(s, e), k) { assert TicketOk(s, k); }
    }
  }

  lemma {:induction false} RunKeepsInv(s: State, evs: seq<Event>)
    requires Inv(s) && Runs(s, evs)
    ensures Inv(Exec(s, evs))
    ensures Exec(s, evs).methods == s.methods
    decreases |evs|
  {
    if evs != [] {
      StepKeepsInv(s, evs[0]);
      RunKeepsInv(Next(s, evs[0]), evs[1..]);
    }
  }

  /** The frames received in a run, in order. */
  function FramesOf(evs: seq<Event>): seq<Incoming> {
    if evs == [] then [] else (if evs[0].Receive? then [evs[0].m] else []) + FramesOf(evs[1..])
  }

  /** How the future of frame `k` finished in a run. */
  function EndedWith(evs: seq<Event>, k: nat): Option<bool> {
    if evs == [] then None
    else match EndedWith(evs[1..], k)
      case Some(ok) => Some(ok)
      case None => if evs[0].Complete? && evs[0].ticket == k then Some(evs[0].ok) else None
  }

  lemma StepReceives(s: State, e: Event)
    requires Enabled(s, e)
    ensures Next(s, e).received == s.received + if e.Receive? then [e.m] else []
  {
    hide Dispatch, Finished, StreamIds;
  }

  lemma {:induction false} RunReceives(s: State, evs: seq<Event>)
    requires Runs(s, evs)
    ensures Exec(s, evs).received == s.received + FramesOf(evs)
    decreases |evs|
  {
    hide Next;
    if evs != [] {
      StepReceives(s, evs[0]);
      RunReceives(Next(s, evs[0]), evs[1..]);
    }
  }

  /** A step finishes the callback it completes, as that event says, and no other. */
  lemma StepFinishes(s: State, e: Event, k: nat)
    requires Inv(s) && Enabled(s, e) && k < |Next(s, e).received| && Next(s, e).received[k].paramsOk
    ensures Ran(Next(s, e), k) == if e.Complete? && e.ticket == k then Some(e.ok) else Ran(s, k)
  {
    hide Dispatch, Finished, StreamIds, Inv, TicketOk, Enqueued;
    match e {
      case Complete(ticket, _) =>
        PendingRuns(s, ticket);
        EnqueuedFinishes(s, e);
      case Receive(m) => if Dispatch(s.methods, m).Direct? { ReplyFinishesNothing(s, m); }
      case _ =>
    }
  }

  lemma PendingRuns(s: State, k: nat)
    requires Inv(s) && k in s.pending
    ensures k < |s.received| && (s.received[k].paramsOk <==> s.pending[k].Running?)
  {
    assert TicketOk(s, k);
  }

  lemma EnqueuedFinishes(s: State, e: Event)
    requires e.Complete? && e.ticket in s.pending
    ensures Next(s, e).received == s.received
    ensures Next(s, e).finished == if s.pending[e.ticket].Running? then s.finished[e.ticket := e.ok] else s.finished
  {
    hide Finished;
  }

  lemma ReplyFinishesNothing(s: State, m: Incoming)
    requires Enabled(s, Receive(m)) && Dispatch(s.methods, m).Direct?
    ensures Next(s, Receive(m)).finished == s.finished
  {
    hide Dispatch;
  }

  lemma {:induction false} RunFinishes(s: State, evs: seq<Event>, k: nat)
    requires Inv(s) && Runs(s, evs) && k < |Exec(s, evs).received| && Exec(s, evs).received[k].paramsOk
    ensures Ran(Exec(s, evs), k) == if EndedWith(evs, k).Some? then EndedWith(evs, k) else Ran(s, k)
    decreases |evs|
  {
    hide Next, Inv, Ran;
    if evs != [] {
      var s' := Next(s, evs[0]);
      StepKeepsInv(s, evs[0]);
      RunReceives(s', evs[1..]);
      if k < |s'.received| {
        StepFinishes(s, evs[0], k);
      } else {
        NotFinishedYet(s, evs[0], k);
      }
      RunFinishes(s', evs[1..], k);
    }
  }

  lemma NotFinishedYet(s: State, e: Event, k: nat)
    requires Inv(s) && Enabled(s, e) && Inv(Next(s, e)) && |Next(s, e).received| <= k
    ensures Ran(s, k) == Ran(Next(s, e), k) == None && !(e.Complete? && e.ticket == k)
  {
    StepReceives(s, e);
  }

  ghost predicate AnsweredAt(s: State, k: nat, p: nat) {
    p < |s.log| && s.log[p].Answer? && s.log[p].ticket == k
  }

  /** In every reachable state, the k-th frame received, if its future is not pending and it is a
      request with an id, has exactly one answer, the one it deserves from how its callback
      ended in the run, and none otherwise; a pending one has none yet. */
  lemma OneReplyPerRequest(methods: map<string, Method>, evs: seq<Event>, k: nat)
    requires Runs(Init(methods), evs) && k < |FramesOf(evs)|
    ensures var s, m := Exec(Init(methods), evs), FramesOf(evs)[k];
            if m.methodName.None? || m.id.None? || k in s.pending
            then forall p: nat :: !AnsweredAt(s, k, p)
            else exists p: nat :: AnsweredAt(s, k, p) && (forall q: nat :: AnsweredAt(s, k, q) ==> q == p)
                   && s.log[p].reply.id == m.id.value
                   && Some(s.log[p].reply) == Deserved(methods, m, EndedWith(evs, k))
  {
    RunKeepsInv(Init(methods), evs);
    RunReceives(Init(methods), evs);
    var s := Exec(Init(methods), evs);
    assert s.received == FramesOf(evs);
    assert TicketOk(s, k);
    if s.received[k].paramsOk { RunFinishes(Init(methods), evs, k); }
    if k in s.answered { assert AnsweredAt(s, k, s.answered[k]); }
  }

  // ---- Duplex calls: announcement first ----

  /** Entry `q` announces the streams of frame `k`. */
  ghost predicate AnnouncedAt(s: State, k: nat, q: nat)
    requires k < |s.received| && OpensStreams(s.methods, s.received[k])
  {
    var m := s.received[k];
    q < |s.log| && s.log[q].StreamsStarted? && s.log[q].ticket == k
    && s.log[q].forRequest == (if m.id.Some? then m.id.value else 0)
    && |s.log[q].ids| == s.methods[m.methodName.value].streams
  }

  ghost predicate AnnouncedFirst(s: State, k: nat)
    requires k < |s.received| && OpensStreams(s.methods, s.received[k])
  {
    exists q: nat :: AnnouncedAt(s, k, q) && (k in s.answered ==> q < s.answered[k])
  }

  ghost predicate Announced(s: State) {
    forall k | 0 <= k < |s.received| && OpensStreams(s.methods, s.received[k]) :: AnnouncedFirst(s, k)
  }

  /** A step only adds at the end of the log, and answers only there. */
  lemma StepAppends(s: State, e: Event, k: nat)
    requires Inv(s) && Enabled(s, e) && k < |s.received|
    ensures var s' := Next(s, e);
            && s'.methods == s.methods && s.received <= s'.received && s.log <= s'.log
            && (k in s'.answered ==> s'.answered[k] == if k in s.answered then s.answered[k] else |s.log|)
            && (k in s.answered ==> k in s'.answered)
  {
    hide Next, Deserved;
    StepMoves(s, e);
    assert TicketOk(s, k);
  }

  lemma StillAnnounced(s: State, e: Event, k: nat)
    requires Inv(s) && Enabled(s, e) && k < |s.received|
    requires OpensStreams(s.methods, s.received[k]) && AnnouncedFirst(s, k)
    ensures var s' := Next(s, e);
            s'.methods == s.methods && s.received <= s'.received && AnnouncedFirst(s', k)
  {
    hide Inv, Next;
    StepAppends(s, e, k);
    var q: nat :| AnnouncedAt(s, k, q) && (k in s.answered ==> q < s.answered[k]);
    assert Next(s, e).log[q] == s.log[q];
    assert AnnouncedAt(Next(s, e), k, q);
  }

  lemma NowAnnounced(s: State, m: Incoming)
    requires Inv(s) && Enabled(s, Receive(m)) && OpensStreams(s.methods, m)
    ensures AnnouncedFirst(Next(s, Receive(m)), |s.received|)
  {
    assert AnnouncedAt(Next(s, Receive(m)), |s.received|, |s.log|);
  }

  lemma StepKeepsAnnounced(s: State, e: Event)
    requires Inv(s) && Announced(s) && Enabled(s, e)
    ensures Announced(Next(s, e))
  {
    hide Inv, AnnouncedFirst;
    var s' := Next(s, e);
    forall k | 0 <= k < |s'.received| && OpensStreams(s'.methods, s'.received[k]) ensures AnnouncedFirst(s', k) {
      if k < |s.received| { StillAnnounced(s, e, k); } else { NowAnnounced(s, e.m); }
    }
  }

  lemma {:induction false} RunKeepsAnnounced(s: State, evs: seq<Event>)
    requires Inv(s) && Announced(s) && Runs(s, evs)
    ensures Announced(Exec(s, evs)) && Inv(Exec(s, evs))
    decreases |evs|
  {
    hide Inv, Announced, Next;
    if evs != [] {
      StepKeepsInv(s, evs[0]);
      StepKeepsAnnounced(s, evs[0]);
      RunKeepsAnnounced(Next(s, evs[0]), evs[1..]);
    }
  }

  /** The `streams_started` of a duplex call is enqueued before the call's own reply. */
  lemma StartedBeforeReply(methods: map<string, Method>, evs: seq<Event>, k: nat, p: nat)
    requires Runs(Init(methods), evs)
    requires var s := Exec(Init(methods), evs);
             k < |s.received| && OpensStreams(s.methods, s.received[k]) && AnsweredAt(s, k, p)
    ensures var s := Exec(Init(methods), evs); exists q: nat :: AnnouncedAt(s, k, q) && q < p
  {
    RunKeepsAnnounced(Init(methods), evs);
    var s := Exec(Init(methods), evs);
    assert AnnouncedFirst(s, k);
    var q: nat :| AnnouncedAt(s, k, q) && (k in s.answered ==> q < s.answered[k]);
  }

  // ---- Stream frames leave in order ----

  /** Where a stream is on the write channel. */
  datatype Phase = Unannounced | Streaming | Over

  ghost predicate ListedOnce(ids: seq<u32>, id: u32) {
    id in ids && forall i, j | 0 <= i < |ids| && 0 <= j < |ids| && ids[i] == id && ids[j] == id :: i == j
  }

  /** The phase of stream `id` after one more message, None if the message is out of place. */
  ghost function PhaseAfter(p: Option<Phase>, out: Out, id: u32): Option<Phase> {
    match out
    case Answer(_, _) => p
    case StreamsStarted(_, _, ids) =>
      if id !in ids then p else if p == Some(Unannounced) && ListedOnce(ids, id) then Some(Streaming) else None
    case StreamData(i, _) => if i == id && p != Some(Streaming) then None else p
    case StreamEnded(i) => if i != id then p else if p == Some(Streaming) then Some(Over) else None
  }

  ghost function PhaseIn(log: seq<Out>, id: u32): Option<Phase> {
    if log == [] then Some(Unannounced)
    else PhaseAfter(PhaseIn(log[..|log| - 1], id), log[|log| - 1], id)
  }

  function PhaseOf(s: State, id: u32): Phase {
    if id >= s.nextId then Unannounced else if id in s.readers then Streaming else Over
  }

  ghost predicate InOrder(s: State) {
    && s.nextId <= Calls.ID_LIMIT
    && (forall id | id in s.readers :: id < s.nextId)
    && forall id: u32 :: PhaseIn(s.log, id) == Some(PhaseOf(s, id))
  }

  lemma GrowsInOrder(s: State, s': State, out: Out, id: u32)
    requires InOrder(s) && Grows(s, s', out)
    ensures PhaseIn(s'.log, id) == Some(PhaseOf(s', id))
  {
    assert s'.log[..|s'.log| - 1] == s.log;
    if out.StreamsStarted? && s.nextId <= id < s.nextId + |out.ids| { assert out.ids[id - s.nextId] == id; }
  }

  lemma StepKeepsOrder(s: State, e: Event)
    requires InOrder(s) && Enabled(s, e)
    ensures InOrder(Next(s, e))
  {
    hide Next, PhaseIn;
    StepMoves(s, e);
    var s' := Next(s, e);
    if s'.log != s.log {
      var out := s'.log[|s.log|];
      forall id: u32 ensures PhaseIn(s'.log, id) == Some(PhaseOf(s', id)) { GrowsInOrder(s, s', out, id); }
    }
  }

  lemma {:induction false} RunKeepsOrder(s: State, evs: seq<Event>)
    requires InOrder(s) && Runs(s, evs)
    ensures InOrder(Exec(s, evs))
    decreases |evs|
  {
    hide InOrder, Next;
    if evs != [] {
      StepKeepsOrder(s, evs[0]);
      RunKeepsOrder(Next(s, evs[0]), evs[1..]);
    }
  }

  predicate ListedAt(log: seq<Out>, p: nat, id: u32) {
    p < |log| && log[p].StreamsStarted? && id in log[p].ids
  }

  predicate DataAt(log: seq<Out>, p: nat, id: u32) {
    p < |log| && log[p].StreamData? && log[p].id == id
  }

  predicate EndAt(log: seq<Out>, p: nat, id: u32) {
    p < |log| && log[p] == StreamEnded(id)
  }

  /** What a phase says about the places of a stream's messages. */
  ghost predicate Places(log: seq<Out>, id: u32, phase: Phase) {
    && (phase.Unannounced? ==> forall p: nat :: !ListedAt(log, p, id) && !DataAt(log, p, id) && !EndAt(log, p, id))
    && (phase.Streaming? ==> forall p: nat :: !EndAt(log, p, id))
    && (forall p: nat, q: nat :: ListedAt(log, p, id) && ListedAt(log, q, id) ==> p == q)
    && (!phase.Unannounced? ==> exists r: nat ::
          ListedAt(log, r, id) && forall p: nat :: DataAt(log, p, id) || EndAt(log, p, id) ==> r < p)
    && (forall p: nat, q: nat :: EndAt(log, q, id) && (DataAt(log, p, id) || EndAt(log, p, id)) ==> p <= q)
  }

  lemma PlacesOfPrefix(log: seq<Out>, p: nat, id: u32)
    requires log != [] && p != |log| - 1
    ensures ListedAt(log, p, id) <==> ListedAt(log[..|log| - 1], p, id)
    ensures DataAt(log, p, id) <==> DataAt(log[..|log| - 1], p, id)
    ensures EndAt(log, p, id) <==> EndAt(log[..|log| - 1], p, id)
  {}

  lemma {:induction false} PhasePlaces(log: seq<Out>, id: u32)
    requires PhaseIn(log, id).Some?
    ensures Places(log, id, PhaseIn(log, id).value)
    decreases |log|
  {
    if log != [] {
      var before, last: nat := log[..|log| - 1], |log| - 1;
      forall p: nat | p != last
        ensures ListedAt(log, p, id) <==> ListedAt(before, p, id)
        ensures DataAt(log, p, id) <==> DataAt(before, p, id)
        ensures EndAt(log, p, id) <==> EndAt(before, p, id)
      {
        PlacesOfPrefix(log, p, id);
      }
      PhasePlaces(before, id);
      var phase := PhaseIn(before, id).value;
      if !phase.Unannounced? {
        var r: nat :| ListedAt(before, r, id)
                      && forall p: nat :: DataAt(before, p, id) || EndAt(before, p, id) ==> r < p;
        assert ListedAt(log, r, id);
      } else if ListedAt(log, last, id) {
        assert forall p: nat :: !DataAt(log, p, id) && !EndAt(log, p, id);
      }
    }
  }

  /** Whatever the interleaving, every stream is announced at most once and ended at most once,
      all its data comes after its announcement and before its end. */
  lemma StreamFramesInOrder(methods: map<string, Method>, evs: seq<Event>, id: u32)
    requires Runs(Init(methods), evs)
    ensures var log := Exec(Init(methods), evs).log;
            && (forall p: nat, q: nat :: ListedAt(log, p, id) && ListedAt(log, q, id) ==> p == q)
            && (forall p: nat, q: nat :: EndAt(log, p, id) && EndAt(log, q, id) ==> p == q)
            && (forall p: nat :: DataAt(log, p, id) || EndAt(log, p, id) ==>
                  exists r: nat :: r < p && ListedAt(log, r, id))
            && (forall p: nat, q: nat :: DataAt(log, p, id) && EndAt(log, q, id) ==> p < q)
  {
    assert InOrder(Init(methods));
    RunKeepsOrder(Init(methods), evs);
    PhasePlaces(Exec(Init(methods), evs).log, id);
  }

  // ---- Stream readers send what they read ----

  /** What the reader of a stream read in a run, read by read. */
  function ReadsOf(evs: seq<Event>, id: u32): seq<seq<byte>> {
    if evs == [] then []
    else (if evs[0].Read? && evs[0].id == id then [evs[0].segment] else []) + ReadsOf(evs[1..], id)
  }

  /** The segments sent for a stream, message by message. */
  function SegmentsIn(log: seq<Out>, id: u32): seq<seq<byte>> {
    if log == [] then []
    else
      var last := log[|log| - 1];
      SegmentsIn(log[..|log| - 1], id) + if last.StreamData? && last.id == id then [last.segment] else []
  }

  lemma SegmentsPush(log: seq<Out>, out: Out, id: u32)
    ensures SegmentsIn(log + [out], id)
         == if out.StreamData? && out.id == id then SegmentsIn(log, id) + [out.segment] else SegmentsIn(log, id)
  {
    assert (log + [out])[..|log|] == log;
    assert SegmentsIn(log, id) + [] == SegmentsIn(log, id);
  }

  lemma StepSends(s: State, e: Event, id: u32)
    requires Enabled(s, e)
    ensures SegmentsIn(Next(s, e).log, id)
         == SegmentsIn(s.log, id) + if e.Read? && e.id == id then [e.segment] else []
    ensures StreamEnded(id) in Next(s, e).log <==> StreamEnded(id) in s.log || e == ReadEnd(id)
  {
    hide Next, SegmentsIn, Grows;
    StepMoves(s, e);
    var s' := Next(s, e);
    assert SegmentsIn(s.log, id) + [] == SegmentsIn(s.log, id);
    if s'.log != s.log {
      var out := s'.log[|s.log|];
      MovesAppends(s, e);
      SegmentsPush(s.log, out, id);
    }
  }

  lemma MovesAppends(s: State, e: Event)
    requires Enabled(s, e) && Next(s, e).log != s.log
    ensures |Next(s, e).log| == |s.log| + 1 && Next(s, e).log == s.log + [Next(s, e).log[|s.log|]]
  {
    hide Next;
    StepMoves(s, e);
  }

  lemma {:induction false} RunSends(s: State, evs: seq<Event>, id: u32)
    requires Runs(s, evs)
    ensures SegmentsIn(Exec(s, evs).log, id) == SegmentsIn(s.log, id) + ReadsOf(evs, id)
    ensures StreamEnded(id) in Exec(s, evs).log <==> StreamEnded(id) in s.log || ReadEnd(id) in evs
    ensures forall i | 0 <= i < |ReadsOf(evs, id)| :: 1 <= |ReadsOf(evs, id)[i]| <= READ_BUFFER
    decreases |evs|
  {
    hide Next, SegmentsIn;
    if evs != [] {
      var e, rest := evs[0], evs[1..];
      StepSends(s, e, id);
      RunSends(Next(s, e), rest, id);
      assert evs == [e] + rest;
      var now := if e.Read? && e.id == id then [e.segment] else [];
      assert SegmentsIn(s.log, id) + now + ReadsOf(rest, id) == SegmentsIn(s.log, id) + (now + ReadsOf(rest, id));
    }
  }

  lemma NothingSentYet(methods: map<string, Method>, id: u32)
    ensures SegmentsIn(Init(methods).log, id) == [] && StreamEnded(id) !in Init(methods).log
  {}

  /** Over every run, what is sent for a stream is what its reader read, read by read, 1 to 4096
      bytes at a time and in that order; an end is sent exactly if the reader came to its end. */
  lemma ReadersSendWhatTheyRead(methods: map<string, Method>, evs: seq<Event>, id: u32)
    requires Runs(Init(methods), evs)
    ensures var log := Exec(Init(methods), evs).log;
            && SegmentsIn(log, id) == ReadsOf(evs, id)
            && Flatten(SegmentsIn(log, id)) == Flatten(ReadsOf(evs, id))
            && (forall i | 0 <= i < |SegmentsIn(log, id)| :: 1 <= |SegmentsIn(log, id)[i]| <= 4096)
            && (StreamEnded(id) in log <==> ReadEnd(id) in evs)
            && (forall p: nat, q: nat :: DataAt(log, p, id) && EndAt(log, q, id) ==> p < q)
  {
    hide Exec, Runs, ReadsOf, Flatten, DataAt, EndAt, ListedAt;
    StreamFramesInOrder(methods, evs, id);
    RunSends(Init(methods), evs, id);
    NothingSentYet(methods, id);
    assert [] + ReadsOf(evs, id) == ReadsOf(evs, id);
  }
}
