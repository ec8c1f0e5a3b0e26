/** Progress of the receive loop (cli/src/msgpack_rpc.rs, 59 and 66-110): the task that
    alone empties the write queue also fills it while it drains decoded frames. */
module Backpressure {
  import opened Common
  import ReceiveLoop

  const CAPACITY: nat := 8

  /** What handling a frame enqueues: `direct` from the receive task itself (a sync reply or
      `streams_started`), `later` from the tasks it spawns. */
  datatype Cost = Cost(direct: bool, later: nat)

  datatype State = State(
    queue: nat,             // messages in the write queue
    senders: nat,           // messages that spawned tasks have yet to enqueue
    frames: seq<Cost>)      // decoded frames still to be handled before the next select

  datatype Event = Handle | SenderEnqueues | LoopDequeues

  predicate Valid(s: State) {
    s.queue <= CAPACITY
  }

  predicate Enabled(s: State, e: Event) {
    match e
    case Handle => s.frames != [] && (s.frames[0].direct ==> s.queue < CAPACITY)
    case SenderEnqueues => s.senders > 0 && s.queue < CAPACITY
    case LoopDequeues => s.frames == [] && s.queue > 0      // only back in the select
  }

  function Next(s: State, e: Event): State
    requires Enabled(s, e)
  {
    match e
    case Handle =>
      State(s.queue + (if s.frames[0].direct then 1 else 0), s.senders + s.frames[0].later, s.frames[1..])
    case SenderEnqueues => s.(queue := s.queue + 1, senders := s.senders - 1)
    case LoopDequeues => s.(queue := s.queue - 1)
  }

  predicate Runs(s: State, evs: seq<Event>)
    decreases |evs|
  {
    evs != [] ==> Enabled(s, evs[0]) && Runs(Next(s, evs[0]), evs[1..])
  }

  function Exec(s: State, evs: seq<Event>): State
    requires Runs(s, evs)
    decreases |evs|
  {
    if evs == [] then s else Exec(Next(s, evs[0]), evs[1..])
  }

  /** There are frames to handle and nothing at all can happen any more. */
  ghost predicate Blocked(s: State) {
    s.frames != [] && forall e :: !Enabled(s, e)
  }

  /** The run `evs` ends with the loop blocked. */
  ghost predicate BlocksAfter(s: State, evs: seq<Event>) {
    Runs(s, evs) && Blocked(Exec(s, evs))
  }

  /** The receive task waits for room in the queue that only it empties. */
  predicate WaitsForItself(s: State) {
    s.frames != [] && s.frames[0].direct && s.queue == CAPACITY
  }

  lemma BlockedOnItself(s: State)
    requires Valid(s)
    ensures Blocked(s) <==> WaitsForItself(s)
  {
    if Blocked(s) { assert !Enabled(s, Handle); }
  }

  /** Each direct message finds room even if every spawned sender went first. */
  predicate Fits(load: nat, frames: seq<Cost>)
    decreases |frames|
  {
    frames != [] ==>
      && (frames[0].direct ==> load < CAPACITY)
      && Fits(load + (if frames[0].direct then 1 else 0) + frames[0].later, frames[1..])
  }

  function Total(frames: seq<Cost>): nat {
    if frames == [] then 0
    else (if frames[0].direct then 1 else 0) + frames[0].later + Total(frames[1..])
  }

  /** The simple bound: queued, spawned and new messages together within the capacity. */
  lemma {:induction false} WithinCapacityFits(load: nat, frames: seq<Cost>)
    requires load + Total(frames) <= CAPACITY
    ensures Fits(load, frames)
    decreases |frames|
  {
    if frames != [] {
      WithinCapacityFits(load + (if frames[0].direct then 1 else 0) + frames[0].later, frames[1..]);
    }
  }

  /** When nothing is sent by spawned tasks, the bound is exact. */
  lemma {:induction false} FitsIffWithinCapacity(load: nat, frames: seq<Cost>)
    requires forall i | 0 <= i < |frames| :: frames[i] == Cost(true, 0)
    requires load <= CAPACITY
    ensures Fits(load, frames) <==> load + Total(frames) <= CAPACITY
    ensures Total(frames) == |frames|
    decreases |frames|
  {
    if frames != [] && load < CAPACITY {
      FitsIffWithinCapacity(load + 1, frames[1..]);
    } else if frames != [] {
      OnlyReplies(frames);
    }
  }

  lemma {:induction false} OnlyReplies(frames: seq<Cost>)
    requires forall i | 0 <= i < |frames| :: frames[i] == Cost(true, 0)
    ensures Total(frames) == |frames|
  {
    if frames != [] { OnlyReplies(frames[1..]); }
  }

  lemma {:induction false} FitsNeverBlocks(s: State, evs: seq<Event>)
    requires Valid(s) && Fits(s.queue + s.senders, s.frames) && Runs(s, evs)
    ensures Valid(Exec(s, evs)) && !Blocked(Exec(s, evs))
    ensures Exec(s, evs).frames != [] ==> Enabled(Exec(s, evs), Handle)
    decreases |evs|
  {
    BlockedOnItself(s);
    if evs != [] { FitsNeverBlocks(Next(s, evs[0]), evs[1..]); }
  }

  /** A schedule that blocks the loop: spawned senders always go first. */
  lemma {:induction false} BlockingRun(s: State) returns (evs: seq<Event>)
    requires Valid(s) && !Fits(s.queue + s.senders, s.frames)
    ensures Runs(s, evs) && Blocked(Exec(s, evs))
    decreases |s.frames|, s.senders
  {
    BlockedOnItself(s);
    if WaitsForItself(s) {
      evs := [];
    } else if s.senders > 0 && s.queue < CAPACITY {
      var rest := BlockingRun(Next(s, SenderEnqueues));
      evs := [SenderEnqueues] + rest;
      assert evs[1..] == rest;
    } else {
      var rest := BlockingRun(Next(s, Handle));
      evs := [Handle] + rest;
      assert evs[1..] == rest;
    }
  }

  /** Exactly when a drain can block the receive task on its own queue: some direct message
      may find the queue full. */
  lemma BlocksIffNoFit(s: State)
    requires Valid(s)
    ensures (exists evs :: BlocksAfter(s, evs)) <==> !Fits(s.queue + s.senders, s.frames)
  {
    if Fits(s.queue + s.senders, s.frames) {
      forall evs | Runs(s, evs) ensures !BlocksAfter(s, evs) { FitsNeverBlocks(s, evs); }
    } else {
      var evs := BlockingRun(s);
      assert BlocksAfter(s, evs);
    }
  }

  // ---- Frames as the receive loop handles them ----

  /** The cost of an incoming frame; `streamMessages` is what its stream readers send. */
  function CostOf(methods: map<string, ReceiveLoop.Method>, m: ReceiveLoop.Incoming, streamMessages: nat): Cost {
    match ReceiveLoop.Dispatch(methods, m)
    case Panic => Cost(false, 0)
    case Direct(reply) => Cost(reply.Some?, 0)
    case Future(fut) => Cost(false, if m.id.Some? then 1 else 0)
    case Stream(None, fut) => Cost(false, if m.id.Some? then 1 else 0)
    case Stream(Some(n), fut) => Cost(true, (if m.id.Some? then 1 else 0) + streamMessages)
  }

  /** A drain of sync requests with ids on an empty queue can block exactly if there are more than
      eight of them. */
  lemma RequestsBlockIff(methods: map<string, ReceiveLoop.Method>, m: ReceiveLoop.Incoming, frames: seq<Cost>)
    requires m.methodName.Some? && m.methodName.value in methods
    requires methods[m.methodName.value].Sync? && m.id.Some?
    requires forall i | 0 <= i < |frames| :: frames[i] == CostOf(methods, m, 0)
    ensures (exists evs :: BlocksAfter(State(0, 0, frames), evs)) <==> 8 < |frames|
  {
    FitsIffWithinCapacity(0, frames);
    BlocksIffNoFit(State(0, 0, frames));
  }
}
