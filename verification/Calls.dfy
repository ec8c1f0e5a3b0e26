/** Outgoing calls (cli/src/rpc.rs, 316-381 and 397-450): the id counter, the table of
    one-shot callbacks, and every interleaving of `call` with dispatched responses. */
module Calls {
  import opened Common

  const ID_LIMIT: nat := 0x1_0000_0000

  /** `fetch_add(1)` on a u32: wraps around. */
  function Bumped(id: u32): u32 {
    (id + 1) % ID_LIMIT
  }

  class MessageIds {
    var counter: u32

    constructor ()
      ensures counter == 0
    {
      counter := 0;
    }

    method NextMessageId() returns (id: u32)
      modifies this
      ensures id == old(counter) && counter == Bumped(old(counter))
    {
      id := counter;
      counter := if counter == ID_LIMIT - 1 then 0 else counter + 1;
    }
  }

  /** The first `n` ids handed out from a counter at `id`. */
  function IdsFrom(id: u32, n: nat): seq<u32>
    decreases n
  {
    if n == 0 then [] else [id] + IdsFrom(Bumped(id), n - 1)
  }

  lemma BumpedThen(id: u32, k: nat)
    ensures (Bumped(id) + k) % ID_LIMIT == (id + 1 + k) % ID_LIMIT
  {
    if id + 1 == ID_LIMIT {
      assert (ID_LIMIT + k) % ID_LIMIT == k % ID_LIMIT;
    }
  }

  lemma {:induction false} IdAt(id: u32, n: nat, k: nat)
    requires k < n
    ensures |IdsFrom(id, n)| == n && IdsFrom(id, n)[k] == (id + k) % ID_LIMIT
    decreases n
  {
    hide Bumped;
    if k > 0 {
      BumpedThen(id, k - 1);
      IdAt(Bumped(id), n - 1, k - 1);
    } else if n > 1 {
      IdAt(Bumped(id), n - 1, 0);
    }
  }

  /** Ids repeat exactly when more than 2^32 of them have been handed out. */
  lemma IdsFreshUntilWrap(n: nat)
    ensures |IdsFrom(0, n)| == n
    ensures (forall i, j | 0 <= i < j < n :: IdsFrom(0, n)[i] != IdsFrom(0, n)[j]) <==> n <= 0x1_0000_0000
  {
    if n > 0 { IdAt(0, n, 0); }
    forall i | 0 <= i < n ensures IdsFrom(0, n)[i] == i % ID_LIMIT { IdAt(0, n, i); }
    if n > ID_LIMIT {
      assert IdsFrom(0, n)[0] == IdsFrom(0, n)[ID_LIMIT];
    }
  }

  // ---- The call table ----

  /** A call is named by its position among all calls. */
  type CallNo = nat

  datatype ResponseError = ResponseError(code: int, message: string)

  /** A response frame: its id, its error if it has one, and all its bytes. */
  datatype Response = Response(id: u32, error: Option<ResponseError>, body: seq<byte>)

  datatype Outcome = Success(body: seq<byte>) | Error(code: int, message: string)

  /** What a response's callback is called with. */
  function OutcomeOf(r: Response): Outcome {
    match r.error
    case Some(e) => Error(e.code, e.message)
    case None => Success(r.body)
  }

  /** A callback that was run: which call, the id the response carried, what it got. */
  datatype Fire = Fire(call: CallNo, id: u32, outcome: Outcome)

  /** The shared `calls` map. */
  class CallTable {
    var calls: map<u32, CallNo>

    constructor ()
      ensures calls == map[]
    {
      calls := map[];
    }

    method Insert(id: u32, call: CallNo)
      modifies this
      ensures calls == old(calls)[id := call]
    {
      calls := calls[id := call];
    }

    /** Takes the callback out, so that it can be run once. */
    method Take(id: u32) returns (call: Option<CallNo>)
      modifies this
      ensures call == Lookup(old(calls), id)
      ensures calls == old(calls) - {id}
    {
      if id in calls {
        call := Some(calls[id]);
        calls := calls - {id};
      } else {
        call := None;
      }
    }
  }

  function Lookup(calls: map<u32, CallNo>, id: u32): Option<CallNo> {
    if id in calls then Some(calls[id]) else None
  }

  datatype State = State(
    nextId: nat,                   // the id counter, short of wrapping
    ids: seq<u32>,                 // the id of each call begun so far
    unsent: set<CallNo>,           // the outbound channel was closed
    window: set<CallNo>,           // request sent, callback not inserted yet
    calls: map<u32, CallNo>,
    fired: seq<Fire>)

  datatype Event =
    | Begin(sent: bool)                       // id allocated, request handed to the sender
    | TakeIds(n: nat)                         // ids allocated for streams, or by another caller
    | Register(call: CallNo)                  // callback inserted
    | Respond(r: Response)                    // a response is dispatched

  const INITIAL := State(0, [], {}, {}, map[], [])

  predicate Enabled(s: State, e: Event) {
    match e
    case Begin(_) => s.nextId < ID_LIMIT
    case TakeIds(n) => s.nextId + n <= ID_LIMIT
    case Register(call) => call in s.window && call < |s.ids|
    case Respond(_) => true
  }

  function Next(s: State, e: Event): State
    requires Enabled(s, e)
  {
    match e
    case Begin(sent) =>
      var s1 := s.(nextId := s.nextId + 1, ids := s.ids + [s.nextId]);
      if sent then s1.(window := s.window + {|s.ids|}) else s1.(unsent := s.unsent + {|s.ids|})
    case TakeIds(n) => s.(nextId := s.nextId + n)
    case Register(call) => s.(window := s.window - {call}, calls := s.calls[s.ids[call] := call])
    case Respond(r) =>
      (match Lookup(s.calls, r.id)
       case Some(call) => s.(calls := s.calls - {r.id}, fired := s.fired + [Fire(call, r.id, OutcomeOf(r))])
       case None => s)
  }

  predicate Runs(s: State, evs: seq<Event>)
    decreases |evs|
  {
    evs != [] ==> Enabled(s, evs[0]) && Runs(Next(s, evs[0]), evs[1..])
  }

  function Exec(s: State, evs: seq<Event>): State
    requires Runs(s, evs)
    decreases |evs|
  {
    if evs == [] then s else Exec(Next(s, evs[0]), evs[1..])
  }

  ghost predicate Fired(s: State, call: CallNo) {
    exists p :: 0 <= p < |s.fired| && s.fired[p].call == call
  }

  predicate Pending(s: State, call: CallNo) {
    call < |s.ids| && Lookup(s.calls, s.ids[call]) == Some(call)
  }

  /** Where a call stands: exactly one of the four, once it is begun. */
  ghost predicate Placed(s: State, call: CallNo) {
    && (call in s.unsent ==> call !in s.window && !Pending(s, call) && !Fired(s, call))
    && (call in s.window ==> !Pending(s, call) && !Fired(s, call))
    && (Pending(s, call) ==> !Fired(s, call))
    && (call < |s.ids| <==> call in s.unsent || call in s.window || Pending(s, call) || Fired(s, call))
  }

  ghost predicate IdsOk(s: State) {
    && s.nextId <= ID_LIMIT && NoDuplicates(s.ids)
    && (forall k | 0 <= k < |s.ids| :: s.ids[k] < s.nextId)
    && (forall id | id in s.calls :: s.calls[id] < |s.ids| && s.ids[s.calls[id]] == id)
    && (forall p | 0 <= p < |s.fired| :: s.fired[p].call < |s.ids| && s.fired[p].id == s.ids[s.fired[p].call])
  }

  ghost predicate Inv(s: State) {
    && IdsOk(s)
    && (forall call: CallNo :: Placed(s, call))
    && (forall p, q | 0 <= p < q < |s.fired| :: s.fired[p].call != s.fired[q].call)
  }

  lemma StepKeepsIds(s: State, e: Event)
    requires IdsOk(s) && Enabled(s, e)
    ensures IdsOk(Next(s, e)) && s.ids <= Next(s, e).ids
  {}

  predicate Answers(e: Event, id: u32) {
    e.Respond? && e.r.id == id
  }

  /** How a step moves a call on. */
  lemma StepMoves(s: State, e: Event, call: CallNo)
    requires IdsOk(s) && Enabled(s, e) && (Pending(s, call) ==> !Fired(s, call))
    ensures var s' := Next(s, e);
            && (Pending(s', call) <==> e == Register(call) || (Pending(s, call) && !Answers(e, s.ids[call])))
            && (Fired(s', call) <==> Fired(s, call) || (Pending(s, call) && Answers(e, s.ids[call])))
  {
    var s' := Next(s, e);
    forall p | 0 <= p < |s.fired| ensures s'.fired[p] == s.fired[p] {}
    if |s'.fired| > |s.fired| { assert s'.fired[|s.fired|] == Fire(s.calls[e.r.id], e.r.id, OutcomeOf(e.r)); }
    if Fired(s, call) {
      var p :| 0 <= p < |s.fired| && s.fired[p].call == call;
      assert s'.fired[p].call == call;
    }
  }

  lemma StepKeepsInv(s: State, e: Event)
    requires Inv(s) && Enabled(s, e)
    ensures Inv(Next(s, e))
  {
    hide IdsOk, Fired, Pending;
    StepKeepsIds(s, e);
    forall call: CallNo ensures Placed(Next(s, e), call) {
      assert Placed(s, call);
      StepMoves(s, e, call);
      StepPlaces(s, e, call);
    }
    FiresOnce(s, e);
  }

  lemma StepPlaces(s: State, e: Event, call: CallNo)
    requires Enabled(s, e) && Placed(s, call) && IdsOk(s)
    requires var s' := Next(s, e);
             && (Pending(s', call) <==> e == Register(call) || (Pending(s, call) && !Answers(e, s.ids[call])))
             && (Fired(s', call) <==> Fired(s, call) || (Pending(s, call) && Answers(e, s.ids[call])))
    ensures Placed(Next(s, e), call)
  {
    hide IdsOk, Fired;
  }

  lemma FiresOnce(s: State, e: Event)
    requires Inv(s) && Enabled(s, e)
    ensures var fired := Next(s, e).fired; forall p, q | 0 <= p < q < |fired| :: fired[p].call != fired[q].call
  {
    if e.Respond? && e.r.id in s.calls { assert Placed(s, s.calls[e.r.id]) && Pending(s, s.calls[e.r.id]); }
  }

  lemma {:induction false} RunKeepsInv(s: State, evs: seq<Event>)
    requires Inv(s) && Runs(s, evs)
    ensures Inv(Exec(s, evs)) && s.ids <= Exec(s, evs).ids
    decreases |evs|
  {
    hide Inv, Next;
    if evs != [] {
      StepKeepsInv(s, evs[0]);
      InvIds(s, evs[0]);
      RunKeepsInv(Next(s, evs[0]), evs[1..]);
    }
  }

  lemma InvIds(s: State, e: Event)
    requires Inv(s) && Enabled(s, e)
    ensures s.ids <= Next(s, e).ids
  {
    StepKeepsIds(s, e);
  }

  lemma InitialInv()
    ensures Inv(INITIAL)
  {}

  /** Over every interleaving: a callback runs at most once, only with a response carrying the
      id its call was sent with, which no other call has; and every call is in exactly one
      place: not sent, not yet inserted, pending or completed. */
  lemma OneShot(evs: seq<Event>)
    requires Runs(INITIAL, evs)
    ensures var s := Exec(INITIAL, evs);
            && NoDuplicates(s.ids)
            && (forall p, q | 0 <= p < q < |s.fired| :: s.fired[p].call != s.fired[q].call)
            && (forall p | 0 <= p < |s.fired| ::
                  s.fired[p].call < |s.ids| && s.fired[p].id == s.ids[s.fired[p].call])
            && (forall call: CallNo :: Placed(s, call))
  {
    InitialInv();
    RunKeepsInv(INITIAL, evs);
  }

  // ---- Completion over a run ----

  ghost predicate Answered(evs: seq<Event>, id: u32) {
    exists j :: 0 <= j < |evs| && Answers(evs[j], id)
  }

  /** Some response with the id comes after the callback was inserted. */
  ghost predicate AnsweredInTime(evs: seq<Event>, call: CallNo, id: u32) {
    exists i, j :: 0 <= i < j < |evs| && evs[i] == Register(call) && Answers(evs[j], id)
  }

  lemma AnsweredCons(evs: seq<Event>, id: u32)
    requires evs != []
    ensures Answered(evs, id) <==> Answers(evs[0], id) || Answered(evs[1..], id)
  {
    var rest := evs[1..];
    if Answered(evs, id) {
      var j :| 0 <= j < |evs| && Answers(evs[j], id);
      if j > 0 { assert rest[j - 1] == evs[j]; }
    }
    if Answered(rest, id) {
      var j :| 0 <= j < |rest| && Answers(rest[j], id);
      assert evs[j + 1] == rest[j];
    }
  }

  lemma InTimeCons(evs: seq<Event>, call: CallNo, id: u32)
    requires evs != []
    ensures AnsweredInTime(evs, call, id)
       <==> (evs[0] == Register(call) && Answered(evs[1..], id)) || AnsweredInTime(evs[1..], call, id)
  {
    var rest := evs[1..];
    if AnsweredInTime(evs, call, id) {
      var i, j :| 0 <= i < j < |evs| && evs[i] == Register(call) && Answers(evs[j], id);
      assert rest[j - 1] == evs[j];
      if i > 0 { assert rest[i - 1] == evs[i]; }
    }
    if evs[0] == Register(call) && Answered(rest, id) {
      var j :| 0 <= j < |rest| && Answers(rest[j], id);
      assert evs[j + 1] == rest[j];
    }
    if AnsweredInTime(rest, call, id) {
      var i, j :| 0 <= i < j < |rest| && rest[i] == Register(call) && Answers(rest[j], id);
      assert evs[i + 1] == rest[i] && evs[j + 1] == rest[j];
    }
  }

  /** From any state: a call is completed by the end of a run exactly if it was so before, or was
      pending and is answered, or is inserted and answered after that. */
  lemma {:induction false} CompletedFrom(s: State, evs: seq<Event>, call: CallNo)
    requires Inv(s) && Runs(s, evs) && call < |Exec(s, evs).ids|
    ensures var s' := Exec(s, evs);
            var id := s'.ids[call];
            (Fired(s', call) <==>
               Fired(s, call) || (Pending(s, call) && Answered(evs, id)) || AnsweredInTime(evs, call, id))
    decreases |evs|
  {
    hide Next, Fired, Answered, AnsweredInTime, Answers;
    if evs == [] {
      NoneAnswered(call, s.ids[call]);
    } else {
      var id := Exec(s, evs).ids[call];
      var s' := Next(s, evs[0]);
      StepKeepsInv(s, evs[0]);
      RunKeepsInv(s, evs);
      RunKeepsInv(s', evs[1..]);
      assert Placed(s, call);
      StepMoves(s, evs[0], call);
      AnsweredCons(evs, id);
      InTimeCons(evs, call, id);
      CompletedFrom(s', evs[1..], call);
    }
  }

  lemma NoneAnswered(call: CallNo, id: u32)
    ensures !Answered([], id) && !AnsweredInTime([], call, id)
  {}

  /** A call is completed exactly if some response with its id is dispatched after its callback
      was inserted. */
  lemma CompletedIff(evs: seq<Event>, call: CallNo)
    requires Runs(INITIAL, evs) && call < |Exec(INITIAL, evs).ids|
    ensures var s := Exec(INITIAL, evs); Fired(s, call) <==> AnsweredInTime(evs, call, s.ids[call])
  {
    InitialInv();
    CompletedFrom(INITIAL, evs, call);
  }

  // ---- What a completed call is told ----

  /** `evs[j]` is the first answer after `evs[i]`. */
  ghost predicate FirstAnswer(evs: seq<Event>, i: int, j: int, id: u32) {
    -1 <= i < j < |evs| && Answers(evs[j], id) && forall k | i < k < j :: !Answers(evs[k], id)
  }

  /** What a response tells the caller: its error, code and message, if it has one, and else all
      its bytes. */
  predicate Tells(o: Outcome, r: Response) {
    match o
    case Error(code, message) => r.error == Some(ResponseError(code, message))
    case Success(body) => r.error == None && body == r.body
  }

  ghost predicate ToldByFirst(evs: seq<Event>, i: int, j: int, fire: Fire) {
    FirstAnswer(evs, i, j, fire.id) && Tells(fire.outcome, evs[j].r)
  }

  lemma ToldLater(evs: seq<Event>, i: int, j: int, fire: Fire)
    requires evs != [] && ToldByFirst(evs[1..], i, j, fire)
    requires 0 <= i || !Answers(evs[0], fire.id)
    ensures ToldByFirst(evs, if 0 <= i then i + 1 else -1, j + 1, fire)
  {
    forall k | 0 < k < |evs| ensures evs[k] == evs[1..][k - 1] {}
  }

  lemma ToldAfterRegister(evs: seq<Event>, j: int, fire: Fire)
    requires evs != [] && ToldByFirst(evs[1..], -1, j, fire)
    ensures ToldByFirst(evs, 0, j + 1, fire)
  {
    forall k | 0 < k < |evs| ensures evs[k] == evs[1..][k - 1] {}
  }

  lemma FiredStays(s: State, evs: seq<Event>)
    requires Runs(s, evs)
    ensures s.fired <= Exec(s, evs).fired
    decreases |evs|
  {
    if evs != [] { FiredStays(Next(s, evs[0]), evs[1..]); }
  }

  /** From any state: what a call completed in the run was told, by the first answer after its
      callback was inserted, or in the whole run if it was pending before (`i` is -1 then). */
  lemma {:induction false} ToldFrom(s: State, evs: seq<Event>, p: nat) returns (i: int, j: int)
    requires Inv(s) && Runs(s, evs) && |s.fired| <= p < |Exec(s, evs).fired|
    ensures var fire := Exec(s, evs).fired[p];
            && ToldByFirst(evs, i, j, fire)
            && (if i < 0 then Pending(s, fire.call) else evs[i] == Register(fire.call))
    decreases |evs|
  {
    var e, rest, s' := evs[0], evs[1..], Next(s, evs[0]);
    var fire := Exec(s, evs).fired[p];
    StepKeepsInv(s, e);
    RunKeepsInv(s, evs);
    FiredStays(s', rest);
    assert Placed(s, fire.call);
    if p < |s'.fired| {
      i, j := -1, 0;
      assert fire == s'.fired[p] && e.r.id == fire.id;
    } else {
      i, j := ToldFrom(s', rest, p);
      if i < 0 {
        NotYet(s, fire.call);
        StepMoves(s, e, fire.call);
        StillItsId(s', rest, p);
        if e == Register(fire.call) {
          ToldAfterRegister(evs, j, fire);
          i, j := 0, j + 1;
        } else {
          StillItsId(s, evs, p);
          ToldLater(evs, i, j, fire);
          j := j + 1;
        }
      } else {
        ToldLater(evs, i, j, fire);
        assert evs[i + 1] == rest[i];
        i, j := i + 1, j + 1;
      }
    }
  }

  lemma StillItsId(s: State, evs: seq<Event>, p: nat)
    requires Inv(s) && Runs(s, evs) && p < |Exec(s, evs).fired|
    ensures var fire := Exec(s, evs).fired[p]; fire.call < |s.ids| ==> s.ids[fire.call] == fire.id
  {
    RunKeepsInv(s, evs);
    var s' := Exec(s, evs);
    assert s'.fired[p].id == s'.ids[s'.fired[p].call];
  }

  /** A completed call was told exactly what the first response with its id after its insertion
      says. */
  lemma ToldByFirstResponse(evs: seq<Event>, p: nat)
    requires Runs(INITIAL, evs) && p < |Exec(INITIAL, evs).fired|
    ensures var fire := Exec(INITIAL, evs).fired[p];
            exists i, j :: 0 <= i && ToldByFirst(evs, i, j, fire) && evs[i] == Register(fire.call)
  {
    InitialInv();
    var i, j := ToldFrom(INITIAL, evs, p);
  }

  lemma {:induction false} StaysPending(s: State, evs: seq<Event>, call: CallNo)
    requires Inv(s) && Runs(s, evs) && Pending(s, call) && !Answered(evs, s.ids[call])
    ensures Inv(Exec(s, evs)) && Pending(Exec(s, evs), call) && Exec(s, evs).ids[call] == s.ids[call]
    decreases |evs|
  {
    hide Next, Inv, Answered, Answers;
    if evs != [] {
      AnsweredCons(evs, s.ids[call]);
      StepKeepsInv(s, evs[0]);
      InvIds(s, evs[0]);
      NotYet(s, call);
      StepMoves(s, evs[0], call);
      StaysPending(Next(s, evs[0]), evs[1..], call);
    }
  }

  lemma NotYet(s: State, call: CallNo)
    requires Inv(s)
    ensures IdsOk(s) && (Pending(s, call) ==> !Fired(s, call))
  {
    assert Placed(s, call);
  }

  /** The first response dispatched after the callback was inserted completes the call,
      whatever happens in between; the next one with the same id does nothing. */
  lemma FirstResponseCompletes(before: seq<Event>, between: seq<Event>, call: CallNo, r: Response, r': Response)
    requires Runs(INITIAL, before) && Pending(Exec(INITIAL, before), call)
    requires Runs(Exec(INITIAL, before), between)
    requires var id := Exec(INITIAL, before).ids[call]; !Answered(between, id) && r.id == id && r'.id == id
    ensures var s := Exec(Exec(INITIAL, before), between);
            var s' := Next(s, Respond(r));
            && s'.fired == s.fired + [Fire(call, r.id, OutcomeOf(r))]
            && Next(s', Respond(r')) == s'
  {
    InitialInv();
    RunKeepsInv(INITIAL, before);
    StaysPending(Exec(INITIAL, before), between, call);
  }

  /** A response dispatched in the window between send and insert is dropped: the call then waits
      for another one, and in every continuation without such a response after its insertion it
      is still not inserted or pending. */
  lemma ResponseInWindowIsLost(before: seq<Event>, after: seq<Event>, call: CallNo, r: Response)
    requires Runs(INITIAL, before) && call in Exec(INITIAL, before).window
    ensures var s := Exec(INITIAL, before);
            && call < |s.ids| && (r.id == s.ids[call] ==> Next(s, Respond(r)) == s)
            && (Runs(s, after) && !AnsweredInTime(after, call, s.ids[call]) ==>
                  var s' := Exec(s, after); call in s'.window || Pending(s', call))
  {
    hide Exec;
    InitialInv();
    RunKeepsInv(INITIAL, before);
    var s := Exec(INITIAL, before);
    assert Placed(s, call);
    DroppedInWindow(s, call, r);
    if Runs(s, after) {
      RunKeepsInv(s, after);
      CompletedFrom(s, after, call);
      StaysSent(s, after, call);
      assert Placed(Exec(s, after), call);
    }
  }

  lemma DroppedInWindow(s: State, call: CallNo, r: Response)
    requires Inv(s) && call in s.window
    ensures call < |s.ids| && (r.id == s.ids[call] ==> Next(s, Respond(r)) == s)
  {
    assert Placed(s, call);
  }

  lemma {:induction false} StaysSent(s: State, evs: seq<Event>, call: CallNo)
    requires Runs(s, evs) && call !in s.unsent && call < |s.ids|
    ensures call !in Exec(s, evs).unsent
    decreases |evs|
  {
    if evs != [] { StaysSent(Next(s, evs[0]), evs[1..], call); }
  }
}
