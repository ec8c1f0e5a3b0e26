/** What every run of the stream table guarantees (cli/src/rpc.rs, 531-631), as long as no
    insert finds a record of its id, and that this condition is exact. */
module StreamProperties {
  import opened Common
  import opened StreamTable
  import opened StreamRuns

  // ---- Safety over all guarded runs ----

  lemma {:induction false} RunKeepsInv(s: State, evs: seq<Event>)
    requires Inv(s) && Runs(s, evs) && GuardedRun(s, evs)
    ensures Inv(Exec(s, evs))
    decreases |evs|
  {
    if evs != [] {
      StepKeepsInv(s, evs[0]);
      RunKeepsInv(Next(s, evs[0]), evs[1..]);
    }
  }

  lemma ReachableInv(evs: seq<Event>)
    requires Runs(INITIAL, evs) && GuardedRun(INITIAL, evs)
    ensures Inv(Exec(INITIAL, evs))
  {
    RunKeepsInv(INITIAL, evs);
  }

  datatype Holder = InRecord(id: u32) | InTask(t: TaskId)

  ghost predicate Holds(s: State, x: Holder, w: Handle) {
    match x
    case InRecord(id) => id in s.recs && s.recs[id].write == Some(w)
    case InTask(t) => t in s.tasks && s.tasks[t].w == w
  }

  ghost predicate HeldBy(s: State, x: Holder, w: Handle) {
    Holds(s, x, w) && forall y :: Holds(s, y, w) ==> y == x
  }

  /** A half is held in exactly one place until it is shut down, and nowhere after that. */
  ghost predicate HeldOnce(s: State, w: Handle)
    requires w in s.halves
  {
    if s.halves[w].shutdowns == 0 then exists x :: HeldBy(s, x, w) else forall x :: !Holds(s, x, w)
  }

  /** The write loops at work for a stream. */
  ghost function LoopsOf(s: State, id: u32): set<TaskId> {
    set t | t in s.tasks && s.tasks[t].id == id && !s.tasks[t].Closing?
  }

  /** A mapped stream has its half parked and no write loop, or exactly one write loop. */
  ghost predicate Served(s: State, id: u32)
    requires id in s.recs
  {
    if s.recs[id].write.Some? then LoopsOf(s, id) == {} else exists t :: LoopsOf(s, id) == {t}
  }

  ghost predicate Owned(s: State) {
    && (forall w | w in s.halves :: HeldOnce(s, w))
    && (forall id | id in s.recs :: Served(s, id))
  }

  lemma OnlyHolder(s: State, x: Holder, w: Handle)
    requires Inv(s) && Holds(s, x, w)
    ensures w in s.halves && s.halves[w].shutdowns == 0
    ensures match x
            case InRecord(id) => id in s.current && s.current[id] == w && s.halves[w].id == id && TaskOf(s, w) == None
            case InTask(t) => w in s.newest && s.newest[w] == t && TaskOf(s, w).Some?
  {
    match x {
      case InRecord(id) => OwnerSees(s, id);
      case InTask(t) => LiveTask(s, t);
    }
  }

  lemma InvHoldsOnce(s: State, w: Handle)
    requires Inv(s) && w in s.halves
    ensures HeldOnce(s, w)
  {
    hide Inv;
    forall x | Holds(s, x, w) ensures s.halves[w].shutdowns == 0 { OnlyHolder(s, x, w); }
    if s.halves[w].shutdowns == 0 {
      var x := HolderOf(s, w);
      OnlyHolder(s, x, w);
      forall y | Holds(s, y, w) ensures y == x { OnlyHolder(s, y, w); }
      assert HeldBy(s, x, w);
    }
  }

  lemma HolderOf(s: State, w: Handle) returns (x: Holder)
    requires Inv(s) && w in s.halves && s.halves[w].shutdowns == 0
    ensures Holds(s, x, w)
  {
    assert HalfOk(ViewOf(s, w));
    OwnTask(s, w);
    x := if TaskOf(s, w).Some? then InTask(s.newest[w]) else InRecord(s.halves[w].id);
  }

  lemma LoopOwns(s: State, t: TaskId, id: u32)
    requires Inv(s) && t in LoopsOf(s, id)
    ensures id in s.recs && id in s.current && s.tasks[t].w == s.current[id]
    ensures s.current[id] in s.newest && s.newest[s.current[id]] == t
  {
    LiveTask(s, t);
  }

  lemma InvServes(s: State, id: u32)
    requires Inv(s) && id in s.recs
    ensures Served(s, id) && id in s.current
    ensures if s.recs[id].write.Some? then s.recs[id] == StreamRec(Some(s.current[id]), [], false)
            else exists t :: LoopsOf(s, id) == {t} && s.tasks[t].w == s.current[id]
  {
    OwnerSees(s, id);
    var w := s.current[id];
    forall t | t in LoopsOf(s, id) ensures w in s.newest && s.newest[w] == t && s.tasks[t].w == w {
      LoopOwns(s, t, id);
    }
    if s.recs[id].write.None? {
      OwnTask(s, w);
      LiveTask(s, s.newest[w]);
      assert LoopsOf(s, id) == {s.newest[w]};
    }
  }

  lemma InvIsOwned(s: State)
    requires Inv(s)
    ensures Owned(s)
  {
    hide Inv, HeldOnce, Served;
    forall w | w in s.halves ensures HeldOnce(s, w) { InvHoldsOnce(s, w); }
    forall id | id in s.recs ensures Served(s, id) { InvServes(s, id); }
  }

  /** Single ownership: a mapped stream's write half is parked in its record, whose queue is
      then empty and which has no loop, or held by its only write loop.  Never both, never
      neither. */
  lemma OneOwner(evs: seq<Event>, id: u32)
    requires Runs(INITIAL, evs) && GuardedRun(INITIAL, evs)
    requires id in Exec(INITIAL, evs).recs
    ensures var s := Exec(INITIAL, evs);
            && id in s.current && Served(s, id)
            && (if s.recs[id].write.Some? then s.recs[id] == StreamRec(Some(s.current[id]), [], false)
                else exists t :: LoopsOf(s, id) == {t} && s.tasks[t].w == s.current[id])
  {
    ReachableInv(evs);
    InvServes(Exec(INITIAL, evs), id);
  }

  /** Every write half is in exactly one place, a record or a task, until it is shut down. */
  lemma HalvesNotShared(evs: seq<Event>, w: Handle)
    requires Runs(INITIAL, evs) && GuardedRun(INITIAL, evs)
    requires w in Exec(INITIAL, evs).halves
    ensures HeldOnce(Exec(INITIAL, evs), w)
  {
    ReachableInv(evs);
    InvHoldsOnce(Exec(INITIAL, evs), w);
  }

  // ---- Without the guard ----

  lemma ParkedHalfDropped(s: State, id: u32, w: Handle)
    requires Inv(s) && id in s.recs && s.recs[id].write.Some? && w !in s.halves
    ensures var s', first := AfterInsert(s, id, w), s.recs[id].write.value;
            first in s'.halves && !HeldOnce(s', first)
  {
    var s', first := AfterInsert(s, id, w), s.recs[id].write.value;
    OnlyHolder(s, InRecord(id), first);
    forall x ensures !Holds(s', x, first) {
      if Holds(s', x, first) {
        assert Holds(s, x, first);
        OnlyHolder(s, x, first);
      }
    }
  }

  lemma LoopGoesOn(s: State, id: u32, w: Handle)
    requires Inv(s) && id in s.recs && s.recs[id].write.None? && w !in s.halves
    ensures id in AfterInsert(s, id, w).recs && !Served(AfterInsert(s, id, w), id)
  {
    InvServes(s, id);
    assert LoopsOf(AfterInsert(s, id, w), id) == LoopsOf(s, id);
  }

  /** An insert that finds a record drops the half parked there, or puts a parked half next to
      a loop that is still running. */
  lemma UnguardedInsert(s: State, id: u32, w: Handle)
    requires Inv(s) && id in s.recs && w !in s.halves
    ensures !Owned(AfterInsert(s, id, w))
  {
    hide Inv, HeldOnce, Served;
    if s.recs[id].write.Some? { ParkedHalfDropped(s, id, w); } else { LoopGoesOn(s, id, w); }
  }

  /** Ownership holds at every moment of the run. */
  ghost predicate OwnedThroughout(s: State, evs: seq<Event>)
    requires Runs(s, evs)
    decreases |evs|
  {
    Owned(s) && (evs != [] ==> OwnedThroughout(Next(s, evs[0]), evs[1..]))
  }

  /** Ownership holds throughout a run exactly if no insert finds a record of its id. */
  lemma {:induction false} OwnedIffGuarded(s: State, evs: seq<Event>)
    requires Inv(s) && Runs(s, evs)
    ensures OwnedThroughout(s, evs) <==> GuardedRun(s, evs)
    decreases |evs|
  {
    hide Inv, Owned, Next;
    InvIsOwned(s);
    if evs != [] {
      if Guarded(s, evs[0]) {
        StepKeepsInv(s, evs[0]);
        OwnedIffGuarded(Next(s, evs[0]), evs[1..]);
      } else {
        UnguardedStep(s, evs[0]);
      }
    }
  }

  lemma UnguardedStep(s: State, e: Event)
    requires Inv(s) && Enabled(s, e) && !Guarded(s, e)
    ensures !Owned(Next(s, e))
  {
    UnguardedInsert(s, e.id, e.w);
  }

  ghost predicate Stranded(s: State, w: Handle) {
    w in s.halves && forall x :: !Holds(s, x, w)
  }

  lemma SpawnerLeavesStranded(s: State, e: Event, w: Handle)
    requires Stranded(s, w) && (e.Write? || e.Remove?) && !Holds(s, InRecord(e.id), w)
    ensures Stranded(Next(s, e), w)
    ensures Next(s, e).halves[w].delivered == s.halves[w].delivered
    ensures Next(s, e).halves[w].shutdowns == s.halves[w].shutdowns
  {
    forall x ensures !Holds(Next(s, e), x, w) { assert !Holds(s, x, w); }
  }

  lemma StepLeavesStranded(s: State, e: Event, w: Handle)
    requires Stranded(s, w) && Enabled(s, e)
    ensures Stranded(Next(s, e), w)
    ensures Next(s, e).halves[w].delivered == s.halves[w].delivered
    ensures Next(s, e).halves[w].shutdowns == s.halves[w].shutdowns
  {
    if e.Write? || e.Remove? {
      assert !Holds(s, InRecord(e.id), w);
      SpawnerLeavesStranded(s, e, w);
    } else {
      if TaskEvent(e) { assert !Holds(s, InTask(e.t), w); }
      forall x ensures !Holds(Next(s, e), x, w) { assert !Holds(s, x, w); }
    }
  }

  /** A half that is nowhere never gets another byte and is never shut down again. */
  lemma {:induction false} StrandedForGood(s: State, evs: seq<Event>, w: Handle)
    requires Stranded(s, w) && Runs(s, evs)
    ensures Stranded(Exec(s, evs), w)
    ensures Exec(s, evs).halves[w].delivered == s.halves[w].delivered
    ensures Exec(s, evs).halves[w].shutdowns == s.halves[w].shutdowns
    decreases |evs|
  {
    hide Next;
    if evs != [] {
      StepLeavesStranded(s, evs[0], w);
      StrandedForGood(Next(s, evs[0]), evs[1..], w);
    }
  }

  lemma RunsStep(s: State, e: Event, rest: seq<Event>)
    requires Enabled(s, e) && Runs(Next(s, e), rest)
    ensures Runs(s, [e] + rest) && Exec(s, [e] + rest) == Exec(Next(s, e), rest)
    ensures GuardedRun(s, [e] + rest) <==> Guarded(s, e) && GuardedRun(Next(s, e), rest)
  {
    assert ([e] + rest)[1..] == rest;
  }

  lemma LoopStarted(id: u32, w: Handle, buf: Buf)
    ensures var s := AfterWrite(AfterInsert(INITIAL, id, w), id, buf);
            && s.recs == map[id := StreamRec(None, [buf], false)] && s.tasks == map[0 := Locking(id, w)]
            && s.halves == map[w := Half(id, buf, [], false, 0)]
  {
    assert [] + [buf] == [buf] && [] + buf == buf;
  }

  lemma LoopParksOldHalf(s: State, id: u32, first: Handle, second: Handle)
    requires s.recs == map[id := StreamRec(Some(second), [], false)] && s.tasks == map[0 := Locking(id, first)]
    ensures Enabled(s, TakeLock(0))
    ensures Next(s, TakeLock(0)) == s.(recs := map[id := StreamRec(Some(first), [], false)], tasks := map[])
  {}

  /** What reusing the id of a stream that is being written costs: the loop parks its old half
      in the new record, its unread buffer is gone, and the new half is neither written nor
      shut down in any continuation. */
  lemma ReusedIdLosesHalf(id: u32, first: Handle, second: Handle, buf: Buf, after: seq<Event>)
    requires first != second
    ensures var evs := [Insert(id, first), Write(id, buf), Insert(id, second), TakeLock(0)];
            && Runs(INITIAL, evs) && !GuardedRun(INITIAL, evs)
            && var s := Exec(INITIAL, evs);
            && s.tasks == map[] && s.recs == map[id := StreamRec(Some(first), [], false)]
            && first in s.halves && s.halves[first] == Half(id, buf, [], false, 0)
            && (Runs(s, after) ==>
                  var s' := Exec(s, after);
                  Stranded(s', second) && s'.halves[second].delivered == [] && s'.halves[second].shutdowns == 0)
  {
    hide AfterWrite, AfterTakeLock, GuardedRun;
    var s1 := Next(INITIAL, Insert(id, first));
    var s2 := Next(s1, Write(id, buf));
    LoopStarted(id, first, buf);
    var s3 := Next(s2, Insert(id, second));
    assert s3.recs == map[id := StreamRec(Some(second), [], false)];
    LoopParksOldHalf(s3, id, first, second);
    var s4 := Next(s3, TakeLock(0));
    RunsStep(s3, TakeLock(0), []);
    RunsStep(s2, Insert(id, second), [TakeLock(0)] + []);
    RunsStep(s1, Write(id, buf), [Insert(id, second)] + ([TakeLock(0)] + []));
    RunsStep(INITIAL, Insert(id, first), [Write(id, buf)] + ([Insert(id, second)] + ([TakeLock(0)] + [])));
    assert [Insert(id, first), Write(id, buf), Insert(id, second), TakeLock(0)]
        == [Insert(id, first)] + ([Write(id, buf)] + ([Insert(id, second)] + ([TakeLock(0)] + [])));
    if Runs(s4, after) { StrandedForGood(s4, after, second); }
  }

  // ---- Delivery ----

  /** The `None => break` arm of the write loop is never taken. */
  lemma RecordOutlivesLoop(evs: seq<Event>, t: TaskId)
    requires Runs(INITIAL, evs) && GuardedRun(INITIAL, evs)
    requires Enabled(Exec(INITIAL, evs), TakeLock(t))
    ensures var s := Exec(INITIAL, evs); TurnOf(s.recs, s.tasks[t].id) != Gone
  {
    ReachableInv(evs);
    LiveTask(Exec(INITIAL, evs), t);
  }

  /** Bytes accepted for a half but not yet delivered: the rest of the loop's batch, then the queue. */
  ghost function Pending(s: State, w: Handle): seq<byte>
    requires w in s.halves
  {
    var v := ViewOf(s, w);
    (if v.task.Some? then InFlight(v.task.value) else []) + (if v.rec.Some? then Flatten(v.rec.value.q) else [])
  }

  /** What a run writes to a half: the buffers of all writes to its stream while the table has its
      record, whether or not the stream has ended. */
  ghost function WrittenTo(s: State, evs: seq<Event>, w: Handle): seq<byte>
    requires Runs(s, evs)
    decreases |evs|
  {
    if evs == [] then []
    else
      var e := evs[0];
      (if e.Write? && e.id in s.recs && e.id in s.current && s.current[e.id] == w then e.buf else [])
      + WrittenTo(Next(s, e), evs[1..], w)
  }

  ghost function AcceptedBy(s: State, w: Handle): seq<byte> {
    if w in s.halves then s.halves[w].accepted else []
  }

  lemma StepAccepts(s: State, e: Event, w: Handle)
    requires Inv(s) && Enabled(s, e) && Guarded(s, e)
    ensures AcceptedBy(Next(s, e), w)
         == if e.Write? && e.id in s.recs && e.id in s.current && s.current[e.id] == w
            then AcceptedBy(s, w) + e.buf else AcceptedBy(s, w)
  {
    hide StepView, ViewOf, Next, HalfOk;
    if w in s.halves {
      StepSeenBy(s, e, w);
      SameHalf(s, w);
      SameHalf(Next(s, e), w);
      WritesToOwner(s, e, w);
      if Subject(s, e) == Some(w) { WriteAccepts(ViewOf(s, w), e); }
    } else if w in Next(s, e).halves {
      NothingAccepted(s, e, w);
    } else {
      NoOwnerYet(s, e, w);
    }
  }

  lemma SameHalf(s: State, w: Handle)
    requires w in s.halves
    ensures ViewOf(s, w).half == s.halves[w]
  {}

  lemma WriteAccepts(v: View, e: Event)
    requires EnabledOn(v, e)
    ensures StepView(v, e).half.accepted == if e.Write? then v.half.accepted + e.buf else v.half.accepted
  {}

  lemma WritesToOwner(s: State, e: Event, w: Handle)
    requires Inv(s) && Enabled(s, e) && w in s.halves
    ensures e.Write? && e.id in s.recs && e.id in s.current && s.current[e.id] == w
       <==> e.Write? && Subject(s, e) == Some(w)
  {
    hide HalfOk;
  }

  lemma NoOwnerYet(s: State, e: Event, w: Handle)
    requires Inv(s) && w !in s.halves
    ensures e.Write? && e.id in s.current ==> s.current[e.id] != w
  {
    hide HalfOk;
  }

  lemma NothingAccepted(s: State, e: Event, w: Handle)
    requires Inv(s) && Enabled(s, e) && Guarded(s, e) && w !in s.halves && w in Next(s, e).halves
    ensures e.Insert? && Next(s, e).halves[w].accepted == []
  {
    hide ViewOf;
    NewHalf(s, e, w);
  }

  lemma {:induction false} AcceptedIsWritten(s: State, evs: seq<Event>, w: Handle)
    requires Inv(s) && Runs(s, evs) && GuardedRun(s, evs)
    ensures AcceptedBy(Exec(s, evs), w) == AcceptedBy(s, w) + WrittenTo(s, evs, w)
    decreases |evs|
  {
    hide Next, AcceptedBy, Inv;
    if evs == [] {
      assert AcceptedBy(s, w) + [] == AcceptedBy(s, w);
    } else {
      var e, s' := evs[0], Next(s, evs[0]);
      StepKeepsInv(s, e);
      StepAccepts(s, e, w);
      AcceptedIsWritten(s', evs[1..], w);
      var now := if e.Write? && e.id in s.recs && e.id in s.current && s.current[e.id] == w then e.buf else [];
      assert AcceptedBy(s, w) + [] == AcceptedBy(s, w);
      var later := WrittenTo(s', evs[1..], w);
      assert AcceptedBy(s, w) + now + later == AcceptedBy(s, w) + (now + later);
    }
  }

  /** FIFO without loss while the peer is there, and a prefix in any case: what arrived and what is
      still pending are what the run wrote to the half. */
  lemma Fifo(evs: seq<Event>, w: Handle)
    requires Runs(INITIAL, evs) && GuardedRun(INITIAL, evs)
    requires w in Exec(INITIAL, evs).halves
    ensures var s := Exec(INITIAL, evs);
            var half := s.halves[w];
            && half.accepted == WrittenTo(INITIAL, evs, w)
            && half.delivered <= half.accepted
            && (!half.broken ==> half.delivered + Pending(s, w) == half.accepted)
  {
    ReachableInv(evs);
    NothingLost(Exec(INITIAL, evs), w);
    AcceptedIsWritten(INITIAL, evs, w);
    assert [] + WrittenTo(INITIAL, evs, w) == WrittenTo(INITIAL, evs, w);
  }

  lemma NothingLost(s: State, w: Handle)
    requires Inv(s) && w in s.halves
    ensures s.halves[w].delivered <= s.halves[w].accepted
    ensures !s.halves[w].broken ==> s.halves[w].delivered + Pending(s, w) == s.halves[w].accepted
  {
    hide TaskOf, RecOf;
    assert HalfOk(ViewOf(s, w));
  }

  /** A half is shut down at most once, only once nothing holds it and its record is gone, and,
      if its peer stayed, only with every accepted byte delivered. */
  lemma ShutdownLast(evs: seq<Event>, w: Handle)
    requires Runs(INITIAL, evs) && GuardedRun(INITIAL, evs)
    requires w in Exec(INITIAL, evs).halves
    ensures var s := Exec(INITIAL, evs);
            var half := s.halves[w];
            && half.shutdowns <= 1
            && (half.shutdowns == 1 ==>
                  && (forall x :: !Holds(s, x, w)) && Owner(s, half.id) != Some(w)
                  && (!half.broken ==> half.delivered == half.accepted))
  {
    ReachableInv(evs);
    var s := Exec(INITIAL, evs);
    assert HalfOk(ViewOf(s, w));
    InvHoldsOnce(s, w);
  }

  // ---- How a half evolves along a run ----

  /** What a later view of a half keeps: what was delivered and accepted so far and, once shut
      down, everything but the peer leaving. */
  predicate Later(v: View, v': View) {
    && v'.w == v.w && v'.half.id == v.half.id
    && v.half.delivered <= v'.half.delivered
    && v.half.accepted <= v'.half.accepted
    && (v.half.broken ==> v'.half.broken)
    && (v.half.shutdowns == 1 ==>
          && v'.half.shutdowns == 1
          && v'.half.delivered == v.half.delivered && v'.half.accepted == v.half.accepted)
  }

  lemma {:induction false} LaterAlongRun(s: State, evs: seq<Event>, w: Handle)
    requires Inv(s) && Runs(s, evs) && GuardedRun(s, evs) && w in s.halves
    ensures Inv(Exec(s, evs)) && w in Exec(s, evs).halves
    ensures Later(ViewOf(s, w), ViewOf(Exec(s, evs), w))
    decreases |evs|
  {
    hide Next, ViewOf, HalfOk;
    if evs != [] {
      StepSeenBy(s, evs[0], w);
      if Subject(s, evs[0]) == Some(w) { StepIsLater(ViewOf(s, w), evs[0]); }
      StepKeepsInv(s, evs[0]);
      LaterAlongRun(Next(s, evs[0]), evs[1..], w);
    }
  }

  lemma StepIsLater(v: View, e: Event)
    requires HalfOk(v) && EnabledOn(v, e)
    ensures Later(v, StepView(v, e))
  {}

  /** Either the step is about `w` and its view takes the same step, or the view stays. */
  lemma StepSeenBy(s: State, e: Event, w: Handle)
    requires Inv(s) && Enabled(s, e) && Guarded(s, e) && w in s.halves
    ensures var s' := Next(s, e);
            && w in s'.halves && HalfOk(ViewOf(s, w)) && ViewOf(s, w).w == w
            && (if Subject(s, e) == Some(w)
                then EnabledOn(ViewOf(s, w), e) && ViewOf(s', w) == StepView(ViewOf(s, w), e)
                else ViewOf(s', w) == ViewOf(s, w))
  {
    hide Shape, StepView, HalfOk, Next;
    StepIsLocal(s, e, w);
    if Subject(s, e) == Some(w) { SeenBySubject(s, e, w); }
  }

  /** Once shut down, a half is never written again. */
  lemma NeverWrittenAfterShutdown(before: seq<Event>, after: seq<Event>, w: Handle)
    requires Runs(INITIAL, before) && GuardedRun(INITIAL, before)
    requires Runs(Exec(INITIAL, before), after) && GuardedRun(Exec(INITIAL, before), after)
    requires w in Exec(INITIAL, before).halves && Exec(INITIAL, before).halves[w].shutdowns > 0
    ensures var s, s' := Exec(INITIAL, before), Exec(Exec(INITIAL, before), after);
            && w in s'.halves && s'.halves[w].delivered == s.halves[w].delivered && s'.halves[w].shutdowns == 1
  {
    ReachableInv(before);
    ShutdownLast(before, w);
    LaterAlongRun(Exec(INITIAL, before), after, w);
  }

  // ---- Progress ----

  /** `remove` has taken effect: the record is gone or marked as ended. */
  predicate Ending(v: View) {
    v.rec.Some? ==> v.rec.value.ended
  }

  lemma RemoveTakesEffect(s: State, w: Handle)
    requires Inv(s) && w in s.halves
    ensures var s' := Next(s, Remove(s.halves[w].id)); Inv(s') && w in s'.halves && Ending(ViewOf(s', w))
  {
    var e := Remove(s.halves[w].id);
    StepSeenBy(s, e, w);
    StepKeepsInv(s, e);
  }

  predicate TaskEvent(e: Event) {
    e.TakeLock? || e.NextItem? || e.Deliver? || e.WriteFails? || e.Shutdown?
  }

  function Weight(bufs: seq<Buf>): nat {
    if bufs == [] then 0 else |bufs[0]| + 1 + Weight(bufs[1..])
  }

  /** Bound on the steps the half's task can still take. */
  function Left(v: View): nat {
    (if v.rec.Some? then 3 * Weight(v.rec.value.q) else 0) +
    (match v.task
     case None => 0
     case Some(Closing(_, _)) => 1
     case Some(Locking(_, _)) => 2
     case Some(Draining(_, _, cur, rest)) => 3 + |cur| + Weight(rest))
  }

  /** The event neither writes to half `w` nor newly removes it. */
  predicate Calm(s: State, e: Event, w: Handle, ending: bool)
    requires Enabled(s, e)
  {
    Subject(s, e) == Some(w) ==> !e.Write? && (e.Remove? ==> ending)
  }

  predicate CalmRun(s: State, evs: seq<Event>, w: Handle, ending: bool)
    requires Runs(s, evs)
    decreases |evs|
  {
    evs != [] ==> Calm(s, evs[0], w, ending) && CalmRun(Next(s, evs[0]), evs[1..], w, ending)
  }

  lemma StepShrinks(v: View, e: Event)
    requires HalfOk(v) && EnabledOn(v, e) && !e.Write? && (e.Remove? ==> Ending(v))
    ensures var v' := StepView(v, e);
            Ending(v') == Ending(v) && if TaskEvent(e) then Left(v') < Left(v) else Left(v') == Left(v)
  {}

  /** Steps taken by the tasks of half `w` along a run. */
  ghost function StepsFor(s: State, evs: seq<Event>, w: Handle): nat
    requires Runs(s, evs)
    decreases |evs|
  {
    if evs == [] then 0
    else (if TaskEvent(evs[0]) && Subject(s, evs[0]) == Some(w) then 1 else 0)
         + StepsFor(Next(s, evs[0]), evs[1..], w)
  }

  /** However tasks interleave and whether or not the peer stays, a half that is no longer
      written or removed takes at most `Left` more steps. */
  lemma {:induction false} CalmRunIsShort(s: State, evs: seq<Event>, w: Handle)
    requires Inv(s) && Runs(s, evs) && GuardedRun(s, evs) && w in s.halves
    requires CalmRun(s, evs, w, Ending(ViewOf(s, w)))
    ensures Inv(Exec(s, evs)) && w in Exec(s, evs).halves
    ensures Ending(ViewOf(Exec(s, evs), w)) == Ending(ViewOf(s, w))
    ensures StepsFor(s, evs, w) + Left(ViewOf(Exec(s, evs), w)) <= Left(ViewOf(s, w))
    decreases |evs|
  {
    hide Next, Left, Ending, HalfOk, EnabledOn, StepView, ViewOf;
    if evs != [] {
      StepSeenBy(s, evs[0], w);
      if Subject(s, evs[0]) == Some(w) { StepShrinks(ViewOf(s, w), evs[0]); }
      StepKeepsInv(s, evs[0]);
      CalmRunIsShort(Next(s, evs[0]), evs[1..], w);
    }
  }

  /** A half that still has a task always has a step to take, peer or no peer. */
  lemma TaskNotStuck(s: State, w: Handle) returns (e: Event)
    requires Inv(s) && w in s.halves && ViewOf(s, w).task.Some?
    ensures TaskEvent(e) && Enabled(s, e) && Subject(s, e) == Some(w)
  {
    OwnTask(s, w);
    var t := s.newest[w];
    e := match s.tasks[t]
         case Locking(_, _) => TakeLock(t)
         case Closing(_, _) => Shutdown(t)
         case Draining(_, _, cur, _) =>
           if cur == [] then NextItem(t) else if s.halves[w].broken then WriteFails(t) else Deliver(t, |cur|);
  }

  ghost predicate Resting(s: State, w: Handle) {
    forall e | TaskEvent(e) && Enabled(s, e) :: Subject(s, e) != Some(w)
  }

  /** Where a half is when nothing is left to do for it. */
  predicate Settled(v: View) {
    && (if Ending(v) then v.rec == None && v.half.shutdowns == 1
        else v.rec == Some(StreamRec(Some(v.w), [], false)) && v.half.shutdowns == 0)
    && (!v.half.broken ==> v.half.delivered == v.half.accepted)
  }

  /** A half left alone comes to rest, and then either it is parked, or, if `remove` had taken
      effect, its record is gone and it was shut down once.  If the peer stayed, every accepted
      byte has been delivered by then. */
  lemma CalmRunCompletes(before: seq<Event>, after: seq<Event>, w: Handle)
    requires Runs(INITIAL, before) && GuardedRun(INITIAL, before)
    requires Runs(Exec(INITIAL, before), after) && GuardedRun(Exec(INITIAL, before), after)
    requires w in Exec(INITIAL, before).halves
    requires CalmRun(Exec(INITIAL, before), after, w, Ending(ViewOf(Exec(INITIAL, before), w)))
    ensures var s, s' := Exec(INITIAL, before), Exec(Exec(INITIAL, before), after);
            && StepsFor(s, after, w) <= Left(ViewOf(s, w))
            && w in s'.halves && Ending(ViewOf(s', w)) == Ending(ViewOf(s, w))
            && (Resting(s', w) ==> Settled(ViewOf(s', w)))
  {
    hide Next, Left, Runs, Settled, Ending, ViewOf;
    ReachableInv(before);
    var s := Exec(INITIAL, before);
    CalmRunIsShort(s, after, w);
    AtRest(Exec(s, after), w);
  }

  lemma AtRest(s: State, w: Handle)
    requires Inv(s) && w in s.halves
    ensures Resting(s, w) ==> ViewOf(s, w).task == None && Settled(ViewOf(s, w))
  {
    assert HalfOk(ViewOf(s, w));
    if Resting(s, w) && ViewOf(s, w).task.Some? {
      var e := TaskNotStuck(s, w);
      assert false;
    }
  }
}
