/** Every interleaving of the inbound stream table with its spawned `write_loop` tasks
    (cli/src/rpc.rs, 531-631): one step per critical section or await. */
module StreamRuns {
  import opened Common
  import opened StreamTable

  /** A write half with its history: the stream id it was inserted for, the bytes `write`
      accepted for it, those that arrived, whether its peer is gone (every later write fails),
      and how often it was shut down. */
  datatype Half = Half(id: u32, accepted: seq<byte>, delivered: seq<byte>, broken: bool, shutdowns: nat)

  /** A task holding a write half: a `write_loop` about to take the lock, one writing out
      its batch (`cur` is what is left of the current item), or a task past its last
      critical section whose remaining step is `shutdown`. */
  datatype Task =
    | Locking(id: u32, w: Handle)
    | Draining(id: u32, w: Handle, cur: Buf, rest: seq<Buf>)
    | Closing(id: u32, w: Handle)

  type TaskId = nat

  /** `current` and `newest` are history: the half inserted last under an id, and the task
      spawned last for a half. */
  datatype State = State(
    recs: Table,
    tasks: map<TaskId, Task>,
    nextTask: TaskId,
    halves: map<Handle, Half>,
    current: map<u32, Handle>,
    newest: map<Handle, TaskId>)

  datatype Event =
    | Insert(id: u32, w: Handle)      // Streams::insert
    | Write(id: u32, buf: Buf)        // Streams::write
    | Remove(id: u32)                 // locked part of Streams::remove
    | TakeLock(t: TaskId)             // locked part of write_loop
    | NextItem(t: TaskId)             // the previous item is done: next one, or back to the lock
    | Deliver(t: TaskId, n: nat)      // write_all moves n more bytes
    | WriteFails(t: TaskId)           // write_all fails: `break` out of the inner loop
    | Shutdown(t: TaskId)             // shutdown() completes, the task ends
    | PeerDrops(w: Handle)            // environment: later writes to w fail

  const INITIAL := State(map[], map[], 0, map[], map[], map[])

  /** An insert may use any id, also one whose stream is still there. */
  predicate Enabled(s: State, e: Event) {
    match e
    case Insert(_, w) => w !in s.halves
    case Write(_, _) => true
    case Remove(_) => true
    case TakeLock(t) => t in s.tasks && s.tasks[t].Locking?
    case NextItem(t) => t in s.tasks && s.tasks[t].Draining? && s.tasks[t].cur == []
    case Deliver(t, n) =>
      t in s.tasks && s.tasks[t].Draining? && 0 < n <= |s.tasks[t].cur|
      && s.tasks[t].w in s.halves && !s.halves[s.tasks[t].w].broken
    case WriteFails(t) =>
      t in s.tasks && s.tasks[t].Draining? && s.tasks[t].cur != []
      && s.tasks[t].w in s.halves && s.halves[s.tasks[t].w].broken
    case Shutdown(t) => t in s.tasks && s.tasks[t].Closing? && s.tasks[t].w in s.halves
    case PeerDrops(w) => w in s.halves
  }

  function Spawned(s: State, task: Task): State {
    s.(tasks := s.tasks[s.nextTask := task], newest := s.newest[task.w := s.nextTask], nextTask := s.nextTask + 1)
  }

  function AfterInsert(s: State, id: u32, w: Handle): State {
    s.(recs := Inserted(s.recs, id, w),
       halves := s.halves[w := Half(id, [], [], false, 0)],
       current := s.current[id := w])
  }

  /** The half a mapped stream's record was inserted with. */
  function Owner(s: State, id: u32): Option<Handle> {
    if id in s.recs && id in s.current && s.current[id] in s.halves then Some(s.current[id]) else None
  }

  function Accept(s: State, id: u32, buf: Buf): map<Handle, Half> {
    match Owner(s, id)
    case None => s.halves
    case Some(w) => s.halves[w := s.halves[w].(accepted := s.halves[w].accepted + buf)]
  }

  function AfterWrite(s: State, id: u32, buf: Buf): State {
    var s1 := s.(recs := Written(s.recs, id, buf), halves := Accept(s, id, buf));
    match ParkedHalf(s.recs, id)
    case Some(w) => Spawned(s1, Locking(id, w))
    case None => s1
  }

  function AfterRemove(s: State, id: u32): State {
    var s1 := s.(recs := Removed(s.recs, id));
    match ParkedHalf(s.recs, id)
    case Some(w) => Spawned(s1, Closing(id, w))
    case None => s1
  }

  function AfterTakeLock(s: State, t: TaskId): State
    requires t in s.tasks
  {
    var id, w := s.tasks[t].id, s.tasks[t].w;
    var s1 := s.(recs := AfterTurn(s.recs, id, w));
    match TurnOf(s.recs, id)
    case Gone => s1.(tasks := s.tasks[t := Closing(id, w)])
    case Finished => s1.(tasks := s.tasks[t := Closing(id, w)])
    case Parked => s1.(tasks := s.tasks - {t})
    case Batch(items) => s1.(tasks := s.tasks[t := Draining(id, w, [], items)])
  }

  function AfterNextItem(s: State, t: TaskId): State
    requires t in s.tasks && s.tasks[t].Draining?
  {
    var d := s.tasks[t];
    s.(tasks := s.tasks[t := if d.rest == [] then Locking(d.id, d.w)
                             else Draining(d.id, d.w, d.rest[0], d.rest[1..])])
  }

  function AfterDeliver(s: State, t: TaskId, n: nat): State
    requires t in s.tasks && s.tasks[t].Draining? && n <= |s.tasks[t].cur| && s.tasks[t].w in s.halves
  {
    var d := s.tasks[t];
    var half := s.halves[d.w];
    s.(tasks := s.tasks[t := d.(cur := d.cur[n..])],
       halves := s.halves[d.w := half.(delivered := half.delivered + d.cur[..n])])
  }

  function AfterShutdown(s: State, t: TaskId): State
    requires t in s.tasks && s.tasks[t].w in s.halves
  {
    var w := s.tasks[t].w;
    s.(tasks := s.tasks - {t},
       halves := s.halves[w := s.halves[w].(shutdowns := s.halves[w].shutdowns + 1)])
  }

  function Next(s: State, e: Event): State
    requires Enabled(s, e)
  {
    match e
    case Insert(id, w) => AfterInsert(s, id, w)
    case Write(id, buf) => AfterWrite(s, id, buf)
    case Remove(id) => AfterRemove(s, id)
    case TakeLock(t) => AfterTakeLock(s, t)
    case NextItem(t) => AfterNextItem(s, t)
    case Deliver(t, n) => AfterDeliver(s, t, n)
    case WriteFails(t) => s.(tasks := s.tasks[t := Locking(s.tasks[t].id, s.tasks[t].w)])
    case Shutdown(t) => AfterShutdown(s, t)
    case PeerDrops(w) => s.(halves := s.halves[w := s.halves[w].(broken := true)])
  }

  predicate Runs(s: State, evs: seq<Event>)
    decreases |evs|
  {
    evs != [] ==> Enabled(s, evs[0]) && Runs(Next(s, evs[0]), evs[1..])
  }

  function Exec(s: State, evs: seq<Event>): State
    requires Runs(s, evs)
    decreases |evs|
  {
    if evs == [] then s else Exec(Next(s, evs[0]), evs[1..])
  }

  /** What a caller of `insert` has to see to: the table has no record of that id. */
  predicate Guarded(s: State, e: Event) {
    e.Insert? ==> e.id !in s.recs
  }

  predicate GuardedRun(s: State, evs: seq<Event>)
    requires Runs(s, evs)
    decreases |evs|
  {
    evs != [] ==> Guarded(s, evs[0]) && GuardedRun(Next(s, evs[0]), evs[1..])
  }

  // ---- The invariant, one write half at a time ----

  /** What one write half can see of the state: the record if it is its own, and its task. */
  datatype View = View(w: Handle, rec: Option<StreamRec>, task: Option<Task>, half: Half)

  function RecOf(s: State, w: Handle): Option<StreamRec>
    requires w in s.halves
  {
    var id := s.halves[w].id;
    if Owner(s, id) == Some(w) then Some(s.recs[id]) else None
  }

  function TaskOf(s: State, w: Handle): Option<Task> {
    if w in s.newest && s.newest[w] in s.tasks then Some(s.tasks[s.newest[w]]) else None
  }

  function ViewOf(s: State, w: Handle): View
    requires w in s.halves
  {
    View(w, RecOf(s, w), TaskOf(s, w), s.halves[w])
  }

  /** Bytes the task still has to write from its batch. */
  function InFlight(task: Task): seq<byte> {
    if task.Draining? then task.cur + Flatten(task.rest) else []
  }

  /** Nothing is lost or reordered: what arrived, then what is still to come, is what was
      accepted.  Once the peer is gone, only a prefix arrives. */
  predicate Accounted(half: Half, pending: seq<byte>) {
    if half.broken then half.delivered <= half.accepted else half.delivered + pending == half.accepted
  }

  predicate HalfOk(v: View) {
    match (v.rec, v.task)
    case (Some(rec), Some(task)) =>        // owned by a write loop
      rec.write == None && !task.Closing? && v.half.shutdowns == 0
      && Accounted(v.half, InFlight(task) + Flatten(rec.q))
    case (Some(rec), None) =>              // parked in the record
      rec == StreamRec(Some(v.w), [], false) && v.half.shutdowns == 0 && Accounted(v.half, [])
    case (None, Some(task)) =>             // about to shut down
      task.Closing? && v.half.shutdowns == 0 && Accounted(v.half, [])
    case (None, None) =>                   // shut down
      v.half.shutdowns == 1 && Accounted(v.half, [])
  }

  /** Every record and task belongs to one inserted half, and a live task is the newest one
      of its half. */
  ghost predicate Shape(s: State) {
    && (forall id | id in s.recs :: id in s.current)
    && (forall id | id in s.current :: s.current[id] in s.halves && s.halves[s.current[id]].id == id)
    && (forall w | w in s.newest :: NewestOk(s, w, s.newest[w]))
    && (forall t | t in s.tasks :: TaskOk(s, s.tasks[t], t))
  }

  ghost predicate NewestOk(s: State, w: Handle, t: TaskId) {
    w in s.halves && t < s.nextTask && (t in s.tasks ==> s.tasks[t].w == w)
  }

  ghost predicate TaskOk(s: State, task: Task, t: TaskId) {
    && task.w in s.halves && s.halves[task.w].id == task.id
    && task.w in s.newest && s.newest[task.w] == t && t < s.nextTask
  }

  ghost predicate Inv(s: State) {
    Shape(s) && forall w | w in s.halves :: HalfOk(ViewOf(s, w))
  }

  /** The write half an event is about. */
  function Subject(s: State, e: Event): Option<Handle>
    requires Enabled(s, e)
  {
    match e
    case Insert(_, w) => Some(w)
    case Write(id, _) => Owner(s, id)
    case Remove(id) => Owner(s, id)
    case PeerDrops(w) => Some(w)
    case TakeLock(t) => Some(s.tasks[t].w)
    case NextItem(t) => Some(s.tasks[t].w)
    case Deliver(t, _) => Some(s.tasks[t].w)
    case WriteFails(t) => Some(s.tasks[t].w)
    case Shutdown(t) => Some(s.tasks[t].w)
  }

  // ---- Every global step is a local step of its subject ----

  /** The same step as its subject sees it. */
  function StepView(v: View, e: Event): View {
    match e
    case Write(id, buf) =>
      (match v.rec
       case None => v
       case Some(rec) => v.(rec := Some(StreamRec(None, rec.q + [buf], rec.ended)),
                            task := if rec.write.Some? then Some(Locking(id, rec.write.value)) else v.task,
                            half := v.half.(accepted := v.half.accepted + buf)))
    case Remove(id) =>
      (match v.rec
       case None => v
       case Some(rec) => if rec.write.Some? then v.(rec := None, task := Some(Closing(id, rec.write.value)))
                         else v.(rec := Some(rec.(ended := true))))
    case PeerDrops(w) => v.(half := v.half.(broken := true))
    case _ => if v.task.Some? then StepTask(v, v.task.value, e) else v
  }

  function StepTask(v: View, task: Task, e: Event): View {
    match e
    case TakeLock(_) =>
      (match v.rec
       case None => v.(task := Some(Closing(task.id, task.w)))
       case Some(rec) =>
         if rec.q != [] then v.(rec := Some(rec.(q := [])), task := Some(Draining(task.id, task.w, [], rec.q)))
         else if rec.ended then v.(rec := None, task := Some(Closing(task.id, task.w)))
         else v.(rec := Some(rec.(write := Some(task.w))), task := None))
    case NextItem(_) =>
      if !task.Draining? then v
      else if task.rest == [] then v.(task := Some(Locking(task.id, task.w)))
      else v.(task := Some(Draining(task.id, task.w, task.rest[0], task.rest[1..])))
    case Deliver(_, n) =>
      if !(task.Draining? && n <= |task.cur|) then v
      else v.(task := Some(task.(cur := task.cur[n..])),
              half := v.half.(delivered := v.half.delivered + task.cur[..n]))
    case WriteFails(_) => v.(task := Some(Locking(task.id, task.w)))
    case Shutdown(_) => v.(task := None, half := v.half.(shutdowns := v.half.shutdowns + 1))
    case _ => v
  }

  /** `s'` differs from `s` only in half `w`, whose view is now `v`. */
  ghost predicate Changes(s: State, s': State, w: Handle, v: View) {
    && Shape(s) && Shape(s') && s'.halves.Keys == s.halves.Keys
    && w in s'.halves && ViewOf(s', w) == v
    && forall x | x in s.halves && x != w :: ViewOf(s', x) == ViewOf(s, x)
  }

  lemma SetRecsShape(s: State, recs: Table)
    requires Shape(s) && forall j | j in recs :: j in s.recs
    ensures Shape(s.(recs := recs))
  {
    var s' := s.(recs := recs);
    forall w | w in s'.newest ensures NewestOk(s', w, s'.newest[w]) { assert NewestOk(s, w, s.newest[w]); }
    forall u | u in s'.tasks ensures TaskOk(s', s'.tasks[u], u) { assert TaskOk(s, s.tasks[u], u); }
  }

  lemma SameTasks(s: State, s': State, w: Handle)
    requires s'.tasks == s.tasks && s'.newest == s.newest
    ensures TaskOf(s', w) == TaskOf(s, w)
  {}

  lemma SetRecs(s: State, recs: Table, id: u32)
    requires Shape(s) && id in s.recs
    requires forall j | j != id :: j in recs <==> j in s.recs
    requires forall j | j in recs && j in s.recs && j != id :: recs[j] == s.recs[j]
    ensures id in s.current && s.current[id] in s.halves
    ensures var w := s.current[id];
            Changes(s, s.(recs := recs), w, ViewOf(s, w).(rec := if id in recs then Some(recs[id]) else None))
  {
    SetRecsShape(s, recs);
    hide TaskOf, TaskOk, NewestOk;
    var s' := s.(recs := recs);
    forall x | x in s.halves ensures TaskOf(s', x) == TaskOf(s, x) { SameTasks(s, s', x); }
  }

  /** Only its own half sees a task. */
  lemma OthersDoNotSee(s: State, t: TaskId, x: Handle)
    requires Shape(s) && t in s.tasks && x in s.newest && x != s.tasks[t].w
    ensures s.newest[x] != t
  {
    assert NewestOk(s, x, s.newest[x]);
  }

  lemma SetTaskShape(s: State, t: TaskId, task: Task)
    requires Shape(s) && t in s.tasks && task.id == s.tasks[t].id && task.w == s.tasks[t].w
    ensures Shape(s.(tasks := s.tasks[t := task])) && task.w in s.halves
    ensures task.w in s.newest && s.newest[task.w] == t
  {
    var s' := s.(tasks := s.tasks[t := task]);
    assert TaskOk(s, s.tasks[t], t);
    forall w | w in s'.newest ensures NewestOk(s', w, s'.newest[w]) { assert NewestOk(s, w, s.newest[w]); }
    forall u | u in s'.tasks ensures TaskOk(s', s'.tasks[u], u) { assert TaskOk(s, s.tasks[u], u); }
  }

  lemma SetTask(s: State, t: TaskId, task: Task)
    requires Shape(s) && t in s.tasks && task.id == s.tasks[t].id && task.w == s.tasks[t].w
    ensures task.w in s.halves
    ensures Changes(s, s.(tasks := s.tasks[t := task]), task.w, ViewOf(s, task.w).(task := Some(task)))
  {
    hide Shape;
    SetTaskShape(s, t, task);
    forall x | x in s.newest && x != task.w ensures s.newest[x] != t { OthersDoNotSee(s, t, x); }
  }

  lemma DropTaskShape(s: State, t: TaskId)
    requires Shape(s) && t in s.tasks
    ensures Shape(s.(tasks := s.tasks - {t})) && s.tasks[t].w in s.halves
    ensures s.tasks[t].w in s.newest && s.newest[s.tasks[t].w] == t
  {
    var s' := s.(tasks := s.tasks - {t});
    assert TaskOk(s, s.tasks[t], t);
    forall w | w in s'.newest ensures NewestOk(s', w, s'.newest[w]) { assert NewestOk(s, w, s.newest[w]); }
    forall u | u in s'.tasks ensures TaskOk(s', s'.tasks[u], u) { assert TaskOk(s, s.tasks[u], u); }
  }

  lemma DropTask(s: State, t: TaskId)
    requires Shape(s) && t in s.tasks
    ensures var w := s.tasks[t].w;
            w in s.halves && Changes(s, s.(tasks := s.tasks - {t}), w, ViewOf(s, w).(task := None))
  {
    hide Shape;
    DropTaskShape(s, t);
    forall x | x in s.newest && x != s.tasks[t].w ensures s.newest[x] != t { OthersDoNotSee(s, t, x); }
  }

  lemma SpawnShape(s: State, task: Task)
    requires Shape(s) && task.w in s.halves && s.halves[task.w].id == task.id && TaskOf(s, task.w) == None
    ensures Shape(Spawned(s, task))
  {
    var s' := Spawned(s, task);
    forall w | w in s'.newest ensures NewestOk(s', w, s'.newest[w]) {
      if w in s.newest { assert NewestOk(s, w, s.newest[w]); }
    }
    forall u | u in s'.tasks ensures TaskOk(s', s'.tasks[u], u) {
      if u in s.tasks { assert TaskOk(s, s.tasks[u], u); }
    }
  }

  lemma SpawnedUnseen(s: State, task: Task, x: Handle)
    requires Shape(s) && x != task.w
    ensures TaskOf(Spawned(s, task), x) == TaskOf(s, x)
  {
    assert x in s.newest ==> NewestOk(s, x, s.newest[x]);
  }

  lemma SpawnTask(s: State, task: Task)
    requires Shape(s) && task.w in s.halves && s.halves[task.w].id == task.id && TaskOf(s, task.w) == None
    ensures Changes(s, Spawned(s, task), task.w, ViewOf(s, task.w).(task := Some(task)))
  {
    hide Shape;
    SpawnShape(s, task);
    var s' := Spawned(s, task);
    forall x | x in s.halves && x != task.w ensures ViewOf(s', x) == ViewOf(s, x) { SpawnedUnseen(s, task, x); }
  }

  lemma SetHalf(s: State, w: Handle, half: Half)
    requires Shape(s) && w in s.halves && half.id == s.halves[w].id
    ensures Changes(s, s.(halves := s.halves[w := half]), w, ViewOf(s, w).(half := half))
  {
    var s' := s.(halves := s.halves[w := half]);
    forall x | x in s'.newest ensures NewestOk(s', x, s'.newest[x]) { assert NewestOk(s, x, s.newest[x]); }
    forall u | u in s'.tasks ensures TaskOk(s', s'.tasks[u], u) { assert TaskOk(s, s.tasks[u], u); }
  }

  // ---- The step lemma ----

  lemma InsertShape(s: State, id: u32, w: Handle)
    requires Shape(s) && w !in s.halves
    ensures Shape(AfterInsert(s, id, w))
  {
    var s' := AfterInsert(s, id, w);
    forall x | x in s'.newest ensures NewestOk(s', x, s'.newest[x]) { assert NewestOk(s, x, s.newest[x]); }
    forall u | u in s'.tasks ensures TaskOk(s', s'.tasks[u], u) { assert TaskOk(s, s.tasks[u], u); }
  }

  lemma NoTaskYet(s: State, w: Handle)
    requires Shape(s) && w !in s.halves
    ensures TaskOf(s, w) == None
  {
    assert w in s.newest ==> NewestOk(s, w, s.newest[w]);
  }

  lemma InsertedHalf(s: State, id: u32, w: Handle)
    requires Shape(s) && w !in s.halves
    ensures ViewOf(AfterInsert(s, id, w), w)
         == View(w, Some(StreamRec(Some(w), [], false)), None, Half(id, [], [], false, 0))
  {
    NoTaskYet(s, w);
    hide Shape;
  }

  lemma InsertIsLocal(s: State, id: u32, w: Handle)
    requires Shape(s) && w !in s.halves && id !in s.recs
    ensures var s' := AfterInsert(s, id, w);
            && Shape(s') && s'.halves.Keys == s.halves.Keys + {w}
            && ViewOf(s', w) == View(w, Some(StreamRec(Some(w), [], false)), None, Half(id, [], [], false, 0))
            && forall x | x in s.halves :: ViewOf(s', x) == ViewOf(s, x)
  {
    InsertShape(s, id, w);
    InsertedHalf(s, id, w);
    hide Shape;
  }

  /** The owner of a mapped stream; if the record holds it, it has no task. */
  lemma OwnerSees(s: State, id: u32)
    requires Inv(s) && id in s.recs
    ensures Owner(s, id) == Some(s.current[id])
    ensures var w := s.current[id];
            && s.halves[w].id == id && HalfOk(ViewOf(s, w)) && ViewOf(s, w).rec == Some(s.recs[id])
            && (s.recs[id].write.Some? ==> s.recs[id].write == Some(w) && ViewOf(s, w).task == None)
  {}

  lemma WriteIsLocal(s: State, e: Event)
    requires Inv(s) && e.Write? && e.id in s.recs
    ensures var w := s.current[e.id];
            w in s.halves && Changes(s, Next(s, e), w, StepView(ViewOf(s, w), e))
  {
    hide Shape, HalfOk;
    OwnerSees(s, e.id);
    var w := s.current[e.id];
    SetHalf(s, w, s.halves[w].(accepted := s.halves[w].accepted + e.buf));
    var s1 := s.(halves := Accept(s, e.id, e.buf));
    SetRecs(s1, Written(s.recs, e.id, e.buf), e.id);
    var s2 := s1.(recs := Written(s.recs, e.id, e.buf));
    if s.recs[e.id].write.Some? { SpawnTask(s2, Locking(e.id, w)); }
  }

  lemma RemoveIsLocal(s: State, e: Event)
    requires Inv(s) && e.Remove? && e.id in s.recs
    ensures var w := s.current[e.id];
            w in s.halves && Changes(s, Next(s, e), w, StepView(ViewOf(s, w), e))
  {
    hide Shape, HalfOk;
    OwnerSees(s, e.id);
    SetRecs(s, Removed(s.recs, e.id), e.id);
    var s1 := s.(recs := Removed(s.recs, e.id));
    if s.recs[e.id].write.Some? { SpawnTask(s1, Closing(e.id, s.current[e.id])); }
  }

  /** A live task is the one its half sees; unless it is closing, that half owns the record. */
  lemma LiveTask(s: State, t: TaskId)
    requires Inv(s) && t in s.tasks
    ensures var task := s.tasks[t];
            && task.w in s.halves && s.halves[task.w].id == task.id && HalfOk(ViewOf(s, task.w))
            && task.w in s.newest && s.newest[task.w] == t && ViewOf(s, task.w).task == Some(task)
            && (!task.Closing? ==> task.id in s.recs && Owner(s, task.id) == Some(task.w))
  {
    assert TaskOk(s, s.tasks[t], t);
    assert HalfOk(ViewOf(s, s.tasks[t].w));
  }

  lemma TakeLockIsLocal(s: State, e: Event)
    requires Inv(s) && e.TakeLock? && Enabled(s, e)
    ensures var w := s.tasks[e.t].w;
            w in s.halves && Changes(s, Next(s, e), w, StepView(ViewOf(s, w), e))
  {
    hide Shape, HalfOk;
    LiveTask(s, e.t);
    var id, w := s.tasks[e.t].id, s.tasks[e.t].w;
    SetRecs(s, AfterTurn(s.recs, id, w), id);
    var s1 := s.(recs := AfterTurn(s.recs, id, w));
    match TurnOf(s.recs, id) {
      case Finished => SetTask(s1, e.t, Closing(id, w));
      case Parked => DropTask(s1, e.t);
      case Batch(items) => SetTask(s1, e.t, Draining(id, w, [], items));
      case Gone =>
    }
  }

  lemma DrainIsLocal(s: State, e: Event)
    requires Inv(s) && (e.NextItem? || e.Deliver? || e.WriteFails?) && Enabled(s, e)
    ensures var w := s.tasks[e.t].w;
            w in s.halves && Changes(s, Next(s, e), w, StepView(ViewOf(s, w), e))
  {
    hide Shape, HalfOk;
    LiveTask(s, e.t);
    var d := s.tasks[e.t];
    match e {
      case NextItem(t) =>
        SetTask(s, t, if d.rest == [] then Locking(d.id, d.w) else Draining(d.id, d.w, d.rest[0], d.rest[1..]));
      case Deliver(t, n) =>
        SetTask(s, t, d.(cur := d.cur[n..]));
        var s1 := s.(tasks := s.tasks[t := d.(cur := d.cur[n..])]);
        var half := s.halves[d.w];
        SetHalf(s1, d.w, half.(delivered := half.delivered + d.cur[..n]));
      case WriteFails(t) => SetTask(s, t, Locking(d.id, d.w));
    }
  }

  lemma ShutdownIsLocal(s: State, e: Event)
    requires Inv(s) && e.Shutdown? && Enabled(s, e)
    ensures var w := s.tasks[e.t].w;
            w in s.halves && Changes(s, Next(s, e), w, StepView(ViewOf(s, w), e))
  {
    hide Shape, HalfOk;
    LiveTask(s, e.t);
    var w := s.tasks[e.t].w;
    DropTask(s, e.t);
    SetHalf(s.(tasks := s.tasks - {e.t}), w, s.halves[w].(shutdowns := s.halves[w].shutdowns + 1));
  }

  lemma PeerDropsIsLocal(s: State, e: Event)
    requires Inv(s) && e.PeerDrops? && Enabled(s, e)
    ensures Changes(s, Next(s, e), e.w, StepView(ViewOf(s, e.w), e))
  {
    SetHalf(s, e.w, s.halves[e.w].(broken := true));
  }

  lemma UnknownStream(s: State, e: Event)
    requires Inv(s) && (e.Write? || e.Remove?) && Subject(s, e) == None
    ensures Next(s, e) == s
  {}

  /** The half an event is about sees the step `StepView` says, and nothing else changes. */
  lemma SubjectChanges(s: State, e: Event, w: Handle)
    requires Inv(s) && Enabled(s, e) && !e.Insert? && Subject(s, e) == Some(w)
    ensures w in s.halves && Changes(s, Next(s, e), w, StepView(ViewOf(s, w), e))
  {
    hide Shape, ViewOf, StepView, HalfOk;
    match e {
      case Write(_, _) => WriteIsLocal(s, e);
      case Remove(_) => RemoveIsLocal(s, e);
      case TakeLock(_) => TakeLockIsLocal(s, e);
      case NextItem(_) => DrainIsLocal(s, e);
      case Deliver(_, _) => DrainIsLocal(s, e);
      case WriteFails(_) => DrainIsLocal(s, e);
      case Shutdown(_) => ShutdownIsLocal(s, e);
      case PeerDrops(_) => PeerDropsIsLocal(s, e);
    }
  }

  /** Every step changes the view of its subject by `StepView` and no other half at all. */
  lemma StepIsLocal(s: State, e: Event, w: Handle)
    requires Inv(s) && Enabled(s, e) && Guarded(s, e) && w in s.halves
    ensures Shape(Next(s, e)) && w in Next(s, e).halves
    ensures ViewOf(Next(s, e), w) == if Subject(s, e) == Some(w) then StepView(ViewOf(s, w), e) else ViewOf(s, w)
    ensures Next(s, e).halves.Keys == s.halves.Keys + if e.Insert? then {e.w} else {}
  {
    hide ViewOf, StepView, HalfOk, Next;
    match Subject(s, e) {
      case None => UnknownStream(s, e);
      case Some(x) => if e.Insert? { InsertStep(s, e, w); } else { SubjectChanges(s, e, x); }
    }
  }

  lemma InsertStep(s: State, e: Event, w: Handle)
    requires Inv(s) && e.Insert? && Enabled(s, e) && Guarded(s, e) && w in s.halves
    ensures Shape(Next(s, e)) && Next(s, e).halves.Keys == s.halves.Keys + {e.w}
    ensures ViewOf(Next(s, e), w) == ViewOf(s, w)
  {
    InsertIsLocal(s, e.id, e.w);
  }

  /** What `Enabled` says about the subject's view. */
  predicate EnabledOn(v: View, e: Event) {
    match e
    case TakeLock(_) => v.task.Some? && v.task.value.Locking?
    case NextItem(_) => v.task.Some? && v.task.value.Draining? && v.task.value.cur == []
    case Deliver(_, n) =>
      v.task.Some? && v.task.value.Draining? && 0 < n <= |v.task.value.cur| && !v.half.broken
    case WriteFails(_) =>
      v.task.Some? && v.task.value.Draining? && v.task.value.cur != [] && v.half.broken
    case Shutdown(_) => v.task.Some? && v.task.value.Closing?
    case Write(_, _) => v.rec.Some?
    case Remove(_) => v.rec.Some?
    case Insert(_, _) => false
    case PeerDrops(_) => true
  }

  lemma SeenBySubject(s: State, e: Event, w: Handle)
    requires Inv(s) && Enabled(s, e) && Subject(s, e) == Some(w) && w in s.halves
    ensures HalfOk(ViewOf(s, w)) && ViewOf(s, w).w == w && EnabledOn(ViewOf(s, w), e)
  {
    if e.Write? || e.Remove? {
      OwnerSees(s, e.id);
    } else if !e.PeerDrops? {
      LiveTask(s, e.t);
    }
  }

  // ---- Every step keeps the subject in order ----

  lemma WriteViewOk(v: View, e: Event)
    requires HalfOk(v) && e.Write?
    ensures HalfOk(StepView(v, e))
  {
    hide Flatten;
    if v.rec.Some? {
      var rec := v.rec.value;
      if v.task.Some? {
        FlattenPush(rec.q, e.buf);
        PendingGrows(v.half, InFlight(v.task.value), Flatten(rec.q), e.buf);
      } else {
        ParkedPending(v.half, Locking(e.id, v.w), e.buf);
      }
    }
  }

  lemma PendingGrows(half: Half, flying: seq<byte>, queued: seq<byte>, buf: Buf)
    requires Accounted(half, flying + queued)
    ensures Accounted(half.(accepted := half.accepted + buf), flying + (queued + buf))
  {
    assert half.delivered + (flying + (queued + buf)) == half.delivered + (flying + queued) + buf;
  }

  lemma ParkedPending(half: Half, task: Task, buf: Buf)
    requires Accounted(half, []) && task.Locking?
    ensures Accounted(half.(accepted := half.accepted + buf), InFlight(task) + Flatten([] + [buf]))
  {
    FlattenPush([], buf);
    assert InFlight(task) + ([] + buf) == buf && half.delivered + [] == half.delivered;
  }

  lemma LockViewOk(v: View, e: Event)
    requires HalfOk(v) && EnabledOn(v, e) && e.TakeLock? && v.task.value.w == v.w
    ensures HalfOk(StepView(v, e))
  {}

  lemma NextItemViewOk(v: View, e: Event)
    requires HalfOk(v) && EnabledOn(v, e) && e.NextItem?
    ensures HalfOk(StepView(v, e))
  {
    var task, task' := v.task.value, StepView(v, e).task.value;
    assert InFlight(task') == InFlight(task);
  }

  lemma DeliverViewOk(v: View, e: Event)
    requires HalfOk(v) && EnabledOn(v, e) && e.Deliver?
    ensures HalfOk(StepView(v, e))
  {
    var cur, rest, q := v.task.value.cur, Flatten(v.task.value.rest), Flatten(v.rec.value.q);
    assert v.half.delivered + cur[..e.n] + (cur[e.n..] + rest + q) == v.half.delivered + (cur + rest + q);
  }

  lemma StepViewOk(v: View, e: Event)
    requires HalfOk(v) && EnabledOn(v, e) && (v.task.Some? ==> v.task.value.w == v.w)
    ensures HalfOk(StepView(v, e))
  {
    if e.Write? {
      WriteViewOk(v, e);
    } else if e.TakeLock? {
      LockViewOk(v, e);
    } else if e.NextItem? {
      NextItemViewOk(v, e);
    } else if e.Deliver? {
      DeliverViewOk(v, e);
    }
  }

  lemma OwnTask(s: State, w: Handle)
    requires Inv(s) && w in s.halves
    ensures ViewOf(s, w).task.Some? ==> ViewOf(s, w).task.value.w == w
  {
    if w in s.newest { assert NewestOk(s, w, s.newest[w]); }
  }

  lemma StepKeepsHalf(s: State, e: Event, w: Handle)
    requires Inv(s) && Enabled(s, e) && Guarded(s, e) && w in Next(s, e).halves
    ensures HalfOk(ViewOf(Next(s, e), w))
  {
    hide ViewOf, StepView, HalfOk, Next, Shape;
    if w in s.halves {
      StepIsLocal(s, e, w);
      if Subject(s, e) == Some(w) {
        SeenBySubject(s, e, w);
        OwnTask(s, w);
        StepViewOk(ViewOf(s, w), e);
      }
    } else {
      NewHalf(s, e, w);
    }
  }

  lemma NewHalf(s: State, e: Event, w: Handle)
    requires Inv(s) && Enabled(s, e) && Guarded(s, e) && w in Next(s, e).halves && w !in s.halves
    ensures e.Insert? && e.w == w && HalfOk(ViewOf(Next(s, e), w))
  {
    hide ViewOf;
    if e.Insert? {
      InsertIsLocal(s, e.id, e.w);
    } else {
      KnownHalves(s, e);
    }
  }

  lemma KnownHalves(s: State, e: Event)
    requires Enabled(s, e) && !e.Insert?
    ensures Next(s, e).halves.Keys == s.halves.Keys
  {
    hide Written, Removed, AfterTurn;
  }

  lemma StepKeepsShape(s: State, e: Event)
    requires Inv(s) && Enabled(s, e) && Guarded(s, e)
    ensures Shape(Next(s, e))
  {
    hide ViewOf, StepView, HalfOk, Next;
    match Subject(s, e) {
      case None => UnknownStream(s, e);
      case Some(w) => if e.Insert? { InsertShapeStep(s, e); } else { SubjectChanges(s, e, w); }
    }
  }

  lemma InsertShapeStep(s: State, e: Event)
    requires Inv(s) && e.Insert? && Enabled(s, e)
    ensures Shape(Next(s, e))
  {
    InsertShape(s, e.id, e.w);
  }

  lemma StepKeepsInv(s: State, e: Event)
    requires Inv(s) && Enabled(s, e) && Guarded(s, e)
    ensures Inv(Next(s, e))
  {
    hide Next, Shape;
    StepKeepsShape(s, e);
    forall w | w in Next(s, e).halves ensures HalfOk(ViewOf(Next(s, e), w)) { StepKeepsHalf(s, e, w); }
  }
}
