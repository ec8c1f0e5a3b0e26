/** The shared table of inbound streams (cli/src/rpc.rs, `Streams`): one record per
    stream id, and the four critical sections that touch it under its mutex.  Each
    critical section is a method of `Streams`, specified by functions on the table. */
module StreamTable {
  import opened Common

  type Buf = seq<byte>

  /** Identity of one `WriteHalf`. */
  type Handle = nat

  datatype StreamRec = StreamRec(write: Option<Handle>, q: seq<Buf>, ended: bool)

  type Table = map<u32, StreamRec>

  /** What one pass through the locked part of `write_loop` decides. */
  datatype Turn =
    | Gone                      // the record is no longer there
    | Finished                  // queue empty and stream ended: record dropped
    | Parked                    // queue empty: write half handed back to the record
    | Batch(items: seq<Buf>)    // the queue was swapped out

  function Inserted(t: Table, id: u32, w: Handle): Table {
    t[id := StreamRec(Some(w), [], false)]
  }

  function Written(t: Table, id: u32, buf: Buf): Table {
    if id in t then t[id := StreamRec(None, t[id].q + [buf], t[id].ended)] else t
  }

  function Removed(t: Table, id: u32): Table {
    if id !in t then t
    else if t[id].write.Some? then t - {id}
    else t[id := t[id].(ended := true)]
  }

  /** The write half parked in the record, if any: what `write` gives to a new loop
      and what `remove` shuts down itself. */
  function ParkedHalf(t: Table, id: u32): Option<Handle> {
    if id in t then t[id].write else None
  }

  function TurnOf(t: Table, id: u32): Turn {
    if id !in t then Gone
    else if t[id].q != [] then Batch(t[id].q)
    else if t[id].ended then Finished
    else Parked
  }

  function AfterTurn(t: Table, id: u32, w: Handle): Table {
    match TurnOf(t, id)
    case Gone => t
    case Finished => t - {id}
    case Parked => t[id := t[id].(write := Some(w))]
    case Batch(_) => t[id := t[id].(q := [])]
  }

  class Streams {
    var recs: Table

    constructor ()
      ensures recs == map[]
    {
      recs := map[];
    }

    method Insert(id: u32, stream: Handle)
      modifies this
      ensures recs == Inserted(old(recs), id, stream)
    {
      recs := recs[id := StreamRec(Some(stream), [], false)];
    }

    /** Queues `buf`; `spawn` is the write half handed to a newly spawned write loop. */
    method Write(id: u32, buf: Buf) returns (spawn: Option<Handle>)
      modifies this
      ensures recs == Written(old(recs), id, buf)
      ensures spawn == ParkedHalf(old(recs), id)
    {
      spawn := None;
      if id in recs {
        var s := recs[id];
        s := s.(q := s.q + [buf]);
        if s.write.Some? {
          spawn := s.write;
          s := s.(write := None);
        }
        recs := recs[id := s];
      }
    }

    /** The locked part of `remove`; a returned write half is shut down by the caller. */
    method Remove(id: u32) returns (remove: Option<Handle>)
      modifies this
      ensures recs == Removed(old(recs), id)
      ensures remove == ParkedHalf(old(recs), id)
    {
      remove := None;
      if id in recs {
        var s := recs[id];
        if s.write.Some? {
          remove := s.write;
          recs := recs - {id};
        } else {
          recs := recs[id := s.(ended := true)];
        }
      }
    }

    /** The locked part of `write_loop`, entered with an empty `items_vec`. */
    method TakeTurn(id: u32, w: Handle) returns (turn: Turn)
      modifies this
      ensures turn == TurnOf(old(recs), id)
      ensures recs == AfterTurn(old(recs), id, w)
    {
      if id !in recs {
        return Gone;
      }
      var rec := recs[id];
      if rec.q == [] {
        if rec.ended {
          recs := recs - {id};
          return Finished;
        } else {
          recs := recs[id := rec.(write := Some(w))];
          return Parked;
        }
      }
      var itemsVec: seq<Buf> := [];
      var q := rec.q;
      itemsVec, q := q, itemsVec;
      recs := recs[id := rec.(q := q)];
      return Batch(itemsVec);
    }
  }
}
