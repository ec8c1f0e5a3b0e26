/** `write_loop` run on its own (cli/src/rpc.rs, 596-631): the loop over a write half whose
    peer may disappear after any number of bytes. */
module WriteLoop {
  import opened Common
  import opened StreamTable

  class WriteHalf {
    var delivered: seq<byte>
    var room: Option<nat>     // bytes the peer still takes before it goes away; None: it stays
    var shutdowns: nat

    constructor (room: Option<nat>)
      ensures delivered == [] && this.room == room && shutdowns == 0
    {
      delivered, this.room, shutdowns := [], room, 0;
    }

    /** `write_all`: all of `item`, or what still fits before the peer is gone. */
    method WriteAll(item: Buf) returns (ok: bool)
      modifies `delivered, `room
      ensures delivered == old(delivered) + Fitting(old(room), item)
      ensures ok <==> Fitting(old(room), item) == item
      ensures room == RoomAfter(old(room), item)
    {
      if room.None? || |item| <= room.value {
        delivered := delivered + item;
        room := if room.None? then None else Some(room.value - |item|);
        ok := true;
      } else {
        delivered := delivered + item[..room.value];
        room := Some(0);
        ok := false;
      }
    }

    method Shutdown()
      modifies `shutdowns
      ensures shutdowns == old(shutdowns) + 1
    {
      shutdowns := shutdowns + 1;
    }
  }

  /** The part of `bytes` that gets through. */
  function Fitting(room: Option<nat>, bytes: seq<byte>): (r: seq<byte>)
    ensures r <= bytes
    ensures |r| == if room.None? || |bytes| <= room.value then |bytes| else room.value
  {
    if room.Some? && room.value < |bytes| then bytes[..room.value] else bytes
  }

  function RoomAfter(room: Option<nat>, bytes: seq<byte>): Option<nat> {
    if room.None? then None else Some(room.value - |Fitting(room, bytes)|)
  }

  lemma FittingSplit(room: Option<nat>, a: seq<byte>, b: seq<byte>)
    ensures Fitting(room, a) == a ==>
              Fitting(room, a + b) == a + Fitting(RoomAfter(room, a), b)
              && RoomAfter(room, a + b) == RoomAfter(RoomAfter(room, a), b)
    ensures Fitting(room, a) != a ==>
              Fitting(room, a + b) == Fitting(room, a) && RoomAfter(room, a + b) == Some(0)
  {
    if room.Some? && room.value < |a + b| {
      if room.value < |a| {
        assert (a + b)[..room.value] == a[..room.value];
      } else {
        assert (a + b)[..room.value] == a + b[..room.value - |a|];
      }
    }
  }

  /** `for item in items_vec.drain(..)` with its `break` on the first failing item. */
  method Drain(w: WriteHalf, items: seq<Buf>)
    modifies w`delivered, w`room
    ensures w.delivered == old(w.delivered) + Fitting(old(w.room), Flatten(items))
    ensures w.room == RoomAfter(old(w.room), Flatten(items))
  {
    var i := 0;
    while i < |items|
      invariant 0 <= i <= |items|
      invariant w.delivered + Fitting(w.room, Flatten(items[i..]))
             == old(w.delivered) + Fitting(old(w.room), Flatten(items))
      invariant RoomAfter(w.room, Flatten(items[i..])) == RoomAfter(old(w.room), Flatten(items))
    {
      assert Flatten(items[i..]) == items[i] + Flatten(items[i + 1..]) by {
        assert items[i..][1..] == items[i + 1..];
      }
      FittingSplit(w.room, items[i], Flatten(items[i + 1..]));
      var ok := w.WriteAll(items[i]);
      if !ok {
        return;
      }
      i := i + 1;
    }
  }

  /** The whole loop when nobody else touches the stream meanwhile. */
  method Run(id: u32, half: Handle, w: WriteHalf, streams: Streams)
    requires id in streams.recs && streams.recs[id].write == None
    modifies w, streams
    ensures w.delivered == old(w.delivered) + Fitting(old(w.room), Flatten(old(streams.recs)[id].q))
    ensures if old(streams.recs)[id].ended
            then streams.recs == old(streams.recs) - {id} && w.shutdowns == old(w.shutdowns) + 1
            else streams.recs == old(streams.recs)[id := StreamRec(Some(half), [], false)]
                 && w.shutdowns == old(w.shutdowns)
  {
    var itemsVec: seq<Buf> := [];
    ghost var first := true;
    while true
      invariant id in streams.recs && streams.recs[id].write == None
      invariant streams.recs == old(streams.recs)[id := streams.recs[id]]
      invariant streams.recs[id].ended == old(streams.recs)[id].ended
      invariant if first then streams.recs == old(streams.recs) else streams.recs[id].q == []
      invariant w.delivered + (if first then Fitting(w.room, Flatten(streams.recs[id].q)) else [])
             == old(w.delivered) + Fitting(old(w.room), Flatten(old(streams.recs)[id].q))
      invariant w.shutdowns == old(w.shutdowns)
      decreases |streams.recs[id].q|
    {
      var turn := streams.TakeTurn(id, half);
      match turn {
        case Gone => break;
        case Finished => break;
        case Parked => return;
        case Batch(items) => itemsVec := items;
      }
      Drain(w, itemsVec);
      first := false;
    }
    w.Shutdown();
  }
}
