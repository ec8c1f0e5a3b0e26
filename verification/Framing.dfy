/** The receive side's framing (cli/src/msgpack_rpc.rs, 61-97 and 135-163): reads append to
    one buffer, and `MsgPackCodec::decode` is repeated on it until no whole message is left. */
module Framing {
  import opened Common
  import opened MsgPack

  /** A decoded message with its own bytes. */
  datatype Frame = Frame(obj: Object, vec: seq<byte>)

  datatype Parsed = Parsed(frames: seq<Frame>, rest: seq<byte>, failed: bool)

  /** All frames at the front of `b`, and what is left. */
  function Drain(b: seq<byte>): Parsed
    decreases |b|
  {
    match Decode(b)
    case Short => Parsed([], b, false)
    case Bad => Parsed([], b, true)
    case Done(o, len) =>
      var more := Drain(b[len..]);
      more.(frames := [Frame(o, b[..len])] + more.frames)
  }

  /** The frames of a connection that reads `chunks` one after the other; an invalid message
      ends it. */
  function Feed(buffered: seq<byte>, chunks: seq<seq<byte>>): Parsed
    decreases |chunks|
  {
    if chunks == [] then Parsed([], buffered, false)
    else
      var now := Drain(buffered + chunks[0]);
      if now.failed then now
      else Following(now.frames, Feed(now.rest, chunks[1..]))
  }

  /** `p` with `frames` in front of its own. */
  function Following(frames: seq<Frame>, p: Parsed): Parsed {
    p.(frames := frames + p.frames)
  }

  lemma FollowingNothing(p: Parsed)
    ensures Following([], p) == p
  {
    assert [] + p.frames == p.frames;
  }

  lemma FollowedByRest(frames: seq<Frame>, rest: seq<byte>, failed: bool)
    ensures Following(frames, Parsed([], rest, failed)) == Parsed(frames, rest, failed)
  {
    assert frames + [] == frames;
  }

  lemma DrainStep(b: seq<byte>)
    ensures Decode(b).Short? ==> Drain(b) == Parsed([], b, false)
    ensures Decode(b).Bad? ==> Drain(b) == Parsed([], b, true)
    ensures Decode(b).Done? ==>
              var len := Decode(b).len;
              Drain(b) == Following([Frame(Decode(b).value, b[..len])], Drain(b[len..]))
  {}

  lemma FollowingBoth(a: seq<Frame>, b: seq<Frame>, p: Parsed)
    ensures Following(a + b, p) == Following(a, Following(b, p))
  {
    assert a + b + p.frames == a + (b + p.frames);
  }

  class Receiver {
    var decoderBuf: seq<byte>

    constructor ()
      ensures decoderBuf == []
    {
      decoderBuf := [];
    }

    /** `MsgPackCodec::decode`: one message off the front of the buffer, if it is all there. */
    method DecodeNext() returns (r: Result<Option<Frame>, ()>)
      modifies this
      ensures match Decode(old(decoderBuf))
              case Short => r == Ok(None) && decoderBuf == old(decoderBuf)
              case Bad => r.Err? && decoderBuf == old(decoderBuf)
              case Done(o, len) =>
                r == Ok(Some(Frame(o, old(decoderBuf)[..len]))) && decoderBuf == old(decoderBuf)[len..]
    {
      match Decode(decoderBuf) {
        case Short => return Ok(None);
        case Bad => return Err(());
        case Done(obj, len) =>
          var vec := decoderBuf[..len];
          decoderBuf := decoderBuf[len..];
          return Ok(Some(Frame(obj, vec)));
      }
    }

    /** One readable event: append the bytes and take every whole frame. */
    method OnRead(chunk: seq<byte>) returns (frames: seq<Frame>, failed: bool)
      modifies this
      ensures Parsed(frames, decoderBuf, failed) == Drain(old(decoderBuf) + chunk)
    {
      hide Decode, Drain, Following;
      decoderBuf := decoderBuf + chunk;
      frames, failed := [], false;
      FollowingNothing(Drain(decoderBuf));
      while true
        invariant !failed
        invariant Drain(old(decoderBuf) + chunk) == Following(frames, Drain(decoderBuf))
        decreases |decoderBuf|
      {
        DrainStep(decoderBuf);
        ghost var was := decoderBuf;
        var r := DecodeNext();
        match r {
          case Ok(None) =>
            FollowedByRest(frames, decoderBuf, false);
            return;
          case Err(_) =>
            FollowedByRest(frames, decoderBuf, true);
            failed := true;
            return;
          case Ok(Some(frame)) =>
            FollowingBoth(frames, [frame], Drain(decoderBuf));
            frames := frames + [frame];
        }
      }
    }

    /** A whole connection. */
    method Receive(chunks: seq<seq<byte>>) returns (frames: seq<Frame>, failed: bool)
      modifies this
      ensures Parsed(frames, decoderBuf, failed) == Feed(old(decoderBuf), chunks)
    {
      hide Drain;
      frames, failed := [], false;
      var i := 0;
      FollowingNothing(Feed(decoderBuf, chunks));
      while i < |chunks|
        invariant 0 <= i <= |chunks| && !failed
        invariant Feed(old(decoderBuf), chunks) == Following(frames, Feed(decoderBuf, chunks[i..]))
      {
        assert chunks[i..][1..] == chunks[i + 1..];
        var more, bad := OnRead(chunks[i]);
        FollowingBoth(frames, more, Feed(decoderBuf, chunks[i + 1..]));
        frames := frames + more;
        if bad {
          return frames, true;
        }
        i := i + 1;
      }
    }
  }

  // ---- How bytes are split into reads does not matter ----

  lemma {:induction false} DrainMore(b: seq<byte>, more: seq<byte>)
    ensures var first := Drain(b);
            if first.failed then Drain(b + more) == first.(rest := first.rest + more)
            else Drain(b + more) == Drain(first.rest + more).(frames := first.frames + Drain(first.rest + more).frames)
    decreases |b|
  {
    hide Decode;
    DecodeStable(b, more);
    match Decode(b) {
      case Short =>
      case Bad =>
      case Done(o, len) =>
        assert (b + more)[len..] == b[len..] + more && (b + more)[..len] == b[..len];
        DrainMore(b[len..], more);
    }
  }

  /** Reading in chunks yields the frames of reading everything at once. */
  lemma {:induction false} ChunkingDoesNotMatter(buffered: seq<byte>, chunks: seq<seq<byte>>)
    requires Decode(buffered).Short?
    ensures var chunked, whole := Feed(buffered, chunks), Drain(buffered + Flatten(chunks));
            && chunked.frames == whole.frames && chunked.failed == whole.failed
            && (!whole.failed ==> chunked.rest == whole.rest)
    decreases |chunks|
  {
    hide Decode;
    if chunks == [] {
      assert buffered + [] == buffered;
    } else {
      var b, others := buffered + chunks[0], Flatten(chunks[1..]);
      assert buffered + Flatten(chunks) == b + others;
      DrainMore(b, others);
      if !Drain(b).failed {
        DrainedIsShort(b);
        ChunkingDoesNotMatter(Drain(b).rest, chunks[1..]);
      }
    }
  }

  lemma {:induction false} DrainedIsShort(b: seq<byte>)
    ensures !Drain(b).failed ==> Decode(Drain(b).rest).Short?
    decreases |b|
  {
    if Decode(b).Done? { DrainedIsShort(b[Decode(b).len..]); }
  }

  function FramesOf(os: seq<Object>): seq<Frame>
    requires ValidAll(os)
  {
    if os == [] then [] else [Frame(os[0], Encode(os[0]))] + FramesOf(os[1..])
  }

  lemma {:induction false} DrainEncoded(os: seq<Object>, tail: seq<byte>)
    requires ValidAll(os) && Decode(tail).Short?
    ensures Drain(EncodeAll(os) + tail) == Parsed(FramesOf(os), tail, false)
  {
    hide Decode, Encode;
    if os == [] {
      assert [] + tail == tail;
    } else {
      var b, others := EncodeAll(os) + tail, EncodeAll(os[1..]) + tail;
      assert b == Encode(os[0]) + others;
      DecodeEncode(os[0], others);
      var len := |Encode(os[0])|;
      assert b[len..] == others && b[..len] == Encode(os[0]);
      DrainEncoded(os[1..], tail);
    }
  }

  /** What may follow the last whole message: nothing, or a strict prefix of one more. */
  ghost predicate PartialTail(tail: seq<byte>) {
    tail == [] || exists o :: Valid(o) && tail < Encode(o)
  }

  /** For any list of messages, followed by part of a next one, and any split of their bytes
      into reads: exactly these messages come out, in order, each with its own bytes, and
      the part is what stays in the buffer. */
  lemma FramesSurviveChunking(os: seq<Object>, tail: seq<byte>, chunks: seq<seq<byte>>)
    requires ValidAll(os) && PartialTail(tail)
    requires Flatten(chunks) == EncodeAll(os) + tail
    ensures Feed([], chunks) == Parsed(FramesOf(os), tail, false)
  {
    assert Decode([]).Short?;
    if tail != [] {
      var o :| Valid(o) && tail < Encode(o);
      StrictPrefixIsShort(o, tail);
    }
    ChunkingDoesNotMatter([], chunks);
    assert [] + Flatten(chunks) == Flatten(chunks);
    DrainEncoded(os, tail);
  }

  function BytesOf(frames: seq<Frame>): seq<byte> {
    if frames == [] then [] else frames[0].vec + BytesOf(frames[1..])
  }

  /** Conversely, whatever is read, frames and buffer together are the bytes read, each frame
      being the encoding of its object. */
  lemma {:induction false} NothingLostInFraming(b: seq<byte>)
    ensures var r := Drain(b);
            && BytesOf(r.frames) + r.rest == b
            && forall i | 0 <= i < |r.frames| :: Valid(r.frames[i].obj) && r.frames[i].vec == Encode(r.frames[i].obj)
    decreases |b|
  {
    hide Encode, Valid, Decode;
    EncodeDecode(b);
    if Decode(b).Done? {
      var len := Decode(b).len;
      NothingLostInFraming(b[len..]);
      var r, more := Drain(b), Drain(b[len..]);
      assert r.frames[1..] == more.frames;
      assert b == b[..len] + (BytesOf(more.frames) + more.rest);
    }
  }
}
