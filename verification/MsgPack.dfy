/** The message syntax that `MsgPackCodec` cuts its buffer by: the formats of the MessagePack
    specification, as a decoder from byte prefixes and the encoder it inverts. */
module MsgPack {
  import opened Common

  /** How the bytes after a marker are laid out: a payload of fixed size, a big-endian size
      of `width` bytes followed by that many (plus `extra`) bytes, or nested objects, their
      number fixed or given by a big-endian count (a map counts `per` = 2 objects as one). */
  datatype Layout =
    | Fixed(size: nat)
    | Sized(width: nat, extra: nat)
    | FixedItems(count: nat)
    | SizedItems(width: nat, per: nat)

  function LayoutOf(marker: byte): Option<Layout> {
    if marker < 0x80 then Some(Fixed(0))                            // positive fixint
    else if marker < 0x90 then Some(FixedItems(2 * (marker - 0x80)))  // fixmap
    else if marker < 0xa0 then Some(FixedItems(marker - 0x90))        // fixarray
    else if marker < 0xc0 then Some(Fixed(marker - 0xa0))             // fixstr
    else if marker == 0xc0 then Some(Fixed(0))                        // nil
    else if marker == 0xc1 then None                                  // never used
    else if marker < 0xc4 then Some(Fixed(0))                         // false, true
    else if marker < 0xc7 then Some(Sized(Width(marker - 0xc4), 0))   // bin 8, 16, 32
    else if marker < 0xca then Some(Sized(Width(marker - 0xc7), 1))   // ext 8, 16, 32
    else if marker < 0xcc then Some(Fixed(if marker == 0xca then 4 else 8))  // float 32, 64
    else if marker < 0xd0 then Some(Fixed(Width(marker - 0xcc)))      // uint 8 to 64
    else if marker < 0xd4 then Some(Fixed(Width(marker - 0xd0)))      // int 8 to 64
    else if marker < 0xd9 then Some(Fixed(1 + Width(marker - 0xd4)))  // fixext 1 to 16
    else if marker < 0xdc then Some(Sized(Width(marker - 0xd9), 0))   // str 8, 16, 32
    else if marker < 0xde then Some(SizedItems(Width(marker - 0xdb), 1))  // array 16, 32
    else if marker < 0xe0 then Some(SizedItems(Width(marker - 0xdd), 2))  // map 16, 32
    else Some(Fixed(0))                                               // negative fixint
  }

  /** 1, 2, 4, 8 or 16. */
  function Width(step: nat): nat
    requires step <= 4
  {
    if step == 0 then 1 else 2 * Width(step - 1)
  }

  function BigEndian(b: seq<byte>): nat {
    if b == [] then 0 else BigEndian(b[..|b| - 1]) * 0x100 + b[|b| - 1]
  }

  function ToBigEndian(n: nat, width: nat): seq<byte> {
    if width == 0 then [] else ToBigEndian(n / 0x100, width - 1) + [n % 0x100]
  }

  function Pow256(width: nat): nat {
    if width == 0 then 1 else 0x100 * Pow256(width - 1)
  }

  lemma {:induction false} BigEndianRoundTrip(n: nat, width: nat)
    requires n < Pow256(width)
    ensures |ToBigEndian(n, width)| == width && BigEndian(ToBigEndian(n, width)) == n
  {
    if width > 0 {
      BigEndianRoundTrip(n / 0x100, width - 1);
      var b := ToBigEndian(n, width);
      assert b[..|b| - 1] == ToBigEndian(n / 0x100, width - 1);
    }
  }

  lemma {:induction false} BigEndianInverse(b: seq<byte>)
    ensures BigEndian(b) < Pow256(|b|) && ToBigEndian(BigEndian(b), |b|) == b
  {
    if b != [] {
      BigEndianInverse(b[..|b| - 1]);
      assert BigEndian(b) / 0x100 == BigEndian(b[..|b| - 1]);
      assert b == b[..|b| - 1] + [b[|b| - 1]];
    }
  }

  datatype Object = Leaf(marker: byte, payload: seq<byte>) | Node(marker: byte, items: seq<Object>)

  predicate Valid(o: Object) {
    match (o, LayoutOf(o.marker))
    case (Leaf(_, payload), Some(Fixed(size))) => |payload| == size
    case (Leaf(_, payload), Some(Sized(width, extra))) => extra <= |payload| < extra + Pow256(width)
    case (Node(_, items), Some(FixedItems(count))) => |items| == count && ValidAll(items)
    case (Node(_, items), Some(SizedItems(width, per))) =>
      per != 0 && |items| % per == 0 && |items| / per < Pow256(width) && ValidAll(items)
    case _ => false
  }

  predicate ValidAll(os: seq<Object>) {
    os == [] || (Valid(os[0]) && ValidAll(os[1..]))
  }

  /** Marker and size field. */
  function Head(o: Object): seq<byte>
    requires Valid(o)
  {
    [o.marker] + match LayoutOf(o.marker)
      case Some(Sized(width, extra)) => ToBigEndian(|o.payload| - extra, width)
      case Some(SizedItems(width, per)) => ToBigEndian(|o.items| / per, width)
      case _ => []
  }

  function Encode(o: Object): seq<byte>
    requires Valid(o)
  {
    Head(o) + if o.Leaf? then o.payload else EncodeAll(o.items)
  }

  function EncodeAll(os: seq<Object>): seq<byte>
    requires ValidAll(os)
  {
    if os == [] then [] else Encode(os[0]) + EncodeAll(os[1..])
  }

  /** Reading from the front of a buffer: the bytes run out, are no message, or hold one. */
  datatype Read<+T> = Short | Bad | Done(value: T, len: nat)

  function AsNode(marker: byte, skip: nat, r: Read<seq<Object>>): Read<Object> {
    match r
    case Short => Short
    case Bad => Bad
    case Done(items, len) => Done(Node(marker, items), skip + len)
  }

  function Cons(o: Object, skip: nat, r: Read<seq<Object>>): Read<seq<Object>> {
    match r
    case Short => Short
    case Bad => Bad
    case Done(items, len) => Done([o] + items, skip + len)
  }

  function Decode(b: seq<byte>): (r: Read<Object>)
    ensures r.Done? ==> 0 < r.len <= |b|
    decreases |b|, 0, 0
  {
    if b == [] then Short
    else match LayoutOf(b[0])
      case None => Bad
      case Some(Fixed(size)) => Taken(b, 1, size)
      case Some(Sized(width, extra)) =>
        if |b| < 1 + width then Short else Taken(b, 1 + width, BigEndian(b[1..1 + width]) + extra)
      case Some(FixedItems(count)) => AsNode(b[0], 1, DecodeMany(b[1..], count))
      case Some(SizedItems(width, per)) =>
        if |b| < 1 + width then Short
        else AsNode(b[0], 1 + width, DecodeMany(b[1 + width..], per * BigEndian(b[1..1 + width])))
  }

  function Taken(b: seq<byte>, from: nat, size: nat): Read<Object>
    requires 0 < from
  {
    if |b| < from + size then Short else Done(Leaf(b[0], b[from..from + size]), from + size)
  }

  function DecodeMany(b: seq<byte>, n: nat): (r: Read<seq<Object>>)
    ensures r.Done? ==> r.len <= |b|
    decreases |b|, 1, n
  {
    if n == 0 then Done([], 0)
    else match Decode(b)
      case Short => Short
      case Bad => Bad
      case Done(o, len) => Cons(o, len, DecodeMany(b[len..], n - 1))
  }

  // ---- More bytes do not change what was read ----

  lemma TakenStable(b: seq<byte>, more: seq<byte>, from: nat, size: nat)
    requires 0 < from
    ensures !Taken(b, from, size).Short? ==> Taken(b + more, from, size) == Taken(b, from, size)
  {
    if from + size <= |b| { SliceOfAppend(b, more, from, from + size); }
  }

  lemma {:induction false} DecodeStable(b: seq<byte>, more: seq<byte>)
    ensures !Decode(b).Short? ==> Decode(b + more) == Decode(b)
    decreases |b|, 0, 0
  {
    hide LayoutOf, Taken;
    if b != [] {
      var longer := b + more;
      assert longer[0] == b[0];
      DropOfAppend(b, more, 1);
      match LayoutOf(b[0]) {
        case None =>
        case Some(Fixed(size)) => TakenStable(b, more, 1, size);
        case Some(FixedItems(count)) => DecodeManyStable(b[1..], count, more);
        case Some(SizedItems(width, per)) =>
          if 1 + width <= |b| {
            DropOfAppend(b, more, 1 + width);
            SliceOfAppend(b, more, 1, 1 + width);
            DecodeManyStable(b[1 + width..], per * BigEndian(b[1..1 + width]), more);
          }
        case Some(Sized(width, extra)) =>
          if 1 + width <= |b| {
            SliceOfAppend(b, more, 1, 1 + width);
            TakenStable(b, more, 1 + width, BigEndian(b[1..1 + width]) + extra);
          }
      }
    }
  }

  lemma {:induction false} DecodeManyStable(b: seq<byte>, n: nat, more: seq<byte>)
    ensures !DecodeMany(b, n).Short? ==> DecodeMany(b + more, n) == DecodeMany(b, n)
    decreases |b|, 1, n
  {
    hide LayoutOf;
    if n > 0 {
      DecodeStable(b, more);
      match Decode(b) {
        case Done(o, len) =>
          DropOfAppend(b, more, len);
          DecodeManyStable(b[len..], n - 1, more);
        case _ =>
      }
    }
  }

  // ---- Round trips ----

  lemma Parts(marker: byte, size: seq<byte>, body: seq<byte>, rest: seq<byte>)
    ensures var b := ([marker] + size) + body + rest;
            && b[0] == marker && |b| == 1 + |size| + |body| + |rest|
            && b[1..1 + |size|] == size
            && b[1 + |size|..1 + |size| + |body|] == body
            && b[1 + |size|..] == body + rest
  {}

  /** The size field of an encoding. */
  function SizeField(o: Object): (f: seq<byte>)
    requires Valid(o)
    ensures Head(o) == [o.marker] + f
  {
    Head(o)[1..]
  }

  lemma DecodeEncodeLeaf(o: Object, rest: seq<byte>)
    requires Valid(o) && o.Leaf?
    ensures Decode(Encode(o) + rest) == Done(o, |Encode(o)|)
  {
    hide LayoutOf, BigEndian, ToBigEndian, Pow256, ValidAll;
    Parts(o.marker, SizeField(o), o.payload, rest);
    match LayoutOf(o.marker) {
      case Some(Fixed(size)) =>
      case Some(Sized(width, extra)) => BigEndianRoundTrip(|o.payload| - extra, width);
    }
  }

  lemma CountTimesPer(n: nat, per: nat)
    requires per != 0 && n % per == 0
    ensures per * (n / per) == n
  {}

  lemma DecodeEncodeNode(o: Object, rest: seq<byte>)
    requires Valid(o) && o.Node?
    requires DecodeMany(EncodeAll(o.items) + rest, |o.items|) == Done(o.items, |EncodeAll(o.items)|)
    ensures Decode(Encode(o) + rest) == Done(o, |Encode(o)|)
  {
    hide LayoutOf, DecodeMany, EncodeAll, BigEndian, ToBigEndian, Pow256, ValidAll;
    var body := EncodeAll(o.items);
    Parts(o.marker, SizeField(o), body, rest);
    match LayoutOf(o.marker) {
      case Some(FixedItems(count)) =>
      case Some(SizedItems(width, per)) =>
        BigEndianRoundTrip(|o.items| / per, width);
        CountTimesPer(|o.items|, per);
    }
  }

  lemma {:induction false} DecodeEncode(o: Object, rest: seq<byte>)
    requires Valid(o)
    ensures Decode(Encode(o) + rest) == Done(o, |Encode(o)|)
    decreases o, 0
  {
    hide LayoutOf, Decode, Encode;
    if o.Leaf? {
      DecodeEncodeLeaf(o, rest);
    } else {
      DecodeEncodeAll(o.items, rest);
      DecodeEncodeNode(o, rest);
    }
  }

  lemma {:induction false} DecodeEncodeAll(os: seq<Object>, rest: seq<byte>)
    requires ValidAll(os)
    ensures DecodeMany(EncodeAll(os) + rest, |os|) == Done(os, |EncodeAll(os)|)
    decreases os, 0
  {
    hide LayoutOf, Decode, Encode, Valid;
    if os != [] {
      var first, others := Encode(os[0]), EncodeAll(os[1..]);
      assert EncodeAll(os) + rest == first + (others + rest);
      DecodeEncode(os[0], others + rest);
      assert (first + (others + rest))[|first|..] == others + rest;
      DecodeEncodeAll(os[1..], rest);
      assert [os[0]] + os[1..] == os;
    }
  }

  /** Prefix-freedom: a strict prefix of a message is never taken for a message or an error. */
  lemma StrictPrefixIsShort(o: Object, part: seq<byte>)
    requires Valid(o) && part < Encode(o)
    ensures Decode(part) == Short
  {
    var b := Encode(o);
    assert b == part + b[|part|..];
    DecodeStable(part, b[|part|..]);
    DecodeEncode(o, []);
    assert b + [] == b;
  }

  lemma EncodeDecodeTaken(b: seq<byte>, size: nat)
    requires b != [] && LayoutOf(b[0]) == Some(Fixed(size))
    ensures var r := Decode(b); r.Done? ==> Valid(r.value) && Encode(r.value) == b[..r.len]
  {
    hide LayoutOf, DecodeMany, EncodeAll, ValidAll, Pow256;
    if 1 + size <= |b| { assert b[..1 + size] == [b[0]] + b[1..1 + size]; }
  }

  lemma EncodeDecodeMeasured(b: seq<byte>, width: nat, extra: nat)
    requires b != [] && LayoutOf(b[0]) == Some(Sized(width, extra))
    ensures var r := Decode(b); r.Done? ==> Valid(r.value) && Encode(r.value) == b[..r.len]
  {
    hide LayoutOf, DecodeMany, EncodeAll, ValidAll, Pow256, BigEndian, ToBigEndian;
    var r := Decode(b);
    if r.Done? {
      BigEndianInverse(b[1..1 + width]);
      assert b[..r.len] == [b[0]] + b[1..1 + width] + b[1 + width..r.len];
    }
  }

  lemma EncodeDecodeFixed(b: seq<byte>, count: nat)
    requires b != [] && LayoutOf(b[0]) == Some(FixedItems(count))
    requires var r := DecodeMany(b[1..], count);
             r.Done? ==> |r.value| == count && ValidAll(r.value) && EncodeAll(r.value) == b[1..][..r.len]
    ensures var r := Decode(b); r.Done? ==> Valid(r.value) && Encode(r.value) == b[..r.len]
  {
    hide LayoutOf, DecodeMany, EncodeAll, ValidAll;
    var r := Decode(b);
    if r.Done? { assert b[..r.len] == [b[0]] + b[1..][..r.len - 1]; }
  }

  lemma EncodeDecodeSized(b: seq<byte>, width: nat, per: nat)
    requires b != [] && LayoutOf(b[0]) == Some(SizedItems(width, per)) && per != 0 && 1 + width <= |b|
    requires var n := per * BigEndian(b[1..1 + width]);
             var r := DecodeMany(b[1 + width..], n);
             r.Done? ==> |r.value| == n && ValidAll(r.value) && EncodeAll(r.value) == b[1 + width..][..r.len]
    ensures var r := Decode(b); r.Done? ==> Valid(r.value) && Encode(r.value) == b[..r.len]
  {
    hide LayoutOf, DecodeMany, EncodeAll, ValidAll;
    var r := Decode(b);
    if r.Done? {
      var n := BigEndian(b[1..1 + width]);
      BigEndianInverse(b[1..1 + width]);
      assert |r.value.items| == per * n && |r.value.items| / per == n && |r.value.items| % per == 0;
      assert b[..r.len] == [b[0]] + b[1..1 + width] + b[1 + width..][..r.len - 1 - width];
    }
  }

  lemma ItemsCounted(marker: byte)
    ensures match LayoutOf(marker)
            case Some(SizedItems(_, per)) => per == 1 || per == 2
            case _ => true
  {}

  /** What is decoded is a valid message, and its encoding is the bytes it was read from. */
  lemma {:induction false} EncodeDecode(b: seq<byte>)
    ensures var r := Decode(b); r.Done? ==> Valid(r.value) && Encode(r.value) == b[..r.len]
    decreases |b|, 0, 0
  {
    hide LayoutOf, Encode, Valid;
    if b != [] {
      ItemsCounted(b[0]);
      match LayoutOf(b[0]) {
        case Some(FixedItems(count)) =>
          EncodeDecodeMany(b[1..], count);
          EncodeDecodeFixed(b, count);
        case Some(SizedItems(width, per)) =>
          if 1 + width <= |b| {
            EncodeDecodeMany(b[1 + width..], per * BigEndian(b[1..1 + width]));
            EncodeDecodeSized(b, width, per);
          }
        case Some(Fixed(size)) => EncodeDecodeTaken(b, size);
        case Some(Sized(width, extra)) => EncodeDecodeMeasured(b, width, extra);
        case None =>
      }
    }
  }

  lemma {:induction false} EncodeDecodeMany(b: seq<byte>, n: nat)
    ensures var r := DecodeMany(b, n);
            r.Done? ==> |r.value| == n && ValidAll(r.value) && EncodeAll(r.value) == b[..r.len]
    decreases |b|, 1, n
  {
    hide LayoutOf;
    var r := DecodeMany(b, n);
    if n > 0 && r.Done? {
      var first := Decode(b);
      EncodeDecode(b);
      EncodeDecodeMany(b[first.len..], n - 1);
      var others := DecodeMany(b[first.len..], n - 1);
      assert r.value[1..] == others.value;
      assert b[..r.len] == b[..first.len] + b[first.len..][..others.len];
    }
  }
}
