/** The bytes of values, written out from the formats of the MessagePack specification, and what
    cutting a buffer into messages makes of them (cli/src/msgpack_rpc.rs, 28-35 and 139-162).
    Nothing here goes through the decoder's own table of formats. */
module MessageValues {
  import opened Common
  import opened MsgPack

  import Framing

  datatype Pair = Pair(key: Value, value: Value)

  /** A value as the specification has them; floats are their 4 or 8 bytes. */
  datatype Value =
    | Nil
    | Bool(b: bool)
    | Int(n: int)
    | Float(bits: seq<byte>)
    | Str(utf8: seq<byte>)
    | Bin(data: seq<byte>)
    | Ext(kind: byte, data: seq<byte>)
    | Array(items: seq<Value>)
    | Map(pairs: seq<Pair>)

  predicate WellFormed(v: Value) {
    match v
    case Int(n) => -0x8000_0000_0000_0000 <= n < 0x1_0000_0000_0000_0000
    case Float(bits) => |bits| == 4 || |bits| == 8
    case Str(utf8) => |utf8| < 0x1_0000_0000
    case Bin(data) => |data| < 0x1_0000_0000
    case Ext(_, data) => |data| < 0x1_0000_0000
    case Array(items) => |items| < 0x1_0000_0000 && AllWellFormed(items)
    case Map(pairs) => |pairs| < 0x1_0000_0000 && PairsWellFormed(pairs)
    case _ => true
  }

  predicate AllWellFormed(vs: seq<Value>) {
    vs == [] || (WellFormed(vs[0]) && AllWellFormed(vs[1..]))
  }

  predicate PairsWellFormed(ps: seq<Pair>) {
    ps == [] || (PairWellFormed(ps[0]) && PairsWellFormed(ps[1..]))
  }

  predicate PairWellFormed(p: Pair) {
    WellFormed(p.key) && WellFormed(p.value)
  }

  function U16(n: nat): seq<byte>
    requires n < 0x1_0000
  {
    [n / 0x100, n % 0x100]
  }

  function U32(n: nat): seq<byte>
    requires n < 0x1_0000_0000
  {
    U16(n / 0x1_0000) + U16(n % 0x1_0000)
  }

  function U64(n: nat): seq<byte>
    requires n < 0x1_0000_0000_0000_0000
  {
    U32(n / 0x1_0000_0000) + U32(n % 0x1_0000_0000)
  }

  /** Marker and payload of an integer, in the fewest bytes; negative ones in two's complement. */
  function IntParts(n: int): (byte, seq<byte>)
    requires WellFormed(Int(n))
  {
    if 0 <= n then
      if n < 0x80 then (n, [])
      else if n < 0x100 then (0xcc, [n])
      else if n < 0x1_0000 then (0xcd, U16(n))
      else if n < 0x1_0000_0000 then (0xce, U32(n))
      else (0xcf, U64(n))
    else
      if -0x20 <= n then (0x100 + n, [])
      else if -0x80 <= n then (0xd0, [0x100 + n])
      else if -0x8000 <= n then (0xd1, U16(0x1_0000 + n))
      else if -0x8000_0000 <= n then (0xd2, U32(0x1_0000_0000 + n))
      else (0xd3, U64(0x1_0000_0000_0000_0000 + n))
  }

  /** A marker followed by a length of 8, 16 or 32 bits, whichever is enough. */
  function Length8(marker: byte, n: nat): (byte, seq<byte>)
    requires marker < 0xfe && n < 0x1_0000_0000
  {
    if n < 0x100 then (marker, [n]) else if n < 0x1_0000 then (marker + 1, U16(n)) else (marker + 2, U32(n))
  }

  function Length16(marker: byte, n: nat): (byte, seq<byte>)
    requires marker < 0xff && n < 0x1_0000_0000
  {
    if n < 0x1_0000 then (marker, U16(n)) else (marker + 1, U32(n))
  }

  function ExtLength(n: nat): (byte, seq<byte>)
    requires n < 0x1_0000_0000
  {
    if n == 1 then (0xd4, [])
    else if n == 2 then (0xd5, [])
    else if n == 4 then (0xd6, [])
    else if n == 8 then (0xd7, [])
    else if n == 16 then (0xd8, [])
    else Length8(0xc7, n)
  }

  /** Marker and length field, if the format has one. */
  function Start(v: Value): (byte, seq<byte>)
    requires WellFormed(v)
  {
    match v
    case Nil => (0xc0, [])
    case Bool(b) => (if b then 0xc3 else 0xc2, [])
    case Int(n) => (IntParts(n).0, [])
    case Float(bits) => (if |bits| == 4 then 0xca else 0xcb, [])
    case Str(utf8) => if |utf8| < 32 then (0xa0 + |utf8|, []) else Length8(0xd9, |utf8|)
    case Bin(data) => Length8(0xc4, |data|)
    case Ext(_, data) => ExtLength(|data|)
    case Array(items) => if |items| < 16 then (0x90 + |items|, []) else Length16(0xdc, |items|)
    case Map(pairs) => if |pairs| < 16 then (0x80 + |pairs|, []) else Length16(0xde, |pairs|)
  }

  /** What follows: content, elements, or keys and values in turn. */
  function Content(v: Value): seq<byte>
    requires WellFormed(v)
    decreases v, 0
  {
    match v
    case Nil => []
    case Bool(_) => []
    case Int(n) => IntParts(n).1
    case Float(bits) => bits
    case Str(utf8) => utf8
    case Bin(data) => data
    case Ext(kind, data) => [kind] + data
    case Array(items) => BytesAll(items)
    case Map(pairs) => BytesOfPairs(pairs)
  }

  function Bytes(v: Value): (b: seq<byte>)
    requires WellFormed(v)
    ensures b != []
    decreases v, 1
  {
    [Start(v).0] + Start(v).1 + Content(v)
  }

  function BytesAll(vs: seq<Value>): seq<byte>
    requires AllWellFormed(vs)
  {
    if vs == [] then [] else Bytes(vs[0]) + BytesAll(vs[1..])
  }

  function BytesOfPairs(ps: seq<Pair>): seq<byte>
    requires PairsWellFormed(ps)
  {
    if ps == [] then [] else BytesOfPair(ps[0]) + BytesOfPairs(ps[1..])
  }

  function BytesOfPair(p: Pair): seq<byte>
    requires PairWellFormed(p)
  {
    Bytes(p.key) + Bytes(p.value)
  }

  // ---- The structure a value is decoded to ----

  /** A leaf with its content, or a node with the elements of an array, or with the keys and
      values of a map in turn. */
  function Structure(v: Value): Object
    requires WellFormed(v)
  {
    match v
    case Array(items) => Node(Start(v).0, Structures(items))
    case Map(pairs) => Node(Start(v).0, PairStructures(pairs))
    case _ => Leaf(Start(v).0, Content(v))
  }

  function Structures(vs: seq<Value>): seq<Object>
    requires AllWellFormed(vs)
  {
    if vs == [] then [] else [Structure(vs[0])] + Structures(vs[1..])
  }

  function PairStructures(ps: seq<Pair>): seq<Object>
    requires PairsWellFormed(ps)
  {
    if ps == [] then [] else PairStructure(ps[0]) + PairStructures(ps[1..])
  }

  function PairStructure(p: Pair): seq<Object>
    requires PairWellFormed(p)
  {
    [Structure(p.key), Structure(p.value)]
  }

  // ---- The encoder writes the same bytes ----

  lemma BigEndianStep(n: nat, width: nat)
    ensures ToBigEndian(n, 0) == []
    ensures ToBigEndian(n, width + 1) == ToBigEndian(n / 0x100, width) + [n % 0x100]
  {}

  lemma BigEndian8(n: nat)
    requires n < 0x100
    ensures ToBigEndian(n, 1) == [n]
  {
    hide ToBigEndian;
    BigEndianStep(n, 0);
    BigEndianStep(n / 0x100, 0);
  }

  lemma BigEndian16(n: nat)
    requires n < 0x1_0000
    ensures ToBigEndian(n, 2) == U16(n)
  {
    hide ToBigEndian;
    BigEndianStep(n, 1);
    BigEndian8(n / 0x100);
  }

  lemma BigEndian32(n: nat)
    requires n < 0x1_0000_0000
    ensures ToBigEndian(n, 4) == U32(n)
  {
    hide ToBigEndian;
    var high, low := n / 0x1_0000, n % 0x1_0000;
    BigEndianStep(n, 3);
    BigEndianStep(n / 0x100, 2);
    assert n / 0x100 / 0x100 == high && n / 0x100 % 0x100 == low / 0x100 && n % 0x100 == low % 0x100;
    BigEndian16(high);
  }

  lemma Powers()
    ensures Pow256(1) == 0x100 && Pow256(2) == 0x1_0000 && Pow256(4) == 0x1_0000_0000
  {
    assert Pow256(0) == 1 && Pow256(1) == 0x100 && Pow256(2) == 0x1_0000 && Pow256(3) == 0x100_0000;
  }

  lemma LengthLayout(marker: byte, i: nat, width: nat)
    requires (marker == 0xc4 || marker == 0xc7 || marker == 0xd9) && i < 3 && width == [1, 2, 4][i]
    ensures LayoutOf(marker + i) == Some(Sized(width, if marker == 0xc7 then 1 else 0))
  {
    assert Width(0) == 1 && Width(1) == 2 && Width(2) == 4;
  }

  lemma CountLayout(marker: byte, i: nat, width: nat)
    requires (marker == 0xdc || marker == 0xde) && i < 2 && width == [2, 4][i]
    ensures LayoutOf(marker + i) == Some(SizedItems(width, if marker == 0xde then 2 else 1))
  {
    assert Width(1) == 2 && Width(2) == 4;
  }

  lemma NumberLayout(marker: byte, i: nat, size: nat)
    requires (marker == 0xcc || marker == 0xd0) && i < 4 && size == [1, 2, 4, 8][i]
    ensures LayoutOf(marker + i) == Some(Fixed(size))
  {
    assert Width(0) == 1 && Width(1) == 2 && Width(2) == 4 && Width(3) == 8;
  }

  lemma ExtLayout(i: nat, size: nat)
    requires i < 5 && size == [1, 2, 4, 8, 16][i]
    ensures LayoutOf(0xd4 + i) == Some(Fixed(1 + size))
  {
    assert Width(0) == 1 && Width(1) == 2 && Width(2) == 4 && Width(3) == 8 && Width(4) == 16;
  }

  /** The encoder writes a leaf as its marker and its payload. */
  lemma FixedLeaf(marker: byte, payload: seq<byte>)
    requires LayoutOf(marker) == Some(Fixed(|payload|))
    ensures Valid(Leaf(marker, payload)) && Encode(Leaf(marker, payload)) == [marker] + [] + payload
  {
    hide LayoutOf;
  }

  /** The encoder writes a leaf as its marker, the length of its content and the content. */
  lemma SizedLeaf(marker: byte, payload: seq<byte>, extra: nat)
    requires marker == 0xc4 || marker == 0xc7 || marker == 0xd9
    requires extra == (if marker == 0xc7 then 1 else 0) && extra <= |payload| < 0x1_0000_0000 + extra
    ensures var start := Length8(marker, |payload| - extra);
            && Valid(Leaf(start.0, payload))
            && Encode(Leaf(start.0, payload)) == [start.0] + start.1 + payload
  {
    hide LayoutOf, ToBigEndian, Pow256;
    Powers();
    var n := |payload| - extra;
    if n < 0x100 {
      LengthLayout(marker, 0, 1);
      BigEndian8(n);
    } else if n < 0x1_0000 {
      LengthLayout(marker, 1, 2);
      BigEndian16(n);
    } else {
      LengthLayout(marker, 2, 4);
      BigEndian32(n);
    }
  }

  lemma FewItems(marker: byte, items: seq<Object>)
    requires ValidAll(items) && LayoutOf(marker) == Some(FixedItems(|items|))
    ensures Valid(Node(marker, items)) && Encode(Node(marker, items)) == [marker] + [] + EncodeAll(items)
  {
    hide LayoutOf, ValidAll, EncodeAll;
  }

  lemma ManyItems(marker: byte, width: nat, per: nat, items: seq<Object>)
    requires ValidAll(items) && LayoutOf(marker) == Some(SizedItems(width, per))
    requires per != 0 && |items| % per == 0 && |items| / per < Pow256(width)
    ensures Valid(Node(marker, items))
    ensures Encode(Node(marker, items)) == [marker] + ToBigEndian(|items| / per, width) + EncodeAll(items)
  {
    hide LayoutOf, ValidAll, EncodeAll, ToBigEndian, Pow256;
  }

  lemma SmallCountLayout(n: nat)
    requires n < 16
    ensures LayoutOf(0x90 + n) == Some(FixedItems(n)) && LayoutOf(0x80 + n) == Some(FixedItems(2 * n))
  {}

  /** The encoder writes a node as its marker, the count of its elements or pairs, and these. */
  lemma CountedNode(marker: byte, n: nat, items: seq<Object>)
    requires marker == 0xdc || marker == 0xde
    requires ValidAll(items) && n < 0x1_0000_0000 && |items| == if marker == 0xde then 2 * n else n
    ensures var small := if marker == 0xde then 0x80 else 0x90;
            var start := if n < 16 then (small + n, []) else Length16(marker, n);
            && Valid(Node(start.0, items))
            && Encode(Node(start.0, items)) == [start.0] + start.1 + EncodeAll(items)
  {
    hide LayoutOf, Valid, Encode, ValidAll, EncodeAll, ToBigEndian, Pow256, U16, U32;
    Powers();
    var per := if marker == 0xde then 2 else 1;
    if n < 16 {
      SmallCountLayout(n);
      FewItems(if marker == 0xde then 0x80 + n else 0x90 + n, items);
    } else if n < 0x1_0000 {
      CountLayout(marker, 0, 2);
      BigEndian16(n);
      ManyItems(marker, 2, per, items);
    } else {
      CountLayout(marker, 1, 4);
      BigEndian32(n);
      ManyItems(marker + 1, 4, per, items);
    }
  }

  lemma IntLayout(n: int)
    requires WellFormed(Int(n))
    ensures LayoutOf(IntParts(n).0) == Some(Fixed(|IntParts(n).1|))
  {
    NumberLayout(0xcc, 0, 1);
    NumberLayout(0xcc, 1, 2);
    NumberLayout(0xcc, 2, 4);
    NumberLayout(0xcc, 3, 8);
    NumberLayout(0xd0, 0, 1);
    NumberLayout(0xd0, 1, 2);
    NumberLayout(0xd0, 2, 4);
    NumberLayout(0xd0, 3, 8);
  }

  lemma ExtEncodes(v: Value)
    requires WellFormed(v) && v.Ext?
    ensures Valid(Structure(v)) && Encode(Structure(v)) == Bytes(v)
  {
    hide LayoutOf, Encode, Valid;
    var n, payload := |v.data|, [v.kind] + v.data;
    if n == 1 || n == 2 || n == 4 || n == 8 || n == 16 {
      var i := if n == 1 then 0 else if n == 2 then 1 else if n == 4 then 2 else if n == 8 then 3 else 4;
      ExtLayout(i, n);
      FixedLeaf(0xd4 + i, payload);
    } else {
      SizedLeaf(0xc7, payload, 1);
    }
  }

  lemma LeafEncodes(v: Value)
    requires WellFormed(v) && !v.Array? && !v.Map?
    ensures Valid(Structure(v)) && Encode(Structure(v)) == Bytes(v)
  {
    hide Encode, Valid, U16, U32, U64;
    match v {
      case Nil => FixedLeaf(0xc0, []);
      case Bool(b) => FixedLeaf(if b then 0xc3 else 0xc2, []);
      case Int(n) =>
        IntLayout(n);
        FixedLeaf(IntParts(n).0, IntParts(n).1);
      case Float(bits) => FixedLeaf(if |bits| == 4 then 0xca else 0xcb, bits);
      case Str(utf8) => if |utf8| < 32 { FixedLeaf(0xa0 + |utf8|, utf8); } else { SizedLeaf(0xd9, utf8, 0); }
      case Bin(data) => SizedLeaf(0xc4, data, 0);
      case Ext(_, _) => ExtEncodes(v);
    }
  }

  lemma {:induction false} ValueEncodes(v: Value)
    requires WellFormed(v)
    ensures Valid(Structure(v)) && Encode(Structure(v)) == Bytes(v)
    decreases v, 1
  {
    hide LayoutOf, Encode, Valid, Length16;
    match v {
      case Array(items) =>
        AllEncode(items);
        CountedNode(0xdc, |items|, Structures(items));
      case Map(pairs) =>
        PairsEncode(pairs);
        CountedNode(0xde, |pairs|, PairStructures(pairs));
      case _ => LeafEncodes(v);
    }
  }

  lemma {:induction false} AllEncode(vs: seq<Value>)
    requires AllWellFormed(vs)
    ensures |Structures(vs)| == |vs| && ValidAll(Structures(vs)) && EncodeAll(Structures(vs)) == BytesAll(vs)
    ensures forall i | 0 <= i < |vs| :: WellFormed(vs[i]) && Structures(vs)[i] == Structure(vs[i])
    decreases vs, 0
  {
    hide Encode, Valid, Structure, Bytes, WellFormed;
    if vs != [] {
      ValueEncodes(vs[0]);
      AllEncode(vs[1..]);
      assert Structures(vs)[1..] == Structures(vs[1..]);
    }
  }

  lemma {:induction false} PairsEncode(ps: seq<Pair>)
    requires PairsWellFormed(ps)
    ensures |PairStructures(ps)| == 2 * |ps| && ValidAll(PairStructures(ps))
    ensures EncodeAll(PairStructures(ps)) == BytesOfPairs(ps)
    decreases ps, 0
  {
    hide Encode, Valid, Structure, Bytes, WellFormed;
    if ps != [] {
      PairEncodes(ps[0]);
      PairsEncode(ps[1..]);
      var all, rest := PairStructures(ps), PairStructures(ps[1..]);
      assert all == PairStructure(ps[0]) + rest && all[1..] == [Structure(ps[0].value)] + rest;
      assert all[1..][1..] == rest;
      assert EncodeAll(all) == Bytes(ps[0].key) + (Bytes(ps[0].value) + BytesOfPairs(ps[1..]));
    }
  }

  lemma {:induction false} PairEncodes(p: Pair)
    requires PairWellFormed(p)
    ensures Valid(Structure(p.key)) && Encode(Structure(p.key)) == Bytes(p.key)
    ensures Valid(Structure(p.value)) && Encode(Structure(p.value)) == Bytes(p.value)
    decreases p, 0
  {
    ValueEncodes(p.key);
    ValueEncodes(p.value);
  }

  // ---- Main results ----

  /** Every value, followed by anything, is cut off the buffer at its own last byte and decoded to
      its structure: a map of n pairs is n keys and n values. */
  lemma DecodesValues(v: Value, rest: seq<byte>)
    requires WellFormed(v)
    ensures Decode(Bytes(v) + rest) == Done(Structure(v), |Bytes(v)|)
  {
    hide Encode, Valid, Decode;
    ValueEncodes(v);
    DecodeEncode(Structure(v), rest);
  }

  /** The one byte that starts no value. */
  lemma NeverUsed(rest: seq<byte>)
    ensures Decode([0xc1] + rest) == Bad
  {}

  /** What may follow the last whole value: nothing, or a strict prefix of one more. */
  ghost predicate PartialValue(tail: seq<byte>) {
    tail == [] || exists v :: WellFormed(v) && tail < Bytes(v)
  }

  /** For any values, followed by part of another, and any split of their bytes into reads: out
      come exactly these values, in order, each with its own bytes, and the part stays in the
      buffer. */
  lemma ValuesSurviveChunking(vs: seq<Value>, tail: seq<byte>, chunks: seq<seq<byte>>)
    requires AllWellFormed(vs) && PartialValue(tail)
    requires Flatten(chunks) == BytesAll(vs) + tail
    ensures var r := Framing.Feed([], chunks);
            && |r.frames| == |vs| && r.rest == tail && !r.failed
            && forall i | 0 <= i < |vs| ::
                 WellFormed(vs[i]) && r.frames[i] == Framing.Frame(Structure(vs[i]), Bytes(vs[i]))
  {
    hide Encode, Valid, Decode, Framing.Feed, Bytes, WellFormed;
    AllEncode(vs);
    if tail != [] {
      var v :| WellFormed(v) && tail < Bytes(v);
      ValueEncodes(v);
      assert tail < Encode(Structure(v));
    }
    Framing.FramesSurviveChunking(Structures(vs), tail, chunks);
    FramesAreValues(vs);
  }

  lemma {:induction false} FramesAreValues(vs: seq<Value>)
    requires AllWellFormed(vs) && ValidAll(Structures(vs))
    ensures var frames := Framing.FramesOf(Structures(vs));
            && |frames| == |vs|
            && forall i | 0 <= i < |vs| ::
                 WellFormed(vs[i]) && frames[i] == Framing.Frame(Structure(vs[i]), Bytes(vs[i]))
  {
    hide Encode, Valid, Structure, Bytes, WellFormed;
    if vs != [] {
      ValueEncodes(vs[0]);
      AllEncode(vs[1..]);
      assert Structures(vs)[1..] == Structures(vs[1..]);
      FramesAreValues(vs[1..]);
    }
  }
}
