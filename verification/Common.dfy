/** Small shared vocabulary: optional values, bytes, 32-bit ids and flattening of buffers. */
module Common {

  datatype Option<+T> = None | Some(value: T)

  datatype Result<+T, +E> = Ok(value: T) | Err(error: E)

  type byte = b: int | 0 <= b < 0x100

  type u32 = n: int | 0 <= n < 0x1_0000_0000

  /** The bytes of a list of buffers, in order. */
  function Flatten<T>(bufs: seq<seq<T>>): seq<T> {
    if bufs == [] then [] else bufs[0] + Flatten(bufs[1..])
  }

  lemma {:induction false} FlattenAppend<T>(a: seq<seq<T>>, b: seq<seq<T>>)
    ensures Flatten(a + b) == Flatten(a) + Flatten(b)
  {
    if a == [] {
      assert a + b == b;
    } else {
      assert (a + b)[1..] == a[1..] + b;
      FlattenAppend(a[1..], b);
    }
  }

  lemma FlattenPush<T>(a: seq<seq<T>>, x: seq<T>)
    ensures Flatten(a + [x]) == Flatten(a) + x
  {
    FlattenAppend(a, [x]);
    assert Flatten([x]) == x + Flatten([][..]);
  }

  /** What follows position `i` of an extended sequence. */
  lemma DropOfAppend<T>(a: seq<T>, b: seq<T>, i: nat)
    requires i <= |a|
    ensures (a + b)[i..] == a[i..] + b
  {}

  /** A slice within the front part of an extended sequence. */
  lemma SliceOfAppend<T>(a: seq<T>, b: seq<T>, i: nat, j: nat)
    requires i <= j <= |a|
    ensures (a + b)[i..j] == a[i..j]
  {}

  predicate NoDuplicates<T(==)>(l: seq<T>) {
    forall i, j | 0 <= i < j < |l| :: l[i] != l[j]
  }

  /** `s` with only the first occurrence of each element kept. */
  function Distinct<T(==)>(s: seq<T>): seq<T> {
    if s == [] then []
    else
      var init := s[..|s| - 1];
      if s[|s| - 1] in init then Distinct(init) else Distinct(init) + [s[|s| - 1]]
  }

  lemma {:induction false} DistinctElements<T>(s: seq<T>)
    ensures NoDuplicates(Distinct(s)) && forall x :: x in Distinct(s) <==> x in s
  {
    if s != [] {
      var init := s[..|s| - 1];
      DistinctElements(init);
      assert s == init + [s[|s| - 1]];
    }
  }

  lemma PlaceIn<T>(s: seq<T>, x: T) returns (p: nat)
    requires x in Distinct(s)
    ensures p < |s| && s[p] == x
  {
    DistinctElements(s);
    p :| p < |s| && s[p] == x;
  }

  /** `Distinct` keeps the order of first occurrences: some place of the earlier element comes
      before every place of the later one. */
  lemma {:induction false} DistinctInOrder<T>(s: seq<T>, a: nat, b: nat) returns (p: nat)
    requires a < b < |Distinct(s)|
    ensures p < |s| && s[p] == Distinct(s)[a] && forall r | 0 <= r <= p :: s[r] != Distinct(s)[b]
  {
    var init := s[..|s| - 1];
    DistinctElements(init);
    if b < |Distinct(init)| {
      p := DistinctInOrder(init, a, b);
    } else {
      p := PlaceIn(init, Distinct(init)[a]);
    }
    assert forall r | 0 <= r <= p :: s[r] == init[r];
  }

  /** `Distinct` changes a list exactly when it has duplicates. */
  lemma {:induction false} DistinctIdentity<T>(s: seq<T>)
    ensures Distinct(s) == s <==> NoDuplicates(s)
  {
    DistinctElements(s);
    if s != [] && NoDuplicates(s) {
      var init := s[..|s| - 1];
      DistinctIdentity(init);
      assert s == init + [s[|s| - 1]];
    }
  }
}
