/** Applying formatting edits (scripts/sync-agent-host-protocol.ts, 50-55): last to first, in
    place, so that the offsets of the edits still to come stay right. */
module ReverseEdits {

  datatype Edit = Edit(start: nat, length: nat, newText: string)

  function Min(a: nat, b: nat): nat {
    if a < b then a else b
  }

  /** `String.prototype.substring`: out-of-range positions are clamped, crossed ones swapped. */
  function Substring(s: string, a: nat, b: nat): string {
    var x, y := Min(a, |s|), Min(b, |s|);
    if x <= y then s[x..y] else s[y..x]
  }

  /** From `from` on, sorted by start and not overlapping in `text`; insertions may share a
      position. */
  predicate InOrder(text: string, from: nat, edits: seq<Edit>)
    decreases |edits|
  {
    if edits == [] then from <= |text|
    else from <= edits[0].start && InOrder(text, edits[0].start + edits[0].length, edits[1..])
  }

  lemma {:induction false} InOrderInText(text: string, from: nat, edits: seq<Edit>)
    requires InOrder(text, from, edits)
    ensures from <= |text|
    decreases |edits|
  {
    if edits != [] { InOrderInText(text, edits[0].start + edits[0].length, edits[1..]); }
  }

  /** All edits applied at once to `text` from `from` on: gap, new text, gap, new text, ... */
  function Simultaneously(text: string, from: nat, edits: seq<Edit>): string
    requires InOrder(text, from, edits)
    decreases |edits|
  {
    InOrderInText(text, from, edits);
    if edits == [] then text[from..]
    else
      var next := edits[0].start + edits[0].length;
      InOrderInText(text, next, edits[1..]);
      text[from..edits[0].start] + edits[0].newText + Simultaneously(text, next, edits[1..])
  }

  /** By how much the first `i` edits move what follows them. */
  function Shift(edits: seq<Edit>, i: nat): int
    requires i <= |edits|
  {
    if i == 0 then 0 else Shift(edits, i - 1) + |edits[i - 1].newText| - edits[i - 1].length
  }

  lemma {:induction false} ShiftOfRest(edits: seq<Edit>, i: nat)
    requires 0 < i <= |edits|
    ensures Shift(edits, i) == |edits[0].newText| - edits[0].length + Shift(edits[1..], i - 1)
  {
    if i > 1 { ShiftOfRest(edits, i - 1); }
  }

  /** Where everything is found in the edited text: each new text at the start of its edit, moved
      by the edits before it, and each character outside the edits likewise. */
  lemma {:induction false} EditsInPlace(text: string, from: nat, edits: seq<Edit>)
    requires InOrder(text, from, edits)
    ensures |Simultaneously(text, from, edits)| == |text| - from + Shift(edits, |edits|)
    ensures forall i | 0 <= i < |edits| :: NewTextInPlace(text, from, edits, i)
    ensures forall i, p | 0 <= i <= |edits| && from <= p < |text| && Between(edits, i, p) ::
              KeptInPlace(text, from, edits, i, p)
    decreases |edits|
  {
    InOrderInText(text, from, edits);
    if edits != [] {
      var next := edits[0].start + edits[0].length;
      var rest := edits[1..];
      InOrderInText(text, next, rest);
      EditsInPlace(text, next, rest);
      ShiftOfRest(edits, |edits|);
      forall i | 0 <= i < |edits| ensures NewTextInPlace(text, from, edits, i) {
        if i == 0 { FirstNewText(text, from, edits); } else { NextNewText(text, from, edits, i); }
      }
      forall i, p | 0 <= i <= |edits| && from <= p < |text| && Between(edits, i, p)
        ensures KeptInPlace(text, from, edits, i, p)
      {
        NextKept(text, from, edits, i, p);
      }
    }
  }

  ghost predicate NewTextInPlace(text: string, from: nat, edits: seq<Edit>, i: nat)
    requires InOrder(text, from, edits) && i < |edits|
  {
    var at := edits[i].start - from + Shift(edits, i);
    var after := at + |edits[i].newText|;
    0 <= at && after <= |Simultaneously(text, from, edits)|
    && Simultaneously(text, from, edits)[at..after] == edits[i].newText
  }

  /** Position `p` lies after the first `i` edits and before all others. */
  ghost predicate Between(edits: seq<Edit>, i: nat, p: nat)
    requires i <= |edits|
  {
    && (0 < i ==> edits[i - 1].start + edits[i - 1].length <= p)
    && (i < |edits| ==> p < edits[i].start)
  }

  ghost predicate KeptInPlace(text: string, from: nat, edits: seq<Edit>, i: nat, p: nat)
    requires InOrder(text, from, edits) && i <= |edits| && p < |text|
  {
    var at := p - from + Shift(edits, i);
    0 <= at < |Simultaneously(text, from, edits)| && Simultaneously(text, from, edits)[at] == text[p]
  }

  /** The edited text is the gap, the new text and the rest. */
  lemma FirstEdit(text: string, from: nat, edits: seq<Edit>)
    requires InOrder(text, from, edits) && edits != []
    ensures InOrder(text, edits[0].start + edits[0].length, edits[1..])
    ensures from <= edits[0].start && edits[0].start + edits[0].length <= |text|
    ensures Simultaneously(text, from, edits)
         == text[from..edits[0].start] + edits[0].newText
              + Simultaneously(text, edits[0].start + edits[0].length, edits[1..])
  {
    InOrderInText(text, from, edits);
    InOrderInText(text, edits[0].start + edits[0].length, edits[1..]);
  }

  lemma Behind(front: string, rest: string, a: nat, b: nat)
    requires a <= b <= |rest|
    ensures (front + rest)[|front| + a..|front| + b] == rest[a..b]
  {}

  lemma FirstNewText(text: string, from: nat, edits: seq<Edit>)
    requires InOrder(text, from, edits) && edits != []
    ensures NewTextInPlace(text, from, edits, 0)
  {
    FirstEdit(text, from, edits);
    hide Simultaneously, InOrder;
    var gap, newText := text[from..edits[0].start], edits[0].newText;
    var rest := Simultaneously(text, edits[0].start + edits[0].length, edits[1..]);
    assert gap + newText + rest == gap + (newText + rest);
    Behind(gap, newText + rest, 0, |newText|);
    assert (newText + rest)[..|newText|] == newText;
  }

  lemma NextNewText(text: string, from: nat, edits: seq<Edit>, i: nat)
    requires InOrder(text, from, edits) && 0 < i < |edits|
    requires InOrder(text, edits[0].start + edits[0].length, edits[1..])
    requires NewTextInPlace(text, edits[0].start + edits[0].length, edits[1..], i - 1)
    ensures NewTextInPlace(text, from, edits, i)
  {
    FirstEdit(text, from, edits);
    hide Simultaneously, InOrder;
    var gap, newText := text[from..edits[0].start], edits[0].newText;
    var rest := Simultaneously(text, edits[0].start + edits[0].length, edits[1..]);
    ShiftOfRest(edits, i);
    hide Shift;
    var at := edits[i].start - (edits[0].start + edits[0].length) + Shift(edits[1..], i - 1);
    Behind(gap + newText, rest, at, at + |edits[i].newText|);
  }

  lemma NextKept(text: string, from: nat, edits: seq<Edit>, i: nat, p: nat)
    requires InOrder(text, from, edits) && edits != [] && i <= |edits| && from <= p < |text| && Between(edits, i, p)
    requires var next, rest := edits[0].start + edits[0].length, edits[1..];
             InOrder(text, next, rest)
             && (0 < i && next <= p && Between(rest, i - 1, p) ==> KeptInPlace(text, next, rest, i - 1, p))
    ensures KeptInPlace(text, from, edits, i, p)
  {
    FirstEdit(text, from, edits);
    if 0 < i {
      hide Simultaneously;
      ShiftOfRest(edits, i);
      AfterFirst(text, from, edits, i);
    }
  }

  /** Edits follow each other. */
  lemma {:induction false} AfterFirst(text: string, from: nat, edits: seq<Edit>, i: nat)
    requires InOrder(text, from, edits) && 0 < i <= |edits|
    ensures edits[0].start + edits[0].length <= edits[i - 1].start + edits[i - 1].length
    decreases |edits|
  {
    if 1 < i {
      AfterFirst(text, edits[0].start + edits[0].length, edits[1..], i - 1);
    }
  }

  /** Where the text after the first `i` edits begins. */
  function EndOf(edits: seq<Edit>, i: nat): nat
    requires i <= |edits|
  {
    if i == 0 then 0 else edits[i - 1].start + edits[i - 1].length
  }

  lemma {:induction false} SuffixInOrder(text: string, edits: seq<Edit>, i: nat)
    requires InOrder(text, 0, edits) && i <= |edits|
    ensures InOrder(text, EndOf(edits, i), edits[i..])
  {
    if i == 0 {
      assert edits[0..] == edits;
    } else {
      SuffixInOrder(text, edits, i - 1);
      assert edits[i - 1..][1..] == edits[i..];
    }
  }

  /** One edit applied to a text whose part after the edit is already done. */
  lemma OneEdit(text: string, from: nat, edit: Edit, done: string, content: string)
    requires from <= edit.start && edit.start + edit.length <= |text|
    requires content == text[..edit.start + edit.length] + done
    ensures Substring(content, 0, edit.start) + edit.newText
              + Substring(content, edit.start + edit.length, |content|)
         == text[..from] + (text[from..edit.start] + edit.newText + done)
  {
    assert Substring(content, 0, edit.start) == text[..from] + text[from..edit.start];
    assert Substring(content, edit.start + edit.length, |content|) == done;
  }

  method ApplyInReverse(text: string, edits: seq<Edit>) returns (content: string)
    requires InOrder(text, 0, edits)
    ensures content == Simultaneously(text, 0, edits)
  {
    hide Substring;
    content := text;
    var i := |edits|;
    SuffixInOrder(text, edits, i);
    assert text == text[..EndOf(edits, i)] + text[EndOf(edits, i)..];
    while 0 < i
      invariant 0 <= i <= |edits| && EndOf(edits, i) <= |text| && InOrder(text, EndOf(edits, i), edits[i..])
      invariant content == text[..EndOf(edits, i)] + Simultaneously(text, EndOf(edits, i), edits[i..])
    {
      i := i - 1;
      var edit := edits[i];
      SuffixInOrder(text, edits, i);
      InOrderInText(text, EndOf(edits, i), edits[i..]);
      assert edits[i..][1..] == edits[i + 1..];
      OneEdit(text, EndOf(edits, i), edit, Simultaneously(text, EndOf(edits, i + 1), edits[i + 1..]), content);
      content := Substring(content, 0, edit.start) + edit.newText
                 + Substring(content, edit.start + edit.length, |content|);
    }
    assert edits[0..] == edits;
  }
}
