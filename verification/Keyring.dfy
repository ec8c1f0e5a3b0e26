/** A credential split over several size-limited keyring entries (cli/src/auth.rs, 220-365).
    The sealed text is ASCII; `limit` is KEYCHAIN_ENTRY_LIMIT, which differs by platform. */
module Keyring {
  import opened Common

  const CONTINUE_MARKER := "<MORE>"

  datatype KeyringError = NoEntry | Failure

  /** The system keyring: entry `vscode-cli-<k>` is slot k.  Every operation on a faulty slot
      fails. */
  class SystemKeyring {
    var slots: map<nat, string>
    const faulty: set<nat>

    constructor (slots: map<nat, string>, faulty: set<nat>)
      ensures this.slots == slots && this.faulty == faulty
    {
      this.slots, this.faulty := slots, faulty;
    }

    method GetPassword(k: nat) returns (r: Result<string, KeyringError>)
      ensures r == if k in faulty then Err(Failure) else if k in slots then Ok(slots[k]) else Err(NoEntry)
    {
      r := if k in faulty then Err(Failure) else if k in slots then Ok(slots[k]) else Err(NoEntry);
    }

    method SetPassword(k: nat, value: string) returns (ok: bool)
      modifies this
      ensures ok <==> k !in faulty
      ensures slots == if ok then old(slots)[k := value] else old(slots)
    {
      ok := k !in faulty;
      if ok { slots := slots[k := value]; }
    }

    method DeletePassword(k: nat) returns (ok: bool)
      modifies this
      ensures ok <==> k in old(slots) && k !in faulty
      ensures slots == if ok then old(slots) - {k} else old(slots)
    {
      ok := k in slots && k !in faulty;
      if ok { slots := slots - {k}; }
    }
  }

  predicate EndsWith(s: string, suffix: string) {
    |suffix| <= |s| && s[|s| - |suffix|..] == suffix
  }

  function Stripped(s: string): string
    requires EndsWith(s, CONTINUE_MARKER)
  {
    s[..|s| - |CONTINUE_MARKER|]
  }

  // ---- What read, store and clear compute ----

  type Slots = map<nat, string>

  function From(slots: Slots, i: nat): set<nat> {
    set k | k in slots && i <= k
  }

  function Prepend(s: string, r: Result<Option<string>, ()>): Result<Option<string>, ()> {
    match r
    case Ok(Some(t)) => Ok(Some(s + t))
    case _ => r
  }

  /** The text reassembled from slot `i` on: None if an entry is missing. */
  function ReadFrom(slots: Slots, faulty: set<nat>, i: nat): Result<Option<string>, ()>
    decreases From(slots, i)
  {
    if i in faulty then Err(())
    else if i !in slots then Ok(None)
    else if EndsWith(slots[i], CONTINUE_MARKER) then
      assert i in From(slots, i) && i !in From(slots, i + 1);
      Prepend(Stripped(slots[i]), ReadFrom(slots, faulty, i + 1))
    else Ok(Some(slots[i]))
  }

  /** How many entries reading from slot `i` makes available. */
  function Visited(slots: Slots, faulty: set<nat>, i: nat): (n: nat)
    ensures i < n
    decreases From(slots, i)
  {
    if i !in faulty && i in slots && EndsWith(slots[i], CONTINUE_MARKER) then
      assert i in From(slots, i) && i !in From(slots, i + 1);
      Visited(slots, faulty, i + 1)
    else i + 1
  }

  datatype Written = Written(slots: Slots, entries: nat, ok: bool)

  /** Writing `rest` in steps to the slots from `k` on. */
  function StoreFrom(slots: Slots, faulty: set<nat>, rest: string, k: nat, step: nat): Written
    requires 0 < step
    decreases |rest|
  {
    if rest == "" then Written(slots, k, true)
    else if k in faulty then Written(slots, k + 1, false)
    else if step <= |rest| then
      StoreFrom(slots[k := rest[..step] + CONTINUE_MARKER], faulty, rest[step..], k + 1, step)
    else Written(slots[k := rest], k + 1, true)
  }

  /** The slots from `i` up to, not including, `n`. */
  function Span(i: nat, n: nat): (r: set<nat>)
    ensures forall k {:trigger k in r} :: k in r <==> i <= k < n
    decreases n - i
  {
    if n <= i then {} else {i} + Span(i + 1, n)
  }

  /** Deleting slots `i` to `n - 1`, up to the first that fails. */
  function DeleteFrom(slots: Slots, faulty: set<nat>, i: nat, n: nat): (Slots, bool)
    requires i <= n
    decreases n - i
  {
    if i == n then (slots, true)
    else if i in slots && i !in faulty then DeleteFrom(slots - {i}, faulty, i + 1, n)
    else (slots, false)
  }

  function Max(a: nat, b: nat): nat {
    if a < b then b else a
  }

  class KeyringStorage {
    const ring: SystemKeyring
    const limit: nat
    var entries: seq<nat>

    constructor (ring: SystemKeyring, limit: nat)
      requires |CONTINUE_MARKER| < limit
      ensures this.ring == ring && this.limit == limit && entries == [] && Valid()
    {
      this.ring, this.limit, entries := ring, limit, [];
    }

    /** Entry k denotes slot k. */
    predicate Valid()
      reads this
    {
      |CONTINUE_MARKER| < limit && forall k | 0 <= k < |entries| :: entries[k] == k
    }

    /** `get_next_entry!` */
    method GetNextEntry(i: nat) returns (entry: nat)
      requires Valid() && i <= |entries|
      modifies this
      ensures Valid() && entry == i && |entries| == Max(old(|entries|), i + 1)
    {
      if i < |entries| {
        entry := entries[i];
      } else {
        entries := entries + [i];
        entry := entries[|entries| - 1];
      }
    }

    method Read() returns (r: Result<Option<string>, ()>)
      requires Valid()
      modifies this
      ensures Valid()
      ensures r == ReadFrom(ring.slots, ring.faulty, 0)
      ensures |entries| == Max(old(|entries|), Visited(ring.slots, ring.faulty, 0))
    {
      var str := "";
      var i := 0;
      PrependNothing(ReadFrom(ring.slots, ring.faulty, 0));
      while true
        invariant Valid() && i <= |entries| == Max(old(|entries|), i)
        invariant Prepend(str, ReadFrom(ring.slots, ring.faulty, i)) == ReadFrom(ring.slots, ring.faulty, 0)
        invariant Visited(ring.slots, ring.faulty, i) == Visited(ring.slots, ring.faulty, 0)
        decreases From(ring.slots, i)
      {
        var entry := GetNextEntry(i);
        var chunk := ring.GetPassword(entry);
        match chunk {
          case Err(NoEntry) => return Ok(None);
          case Err(Failure) => return Err(());
          case Ok(nextChunk) =>
            if EndsWith(nextChunk, CONTINUE_MARKER) {
              ghost var more := ReadFrom(ring.slots, ring.faulty, i + 1);
              if more.Ok? && more.value.Some? {
                assert str + (Stripped(nextChunk) + more.value.value) == (str + Stripped(nextChunk)) + more.value.value;
              }
              str := str + nextChunk[..|nextChunk| - |CONTINUE_MARKER|];
            } else {
              str := str + nextChunk;
              return Ok(Some(str));
            }
        }
        assert i in From(ring.slots, i) && i !in From(ring.slots, i + 1);
        i := i + 1;
      }
    }

    method Store(sealed: string) returns (ok: bool)
      requires Valid()
      modifies this, ring
      ensures Valid()
      ensures var w := StoreFrom(old(ring.slots), ring.faulty, sealed, 0, limit - |CONTINUE_MARKER|);
              ok == w.ok && ring.slots == w.slots && |entries| == Max(old(|entries|), w.entries)
    {
      var stepSize := limit - |CONTINUE_MARKER|;
      var i := 0;
      ghost var k := 0;
      ghost var w := StoreFrom(ring.slots, ring.faulty, sealed, 0, stepSize);
      while i < |sealed|
        invariant Valid() && i == k * stepSize && k <= |entries| == Max(old(|entries|), k)
        invariant if i <= |sealed| then StoreFrom(ring.slots, ring.faulty, sealed[i..], k, stepSize) == w
                  else w == Written(ring.slots, k, true)
        decreases |sealed| - i
      {
        QuotientOf(k, stepSize);
        assert (k + 1) * stepSize == i + stepSize;
        var entry := GetNextEntry(i / stepSize);
        var cutoff := i + stepSize;
        var stored;
        if cutoff <= |sealed| {
          assert sealed[i..][..stepSize] == sealed[i..cutoff] && sealed[i..][stepSize..] == sealed[cutoff..];
          var part := sealed[i..cutoff];
          part := part + CONTINUE_MARKER;
          stored := ring.SetPassword(entry, part);
        } else {
          stored := ring.SetPassword(entry, sealed[i..]);
        }
        if !stored {
          return false;
        }
        i := i + stepSize;
        k := k + 1;
      }
      return true;
    }

    method Clear() returns (ok: bool)
      requires Valid()
      modifies this, ring
      ensures Valid()
      ensures var n := Max(old(|entries|), Visited(old(ring.slots), ring.faulty, 0));
              && (ring.slots, ok) == DeleteFrom(old(ring.slots), ring.faulty, 0, n)
              && |entries| == if ok then 0 else n
    {
      var _ := Read();
      var i := 0;
      while i < |entries|
        invariant Valid() && 0 <= i <= |entries| == Max(old(|entries|), Visited(old(ring.slots), ring.faulty, 0))
        invariant DeleteFrom(ring.slots, ring.faulty, i, |entries|)
               == DeleteFrom(old(ring.slots), ring.faulty, 0, |entries|)
      {
        var deleted := ring.DeletePassword(entries[i]);
        if !deleted {
          return false;
        }
        i := i + 1;
      }
      entries := [];
      return true;
    }
  }

  lemma PrependNothing(r: Result<Option<string>, ()>)
    ensures Prepend("", r) == r
  {
    if r.Ok? && r.value.Some? { assert "" + r.value.value == r.value.value; }
  }

  lemma AtLeastOnce(a: nat, b: nat)
    requires 1 <= a
    ensures b <= a * b
  {}

  lemma Gap(q: nat, q': nat, step: nat)
    ensures q < q' ==> q * step + step <= q' * step
  {
    if q < q' {
      AtLeastOnce(q' - q, step);
      assert (q' - q) * step == q' * step - q * step;
    }
  }

  lemma DivisionUnique(q: nat, r: nat, q': nat, r': nat, step: nat)
    requires r < step && r' < step && q * step + r == q' * step + r'
    ensures q == q' && r == r'
  {
    Gap(q, q', step);
    Gap(q', q, step);
  }

  lemma QuotientOf(k: nat, step: nat)
    requires 0 < step
    ensures k * step / step == k
  {
    DivisionUnique(k, 0, k * step / step, k * step % step, step);
  }

  /** Taking one step off changes the quotient by one and not the remainder. */
  lemma OneStepLess(n: nat, step: nat)
    requires 0 < step <= n
    ensures (n - step) % step == n % step && (n - step) / step == n / step - 1
  {
    var q := (n - step) / step;
    assert (q + 1) * step == q * step + step;
    DivisionUnique(q + 1, (n - step) % step, n / step, n % step, step);
  }

  // ---- Reading back what was stored ----

  /** The text after the last full step. */
  function LastPart(s: string, step: nat): string
    requires 0 < step
    decreases |s|
  {
    if |s| < step then s else LastPart(s[step..], step)
  }

  lemma {:induction false} LastPartIsRemainder(s: string, step: nat)
    requires 0 < step
    ensures |LastPart(s, step)| == |s| % step && EndsWith(s, LastPart(s, step))
    decreases |s|
  {
    if step <= |s| {
      LastPartIsRemainder(s[step..], step);
      OneStepLess(|s|, step);
      var last := LastPart(s, step);
      assert s[|s| - |last|..] == s[step..][|s[step..]| - |last|..];
    } else {
      assert s[0..] == s;
    }
  }

  /** Reading depends only on the slots from where it starts. */
  lemma {:induction false} ReadFromAgrees(a: Slots, b: Slots, faulty: set<nat>, i: nat)
    requires forall k | i <= k :: (k in a <==> k in b) && (k in a ==> a[k] == b[k])
    ensures ReadFrom(a, faulty, i) == ReadFrom(b, faulty, i)
    ensures Visited(a, faulty, i) == Visited(b, faulty, i)
    decreases From(a, i)
  {
    if i !in faulty && i in a && EndsWith(a[i], CONTINUE_MARKER) {
      assert i in From(a, i) && i !in From(a, i + 1);
      ReadFromAgrees(a, b, faulty, i + 1);
    }
  }

  lemma {:induction false} StoreKeepsEarlier(slots: Slots, faulty: set<nat>, rest: string, k: nat, step: nat)
    requires 0 < step
    ensures var w := StoreFrom(slots, faulty, rest, k, step);
            && k <= w.entries
            && (forall j | j < k || w.entries <= j ::
                  (j in w.slots <==> j in slots) && (j in slots ==> w.slots[j] == slots[j]))
    decreases |rest|
  {
    if rest != "" && k !in faulty && step <= |rest| {
      StoreKeepsEarlier(slots[k := rest[..step] + CONTINUE_MARKER], faulty, rest[step..], k + 1, step);
    }
  }

  /** Where the text goes wrong when the last slot written asks for more: reading goes on
      into whatever was there before. */
  function ReadBack(stale: Slots, rest: string, k: nat, step: nat): Result<Option<string>, ()>
    requires 0 < step
    decreases |rest|
  {
    if rest == "" then ReadFrom(stale, {}, k)
    else if step <= |rest| then Prepend(rest[..step], ReadBack(stale, rest[step..], k + 1, step))
    else if EndsWith(rest, CONTINUE_MARKER) then Prepend(Stripped(rest), ReadFrom(stale, {}, k + 1))
    else Ok(Some(rest))
  }

  /** What reading yields after storing any text over any stale slots. */
  lemma {:induction false} ReadAfterStore(stale: Slots, rest: string, k: nat, step: nat)
    requires 0 < step
    ensures ReadFrom(StoreFrom(stale, {}, rest, k, step).slots, {}, k) == ReadBack(stale, rest, k, step)
    decreases |rest|
  {
    var slots := StoreFrom(stale, {}, rest, k, step).slots;
    if rest != "" && step <= |rest| {
      var stale' := stale[k := rest[..step] + CONTINUE_MARKER];
      StoreKeepsEarlier(stale', {}, rest[step..], k + 1, step);
      ReadAfterStore(stale', rest[step..], k + 1, step);
      ReadBackAgrees(stale', stale, rest[step..], k + 1, step);
      assert EndsWith(slots[k], CONTINUE_MARKER) && Stripped(slots[k]) == rest[..step];
    } else if rest != "" {
      ReadFromAgrees(slots, stale, {}, k + 1);
    }
  }

  lemma {:induction false} ReadBackAgrees(a: Slots, b: Slots, rest: string, k: nat, step: nat)
    requires 0 < step
    requires forall j | k <= j :: (j in a <==> j in b) && (j in a ==> a[j] == b[j])
    ensures ReadBack(a, rest, k, step) == ReadBack(b, rest, k, step)
    decreases |rest|
  {
    if rest == "" {
      ReadFromAgrees(a, b, {}, k);
    } else if step <= |rest| {
      ReadBackAgrees(a, b, rest[step..], k + 1, step);
    } else {
      ReadFromAgrees(a, b, {}, k + 1);
    }
  }

  /** The texts that survive: their length is no multiple of the step and the part in the
      last slot does not end with the marker. */
  predicate Survives(s: string, step: nat)
    requires 0 < step
  {
    |s| % step != 0 && !EndsWith(LastPart(s, step), CONTINUE_MARKER)
  }

  lemma SurvivesOneStepLess(s: string, step: nat)
    requires 0 < step <= |s|
    ensures Survives(s, step) == Survives(s[step..], step)
  {
    OneStepLess(|s|, step);
  }

  lemma SurvivesInLastSlot(s: string, step: nat)
    requires |s| < step
    ensures Survives(s, step) == (s != "" && !EndsWith(s, CONTINUE_MARKER))
  {
    assert |s| % step == |s|;
  }

  lemma {:induction false} ReadBackSurvives(stale: Slots, s: string, k: nat, step: nat)
    requires 0 < step
    ensures Survives(s, step) ==> ReadBack(stale, s, k, step) == Ok(Some(s))
    ensures !Survives(s, step) && (forall j | k <= j :: j !in stale) ==> ReadBack(stale, s, k, step) == Ok(None)
    decreases |s|
  {
    hide Survives;
    if step <= |s| {
      SurvivesOneStepLess(s, step);
      ReadBackSurvives(stale, s[step..], k + 1, step);
      assert s[..step] + s[step..] == s;
    } else {
      SurvivesInLastSlot(s, step);
    }
  }

  function ReadStored(stale: Slots, s: string, step: nat): Result<Option<string>, ()>
    requires 0 < step
  {
    ReadFrom(StoreFrom(stale, {}, s, 0, step).slots, {}, 0)
  }

  /** The round trip holds over all stale slots exactly for the texts that survive. */
  lemma RoundTripIff(s: string, step: nat)
    requires 0 < step
    ensures (forall stale: Slots :: ReadStored(stale, s, step) == Ok(Some(s))) <==> Survives(s, step)
  {
    forall stale: Slots ensures ReadStored(stale, s, step) == ReadBack(stale, s, 0, step) {
      ReadAfterStore(stale, s, 0, step);
    }
    if Survives(s, step) {
      forall stale: Slots ensures ReadStored(stale, s, step) == Ok(Some(s)) { ReadBackSurvives(stale, s, 0, step); }
    } else {
      ReadBackSurvives(map[], s, 0, step);
      assert ReadStored(map[], s, step) != Ok(Some(s));
    }
  }

  lemma SuffixOfSuffix(s: string, part: string, suffix: string)
    requires EndsWith(s, part)
    ensures EndsWith(part, suffix) ==> EndsWith(s, suffix)
  {
    if EndsWith(part, suffix) {
      assert s[|s| - |suffix|..] == s[|s| - |part|..][|part| - |suffix|..];
    }
  }

  /** In particular for a text that does not end with the marker and whose length is no
      multiple of the step. */
  lemma RoundTrip(stale: Slots, s: string, step: nat)
    requires 0 < step && |s| % step != 0 && !EndsWith(s, CONTINUE_MARKER)
    ensures ReadStored(stale, s, step) == Ok(Some(s))
  {
    LastPartIsRemainder(s, step);
    SuffixOfSuffix(s, LastPart(s, step), CONTINUE_MARKER);
    ReadAfterStore(stale, s, 0, step);
    ReadBackSurvives(stale, s, 0, step);
  }

  /** At an exact multiple of the step the text runs on into the next slot, whatever it
      holds: nothing is read if it is absent, too much if it is not. */
  lemma ExactMultiple(stale: Slots, s: string, k: nat, step: nat)
    requires 0 < step && |s| % step == 0
    ensures ReadBack(stale, s, k, step) == Prepend(s, ReadFrom(stale, {}, k + |s| / step))
    ensures StoreFrom(stale, {}, s, k, step).entries == k + |s| / step
    ensures forall j | k <= j < k + |s| / step ::
              var slots := StoreFrom(stale, {}, s, k, step).slots;
              j in slots && EndsWith(slots[j], CONTINUE_MARKER)
  {
    ReadsOn(stale, s, k, step);
    AllMarked(stale, s, k, step);
  }

  lemma {:induction false} ReadsOn(stale: Slots, s: string, k: nat, step: nat)
    requires 0 < step && |s| % step == 0
    ensures ReadBack(stale, s, k, step) == Prepend(s, ReadFrom(stale, {}, k + |s| / step))
    decreases |s|
  {
    hide EndsWith, ReadFrom, Prepend;
    if s == "" {
      PrependNothing(ReadFrom(stale, {}, k));
    } else {
      MultipleHasStep(|s|, step);
      OneStepLess(|s|, step);
      var rest := s[step..];
      ReadsOn(stale, rest, k + 1, step);
      PrependTwice(s[..step], rest, ReadFrom(stale, {}, k + |s| / step));
      assert s[..step] + rest == s;
    }
  }

  lemma {:induction false} AllMarked(stale: Slots, s: string, k: nat, step: nat)
    requires 0 < step && |s| % step == 0
    ensures StoreFrom(stale, {}, s, k, step).entries == k + |s| / step
    ensures forall j | k <= j < k + |s| / step ::
              var slots := StoreFrom(stale, {}, s, k, step).slots;
              j in slots && EndsWith(slots[j], CONTINUE_MARKER)
    decreases |s|
  {
    hide EndsWith;
    if s != "" {
      MultipleHasStep(|s|, step);
      OneStepLess(|s|, step);
      var stale' := stale[k := s[..step] + CONTINUE_MARKER];
      AllMarked(stale', s[step..], k + 1, step);
      StoreKeepsEarlier(stale', {}, s[step..], k + 1, step);
      MarkedEndsWithMarker(s[..step]);
    }
  }

  lemma MultipleHasStep(n: nat, step: nat)
    requires 0 < step && n % step == 0 && 0 < n
    ensures step <= n
  {}

  lemma PrependTwice(a: string, b: string, r: Result<Option<string>, ()>)
    ensures Prepend(a, Prepend(b, r)) == Prepend(a + b, r)
  {
    if r.Ok? && r.value.Some? { assert a + (b + r.value.value) == a + b + r.value.value; }
  }

  /** Every slot written stays within the entry limit. */
  lemma {:induction false} SlotsWithinLimit(slots: Slots, faulty: set<nat>, rest: string, k: nat, limit: nat)
    requires |CONTINUE_MARKER| < limit
    ensures var w := StoreFrom(slots, faulty, rest, k, limit - |CONTINUE_MARKER|);
            forall j | j in w.slots && (j !in slots || w.slots[j] != slots[j]) :: |w.slots[j]| <= limit
    decreases |rest|
  {
    var step := limit - |CONTINUE_MARKER|;
    if rest != "" && k !in faulty && step <= |rest| {
      var slots' := slots[k := rest[..step] + CONTINUE_MARKER];
      SlotsWithinLimit(slots', faulty, rest[step..], k + 1, limit);
      StoreKeepsEarlier(slots', faulty, rest[step..], k + 1, step);
    }
  }

  // ---- What is in the slots, and what fails ----

  /** Slot `i` is needed for the text. */
  predicate Needed(s: string, step: nat, i: nat) {
    i * step < |s|
  }

  /** What slot `i` is to hold: a full step with the marker, or the rest of the text. */
  function Part(s: string, step: nat, i: nat): string
    requires Needed(s, step, i)
  {
    if i * step + step <= |s| then s[i * step..i * step + step] + "<MORE>" else s[i * step..]
  }

  lemma PartOfRest(s: string, step: nat, i: nat)
    requires 0 < step <= |s| && 0 < i
    ensures Needed(s, step, i) <==> Needed(s[step..], step, i - 1)
    ensures Needed(s, step, i) ==> Part(s, step, i) == Part(s[step..], step, i - 1)
  {
    assert (i - 1) * step + step == i * step;
    if Needed(s, step, i) {
      var from := (i - 1) * step;
      assert s[step..][from..] == s[i * step..];
      if i * step + step <= |s| { assert s[step..][from..from + step] == s[i * step..i * step + step]; }
    }
  }

  lemma NeededFirst(s: string, step: nat)
    ensures Needed(s, step, 0) <==> s != ""
    ensures s != "" ==> Part(s, step, 0) == if step <= |s| then s[..step] + "<MORE>" else s
    ensures |s| < step ==> forall i: nat | 0 < i :: !Needed(s, step, i)
  {
    assert 0 * step == 0;
    forall i: nat | 0 < i && |s| < step ensures !Needed(s, step, i) { AtLeastOnce(i, step); }
  }

  /** Storing works up to slot `i`. */
  predicate WorksUpTo(faulty: set<nat>, k: nat, i: nat) {
    forall j | k <= j <= k + i :: j !in faulty
  }

  /** After a store, every slot up to the first that fails holds its part, and no other slot has
      changed. */
  lemma {:induction false} SlotAfterStore(slots: Slots, faulty: set<nat>, rest: string, k: nat, step: nat, i: nat)
    requires 0 < step
    ensures var after := StoreFrom(slots, faulty, rest, k, step).slots;
            if Needed(rest, step, i) && WorksUpTo(faulty, k, i)
            then k + i in after && after[k + i] == Part(rest, step, i)
            else (k + i in after <==> k + i in slots) && (k + i in slots ==> after[k + i] == slots[k + i])
    decreases |rest|
  {
    hide Needed, Part;
    NeededFirst(rest, step);
    if rest != "" && k !in faulty && step <= |rest| {
      var slots' := slots[k := rest[..step] + CONTINUE_MARKER];
      StoreKeepsEarlier(slots', faulty, rest[step..], k + 1, step);
      if 0 < i {
        PartOfRest(rest, step, i);
        SlotAfterStore(slots', faulty, rest[step..], k + 1, step, i - 1);
        assert WorksUpTo(faulty, k, i) <==> WorksUpTo(faulty, k + 1, i - 1);
      }
    }
  }

  /** Storing succeeds exactly if every slot the text needs works. */
  lemma {:induction false} StoreSucceedsIff(slots: Slots, faulty: set<nat>, rest: string, k: nat, step: nat)
    requires 0 < step
    ensures StoreFrom(slots, faulty, rest, k, step).ok
       <==> forall i: nat | Needed(rest, step, i) :: k + i !in faulty
    decreases |rest|
  {
    hide Needed;
    NeededFirst(rest, step);
    if rest != "" && k in faulty {
      assert k + 0 in faulty;
    } else if step <= |rest| {
      StoreSucceedsIff(slots[k := rest[..step] + CONTINUE_MARKER], faulty, rest[step..], k + 1, step);
      forall i: nat | 0 < i ensures Needed(rest, step, i) <==> Needed(rest[step..], step, i - 1) {
        PartOfRest(rest, step, i);
      }
      forall i: nat ensures Needed(rest[step..], step, i) <==> Needed(rest, step, i + 1) {
        PartOfRest(rest, step, i + 1);
      }
      if StoreFrom(slots, faulty, rest, k, step).ok {
        forall i: nat | Needed(rest, step, i) ensures k + i !in faulty {
          if 0 < i { assert k + 1 + (i - 1) !in faulty; }
        }
      }
      if forall i: nat | Needed(rest, step, i) :: k + i !in faulty {
        forall i: nat | Needed(rest[step..], step, i) ensures k + 1 + i !in faulty { assert k + (i + 1) !in faulty; }
      }
    }
  }

  /** Slots `i` to `k - 1` work and ask for more. */
  predicate AskForMore(slots: Slots, faulty: set<nat>, i: nat, k: nat) {
    forall j | i <= j < k :: j !in faulty && j in slots && EndsWith(slots[j], "<MORE>")
  }

  /** Their texts without the markers. */
  function Joined(slots: Slots, faulty: set<nat>, i: nat, k: nat): string
    requires AskForMore(slots, faulty, i, k)
    decreases k - i
  {
    if k <= i then "" else slots[i][..|slots[i]| - 6] + Joined(slots, faulty, i + 1, k)
  }

  /** The slot that reading stops at: one that fails, that is missing, or that asks for no more. */
  lemma {:induction false} ReadStops(slots: Slots, faulty: set<nat>, i: nat) returns (k: nat)
    ensures i <= k && AskForMore(slots, faulty, i, k) && !AskForMore(slots, faulty, k, k + 1)
    ensures ReadFrom(slots, faulty, i)
         == if k in faulty then Err(()) else if k !in slots then Ok(None)
            else Ok(Some(Joined(slots, faulty, i, k) + slots[k]))
    decreases From(slots, i)
  {
    if i !in faulty && i in slots && EndsWith(slots[i], CONTINUE_MARKER) {
      assert i in From(slots, i) && i !in From(slots, i + 1);
      k := ReadStops(slots, faulty, i + 1);
      if k !in faulty && k in slots {
        var first, more := Stripped(slots[i]), Joined(slots, faulty, i + 1, k);
        assert first + (more + slots[k]) == (first + more) + slots[k];
      }
    } else {
      k := i;
      if k !in faulty && k in slots { assert "" + slots[k] == slots[k]; }
    }
  }

  /** Reading fails exactly if it comes to a faulty slot, finds nothing exactly if it comes to a
      missing one, and else yields the texts up to the first slot that asks for no more. */
  lemma ReadIff(slots: Slots, faulty: set<nat>)
    ensures ReadFrom(slots, faulty, 0).Err? <==> exists k: nat :: AskForMore(slots, faulty, 0, k) && k in faulty
    ensures ReadFrom(slots, faulty, 0) == Ok(None)
       <==> exists k: nat :: AskForMore(slots, faulty, 0, k) && k !in faulty && k !in slots
    ensures forall k: nat ::
              AskForMore(slots, faulty, 0, k) && k !in faulty && k in slots && !EndsWith(slots[k], "<MORE>") ==>
              ReadFrom(slots, faulty, 0) == Ok(Some(Joined(slots, faulty, 0, k) + slots[k]))
  {
    hide ReadFrom, EndsWith;
    var k := ReadStops(slots, faulty, 0);
    forall j: nat | AskForMore(slots, faulty, 0, j) && !AskForMore(slots, faulty, j, j + 1) ensures j == k {}
  }

  // ---- Clearing ----

  lemma {:induction false} DeleteFromIff(slots: Slots, faulty: set<nat>, i: nat, n: nat)
    requires i <= n
    ensures DeleteFrom(slots, faulty, i, n).1 <==> forall k | i <= k < n :: k in slots && k !in faulty
    ensures DeleteFrom(slots, faulty, i, n).1 ==>
              DeleteFrom(slots, faulty, i, n).0 == slots - Span(i, n)
    decreases n - i
  {
    if i < n && i in slots && i !in faulty {
      var others := slots - {i};
      DeleteFromIff(others, faulty, i + 1, n);
      assert forall k | i < k < n :: k in others <==> k in slots;
      if DeleteFrom(slots, faulty, i, n).1 {
        forall k | i <= k < n ensures k in slots && k !in faulty { if i < k { assert k in others; } }
      }
      assert slots - {i} - Span(i + 1, n) == slots - Span(i, n);
    } else if i == n {
      assert slots - Span(i, n) == slots;
    }
  }

  /** Deleting stops at the first slot that is missing or fails, with the slots before it gone and
      all others as they were. */
  lemma {:induction false} DeleteStops(slots: Slots, faulty: set<nat>, i: nat, n: nat) returns (k: nat)
    requires i <= n
    ensures i <= k <= n && (k < n ==> k !in slots || k in faulty)
    ensures forall j | i <= j < k :: j in slots && j !in faulty
    ensures DeleteFrom(slots, faulty, i, n).1 <==> k == n
    ensures forall j: nat :: j in DeleteFrom(slots, faulty, i, n).0 <==> j in slots && !(i <= j < k)
    ensures forall j: nat | j in DeleteFrom(slots, faulty, i, n).0 :: DeleteFrom(slots, faulty, i, n).0[j] == slots[j]
    decreases n - i
  {
    if i < n && i in slots && i !in faulty {
      var others := slots - {i};
      k := DeleteStops(others, faulty, i + 1, n);
      assert forall j: nat :: j in others <==> j in slots && j != i;
    } else {
      k := i;
    }
  }

  /** A successful clear empties slot 0 at least, so the next read finds nothing. */
  lemma ReadAfterClear(slots: Slots, faulty: set<nat>, entries: nat)
    requires DeleteFrom(slots, faulty, 0, Max(entries, Visited(slots, faulty, 0))).1
    ensures ReadFrom(DeleteFrom(slots, faulty, 0, Max(entries, Visited(slots, faulty, 0))).0, faulty, 0) == Ok(None)
  {
    DeleteFromIff(slots, faulty, 0, Max(entries, Visited(slots, faulty, 0)));
  }

  /** Reading after a store into an empty keyring visits the slots written, and one more if
      the text does not survive. */
  lemma {:induction false} VisitedAfterStore(slots: Slots, rest: string, k: nat, step: nat)
    requires 0 < step && forall j | k <= j :: j !in slots
    ensures var w := StoreFrom(slots, {}, rest, k, step);
            && Visited(w.slots, {}, k) == w.entries + (if Survives(rest, step) then 0 else 1)
            && w.slots.Keys == slots.Keys + Span(k, w.entries)
    decreases |rest|
  {
    hide Survives, EndsWith;
    var w := StoreFrom(slots, {}, rest, k, step);
    if step <= |rest| {
      SurvivesOneStepLess(rest, step);
      var slots' := slots[k := rest[..step] + CONTINUE_MARKER];
      VisitedAfterStore(slots', rest[step..], k + 1, step);
      StoreKeepsEarlier(slots', {}, rest[step..], k + 1, step);
      MarkedEndsWithMarker(rest[..step]);
      assert w.slots[k] == rest[..step] + CONTINUE_MARKER;
      assert slots'.Keys + Span(k + 1, w.entries) == slots.Keys + Span(k, w.entries);
    } else {
      SurvivesInLastSlot(rest, step);
      if rest == "" {
        assert slots.Keys + Span(k, k) == slots.Keys;
      } else {
        assert slots[k := rest].Keys == slots.Keys + Span(k, k + 1);
      }
    }
  }

  lemma MarkedEndsWithMarker(s: string)
    ensures EndsWith(s + CONTINUE_MARKER, CONTINUE_MARKER)
  {}

  /** After one store into an empty keyring, `clear` succeeds, and then empties it, exactly
      when the stored text survives; otherwise it fails on an entry that was never written. */
  lemma ClearAfterStoreIff(s: string, step: nat)
    requires 0 < step
    ensures var w := StoreFrom(map[], {}, s, 0, step);
            var r := DeleteFrom(w.slots, {}, 0, Max(w.entries, Visited(w.slots, {}, 0)));
            && (r.1 <==> Survives(s, step))
            && (r.1 ==> r.0 == map[])
  {
    VisitedAfterStore(map[], s, 0, step);
    var w := StoreFrom(map[], {}, s, 0, step);
    var n := Max(w.entries, Visited(w.slots, {}, 0));
    DeleteFromIff(w.slots, {}, 0, n);
    if !Survives(s, step) { assert n - 1 !in w.slots.Keys; }
  }
}
