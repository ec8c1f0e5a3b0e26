/** The download cache (cli/src/download_cache.rs): directories on disk and a persisted list
    of names, most recently used first, that decides which directory to evict. */
module DownloadCache {
  import opened Common
  import opened PersistedState

  const KEEP_LRU: nat := 5
  const STAGING_SUFFIX := ".staging"
  const RENAME_ATTEMPTS: nat := 20
  const PERSISTED_STATE_FILE_NAME := "lru.json"

  function Staging(name: string): string {
    name + STAGING_SUFFIX
  }

  /** A name that denotes neither a staging directory nor the state file. */
  predicate Plain(name: string) {
    name != PERSISTED_STATE_FILE_NAME
    && !(|STAGING_SUFFIX| <= |name| && name[|name| - |STAGING_SUFFIX|..] == STAGING_SUFFIX)
  }

  /** What the outside world does to one operation. */
  datatype World = World(
    stagingRemoved: bool,       // an old staging directory could be removed
    stagingCreated: bool,
    created: bool,              // the caller's `do_create` succeeded
    removed: bool,              // remove_dir_all succeeded (eviction or delete)
    written: bool,              // the state file was written
    leftover: Option<seq<string>>,   // what a failed write leaves in the file
    renames: nat -> bool)       // whether the n-th rename attempt succeeds

  // ---- The operations on values ----

  datatype Cache = Cache(dirs: set<string>, list: seq<string>)

  const EMPTY := Cache({}, [])

  function RemoveFirst(l: seq<string>, name: string): seq<string> {
    if l == [] then []
    else if l[0] == name then l[1..]
    else [l[0]] + RemoveFirst(l[1..], name)
  }

  function Without(l: seq<string>, name: string): seq<string> {
    if l == [] then []
    else (if l[0] == name then [] else [l[0]]) + Without(l[1..], name)
  }

  function MovedToFront(l: seq<string>, name: string): seq<string> {
    [name] + RemoveFirst(l, name)
  }

  /** Touching `name` runs into a directory that should go but cannot be removed. */
  predicate EvictionFails(c: Cache, name: string, removed: bool) {
    var l := MovedToFront(c.list, name);
    KEEP_LRU < |l| && l[|l| - 1] in c.dirs && !removed
  }

  function Touched(c: Cache, name: string, removed: bool): Cache {
    var l := MovedToFront(c.list, name);
    if |l| <= KEEP_LRU || EvictionFails(c, name, removed) then Cache(c.dirs, l)
    else Cache(c.dirs - {l[|l| - 1]}, l[..|l| - 1])
  }

  datatype Op = Create(name: string, w: World) | Exists(name: string, w: World) | Delete(name: string, w: World)

  /** Whether one of the rename attempts from `n` on succeeds. */
  predicate Renamed(renames: nat -> bool, n: nat)
    decreases RENAME_ATTEMPTS + 1 - n
  {
    n <= RENAME_ATTEMPTS && (renames(n) || Renamed(renames, n + 1))
  }

  /** The staging directory before `do_create` runs. */
  function Prepared(dirs: set<string>, name: string, w: World): set<string> {
    var cleaned := if w.stagingRemoved then dirs - {Staging(name)} else dirs;
    if w.stagingCreated then cleaned + {Staging(name)} else cleaned
  }

  /** Attempts 0 to 20, until one succeeds. */
  lemma {:induction false} RenamedFrom(renames: nat -> bool, n: nat)
    ensures Renamed(renames, n) <==> exists k: nat :: n <= k <= 20 && renames(k)
    decreases RENAME_ATTEMPTS + 1 - n
  {
    if n <= RENAME_ATTEMPTS { RenamedFrom(renames, n + 1); }
  }

  function Created(c: Cache, name: string, w: World): Cache {
    if name in c.dirs then c
    else
      var c1 := c.(dirs := Prepared(c.dirs, name, w));
      if !w.stagingCreated || !w.created then c1
      else
        var c2 := Touched(c1, name, w.removed);
        if Renamed(w.renames, 0) then c2.(dirs := c2.dirs - {Staging(name)} + {name}) else c2
  }

  function Deleted(c: Cache, name: string, w: World): Cache {
    if name in c.dirs && !w.removed then c
    else Cache(c.dirs - {name}, Without(c.list, name))
  }

  function Next(c: Cache, op: Op): Cache {
    match op
    case Create(name, w) => Created(c, name, w)
    case Exists(name, w) => if name in c.dirs then Touched(c, name, w.removed) else c
    case Delete(name, w) => Deleted(c, name, w)
  }

  /** Whether an operation comes to save the list. */
  predicate Saves(c: Cache, op: Op) {
    match op
    case Create(name, w) => name !in c.dirs && w.stagingCreated && w.created
    case Exists(name, w) => name in c.dirs
    case Delete(name, w) => name in c.dirs ==> w.removed
  }

  /** The state file after an operation. */
  function FileAfter(file: Option<seq<string>>, c: Cache, op: Op): Option<seq<string>> {
    if !Saves(c, op) then file
    else if op.w.written then Some(Next(c, op).list)
    else op.w.leftover
  }

  /** The first position of `name`, or the length of the list. */
  method Position(l: seq<string>, name: string) returns (i: nat)
    ensures i <= |l| && name !in l[..i] && (i < |l| ==> l[i] == name)
  {
    i := 0;
    while i < |l| && l[i] != name
      invariant i <= |l| && name !in l[..i]
    {
      i := i + 1;
    }
  }

  /** The list without `name`. */
  method Retain(l: seq<string>, name: string) returns (kept: seq<string>)
    ensures kept == Without(l, name)
  {
    kept := [];
    for i := 0 to |l|
      invariant kept + Without(l[i..], name) == Without(l, name)
    {
      var rest := Without(l[i + 1..], name);
      assert l[i..][1..] == l[i + 1..];
      if l[i] != name {
        assert kept + ([l[i]] + rest) == (kept + [l[i]]) + rest;
        kept := kept + [l[i]];
      } else {
        assert [] + rest == rest;
      }
    }
    assert kept + [] == kept;
  }

  lemma {:induction false} RemoveFirstAt(l: seq<string>, name: string, i: nat)
    requires i <= |l| && name !in l[..i] && (i < |l| ==> l[i] == name)
    ensures RemoveFirst(l, name) == if i < |l| then l[..i] + l[i + 1..] else l
  {
    if 0 < i {
      assert l[0] == l[..i][0];
      assert l[1..][..i - 1] == l[..i][1..];
      RemoveFirstAt(l[1..], name, i - 1);
    }
  }

  class DownloadCache {
    var dirs: set<string>
    const state: Container<seq<string>>

    constructor (dirs: set<string>, file: Option<seq<string>>)
      ensures this.dirs == dirs && fresh(state)
      ensures Contents() == Cache(dirs, if file.Some? then file.value else [])
    {
      this.dirs := dirs;
      state := new Container([], file);
    }

    function Contents(): Cache
      reads this, state
    {
      Cache(dirs, state.Value())
    }

    method Touch(name: string, w: World) returns (ok: bool)
      modifies this, state
      ensures Contents() == Touched(old(Contents()), name, w.removed)
      ensures ok == w.written
      ensures state.file == if ok then Some(Contents().list) else w.leftover
    {
      hide RemoveFirst;
      var l := state.LoadOrGet();
      ghost var was := Contents();
      var index := Position(l, name);
      RemoveFirstAt(l, name, index);
      if index < |l| {
        l := l[..index] + l[index + 1..];
      }
      l := [name] + l;
      assert l == MovedToFront(was.list, name);
      if KEEP_LRU < |l| {
        var f := l[|l| - 1];
        if f !in dirs {
          assert dirs - {f} == dirs;
          l := l[..|l| - 1];
        } else if w.removed {
          dirs := dirs - {f};
          l := l[..|l| - 1];
        }
      }
      assert Cache(dirs, l) == Touched(was, name, w.removed);
      ok := state.Save(l, w.written, w.leftover);
    }

    /** The path, if there is a directory of that name, which is then marked as used. */
    method Exists(name: string, w: World) returns (found: bool)
      modifies this, state
      ensures Contents() == Next(old(Contents()), Op.Exists(name, w))
      ensures state.file == FileAfter(old(state.file), old(Contents()), Op.Exists(name, w))
      ensures found <==> name in old(dirs)
    {
      if name !in dirs {
        return false;
      }
      var _ := Touch(name, w);
      return true;
    }

    method Delete(name: string, w: World) returns (ok: bool)
      modifies this, state
      ensures Contents() == Next(old(Contents()), Op.Delete(name, w))
      ensures state.file == FileAfter(old(state.file), old(Contents()), Op.Delete(name, w))
      ensures ok <==> w.written && (name in old(dirs) ==> w.removed)
    {
      if name in dirs {
        if !w.removed {
          return false;
        }
        dirs := dirs - {name};
      }
      assert dirs == old(dirs) - {name};
      var l := state.LoadOrGet();
      var kept := Retain(l, name);
      ok := state.Save(kept, w.written, w.leftover);
    }

    method Create(name: string, w: World) returns (ok: bool)
      modifies this, state
      ensures Contents() == Next(old(Contents()), Op.Create(name, w))
      ensures state.file == FileAfter(old(state.file), old(Contents()), Op.Create(name, w))
      ensures ok <==> name in old(dirs)
                      || (w.stagingCreated && w.created && exists k: nat :: k <= 20 && w.renames(k))
      ensures ok && Plain(name) ==> name in dirs
    {
      RenamedFrom(w.renames, 0);
      if name in dirs {
        return true;
      }
      var tempDir := Staging(name);
      if w.stagingRemoved { dirs := dirs - {tempDir}; }
      if !w.stagingCreated {
        return false;
      }
      dirs := dirs + {tempDir};
      if !w.created {
        return false;
      }
      var _ := Touch(name, w);
      var attemptNo := 0;
      while attemptNo <= RENAME_ATTEMPTS
        invariant attemptNo <= RENAME_ATTEMPTS + 1
        invariant Renamed(w.renames, 0) == Renamed(w.renames, attemptNo)
      {
        if w.renames(attemptNo) {
          dirs := dirs - {tempDir} + {name};
          return true;
        }
        attemptNo := attemptNo + 1;
      }
      return false;
    }
  }

  // ---- The list is the five most recently used names ----

  function Reversed(s: seq<string>): seq<string> {
    if s == [] then [] else Reversed(s[1..]) + [s[0]]
  }

  function Take(s: seq<string>, n: nat): seq<string> {
    if |s| <= n then s else s[..n]
  }

  /** The list after a history of touches, oldest first, starting empty. */
  function AfterTouches(dirs: set<string>, history: seq<string>): Cache {
    if history == [] then Cache(dirs, [])
    else Touched(AfterTouches(dirs, history[..|history| - 1]), history[|history| - 1], true)
  }

  lemma {:induction false} WithoutPush(l: seq<string>, x: string, name: string)
    ensures Without(l + [x], name) == Without(l, name) + if x == name then [] else [x]
  {
    if l == [] {
      assert l + [x] == [x] && [x][1..] == [];
    } else {
      assert (l + [x])[1..] == l[1..] + [x];
      WithoutPush(l[1..], x, name);
    }
  }

  lemma {:induction false} DistinctFront(x: string, s: seq<string>)
    ensures Distinct([x] + s) == [x] + Without(Distinct(s), x)
  {
    if s == [] {
      assert [x] + s == [x] && [x][..0] == [];
    } else {
      var init, last := s[..|s| - 1], s[|s| - 1];
      DistinctFront(x, init);
      assert ([x] + s)[..|s|] == [x] + init;
      WithoutPush(Distinct(init), last, x);
    }
  }

  lemma {:induction false} RemoveFirstIsWithout(l: seq<string>, name: string)
    requires NoDuplicates(l)
    ensures RemoveFirst(l, name) == Without(l, name)
  {
    if l != [] {
      if l[0] == name { WithoutAbsent(l[1..], name); }
      RemoveFirstIsWithout(l[1..], name);
    }
  }

  lemma {:induction false} WithoutAbsent(l: seq<string>, name: string)
    requires name !in l
    ensures Without(l, name) == l
  {
    if l != [] { WithoutAbsent(l[1..], name); }
  }

  lemma {:induction false} WithoutKeeps(l: seq<string>, name: string)
    ensures forall x :: x in Without(l, name) <==> x in l && x != name
    ensures |Without(l, name)| <= |l| && (name in l ==> |Without(l, name)| < |l|)
  {
    if l != [] {
      WithoutKeeps(l[1..], name);
      assert l == [l[0]] + l[1..];
    }
  }

  lemma {:induction false} WithoutNoDuplicates(l: seq<string>, name: string)
    requires NoDuplicates(l)
    ensures NoDuplicates(Without(l, name))
  {
    if l != [] {
      WithoutNoDuplicates(l[1..], name);
      WithoutKeeps(l[1..], name);
      assert l[0] !in l[1..];
    }
  }

  lemma TakeCons(x: string, s: seq<string>, n: nat)
    ensures Take([x] + s, n + 1) == [x] + Take(s, n)
  {}

  lemma WithoutCons(x: string, s: seq<string>, name: string)
    ensures Without([x] + s, name) == if x == name then Without(s, name) else [x] + Without(s, name)
  {
    assert ([x] + s)[1..] == s;
    assert [] + Without(s, name) == Without(s, name);
  }

  /** Removing a name from the first n of a list without duplicates. */
  lemma {:induction false} TakeWithout(l: seq<string>, name: string, n: nat)
    requires NoDuplicates(l)
    ensures Take(Without(Take(l, n + 1), name), n) == Take(Without(l, name), n)
    decreases |l|
  {
    hide Without;
    if n + 1 < |l| {
      var x, rest := l[0], l[1..];
      assert l == [x] + rest;
      TakeCons(x, rest, n);
      WithoutCons(x, rest, name);
      WithoutCons(x, Take(rest, n), name);
      if x == name {
        WithoutAbsent(rest, name);
        WithoutAbsent(Take(rest, n), name);
      } else if n > 0 {
        TakeWithout(rest, name, n - 1);
        TakeCons(x, Without(rest, name), n - 1);
        TakeCons(x, Without(Take(rest, n), name), n - 1);
      }
    }
  }

  /** Touching keeps the list the front of `recent`, all names by last use. */
  lemma TouchingFront(c: Cache, recent: seq<string>, name: string)
    requires NoDuplicates(recent) && c.list == Take(recent, KEEP_LRU)
    ensures Touched(c, name, true).list == Take([name] + Without(recent, name), KEEP_LRU)
  {
    RemoveFirstIsWithout(c.list, name);
    WithoutKeeps(c.list, name);
    TakeWithout(recent, name, KEEP_LRU - 1);
    var l := MovedToFront(c.list, name);
    assert Take([name] + Without(recent, name), KEEP_LRU) == [name] + Take(Without(recent, name), KEEP_LRU - 1);
    assert Take(l, KEEP_LRU) == [name] + Take(Without(c.list, name), KEEP_LRU - 1);
  }

  /** After any history of touches, as long as evictions succeed, the list is the first five
      distinct names of the reversed history. */
  lemma {:induction false} ListIsRecentlyUsed(dirs: set<string>, history: seq<string>)
    ensures AfterTouches(dirs, history).list == Take(Distinct(Reversed(history)), KEEP_LRU)
    decreases |history|
  {
    hide Touched, Take, Distinct, Reversed, Without;
    if history == [] {
      NothingTouched();
    } else {
      var earlier, name := history[..|history| - 1], history[|history| - 1];
      assert history == earlier + [name];
      ListIsRecentlyUsed(dirs, earlier);
      DistinctElements(Reversed(earlier));
      TouchingFront(AfterTouches(dirs, earlier), Distinct(Reversed(earlier)), name);
      ReversedPush(earlier, name);
      DistinctFront(name, Reversed(earlier));
    }
  }

  lemma NothingTouched()
    ensures Take(Distinct(Reversed([])), KEEP_LRU) == []
  {}

  lemma {:induction false} ReversedPush(s: seq<string>, x: string)
    ensures Reversed(s + [x]) == [x] + Reversed(s)
  {
    if s == [] {
      assert s + [x] == [x] && [x][1..] == [];
    } else {
      assert (s + [x])[1..] == s[1..] + [x];
      ReversedPush(s[1..], x);
    }
  }

  // ---- Every run keeps list and directories in agreement ----

  ghost predicate Agrees(c: Cache) {
    NoDuplicates(c.list) && forall d | d in c.dirs && Plain(d) :: d in c.list
  }

  function Run(c: Cache, ops: seq<Op>): Cache {
    if ops == [] then c else Next(Run(c, ops[..|ops| - 1]), ops[|ops| - 1])
  }

  /** The evictions that failed along a run. */
  function FailedEvictions(c: Cache, ops: seq<Op>): nat {
    if ops == [] then 0
    else
      var before, op := Run(c, ops[..|ops| - 1]), ops[|ops| - 1];
      FailedEvictions(c, ops[..|ops| - 1]) + if FailsToEvict(before, op) then 1 else 0
  }

  predicate FailsToEvict(c: Cache, op: Op) {
    match op
    case Create(name, w) =>
      name !in c.dirs && w.stagingCreated && w.created
      && EvictionFails(c.(dirs := Prepared(c.dirs, name, w)), name, w.removed)
    case Exists(name, w) => name in c.dirs && EvictionFails(c, name, w.removed)
    case Delete(_, _) => false
  }

  lemma StagingIsNotPlain(name: string)
    ensures !Plain(Staging(name)) && Staging(name) != name
  {
    assert Staging(name)[|name|..] == STAGING_SUFFIX;
  }

  function AtLeastFive(n: nat): nat {
    if n < KEEP_LRU then KEEP_LRU else n
  }

  lemma FrontNoDuplicates(x: string, l: seq<string>)
    requires x !in l && NoDuplicates(l)
    ensures NoDuplicates([x] + l)
  {}

  lemma PrefixNoDuplicates(a: seq<string>, b: seq<string>)
    requires a <= b && NoDuplicates(b)
    ensures NoDuplicates(a)
  {
    assert forall i | 0 <= i < |a| :: a[i] == b[i];
  }

  /** The touched name is at the front, no longer list than one more, and no name is lost
      but that of a directory that is gone. */
  lemma TouchedAgrees(c: Cache, name: string, removed: bool)
    requires Agrees(c)
    ensures var c' := Touched(c, name, removed);
            && Agrees(c') && c'.list != [] && c'.list[0] == name
            && c'.dirs <= c.dirs && (name in c.dirs ==> name in c'.dirs)
            && |c'.list| <= AtLeastFive(|c.list|) + if EvictionFails(c, name, removed) then 1 else 0
  {
    hide RemoveFirst, Without, NoDuplicates, Plain;
    RemoveFirstIsWithout(c.list, name);
    WithoutKeeps(c.list, name);
    WithoutNoDuplicates(c.list, name);
    var l, l' := MovedToFront(c.list, name), Touched(c, name, removed).list;
    assert forall d :: d in l <==> d == name || d in c.list;
    FrontNoDuplicates(name, Without(c.list, name));
    assert l' <= l;
    if |l'| < |l| {
      assert l == l' + [l[|l| - 1]];
    }
    PrefixNoDuplicates(l', l);
  }

  lemma StepAgrees(c: Cache, op: Op)
    requires Agrees(c) && Plain(op.name)
    ensures Agrees(Next(c, op))
    ensures |Next(c, op).list| <= AtLeastFive(|c.list|) + if FailsToEvict(c, op) then 1 else 0
  {
    match op {
      case Create(name, w) =>
        StagingIsNotPlain(name);
        var c1 := c.(dirs := Prepared(c.dirs, name, w));
        assert Agrees(c1);
        TouchedAgrees(c1, name, w.removed);
      case Exists(name, w) => TouchedAgrees(c, name, w.removed);
      case Delete(name, w) =>
        WithoutKeeps(c.list, name);
        WithoutNoDuplicates(c.list, name);
    }
  }

  ghost predicate PlainNames(ops: seq<Op>) {
    forall i | 0 <= i < |ops| :: Plain(ops[i].name)
  }

  /** After any sequence of create, exists and delete, whatever fails: every cached directory
      is in the list, the list has no duplicates, and it exceeds five by at most the number of
      failed evictions; so do the cached directories. */
  lemma CacheAgrees(ops: seq<Op>)
    requires PlainNames(ops)
    ensures var c, failures := Run(EMPTY, ops), FailedEvictions(EMPTY, ops);
            && Agrees(c)
            && |c.list| <= KEEP_LRU + failures
            && |set d | d in c.dirs && Plain(d)| <= KEEP_LRU + failures
  {
    RunAgrees(ops);
    var c := Run(EMPTY, ops);
    FewerThanListed((set d | d in c.dirs && Plain(d)), c.list);
  }

  lemma {:induction false} RunAgrees(ops: seq<Op>)
    requires PlainNames(ops)
    ensures Agrees(Run(EMPTY, ops))
    ensures |Run(EMPTY, ops).list| <= KEEP_LRU + FailedEvictions(EMPTY, ops)
    decreases |ops|
  {
    hide Next, FailsToEvict, Plain;
    if ops != [] {
      var before, op := ops[..|ops| - 1], ops[|ops| - 1];
      RunAgrees(before);
      StepAgrees(Run(EMPTY, before), op);
    }
  }

  // ---- The list by last use, over any operations ----

  /** The operation counts as a use of its name: a hit of `exists`, or a `create` that gets as far
      as filling the staging directory. */
  predicate Uses(dirs: set<string>, op: Op) {
    match op
    case Create(name, w) => name !in dirs && w.stagingCreated && w.created
    case Exists(name, _) => name in dirs
    case Delete(_, _) => false
  }

  /** The operation drops its name: a `delete` that is not held up. */
  predicate Drops(dirs: set<string>, op: Op) {
    op.Delete? && (op.name in dirs ==> op.w.removed)
  }

  /** All names used and not dropped since, the one used last first. */
  function ByLastUse(ops: seq<Op>): seq<string> {
    if ops == [] then []
    else
      var before, op := ops[..|ops| - 1], ops[|ops| - 1];
      var dirs, recent := Run(EMPTY, before).dirs, ByLastUse(before);
      if Uses(dirs, op) then [op.name] + Without(recent, op.name)
      else if Drops(dirs, op) then Without(recent, op.name)
      else recent
  }

  /** The name has been among the first five by last use ever since it was last used. */
  predicate StaysInFive(ops: seq<Op>, name: string) {
    ops != [] &&
    var before, op := ops[..|ops| - 1], ops[|ops| - 1];
    name in Take(ByLastUse(ops), 5)
    && ((Uses(Run(EMPTY, before).dirs, op) && op.name == name) || StaysInFive(before, name))
  }

  lemma {:induction false} WithoutOfPrefix(a: seq<string>, b: seq<string>, name: string)
    requires a <= b
    ensures Without(a, name) <= Without(b, name)
  {
    if a != [] {
      assert a[1..] <= b[1..];
      WithoutOfPrefix(a[1..], b[1..], name);
    }
  }

  /** A touch that does not fail to evict keeps the first five. */
  lemma TouchedList(c: Cache, name: string, removed: bool)
    requires NoDuplicates(c.list) && !EvictionFails(c, name, removed) && |c.list| <= 5
    ensures Touched(c, name, removed).list == Take([name] + Without(c.list, name), 5)
  {
    RemoveFirstIsWithout(c.list, name);
    WithoutKeeps(c.list, name);
  }

  /** In a list without duplicates, the elements of a prefix are those found early on. */
  lemma InPrefix(a: seq<string>, b: seq<string>, name: string)
    requires a <= b && NoDuplicates(b) && |a| <= 5
    ensures name in a ==> name in Take(b, 5)
    ensures name in Take(b, 5) && name in b[|a|..] ==> name !in a
  {
    if name in a {
      var i :| 0 <= i < |a| && a[i] == name;
      assert b[i] == name && Take(b, 5)[i] == name;
    }
  }

  lemma TakeIsFront(l: seq<string>, name: string)
    ensures name in Take(l, 5) ==> name in l
  {}

  /** Using a name, with `list` the front of `recent`: the new list is the front of the new
      order, and the others on it are those of the old list that are still in the first five. */
  lemma UseKeepsFront(list: seq<string>, recent: seq<string>, name: string, other: string)
    requires list <= recent && NoDuplicates(recent) && |list| <= 5
    ensures var list', recent' := Take([name] + Without(list, name), 5), [name] + Without(recent, name);
            && list' <= recent' && NoDuplicates(recent') && |list'| <= 5
            && name in list' && name in Take(recent', 5)
            && (other != name ==> (other in list' <==> other in list && other in Take(recent', 5)))
  {
    WithoutOfPrefix(list, recent, name);
    WithoutKeeps(list, name);
    WithoutKeeps(recent, name);
    WithoutNoDuplicates(recent, name);
    FrontNoDuplicates(name, Without(recent, name));
    var front, recent' := [name] + Without(list, name), [name] + Without(recent, name);
    assert front <= recent';
    assert Take(front, 5)[0] == name && Take(recent', 5)[0] == name;
    InPrefix(Take(front, 5), recent', other);
    if other != name && other in list && other in Take(recent', 5) {
      var i :| 0 <= i < |Take(recent', 5)| && Take(recent', 5)[i] == other;
      assert other in front by { assert other in Without(list, name); }
      var j :| 0 <= j < |front| && front[j] == other;
      assert recent'[i] == recent'[j];
      assert Take(front, 5)[j] == other;
    }
  }

  lemma DropKeepsFront(list: seq<string>, recent: seq<string>, name: string, other: string)
    requires list <= recent && NoDuplicates(recent) && |list| <= 5
    ensures var list', recent' := Without(list, name), Without(recent, name);
            && list' <= recent' && NoDuplicates(recent') && |list'| <= 5
            && (other in list' <==> other in list && other in Take(recent', 5))
  {
    WithoutOfPrefix(list, recent, name);
    WithoutKeeps(list, name);
    WithoutKeeps(recent, name);
    WithoutNoDuplicates(recent, name);
    InPrefix(Without(list, name), Without(recent, name), other);
    TakeIsFront(Without(recent, name), other);
  }

  /** What a step that evicts without failing does to the list. */
  lemma StepList(c: Cache, op: Op)
    requires NoDuplicates(c.list) && |c.list| <= 5 && !FailsToEvict(c, op)
    ensures Next(c, op).list
         == if Uses(c.dirs, op) then Take([op.name] + Without(c.list, op.name), 5)
            else if Drops(c.dirs, op) then Without(c.list, op.name)
            else c.list
  {
    match op {
      case Create(name, w) =>
        if Uses(c.dirs, op) { TouchedList(c.(dirs := Prepared(c.dirs, name, w)), name, w.removed); }
      case Exists(name, w) => if Uses(c.dirs, op) { TouchedList(c, name, w.removed); }
      case Delete(_, _) =>
    }
  }

  /** Over any operations whose evictions do not fail: the list is the front of all names by last
      use, and a name is on it exactly if it has been among the first five ever since its last
      use. */
  lemma {:induction false} ListIsByLastUse(ops: seq<Op>, name: string)
    requires FailedEvictions(EMPTY, ops) == 0
    ensures var list := Run(EMPTY, ops).list;
            && list <= ByLastUse(ops) && NoDuplicates(ByLastUse(ops)) && |list| <= 5
            && (name in list <==> StaysInFive(ops, name))
    decreases |ops|
  {
    hide Next, Take, Without, Uses, Drops, FailsToEvict, NoDuplicates;
    if ops == [] {
      NothingUsed();
    } else {
      var before, op := ops[..|ops| - 1], ops[|ops| - 1];
      ListIsByLastUse(before, name);
      var c, recent := Run(EMPTY, before), ByLastUse(before);
      PrefixNoDuplicates(c.list, recent);
      StepList(c, op);
      if Uses(c.dirs, op) {
        UseKeepsFront(c.list, recent, op.name, name);
      } else if Drops(c.dirs, op) {
        DropKeepsFront(c.list, recent, op.name, name);
      } else {
        InPrefix(c.list, recent, name);
      }
    }
  }

  lemma NothingUsed()
    ensures NoDuplicates<string>([])
  {}

  ghost predicate NoDeletes(ops: seq<Op>) {
    forall i | 0 <= i < |ops| :: !ops[i].Delete?
  }

  /** Without deletes the list simply is the first five names by last use. */
  lemma {:induction false} FirstFiveByLastUse(ops: seq<Op>)
    requires FailedEvictions(EMPTY, ops) == 0 && NoDeletes(ops)
    ensures Run(EMPTY, ops).list == Take(ByLastUse(ops), 5)
    decreases |ops|
  {
    hide Next, Take, Without, Uses, FailsToEvict, NoDuplicates;
    if ops == [] {
      TakeNothing();
    } else {
      var before, op := ops[..|ops| - 1], ops[|ops| - 1];
      FirstFiveByLastUse(before);
      ListIsByLastUse(before, op.name);
      var c, recent := Run(EMPTY, before), ByLastUse(before);
      PrefixNoDuplicates(c.list, recent);
      StepList(c, op);
      if Uses(c.dirs, op) { TakeAgain(recent, op.name); }
    }
  }

  lemma TakeNothing()
    ensures Take([], 5) == []
  {}

  lemma TakeAgain(recent: seq<string>, name: string)
    requires NoDuplicates(recent)
    ensures Take([name] + Without(Take(recent, 5), name), 5) == Take([name] + Without(recent, name), 5)
  {
    hide Without;
    TakeWithout(recent, name, 4);
    TakeCons(name, Without(Take(recent, 5), name), 4);
    TakeCons(name, Without(recent, name), 4);
  }

  lemma TouchCosts(c: Cache, name: string, removed: bool)
    requires Agrees(c)
    ensures forall d | d in c.dirs && d !in Touched(c, name, removed).dirs ::
              var l := MovedToFront(c.list, name); d == l[|l| - 1] && d != name
  {
    TouchedAgrees(c, name, removed);
  }

  /** What one operation does to the directories: it adds nothing but what a `create` makes, the
      name itself only with every part of it done, and costs nothing but what a `delete` names,
      old staging, and the directory of the name used longest ago. */
  lemma OnlyTheseDirectories(c: Cache, op: Op, d: string)
    requires Agrees(c) && Plain(op.name)
    ensures var dirs := Next(c, op).dirs;
            && (d in dirs && d !in c.dirs ==>
                  && op.Create? && op.w.stagingCreated
                  && (d == op.name + ".staging"
                      || (d == op.name && op.w.created && exists k: nat :: k <= 20 && op.w.renames(k))))
            && (d in c.dirs && d !in dirs ==>
                  || (op.Delete? && d == op.name && op.w.removed)
                  || (op.Create? && d == op.name + ".staging")
                  || (Uses(c.dirs, op)
                      && var l := MovedToFront(c.list, op.name); 5 < |l| && d == l[|l| - 1] && d != op.name))
  {
    hide MovedToFront, Renamed, Plain;
    match op {
      case Create(name, w) =>
        StagingIsNotPlain(name);
        RenamedFrom(w.renames, 0);
        var c1 := c.(dirs := Prepared(c.dirs, name, w));
        assert Agrees(c1);
        TouchCosts(c1, name, w.removed);
        TouchAddsNothing(c1, name, w.removed);
      case Exists(name, w) =>
        TouchCosts(c, name, w.removed);
        TouchAddsNothing(c, name, w.removed);
      case Delete(_, _) =>
    }
  }

  /** A create that fails before its touch leaves the list alone, and of its staging directory what
      could not be removed or was made. */
  lemma FailedCreateLeaves(c: Cache, name: string, w: World)
    requires name !in c.dirs
    ensures !w.stagingCreated ==>
              Next(c, Create(name, w))
              == Cache(if w.stagingRemoved then c.dirs - {name + ".staging"} else c.dirs, c.list)
    ensures w.stagingCreated && !w.created ==>
              Next(c, Create(name, w)) == Cache(c.dirs + {name + ".staging"}, c.list)
  {
    assert c.dirs - {Staging(name)} + {Staging(name)} == c.dirs + {Staging(name)};
  }

  lemma TouchAddsNothing(c: Cache, name: string, removed: bool)
    ensures Touched(c, name, removed).dirs <= c.dirs
    ensures Touched(c, name, removed).dirs != c.dirs ==> 5 < |MovedToFront(c.list, name)|
  {}

  function FileAfterRun(ops: seq<Op>): Option<seq<string>> {
    if ops == [] then None
    else
      var before := ops[..|ops| - 1];
      FileAfter(FileAfterRun(before), Run(EMPTY, before), ops[|ops| - 1])
  }

  /** What a new process finds: the directories, and the list its state file holds. */
  function Restarted(ops: seq<Op>): Cache {
    Cache(Run(EMPTY, ops).dirs, if FileAfterRun(ops).Some? then FileAfterRun(ops).value else [])
  }

  /** The last operation of a run that came to save the list. */
  function LastSave(ops: seq<Op>): (k: Option<nat>)
    ensures k.Some? ==> k.value < |ops|
  {
    if ops == [] then None
    else
      var before := ops[..|ops| - 1];
      if Saves(Run(EMPTY, before), ops[|ops| - 1]) then Some(|ops| - 1) else LastSave(before)
  }

  /** The file holds what the last save wrote or left behind, and memory what it meant to write. */
  lemma {:induction false} LastSaveDecides(ops: seq<Op>)
    ensures match LastSave(ops)
            case None => FileAfterRun(ops) == None && Run(EMPTY, ops).list == []
            case Some(k) =>
              FileAfterRun(ops) == if ops[k].w.written then Some(Run(EMPTY, ops).list) else ops[k].w.leftover
    decreases |ops|
  {
    hide Saves, Next;
    if ops != [] {
      var before, op := ops[..|ops| - 1], ops[|ops| - 1];
      LastSaveDecides(before);
      if !Saves(Run(EMPTY, before), op) { UnsavedListStays(Run(EMPTY, before), op); }
    }
  }

  /** The same run, but with `leftover` in the file if the write of operation `k` fails. */
  function Leaving(ops: seq<Op>, k: nat, leftover: Option<seq<string>>): seq<Op>
    requires k < |ops|
  {
    ops[k := ops[k].(w := ops[k].w.(leftover := leftover))]
  }

  lemma LeftoverStaysInFile(c: Cache, op: Op, leftover: Option<seq<string>>)
    ensures var op' := op.(w := op.w.(leftover := leftover));
            Next(c, op') == Next(c, op) && (Saves(c, op') <==> Saves(c, op))
  {}

  lemma {:induction false} LeavingKeepsRun(ops: seq<Op>, k: nat, leftover: Option<seq<string>>)
    requires k < |ops|
    ensures Run(EMPTY, Leaving(ops, k, leftover)) == Run(EMPTY, ops)
    ensures LastSave(Leaving(ops, k, leftover)) == LastSave(ops)
    decreases |ops|
  {
    hide Saves, Next;
    var before, op, ops' := ops[..|ops| - 1], ops[|ops| - 1], Leaving(ops, k, leftover);
    if k < |before| {
      assert ops'[..|ops'| - 1] == Leaving(before, k, leftover);
      LeavingKeepsRun(before, k, leftover);
    } else {
      assert ops'[..|ops'| - 1] == before;
      LeftoverStaysInFile(Run(EMPTY, before), op, leftover);
    }
  }

  /** A new process finds the cache as it was, when `leftover` is what the last save leaves in
      the file if it fails. */
  predicate RestartFinds(ops: seq<Op>, leftover: Option<seq<string>>) {
    match LastSave(ops)
    case None => Restarted(ops) == Run(EMPTY, ops)
    case Some(k) => Restarted(Leaving(ops, k, leftover)) == Run(EMPTY, ops)
  }

  /** No operation came to save the list, or the last one that did wrote the file. */
  predicate LastSaveWrote(ops: seq<Op>) {
    LastSave(ops).Some? ==> ops[LastSave(ops).value].w.written
  }

  lemma FoundIfWritten(ops: seq<Op>, leftover: Option<seq<string>>)
    ensures RestartFinds(ops, leftover)
       <==> LastSaveWrote(ops) || (if leftover.Some? then leftover.value else []) == Run(EMPTY, ops).list
  {
    hide Run, Saves, FileAfterRun, LastSave;
    LastSaveDecides(ops);
    if LastSave(ops).Some? {
      LeavingKeepsRun(ops, LastSave(ops).value, leftover);
      LastSaveDecides(Leaving(ops, LastSave(ops).value, leftover));
    }
  }

  /** A restart finds the cache as it was, whatever a failed write leaves in the file, exactly if
      the last operation that saved, if there was one, wrote the file; list and directories
      then agree. */
  lemma RestartAgrees(ops: seq<Op>)
    requires PlainNames(ops)
    ensures (forall leftover :: RestartFinds(ops, leftover)) <==> LastSaveWrote(ops)
    ensures LastSaveWrote(ops) ==> Restarted(ops) == Run(EMPTY, ops) && Agrees(Restarted(ops))
  {
    hide Run, Saves, FileAfterRun, LastSave, RestartFinds;
    RunAgrees(ops);
    LastSaveDecides(ops);
    FoundIfWritten(ops, Some(Run(EMPTY, ops).list + ["x"]));
    forall leftover | LastSaveWrote(ops) ensures RestartFinds(ops, leftover) { FoundIfWritten(ops, leftover); }
  }

  lemma UnsavedListStays(c: Cache, op: Op)
    requires !Saves(c, op)
    ensures Next(c, op).list == c.list
  {}

  /** One failed write can lose that agreement: the created directory is then in no list. */
  lemma FailedWriteLosesAgreement(name: string, w: World)
    requires Plain(name) && w.stagingCreated && w.created && Renamed(w.renames, 0)
    requires !w.written && w.leftover == None
    ensures name in Restarted([Create(name, w)]).dirs && !Agrees(Restarted([Create(name, w)]))
  {
    var ops := [Create(name, w)];
    assert ops[..0] == [];
    StagingIsNotPlain(name);
  }

  lemma {:induction false} FewerThanListed(names: set<string>, l: seq<string>)
    requires forall d | d in names :: d in l
    ensures |names| <= |l|
    decreases |l|
  {
    if l == [] {
      assert names == {};
    } else {
      var others := names - {l[0]};
      assert forall d | d in others :: d in l[1..];
      FewerThanListed(others, l[1..]);
    }
  }

  /** A delete that is held up changes nothing; any other forgets the directory and the name, and
      nothing else. */
  lemma DeleteForgets(c: Cache, name: string, w: World)
    ensures name in c.dirs && !w.removed ==> Next(c, Delete(name, w)) == c
    ensures (name in c.dirs ==> w.removed) ==>
            var c' := Next(c, Delete(name, w));
            && name !in c'.dirs && name !in c'.list
            && (forall d | d != name :: (d in c'.dirs <==> d in c.dirs) && (d in c'.list <==> d in c.list))
  {
    WithoutKeeps(c.list, name);
  }

  /** A successful create leaves the directory, marked as used, and no staging directory; the
      only other directory it can cost is that of the name used longest ago. */
  lemma CreateInstalls(c: Cache, name: string, w: World)
    requires Agrees(c) && Plain(name) && name !in c.dirs
    requires w.stagingCreated && w.created && Renamed(w.renames, 0)
    ensures var c' := Next(c, Create(name, w));
            && name in c'.dirs && c'.list != [] && c'.list[0] == name && Staging(name) !in c'.dirs
            && (forall d | d in c.dirs && d != Staging(name) && d !in c'.dirs ::
                  var l := MovedToFront(c.list, name); d == l[|l| - 1] && d != name)
  {
    hide Touched, MovedToFront, Renamed, Plain;
    StagingIsNotPlain(name);
    var c1 := c.(dirs := Prepared(c.dirs, name, w));
    assert Agrees(c1);
    TouchedAgrees(c1, name, w.removed);
    TouchCosts(c1, name, w.removed);
  }

  /** A touch puts its name in front and never evicts it. */
  lemma TouchedNameStays(ops: seq<Op>, name: string, removed: bool)
    requires PlainNames(ops)
    ensures var c := Run(EMPTY, ops);
            var c' := Touched(c, name, removed);
            c'.list != [] && c'.list[0] == name && (name in c.dirs ==> name in c'.dirs)
  {
    CacheAgrees(ops);
    TouchedAgrees(Run(EMPTY, ops), name, removed);
  }
}
