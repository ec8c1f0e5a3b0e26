/** Cycle-safe stringifying (src/bootstrap-fork.ts, 21-75): JSON.stringify's walk over an
    object graph (section 25.5.2 of ECMA-262) with a replacer that keeps a `seen` list. */
module SafeToString {
  import opened Common

  type Id = nat

  /** A property value: what stringifies to a text of its own, nothing (undefined, a
      function), what cannot be serialized (a BigInt), or a plain object or array. */
  datatype Value = Leaf(text: string) | Undefined | Unserializable | Ref(id: Id)

  datatype Property = Property(key: string, value: Value)

  datatype Node = Node(isArray: bool, properties: seq<Property>)

  type Graph = map<Id, Node>

  predicate Closed(g: Graph) {
    forall n, i | n in g && 0 <= i < |g[n].properties| && g[n].properties[i].value.Ref? ::
      g[n].properties[i].value.id in g
  }

  predicate Known(g: Graph, v: Value) {
    v.Ref? ==> v.id in g
  }

  /** The output; an expanded object remembers which node it shows. */
  datatype Json = Text(text: string) | Null | Circular | Expanded(id: Id, isArray: bool, entries: seq<Entry>)

  datatype Entry = Entry(key: string, json: Json)

  /** Result of visiting one value: None inside is a value that yields no output. */
  datatype Visited<T> = Threw | Went(out: T, seen: seq<Id>)

  function UnseenNodes(g: Graph, seen: seq<Id>): set<Id> {
    set n | n in g && n !in seen
  }

  function Unseen(g: Graph, seen: seq<Id>): nat {
    |UnseenNodes(g, seen)|
  }

  lemma FewerUnseen(g: Graph, seen: seq<Id>, later: seq<Id>)
    requires seen <= later
    ensures Unseen(g, later) <= Unseen(g, seen)
    ensures forall n | n in g && n !in seen && n in later :: Unseen(g, later) < Unseen(g, seen)
  {
    var a, b := UnseenNodes(g, seen), UnseenNodes(g, later);
    assert forall i | 0 <= i < |seen| :: seen[i] == later[i];
    assert b <= a;
    SubsetSize(b, a);
    forall n | n in g && n !in seen && n in later ensures |b| < |a| {
      SubsetSize(b, a - {n});
    }
  }

  lemma {:induction false} SubsetSize(a: set<Id>, b: set<Id>)
    requires a <= b
    ensures |a| <= |b|
    decreases a
  {
    if a != {} {
      var x :| x in a;
      SubsetSize(a - {x}, b - {x});
    }
  }

  // ---- The walk ----

  function Visit(g: Graph, v: Value, seen: seq<Id>): (r: Visited<Option<Json>>)
    requires Closed(g) && Known(g, v)
    ensures r.Went? ==> seen <= r.seen
    decreases Unseen(g, seen), 0
  {
    match v
    case Leaf(text) => Went(Some(Text(text)), seen)
    case Undefined => Went(None, seen)
    case Unserializable => Threw
    case Ref(n) =>
      if n in seen then Went(Some(Circular), seen)
      else
        FewerUnseen(g, seen, seen + [n]);
        match VisitAll(g, g[n].isArray, g[n].properties, seen + [n])
        case Threw => Threw
        case Went(entries, seen') => Went(Some(Expanded(n, g[n].isArray, entries)), seen')
  }

  function VisitAll(g: Graph, isArray: bool, ps: seq<Property>, seen: seq<Id>): (r: Visited<seq<Entry>>)
    requires Closed(g) && forall i | 0 <= i < |ps| :: Known(g, ps[i].value)
    ensures r.Went? ==> seen <= r.seen
    decreases Unseen(g, seen), 1 + |ps|
  {
    if ps == [] then Went([], seen)
    else match Visit(g, ps[0].value, seen)
      case Threw => Threw
      case Went(json, seen1) =>
        FewerUnseen(g, seen, seen1);
        After(Shown(isArray, ps[0].key, json), VisitAll(g, isArray, ps[1..], seen1))
  }

  /** `entries` in front of what the remaining properties show. */
  function After(entries: seq<Entry>, rest: Visited<seq<Entry>>): Visited<seq<Entry>> {
    match rest
    case Threw => Threw
    case Went(more, seen) => Went(entries + more, seen)
  }

  lemma AfterNothing(rest: Visited<seq<Entry>>)
    ensures After([], rest) == rest
  {
    if rest.Went? { assert [] + rest.out == rest.out; }
  }

  lemma AfterBoth(a: seq<Entry>, b: seq<Entry>, rest: Visited<seq<Entry>>)
    ensures After(a + b, rest) == After(a, After(b, rest))
  {
    if rest.Went? { assert a + b + rest.out == a + (b + rest.out); }
  }

  /** A value without output is left out of an object and null in an array. */
  function Shown(isArray: bool, key: string, json: Option<Json>): seq<Entry> {
    match json
    case Some(j) => [Entry(key, j)]
    case None => if isArray then [Entry(key, Null)] else []
  }

  class Stringifier {
    const g: Graph
    var seen: seq<Id>

    constructor (g: Graph)
      ensures this.g == g && seen == []
    {
      this.g, seen := g, [];
    }

    /** The replacer on one value, then the value's own properties. */
    method VisitValue(v: Value) returns (r: Visited<Option<Json>>)
      requires Closed(g) && Known(g, v)
      modifies this
      ensures r == Visit(g, v, old(seen))
      ensures r.Went? ==> seen == r.seen
      decreases Unseen(g, seen), 0
    {
      match v {
        case Leaf(text) => r := Went(Some(Text(text)), seen);
        case Undefined => r := Went(None, seen);
        case Unserializable => r := Threw;
        case Ref(n) =>
          if n in seen {
            return Went(Some(Circular), seen);
          }
          FewerUnseen(g, seen, seen + [n]);
          seen := seen + [n];
          var entries := VisitProperties(g[n].isArray, g[n].properties);
          match entries {
            case Threw => r := Threw;
            case Went(es, _) => r := Went(Some(Expanded(n, g[n].isArray, es)), seen);
          }
      }
    }

    method VisitProperties(isArray: bool, ps: seq<Property>) returns (r: Visited<seq<Entry>>)
      requires Closed(g) && forall i | 0 <= i < |ps| :: Known(g, ps[i].value)
      modifies this
      ensures r == VisitAll(g, isArray, ps, old(seen))
      ensures r.Went? ==> seen == r.seen
      decreases Unseen(g, seen), 1 + |ps|
    {
      var entries: seq<Entry> := [];
      var i := 0;
      AfterNothing(VisitAll(g, isArray, ps, seen));
      while i < |ps|
        invariant 0 <= i <= |ps| && old(seen) <= seen
        invariant VisitAll(g, isArray, ps, old(seen)) == After(entries, VisitAll(g, isArray, ps[i..], seen))
      {
        FewerUnseen(g, old(seen), seen);
        assert ps[i..][1..] == ps[i + 1..];
        var json := VisitValue(ps[i].value);
        if json.Threw? {
          return Threw;
        }
        AfterBoth(entries, Shown(isArray, ps[i].key, json.out), VisitAll(g, isArray, ps[i + 1..], seen));
        entries := entries + Shown(isArray, ps[i].key, json.out);
        i := i + 1;
      }
      assert entries + [] == entries;
      return Went(entries, seen);
    }
  }

  // ---- What the walk expands ----

  /** The nodes shown in full, in order. */
  function Shows(j: Json): seq<Id> {
    if j.Expanded? then [j.id] + ShowsAll(j.entries) else []
  }

  function ShowsAll(entries: seq<Entry>): seq<Id> {
    if entries == [] then [] else Shows(entries[0].json) + ShowsAll(entries[1..])
  }

  function ShowsOf(json: Option<Json>): seq<Id> {
    if json.Some? then Shows(json.value) else []
  }

  lemma ShownShows(isArray: bool, key: string, json: Option<Json>, rest: seq<Entry>)
    ensures ShowsAll(Shown(isArray, key, json) + rest) == ShowsOf(json) + ShowsAll(rest)
  {
    var all := Shown(isArray, key, json) + rest;
    if json.None? && !isArray {
      assert all == rest;
    } else {
      assert all[1..] == rest;
    }
  }

  /** `seen` grows by exactly the nodes shown in full. */
  lemma {:induction false} VisitShows(g: Graph, v: Value, seen: seq<Id>)
    requires Closed(g) && Known(g, v)
    ensures var r := Visit(g, v, seen); r.Went? ==> r.seen == seen + ShowsOf(r.out)
    decreases Unseen(g, seen), 0
  {
    hide VisitAll, UnseenNodes, ShowsAll;
    assert seen + [] == seen;
    if v.Ref? && v.id !in seen {
      FewerUnseen(g, seen, seen + [v.id]);
      VisitAllShows(g, g[v.id].isArray, g[v.id].properties, seen + [v.id]);
      var r := VisitAll(g, g[v.id].isArray, g[v.id].properties, seen + [v.id]);
      if r.Went? { assert seen + [v.id] + ShowsAll(r.out) == seen + ([v.id] + ShowsAll(r.out)); }
    }
  }

  lemma {:induction false} VisitAllShows(g: Graph, isArray: bool, ps: seq<Property>, seen: seq<Id>)
    requires Closed(g) && forall i | 0 <= i < |ps| :: Known(g, ps[i].value)
    ensures var r := VisitAll(g, isArray, ps, seen); r.Went? ==> r.seen == seen + ShowsAll(r.out)
    decreases Unseen(g, seen), 1 + |ps|
  {
    hide Shown, ShowsOf, UnseenNodes, Visit;
    if ps != [] {
      VisitShows(g, ps[0].value, seen);
      var first := Visit(g, ps[0].value, seen);
      if first.Went? {
        FewerUnseen(g, seen, first.seen);
        VisitAllShows(g, isArray, ps[1..], first.seen);
        var rest := VisitAll(g, isArray, ps[1..], first.seen);
        if rest.Went? {
          ShownShows(isArray, ps[0].key, first.out, rest.out);
          assert seen + (ShowsOf(first.out) + ShowsAll(rest.out)) == first.seen + ShowsAll(rest.out);
        }
      }
    }
  }

  /** Nodes enter `seen` once. */
  lemma {:induction false} VisitOnce(g: Graph, v: Value, seen: seq<Id>)
    requires Closed(g) && Known(g, v) && NoDuplicates(seen)
    ensures var r := Visit(g, v, seen); r.Went? ==> NoDuplicates(r.seen)
    decreases Unseen(g, seen), 0
  {
    if v.Ref? && v.id !in seen {
      FewerUnseen(g, seen, seen + [v.id]);
      VisitAllOnce(g, g[v.id].isArray, g[v.id].properties, seen + [v.id]);
    }
  }

  lemma {:induction false} VisitAllOnce(g: Graph, isArray: bool, ps: seq<Property>, seen: seq<Id>)
    requires Closed(g) && NoDuplicates(seen) && forall i | 0 <= i < |ps| :: Known(g, ps[i].value)
    ensures var r := VisitAll(g, isArray, ps, seen); r.Went? ==> NoDuplicates(r.seen)
    decreases Unseen(g, seen), 1 + |ps|
  {
    if ps != [] {
      VisitOnce(g, ps[0].value, seen);
      var first := Visit(g, ps[0].value, seen);
      if first.Went? {
        FewerUnseen(g, seen, first.seen);
        VisitAllOnce(g, isArray, ps[1..], first.seen);
      }
    }
  }

  // ---- Reachability ----

  predicate Edge(g: Graph, a: Id, b: Id) {
    a in g && exists i :: 0 <= i < |g[a].properties| && g[a].properties[i].value == Ref(b)
  }

  predicate Path(g: Graph, path: seq<Id>) {
    path != [] && forall i | 0 <= i < |path| - 1 :: Edge(g, path[i], path[i + 1])
  }

  ghost predicate Connects(g: Graph, path: seq<Id>, a: Id, b: Id) {
    Path(g, path) && path[0] == a && path[|path| - 1] == b
  }

  ghost predicate Reaches(g: Graph, a: Id, b: Id) {
    exists path :: Connects(g, path, a, b)
  }

  lemma ReachesItself(g: Graph, a: Id)
    ensures Reaches(g, a, a)
  {
    assert Connects(g, [a], a, a);
  }

  lemma ReachesAfterEdge(g: Graph, a: Id, b: Id, c: Id)
    requires Edge(g, a, b) && Reaches(g, b, c)
    ensures Reaches(g, a, c)
  {
    var path :| Connects(g, path, b, c);
    var longer := [a] + path;
    forall i | 0 <= i < |longer| - 1 ensures Edge(g, longer[i], longer[i + 1]) {
      if i > 0 { assert longer[i] == path[i - 1] && longer[i + 1] == path[i]; }
    }
    assert Connects(g, longer, a, c);
  }

  /** Reachable from a value. */
  ghost predicate ReachedBy(g: Graph, v: Value, n: Id) {
    v.Ref? && Reaches(g, v.id, n)
  }

  /** A node with a property that cannot be serialized. */
  predicate Spoiled(g: Graph, n: Id) {
    n in g && exists i :: 0 <= i < |g[n].properties| && g[n].properties[i].value.Unserializable?
  }

  /** Everything added to `seen` is reachable; if the walk throws, so is a spoiled node. */
  lemma {:induction false} VisitReaches(g: Graph, v: Value, seen: seq<Id>)
    requires Closed(g) && Known(g, v)
    ensures var r := Visit(g, v, seen);
            if r.Went? then forall n | n in r.seen :: n in seen || ReachedBy(g, v, n)
            else v.Unserializable? || exists n :: ReachedBy(g, v, n) && Spoiled(g, n)
    decreases Unseen(g, seen), 0
  {
    if v.Ref? && v.id !in seen {
      var ps := g[v.id].properties;
      FewerUnseen(g, seen, seen + [v.id]);
      ReachesItself(g, v.id);
      VisitAllReaches(g, g[v.id].isArray, ps, seen + [v.id]);
      var r := VisitAll(g, g[v.id].isArray, ps, seen + [v.id]);
      forall n, i | 0 <= i < |ps| && ReachedBy(g, ps[i].value, n) ensures ReachedBy(g, v, n) {
        assert Edge(g, v.id, ps[i].value.id);
        ReachesAfterEdge(g, v.id, ps[i].value.id, n);
      }
      if r.Threw? && exists i :: 0 <= i < |ps| && ps[i].value.Unserializable? { assert Spoiled(g, v.id); }
    }
  }

  lemma {:induction false} VisitAllReaches(g: Graph, isArray: bool, ps: seq<Property>, seen: seq<Id>)
    requires Closed(g) && forall i | 0 <= i < |ps| :: Known(g, ps[i].value)
    ensures var r := VisitAll(g, isArray, ps, seen);
            if r.Went?
            then forall n | n in r.seen :: n in seen || exists i :: 0 <= i < |ps| && ReachedBy(g, ps[i].value, n)
            else exists i :: 0 <= i < |ps| &&
                   (ps[i].value.Unserializable? || exists n :: ReachedBy(g, ps[i].value, n) && Spoiled(g, n))
    decreases Unseen(g, seen), 1 + |ps|
  {
    if ps != [] {
      VisitReaches(g, ps[0].value, seen);
      var first := Visit(g, ps[0].value, seen);
      if first.Went? {
        FewerUnseen(g, seen, first.seen);
        VisitAllReaches(g, isArray, ps[1..], first.seen);
        assert forall i | 0 <= i < |ps| - 1 :: ps[1..][i] == ps[i + 1];
      }
    }
  }

  /** Every node added to `seen` has all its children in `seen`, and is not spoiled. */
  ghost predicate DoneSince(g: Graph, before: seq<Id>, seen: seq<Id>) {
    forall n | n in seen && n !in before ::
      n in g && !Spoiled(g, n) && forall m | Edge(g, n, m) :: m in seen
  }

  lemma {:induction false} VisitCloses(g: Graph, v: Value, seen: seq<Id>)
    requires Closed(g) && Known(g, v)
    ensures var r := Visit(g, v, seen);
            r.Went? ==> !v.Unserializable? && DoneSince(g, seen, r.seen) && (v.Ref? ==> v.id in r.seen)
    decreases Unseen(g, seen), 0
  {
    if v.Ref? && v.id !in seen {
      var ps := g[v.id].properties;
      FewerUnseen(g, seen, seen + [v.id]);
      VisitAllCloses(g, g[v.id].isArray, ps, seen + [v.id]);
      var r := VisitAll(g, g[v.id].isArray, ps, seen + [v.id]);
      if r.Went? {
        assert v.id in seen + [v.id];
        assert forall i | 0 <= i < |seen + [v.id]| :: r.seen[i] == (seen + [v.id])[i];
      }
    }
  }

  lemma {:induction false} VisitAllCloses(g: Graph, isArray: bool, ps: seq<Property>, seen: seq<Id>)
    requires Closed(g) && forall i | 0 <= i < |ps| :: Known(g, ps[i].value)
    ensures var r := VisitAll(g, isArray, ps, seen);
            && (r.Went? ==> DoneSince(g, seen, r.seen))
            && (r.Went? ==> forall i | 0 <= i < |ps| ::
                  !ps[i].value.Unserializable? && (ps[i].value.Ref? ==> ps[i].value.id in r.seen))
    decreases Unseen(g, seen), 1 + |ps|
  {
    if ps != [] {
      VisitCloses(g, ps[0].value, seen);
      var first := Visit(g, ps[0].value, seen);
      if first.Went? {
        FewerUnseen(g, seen, first.seen);
        VisitAllCloses(g, isArray, ps[1..], first.seen);
        var r := VisitAll(g, isArray, ps[1..], first.seen);
        if r.Went? {
          assert forall i | 0 <= i < |first.seen| :: r.seen[i] == first.seen[i];
          assert forall i | 0 <= i < |ps| - 1 :: ps[1..][i] == ps[i + 1];
        }
      }
    }
  }

  /** A path from a finished set never leaves it. */
  lemma {:induction false} PathStays(g: Graph, seen: seq<Id>, path: seq<Id>, k: nat)
    requires DoneSince(g, [], seen) && Path(g, path) && path[0] in seen && k < |path|
    ensures path[k] in seen
  {
    if k > 0 {
      PathStays(g, seen, path, k - 1);
      assert Edge(g, path[k - 1], path[k]);
    }
  }

  // ---- Main results ----

  /** From an object and an empty `seen`, whatever the graph's cycles and sharing: the walk
      fails exactly when some reachable object has a property that cannot be serialized, and
      otherwise shows each reachable object in full exactly once. */
  lemma EachReachableOnce(g: Graph, root: Id)
    requires Closed(g) && root in g
    ensures var r := Visit(g, Ref(root), []);
            && (r.Threw? <==> exists n :: Reaches(g, root, n) && Spoiled(g, n))
            && (r.Went? ==>
                  && r.out.Some? && NoDuplicates(Shows(r.out.value))
                  && forall n :: n in Shows(r.out.value) <==> Reaches(g, root, n))
  {
    var r := Visit(g, Ref(root), []);
    VisitShows(g, Ref(root), []);
    VisitOnce(g, Ref(root), []);
    VisitReaches(g, Ref(root), []);
    VisitCloses(g, Ref(root), []);
    if r.Went? {
      assert [] + ShowsOf(r.out) == ShowsOf(r.out);
      forall n | Reaches(g, root, n) ensures n in r.seen {
        var path :| Connects(g, path, root, n);
        PathStays(g, r.seen, path, |path| - 1);
      }
    }
  }

  /** `j` shows `v` property by property; an object is shown in full where it comes up first
      in print order, `before` being the objects shown in full up to here, and everywhere
      else it is the circular marker. */
  predicate Depicts(g: Graph, v: Value, j: Json, before: seq<Id>)
    decreases j, 0
  {
    match v
    case Leaf(text) => j == Text(text)
    case Ref(n) =>
      if n in before then j == Circular
      else j.Expanded? && j.id == n && n in g && j.isArray == g[n].isArray
           && DepictsAll(g, g[n].isArray, g[n].properties, j.entries, before + [n])
    case _ => false
  }

  predicate DepictsAll(g: Graph, isArray: bool, ps: seq<Property>, entries: seq<Entry>, before: seq<Id>)
    decreases entries, |ps|
  {
    if ps == [] then entries == []
    else if ps[0].value.Undefined? && !isArray then DepictsAll(g, isArray, ps[1..], entries, before)
    else
      && entries != [] && entries[0].key == ps[0].key
      && (if ps[0].value.Undefined? then entries[0].json == Null
          else Depicts(g, ps[0].value, entries[0].json, before))
      && DepictsAll(g, isArray, ps[1..], entries[1..], before + Shows(entries[0].json))
  }

  /** The output depicts the graph, with the objects in `seen` counting as shown before. */
  lemma {:induction false} VisitDepicts(g: Graph, v: Value, seen: seq<Id>)
    requires Closed(g) && Known(g, v)
    ensures var r := Visit(g, v, seen);
            r.Went? ==> if v.Undefined? then r.out == None else r.out.Some? && Depicts(g, v, r.out.value, seen)
    decreases Unseen(g, seen), 0
  {
    if v.Ref? && v.id !in seen {
      FewerUnseen(g, seen, seen + [v.id]);
      VisitAllDepicts(g, g[v.id].isArray, g[v.id].properties, seen + [v.id]);
    }
  }

  lemma {:induction false} VisitAllDepicts(g: Graph, isArray: bool, ps: seq<Property>, seen: seq<Id>)
    requires Closed(g) && forall i | 0 <= i < |ps| :: Known(g, ps[i].value)
    ensures var r := VisitAll(g, isArray, ps, seen); r.Went? ==> DepictsAll(g, isArray, ps, r.out, seen)
    decreases Unseen(g, seen), 1 + |ps|
  {
    if ps != [] {
      VisitDepicts(g, ps[0].value, seen);
      VisitShows(g, ps[0].value, seen);
      var first := Visit(g, ps[0].value, seen);
      if first.Went? {
        FewerUnseen(g, seen, first.seen);
        VisitAllDepicts(g, isArray, ps[1..], first.seen);
        var rest := VisitAll(g, isArray, ps[1..], first.seen);
        if rest.Went? {
          var shown := Shown(isArray, ps[0].key, first.out);
          assert seen + [] == seen;
          if shown == [] { assert shown + rest.out == rest.out; } else { assert (shown + rest.out)[1..] == rest.out; }
        }
      }
    }
  }

  /** A graph is depicted in one way only. */
  lemma {:induction false} OneDepiction(g: Graph, v: Value, a: Json, b: Json, before: seq<Id>)
    requires Depicts(g, v, a, before) && Depicts(g, v, b, before)
    ensures a == b
    decreases a, 0
  {
    if v.Ref? && v.id !in before {
      OneDepictionOfAll(g, g[v.id].isArray, g[v.id].properties, a.entries, b.entries, before + [v.id]);
    }
  }

  lemma {:induction false} OneDepictionOfAll(g: Graph, isArray: bool, ps: seq<Property>,
                                             a: seq<Entry>, b: seq<Entry>, before: seq<Id>)
    requires DepictsAll(g, isArray, ps, a, before) && DepictsAll(g, isArray, ps, b, before)
    ensures a == b
    decreases a, |ps|
  {
    if ps != [] {
      if ps[0].value.Undefined? && !isArray {
        OneDepictionOfAll(g, isArray, ps[1..], a, b, before);
      } else {
        if !ps[0].value.Undefined? { OneDepiction(g, ps[0].value, a[0].json, b[0].json, before); }
        OneDepictionOfAll(g, isArray, ps[1..], a[1..], b[1..], before + Shows(a[0].json));
        assert a == [a[0]] + a[1..] && b == [b[0]] + b[1..];
      }
    }
  }

  // ---- safeToString ----

  /** An argument: undefined, an error with its stack and its text, or any other value. */
  datatype Arg = Missing | ErrorObject(stack: string, text: string) | Plain(value: Value)

  function Massaged(arg: Arg): Value {
    match arg
    case Missing => Leaf("undefined")
    case ErrorObject(stack, text) => Leaf(if stack != "" then stack else text)
    case Plain(value) => value
  }

  const MAX_LENGTH: nat := 100000

  datatype Output = Printed(json: Json) | TooLarge | NotInspectable

  predicate ArgsKnown(g: Graph, args: seq<Arg>) {
    forall i | 0 <= i < |args| :: Known(g, Massaged(args[i]))
  }

  function Arguments(args: seq<Arg>): Node {
    Node(true, seq(|args|, i requires 0 <= i < |args| => Property("", Massaged(args[i]))))
  }

  /** The graph with the new array of arguments in it. */
  function WithArguments(g: Graph, args: seq<Arg>, argsArray: Id): Graph {
    g[argsArray := Arguments(args)]
  }

  /** How an argument is shown: a missing one as the word, an error as its stack, or as its text if
      it has no stack, and another value like a property of an array. */
  predicate ShowsArgument(arg: Arg, j: Json) {
    match arg
    case Missing => j == Text("undefined")
    case ErrorObject(stack, text) => j == Text(if |stack| > 0 then stack else text)
    case Plain(value) =>
      match value
      case Leaf(text) => j == Text(text)
      case Undefined => j == Null
      case Unserializable => false
      case Ref(n) => j == Circular || (j.Expanded? && j.id == n)
  }

  /** The arguments are shown one by one, in order. */
  predicate ShowsArguments(args: seq<Arg>, j: Json) {
    && j.Expanded? && j.isArray && |j.entries| == |args|
    && forall i | 0 <= i < |args| :: ShowsArgument(args[i], j.entries[i].json)
  }

  lemma {:induction false} EntriesShowArguments(g: Graph, args: seq<Arg>, entries: seq<Entry>, before: seq<Id>)
    requires DepictsAll(g, true, Arguments(args).properties, entries, before)
    ensures |entries| == |args| && forall i | 0 <= i < |args| :: ShowsArgument(args[i], entries[i].json)
  {
    if args != [] {
      assert Arguments(args).properties[1..] == Arguments(args[1..]).properties;
      EntriesShowArguments(g, args[1..], entries[1..], before + Shows(entries[0].json));
      assert forall i | 0 < i < |args| :: args[i] == args[1..][i - 1] && entries[i] == entries[1..][i - 1];
    }
  }

  lemma DepictsArguments(g: Graph, args: seq<Arg>, argsArray: Id, j: Json)
    requires Depicts(WithArguments(g, args, argsArray), Ref(argsArray), j, [])
    ensures ShowsArguments(args, j)
  {
    EntriesShowArguments(WithArguments(g, args, argsArray), args, j.entries, [] + [argsArray]);
  }

  /** `length` is the length of the text a result is written as. */
  method SafeToString(g: Graph, args: seq<Arg>, argsArray: Id, length: Json -> nat) returns (r: Output)
    requires Closed(g) && ArgsKnown(g, args) && argsArray !in g
    ensures var all := WithArguments(g, args, argsArray);
            Closed(all) &&
            match r
            case NotInspectable => exists n :: Reaches(all, argsArray, n) && Spoiled(all, n)
            case TooLarge =>
              && (forall n :: Reaches(all, argsArray, n) ==> !Spoiled(all, n))
              && exists json :: Depicts(all, Ref(argsArray), json, []) && 100000 < length(json)
            case Printed(json) =>
              && length(json) <= 100000 && ShowsArguments(args, json)
              && Depicts(all, Ref(argsArray), json, []) && NoDuplicates(Shows(json))
              && forall n :: n in Shows(json) <==> Reaches(all, argsArray, n)
  {
    var properties: seq<Property> := [];
    for i := 0 to |args|
      invariant properties == Arguments(args[..i]).properties
    {
      var arg;
      if args[i].Missing? {
        arg := Leaf("undefined");
      } else if args[i].ErrorObject? {
        if args[i].stack != "" { arg := Leaf(args[i].stack); } else { arg := Leaf(args[i].text); }
      } else {
        arg := args[i].value;
      }
      properties := properties + [Property("", arg)];
    }
    assert args[..|args|] == args;
    var all := g[argsArray := Node(true, properties)];
    EachReachableOnce(all, argsArray);
    VisitDepicts(all, Ref(argsArray), []);
    var walk := new Stringifier(all);
    var result := walk.VisitValue(Ref(argsArray));
    match result {
      case Threw => r := NotInspectable;
      case Went(json, _) =>
        assert Depicts(all, Ref(argsArray), json.value, []);
        DepictsArguments(g, args, argsArray, json.value);
        r := if length(json.value) > MAX_LENGTH then TooLarge else Printed(json.value);
    }
  }
}
