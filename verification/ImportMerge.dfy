/** Merging duplicate imports (scripts/sync-agent-host-protocol.ts, 111-169), from lines
    already classified by the two patterns: a list of names imported from a module, with or
    without `type`, or any other text. */
module ImportMerge {
  import opened Common

  datatype Line =
    | TypeImport(names: seq<string>, mod: string)
    | ValueImport(names: seq<string>, mod: string)
    | Other(text: string)

  const PLACEHOLDER := "__IMPORT_PLACEHOLDER__"
  const TYPE_MODIFIER := "type "

  predicate StartsWith(s: string, prefix: string) {
    prefix <= s
  }

  /** The names collected for a module. */
  datatype Names = Names(typeNames: seq<string>, valueNames: seq<string>)

  function Typed(names: seq<string>): seq<string> {
    seq(|names|, i requires 0 <= i < |names| => TYPE_MODIFIER + names[i])
  }

  /** The one import written for a module. */
  function Rendered(entry: Names, mod: string): Line {
    var uniqueTypes, uniqueValues := Distinct(entry.typeNames), Distinct(entry.valueNames);
    if uniqueValues != [] && uniqueTypes != [] then ValueImport(uniqueValues + Typed(uniqueTypes), mod)
    else if uniqueValues != [] then ValueImport(uniqueValues, mod)
    else TypeImport(uniqueTypes, mod)
  }

  function TypeNamesOf(lines: seq<Line>, mod: string): seq<string> {
    if lines == [] then []
    else
      var last := lines[|lines| - 1];
      TypeNamesOf(lines[..|lines| - 1], mod) + if last.TypeImport? && last.mod == mod then last.names else []
  }

  function ValueNamesOf(lines: seq<Line>, mod: string): seq<string> {
    if lines == [] then []
    else
      var last := lines[|lines| - 1];
      ValueNamesOf(lines[..|lines| - 1], mod) + if last.ValueImport? && last.mod == mod then last.names else []
  }

  predicate Imports(lines: seq<Line>, mod: string) {
    exists i :: 0 <= i < |lines| && !lines[i].Other? && lines[i].mod == mod
  }

  function EntryFor(lines: seq<Line>, mod: string): Line {
    Rendered(Names(TypeNamesOf(lines, mod), ValueNamesOf(lines, mod)), mod)
  }

  /** A line of other text that reads like a placeholder of the algorithm's own. */
  predicate LooksLikePlaceholder(line: Line) {
    line.Other? && StartsWith(line.text, PLACEHOLDER)
  }

  /** Such a line for a module that is never imported: looking its names up fails. */
  predicate Dangling(lines: seq<Line>) {
    exists i :: 0 <= i < |lines| && LooksLikePlaceholder(lines[i]) && !Imports(lines, lines[i].text[|PLACEHOLDER|..])
  }

  /** The result for the first `k` lines. */
  function Outline(lines: seq<Line>, k: nat): seq<Line>
    requires k <= |lines|
  {
    if k == 0 then []
    else
      var line := lines[k - 1];
      Outline(lines, k - 1) +
      if LooksLikePlaceholder(line) then [EntryFor(lines, line.text[|PLACEHOLDER|..])]
      else if line.Other? then [line]
      else if Imports(lines[..k - 1], line.mod) then []
      else [EntryFor(lines, line.mod)]
  }

  function Merged(lines: seq<Line>): seq<Line> {
    Outline(lines, |lines|)
  }

  /** What the first loop leaves in `otherLines`. */
  function Skeleton(lines: seq<Line>): seq<string> {
    if lines == [] then []
    else
      var init, last := lines[..|lines| - 1], lines[|lines| - 1];
      Skeleton(init) +
      if last.Other? then [last.text]
      else if Imports(init, last.mod) then []
      else [PLACEHOLDER + last.mod]
  }

  ghost predicate Collected(importsByModule: map<string, Names>, lines: seq<Line>) {
    && (forall mod :: mod in importsByModule <==> Imports(lines, mod))
    && (forall mod | mod in importsByModule ::
          importsByModule[mod] == Names(TypeNamesOf(lines, mod), ValueNamesOf(lines, mod)))
  }

  lemma ImportsPush(lines: seq<Line>, line: Line, mod: string)
    ensures Imports(lines + [line], mod) <==> Imports(lines, mod) || (!line.Other? && line.mod == mod)
  {
    var longer := lines + [line];
    if Imports(lines, mod) {
      var i :| 0 <= i < |lines| && !lines[i].Other? && lines[i].mod == mod;
      assert longer[i] == lines[i];
    }
    assert longer[|lines|] == line;
  }

  lemma {:induction false} NotImported(lines: seq<Line>, mod: string)
    requires !Imports(lines, mod)
    ensures TypeNamesOf(lines, mod) == [] && ValueNamesOf(lines, mod) == []
  {
    if lines != [] {
      var init, last := lines[..|lines| - 1], lines[|lines| - 1];
      assert lines == init + [last];
      ImportsPush(init, last, mod);
      NotImported(init, mod);
    }
  }

  lemma CollectedPush(before: map<string, Names>, after: map<string, Names>, lines: seq<Line>, line: Line)
    requires Collected(before, lines) && !line.Other?
    requires after == before[line.mod := (
               var entry := if line.mod in before then before[line.mod] else Names([], []);
               if line.TypeImport? then entry.(typeNames := entry.typeNames + line.names)
               else entry.(valueNames := entry.valueNames + line.names))]
    ensures Collected(after, lines + [line])
  {
    hide Imports, TypeNamesOf, ValueNamesOf;
    forall mod ensures mod in after <==> Imports(lines + [line], mod) { ImportsPush(lines, line, mod); }
    forall mod | mod in after
      ensures after[mod] == Names(TypeNamesOf(lines + [line], mod), ValueNamesOf(lines + [line], mod))
    {
      NamesPush(lines, line, mod);
      if mod !in before { NotImported(lines, mod); }
    }
  }

  lemma NamesPush(lines: seq<Line>, line: Line, mod: string)
    ensures TypeNamesOf(lines + [line], mod)
         == if line.TypeImport? && line.mod == mod then TypeNamesOf(lines, mod) + line.names
            else TypeNamesOf(lines, mod)
    ensures ValueNamesOf(lines + [line], mod)
         == if line.ValueImport? && line.mod == mod then ValueNamesOf(lines, mod) + line.names
            else ValueNamesOf(lines, mod)
  {
    assert (lines + [line])[..|lines|] == lines;
    assert TypeNamesOf(lines, mod) + [] == TypeNamesOf(lines, mod);
    assert ValueNamesOf(lines, mod) + [] == ValueNamesOf(lines, mod);
  }

  lemma CollectedOther(importsByModule: map<string, Names>, lines: seq<Line>, line: Line)
    requires Collected(importsByModule, lines) && line.Other?
    ensures Collected(importsByModule, lines + [line])
  {
    hide Imports, TypeNamesOf, ValueNamesOf;
    forall mod ensures mod in importsByModule <==> Imports(lines + [line], mod) { ImportsPush(lines, line, mod); }
    forall mod | mod in importsByModule
      ensures importsByModule[mod] == Names(TypeNamesOf(lines + [line], mod), ValueNamesOf(lines + [line], mod))
    {
      NamesPush(lines, line, mod);
    }
  }

  lemma NothingCollected()
    ensures Collected(map[], [])
  {}

  /** `mergeDuplicateImports`; None stands for the error of reading a missing entry. */
  method MergeDuplicateImports(lines: seq<Line>) returns (r: Option<seq<Line>>)
    ensures r == if Dangling(lines) then None else Some(Merged(lines))
    ensures r.Some? ==> forall i | 0 <= i < |r.value| :: r.value[i].Other? || WrittenFor(lines, r.value[i])
  {
    hide Imports, TypeNamesOf, ValueNamesOf, Outline, WrittenFor;
    OutlineIsWritten(lines, |lines|);
    NothingCollected();
    var importsByModule: map<string, Names> := map[];
    var otherLines: seq<string> := [];
    var seenModules: set<string> := {};
    for i := 0 to |lines|
      invariant Collected(importsByModule, lines[..i])
      invariant seenModules == importsByModule.Keys
      invariant otherLines == Skeleton(lines[..i])
    {
      var line := lines[i];
      assert lines[..i + 1] == lines[..i] + [line];
      assert lines[..i + 1][..i] == lines[..i];
      if line.Other? {
        otherLines := otherLines + [line.text];
        CollectedOther(importsByModule, lines[..i], line);
      } else {
        ghost var before := importsByModule;
        if line.mod !in importsByModule {
          importsByModule := importsByModule[line.mod := Names([], [])];
        }
        var entry := importsByModule[line.mod];
        if line.TypeImport? {
          importsByModule := importsByModule[line.mod := entry.(typeNames := entry.typeNames + line.names)];
        } else {
          importsByModule := importsByModule[line.mod := entry.(valueNames := entry.valueNames + line.names)];
        }
        CollectedPush(before, importsByModule, lines[..i], line);
        if line.mod !in seenModules {
          seenModules := seenModules + {line.mod};
          otherLines := otherLines + [PLACEHOLDER + line.mod];
        }
      }
    }
    assert lines[..|lines|] == lines;
    RenderAllIsMerged(lines, |lines|, importsByModule);
    r := RenderAll(otherLines, importsByModule);
  }

  /** The final `map` over `otherLines`. */
  function RenderAll(otherLines: seq<string>, importsByModule: map<string, Names>): Option<seq<Line>> {
    if otherLines == [] then Some([])
    else
      var last := RenderLine(otherLines[|otherLines| - 1], importsByModule);
      match RenderAll(otherLines[..|otherLines| - 1], importsByModule)
      case None => None
      case Some(out) => if last.Some? then Some(out + [last.value]) else None
  }

  function RenderLine(text: string, importsByModule: map<string, Names>): Option<Line> {
    if !StartsWith(text, PLACEHOLDER) then Some(Other(text))
    else
      var mod := text[|PLACEHOLDER|..];
      if mod in importsByModule then Some(Rendered(importsByModule[mod], mod)) else None
  }

  lemma RenderAllPush(otherLines: seq<string>, text: string, importsByModule: map<string, Names>)
    ensures RenderAll(otherLines + [text], importsByModule)
         == var out, last := RenderAll(otherLines, importsByModule), RenderLine(text, importsByModule);
            if out.Some? && last.Some? then Some(out.value + [last.value]) else None
  {
    assert (otherLines + [text])[..|otherLines|] == otherLines;
  }

  /** A dangling placeholder among the first `k` lines. */
  predicate DanglingIn(lines: seq<Line>, k: nat)
    requires k <= |lines|
  {
    exists i :: 0 <= i < k && LooksLikePlaceholder(lines[i]) && !Imports(lines, lines[i].text[|PLACEHOLDER|..])
  }

  lemma DanglingStep(lines: seq<Line>, k: nat)
    requires 0 < k <= |lines|
    ensures DanglingIn(lines, k)
       <==> DanglingIn(lines, k - 1)
            || (LooksLikePlaceholder(lines[k - 1]) && !Imports(lines, lines[k - 1].text[|PLACEHOLDER|..]))
  {}

  lemma {:induction false} RenderAllIsMerged(lines: seq<Line>, k: nat, importsByModule: map<string, Names>)
    requires k <= |lines| && Collected(importsByModule, lines)
    ensures RenderAll(Skeleton(lines[..k]), importsByModule)
         == if DanglingIn(lines, k) then None else Some(Outline(lines, k))
  {
    hide Rendered, RenderAll, DanglingIn;
    if k == 0 {
      NothingToRender(lines, importsByModule);
    } else {
      var line, init := lines[k - 1], Skeleton(lines[..k - 1]);
      RenderAllIsMerged(lines, k - 1, importsByModule);
      DanglingStep(lines, k);
      assert lines[..k][..k - 1] == lines[..k - 1];
      if line.Other? {
        RenderAllPush(init, line.text, importsByModule);
      } else if Imports(lines[..k - 1], line.mod) {
        assert Skeleton(lines[..k]) == init && Outline(lines, k - 1) + [] == Outline(lines, k - 1);
      } else {
        assert Imports(lines, line.mod) by { assert lines[k - 1].mod == line.mod; }
        assert (PLACEHOLDER + line.mod)[|PLACEHOLDER|..] == line.mod;
        RenderAllPush(init, PLACEHOLDER + line.mod, importsByModule);
      }
    }
  }

  lemma NothingToRender(lines: seq<Line>, importsByModule: map<string, Names>)
    ensures RenderAll(Skeleton(lines[..0]), importsByModule) == Some([]) && !DanglingIn(lines, 0)
  {}

  /** Text that reads like a placeholder, alone, makes the merge fail. */
  lemma PlaceholderText(mod: string)
    ensures Dangling([Other("__IMPORT_PLACEHOLDER__" + mod)])
  {
    assert LooksLikePlaceholder([Other("__IMPORT_PLACEHOLDER__" + mod)][0]);
  }

  // ---- What merging preserves ----

  /** No line reads like a placeholder. */
  ghost predicate Clean(lines: seq<Line>) {
    forall i | 0 <= i < |lines| :: !LooksLikePlaceholder(lines[i])
  }

  datatype Kind = TypeOnly | Value

  /** What a name in a value import binds, given its possible `type` modifier. */
  predicate NameBinds(written: string, kind: Kind, name: string) {
    if StartsWith(written, TYPE_MODIFIER) then kind.TypeOnly? && name == written[|TYPE_MODIFIER|..]
    else kind.Value? && name == written
  }

  ghost predicate LineBinds(line: Line, mod: string, kind: Kind, name: string) {
    match line
    case TypeImport(names, m) => m == mod && kind.TypeOnly? && name in names
    case ValueImport(names, m) => m == mod && exists n :: n in names && NameBinds(n, kind, name)
    case Other(_) => false
  }

  ghost predicate Binds(lines: seq<Line>, mod: string, kind: Kind, name: string) {
    exists i :: 0 <= i < |lines| && LineBinds(lines[i], mod, kind, name)
  }

  lemma BindsPush(lines: seq<Line>, line: Line, mod: string, kind: Kind, name: string)
    ensures Binds(lines + [line], mod, kind, name)
       <==> Binds(lines, mod, kind, name) || LineBinds(line, mod, kind, name)
  {
    var longer := lines + [line];
    if Binds(lines, mod, kind, name) {
      var i :| 0 <= i < |lines| && LineBinds(lines[i], mod, kind, name);
      assert longer[i] == lines[i];
    }
    assert longer[|lines|] == line;
  }

  /** The collected names of a module bind what its lines bind. */
  lemma {:induction false} CollectedBinds(lines: seq<Line>, mod: string, kind: Kind, name: string)
    ensures Binds(lines, mod, kind, name)
       <==> LineBinds(TypeImport(TypeNamesOf(lines, mod), mod), mod, kind, name)
            || LineBinds(ValueImport(ValueNamesOf(lines, mod), mod), mod, kind, name)
  {
    if lines != [] {
      var init, last := lines[..|lines| - 1], lines[|lines| - 1];
      assert lines == init + [last];
      BindsPush(init, last, mod, kind, name);
      CollectedBinds(init, mod, kind, name);
      var types, values := TypeNamesOf(init, mod), ValueNamesOf(init, mod);
      if last.ValueImport? && last.mod == mod {
        ValueBindsConcat(values, last.names, mod, kind, name);
      }
    }
  }

  lemma ValueBindsConcat(a: seq<string>, b: seq<string>, mod: string, kind: Kind, name: string)
    ensures LineBinds(ValueImport(a + b, mod), mod, kind, name)
       <==> LineBinds(ValueImport(a, mod), mod, kind, name) || LineBinds(ValueImport(b, mod), mod, kind, name)
  {}

  lemma TypedBinds(names: seq<string>, mod: string, kind: Kind, name: string)
    ensures LineBinds(ValueImport(Typed(names), mod), mod, kind, name)
       <==> LineBinds(TypeImport(names, mod), mod, kind, name)
  {
    forall i | 0 <= i < |names| ensures NameBinds(Typed(names)[i], kind, name) <==> kind.TypeOnly? && name == names[i] {
      assert (TYPE_MODIFIER + names[i])[|TYPE_MODIFIER|..] == names[i];
    }
    if LineBinds(TypeImport(names, mod), mod, kind, name) {
      var i :| 0 <= i < |names| && names[i] == name;
      assert Typed(names)[i] in Typed(names);
    }
    if LineBinds(ValueImport(Typed(names), mod), mod, kind, name) {
      var n :| n in Typed(names) && NameBinds(n, kind, name);
      var i :| 0 <= i < |names| && Typed(names)[i] == n;
    }
  }

  lemma SameNamesBind(a: seq<string>, b: seq<string>, mod: string, kind: Kind, name: string)
    requires forall n :: n in a <==> n in b
    ensures LineBinds(ValueImport(a, mod), mod, kind, name) <==> LineBinds(ValueImport(b, mod), mod, kind, name)
  {}

  lemma RenderedBinds(entry: Names, mod: string, kind: Kind, name: string)
    ensures LineBinds(Rendered(entry, mod), mod, kind, name)
       <==> LineBinds(TypeImport(entry.typeNames, mod), mod, kind, name)
            || LineBinds(ValueImport(entry.valueNames, mod), mod, kind, name)
    ensures Rendered(entry, mod).mod == mod && !Rendered(entry, mod).Other?
  {
    hide Typed, Distinct, NameBinds;
    DistinctElements(entry.typeNames);
    DistinctElements(entry.valueNames);
    var types, values := Distinct(entry.typeNames), Distinct(entry.valueNames);
    SameNamesBind(values, entry.valueNames, mod, kind, name);
    TypedBinds(types, mod, kind, name);
    ValueBindsConcat(values, Typed(types), mod, kind, name);
  }

  lemma {:induction false} OutlineBinds(lines: seq<Line>, k: nat, mod: string, kind: Kind, name: string)
    requires Clean(lines) && k <= |lines|
    ensures Binds(Outline(lines, k), mod, kind, name)
       <==> Imports(lines[..k], mod) && Binds(lines, mod, kind, name)
  {
    hide LineBinds, Binds, Imports, Rendered, TypeNamesOf, ValueNamesOf;
    if k == 0 {
      NothingOutlined(lines, mod, kind, name);
    } else {
      OutlineBinds(lines, k - 1, mod, kind, name);
      var line := lines[k - 1];
      assert !LooksLikePlaceholder(line);
      assert lines[..k] == lines[..k - 1] + [line];
      ImportsPush(lines[..k - 1], line, mod);
      if line.Other? {
        BindsPush(Outline(lines, k - 1), line, mod, kind, name);
        OtherBindsNothing(line, mod, kind, name);
      } else if !Imports(lines[..k - 1], line.mod) {
        BindsPush(Outline(lines, k - 1), EntryFor(lines, line.mod), mod, kind, name);
        EntryBinds(lines, line.mod, mod, kind, name);
      } else {
        assert Outline(lines, k - 1) + [] == Outline(lines, k - 1);
      }
    }
  }

  lemma NothingOutlined(lines: seq<Line>, mod: string, kind: Kind, name: string)
    ensures !Binds(Outline(lines, 0), mod, kind, name) && !Imports(lines[..0], mod)
  {}

  lemma OtherBindsNothing(line: Line, mod: string, kind: Kind, name: string)
    requires line.Other?
    ensures !LineBinds(line, mod, kind, name)
  {}

  lemma EntryBinds(lines: seq<Line>, m: string, mod: string, kind: Kind, name: string)
    ensures LineBinds(EntryFor(lines, m), mod, kind, name) <==> m == mod && Binds(lines, mod, kind, name)
  {
    hide Rendered, Binds;
    var entry := Names(TypeNamesOf(lines, m), ValueNamesOf(lines, m));
    RenderedBinds(entry, m, kind, name);
    CollectedBinds(lines, m, kind, name);
    OtherModule(EntryFor(lines, m), mod, kind, name);
  }

  lemma OtherModule(line: Line, mod: string, kind: Kind, name: string)
    requires !line.Other?
    ensures LineBinds(line, mod, kind, name) ==> line.mod == mod
  {}

  /** The merge succeeds, and the output binds exactly the (module, kind, name) triples of the
      input. */
  lemma BindingsPreserved(lines: seq<Line>, mod: string, kind: Kind, name: string)
    requires Clean(lines)
    ensures !Dangling(lines)
    ensures Binds(Merged(lines), mod, kind, name) <==> Binds(lines, mod, kind, name)
  {
    OutlineBinds(lines, |lines|, mod, kind, name);
    assert lines[..|lines|] == lines;
    if Binds(lines, mod, kind, name) {
      var i :| 0 <= i < |lines| && LineBinds(lines[i], mod, kind, name);
      assert lines[i].mod == mod;
    }
  }

  // ---- What is written for a module ----

  /** A name stands in the list of the `i`-th line, an import of the module as values or as types. */
  predicate Occurs(lines: seq<Line>, asValue: bool, mod: string, name: string, i: nat, p: nat) {
    && i < |lines| && (if asValue then lines[i].ValueImport? else lines[i].TypeImport?)
    && lines[i].mod == mod && p < |lines[i].names| && lines[i].names[p] == name
  }

  predicate Before(i: nat, p: nat, j: nat, q: nat) {
    i < j || (i == j && p < q)
  }

  ghost predicate Imported(lines: seq<Line>, asValue: bool, mod: string, name: string) {
    exists i: nat, p: nat :: Occurs(lines, asValue, mod, name, i, p)
  }

  /** The first occurrence of `a` is before that of `b`. */
  ghost predicate FirstBefore(lines: seq<Line>, asValue: bool, mod: string, a: string, b: string) {
    exists i: nat, p: nat :: Occurs(lines, asValue, mod, a, i, p)
      && forall j: nat, q: nat :: Occurs(lines, asValue, mod, b, j, q) ==> Before(i, p, j, q)
  }

  /** All names of a module, each once, in order of first occurrence. */
  ghost predicate ByFirstOccurrence(lines: seq<Line>, asValue: bool, mod: string, names: seq<string>) {
    && (forall n :: n in names <==> Imported(lines, asValue, mod, n))
    && (forall a, b | 0 <= a < b < |names| ::
          names[a] != names[b] && FirstBefore(lines, asValue, mod, names[a], names[b]))
  }

  /** The line is the import of the module: of types only if there are no values, and else of the
      values, followed by the types with a modifier each. */
  ghost predicate WrittenWith(lines: seq<Line>, line: Line, values: seq<string>, types: seq<string>) {
    && !line.Other?
    && ByFirstOccurrence(lines, true, line.mod, values) && ByFirstOccurrence(lines, false, line.mod, types)
    && (if values == [] then line.TypeImport? && line.names == types
        else line.ValueImport? && |line.names| == |values| + |types| && line.names[..|values|] == values
             && forall i | 0 <= i < |types| :: line.names[|values| + i] == "type " + types[i])
  }

  ghost predicate WrittenFor(lines: seq<Line>, line: Line) {
    exists values, types :: WrittenWith(lines, line, values, types)
  }

  function NamesOf(lines: seq<Line>, asValue: bool, mod: string): seq<string> {
    if asValue then ValueNamesOf(lines, mod) else TypeNamesOf(lines, mod)
  }

  /** Where these names stand, line and place in its list. */
  function PlacesOf(lines: seq<Line>, asValue: bool, mod: string): seq<(nat, nat)> {
    if lines == [] then []
    else
      var last := lines[|lines| - 1];
      PlacesOf(lines[..|lines| - 1], asValue, mod) +
      if (if asValue then last.ValueImport? else last.TypeImport?) && last.mod == mod
      then seq(|last.names|, p => (|lines| - 1, p)) else []
  }

  ghost predicate Placed(lines: seq<Line>, asValue: bool, mod: string) {
    var names, places := NamesOf(lines, asValue, mod), PlacesOf(lines, asValue, mod);
    && |places| == |names|
    && (forall q | 0 <= q < |names| :: Occurs(lines, asValue, mod, names[q], places[q].0, places[q].1))
    && (forall q, r | 0 <= q < r < |names| :: Before(places[q].0, places[q].1, places[r].0, places[r].1))
    && (forall name, i: nat, p: nat | Occurs(lines, asValue, mod, name, i, p) :: (i, p) in places)
  }

  /** The names the last line adds. */
  function Added(line: Line, asValue: bool, mod: string): seq<string> {
    if (if asValue then line.ValueImport? else line.TypeImport?) && line.mod == mod then line.names else []
  }

  lemma PlacesPush(init: seq<Line>, last: Line, asValue: bool, mod: string)
    ensures NamesOf(init + [last], asValue, mod) == NamesOf(init, asValue, mod) + Added(last, asValue, mod)
    ensures PlacesOf(init + [last], asValue, mod)
         == PlacesOf(init, asValue, mod) + seq(|Added(last, asValue, mod)|, p => (|init|, p))
  {
    assert (init + [last])[..|init|] == init;
  }

  lemma OccursPush(init: seq<Line>, last: Line, asValue: bool, mod: string, name: string, i: nat, p: nat)
    ensures Occurs(init + [last], asValue, mod, name, i, p)
       <==> Occurs(init, asValue, mod, name, i, p)
            || (i == |init| && p < |Added(last, asValue, mod)| && Added(last, asValue, mod)[p] == name)
    ensures Occurs(init, asValue, mod, name, i, p) ==> i < |init|
  {
    assert i < |init| ==> (init + [last])[i] == init[i];
  }

  lemma {:induction false} NamesPlaced(lines: seq<Line>, asValue: bool, mod: string)
    ensures Placed(lines, asValue, mod)
  {
    if lines == [] {
      NothingPlaced(asValue, mod);
    } else {
      hide Placed;
      var init, last := lines[..|lines| - 1], lines[|lines| - 1];
      NamesPlaced(init, asValue, mod);
      NewPlaces(init, last, asValue, mod);
      assert lines == init + [last];
    }
  }

  lemma NothingPlaced(asValue: bool, mod: string)
    ensures Placed([], asValue, mod)
  {}

  lemma NewPlaces(init: seq<Line>, last: Line, asValue: bool, mod: string)
    requires Placed(init, asValue, mod)
    ensures Placed(init + [last], asValue, mod)
  {
    hide NamesOf, PlacesOf, Occurs, Added;
    var lines := init + [last];
    PlacesPush(init, last, asValue, mod);
    var names, places := NamesOf(lines, asValue, mod), PlacesOf(lines, asValue, mod);
    var names0, places0 := NamesOf(init, asValue, mod), PlacesOf(init, asValue, mod);
    forall name, i: nat, p: nat | Occurs(lines, asValue, mod, name, i, p) ensures (i, p) in places {
      OccursPush(init, last, asValue, mod, name, i, p);
      if Occurs(init, asValue, mod, name, i, p) {
        assert (i, p) in places0;
      } else {
        assert places[|places0| + p] == (i, p);
      }
    }
    forall q | 0 <= q < |names| ensures Occurs(lines, asValue, mod, names[q], places[q].0, places[q].1) {
      OccursPush(init, last, asValue, mod, names[q], places[q].0, places[q].1);
      if q < |names0| { assert Occurs(init, asValue, mod, names0[q], places0[q].0, places0[q].1); }
    }
    forall q, r | 0 <= q < r < |names| ensures Before(places[q].0, places[q].1, places[r].0, places[r].1) {
      if q < |names0| {
        assert Occurs(init, asValue, mod, names0[q], places0[q].0, places0[q].1);
        OccursPush(init, last, asValue, mod, names0[q], places0[q].0, places0[q].1);
      }
    }
  }

  lemma DistinctByFirstOccurrence(lines: seq<Line>, asValue: bool, mod: string)
    ensures ByFirstOccurrence(lines, asValue, mod, Distinct(NamesOf(lines, asValue, mod)))
  {
    hide PlacesOf, NamesOf, Distinct;
    NamesPlaced(lines, asValue, mod);
    var all, places := NamesOf(lines, asValue, mod), PlacesOf(lines, asValue, mod);
    var names := Distinct(all);
    DistinctElements(all);
    forall n ensures n in names <==> Imported(lines, asValue, mod, n) { NameImported(lines, asValue, mod, n); }
    forall a, b | 0 <= a < b < |names| ensures FirstBefore(lines, asValue, mod, names[a], names[b]) {
      var p := DistinctInOrder(all, a, b);
      assert Occurs(lines, asValue, mod, names[a], places[p].0, places[p].1);
      forall j: nat, q: nat | Occurs(lines, asValue, mod, names[b], j, q)
        ensures Before(places[p].0, places[p].1, j, q)
      {
        var r := PlaceOf(lines, asValue, mod, names[b], j, q);
      }
    }
  }

  lemma PlaceOf(lines: seq<Line>, asValue: bool, mod: string, name: string, i: nat, p: nat) returns (q: nat)
    requires Placed(lines, asValue, mod) && Occurs(lines, asValue, mod, name, i, p)
    ensures q < |NamesOf(lines, asValue, mod)| == |PlacesOf(lines, asValue, mod)|
    ensures PlacesOf(lines, asValue, mod)[q] == (i, p) && NamesOf(lines, asValue, mod)[q] == name
  {
    hide PlacesOf, NamesOf;
    var places := PlacesOf(lines, asValue, mod);
    q :| q < |places| && places[q] == (i, p);
  }

  lemma NameImported(lines: seq<Line>, asValue: bool, mod: string, name: string)
    requires Placed(lines, asValue, mod)
    ensures name in NamesOf(lines, asValue, mod) <==> Imported(lines, asValue, mod, name)
  {
    hide PlacesOf, NamesOf;
    var all := NamesOf(lines, asValue, mod);
    if name in all {
      var q :| 0 <= q < |all| && all[q] == name;
    }
    if Imported(lines, asValue, mod, name) {
      var i: nat, p: nat :| Occurs(lines, asValue, mod, name, i, p);
      var q := PlaceOf(lines, asValue, mod, name, i, p);
    }
  }

  lemma EntryIsWritten(lines: seq<Line>, mod: string)
    ensures EntryFor(lines, mod).mod == mod && WrittenFor(lines, EntryFor(lines, mod))
  {
    hide Distinct, ByFirstOccurrence;
    DistinctByFirstOccurrence(lines, true, mod);
    DistinctByFirstOccurrence(lines, false, mod);
    var values, types := Distinct(ValueNamesOf(lines, mod)), Distinct(TypeNamesOf(lines, mod));
    assert WrittenWith(lines, EntryFor(lines, mod), values, types);
  }

  lemma {:induction false} OutlineIsWritten(lines: seq<Line>, k: nat)
    requires k <= |lines|
    ensures forall i | 0 <= i < |Outline(lines, k)| ::
              Outline(lines, k)[i].Other? || WrittenFor(lines, Outline(lines, k)[i])
  {
    hide EntryFor, WrittenFor, Imports;
    if k > 0 {
      OutlineIsWritten(lines, k - 1);
      if LooksLikePlaceholder(lines[k - 1]) {
        EntryIsWritten(lines, lines[k - 1].text[|PLACEHOLDER|..]);
      } else if !lines[k - 1].Other? {
        EntryIsWritten(lines, lines[k - 1].mod);
      }
    }
  }

  /** Every import written is what the lines say about its module: of types only if no line
      imports a value from it, and else of its values and then its types, these with the
      modifier, each name once and in order of first occurrence. */
  lemma ImportsAsWritten(lines: seq<Line>, i: nat)
    requires i < |Merged(lines)|
    ensures Merged(lines)[i].Other? || WrittenFor(lines, Merged(lines)[i])
  {
    OutlineIsWritten(lines, |lines|);
  }

  /** The description leaves only one way to write an import. */
  lemma OneWayToWrite(lines: seq<Line>, a: Line, b: Line)
    requires WrittenFor(lines, a) && WrittenFor(lines, b) && a.mod == b.mod
    ensures a == b
  {
    var values, types :| WrittenWith(lines, a, values, types);
    var values', types' :| WrittenWith(lines, b, values', types');
    OneOrder(lines, true, a.mod, values, values');
    OneOrder(lines, false, a.mod, types, types');
    assert forall i | 0 <= i < |values| :: a.names[..|values|][i] == b.names[..|values|][i];
    if values != [] {
      forall i | 0 <= i < |a.names| ensures a.names[i] == b.names[i] {
        if |values| <= i { assert a.names[i] == "type " + types[i - |values|]; }
      }
    }
  }

  lemma OneOrder(lines: seq<Line>, asValue: bool, mod: string, a: seq<string>, b: seq<string>)
    requires ByFirstOccurrence(lines, asValue, mod, a) && ByFirstOccurrence(lines, asValue, mod, b)
    ensures a == b
  {
    hide FirstBefore, Imported;
    if a != b {
      var k := FirstDifference(lines, asValue, mod, a, b);
      Later(lines, asValue, mod, a, k, b[k]);
      Later(lines, asValue, mod, b, k, a[k]);
      NotBothFirst(lines, asValue, mod, a[k], b[k]);
      assert false;
    }
  }

  lemma Later(lines: seq<Line>, asValue: bool, mod: string, names: seq<string>, k: nat, name: string)
    requires ByFirstOccurrence(lines, asValue, mod, names) && k < |names|
    requires name in names && name !in names[..k] && name != names[k]
    ensures FirstBefore(lines, asValue, mod, names[k], name)
  {
    var i := PlaceAfter(names, k, name);
  }

  lemma PlaceAfter(names: seq<string>, k: nat, name: string) returns (i: nat)
    requires k <= |names| && name in names && name !in names[..k]
    ensures k <= i < |names| && names[i] == name
  {
    i :| i < |names| && names[i] == name;
    assert forall j | 0 <= j < k :: names[..k][j] == names[j];
  }

  lemma NotBothFirst(lines: seq<Line>, asValue: bool, mod: string, x: string, y: string)
    ensures !(FirstBefore(lines, asValue, mod, x, y) && FirstBefore(lines, asValue, mod, y, x))
  {}

  lemma FirstDifference(lines: seq<Line>, asValue: bool, mod: string, a: seq<string>, b: seq<string>)
    returns (k: nat)
    requires ByFirstOccurrence(lines, asValue, mod, a) && ByFirstOccurrence(lines, asValue, mod, b) && a != b
    ensures k < |a| && k < |b| && a[k] != b[k] && b[k] in a && a[k] in b && b[k] !in a[..k] && a[k] !in b[..k]
  {
    hide FirstBefore, Imported;
    k := 0;
    while k < |a| && k < |b| && a[k] == b[k]
      invariant k <= |a| && k <= |b| && a[..k] == b[..k]
    {
      k := k + 1;
    }
    NotOnlyFront(lines, asValue, mod, a, k);
    NotOnlyFront(lines, asValue, mod, b, k);
    FrontIsAll(a, k);
    FrontIsAll(b, k);
    assert k < |a| ==> a[k] in a;
    assert k < |b| ==> b[k] in b;
  }

  lemma FrontIsAll(names: seq<string>, k: nat)
    ensures k == |names| ==> names[..k] == names
  {}

  /** A proper front of the names leaves one of them out. */
  lemma NotOnlyFront(lines: seq<Line>, asValue: bool, mod: string, names: seq<string>, k: nat)
    requires ByFirstOccurrence(lines, asValue, mod, names) && k <= |names|
    ensures k < |names| ==> names[k] !in names[..k] && Imported(lines, asValue, mod, names[k])
  {
    assert k < |names| ==> names[k] in names;
  }

  // ---- Where lines go ----

  /** The place a line holds: an import stands for its module. */
  datatype Key = Module(mod: string) | Text(text: string)

  function KeyOf(line: Line): Key {
    if line.Other? then Text(line.text) else Module(line.mod)
  }

  function Keys(lines: seq<Line>): seq<Key> {
    seq(|lines|, i requires 0 <= i < |lines| => KeyOf(lines[i]))
  }

  /** Each module at its first place only; all text where it was. */
  function FirstPlaces(keys: seq<Key>): seq<Key> {
    if keys == [] then []
    else
      var init, last := keys[..|keys| - 1], keys[|keys| - 1];
      FirstPlaces(init) + if last.Module? && last in init then [] else [last]
  }

  lemma KeysPush(lines: seq<Line>, line: Line)
    ensures Keys(lines + [line]) == Keys(lines) + [KeyOf(line)]
  {}

  lemma KeysImport(lines: seq<Line>, mod: string)
    ensures Module(mod) in Keys(lines) <==> Imports(lines, mod)
  {
    if Imports(lines, mod) {
      var i :| 0 <= i < |lines| && !lines[i].Other? && lines[i].mod == mod;
      assert Keys(lines)[i] == Module(mod);
    }
    if Module(mod) in Keys(lines) {
      var i :| 0 <= i < |lines| && Keys(lines)[i] == Module(mod);
      assert lines[i].mod == mod;
    }
  }

  lemma EntryKey(lines: seq<Line>, mod: string)
    ensures KeyOf(EntryFor(lines, mod)) == Module(mod)
  {}

  lemma FirstPlacesPush(keys: seq<Key>, key: Key)
    ensures FirstPlaces(keys + [key])
         == if key.Module? && key in keys then FirstPlaces(keys) else FirstPlaces(keys) + [key]
  {
    assert (keys + [key])[..|keys|] == keys;
    assert FirstPlaces(keys) + [] == FirstPlaces(keys);
  }

  lemma {:induction false} OutlinePlaces(lines: seq<Line>, k: nat)
    requires Clean(lines) && k <= |lines|
    ensures Keys(Outline(lines, k)) == FirstPlaces(Keys(lines[..k]))
  {
    hide Imports, EntryFor, KeyOf, Keys, FirstPlaces;
    if k == 0 {
      NoKeys(lines);
    } else {
      OutlinePlaces(lines, k - 1);
      var line, init, out := lines[k - 1], lines[..k - 1], Outline(lines, k - 1);
      assert !LooksLikePlaceholder(line);
      assert lines[..k] == init + [line];
      KeysPush(init, line);
      FirstPlacesPush(Keys(init), KeyOf(line));
      KeyIs(line);
      if line.Other? {
        KeysPush(out, line);
      } else {
        KeysImport(init, line.mod);
        EntryKey(lines, line.mod);
        KeysPush(out, EntryFor(lines, line.mod));
        assert out + [] == out;
      }
    }
  }

  lemma NoKeys(lines: seq<Line>)
    ensures Keys(Outline(lines, 0)) == FirstPlaces(Keys(lines[..0]))
  {}

  lemma KeyIs(line: Line)
    ensures KeyOf(line) == if line.Other? then Text(line.text) else Module(line.mod)
  {}

  function Texts(keys: seq<Key>): seq<string> {
    if keys == [] then []
    else
      var last := keys[|keys| - 1];
      Texts(keys[..|keys| - 1]) + if last.Text? then [last.text] else []
  }

  lemma {:induction false} FirstPlacesTexts(keys: seq<Key>)
    ensures Texts(FirstPlaces(keys)) == Texts(keys)
  {
    if keys != [] {
      var init, last := keys[..|keys| - 1], keys[|keys| - 1];
      FirstPlacesTexts(init);
      var first := FirstPlaces(init);
      if last.Module? {
        assert Texts(keys) == Texts(init);
        if last in init { assert first + [] == first; } else { TextsPush(first, last); }
      } else {
        TextsPush(first, last);
      }
    }
  }

  lemma TextsPush(keys: seq<Key>, key: Key)
    ensures Texts(keys + [key]) == if key.Text? then Texts(keys) + [key.text] else Texts(keys)
  {
    assert (keys + [key])[..|keys|] == keys;
  }

  lemma {:induction false} FirstPlacesOnce(keys: seq<Key>)
    ensures forall key :: key in FirstPlaces(keys) <==> key in keys
    ensures forall i, j | 0 <= i < j < |FirstPlaces(keys)| && FirstPlaces(keys)[i].Module? ::
              FirstPlaces(keys)[i] != FirstPlaces(keys)[j]
  {
    if keys != [] {
      var init, last := keys[..|keys| - 1], keys[|keys| - 1];
      FirstPlacesOnce(init);
      assert keys == init + [last];
    }
  }

  /** The merge succeeds, and each imported module has exactly one import in the output, at the
      module's first place; all other lines stay, in order. */
  lemma OneImportPerModule(lines: seq<Line>)
    requires Clean(lines)
    ensures !Dangling(lines)
    ensures var out := Merged(lines);
            && Keys(out) == FirstPlaces(Keys(lines))
            && Texts(Keys(out)) == Texts(Keys(lines))
            && (forall mod :: Imports(out, mod) <==> Imports(lines, mod))
            && (forall i, j | 0 <= i < j < |out| && !out[i].Other? && !out[j].Other? :: out[i].mod != out[j].mod)
  {
    OutlinePlaces(lines, |lines|);
    assert lines[..|lines|] == lines;
    FirstPlacesTexts(Keys(lines));
    FirstPlacesOnce(Keys(lines));
    var out := Merged(lines);
    forall mod ensures Imports(out, mod) <==> Imports(lines, mod) {
      KeysImport(out, mod);
      KeysImport(lines, mod);
    }
    forall i, j | 0 <= i < j < |out| && !out[i].Other? && !out[j].Other? ensures out[i].mod != out[j].mod {
      assert Keys(out)[i] != Keys(out)[j];
    }
  }

  // ---- A second pass ----

  ghost predicate UniqueImports(lines: seq<Line>) {
    forall i, j | 0 <= i < j < |lines| && !lines[i].Other? && !lines[j].Other? :: lines[i].mod != lines[j].mod
  }

  /** The names a single import line contributes. */
  function NamesIn(line: Line): Names
    requires !line.Other?
  {
    if line.TypeImport? then Names(line.names, []) else Names([], line.names)
  }

  lemma {:induction false} OnlyImport(lines: seq<Line>, i: nat)
    requires UniqueImports(lines) && i < |lines| && !lines[i].Other?
    ensures Names(TypeNamesOf(lines, lines[i].mod), ValueNamesOf(lines, lines[i].mod)) == NamesIn(lines[i])
    decreases |lines|
  {
    var init, mod := lines[..|lines| - 1], lines[i].mod;
    if i < |init| {
      assert init[i] == lines[i];
      OnlyImport(init, i);
    } else {
      NotImported(init, mod);
    }
  }

  lemma {:induction false} OutlineOfUnique(lines: seq<Line>, k: nat)
    requires Clean(lines) && UniqueImports(lines) && k <= |lines|
    ensures |Outline(lines, k)| == k
    ensures forall i | 0 <= i < k ::
              Outline(lines, k)[i] == if lines[i].Other? then lines[i] else EntryFor(lines, lines[i].mod)
  {
    hide Rendered, TypeNamesOf, ValueNamesOf;
    if k > 0 {
      OutlineOfUnique(lines, k - 1);
      var line := lines[k - 1];
      assert !LooksLikePlaceholder(line);
    }
  }

  lemma {:induction false} OutlineMakesEntries(lines: seq<Line>, k: nat)
    requires Clean(lines) && k <= |lines|
    ensures Clean(Outline(lines, k))
    ensures forall i | 0 <= i < k && i < |Outline(lines, k)| && !Outline(lines, k)[i].Other? ::
              Outline(lines, k)[i] == EntryFor(lines, Outline(lines, k)[i].mod)
    ensures |Outline(lines, k)| <= k
  {
    hide TypeNamesOf, ValueNamesOf;
    if k > 0 {
      OutlineMakesEntries(lines, k - 1);
      assert !LooksLikePlaceholder(lines[k - 1]);
    }
  }

  /** A name imported as a type, and with an inline `type` modifier among the values. */
  predicate Collides(entry: Names) {
    exists n :: n in entry.typeNames && TYPE_MODIFIER + n in entry.valueNames
  }

  lemma TypedInjective(names: seq<string>)
    requires NoDuplicates(names)
    ensures NoDuplicates(Typed(names))
  {
    forall i, j | 0 <= i < j < |names| ensures Typed(names)[i] != Typed(names)[j] {
      assert Typed(names)[i][|TYPE_MODIFIER|..] == names[i] && Typed(names)[j][|TYPE_MODIFIER|..] == names[j];
    }
  }

  lemma JoinedNoDuplicates(values: seq<string>, types: seq<string>)
    requires NoDuplicates(values) && NoDuplicates(types)
    ensures NoDuplicates(values + Typed(types)) <==> !Collides(Names(types, values))
  {
    TypedInjective(types);
    var all := values + Typed(types);
    if Collides(Names(types, values)) {
      var n :| n in types && TYPE_MODIFIER + n in values;
      var i :| 0 <= i < |values| && values[i] == TYPE_MODIFIER + n;
      var j :| 0 <= j < |types| && types[j] == n;
      assert all[i] == all[|values| + j];
    } else {
      forall i, j | 0 <= i < |values| && 0 <= j < |types| ensures values[i] != Typed(types)[j] {
        assert types[j] in types;
      }
    }
  }

  lemma CollidesDistinct(entry: Names)
    ensures Collides(Names(Distinct(entry.typeNames), Distinct(entry.valueNames))) <==> Collides(entry)
  {
    DistinctElements(entry.typeNames);
    DistinctElements(entry.valueNames);
  }

  /** Rendering what a rendered line contributes gives that line again, unless names collide. */
  lemma RenderedAgain(entry: Names, mod: string)
    ensures Rendered(NamesIn(Rendered(entry, mod)), mod) == Rendered(entry, mod) <==> !Collides(entry)
  {
    hide Distinct, Collides, Typed;
    var types, values := Distinct(entry.typeNames), Distinct(entry.valueNames);
    DistinctElements(entry.typeNames);
    DistinctElements(entry.valueNames);
    DistinctIdentity(types);
    DistinctIdentity(values);
    DistinctIdentity(values + Typed(types));
    JoinedNoDuplicates(values, types);
    CollidesDistinct(entry);
    DistinctOfNothing();
    NothingCollides(types, values);
  }

  lemma DistinctOfNothing()
    ensures Distinct<string>([]) == []
  {}

  lemma NothingCollides(types: seq<string>, values: seq<string>)
    ensures types == [] || values == [] ==> !Collides(Names(types, values))
  {}

  /** Some name of `mod` is imported both ways. */
  ghost predicate CollidesAt(lines: seq<Line>, mod: string) {
    Collides(Names(TypeNamesOf(lines, mod), ValueNamesOf(lines, mod)))
  }

  lemma UniqueIsFixedIff(out: seq<Line>)
    requires Clean(out) && UniqueImports(out)
    ensures Merged(out) == out <==> forall i | 0 <= i < |out| && !out[i].Other? :: EntryFor(out, out[i].mod) == out[i]
  {
    hide EntryFor;
    OutlineOfUnique(out, |out|);
  }

  lemma EntryAgainIff(lines: seq<Line>, out: seq<Line>, i: nat)
    requires UniqueImports(out) && i < |out| && !out[i].Other? && out[i] == EntryFor(lines, out[i].mod)
    ensures EntryFor(out, out[i].mod) == out[i] <==> !CollidesAt(lines, out[i].mod)
  {
    hide Rendered, Collides, UniqueImports, TypeNamesOf, ValueNamesOf, NamesIn;
    OnlyImport(out, i);
    RenderedAgain(Names(TypeNamesOf(lines, out[i].mod), ValueNamesOf(lines, out[i].mod)), out[i].mod);
  }

  lemma CollidingIsImported(lines: seq<Line>, mod: string)
    requires CollidesAt(lines, mod)
    ensures Imports(lines, mod)
  {
    if !Imports(lines, mod) { NotImported(lines, mod); }
  }

  /** The output is a fixed point of a second pass exactly when no module imports some name
      both as a type and with an inline `type` modifier; without inline modifiers, always. */
  lemma FixedPointIff(lines: seq<Line>)
    requires Clean(lines)
    ensures Clean(Merged(lines))
    ensures Merged(Merged(lines)) == Merged(lines) <==> forall mod :: !CollidesAt(lines, mod)
  {
    hide CollidesAt, EntryFor, Outline;
    var out := Merged(lines);
    OneImportPerModule(lines);
    OutlineMakesEntries(lines, |lines|);
    UniqueIsFixedIff(out);
    forall i | 0 <= i < |out| && !out[i].Other?
      ensures EntryFor(out, out[i].mod) == out[i] <==> !CollidesAt(lines, out[i].mod)
    {
      EntryAgainIff(lines, out, i);
    }
    forall mod | CollidesAt(lines, mod) ensures exists i :: 0 <= i < |out| && !out[i].Other? && out[i].mod == mod {
      CollidingIsImported(lines, mod);
    }
  }
}
