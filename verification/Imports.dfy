/** Import processing: filling the visibility maps along import edges, on any import graph. */
module Imports {
  import opened Wrappers
  import opened ElementKinds
  import opened IndexData
  import opened Names
  import opened Scopes

  type Maps = map<string, ScopeVisibility>

  /** What import processing reads and does not change. */
  datatype ImportContext = ImportContext(
    symbols: seq<IndexedSymbol>,
    byQualifiedName: map<string, nat>,
    byParentScope: map<string, seq<nat>>,
    scopeFilters: map<string, seq<string>>,
    importFilters: map<string, seq<string>>)

  /** Second component of the pairs that mark a package as processed. */
  const MARKER := "__scope_processed__"

  // ---------------------------------------------------------------------------------------------
  // Imports and their targets
  // ---------------------------------------------------------------------------------------------

  predicate IsRecursive(imp: IndexedSymbol) { EndsWith(imp.name, "::**") }

  predicate IsWildcard(imp: IndexedSymbol) { EndsWith(imp.name, "::*") && !EndsWith(imp.name, "::**") }

  predicate TakesAll(imp: IndexedSymbol) { IsWildcard(imp) || IsRecursive(imp) }

  function ImportTarget(imp: IndexedSymbol): string {
    TrimEnd(imp.name, if IsRecursive(imp) then "::**" else "::*")
  }

  function ImportsAmong(symbols: seq<IndexedSymbol>, slots: seq<nat>): (r: seq<IndexedSymbol>)
    ensures forall imp :: imp in r ==> imp in symbols && imp.kind == SymImport
  {
    if slots == [] then []
    else
      (if slots[0] < |symbols| && symbols[slots[0]].kind == SymImport then [symbols[slots[0]]] else [])
      + ImportsAmong(symbols, slots[1..])
  }

  function ImportsOf(ctx: ImportContext, scope: string): (r: seq<IndexedSymbol>)
    ensures r != [] ==> scope in ctx.byParentScope
    ensures forall imp :: imp in r ==> imp in ctx.symbols && imp.kind == SymImport
  {
    if scope in ctx.byParentScope then ImportsAmong(ctx.symbols, ctx.byParentScope[scope]) else []
  }

  /** The first child of a scope that has a short name. */
  function ChildByShortName(symbols: seq<IndexedSymbol>, slots: seq<nat>, shortName: string): (r: Option<string>)
    ensures r.Some? ==> exists k :: 0 <= k < |symbols| && symbols[k].qualifiedName == r.value
  {
    if slots == [] then None
    else if slots[0] < |symbols| && symbols[slots[0]].shortName == Some(shortName) then
      Some(symbols[slots[0]].qualifiedName)
    else ChildByShortName(symbols, slots[1..], shortName)
  }

  /** A known scope called `target` inside `scope` or a scope around it, nearest first. */
  function NestedScope(maps: Maps, scope: string, target: string): (r: Option<string>)
    ensures r.Some? ==> r.value in maps
    decreases |scope|
  {
    if Inside(scope, target) in maps then Some(Inside(scope, target))
    else
      var up := Up(scope);
      if up.Some? then NestedScope(maps, up.value, target) else None
  }

  /** What a scope can say about a segment: its nested scope, a child by short name, or a visible name. */
  function ResolveSegment(ctx: ImportContext, maps: Maps, parent: string, segment: string): Option<string> {
    if parent + "::" + segment in maps then Some(parent + "::" + segment)
    else
      var child :=
          if parent in ctx.byParentScope then ChildByShortName(ctx.symbols, ctx.byParentScope[parent], segment)
              else None;
      if child.Some? then child
      else if parent in maps then maps[parent].Lookup(segment)
      else None
  }

  function ResolveImportTarget(ctx: ImportContext, maps: Maps, scope: string, target: string): string
    decreases |target|
  {
    var split := RSplitOnce(target);
    if split.Some? && target in maps then target
    else
      var found :=
        if split.Some? then
          var parent :=
              if split.value.0 in maps then split.value.0 else ResolveImportTarget(ctx, maps, scope, split.value.0);
          ResolveSegment(ctx, maps, parent, split.value.1)
        else if scope in maps then maps[scope].Lookup(target)
        else None;
      if found.Some? then found.value else NestedScope(maps, scope, target).GetOr(target)
  }

  // ---------------------------------------------------------------------------------------------
  // Copying names
  // ---------------------------------------------------------------------------------------------

  function ActiveFilters(ctx: ImportContext, scope: string, imp: IndexedSymbol): seq<string> {
    if imp.qualifiedName in ctx.importFilters then ctx.importFilters[imp.qualifiedName]
    else if scope in ctx.scopeFilters then ctx.scopeFilters[scope]
    else []
  }

  predicate HasAll(annotations: seq<string>, filters: seq<string>) {
    forall k :: 0 <= k < |filters| ==> filters[k] in annotations
  }

  /** A name passes when its symbol cannot be found or carries every annotation asked for. */
  predicate Passes(ctx: ImportContext, qualifiedName: string, filters: seq<string>) {
    qualifiedName in ctx.byQualifiedName && ctx.byQualifiedName[qualifiedName] < |ctx.symbols| ==>
      HasAll(ctx.symbols[ctx.byQualifiedName[qualifiedName]].annotations, filters)
  }

  predicate FromReexport(reexports: seq<string>, qualifiedName: string) {
    exists k :: 0 <= k < |reexports| && StartsWith(qualifiedName, reexports[k]) &&
      (|qualifiedName| == |reexports[k]| || qualifiedName[|reexports[k]|] == ':')
  }

  /** Several imports at once; their names are distinct, so their order does not matter. */
  function WithImports(v: ScopeVisibility, more: map<string, string>): ScopeVisibility {
    v.(imports := v.imports + (map n | n in more && n !in v.directDefs :: more[n]))
  }

  function PassingDirects(ctx: ImportContext, target: ScopeVisibility, filters: seq<string>): map<string, string> {
    map n | n in target.directDefs && Passes(ctx, target.directDefs[n], filters) :: target.directDefs[n]
  }

  function ReexportedImports(target: ScopeVisibility): map<string, string> {
    map n | n in target.imports && FromReexport(target.publicReexports, target.imports[n]) :: target.imports[n]
  }

  function WithReexports(v: ScopeVisibility, more: seq<string>): ScopeVisibility
    decreases |more|
  {
    if more == [] then v else WithReexports(v.AddPublicReexport(more[0]), more[1..])
  }

  /** Everything a wildcard import takes over from its target's map. */
  function Copied(ctx: ImportContext, v: ScopeVisibility, targetName: string, target: ScopeVisibility,
          filters: seq<string>, isPublic: bool): ScopeVisibility {
    var named := WithImports(WithImports(v, PassingDirects(ctx, target, filters)), ReexportedImports(target));
    if isPublic then WithReexports(named, [targetName] + target.publicReexports) else named
  }

  predicate IsDescendant(symbol: IndexedSymbol, target: string, filters: seq<string>) {
    symbol.kind != SymImport && StartsWith(symbol.qualifiedName, target + "::") && HasAll(symbol.annotations, filters)
  }

  /** The descendants among the first `n` symbols, in order; a later one takes over a name. */
  function WithDescendants(ctx: ImportContext, v: ScopeVisibility, target: string, filters: seq<string>,
          n: nat): ScopeVisibility
    requires n <= |ctx.symbols|
  {
    if n == 0 then v
    else
      var before := WithDescendants(ctx, v, target, filters, n - 1);
      var symbol := ctx.symbols[n - 1];
      if IsDescendant(symbol, target, filters) then before.AddImport(symbol.name, symbol.qualifiedName) else before
  }

  /** The importing scope's map after a wildcard or recursive import of a target. */
  function AfterTakingAll(ctx: ImportContext, maps: Maps, scope: string, imp: IndexedSymbol, target: string): Maps
    requires scope in maps
  {
    var filters := ActiveFilters(ctx, scope, imp);
    var copied :=
        if target in maps then Copied(ctx, maps[scope], target, maps[target], filters, imp.isPublic) else maps[scope];
    maps[scope := if IsRecursive(imp) then WithDescendants(ctx, copied, target, filters, |ctx.symbols|) else copied]
  }

  /** The importing scope's map after an import of a single name. */
  function AfterTakingOne(maps: Maps, scope: string, imp: IndexedSymbol, target: string): Maps {
    if scope !in maps then maps
    else
      var named := maps[scope].AddImport(LastSegment(target), target);
      var alias := LastSegment(ImportTarget(imp));
      maps[scope := if alias != LastSegment(target) then named.AddImport(alias, target) else named]
  }

  // ---------------------------------------------------------------------------------------------
  // What processing keeps and reaches
  // ---------------------------------------------------------------------------------------------

  predicate IsVisible(v: ScopeVisibility, name: string) {
    name in v.directDefs || name in v.imports
  }

  /** Visible names are only ever added, and direct definitions are untouched. */
  ghost predicate Extends(before: Maps, after: Maps) {
    && before.Keys == after.Keys
    && forall s :: s in before ==> ExtendsAt(before[s], after[s])
  }

  ghost predicate ExtendsAt(v: ScopeVisibility, w: ScopeVisibility) {
    v.directDefs == w.directDefs && v.imports.Keys <= w.imports.Keys && v.publicReexports <= w.publicReexports
  }

  lemma ExtendsTrans(a: Maps, b: Maps, c: Maps)
    requires Extends(a, b) && Extends(b, c)
    ensures Extends(a, c)
  {
    forall s | s in a ensures ExtendsAt(a[s], c[s]) {
      assert ExtendsAt(a[s], b[s]) && ExtendsAt(b[s], c[s]);
    }
  }

  /** Every name that the target defines and that passes the filters in force is visible in the scope. */
  ghost predicate DirectsVisible(ctx: ImportContext, maps: Maps, scope: string, target: string, filters: seq<string>)
    requires scope in maps && target in maps
  {
    forall n :: n in maps[target].directDefs && Passes(ctx, maps[target].directDefs[n], filters) ==>
        IsVisible(maps[scope], n)
  }

  ghost predicate AllDescendantsVisible(ctx: ImportContext, maps: Maps, scope: string, target: string,
          filters: seq<string>)
    requires scope in maps
  {
    forall k :: 0 <= k < |ctx.symbols| && IsDescendant(ctx.symbols[k], target, filters) ==>
      IsVisible(maps[scope], ctx.symbols[k].name)
  }

  /** Everything that an import promises about its target is visible in the importing scope. */
  ghost predicate Complete(ctx: ImportContext, maps: Maps, scope: string, target: string, imp: IndexedSymbol) {
    && scope in maps
    && (target in maps ==> DirectsVisible(ctx, maps, scope, target, ActiveFilters(ctx, scope, imp)))
    && (IsRecursive(imp) ==> AllDescendantsVisible(ctx, maps, scope, target, ActiveFilters(ctx, scope, imp)))
  }

  lemma CompleteStays(ctx: ImportContext, before: Maps, after: Maps, scope: string, target: string, imp: IndexedSymbol)
    requires Complete(ctx, before, scope, target, imp) && Extends(before, after)
    ensures Complete(ctx, after, scope, target, imp)
  {
    hide Passes, IsDescendant, ActiveFilters, IsRecursive;
    assert ExtendsAt(before[scope], after[scope]);
    assert target in before ==> ExtendsAt(before[target], after[target]);
  }

  lemma {:induction false} DescendantsVisible(ctx: ImportContext, v: ScopeVisibility, target: string,
          filters: seq<string>, n: nat)
    requires n <= |ctx.symbols|
    ensures ExtendsAt(v, WithDescendants(ctx, v, target, filters, n))
    ensures forall k :: 0 <= k < n && IsDescendant(ctx.symbols[k], target, filters) ==>
              IsVisible(WithDescendants(ctx, v, target, filters, n), ctx.symbols[k].name)
  {
    hide IsDescendant;
    if n > 0 {
      DescendantsVisible(ctx, v, target, filters, n - 1);
    }
  }

  lemma {:induction false} WithReexportsExtends(v: ScopeVisibility, more: seq<string>)
    ensures var w := WithReexports(v, more);
      w.directDefs == v.directDefs && w.imports == v.imports && v.publicReexports <= w.publicReexports
    decreases |more|
  {
    if more != [] {
      WithReexportsExtends(v.AddPublicReexport(more[0]), more[1..]);
    }
  }

  lemma CopiedExtends(ctx: ImportContext, v: ScopeVisibility, name: string, target: ScopeVisibility,
          filters: seq<string>, isPublic: bool)
    ensures var w := Copied(ctx, v, name, target, filters, isPublic);
      && ExtendsAt(v, w)
      && (forall n :: n in target.directDefs && Passes(ctx, target.directDefs[n], filters) ==> IsVisible(w, n))
  {
    hide Passes, FromReexport, WithReexports;
    var named := WithImports(WithImports(v, PassingDirects(ctx, target, filters)), ReexportedImports(target));
    WithReexportsExtends(named, [name] + target.publicReexports);
  }

  /** Taking a target up makes its pair complete. */
  lemma TakingAllCompletes(ctx: ImportContext, maps: Maps, scope: string, imp: IndexedSymbol, target: string)
    requires scope in maps
    ensures Extends(maps, AfterTakingAll(ctx, maps, scope, imp, target))
    ensures Complete(ctx, AfterTakingAll(ctx, maps, scope, imp, target), scope, target, imp)
  {
    hide Passes, Copied, WithDescendants, IsDescendant;
    var filters := ActiveFilters(ctx, scope, imp);
    if target in maps {
      CopiedExtends(ctx, maps[scope], target, maps[target], filters, imp.isPublic);
    }
    var copied :=
        if target in maps then Copied(ctx, maps[scope], target, maps[target], filters, imp.isPublic) else maps[scope];
    DescendantsVisible(ctx, copied, target, filters, |ctx.symbols|);
    forall s | s in maps ensures ExtendsAt(maps[s], AfterTakingAll(ctx, maps, scope, imp, target)[s]) {
    }
  }

  lemma {:induction false} DescendantNames(ctx: ImportContext, v: ScopeVisibility, target: string,
          filters: seq<string>, n: nat, name: string)
    requires n <= |ctx.symbols|
    ensures IsVisible(WithDescendants(ctx, v, target, filters, n), name) <==>
            IsVisible(v, name)
                || exists k :: 0 <= k < n && IsDescendant(ctx.symbols[k], target, filters)
                      && ctx.symbols[k].name == name
  {
    hide IsDescendant;
    if n > 0 {
      DescendantNames(ctx, v, target, filters, n - 1, name);
    }
  }

  lemma CopiedNames(ctx: ImportContext, v: ScopeVisibility, targetName: string, target: ScopeVisibility,
          filters: seq<string>, isPublic: bool, name: string)
    ensures IsVisible(Copied(ctx, v, targetName, target, filters, isPublic), name) <==>
            || IsVisible(v, name)
            || (name in target.directDefs && Passes(ctx, target.directDefs[name], filters))
            || (name in target.imports && FromReexport(target.publicReexports, target.imports[name]))
  {
    hide Passes, FromReexport, WithReexports;
    var named := WithImports(WithImports(v, PassingDirects(ctx, target, filters)), ReexportedImports(target));
    WithReexportsExtends(named, [targetName] + target.publicReexports);
  }

  /** Exactly what a wildcard or recursive import makes visible: the target's own names that pass the filters,
      what the target re-exports publicly, and for a recursive import the descendants; so what the target
      imports privately stays hidden. */
  lemma TakingAllMakesVisible(ctx: ImportContext, maps: Maps, scope: string, imp: IndexedSymbol, target: string,
          name: string)
    requires scope in maps
    ensures var filters := ActiveFilters(ctx, scope, imp);
      IsVisible(AfterTakingAll(ctx, maps, scope, imp, target)[scope], name) <==>
        || IsVisible(maps[scope], name)
        || (target in maps && name in maps[target].directDefs && Passes(ctx, maps[target].directDefs[name], filters))
        || (target in maps && name in maps[target].imports
              && FromReexport(maps[target].publicReexports, maps[target].imports[name]))
        || (IsRecursive(imp) && exists k ::
              0 <= k < |ctx.symbols| && IsDescendant(ctx.symbols[k], target, filters) && ctx.symbols[k].name == name)
  {
    hide Passes, FromReexport, Copied, WithDescendants, IsDescendant;
    var filters := ActiveFilters(ctx, scope, imp);
    if target in maps {
      CopiedNames(ctx, maps[scope], target, maps[target], filters, imp.isPublic, name);
    }
    var copied :=
        if target in maps then Copied(ctx, maps[scope], target, maps[target], filters, imp.isPublic) else maps[scope];
    DescendantNames(ctx, copied, target, filters, |ctx.symbols|, name);
  }

  /** What a target re-exports publicly in the maps `from` is visible to the importing scope in the maps `to`, and
      re-exported by it if the import is public. */
  ghost predicate ReexportsReach(from: Maps, to: Maps, scope: string, target: string, imp: IndexedSymbol) {
    scope in to && (target in from ==>
      && (forall n :: n in ReexportedImports(from[target]) ==> IsVisible(to[scope], n))
      && (imp.isPublic ==> forall ns :: ns == target || ns in from[target].publicReexports ==>
            ns in to[scope].publicReexports))
  }

  lemma {:induction false} WithReexportsHas(v: ScopeVisibility, more: seq<string>, ns: string)
    requires ns in v.publicReexports || ns in more
    ensures ns in WithReexports(v, more).publicReexports
    decreases |more|
  {
    if more != [] {
      WithReexportsHas(v.AddPublicReexport(more[0]), more[1..], ns);
    }
  }

  lemma PrefixHas(a: seq<string>, b: seq<string>, x: string)
    requires a <= b && x in a
    ensures x in b
  {
    var i :| 0 <= i < |a| && a[i] == x;
    assert b[i] == x;
  }

  lemma TakingAllReexports(ctx: ImportContext, maps: Maps, scope: string, imp: IndexedSymbol, target: string)
    requires scope in maps
    ensures ReexportsReach(maps, AfterTakingAll(ctx, maps, scope, imp, target), scope, target, imp)
  {
    hide Passes, FromReexport, WithReexports, WithDescendants, IsDescendant, ActiveFilters;
    if target in maps {
      var v, filters := maps[target], ActiveFilters(ctx, scope, imp);
      var named := WithImports(WithImports(maps[scope], PassingDirects(ctx, v, filters)), ReexportedImports(v));
      var copied := Copied(ctx, maps[scope], target, v, filters, imp.isPublic);
      WithReexportsExtends(named, [target] + v.publicReexports);
      DescendantsVisible(ctx, copied, target, filters, |ctx.symbols|);
      var taken := AfterTakingAll(ctx, maps, scope, imp, target)[scope];
      forall ns | imp.isPublic && (ns == target || ns in v.publicReexports) ensures ns in taken.publicReexports {
        WithReexportsHas(named, [target] + v.publicReexports, ns);
        PrefixHas(copied.publicReexports, taken.publicReexports, ns);
      }
    }
  }

  lemma ReexportsStay(from: Maps, before: Maps, after: Maps, scope: string, target: string, imp: IndexedSymbol)
    requires ReexportsReach(from, before, scope, target, imp) && Extends(before, after)
    ensures ReexportsReach(from, after, scope, target, imp)
  {
    hide ReexportedImports;
    assert ExtendsAt(before[scope], after[scope]);
    forall ns | ns in before[scope].publicReexports ensures ns in after[scope].publicReexports {
      PrefixHas(before[scope].publicReexports, after[scope].publicReexports, ns);
    }
  }

  lemma TakingOneExtends(maps: Maps, scope: string, imp: IndexedSymbol, target: string)
    ensures Extends(maps, AfterTakingOne(maps, scope, imp, target))
    ensures scope in maps ==>
      IsVisible(AfterTakingOne(maps, scope, imp, target)[scope], LastSegment(ImportTarget(imp)))
  {
    hide LastSegment, ImportTarget;
    forall s | s in maps ensures ExtendsAt(maps[s], AfterTakingOne(maps, scope, imp, target)[s]) {
    }
  }

  // ---------------------------------------------------------------------------------------------
  // A finite set of pairs to visit
  // ---------------------------------------------------------------------------------------------

  /** The names that an import can lead to: known scopes, symbols, visible names and written targets. */
  ghost predicate Covers(ctx: ImportContext, maps: Maps, names: set<string>) {
    && maps.Keys <= names
    && (forall k :: 0 <= k < |ctx.symbols| ==> ctx.symbols[k].qualifiedName in names)
    && (forall imp :: imp in ctx.symbols && imp.kind == SymImport ==> ImportTarget(imp) in names)
    && (forall s :: s in maps ==> maps[s].directDefs.Values <= names && maps[s].imports.Values <= names)
  }

  ghost function NamesOf(ctx: ImportContext, maps: Maps): set<string> {
    maps.Keys
    + (set imp | imp in ctx.symbols :: imp.qualifiedName)
    + (set imp | imp in ctx.symbols :: ImportTarget(imp))
    + (set s, n | s in maps && n in maps[s].directDefs :: maps[s].directDefs[n])
    + (set s, n | s in maps && n in maps[s].imports :: maps[s].imports[n])
  }

  lemma NamesCover(ctx: ImportContext, maps: Maps)
    ensures Covers(ctx, maps, NamesOf(ctx, maps))
  {
    hide ImportTarget;
    var names := NamesOf(ctx, maps);
    assert forall k :: 0 <= k < |ctx.symbols| ==> ctx.symbols[k] in ctx.symbols;
    forall s | s in maps ensures maps[s].directDefs.Values <= names && maps[s].imports.Values <= names {
      forall q | q in maps[s].directDefs.Values ensures q in names {
        var n :| n in maps[s].directDefs && maps[s].directDefs[n] == q;
      }
      forall q | q in maps[s].imports.Values ensures q in names {
        var n :| n in maps[s].imports && maps[s].imports[n] == q;
      }
    }
  }

  /** Packages that single imports mark as processed. */
  function ParentPackages(ctx: ImportContext): set<string> {
    set imp | imp in ctx.symbols && RSplitOnce(ImportTarget(imp)).Some? :: RSplitOnce(ImportTarget(imp)).value.0
  }

  function Pairs(ctx: ImportContext, names: set<string>): set<(string, string)> {
    set a, b | a in ctx.byParentScope.Keys + ParentPackages(ctx) && b in names + {MARKER} :: (a, b)
  }

  lemma LookupIsCovered(ctx: ImportContext, maps: Maps, names: set<string>, scope: string, name: string)
    requires Covers(ctx, maps, names) && scope in maps && maps[scope].Lookup(name).Some?
    ensures maps[scope].Lookup(name).value in names
  {
    hide ImportTarget;
    assert maps[scope].directDefs.Values <= names && maps[scope].imports.Values <= names;
    assert name in maps[scope].directDefs ==> maps[scope].directDefs[name] in maps[scope].directDefs.Values;
    assert name in maps[scope].imports ==> maps[scope].imports[name] in maps[scope].imports.Values;
  }

  lemma SegmentIsCovered(ctx: ImportContext, maps: Maps, names: set<string>, parent: string, segment: string)
    requires Covers(ctx, maps, names)
    ensures var r := ResolveSegment(ctx, maps, parent, segment); r.Some? ==> r.value in names
  {
    hide ImportTarget;
    if parent in maps && maps[parent].Lookup(segment).Some? {
      LookupIsCovered(ctx, maps, names, parent, segment);
    }
  }

  lemma {:induction false} TargetIsCovered(ctx: ImportContext, maps: Maps, names: set<string>, scope: string,
          target: string)
    requires Covers(ctx, maps, names) && target in names
    ensures ResolveImportTarget(ctx, maps, scope, target) in names
  {
    hide ResolveSegment, ImportTarget, ScopeVisibility.Lookup;
    var split := RSplitOnce(target);
    if split.Some? {
      var parent :=
          if split.value.0 in maps then split.value.0 else ResolveImportTarget(ctx, maps, scope, split.value.0);
      SegmentIsCovered(ctx, maps, names, parent, split.value.1);
    } else if scope in maps && maps[scope].Lookup(target).Some? {
      LookupIsCovered(ctx, maps, names, scope, target);
    }
  }

  // ---------------------------------------------------------------------------------------------
  // Coverage is kept
  // ---------------------------------------------------------------------------------------------

  /** What every map of the pass satisfies. */
  ghost predicate Sane(ctx: ImportContext, original: Maps, names: set<string>, maps: Maps) {
    && Covers(ctx, maps, names)
    && Extends(original, maps)
    && (forall scope :: ImportsOf(ctx, scope) != [] ==> scope in maps)
  }

  ghost predicate Covered(names: set<string>, v: ScopeVisibility) {
    v.directDefs.Values <= names && v.imports.Values <= names
  }

  lemma CopiedIsCovered(ctx: ImportContext, names: set<string>, v: ScopeVisibility, targetName: string,
          target: ScopeVisibility,
                        filters: seq<string>, isPublic: bool)
    requires Covered(names, v) && Covered(names, target)
    ensures Covered(names, Copied(ctx, v, targetName, target, filters, isPublic))
  {
    hide Passes, FromReexport, WithReexports;
    var named := WithImports(WithImports(v, PassingDirects(ctx, target, filters)), ReexportedImports(target));
    WithReexportsExtends(named, [targetName] + target.publicReexports);
    forall q | q in named.imports.Values ensures q in names {
      var n :| n in named.imports && named.imports[n] == q;
      assert n in v.imports ==> v.imports[n] in v.imports.Values;
      assert n in target.imports ==> target.imports[n] in target.imports.Values;
      assert n in target.directDefs ==> target.directDefs[n] in target.directDefs.Values;
    }
  }

  lemma {:induction false} DescendantsAreCovered(ctx: ImportContext, names: set<string>, v: ScopeVisibility,
          target: string, filters: seq<string>, n: nat)
    requires n <= |ctx.symbols| && Covered(names, v)
    requires forall k :: 0 <= k < |ctx.symbols| ==> ctx.symbols[k].qualifiedName in names
    ensures Covered(names, WithDescendants(ctx, v, target, filters, n))
  {
    hide IsDescendant;
    if n > 0 {
      DescendantsAreCovered(ctx, names, v, target, filters, n - 1);
    }
  }

  /** Replacing one scope's map by one that is covered and extends it keeps the maps sane. */
  lemma ReplacedIsSane(ctx: ImportContext, original: Maps, names: set<string>, maps: Maps, scope: string,
          v: ScopeVisibility)
    requires Sane(ctx, original, names, maps) && scope in maps && ExtendsAt(maps[scope], v) && Covered(names, v)
    ensures Sane(ctx, original, names, maps[scope := v])
  {
    hide ImportTarget, ImportsOf;
    var after := maps[scope := v];
    forall s | s in original ensures ExtendsAt(original[s], after[s]) {
      assert ExtendsAt(original[s], maps[s]);
    }
    assert after.Keys == maps.Keys;
  }

  lemma TakingAllIsSane(ctx: ImportContext, original: Maps, names: set<string>, maps: Maps, scope: string,
          imp: IndexedSymbol, target: string)
    requires Sane(ctx, original, names, maps) && scope in maps
    ensures Sane(ctx, original, names, AfterTakingAll(ctx, maps, scope, imp, target))
  {
    hide Passes, Copied, WithDescendants, IsDescendant, ImportTarget, ImportsOf, Extends;
    var filters := ActiveFilters(ctx, scope, imp);
    if target in maps {
      CopiedIsCovered(ctx, names, maps[scope], target, maps[target], filters, imp.isPublic);
      CopiedExtends(ctx, maps[scope], target, maps[target], filters, imp.isPublic);
    }
    var copied :=
        if target in maps then Copied(ctx, maps[scope], target, maps[target], filters, imp.isPublic) else maps[scope];
    DescendantsAreCovered(ctx, names, copied, target, filters, |ctx.symbols|);
    DescendantsVisible(ctx, copied, target, filters, |ctx.symbols|);
    var v := if IsRecursive(imp) then WithDescendants(ctx, copied, target, filters, |ctx.symbols|) else copied;
    ReplacedIsSane(ctx, original, names, maps, scope, v);
  }

  lemma TakingOneIsSane(ctx: ImportContext, original: Maps, names: set<string>, maps: Maps, scope: string,
          imp: IndexedSymbol, target: string)
    requires Sane(ctx, original, names, maps) && scope in maps && target in names
    ensures Sane(ctx, original, names, AfterTakingOne(maps, scope, imp, target))
  {
    hide LastSegment, ImportTarget, ImportsOf, Extends;
    TakingOneExtends(maps, scope, imp, target);
    var v := AfterTakingOne(maps, scope, imp, target)[scope];
    assert ExtendsAt(maps[scope], v) by {
      TakingOneExtendsAt(maps, scope, imp, target);
    }
    assert AfterTakingOne(maps, scope, imp, target) == maps[scope := v];
    ReplacedIsSane(ctx, original, names, maps, scope, v);
  }

  lemma TakingOneExtendsAt(maps: Maps, scope: string, imp: IndexedSymbol, target: string)
    requires scope in maps
    ensures ExtendsAt(maps[scope], AfterTakingOne(maps, scope, imp, target)[scope])
  {
    hide LastSegment, ImportTarget;
  }

  lemma TargetIsPair(ctx: ImportContext, original: Maps, maps: Maps, names: set<string>, scope: string,
          imp: IndexedSymbol)
    requires Sane(ctx, original, names, maps) && imp in ImportsOf(ctx, scope)
    ensures var target := ResolveImportTarget(ctx, maps, scope, ImportTarget(imp));
      target in names && (scope, target) in Pairs(ctx, names)
  {
    hide ResolveImportTarget, Extends;
    TargetIsCovered(ctx, maps, names, scope, ImportTarget(imp));
  }

  lemma MarkerIsPair(ctx: ImportContext, names: set<string>, imp: IndexedSymbol)
    requires imp in ctx.symbols && RSplitOnce(ImportTarget(imp)).Some?
    ensures (RSplitOnce(ImportTarget(imp)).value.0, MARKER) in Pairs(ctx, names)
  {
    hide ImportTarget;
    assert RSplitOnce(ImportTarget(imp)).value.0 in ParentPackages(ctx);
  }

  lemma PairsShrink(all: set<(string, string)>, before: set<(string, string)>, after: set<(string, string)>)
    requires before <= after
    ensures |all - after| <= |all - before|
    ensures forall p :: p in all && p !in before && p in after ==> |all - after| < |all - before|
  {
    assert all - after <= all - before;
    SubsetSize(all - after, all - before);
    if p :| p in all && p !in before && p in after {
      assert all - after <= (all - before) - {p};
      SubsetSize(all - after, (all - before) - {p});
    }
  }
}
