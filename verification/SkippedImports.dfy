/** A scope can import the same target twice. The second import is skipped, and what it asks for is there in the end
    exactly as far as the first one asked for it too. */
module SkippedImports {
  import opened Wrappers
  import opened ElementKinds
  import opened IndexData
  import opened Names
  import opened Scopes
  import opened Imports
  import opened ImportRuns

  /** One import lets pass all that the other would: it asks for no annotation that the other does not ask for, and
      takes descendants if the other does. */
  predicate Covers(takerFilters: seq<string>, takerIsRecursive: bool, filters: seq<string>, isRecursive: bool) {
    && (forall k :: 0 <= k < |takerFilters| ==> takerFilters[k] in filters)
    && (isRecursive ==> takerIsRecursive)
  }

  lemma CoveringPasses(ctx: ImportContext, qualifiedName: string, takerFilters: seq<string>, filters: seq<string>)
    requires forall k :: 0 <= k < |takerFilters| ==> takerFilters[k] in filters
    ensures Passes(ctx, qualifiedName, filters) ==> Passes(ctx, qualifiedName, takerFilters)
  {
  }

  lemma CoveringTakes(x: IndexedSymbol, target: string, takerFilters: seq<string>, filters: seq<string>)
    requires forall k :: 0 <= k < |takerFilters| ==> takerFilters[k] in filters
    ensures IsDescendant(x, target, filters) ==> IsDescendant(x, target, takerFilters)
  {
    hide StartsWith;
  }

  lemma CoveredIsComplete(ctx: ImportContext, maps: Maps, scope: string, target: string, taker: IndexedSymbol,
          imp: IndexedSymbol)
    requires Complete(ctx, maps, scope, target, taker)
    requires Covers(ActiveFilters(ctx, scope, taker), IsRecursive(taker), ActiveFilters(ctx, scope, imp),
              IsRecursive(imp))
    ensures Complete(ctx, maps, scope, target, imp)
  {
    hide ActiveFilters, IsRecursive, Passes, IsDescendant, IsVisible;
    var takerFilters, filters := ActiveFilters(ctx, scope, taker), ActiveFilters(ctx, scope, imp);
    forall q: string ensures Passes(ctx, q, filters) ==> Passes(ctx, q, takerFilters) {
      CoveringPasses(ctx, q, takerFilters, filters);
    }
    forall x ensures IsDescendant(x, target, filters) ==> IsDescendant(x, target, takerFilters) {
      CoveringTakes(x, target, takerFilters, filters);
    }
  }

  /** After a finished pass, everything that a wildcard import promises is visible if the import that took its target
      covers it. */
  lemma WildcardIsComplete(ctx: ImportContext, original: Maps, log: seq<Event>, scope: string, imp: IndexedSymbol)
    returns (target: string, taker: IndexedSymbol)
    requires Genuine(ctx, original, log) && Finished(ctx, original, log, 0) && scope in original
    requires imp in ImportsOf(ctx, scope) && TakesAll(imp) && DealtWith(ctx, original, log, scope, imp)
    ensures exists k :: 0 <= k <= |log| && target == TargetAt(ctx, original, log[..k], scope, imp)
    ensures target != MARKER ==> taker in ImportsOf(ctx, scope) && Takes(scope, taker, target) in log
    ensures target != MARKER
            && Covers(ActiveFilters(ctx, scope, taker), IsRecursive(taker), ActiveFilters(ctx, scope, imp),
                  IsRecursive(imp))
            ==> Complete(ctx, Replay(ctx, original, log), scope, target, imp)
  {
    hide TargetAt, Complete, TakesAll, Genuine, Finished, Replay, ImportsOf, Covers, DealtWith;
    var k, i;
    k, target, i, taker := WildcardIsTakenUp(ctx, original, log, scope, imp);
    if target != MARKER
       && Covers(ActiveFilters(ctx, scope, taker), IsRecursive(taker), ActiveFilters(ctx, scope, imp),
             IsRecursive(imp)) {
      CoveredIsComplete(ctx, Replay(ctx, original, log), scope, target, taker, imp);
    }
  }

  // ---------------------------------------------------------------------------------------------
  // Without cover a name can stay hidden
  // ---------------------------------------------------------------------------------------------

  /** Two wildcard imports of one target in a scope, and a symbol inside the target that carries the annotations
      which the second import asks for. */
  datatype Twice = Twice(
    scope: string,
    target: string,
    taker: IndexedSymbol,
    imp: IndexedSymbol,
    takerFilters: seq<string>,
    filters: seq<string>,
    symbol: IndexedSymbol)

  ghost predicate Fitting(t: Twice) {
    && t.scope != "" && t.target != "" && t.scope != t.target && t.target != MARKER
    && RSplitOnce(t.scope) == None && RSplitOnce(t.target) == None
    && IsWildcardOf(t.taker, t.target) && IsWildcardOf(t.imp, t.target) && t.taker.qualifiedName != t.imp.qualifiedName
    && t.symbol.kind != SymImport && StartsWith(t.symbol.qualifiedName, t.target + "::")
    && t.symbol.qualifiedName != t.taker.qualifiedName && t.symbol.qualifiedName != t.imp.qualifiedName
    && t.symbol.annotations == t.filters
  }

  predicate IsWildcardOf(imp: IndexedSymbol, target: string) {
    imp.kind == SymImport && TakesAll(imp) && ImportTarget(imp) == target
  }

  function ContextOf(t: Twice): ImportContext {
    ImportContext(
      [t.taker, t.imp, t.symbol],
      map[t.taker.qualifiedName := 0, t.imp.qualifiedName := 1, t.symbol.qualifiedName := 2],
      map[t.scope := [0, 1]],
      map[],
      map[t.taker.qualifiedName := t.takerFilters, t.imp.qualifiedName := t.filters])
  }

  /** The target defines the symbol itself unless only descendants are at stake. */
  function FirstMaps(t: Twice): Maps {
    var defined := IsRecursive(t.imp) && !IsRecursive(t.taker);
    map[t.scope := ScopeVisibility(map[], map[], []),
        t.target := ScopeVisibility(if defined then map[] else map[t.symbol.name := t.symbol.qualifiedName], map[], [])]
  }

  function LogOf(t: Twice): seq<Event> {
    [Visits(t.scope, t.taker, t.target), Takes(t.scope, t.taker, t.target)]
  }

  lemma TargetIsItself(t: Twice)
    requires Fitting(t)
    ensures ResolveImportTarget(ContextOf(t), FirstMaps(t), t.scope, t.target) == t.target
  {
    hide IsWildcardOf, StartsWith, RSplitOnce;
    var maps := FirstMaps(t);
    assert Up(t.scope) == Some("");
    assert |Inside(t.scope, t.target)| == |t.scope| + 2 + |t.target|;
    assert Inside(t.scope, t.target) !in maps;
    assert NestedScope(maps, "", t.target) == Some(t.target);
    assert NestedScope(maps, t.scope, t.target) == Some(t.target);
  }

  lemma ImportsInScope(t: Twice)
    requires Fitting(t)
    ensures ImportsOf(ContextOf(t), t.scope) == [t.taker, t.imp] && ImportsOf(ContextOf(t), t.target) == []
    ensures ActiveFilters(ContextOf(t), t.scope, t.taker) == t.takerFilters
    ensures ActiveFilters(ContextOf(t), t.scope, t.imp) == t.filters
  {
    hide TakesAll, ImportTarget, StartsWith, RSplitOnce;
    var symbols := ContextOf(t).symbols;
    assert [0, 1][1..] == [1] && [1][1..] == [];
    assert ImportsAmong(symbols, []) == [] && ImportsAmong(symbols, [1]) == [t.imp];
    assert ImportsAmong(symbols, [0, 1]) == [t.taker] + [t.imp];
  }

  /** The log of the two imports: the second finds its pair visited. */
  lemma TwiceRuns(t: Twice)
    requires Fitting(t)
    ensures var ctx, maps, log := ContextOf(t), FirstMaps(t), LogOf(t);
      && Genuine(ctx, maps, log) && Finished(ctx, maps, log, 0)
      && (forall scope :: AllDealtWith(ctx, maps, log, scope))
      && Replay(ctx, maps, log) == AfterTakingAll(ctx, maps, t.scope, t.taker, t.target)
  {
    hide Fitting, ContextOf, FirstMaps, AfterTakingAll, ResolveImportTarget, ImportsOf, TakesAll, ImportTarget;
    var ctx, maps, log := ContextOf(t), FirstMaps(t), LogOf(t);
    var visit, take := log[0], log[1];
    TwiceFits(t);
    TargetIsItself(t);
    ImportsInScope(t);
    assert log[..0] == [] && log[..1] == [visit] && [visit][..0] == [] && log[..2] == log;
    assert VisitedBy([]) == {} && VisitedBy([visit]) == {(t.scope, t.target)} == VisitedBy(log);
    assert Replay(ctx, maps, []) == maps && Replay(ctx, maps, [visit]) == maps;
    assert TargetAt(ctx, maps, log[..0], t.scope, t.taker) == t.target;
    assert TargetAt(ctx, maps, log[..0], t.scope, t.imp) == t.target;
    assert Fits(ctx, maps, log[..0], visit);
    assert Fits(ctx, maps, log[..1], take);
    forall k | 0 <= k < |log| ensures Fits(ctx, maps, log[..k], log[k]) {
      assert k == 0 || k == 1;
    }
    forall scope ensures AllDealtWith(ctx, maps, log, scope) {
      OtherScopesImportNothing(t, scope);
    }
  }

  lemma TwiceFits(t: Twice)
    requires Fitting(t)
    ensures TakesAll(t.taker) && TakesAll(t.imp) && ImportTarget(t.taker) == t.target && ImportTarget(t.imp) == t.target
    ensures t.scope in FirstMaps(t)
  {
    hide TakesAll, ImportTarget;
  }

  lemma OtherScopesImportNothing(t: Twice, scope: string)
    ensures scope != t.scope ==> ImportsOf(ContextOf(t), scope) == []
  {
  }

  /** For any two imports of which the first does not cover the second there is such a run: a name that the second
      promises is hidden in the end. */
  lemma UncoveredIsIncomplete(t: Twice)
    requires Fitting(t)
    requires !Covers(t.takerFilters, IsRecursive(t.taker), t.filters, IsRecursive(t.imp))
    ensures var final := Replay(ContextOf(t), FirstMaps(t), LogOf(t));
      && !Complete(ContextOf(t), final, t.scope, t.target, t.imp)
      && t.scope in final && !IsVisible(final[t.scope], t.symbol.name)
  {
    hide AfterTakingAll, RSplitOnce, StartsWith, TakesAll, ImportTarget, Replay, IsRecursive;
    var ctx, maps, x := ContextOf(t), FirstMaps(t), t.symbol;
    TwiceRuns(t);
    ImportsInScope(t);
    var after := AfterTakingAll(ctx, maps, t.scope, t.taker, t.target);
    TakingAllMakesVisible(ctx, maps, t.scope, t.taker, t.target, x.name);
    SymbolPromised(t);
    assert ctx.symbols[2] == x;
    TargetStays(ctx, maps, t);
    assert !IsVisible(after[t.scope], x.name);
  }

  lemma TargetStays(ctx: ImportContext, maps: Maps, t: Twice)
    requires t.scope in maps && t.scope != t.target
    ensures var after := AfterTakingAll(ctx, maps, t.scope, t.taker, t.target);
      t.scope in after && (t.target in maps ==> t.target in after && after[t.target] == maps[t.target])
  {
  }

  /** The second import asks for the symbol; the first does not let it pass, or does not look for it. */
  lemma SymbolPromised(t: Twice)
    requires Fitting(t)
    ensures Passes(ContextOf(t), t.symbol.qualifiedName, t.filters) && IsDescendant(t.symbol, t.target, t.filters)
    ensures !(forall k :: 0 <= k < |t.takerFilters| ==> t.takerFilters[k] in t.filters) ==>
              !Passes(ContextOf(t), t.symbol.qualifiedName, t.takerFilters)
                  && !IsDescendant(t.symbol, t.target, t.takerFilters)
  {
    hide RSplitOnce, StartsWith, TakesAll, ImportTarget;
  }

  function Named(name: string, qualifiedName: string, kind: SymbolKind): IndexedSymbol {
    IndexedSymbol(name, None, qualifiedName, kind, false, [], [], [])
  }

  lemma WrittenTargets(wildcard: string, recursive: string, target: string)
    requires wildcard == "B::*" && recursive == "B::**" && target == "B"
    ensures EndsWith(wildcard, "::*") && !EndsWith(wildcard, "::**") && EndsWith(recursive, "::**")
    ensures TrimEnd(wildcard, "::*") == target && TrimEnd(recursive, "::**") == target
  {
    assert wildcard[..1] == target && recursive[..1] == target;
    assert !EndsWith(wildcard, "::**") by {
      var suffix := "::**";
      assert wildcard[|wildcard| - |suffix| + 0] == 'B' && suffix[0] == ':';
    }
    assert !EndsWith(target, "::*") && !EndsWith(target, "::**");
    assert TrimEnd(wildcard, "::*") == TrimEnd(wildcard[..1], "::*") == target;
    assert TrimEnd(recursive, "::**") == TrimEnd(recursive[..1], "::**") == target;
  }

  lemma WrittenNames(scope: string, target: string, symbol: string)
    requires scope == "A" && target == "B" && symbol == "B::c::d"
    ensures scope != target && target != MARKER && RSplitOnce(scope) == None && RSplitOnce(target) == None
    ensures StartsWith(symbol, target + "::")
  {
    assert LastSeparator(scope) == None && LastSeparator(target) == None;
    assert symbol[..3] == "B::" == target + "::";
  }

  /** For one: `import B::*` and then `import B::**` in A, with a symbol two levels below B. The second import is
      skipped, so the symbol is not imported. */
  lemma RecursiveAfterWildcard(t: Twice)
    requires t ==
              Twice("A", "B", Named("B::*", "A::import:B::*", SymImport), Named("B::**", "A::import:B::**", SymImport),
                        [], [], Named("d", "B::c::d", SymUsage(SymPartUsage)))
    ensures Fitting(t) && IsRecursive(t.imp)
    ensures var final := Replay(ContextOf(t), FirstMaps(t), LogOf(t)); "A" in final && !IsVisible(final["A"], "d")
  {
    hide Replay, FirstMaps, ContextOf, TrimEnd, EndsWith, StartsWith, RSplitOnce, IsVisible;
    WrittenTargets(t.taker.name, t.imp.name, t.target);
    WrittenNames(t.scope, t.target, t.symbol.qualifiedName);
    assert |t.taker.qualifiedName| == 14 && |t.imp.qualifiedName| == 15;
    UncoveredIsIncomplete(t);
  }
}
