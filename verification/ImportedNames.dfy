/** What an import makes of the importing scope's map, told from the target's map, the symbols and the filters alone. */
module ImportedNames {
  import opened Wrappers
  import opened ElementKinds
  import opened IndexData
  import opened Names
  import opened Segments
  import opened Imports
  import opened ImportTargets

  // ---------------------------------------------------------------------------------------------
  // How an import is written
  // ---------------------------------------------------------------------------------------------

  ghost predicate HasSuffix(name: string, suffix: string) {
    exists base: string :: name == base + suffix
  }

  /** The target of an import as it is written, without the stars at its end. */
  ghost predicate IsWritten(imp: IndexedSymbol, written: string) {
    IsTrimmed(imp.name, if HasSuffix(imp.name, "::**") then "::**" else "::*", written)
  }

  /** How an import is written decides what it takes and of what target. */
  lemma WrittenDecides(imp: IndexedSymbol, written: string)
    ensures IsRecursive(imp) <==> HasSuffix(imp.name, "::**")
    ensures IsWildcard(imp) <==> HasSuffix(imp.name, "::*") && !HasSuffix(imp.name, "::**")
    ensures ImportTarget(imp) == written <==> IsWritten(imp, written)
  {
    hide EndsWith, TrimEnd, IsTrimmed;
    EndsWithIsSuffix(imp.name, "::**");
    EndsWithIsSuffix(imp.name, "::*");
    var suffix := if IsRecursive(imp) then "::**" else "::*";
    TrimEndIsTrimmed(imp.name, suffix);
    if IsTrimmed(imp.name, suffix, written) {
      TrimmedIsUnique(imp.name, suffix, written);
    }
  }

  /** What follows the last separator of a name, or all of it. */
  ghost predicate IsLast(name: string, last: string) {
    if HasSeparator(name) then exists init: string :: InitAndLast(name, init, last) else last == name
  }

  lemma LastSegmentIsLast(name: string, last: string)
    ensures LastSegment(name) == last <==> IsLast(name, last)
  {
    hide InitAndLast, RSplitOnce, HasSeparator;
    RSplitIsLast(name);
    if init: string :| InitAndLast(name, init, last) {
      LastIsUnique(name, init, last);
    }
  }

  // ---------------------------------------------------------------------------------------------
  // What an import takes
  // ---------------------------------------------------------------------------------------------

  /** The annotations asked for by the filters of the import, or if it has none, of the scope that it stands in. */
  ghost predicate IsAsked(ctx: ImportContext, scope: string, imp: IndexedSymbol, annotation: string) {
    if imp.qualifiedName in ctx.importFilters then annotation in ctx.importFilters[imp.qualifiedName]
    else scope in ctx.scopeFilters && annotation in ctx.scopeFilters[scope]
  }

  ghost predicate IsWanted(ctx: ImportContext, scope: string, imp: IndexedSymbol, x: IndexedSymbol) {
    forall a :: IsAsked(ctx, scope, imp, a) ==> a in x.annotations
  }

  ghost predicate IsSymbolOf(ctx: ImportContext, q: string, x: IndexedSymbol) {
    q in ctx.byQualifiedName && ctx.byQualifiedName[q] < |ctx.symbols| && ctx.symbols[ctx.byQualifiedName[q]] == x
  }

  /** A definition of the target, unless its symbol lacks an annotation that is asked for. */
  ghost predicate TakesDefined(ctx: ImportContext, maps: Maps, scope: string, imp: IndexedSymbol, target: string,
          name: string, q: string) {
    && target in maps && name in maps[target].directDefs && maps[target].directDefs[name] == q
    && forall x :: IsSymbolOf(ctx, q, x) ==> IsWanted(ctx, scope, imp, x)
  }

  /** A namespace itself, or a name that goes on with a colon. */
  ghost predicate IsWithin(q: string, namespace: string) {
    q == namespace || exists rest: string :: q == namespace + ":" + rest
  }

  /** An import of the target that comes from a namespace which the target exports again. */
  ghost predicate TakesReexported(maps: Maps, target: string, name: string, q: string) {
    && target in maps && name in maps[target].imports && maps[target].imports[name] == q
    && exists namespace :: namespace in maps[target].publicReexports && IsWithin(q, namespace)
  }

  /** Symbol number `k` lies anywhere inside the target, has the name, and has every annotation that is asked for. */
  ghost predicate IsInside(ctx: ImportContext, scope: string, imp: IndexedSymbol, target: string, name: string,
          k: nat) {
    && k < |ctx.symbols| && ctx.symbols[k].name == name && ctx.symbols[k].kind != SymImport
    && (exists rest: string :: ctx.symbols[k].qualifiedName == target + "::" + rest)
    && IsWanted(ctx, scope, imp, ctx.symbols[k])
  }

  /** The last such symbol, for an import that is written with two stars. */
  ghost predicate TakesInside(ctx: ImportContext, scope: string, imp: IndexedSymbol, target: string, name: string,
          q: string) {
    HasSuffix(imp.name, "::**") && exists k: nat ::
      && IsInside(ctx, scope, imp, target, name, k) && ctx.symbols[k].qualifiedName == q
      && forall j: nat :: j > k ==> !IsInside(ctx, scope, imp, target, name, j)
  }

  /** What an import brings under a name: something inside the target, or else something that the target exports
      again, or else what the target defines. */
  ghost predicate Brings(ctx: ImportContext, maps: Maps, scope: string, imp: IndexedSymbol, target: string,
          name: string, q: string) {
    || TakesInside(ctx, scope, imp, target, name, q)
    || (TakesReexported(maps, target, name, q) && forall p :: !TakesInside(ctx, scope, imp, target, name, p))
    || (TakesDefined(ctx, maps, scope, imp, target, name, q)
          && forall p :: !TakesInside(ctx, scope, imp, target, name, p) && !TakesReexported(maps, target, name, p))
  }

  ghost predicate ImportsAs(maps: Maps, scope: string, name: string, q: string) {
    scope in maps && name in maps[scope].imports && maps[scope].imports[name] == q
  }

  /** The entry of a map under a name. */
  function EntryOf(m: map<string, string>, name: string): Option<string> {
    if name in m then Some(m[name]) else None
  }

  // ---------------------------------------------------------------------------------------------
  // The parts
  // ---------------------------------------------------------------------------------------------

  lemma FiltersAreAsked(ctx: ImportContext, scope: string, imp: IndexedSymbol, x: IndexedSymbol)
    ensures HasAll(x.annotations, ActiveFilters(ctx, scope, imp)) <==> IsWanted(ctx, scope, imp, x)
  {
    var filters := ActiveFilters(ctx, scope, imp);
    forall a ensures a in filters <==> IsAsked(ctx, scope, imp, a) {
    }
    if HasAll(x.annotations, filters) {
      forall a | IsAsked(ctx, scope, imp, a) ensures a in x.annotations {
        var k :| 0 <= k < |filters| && filters[k] == a;
      }
    }
  }

  lemma DefinedPasses(ctx: ImportContext, maps: Maps, scope: string, imp: IndexedSymbol, target: string, name: string,
          q: string)
    requires target in maps
    ensures name in maps[target].directDefs && maps[target].directDefs[name] == q
              && Passes(ctx, q, ActiveFilters(ctx, scope, imp))
            <==> TakesDefined(ctx, maps, scope, imp, target, name, q)
  {
    hide HasAll, ActiveFilters, IsWanted;
    forall x: IndexedSymbol
      ensures HasAll(x.annotations, ActiveFilters(ctx, scope, imp)) <==> IsWanted(ctx, scope, imp, x)
    {
      FiltersAreAsked(ctx, scope, imp, x);
    }
    if q in ctx.byQualifiedName && ctx.byQualifiedName[q] < |ctx.symbols| {
      assert IsSymbolOf(ctx, q, ctx.symbols[ctx.byQualifiedName[q]]);
    }
  }

  lemma WithinGoesOn(q: string, namespace: string)
    ensures StartsWith(q, namespace) && (|q| == |namespace| || q[|namespace|] == ':') <==> IsWithin(q, namespace)
  {
    if StartsWith(q, namespace) {
      if |q| == |namespace| {
        assert q == namespace;
      } else if q[|namespace|] == ':' {
        assert q == namespace + ":" + q[|namespace| + 1..];
      }
    }
    if rest: string :| q == namespace + ":" + rest {
      assert q[..|namespace|] == namespace;
    }
  }

  lemma ReexportedIsFrom(maps: Maps, target: string, name: string, q: string)
    requires target in maps
    ensures name in maps[target].imports && maps[target].imports[name] == q
              && FromReexport(maps[target].publicReexports, q)
            <==> TakesReexported(maps, target, name, q)
  {
    hide IsWithin;
    var reexports := maps[target].publicReexports;
    forall ns ensures StartsWith(q, ns) && (|q| == |ns| || q[|ns|] == ':') <==> IsWithin(q, ns) {
      WithinGoesOn(q, ns);
    }
    if ns :| ns in reexports && IsWithin(q, ns) {
      var k :| 0 <= k < |reexports| && reexports[k] == ns;
    }
  }

  lemma DescendantIsInside(ctx: ImportContext, scope: string, imp: IndexedSymbol, target: string, name: string, k: nat)
    ensures k < |ctx.symbols| && IsDescendant(ctx.symbols[k], target, ActiveFilters(ctx, scope, imp))
              && ctx.symbols[k].name == name
            <==> IsInside(ctx, scope, imp, target, name, k)
  {
    hide HasAll, ActiveFilters, IsWanted;
    if k < |ctx.symbols| {
      FiltersAreAsked(ctx, scope, imp, ctx.symbols[k]);
      var q := ctx.symbols[k].qualifiedName;
      if StartsWith(q, target + "::") {
        assert q == target + "::" + q[|target| + 2..];
      }
      if rest: string :| q == target + "::" + rest {
        assert q[..|target| + 2] == target + "::";
      }
    }
  }

  /** The last of the first `n` symbols that is inside the target under the name. */
  ghost predicate LastBelow(ctx: ImportContext, target: string, filters: seq<string>, n: nat, name: string, k: nat)
    requires n <= |ctx.symbols|
  {
    && k < n && IsDescendant(ctx.symbols[k], target, filters) && ctx.symbols[k].name == name
    && forall j :: k < j < n ==> !(IsDescendant(ctx.symbols[j], target, filters) && ctx.symbols[j].name == name)
  }

  lemma {:induction false} DescendantsShow(ctx: ImportContext, v: ScopeVisibility, target: string, filters: seq<string>,
          n: nat, name: string) returns (k: nat)
    requires n <= |ctx.symbols|
    ensures var w := WithDescendants(ctx, v, target, filters, n);
      && w.directDefs == v.directDefs && w.publicReexports == v.publicReexports
      && (LastBelow(ctx, target, filters, n, name, k) ==>
            EntryOf(w.imports, name) ==
              if name in v.directDefs then EntryOf(v.imports, name) else Some(ctx.symbols[k].qualifiedName))
      && (!LastBelow(ctx, target, filters, n, name, k) ==>
            && EntryOf(w.imports, name) == EntryOf(v.imports, name)
            && forall j :: 0 <= j < n ==>
                  !(IsDescendant(ctx.symbols[j], target, filters) && ctx.symbols[j].name == name))
  {
    hide IsDescendant;
    k := 0;
    if n > 0 {
      k := DescendantsShow(ctx, v, target, filters, n - 1, name);
      if IsDescendant(ctx.symbols[n - 1], target, filters) && ctx.symbols[n - 1].name == name {
        k := n - 1;
      }
    }
  }

  /** What the copy of the target's map shows. */
  lemma CopiedShows(ctx: ImportContext, v: ScopeVisibility, targetName: string, target: ScopeVisibility,
          filters: seq<string>, isPublic: bool, name: string)
    ensures var w := Copied(ctx, v, targetName, target, filters, isPublic);
      && w.directDefs == v.directDefs
      && EntryOf(w.imports, name) ==
           if name in v.directDefs then EntryOf(v.imports, name)
           else if name in target.imports && FromReexport(target.publicReexports, target.imports[name])
           then Some(target.imports[name])
           else if name in target.directDefs && Passes(ctx, target.directDefs[name], filters)
           then Some(target.directDefs[name])
           else EntryOf(v.imports, name)
  {
    hide Passes, FromReexport, WithReexports, WithImports, PassingDirects, ReexportedImports;
    var defined := WithImports(v, PassingDirects(ctx, target, filters));
    var named := WithImports(defined, ReexportedImports(target));
    WithImportsShows(v, PassingDirects(ctx, target, filters), name);
    WithImportsShows(defined, ReexportedImports(target), name);
    WithReexportsExtends(named, [targetName] + target.publicReexports);
    SameMapsShow(named, Copied(ctx, v, targetName, target, filters, isPublic), name);
    PassingDirectsAre(ctx, target, filters, name);
    ReexportedImportsAre(target, name);
  }

  lemma SameMapsShow(v: ScopeVisibility, w: ScopeVisibility, name: string)
    requires v.directDefs == w.directDefs && v.imports == w.imports
    ensures EntryOf(v.imports, name) == EntryOf(w.imports, name)
  {
  }

  lemma WithImportsShows(v: ScopeVisibility, more: map<string, string>, name: string)
    ensures var w := WithImports(v, more);
      && w.directDefs == v.directDefs
      && EntryOf(w.imports, name) ==
           if name !in v.directDefs && name in more then Some(more[name]) else EntryOf(v.imports, name)
  {
  }

  lemma PassingDirectsAre(ctx: ImportContext, target: ScopeVisibility, filters: seq<string>, name: string)
    ensures var more := PassingDirects(ctx, target, filters);
      && (name in more <==> name in target.directDefs && Passes(ctx, target.directDefs[name], filters))
      && (name in more ==> more[name] == target.directDefs[name])
  {
    hide Passes;
  }

  lemma ReexportedImportsAre(target: ScopeVisibility, name: string)
    ensures var more := ReexportedImports(target);
      && (name in more <==> name in target.imports && FromReexport(target.publicReexports, target.imports[name]))
      && (name in more ==> more[name] == target.imports[name])
  {
    hide FromReexport;
  }

  // ---------------------------------------------------------------------------------------------
  // The map after an import
  // ---------------------------------------------------------------------------------------------

  lemma InsideIs(ctx: ImportContext, v: ScopeVisibility, scope: string, imp: IndexedSymbol, target: string,
          name: string)
    returns (inside: Option<string>)
    ensures forall p :: TakesInside(ctx, scope, imp, target, name, p) <==> inside == Some(p)
    ensures var filters := ActiveFilters(ctx, scope, imp);
      var w := if IsRecursive(imp) then WithDescendants(ctx, v, target, filters, |ctx.symbols|) else v;
      && w.directDefs == v.directDefs && w.publicReexports == v.publicReexports
      && EntryOf(w.imports, name) == if inside.Some? && name !in v.directDefs then inside else EntryOf(v.imports, name)
  {
    hide IsDescendant, ActiveFilters, IsInside, HasSuffix, IsRecursive, WithDescendants;
    WrittenDecides(imp, "");
    inside := None;
    if IsRecursive(imp) {
      var k := DescendantsShow(ctx, v, target, ActiveFilters(ctx, scope, imp), |ctx.symbols|, name);
      forall j: nat ensures IsInside(ctx, scope, imp, target, name, j) <==>
          j < |ctx.symbols| && IsDescendant(ctx.symbols[j], target, ActiveFilters(ctx, scope, imp))
              && ctx.symbols[j].name == name {
        DescendantIsInside(ctx, scope, imp, target, name, j);
      }
      if LastBelow(ctx, target, ActiveFilters(ctx, scope, imp), |ctx.symbols|, name, k) {
        inside := Some(ctx.symbols[k].qualifiedName);
        forall p ensures TakesInside(ctx, scope, imp, target, name, p) <==> inside == Some(p) {
          if TakesInside(ctx, scope, imp, target, name, p) {
            var i: nat :| IsInside(ctx, scope, imp, target, name, i) && ctx.symbols[i].qualifiedName == p
              && forall j: nat :: j > i ==> !IsInside(ctx, scope, imp, target, name, j);
            assert IsInside(ctx, scope, imp, target, name, k) && i == k;
          }
        }
      }
    }
  }

  lemma OutsideIs(ctx: ImportContext, maps: Maps, scope: string, imp: IndexedSymbol, target: string, name: string)
    returns (again: Option<string>, defined: Option<string>)
    requires scope in maps
    ensures forall p :: TakesReexported(maps, target, name, p) <==> again == Some(p)
    ensures forall p :: TakesDefined(ctx, maps, scope, imp, target, name, p) <==> defined == Some(p)
    ensures var v := maps[scope];
      var w := if target in maps then Copied(ctx, v, target, maps[target], ActiveFilters(ctx, scope, imp), imp.isPublic)
               else v;
      && w.directDefs == v.directDefs
      && EntryOf(w.imports, name) ==
           if name in v.directDefs then EntryOf(v.imports, name)
           else if again.Some? then again
           else if defined.Some? then defined
           else EntryOf(v.imports, name)
  {
    hide Passes, FromReexport, Copied, ActiveFilters, IsSymbolOf, IsWithin, IsWanted;
    again, defined := None, None;
    if target in maps {
      var filters, t := ActiveFilters(ctx, scope, imp), maps[target];
      CopiedShows(ctx, maps[scope], target, t, filters, imp.isPublic, name);
      if name in t.imports && FromReexport(t.publicReexports, t.imports[name]) {
        again := Some(t.imports[name]);
      }
      if name in t.directDefs && Passes(ctx, t.directDefs[name], filters) {
        defined := Some(t.directDefs[name]);
      }
      forall p ensures TakesReexported(maps, target, name, p) <==> again == Some(p) {
        ReexportedIsFrom(maps, target, name, p);
      }
      forall p ensures TakesDefined(ctx, maps, scope, imp, target, name, p) <==> defined == Some(p) {
        DefinedPasses(ctx, maps, scope, imp, target, name, p);
      }
    }
  }

  /** After a wildcard or recursive import a name is imported as what the import brings under it, unless the scope
      defines the name itself; every other name is imported as before. */
  lemma TakingAllBrings(ctx: ImportContext, maps: Maps, scope: string, imp: IndexedSymbol, target: string,
          name: string, q: string)
    requires scope in maps
    ensures ImportsAs(AfterTakingAll(ctx, maps, scope, imp, target), scope, name, q) <==>
            || (name !in maps[scope].directDefs && Brings(ctx, maps, scope, imp, target, name, q))
            || (ImportsAs(maps, scope, name, q) &&
                  (name in maps[scope].directDefs || forall p :: !Brings(ctx, maps, scope, imp, target, name, p)))
  {
    hide Passes, FromReexport, Copied, WithDescendants, IsDescendant, ActiveFilters, TakesDefined, TakesReexported,
      TakesInside, IsRecursive;
    var again, defined := OutsideIs(ctx, maps, scope, imp, target, name);
    var copied := if target in maps
                  then Copied(ctx, maps[scope], target, maps[target], ActiveFilters(ctx, scope, imp), imp.isPublic)
                  else maps[scope];
    var inside := InsideIs(ctx, copied, scope, imp, target, name);
    var brought := if inside.Some? then inside else if again.Some? then again else defined;
    forall p ensures Brings(ctx, maps, scope, imp, target, name, p) <==> brought == Some(p) {
    }
  }

  /** Apart from that only the list of what the scope exports again changes: a public import of a known target adds the
      target and what the target exports again, each of them once. */
  lemma TakingAllExports(ctx: ImportContext, maps: Maps, scope: string, imp: IndexedSymbol, target: string)
    requires scope in maps
    ensures var after := AfterTakingAll(ctx, maps, scope, imp, target);
      && after.Keys == maps.Keys && (forall s :: s in maps && s != scope ==> after[s] == maps[s])
      && after[scope].directDefs == maps[scope].directDefs
      && var more := if imp.isPublic && target in maps then [target] + maps[target].publicReexports else [];
         Adds(maps[scope].publicReexports, more, after[scope].publicReexports)
  {
    hide Passes, FromReexport, WithDescendants, IsDescendant, ActiveFilters, WithReexports, IsRecursive;
    var filters, v := ActiveFilters(ctx, scope, imp), maps[scope];
    var copied := if target in maps then Copied(ctx, v, target, maps[target], filters, imp.isPublic) else v;
    var k := DescendantsShow(ctx, copied, target, filters, |ctx.symbols|, "");
    if target in maps {
      var t := maps[target];
      var named := WithImports(WithImports(v, PassingDirects(ctx, t, filters)), ReexportedImports(t));
      WithReexportsAdds(named, [target] + t.publicReexports);
      WithReexportsExtends(named, [target] + t.publicReexports);
    }
  }

  /** A list goes on with what it did not have, without repeating it. */
  ghost predicate Adds(before: seq<string>, more: seq<string>, after: seq<string>) {
    && before <= after
    && (forall x :: x in after <==> x in before || x in more)
    && (forall i, j :: 0 <= i < j < |after| && |before| <= j ==> after[i] != after[j])
  }

  lemma {:induction false} WithReexportsAdds(v: ScopeVisibility, more: seq<string>)
    ensures Adds(v.publicReexports, more, WithReexports(v, more).publicReexports)
    decreases |more|
  {
    if more != [] {
      var w := v.AddPublicReexport(more[0]);
      WithReexportsAdds(w, more[1..]);
      assert more == [more[0]] + more[1..];
    }
  }

  /** After the import of a single name the target is imported under its last segment, and under the last segment that
      the import was written with, unless the scope defines these names itself; nothing else changes. */
  lemma TakingOneBrings(maps: Maps, scope: string, imp: IndexedSymbol, target: string, written: string, last: string,
          alias: string, name: string, q: string)
    requires scope in maps && IsWritten(imp, written) && IsLast(target, last) && IsLast(written, alias)
    ensures var after := AfterTakingOne(maps, scope, imp, target);
      && (ImportsAs(after, scope, name, q) <==>
            if name !in maps[scope].directDefs && (name == last || name == alias) then q == target
            else ImportsAs(maps, scope, name, q))
      && after == maps[scope := maps[scope].(imports := after[scope].imports)]
  {
    hide IsWritten, IsLast, ImportTarget, LastSegment;
    WrittenDecides(imp, written);
    LastSegmentIsLast(target, last);
    LastSegmentIsLast(written, alias);
  }
}
