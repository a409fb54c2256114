/** What the target of an import is, told from the known scopes, the children and the visibility maps alone. */
module ImportTargets {
  import opened Wrappers
  import opened ElementKinds
  import opened IndexData
  import opened Names
  import opened Scopes
  import opened Segments
  import opened Imports

  /** A scope's map shows a name: as a direct definition, or else as an import. */
  ghost predicate Shows(maps: Maps, scope: string, name: string, q: string) {
    scope in maps &&
      if name in maps[scope].directDefs then maps[scope].directDefs[name] == q
      else name in maps[scope].imports && maps[scope].imports[name] == q
  }

  /** A scope's child in list position `k` has the short name. */
  ghost predicate ChildHasShortName(ctx: ImportContext, scope: string, k: nat, shortName: string) {
    && scope in ctx.byParentScope && k < |ctx.byParentScope[scope]| && ctx.byParentScope[scope][k] < |ctx.symbols|
    && ctx.symbols[ctx.byParentScope[scope][k]].shortName == Some(shortName)
  }

  /** The first child of a scope that has the short name. */
  ghost predicate FirstChild(ctx: ImportContext, scope: string, shortName: string, q: string) {
    exists k: nat ::
      && ChildHasShortName(ctx, scope, k, shortName)
            && (forall j: nat :: j < k ==> !ChildHasShortName(ctx, scope, j, shortName))
      && ctx.symbols[ctx.byParentScope[scope][k]].qualifiedName == q
  }

  /** What a segment names in its parent: a scope inside it, or else its first child of that short name, or else what
      the parent's map shows. */
  ghost predicate NamesInParent(ctx: ImportContext, maps: Maps, parent: string, segment: string, q: string) {
    if parent + "::" + segment in maps then q == parent + "::" + segment
    else if exists p :: FirstChild(ctx, parent, segment, p) then FirstChild(ctx, parent, segment, q)
    else Shows(maps, parent, segment, q)
  }

  ghost predicate KnownBefore(maps: Maps, chain: seq<string>, target: string, n: nat)
    requires n <= |chain|
  {
    exists j :: 0 <= j < n && InsideOf(chain[j], target) in maps
  }

  /** The known scope of that name in the nearest scope on the way out that has one, or else the target as written. */
  ghost predicate IsNearest(maps: Maps, scope: string, target: string, q: string) {
    exists chain :: IsOutward(chain, scope) &&
      if KnownBefore(maps, chain, target, |chain|) then
        exists k :: 0 <= k < |chain| && q == InsideOf(chain[k], target) && q in maps
            && !KnownBefore(maps, chain, target, k)
      else q == target
  }

  /** The target of an import that stands in a scope. */
  ghost predicate IsTarget(ctx: ImportContext, maps: Maps, scope: string, target: string, q: string)
    decreases |target|, 0
  {
    if !HasSeparator(target) then
      if exists p :: Shows(maps, scope, target, p) then Shows(maps, scope, target, q)
          else IsNearest(maps, scope, target, q)
    else if target in maps then q == target
    else
      exists init: string, last: string, parent: string ::
        && InitAndLast(target, init, last) && |init| < |target|
        && IsParent(ctx, maps, scope, init, parent) && NamedOrNearest(ctx, maps, scope, target, parent, last, q)
  }

  /** The scope that the part of a target before its last segment names: itself if it is known, or its own target. */
  ghost predicate IsParent(ctx: ImportContext, maps: Maps, scope: string, init: string, parent: string)
    decreases |init|, 1
  {
    if init in maps then parent == init else IsTarget(ctx, maps, scope, init, parent)
  }

  /** What the parent names by the last segment, or else the nearest scope with the whole target in it. */
  ghost predicate NamedOrNearest(ctx: ImportContext, maps: Maps, scope: string, target: string, parent: string,
          last: string, q: string) {
    if exists p :: NamesInParent(ctx, maps, parent, last, p) then NamesInParent(ctx, maps, parent, last, q)
    else IsNearest(maps, scope, target, q)
  }

  // ---------------------------------------------------------------------------------------------
  // The parts
  // ---------------------------------------------------------------------------------------------

  lemma LookupShows(maps: Maps, scope: string, name: string, q: string)
    requires scope in maps
    ensures maps[scope].Lookup(name) == Some(q) <==> Shows(maps, scope, name, q)
  {
  }

  /** The first of the listed slots that has the short name. */
  ghost predicate HasShortName(symbols: seq<IndexedSymbol>, slots: seq<nat>, k: nat, shortName: string) {
    k < |slots| && slots[k] < |symbols| && symbols[slots[k]].shortName == Some(shortName)
  }

  lemma {:induction false} ShortNameFinds(symbols: seq<IndexedSymbol>, slots: seq<nat>, shortName: string)
    returns (k: nat)
    ensures var r := ChildByShortName(symbols, slots, shortName);
      && (r.Some? ==> && HasShortName(symbols, slots, k, shortName) && symbols[slots[k]].qualifiedName == r.value
                      && forall j: nat :: j < k ==> !HasShortName(symbols, slots, j, shortName))
      && (r.None? ==> forall j: nat :: !HasShortName(symbols, slots, j, shortName))
  {
    k := 0;
    if slots != [] && !HasShortName(symbols, slots, 0, shortName) {
      k := ShortNameFinds(symbols, slots[1..], shortName);
      forall j: nat | j > 0
        ensures HasShortName(symbols, slots, j, shortName) == HasShortName(symbols, slots[1..], j - 1, shortName)
      {
      }
      k := k + 1;
    }
  }

  lemma ChildIsFirst(ctx: ImportContext, scope: string, shortName: string, q: string)
    ensures var child := if scope in ctx.byParentScope
                         then ChildByShortName(ctx.symbols, ctx.byParentScope[scope], shortName) else None;
      child == Some(q) <==> FirstChild(ctx, scope, shortName, q)
  {
    if scope in ctx.byParentScope {
      var slots := ctx.byParentScope[scope];
      var k := ShortNameFinds(ctx.symbols, slots, shortName);
      forall j: nat
        ensures HasShortName(ctx.symbols, slots, j, shortName) == ChildHasShortName(ctx, scope, j, shortName)
      {
      }
      if FirstChild(ctx, scope, shortName, q) {
        var i: nat :| ChildHasShortName(ctx, scope, i, shortName)
          && (forall j: nat :: j < i ==> !ChildHasShortName(ctx, scope, j, shortName))
                && ctx.symbols[slots[i]].qualifiedName == q;
        assert HasShortName(ctx.symbols, slots, i, shortName);
        assert i == k;
      }
    }
  }

  lemma SegmentNames(ctx: ImportContext, maps: Maps, parent: string, segment: string, q: string)
    ensures ResolveSegment(ctx, maps, parent, segment) == Some(q) <==> NamesInParent(ctx, maps, parent, segment, q)
  {
    hide FirstChild, ChildByShortName, ScopeVisibility.Lookup, Shows;
    var child :=
        if parent in ctx.byParentScope then ChildByShortName(ctx.symbols, ctx.byParentScope[parent], segment) else None;
    forall p ensures child == Some(p) <==> FirstChild(ctx, parent, segment, p) {
      ChildIsFirst(ctx, parent, segment, p);
    }
    assert child.Some? ==> FirstChild(ctx, parent, segment, child.value);
    if parent in maps {
      LookupShows(maps, parent, segment, q);
    } else {
      UnknownShowsNothing(maps, parent, segment, q);
    }
  }

  lemma UnknownShowsNothing(maps: Maps, scope: string, name: string, q: string)
    requires scope !in maps
    ensures !Shows(maps, scope, name, q)
  {
  }

  /** Scope number `k` is the nearest one in which the target is known. */
  ghost predicate KnownFirst(maps: Maps, chain: seq<string>, target: string, k: nat) {
    k < |chain| && InsideOf(chain[k], target) in maps && !KnownBefore(maps, chain, target, k)
  }

  lemma {:induction false} NestedIsFirst(maps: Maps, scope: string, target: string) returns (k: nat)
    ensures var chain, r := LexicalChain(scope), NestedScope(maps, scope, target);
      && (r.Some? <==> KnownBefore(maps, chain, target, |chain|))
      && (r.Some? ==> KnownFirst(maps, chain, target, k) && r.value == InsideOf(chain[k], target))
    decreases |scope|
  {
    hide Up;
    var chain, up := LexicalChain(scope), Up(scope);
    k := 0;
    if Inside(scope, target) in maps {
      assert InsideOf(chain[0], target) in maps;
    } else if up.Some? {
      var outer := LexicalChain(up.value);
      assert chain == [scope] + outer;
      k := NestedIsFirst(maps, up.value, target);
      KnownFurther(maps, scope, outer, target);
      k := k + 1;
    } else {
      assert chain == [scope];
    }
  }

  lemma KnownFurther(maps: Maps, scope: string, outer: seq<string>, target: string)
    requires InsideOf(scope, target) !in maps
    ensures forall n {:trigger KnownBefore(maps, outer, target, n)} ::
              0 <= n <= |outer| ==>
                  KnownBefore(maps, [scope] + outer, target, n + 1) == KnownBefore(maps, outer, target, n)
  {
    var chain := [scope] + outer;
    assert forall k :: 0 <= k < |outer| ==> outer[k] == chain[k + 1];
    forall n | 0 <= n <= |outer|
      ensures KnownBefore(maps, chain, target, n + 1) == KnownBefore(maps, outer, target, n)
    {
      if j :| 0 <= j < n + 1 && InsideOf(chain[j], target) in maps {
        assert InsideOf(outer[j - 1], target) in maps;
      }
      if j :| 0 <= j < n && InsideOf(outer[j], target) in maps {
        assert InsideOf(chain[j + 1], target) in maps;
      }
    }
  }

  lemma NotBefore(maps: Maps, chain: seq<string>, target: string, i: nat, k: nat)
    requires i < |chain| && InsideOf(chain[i], target) in maps && k <= |chain| && !KnownBefore(maps, chain, target, k)
    ensures i >= k
  {
  }

  lemma NestedIsNearest(maps: Maps, scope: string, target: string, q: string)
    ensures NestedScope(maps, scope, target).GetOr(target) == q <==> IsNearest(maps, scope, target, q)
  {
    hide IsOutward, InsideOf, NestedScope, LexicalChain;
    ChainIsOutward(scope);
    var chain := LexicalChain(scope);
    var k := NestedIsFirst(maps, scope, target);
    forall c | IsOutward(c, scope) ensures c == chain {
      OutwardIsUnique(c, scope);
    }
    if KnownBefore(maps, chain, target, |chain|) {
      forall i | 0 <= i < |chain| && InsideOf(chain[i], target) in maps && !KnownBefore(maps, chain, target, i)
        ensures i == k
      {
        NotBefore(maps, chain, target, i, k);
        NotBefore(maps, chain, target, k, i);
      }
    }
  }

  // ---------------------------------------------------------------------------------------------
  // The target
  // ---------------------------------------------------------------------------------------------

  /** A simple target: what the scope's own map shows, or else the nearest scope of that name. */
  lemma SimpleTarget(ctx: ImportContext, maps: Maps, scope: string, target: string, q: string)
    requires !HasSeparator(target)
    ensures ResolveImportTarget(ctx, maps, scope, target) == q <==> IsTarget(ctx, maps, scope, target, q)
  {
    hide IsNearest, NestedScope, HasSeparator, RSplitOnce, Shows, ScopeVisibility.Lookup;
    RSplitIsLast(target);
    NestedIsNearest(maps, scope, target, q);
    forall p ensures Shows(maps, scope, target, p) <==> scope in maps && maps[scope].Lookup(target) == Some(p) {
      if scope in maps {
        LookupShows(maps, scope, target, p);
      } else {
        UnknownShowsNothing(maps, scope, target, p);
      }
    }
    assert scope in maps && maps[scope].Lookup(target).Some? ==>
        Shows(maps, scope, target, maps[scope].Lookup(target).value);
  }

  /** What the code resolves an import's target to is its target. */
  lemma {:induction false} TargetIsResolved(ctx: ImportContext, maps: Maps, scope: string, target: string, q: string)
    ensures ResolveImportTarget(ctx, maps, scope, target) == q <==> IsTarget(ctx, maps, scope, target, q)
    decreases |target|
  {
    hide IsNearest, NestedScope, HasSeparator, RSplitOnce, InitAndLast, ResolveSegment, NamesInParent;
    if !HasSeparator(target) {
      SimpleTarget(ctx, maps, scope, target, q);
    } else if target in maps {
      RSplitIsLast(target);
    } else {
      RSplitIsLast(target);
      var (init, last) := RSplitOnce(target).value;
      NestedIsNearest(maps, scope, target, q);
      var parent := if init in maps then init else ResolveImportTarget(ctx, maps, scope, init);
      forall p ensures IsParent(ctx, maps, scope, init, p) <==> p == parent {
        if init !in maps {
          TargetIsResolved(ctx, maps, scope, init, p);
        }
      }
      QualifiedTarget(ctx, maps, scope, target, init, last, parent, q);
      var found := ResolveSegment(ctx, maps, parent, last);
      forall p ensures found == Some(p) <==> NamesInParent(ctx, maps, parent, last, p) {
        SegmentNames(ctx, maps, parent, last, p);
      }
      assert found.Some? ==> NamesInParent(ctx, maps, parent, last, found.value);
    }
  }

  /** A qualified target that is no known scope, once its parent is known. */
  lemma QualifiedTarget(ctx: ImportContext, maps: Maps, scope: string, target: string, init: string, last: string,
          parent: string, q: string)
    requires HasSeparator(target) && target !in maps && InitAndLast(target, init, last) && |init| < |target|
    requires forall p :: IsParent(ctx, maps, scope, init, p) <==> p == parent
    ensures IsTarget(ctx, maps, scope, target, q) <==> NamedOrNearest(ctx, maps, scope, target, parent, last, q)
  {
    hide NamedOrNearest, HasSeparator, RSplitOnce, InitAndLast;
    forall i: string, l: string | InitAndLast(target, i, l) ensures i == init && l == last {
      LastIsUnique(target, init, last);
      LastIsUnique(target, i, l);
    }
  }
}
