/** What a supertype written in an inheritance edge is, told from the live names and the visibility maps alone. */
module SupertypeTargets {
  import opened Wrappers
  import opened IndexData
  import opened Names
  import opened Scopes
  import opened Segments
  import opened Imports
  import opened ImportTargets
  import opened Inheritance

  /** A name leads to a symbol with the qualified name `q`. */
  ghost predicate IsLiveName(ctx: ImportContext, name: string, q: string) {
    && name in ctx.byQualifiedName && ctx.byQualifiedName[name] < |ctx.symbols|
    && ctx.symbols[ctx.byQualifiedName[name]].qualifiedName == q
  }

  /** What one scope says about a name: a symbol inside it, or else what its map shows. */
  ghost predicate Says(ctx: ImportContext, maps: Maps, scope: string, name: string, q: string) {
    if exists p :: IsLiveName(ctx, InsideOf(scope, name), p) then IsLiveName(ctx, InsideOf(scope, name), q)
    else Shows(maps, scope, name, q)
  }

  /** From a scope up through the parents to the root. */
  ghost predicate IsParentChain(chain: seq<string>, scope: string) {
    && chain != [] && chain[0] == scope && chain[|chain| - 1] == ""
    && forall k :: 0 <= k < |chain| - 1 ==> chain[k] != "" && ParentScope(chain[k]) == Some(chain[k + 1])
  }

  /** The first `n` scopes say nothing about the name, or only that it is the excluded scope. */
  ghost predicate OnlyExcludedBefore(ctx: ImportContext, maps: Maps, chain: seq<string>, name: string,
          excluded: string, n: nat)
    requires n <= |chain|
  {
    forall j, p :: 0 <= j < n && Says(ctx, maps, chain[j], name, p) ==> p == excluded
  }

  /** The first answer on the chain that is not the excluded scope. */
  ghost predicate IsFirstOther(ctx: ImportContext, maps: Maps, chain: seq<string>, name: string, excluded: string,
          q: string) {
    q != excluded && exists k ::
      0 <= k < |chain| && Says(ctx, maps, chain[k], name, q) && OnlyExcludedBefore(ctx, maps, chain, name, excluded, k)
  }

  /** The supertype of an edge: the symbol of exactly that name, if it is not the edge's own scope; or else the first
      answer other than that scope, from the edge's parent scope up to the root. */
  ghost predicate IsSupertype(ctx: ImportContext, maps: Maps, edge: Edge, q: string) {
    if exists p :: IsLiveName(ctx, edge.supertype, p) && p != edge.scope then IsLiveName(ctx, edge.supertype, q)
    else
      exists chain ::
        IsParentChain(chain, edge.parentScope) && IsFirstOther(ctx, maps, chain, edge.supertype, edge.scope, q)
  }

  // ---------------------------------------------------------------------------------------------
  // One scope
  // ---------------------------------------------------------------------------------------------

  lemma LiveNameIs(ctx: ImportContext, name: string, q: string)
    ensures LiveName(ctx, name) == Some(q) <==> IsLiveName(ctx, name, q)
  {
  }

  lemma NameInScopeSays(ctx: ImportContext, maps: Maps, scope: string, name: string, q: string)
    ensures NameInScope(ctx, maps, scope, name) == Some(q) <==> Says(ctx, maps, scope, name, q)
  {
    hide IsLiveName, LiveName, Shows, ScopeVisibility.Lookup;
    var inside := LiveName(ctx, Inside(scope, name));
    forall p ensures inside == Some(p) <==> IsLiveName(ctx, InsideOf(scope, name), p) {
      LiveNameIs(ctx, Inside(scope, name), p);
    }
    assert inside.Some? ==> IsLiveName(ctx, InsideOf(scope, name), inside.value);
    if scope in maps {
      LookupShows(maps, scope, name, q);
    } else {
      UnknownShowsNothing(maps, scope, name, q);
    }
  }

  // ---------------------------------------------------------------------------------------------
  // The chain
  // ---------------------------------------------------------------------------------------------

  function ParentChain(scope: string): (r: seq<string>)
    ensures r != [] && r[0] == scope
    decreases |scope|
  {
    if scope == "" then [""] else [scope] + ParentChain(ParentScope(scope).GetOr(""))
  }

  lemma {:induction false} ParentChainIsChain(scope: string)
    ensures IsParentChain(ParentChain(scope), scope)
    decreases |scope|
  {
    hide ParentScope;
    if scope != "" {
      HasParent(scope);
      ParentChainIsChain(ParentScope(scope).value);
    }
  }

  lemma HasParent(scope: string)
    requires scope != ""
    ensures ParentScope(scope).Some?
  {
  }

  lemma {:induction false} ParentChainIsUnique(chain: seq<string>, scope: string)
    requires IsParentChain(chain, scope)
    ensures chain == ParentChain(scope)
    decreases |chain|
  {
    hide ParentScope;
    if scope == "" {
      assert |chain| == 1;
    } else {
      assert ParentScope(chain[0]) == Some(chain[1]);
      assert forall k :: 0 <= k < |chain[1..]| ==> chain[1..][k] == chain[k + 1];
      ParentChainIsUnique(chain[1..], chain[1]);
      assert chain == [scope] + chain[1..];
    }
  }

  /** One scope more on the near end of the chain. */
  lemma FirstOtherNearer(ctx: ImportContext, maps: Maps, scope: string, outer: seq<string>, name: string,
          excluded: string, q: string)
    ensures IsFirstOther(ctx, maps, [scope] + outer, name, excluded, q) <==>
      || (q != excluded && Says(ctx, maps, scope, name, q))
      || ((forall p :: Says(ctx, maps, scope, name, p) ==> p == excluded)
          && IsFirstOther(ctx, maps, outer, name, excluded, q))
  {
    hide Says;
    var chain := [scope] + outer;
    assert forall k :: 0 <= k < |outer| ==> outer[k] == chain[k + 1];
    assert forall k :: 1 <= k < |chain| ==> chain[k] == outer[k - 1];
    if q != excluded && Says(ctx, maps, scope, name, q) {
      assert chain[0] == scope && OnlyExcludedBefore(ctx, maps, chain, name, excluded, 0);
    }
    if IsFirstOther(ctx, maps, chain, name, excluded, q) {
      var k :| 0 <= k < |chain| && Says(ctx, maps, chain[k], name, q)
          && OnlyExcludedBefore(ctx, maps, chain, name, excluded, k);
      if k > 0 {
        assert chain[0] == scope;
        assert OnlyExcludedBefore(ctx, maps, outer, name, excluded, k - 1);
        assert outer[k - 1] == chain[k];
      }
    }
    if (forall p :: Says(ctx, maps, scope, name, p) ==> p == excluded)
        && IsFirstOther(ctx, maps, outer, name, excluded, q) {
      var k :| 0 <= k < |outer| && Says(ctx, maps, outer[k], name, q)
          && OnlyExcludedBefore(ctx, maps, outer, name, excluded, k);
      assert OnlyExcludedBefore(ctx, maps, chain, name, excluded, k + 1);
      assert chain[k + 1] == outer[k];
    }
  }

  lemma NothingOnEmpty(ctx: ImportContext, maps: Maps, name: string, excluded: string, q: string)
    ensures !IsFirstOther(ctx, maps, [], name, excluded, q)
  {
  }

  lemma {:induction false} WalkFindsFirstOther(ctx: ImportContext, maps: Maps, name: string, scope: string,
          excluded: string, q: string)
    ensures WalkUp(ctx, maps, name, scope, excluded) == Some(q) <==>
              IsFirstOther(ctx, maps, ParentChain(scope), name, excluded, q)
    decreases |scope|
  {
    hide Says, NameInScope, IsFirstOther, ParentScope;
    var found := NameInScope(ctx, maps, scope, name);
    forall p ensures found == Some(p) <==> Says(ctx, maps, scope, name, p) {
      NameInScopeSays(ctx, maps, scope, name, p);
    }
    assert found.Some? ==> Says(ctx, maps, scope, name, found.value);
    if scope == "" {
      NothingOnEmpty(ctx, maps, name, excluded, q);
      FirstOtherNearer(ctx, maps, scope, [], name, excluded, q);
      assert ParentChain(scope) == [scope] + [];
    } else {
      var up := ParentScope(scope).GetOr("");
      WalkFindsFirstOther(ctx, maps, name, up, excluded, q);
      FirstOtherNearer(ctx, maps, scope, ParentChain(up), name, excluded, q);
    }
  }

  // ---------------------------------------------------------------------------------------------
  // The supertype
  // ---------------------------------------------------------------------------------------------

  /** An edge is resolved to a supertype exactly if that is its supertype; so it is resolved to nothing exactly if
      neither the exact name nor any scope up to the root answers with another scope than its own. */
  lemma SupertypeIsResolved(ctx: ImportContext, maps: Maps, edge: Edge, q: string)
    ensures ResolveSupertype(ctx, maps, edge) == Some(q) <==> IsSupertype(ctx, maps, edge, q)
  {
    hide IsLiveName, LiveName, IsFirstOther, WalkUp, IsParentChain, ParentChain;
    forall p ensures LiveName(ctx, edge.supertype) == Some(p) <==> IsLiveName(ctx, edge.supertype, p) {
      LiveNameIs(ctx, edge.supertype, p);
    }
    var exact := LiveName(ctx, edge.supertype);
    assert exact.Some? ==> IsLiveName(ctx, edge.supertype, exact.value);
    WalkFindsFirstOther(ctx, maps, edge.supertype, edge.parentScope, edge.scope, q);
    ParentChainIsChain(edge.parentScope);
    forall chain | IsParentChain(chain, edge.parentScope) ensures chain == ParentChain(edge.parentScope) {
      ParentChainIsUnique(chain, edge.parentScope);
    }
  }

  lemma UnresolvedHasNone(ctx: ImportContext, maps: Maps, edge: Edge)
    ensures ResolveSupertype(ctx, maps, edge) == None <==> forall q :: !IsSupertype(ctx, maps, edge, q)
  {
    hide ResolveSupertype, IsSupertype;
    forall q ensures ResolveSupertype(ctx, maps, edge) == Some(q) <==> IsSupertype(ctx, maps, edge, q) {
      SupertypeIsResolved(ctx, maps, edge, q);
    }
  }

  /** Once propagation has become stable, the scope of every live symbol defines all names that its
      supertypes define. */
  lemma StableMapsInherit(ctx: ImportContext, maps: Maps, edge: Edge, q: string, name: string)
    requires InheritsAll(ctx, maps) && IsEdge(ctx, edge) && IsSupertype(ctx, maps, edge, q)
    requires edge.scope in maps && q in maps && name in maps[q].directDefs
    ensures name in maps[edge.scope].directDefs
  {
    hide ResolveSupertype, IsSupertype, IsEdge;
    SupertypeIsResolved(ctx, maps, edge, q);
    assert EdgeClosed(ctx, maps, edge);
  }
}
