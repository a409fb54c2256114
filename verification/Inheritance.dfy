/** Propagating inherited members: copying supertypes' definitions into the maps of their subtypes until
    nothing changes or the limit on passes is reached. */
module Inheritance {
  import opened Wrappers
  import opened IndexData
  import opened Names
  import opened Scopes
  import opened Imports

  /** A symbol's scope, the scope its supertypes are resolved from, and a supertype as written. */
  datatype Edge = Edge(scope: string, parentScope: string, supertype: string)

  const MAX_PASSES := 100

  function LiveName(ctx: ImportContext, name: string): Option<string> {
    if name in ctx.byQualifiedName && ctx.byQualifiedName[name] < |ctx.symbols|
    then Some(ctx.symbols[ctx.byQualifiedName[name]].qualifiedName) else None
  }

  /** What a scope says about a name: a symbol inside it, a direct definition, or an import. */
  function NameInScope(ctx: ImportContext, maps: Maps, scope: string, name: string): Option<string> {
    var inside := LiveName(ctx, Inside(scope, name));
    if inside.Some? then inside
    else if scope in maps then maps[scope].Lookup(name)
    else None
  }

  /** The first answer on the way up that is not the excluded scope; an excluded answer ends the search in
      its scope but not above it. */
  function WalkUp(ctx: ImportContext, maps: Maps, name: string, current: string, excluded: string): Option<string>
    decreases |current|
  {
    var found := NameInScope(ctx, maps, current, name);
    if found.Some? && found.value != excluded then found
    else if current == "" then None
    else WalkUp(ctx, maps, name, ParentScope(current).GetOr(""), excluded)
  }

  function ResolveSupertype(ctx: ImportContext, maps: Maps, edge: Edge): Option<string> {
    var exact := LiveName(ctx, edge.supertype);
    if exact.Some? && exact.value != edge.scope then exact
    else WalkUp(ctx, maps, edge.supertype, edge.parentScope, edge.scope)
  }

  /** Inheritance edges of the live symbols, in symbol order. */
  function EdgesFrom(ctx: ImportContext, n: nat): seq<Edge>
    requires n <= |ctx.symbols|
  {
    if n == 0 then []
    else
      var s := ctx.symbols[n - 1];
      EdgesFrom(ctx, n - 1)
      + (if s.qualifiedName in ctx.byQualifiedName
         then seq(|s.supertypes|, k requires 0 <= k < |s.supertypes| =>
                Edge(s.qualifiedName, ParentScope(s.qualifiedName).GetOr(""), s.supertypes[k]))
         else [])
  }

  // ---------------------------------------------------------------------------------------------
  // One edge
  // ---------------------------------------------------------------------------------------------

  function DirectsOf(maps: Maps, scope: string): map<string, string> {
    if scope in maps then maps[scope].directDefs else map[]
  }

  /** The definitions that an edge would add to its scope. */
  function Missing(ctx: ImportContext, maps: Maps, edge: Edge): map<string, string> {
    var resolved := ResolveSupertype(ctx, maps, edge);
    if resolved.None? || edge.scope !in maps then map[]
    else
      var members := DirectsOf(maps, resolved.value);
      map n | n in members && n !in maps[edge.scope].directDefs :: members[n]
  }

  function Inherit(maps: Maps, scope: string, more: map<string, string>): Maps {
    if scope in maps then maps[scope := maps[scope].(directDefs := maps[scope].directDefs + more)] else maps
  }

  /** The supertype's definitions are all in the subtype. */
  ghost predicate EdgeClosed(ctx: ImportContext, maps: Maps, edge: Edge) {
    var resolved := ResolveSupertype(ctx, maps, edge);
    resolved.Some? && edge.scope in maps ==> DirectsOf(maps, resolved.value).Keys <= maps[edge.scope].directDefs.Keys
  }

  ghost predicate Closed(ctx: ImportContext, maps: Maps, edges: seq<Edge>) {
    forall k :: 0 <= k < |edges| ==> EdgeClosed(ctx, maps, edges[k])
  }

  lemma NothingMissingIsClosed(ctx: ImportContext, maps: Maps, edge: Edge)
    ensures Missing(ctx, maps, edge) == map[] <==> EdgeClosed(ctx, maps, edge)
  {
    hide ResolveSupertype;
    var resolved := ResolveSupertype(ctx, maps, edge);
    if resolved.Some? && edge.scope in maps {
      var members := DirectsOf(maps, resolved.value);
      var more := Missing(ctx, maps, edge);
      assert more.Keys == members.Keys - maps[edge.scope].directDefs.Keys;
      assert more.Keys == {} ==> more == map[];
      if more == map[] {
        forall n | n in members ensures n in maps[edge.scope].directDefs {
          assert n !in more;
        }
      }
    }
  }

  // ---------------------------------------------------------------------------------------------
  // What propagation keeps
  // ---------------------------------------------------------------------------------------------

  /** Scopes, imports and earlier definitions are untouched, and every definition was somebody's originally. */
  ghost predicate Inherited(original: Maps, maps: Maps) {
    && maps.Keys == original.Keys
    && forall s :: s in maps ==> InheritedAt(original, original[s], maps[s])
  }

  ghost predicate InheritedAt(original: Maps, before: ScopeVisibility, after: ScopeVisibility) {
    && after.imports == before.imports && after.publicReexports == before.publicReexports
    && (forall n :: n in before.directDefs ==> n in after.directDefs && after.directDefs[n] == before.directDefs[n])
    && (forall n :: n in after.directDefs ==> IsOriginal(original, n, after.directDefs[n]))
  }

  ghost predicate IsOriginal(original: Maps, name: string, q: string) {
    exists s :: s in original && name in original[s].directDefs && original[s].directDefs[name] == q
  }

  lemma MissingIsOriginal(ctx: ImportContext, original: Maps, maps: Maps, edge: Edge, name: string)
    requires Inherited(original, maps) && name in Missing(ctx, maps, edge)
    ensures IsOriginal(original, name, Missing(ctx, maps, edge)[name])
  {
    hide ResolveSupertype, IsOriginal;
    var resolved := ResolveSupertype(ctx, maps, edge).value;
    assert InheritedAt(original, original[resolved], maps[resolved]);
  }

  lemma InheritKeeps(ctx: ImportContext, original: Maps, maps: Maps, edge: Edge)
    requires Inherited(original, maps)
    ensures Inherited(original, Inherit(maps, edge.scope, Missing(ctx, maps, edge)))
  {
    hide ResolveSupertype, IsOriginal;
    var more := Missing(ctx, maps, edge);
    var after := Inherit(maps, edge.scope, more);
    forall s | s in after ensures InheritedAt(original, original[s], after[s]) {
      assert InheritedAt(original, original[s], maps[s]);
      if s == edge.scope {
        forall n | n in more ensures IsOriginal(original, n, more[n]) {
          MissingIsOriginal(ctx, original, maps, edge, n);
        }
        assert edge.scope in maps ==> more.Keys !! maps[s].directDefs.Keys by {
          MissingIsNew(ctx, maps, edge);
        }
      }
    }
  }

  lemma MissingIsNew(ctx: ImportContext, maps: Maps, edge: Edge)
    ensures Missing(ctx, maps, edge) != map[] ==> edge.scope in maps
    ensures edge.scope in maps ==> Missing(ctx, maps, edge).Keys !! maps[edge.scope].directDefs.Keys
  {
    hide ResolveSupertype;
  }

  // ---------------------------------------------------------------------------------------------
  // How many passes are needed
  // ---------------------------------------------------------------------------------------------

  ghost function Definable(original: Maps): set<string> {
    set s, n | s in original && n in original[s].directDefs :: n
  }

  /** The names that scopes could still come to define. */
  ghost function Room(original: Maps, maps: Maps): set<(string, string)> {
    set s, n | s in maps && n in Definable(original) && n !in maps[s].directDefs :: (s, n)
  }

  lemma DefinesOnlyDefinable(original: Maps, maps: Maps, s: string, n: string)
    requires Inherited(original, maps) && s in maps && n in maps[s].directDefs
    ensures n in Definable(original)
  {
    assert InheritedAt(original, original[s], maps[s]);
    assert IsOriginal(original, n, maps[s].directDefs[n]);
  }

  lemma RoomShrinks(ctx: ImportContext, original: Maps, maps: Maps, edge: Edge)
    requires Inherited(original, maps)
    ensures var after := Inherit(maps, edge.scope, Missing(ctx, maps, edge));
      && |Room(original, after)| <= |Room(original, maps)|
      && (Missing(ctx, maps, edge) != map[] ==> |Room(original, after)| < |Room(original, maps)|)
  {
    hide ResolveSupertype;
    var more := Missing(ctx, maps, edge);
    var after := Inherit(maps, edge.scope, more);
    MissingIsNew(ctx, maps, edge);
    assert Room(original, after) <= Room(original, maps);
    SubsetSize(Room(original, after), Room(original, maps));
    if more != map[] {
      var n :| n in more;
      InheritKeeps(ctx, original, maps, edge);
      DefinesOnlyDefinable(original, after, edge.scope, n);
      assert (edge.scope, n) in Room(original, maps) && (edge.scope, n) !in Room(original, after);
      SubsetSize(Room(original, after), Room(original, maps) - {(edge.scope, n)});
    }
  }

  // ---------------------------------------------------------------------------------------------
  // Propagation
  // ---------------------------------------------------------------------------------------------

  /** The first `n` edges of a pass, each resolved against the maps as they are at its turn. */
  function PassUpTo(ctx: ImportContext, maps: Maps, edges: seq<Edge>, n: nat): Maps
    requires n <= |edges|
  {
    if n == 0 then maps
    else
      var before, edge := PassUpTo(ctx, maps, edges, n - 1), edges[n - 1];
      Inherit(before, edge.scope, Missing(ctx, before, edge))
  }

  /** A number of whole passes. */
  function AfterPasses(ctx: ImportContext, maps: Maps, edges: seq<Edge>, count: nat): Maps {
    if count == 0 then maps
    else PassUpTo(ctx, AfterPasses(ctx, maps, edges, count - 1), edges, |edges|)
  }

  lemma NothingToInherit(maps: Maps, scope: string)
    ensures Inherit(maps, scope, map[]) == maps
  {
    if scope in maps {
      assert maps[scope].directDefs + map[] == maps[scope].directDefs;
      assert maps[scope].(directDefs := maps[scope].directDefs) == maps[scope];
    }
  }

  /** Against closed edges passes do nothing. */
  lemma {:induction false} ClosedPass(ctx: ImportContext, maps: Maps, edges: seq<Edge>, n: nat)
    requires Closed(ctx, maps, edges) && n <= |edges|
    ensures PassUpTo(ctx, maps, edges, n) == maps
  {
    hide Missing, EdgeClosed, Inherit;
    if n > 0 {
      ClosedPass(ctx, maps, edges, n - 1);
      NothingMissingIsClosed(ctx, maps, edges[n - 1]);
      NothingToInherit(maps, edges[n - 1].scope);
    }
  }

  lemma {:induction false} ClosedPasses(ctx: ImportContext, maps: Maps, edges: seq<Edge>, done: nat, count: nat)
    requires Closed(ctx, AfterPasses(ctx, maps, edges, done), edges) && done <= count
    ensures AfterPasses(ctx, maps, edges, count) == AfterPasses(ctx, maps, edges, done)
  {
    hide Closed, PassUpTo;
    if done < count {
      ClosedPasses(ctx, maps, edges, done, count - 1);
      ClosedPass(ctx, AfterPasses(ctx, maps, edges, done), edges, |edges|);
    }
  }

  /** One pass over the edges, each resolved against the maps as they are at its turn. */
  method PropagateOnce(ctx: ImportContext, ghost original: Maps, maps: Maps, edges: seq<Edge>) returns (after: Maps,
          madeProgress: bool)
    requires Inherited(original, maps)
    ensures Inherited(original, after) && after == PassUpTo(ctx, maps, edges, |edges|)
    ensures !madeProgress ==> after == maps && Closed(ctx, maps, edges)
    ensures |Room(original, after)| <= |Room(original, maps)|
    ensures madeProgress ==> |Room(original, after)| < |Room(original, maps)|
  {
    hide Inherited, Missing, EdgeClosed, Room;
    after, madeProgress := maps, false;
    for i := 0 to |edges|
      invariant Inherited(original, after) && after == PassUpTo(ctx, maps, edges, i)
      invariant !madeProgress ==> after == maps && forall k :: 0 <= k < i ==> EdgeClosed(ctx, maps, edges[k])
      invariant |Room(original, after)| <= |Room(original, maps)|
      invariant madeProgress ==> |Room(original, after)| < |Room(original, maps)|
    {
      InheritKeeps(ctx, original, after, edges[i]);
      RoomShrinks(ctx, original, after, edges[i]);
      NothingMissingIsClosed(ctx, after, edges[i]);
      NothingToInherit(after, edges[i].scope);
      var more := Missing(ctx, after, edges[i]);
      if more != map[] {
        after, madeProgress := Inherit(after, edges[i].scope, more), true;
      }
    }
  }

  /** Propagation, for any order of the edges. Nothing that was there is overwritten and nothing is invented;
      when a pass makes no progress the maps are a fixpoint, which happens within the limit whenever fewer
      names are missing than passes are allowed. Either way the result is that of as many passes as the limit. */
  method PropagateInheritedMembers(ctx: ImportContext, maps: Maps, edges: seq<Edge>) returns (after: Maps, stable: bool)
    ensures Inherited(maps, after) && after == AfterPasses(ctx, maps, edges, MAX_PASSES)
    ensures stable ==> Closed(ctx, after, edges)
    ensures |Room(maps, maps)| < MAX_PASSES ==> stable
  {
    hide InheritedAt, EdgeClosed, Room, PassUpTo;
    after := maps;
    var madeProgress := true;
    var left := MAX_PASSES;
    Unpropagated(maps);
    while madeProgress && left > 0
      invariant 0 <= left <= MAX_PASSES && Inherited(maps, after)
      invariant after == AfterPasses(ctx, maps, edges, MAX_PASSES - left)
      invariant !madeProgress ==> Closed(ctx, after, edges)
      invariant madeProgress ==> |Room(maps, after)| + (MAX_PASSES - left) <= |Room(maps, maps)|
      decreases left
    {
      left := left - 1;
      after, madeProgress := PropagateOnce(ctx, maps, after, edges);
    }
    stable := !madeProgress;
    if stable {
      ClosedPasses(ctx, maps, edges, MAX_PASSES - left, MAX_PASSES);
    }
  }

  lemma Unpropagated(maps: Maps)
    ensures Inherited(maps, maps)
  {
    forall s | s in maps ensures InheritedAt(maps, maps[s], maps[s]) {
      forall n | n in maps[s].directDefs ensures IsOriginal(maps, n, maps[s].directDefs[n]) {
      }
    }
  }

  // ---------------------------------------------------------------------------------------------
  // The edges of the symbols, shallow scopes first
  // ---------------------------------------------------------------------------------------------

  function DepthFrom(scope: string, i: nat): nat
    requires i <= |scope|
    decreases |scope| - i
  {
    if i == |scope| then 0
    else if SeparatorAt(scope, i) then 1 + DepthFrom(scope, i + 2)
    else DepthFrom(scope, i + 1)
  }

  /** How many separators a scope's name has. */
  function Depth(scope: string): nat { DepthFrom(scope, 0) }

  ghost predicate ShallowFirst(edges: seq<Edge>) {
    forall i, j :: 0 <= i < j < |edges| ==> Depth(edges[i].scope) <= Depth(edges[j].scope)
  }

  lemma ShallowSnoc(edges: seq<Edge>, last: Edge)
    ensures ShallowFirst(edges) && (forall x :: x in edges ==> Depth(x.scope) <= Depth(last.scope)) ==>
              ShallowFirst(edges + [last])
  {
    assert forall i :: 0 <= i < |edges| ==> edges[i] in edges;
  }

  function InsertByDepth(edges: seq<Edge>, e: Edge): (r: seq<Edge>)
    ensures forall x :: x in r <==> x in edges || x == e
    ensures ShallowFirst(edges) ==> ShallowFirst(r)
  {
    if edges == [] || Depth(edges[|edges| - 1].scope) <= Depth(e.scope) then edges + [e]
    else
      var before, last := edges[..|edges| - 1], edges[|edges| - 1];
      assert edges == before + [last];
      ShallowSnoc(InsertByDepth(before, e), last);
      InsertByDepth(before, e) + [last]
  }

  ghost predicate SameMembers(a: seq<Edge>, b: seq<Edge>) {
    forall e :: e in a <==> e in b
  }

  /** A stable sort by depth. */
  method SortByDepth(edges: seq<Edge>) returns (sorted: seq<Edge>)
    ensures SameMembers(sorted, edges) && ShallowFirst(sorted)
    ensures ShallowFirst(edges) ==> sorted == edges
  {
    sorted := [];
    for i := 0 to |edges|
      invariant SameMembers(sorted, edges[..i]) && ShallowFirst(sorted)
      invariant ShallowFirst(edges) ==> sorted == edges[..i]
    {
      assert edges[..i + 1] == edges[..i] + [edges[i]];
      sorted := InsertByDepth(sorted, edges[i]);
    }
    assert edges[..|edges|] == edges;
  }

  ghost predicate IsEdge(ctx: ImportContext, e: Edge) {
    exists k, j :: 0 <= k < |ctx.symbols| && ctx.symbols[k].qualifiedName in ctx.byQualifiedName
      && 0 <= j < |ctx.symbols[k].supertypes|
      && e == Edge(ctx.symbols[k].qualifiedName, ParentScope(ctx.symbols[k].qualifiedName).GetOr(""),
            ctx.symbols[k].supertypes[j])
  }

  lemma {:induction false} EdgesAreCollected(ctx: ImportContext, n: nat, k: nat, j: nat)
    requires k < n <= |ctx.symbols| && ctx.symbols[k].qualifiedName in ctx.byQualifiedName
    requires j < |ctx.symbols[k].supertypes|
    ensures Edge(ctx.symbols[k].qualifiedName, ParentScope(ctx.symbols[k].qualifiedName).GetOr(""),
              ctx.symbols[k].supertypes[j])
            in EdgesFrom(ctx, n)
  {
    hide ParentScope;
    if k < n - 1 {
      EdgesAreCollected(ctx, n - 1, k, j);
    } else {
      var s := ctx.symbols[k];
      var own := seq(|s.supertypes|, k requires 0 <= k < |s.supertypes| =>
                   Edge(s.qualifiedName, ParentScope(s.qualifiedName).GetOr(""), s.supertypes[k]));
      assert own[j] == Edge(s.qualifiedName, ParentScope(s.qualifiedName).GetOr(""), s.supertypes[j]);
      assert own[j] in own;
    }
  }

  /** Every supertype of every live symbol has given its definitions to the symbol's scope. */
  ghost predicate InheritsAll(ctx: ImportContext, maps: Maps) {
    forall e :: IsEdge(ctx, e) ==> EdgeClosed(ctx, maps, e)
  }

  lemma ClosedInheritsAll(ctx: ImportContext, maps: Maps, edges: seq<Edge>)
    requires SameMembers(edges, EdgesFrom(ctx, |ctx.symbols|)) && Closed(ctx, maps, edges)
    ensures InheritsAll(ctx, maps)
  {
    hide EdgeClosed;
    forall e | IsEdge(ctx, e) ensures EdgeClosed(ctx, maps, e) {
      var k, j :| 0 <= k < |ctx.symbols| && ctx.symbols[k].qualifiedName in ctx.byQualifiedName
        && 0 <= j < |ctx.symbols[k].supertypes|
        && e == Edge(ctx.symbols[k].qualifiedName, ParentScope(ctx.symbols[k].qualifiedName).GetOr(""),
              ctx.symbols[k].supertypes[j]);
      EdgesAreCollected(ctx, |ctx.symbols|, k, j);
      assert e in edges;
    }
  }

  /** The inheritance part of the visibility build. */
  method InheritFromSupertypes(ctx: ImportContext, maps: Maps) returns (after: Maps, stable: bool)
    ensures ShallowFirst(EdgesFrom(ctx, |ctx.symbols|)) ==>
              after == AfterPasses(ctx, maps, EdgesFrom(ctx, |ctx.symbols|), MAX_PASSES)
    ensures Inherited(maps, after)
    ensures stable ==> InheritsAll(ctx, after)
    ensures |Room(maps, maps)| < MAX_PASSES ==> stable
  {
    hide Inherited, Closed, InheritsAll, Room, AfterPasses, ShallowFirst;
    var edges := [];
    for n := 0 to |ctx.symbols|
      invariant edges == EdgesFrom(ctx, n)
    {
      var s := ctx.symbols[n];
      var own := [];
      if s.qualifiedName in ctx.byQualifiedName {
        var parent := FindParentScope(s.qualifiedName);
        own := seq(|s.supertypes|,
            k requires 0 <= k < |s.supertypes| => Edge(s.qualifiedName, parent.GetOr(""), s.supertypes[k]));
      }
      edges := edges + own;
    }
    var sorted := SortByDepth(edges);
    after, stable := PropagateInheritedMembers(ctx, maps, sorted);
    if stable {
      ClosedInheritsAll(ctx, after, sorted);
    }
  }

  /** No scope is its own supertype. */
  lemma {:induction false} NeverResolvesToItself(ctx: ImportContext, maps: Maps, edge: Edge)
    ensures ResolveSupertype(ctx, maps, edge) != Some(edge.scope)
  {
    WalkAvoidsExcluded(ctx, maps, edge.supertype, edge.parentScope, edge.scope);
  }

  lemma {:induction false} WalkAvoidsExcluded(ctx: ImportContext, maps: Maps, name: string, current: string,
          excluded: string)
    ensures WalkUp(ctx, maps, name, current, excluded) != Some(excluded)
    decreases |current|
  {
    hide NameInScope;
    if current != "" {
      WalkAvoidsExcluded(ctx, maps, name, ParentScope(current).GetOr(""), excluded);
    }
  }
}
