/** Inheritance along chains: a chain of definitions is followed exactly as far as the limit on passes allows. */
module InheritanceChains {
  import opened Wrappers
  import opened ElementKinds
  import opened IndexData
  import opened Names
  import opened Scopes
  import opened Imports
  import opened Inheritance

  /** Each scope inherits from the next one. */
  ghost predicate IsChain(ctx: ImportContext, names: seq<string>, edges: seq<Edge>) {
    && |names| == |edges| + 1 && (forall i, j :: 0 <= i < j < |names| ==> names[i] != names[j])
    && forall k :: 0 <= k < |edges| ==> IsLink(ctx, names[k], names[k + 1], edges[k])
  }

  /** The edge names the next scope, as it is called exactly or as it is called in the package around the edge's
      scope. */
  ghost predicate IsLink(ctx: ImportContext, scope: string, next: string, edge: Edge) {
    && edge.scope == scope
    && (LiveName(ctx, edge.supertype) == Some(next)
        || (LiveName(ctx, edge.supertype) == None
              && LiveName(ctx, Inside(edge.parentScope, edge.supertype)) == Some(next)))
  }

  /** From scope `first` on the member is defined, and before that nothing is. */
  ghost predicate DefinedFrom(maps: Maps, names: seq<string>, first: int, member: map<string, string>) {
    forall k :: 0 <= k < |names| ==>
      names[k] in maps && maps[names[k]].directDefs == if k >= first then member else map[]
  }

  /** Within a pass, after the first `i` edges. */
  ghost predicate DefinedWithin(maps: Maps, names: seq<string>, first: int, i: nat, member: map<string, string>) {
    forall k :: 0 <= k < |names| ==>
      && names[k] in maps
      && maps[names[k]].directDefs == if k >= first || (k < i && k == first - 1) then member else map[]
  }

  lemma LinkResolves(ctx: ImportContext, maps: Maps, scope: string, next: string, edge: Edge)
    requires IsLink(ctx, scope, next, edge) && scope != next
    ensures ResolveSupertype(ctx, maps, edge) == Some(next)
  {
  }

  /** One edge of the chain hands the member on if the next scope has it. */
  lemma LinkHandsOn(ctx: ImportContext, maps: Maps, scope: string, next: string, edge: Edge,
          member: map<string, string>)
    requires IsLink(ctx, scope, next, edge) && scope != next && scope in maps && next in maps
    requires maps[next].directDefs == member || maps[next].directDefs == map[]
    requires maps[scope].directDefs == member || maps[scope].directDefs == map[]
    ensures var after := Inherit(maps, scope, Missing(ctx, maps, edge));
      && after.Keys == maps.Keys && (forall s :: s in maps && s != scope ==> after[s] == maps[s])
      && after[scope].directDefs == if maps[next].directDefs == member then member else maps[scope].directDefs
  {
    hide ResolveSupertype, IsLink;
    LinkResolves(ctx, maps, scope, next, edge);
    ScopeOfLink(ctx, scope, next, edge);
    var here, more := maps[scope].directDefs, Missing(ctx, maps, edge);
    assert forall n :: n in more <==> n in maps[next].directDefs && n !in here;
    assert here != map[] ==> more.Keys == {};
    assert more == if here == map[] then maps[next].directDefs else map[];
    assert here + more == if maps[next].directDefs == member then member else here;
  }

  lemma {:induction false} ChainWithin(ctx: ImportContext, maps: Maps, names: seq<string>, edges: seq<Edge>, first: int,
          member: map<string, string>, i: nat)
    requires IsChain(ctx, names, edges) && DefinedFrom(maps, names, first, member) && i <= |edges| && first <= |edges|
    ensures DefinedWithin(PassUpTo(ctx, maps, edges, i), names, first, i, member)
  {
    hide IsLink, Inherit, Missing;
    if i > 0 {
      ChainWithin(ctx, maps, names, edges, first, member, i - 1);
      var before := PassUpTo(ctx, maps, edges, i - 1);
      assert IsLink(ctx, names[i - 1], names[i], edges[i - 1]);
      assert edges[i - 1].scope == names[i - 1] by {
        ScopeOfLink(ctx, names[i - 1], names[i], edges[i - 1]);
      }
      LinkHandsOn(ctx, before, names[i - 1], names[i], edges[i - 1], member);
    }
  }

  lemma ScopeOfLink(ctx: ImportContext, scope: string, next: string, edge: Edge)
    requires IsLink(ctx, scope, next, edge)
    ensures edge.scope == scope
  {
  }

  /** Each pass hands the member on to one more scope. */
  lemma {:induction false} ChainPasses(ctx: ImportContext, maps: Maps, names: seq<string>, edges: seq<Edge>,
          member: map<string, string>, count: nat)
    requires IsChain(ctx, names, edges) && DefinedFrom(maps, names, |edges|, member)
    ensures DefinedFrom(AfterPasses(ctx, maps, edges, count), names, |edges| - count, member)
  {
    hide IsLink, PassUpTo;
    if count > 0 {
      ChainPasses(ctx, maps, names, edges, member, count - 1);
      ChainWithin(ctx, AfterPasses(ctx, maps, edges, count - 1), names, edges, |edges| - count + 1, member, |edges|);
    }
  }

  /** A chain whose edges come from its far end on inherits down to its start exactly when it is no longer than
      the limit on passes. */
  lemma LongChainsAreCut(ctx: ImportContext, maps: Maps, names: seq<string>, edges: seq<Edge>, name: string, q: string)
    requires IsChain(ctx, names, edges) && DefinedFrom(maps, names, |edges|, map[name := q])
    ensures var after := AfterPasses(ctx, maps, edges, MAX_PASSES);
      && (Closed(ctx, after, edges) <==> |edges| <= MAX_PASSES)
      && names[0] in after && (name in after[names[0]].directDefs <==> |edges| <= MAX_PASSES)
  {
    hide AfterPasses, IsLink, ResolveSupertype;
    var member := map[name := q];
    ChainPasses(ctx, maps, names, edges, member, MAX_PASSES);
    var after := AfterPasses(ctx, maps, edges, MAX_PASSES);
    forall k | 0 <= k < |edges|
      ensures EdgeClosed(ctx, after, edges[k]) <==> (k + 1 >= |edges| - MAX_PASSES ==> k >= |edges| - MAX_PASSES)
    {
      assert IsLink(ctx, names[k], names[k + 1], edges[k]);
      ScopeOfLink(ctx, names[k], names[k + 1], edges[k]);
      LinkResolves(ctx, after, names[k], names[k + 1], edges[k]);
      assert name in member;
    }
    if |edges| > MAX_PASSES {
      assert !EdgeClosed(ctx, after, edges[|edges| - MAX_PASSES - 1]);
    }
  }

  // ---------------------------------------------------------------------------------------------
  // Chains of every length
  // ---------------------------------------------------------------------------------------------

  /** The root, or a package whose name is one plain segment. */
  predicate IsPlainPackage(package: string) {
    package != "import" && forall i :: 0 <= i < |package| ==> package[i] !in ":<>"
  }

  /** The qualified name of the `k`-th definition. */
  function Numbered(package: string, k: nat): string {
    Inside(package, Decimal(k))
  }

  /** A definition named by a number that specialises the next one, if there is one, by its simple name. */
  function NumberedSymbol(package: string, k: nat, n: nat): IndexedSymbol {
    IndexedSymbol(Decimal(k), None, Numbered(package, k), SymDefinition(SymPartDefinition), true,
                  if k < n then [Decimal(k + 1)] else [], [], [])
  }

  /** The first `k` of `n + 1` such definitions. */
  function NumberedContext(package: string, k: nat, n: nat): ImportContext {
    if k == 0 then ImportContext([], map[], map[], map[], map[])
    else
      var ctx := NumberedContext(package, k - 1, n);
      ctx.(symbols := ctx.symbols + [NumberedSymbol(package, k - 1, n)],
           byQualifiedName := ctx.byQualifiedName[Numbered(package, k - 1) := k - 1])
  }

  /** Visibility maps in which the last of `n + 1` scopes defines a member. */
  function NumberedMaps(package: string, k: nat, n: nat, member: map<string, string>): Maps {
    if k == 0 then map[]
    else
      NumberedMaps(package, k - 1, n, member)
        [Numbered(package, k - 1) := ScopeVisibility(if k - 1 >= n then member else map[], map[], [])]
  }

  function NumberedNames(package: string, n: nat): (r: seq<string>)
    ensures |r| == n + 1 && forall k :: 0 <= k <= n ==> r[k] == Numbered(package, k)
  {
    seq(n + 1, k requires 0 <= k <= n => Numbered(package, k))
  }

  lemma NumberedIsInjective(package: string, i: nat, j: nat)
    requires Numbered(package, i) == Numbered(package, j)
    ensures i == j
  {
    hide Decimal;
    var s, t := Numbered(package, i), Numbered(package, j);
    if package != "" {
      assert s[|package| + 2..] == Decimal(i) && t[|package| + 2..] == Decimal(j);
    }
    DecimalIsInjective(i, j);
  }

  lemma {:induction false} NumberedContextHas(package: string, k: nat, n: nat, j: nat)
    requires j < k
    ensures var ctx := NumberedContext(package, k, n);
      && |ctx.symbols| == k && ctx.symbols[j] == NumberedSymbol(package, j, n)
      && Numbered(package, j) in ctx.byQualifiedName && ctx.byQualifiedName[Numbered(package, j)] == j
  {
    hide Numbered, NumberedSymbol;
    if k > 1 {
      NumberedContextHas(package, k - 1, n, if j < k - 1 then j else 0);
    }
    if j < k - 1 && Numbered(package, j) == Numbered(package, k - 1) {
      NumberedIsInjective(package, j, k - 1);
    }
  }

  /** Nothing but these definitions is known. */
  lemma {:induction false} NumberedContextOnly(package: string, k: nat, n: nat, name: string)
    requires name in NumberedContext(package, k, n).byQualifiedName
    ensures exists j :: 0 <= j < k && name == Numbered(package, j)
  {
    hide Numbered, NumberedSymbol;
    if name != Numbered(package, k - 1) {
      NumberedContextOnly(package, k - 1, n, name);
    }
  }

  lemma {:induction false} NumberedMapsHave(package: string, k: nat, n: nat, member: map<string, string>, j: nat)
    requires j < k
    ensures var maps := NumberedMaps(package, k, n, member);
      Numbered(package, j) in maps && maps[Numbered(package, j)].directDefs == if j >= n then member else map[]
  {
    hide Numbered;
    if j < k - 1 {
      NumberedMapsHave(package, k - 1, n, member, j);
      if Numbered(package, j) == Numbered(package, k - 1) {
        NumberedIsInjective(package, j, k - 1);
      }
    }
  }

  // ---------------------------------------------------------------------------------------------
  // Their names
  // ---------------------------------------------------------------------------------------------

  lemma {:induction false} DecimalIsFlat(k: nat, i: nat)
    requires i < |Decimal(k)|
    ensures Decimal(k)[i] in "0123456789"
  {
    if k >= 10 && i < |Decimal(k)| - 1 {
      DecimalIsFlat(k / 10, i);
    }
  }

  lemma DecimalIsPlain(k: nat)
    ensures forall i :: 0 <= i < |Decimal(k)| ==> Decimal(k)[i] !in ":<>i"
    ensures |Decimal(k)| > 0
  {
    hide Decimal;
    DecimalNotEmpty(k);
    forall i | 0 <= i < |Decimal(k)| ensures Decimal(k)[i] !in ":<>i" {
      DecimalIsFlat(k, i);
    }
  }

  lemma {:induction false} PlainDepth(s: string, i: nat, j: nat)
    requires i <= j <= |s| && forall k :: i <= k < j ==> s[k] != ':'
    ensures DepthFrom(s, i) == DepthFrom(s, j)
    decreases j - i
  {
    if i < j {
      PlainDepth(s, i + 1, j);
    }
  }

  lemma {:induction false} PlainScan(s: string, i: nat, j: nat, last: Option<nat>)
    requires i <= j <= |s| && (last.Some? ==> last.value < |s|) && forall k :: i <= k < j ==> s[k] !in ":<>"
    ensures LastTopFrom(s, i, 0, last) == LastTopFrom(s, j, 0, last)
    decreases j - i
  {
    if i < j {
      PlainScan(s, i + 1, j, last);
    }
  }

  /** What a definition's name is made of: its package, a separator unless that is the root, and digits. */
  lemma NumberedShape(package: string, k: nat)
    requires IsPlainPackage(package)
    ensures var q, start := Numbered(package, k), if package == "" then 0 else |package| + 2;
      && start < |q| && q[start..] == Decimal(k) && (forall i :: start <= i < |q| ==> q[i] !in ":<>i")
      && (package != "" ==> q[..|package|] == package && SeparatorAt(q, |package|)
                            && forall i :: 0 <= i < |package| ==> q[i] !in ":<>")
  {
    hide Decimal;
    DecimalIsPlain(k);
    var q, d := Numbered(package, k), Decimal(k);
    var start := if package == "" then 0 else |package| + 2;
    assert q[start..] == d;
    assert forall i :: start <= i < |q| ==> q[i] == d[i - start];
  }

  lemma MarkAt(q: string, r: nat)
    requires r + 9 <= |q| && StartsWith(q[r..], "::import:")
    ensures q[r] == ':' && q[r + 1] == ':' && q[r + 2] == 'i'
  {
    var mark := q[r..][..9];
    assert mark[0] == ':' && mark[1] == ':' && mark[2] == 'i';
    assert q[r] == mark[0] && q[r + 1] == mark[1] && q[r + 2] == mark[2];
  }

  lemma ImportAt(q: string)
    requires StartsWith(q, "import:")
    ensures q[..6] == "import" && q[5] == 't' && q[6] == ':'
  {
    var mark := q[..7];
    assert mark[5] == 't' && mark[6] == ':' && mark[..6] == "import" == q[..6];
    assert q[5] == mark[5] && q[6] == mark[6];
  }

  lemma NoMark(package: string, k: nat)
    requires IsPlainPackage(package)
    ensures Find(Numbered(package, k), "::import:") == None && !StartsWith(Numbered(package, k), "import:")
  {
    NumberedShape(package, k);
    hide Numbered;
    var q := Numbered(package, k);
    if Find(q, "::import:").Some? {
      MarkAt(q, Find(q, "::import:").value);
      assert false;
    }
    if StartsWith(q, "import:") {
      ImportAt(q);
      assert false;
    }
  }

  lemma NumberedParent(package: string, k: nat)
    requires IsPlainPackage(package)
    ensures ParentScope(Numbered(package, k)) == Some(package)
              && Depth(Numbered(package, k)) == if package == "" then 0 else 1
  {
    NumberedShape(package, k);
    NoMark(package, k);
    hide Numbered;
    var q := Numbered(package, k);
    if package == "" {
      PlainScan(q, 0, |q|, None);
      PlainDepth(q, 0, |q|);
    } else {
      PlainScan(q, 0, |package|, None);
      PlainScan(q, |package| + 2, |q|, Some(|package|));
      PlainDepth(q, 0, |package|);
      PlainDepth(q, |package| + 2, |q|);
    }
  }

  /** A simple number is not the name of a definition inside a package. */
  lemma NumberIsNoName(package: string, k: nat, n: nat, j: nat)
    requires package != "" && IsPlainPackage(package)
    ensures LiveName(NumberedContext(package, k, n), Decimal(j)) == None
  {
    hide NumberedContext, Numbered, Decimal;
    if Decimal(j) in NumberedContext(package, k, n).byQualifiedName {
      NumberedContextOnly(package, k, n, Decimal(j));
      var i :| 0 <= i < k && Decimal(j) == Numbered(package, i);
      NumberedShape(package, i);
      DecimalIsPlain(j);
    }
  }

  // ---------------------------------------------------------------------------------------------
  // Their edges
  // ---------------------------------------------------------------------------------------------

  /** The edge that the `k`-th definition gives. */
  function NumberedEdge(package: string, k: nat): Edge {
    Edge(Numbered(package, k), ParentScope(Numbered(package, k)).GetOr(""), Decimal(k + 1))
  }

  lemma {:induction false} NumberedEdges(package: string, ctx: ImportContext, n: nat, k: nat)
    requires ctx == NumberedContext(package, n + 1, n) && k <= |ctx.symbols|
    ensures |ctx.symbols| == n + 1
    ensures |EdgesFrom(ctx, k)| == if k <= n then k else n
    ensures forall j :: 0 <= j < |EdgesFrom(ctx, k)| ==> EdgesFrom(ctx, k)[j] == NumberedEdge(package, j)
  {
    hide Decimal, Numbered, ParentScope, NumberedContext;
    NumberedContextHas(package, n + 1, n, 0);
    if k > 0 {
      NumberedEdges(package, ctx, n, k - 1);
      NumberedContextHas(package, n + 1, n, k - 1);
      assert ctx.symbols[k - 1].supertypes == if k - 1 < n then [Decimal(k)] else [];
    }
  }

  lemma NumberedLink(package: string, n: nat, k: nat)
    requires IsPlainPackage(package) && k < n
    ensures IsLink(NumberedContext(package, n + 1, n), Numbered(package, k), Numbered(package, k + 1),
              NumberedEdge(package, k))
  {
    hide Decimal, ParentScope, NumberedContext;
    var ctx := NumberedContext(package, n + 1, n);
    NumberedContextHas(package, n + 1, n, k + 1);
    NumberedParent(package, k);
    if package != "" {
      NumberIsNoName(package, n + 1, n, k + 1);
    }
  }

  /** There are chains of every length, at the root or in a package: definitions that each specialise the next by its
      simple name. Their edges come in symbol order and are all equally deep. */
  lemma ChainsExist(package: string, n: nat, member: map<string, string>) returns (ctx: ImportContext, maps: Maps,
          names: seq<string>, edges: seq<Edge>)
    requires IsPlainPackage(package)
    ensures edges == EdgesFrom(ctx, |ctx.symbols|) && ShallowFirst(edges) && |edges| == n
    ensures forall k :: 0 <= k < n ==> edges[k].parentScope == package && edges[k].supertype == Decimal(k + 1)
    ensures IsChain(ctx, names, edges) && DefinedFrom(maps, names, n, member)
  {
    hide Decimal, Numbered, ParentScope, NumberedContext, NumberedMaps, Depth, IsLink;
    ctx, maps, names :=
        NumberedContext(package, n + 1, n), NumberedMaps(package, n + 1, n, member), NumberedNames(package, n);
    NumberedContextHas(package, n + 1, n, 0);
    NumberedEdges(package, ctx, n, n + 1);
    edges := EdgesFrom(ctx, |ctx.symbols|);
    forall k | 0 <= k <= n
      ensures Numbered(package, k) in maps && maps[Numbered(package, k)].directDefs == if k >= n then member else map[]
    {
      NumberedMapsHave(package, n + 1, n, member, k);
    }
    forall i, j | 0 <= i < j < |names| ensures names[i] != names[j] {
      if names[i] == names[j] {
        NumberedIsInjective(package, i, j);
      }
    }
    forall k | 0 <= k < n
      ensures Depth(edges[k].scope) == (if package == "" then 0 else 1) && edges[k].parentScope == package
      ensures IsLink(ctx, names[k], names[k + 1], edges[k])
    {
      NumberedParent(package, k);
      NumberedLink(package, n, k);
    }
  }
}
