/** The resolver: qualified paths, lexical scopes, imports and inherited members, over finished visibility maps. */
module Resolver {
  import opened Wrappers
  import opened ElementKinds
  import opened IndexData
  import opened Names
  import opened Scopes
  import opened Indexing

  /** The index and the visibility maps that a resolver reads. */
  datatype Snapshot = Snapshot(index: IndexState, visibility: map<string, ScopeVisibility>)

  /** Base types of annotations that have been looked up, `None` included. */
  type Memo = map<string, Option<string>>

  /** The name index leads to symbols of that name. */
  ghost predicate Keyed(s: Snapshot) {
    IsKeyed(s.index)
  }

  function Find(s: Snapshot, name: string): (r: Option<IndexedSymbol>)
    ensures r.Some? ==> r.value in s.index.symbols
  {
    LookupQualified(s.index, name)
  }

  predicate IsPath(name: string) {
    Names.Find(name, "::").Some?
  }

  /** The first segment of a path and what follows it. */
  function SplitFirst(path: string): (r: (string, string))
    requires IsPath(path)
    ensures |r.0| + 2 + |r.1| == |path|
  {
    var k := Names.Find(path, "::").value;
    (path[..k], path[k + 2..])
  }

  // ---------------------------------------------------------------------------------------------
  // Without inheritance
  // ---------------------------------------------------------------------------------------------

  /** A live symbol that a scope defines, or else one that it imports, under a name. */
  function VisibleIn(s: Snapshot, scope: string, name: string): (r: Option<IndexedSymbol>)
    ensures r.Some? ==> r.value in s.index.symbols
  {
    if scope !in s.visibility then None
    else
      var v := s.visibility[scope];
      var direct := if name in v.directDefs then Find(s, v.directDefs[name]) else None;
      if direct.Some? then direct
      else if name in v.imports then Find(s, v.imports[name])
      else None
  }

  function PlainWalk(s: Snapshot, scope: string, name: string): (r: Option<IndexedSymbol>)
    ensures r.Some? ==> r.value in s.index.symbols
    decreases |scope|
  {
    var visible := VisibleIn(s, scope, name);
    if visible.Some? then visible
    else
      var up := Up(scope);
      if up.Some? then PlainWalk(s, up.value, name) else Find(s, name)
  }

  /** The last step of a path: visible in the scope that was reached, or simply inside it. */
  function LastStep(s: Snapshot, scope: string, name: string): (r: Option<IndexedSymbol>)
    ensures r.Some? ==> r.value in s.index.symbols
  {
    var visible := VisibleIn(s, scope, name);
    if visible.Some? then visible else Find(s, scope + "::" + name)
  }

  function Plain(s: Snapshot, scope: string, name: string): (r: Option<IndexedSymbol>)
    ensures r.Some? ==> r.value in s.index.symbols
    decreases |name|, 1
  {
    if !IsPath(name) then PlainWalk(s, scope, name)
    else
      var exact := Find(s, name);
      if exact.Some? then exact else PlainPath(s, scope, name)
  }

  function PlainPath(s: Snapshot, scope: string, path: string): (r: Option<IndexedSymbol>)
    requires IsPath(path)
    ensures r.Some? ==> r.value in s.index.symbols
    decreases |path|, 0
  {
    var (first, rest) := SplitFirst(path);
    var start := Plain(s, scope, first);
    if start.None? then None
    else if IsPath(rest) then PlainPath(s, start.value.qualifiedName, rest)
    else LastStep(s, start.value.qualifiedName, rest)
  }

  // ---------------------------------------------------------------------------------------------
  // Base types of annotations
  // ---------------------------------------------------------------------------------------------

  function First(names: seq<string>): Option<string> {
    if names == [] then None else Some(names[0])
  }

  predicate IsMetadata(kind: SymbolKind) {
    kind == SymDefinition(SymMetadataDefinition) || kind == SymOther
  }

  function FirstMetadata(list: seq<IndexedSymbol>): Option<IndexedSymbol> {
    if list == [] then None
    else if IsMetadata(list[0].kind) then Some(list[0])
    else FirstMetadata(list[1..])
  }

  /** The symbol that a value expression names: by its resolved target, inside `scope`, or as written. */
  function ValueSymbol(i: IndexState, scope: string, ref: TypeRef): Option<IndexedSymbol> {
    var resolved := if ref.resolvedTarget.Some? then LookupQualified(i, ref.resolvedTarget.value) else None;
    if resolved.Some? then resolved
    else
      var inside := LookupQualified(i, scope + "::" + ref.target);
      if inside.Some? then inside else LookupQualified(i, ref.target)
  }

  function BaseOfRefs(i: IndexState, scope: string, refs: seq<TypeRefKind>): Option<string> {
    if refs == [] then None
    else
      var value :=
          if refs[0].Simple? && refs[0].ref.kind == ExpressionRef then ValueSymbol(i, scope, refs[0].ref) else None;
      if value.Some? then First(value.value.supertypes) else BaseOfRefs(i, scope, refs[1..])
  }

  function ComputeBase(i: IndexState, annotation: string): Option<string> {
    var metadata := FirstMetadata(LookupByShortName(i, annotation));
    if metadata.None? then None
    else
      var feature := LookupQualified(i, metadata.value.qualifiedName + "::baseType");
      if feature.None? then None
      else BaseOfRefs(i, ParentScope(metadata.value.qualifiedName).GetOr(""), feature.value.typeRefs)
  }

  /** What the memo holds, or else what would be put into it. */
  function BaseOf(s: Snapshot, memo: Memo, annotation: string): Option<string> {
    if annotation in memo then memo[annotation] else ComputeBase(s.index, annotation)
  }

  function BasesOf(s: Snapshot, memo: Memo, annotations: seq<string>): seq<string> {
    if annotations == [] then []
    else
      var base := BaseOf(s, memo, annotations[0]);
      (if base.Some? then [base.value] else []) + BasesOf(s, memo, annotations[1..])
  }

  // ---------------------------------------------------------------------------------------------
  // Inherited members
  // ---------------------------------------------------------------------------------------------

  function PlainAll(s: Snapshot, scope: string, names: seq<string>): (r: seq<IndexedSymbol>)
    ensures forall x :: x in r ==> x in s.index.symbols
  {
    if names == [] then []
    else
      var found := Plain(s, scope, names[0]);
      (if found.Some? then [found.value] else []) + PlainAll(s, scope, names[1..])
  }

  function ScopeOf(symbol: IndexedSymbol): string {
    ParentScope(symbol.qualifiedName).GetOr("")
  }

  /** The resolved supertypes of a symbol. */
  function Supers(s: Snapshot, symbol: IndexedSymbol): (r: seq<IndexedSymbol>)
    ensures forall x :: x in r ==> x in s.index.symbols
  {
    PlainAll(s, ScopeOf(symbol), symbol.supertypes)
  }

  /** Where the search for inherited members starts: the supertypes and the base types of the annotations. */
  function StartTypes(s: Snapshot, memo: Memo, symbol: IndexedSymbol): (r: seq<IndexedSymbol>)
    ensures forall x :: x in r ==> x in s.index.symbols
  {
    Supers(s, symbol) + PlainAll(s, ScopeOf(symbol), BasesOf(s, memo, symbol.annotations))
  }

  function AllNames(symbols: seq<IndexedSymbol>): set<string> {
    set x | x in symbols :: x.qualifiedName
  }

  datatype Frontier = Frontier(visited: set<string>, stack: seq<IndexedSymbol>)

  /** Pushes the symbols that have not been visited, marking them. */
  function PushNew(f: Frontier, list: seq<IndexedSymbol>): (r: Frontier)
    ensures f.visited <= r.visited
    ensures f.stack <= r.stack
    decreases |list|
  {
    if list == [] then f
    else
      var x := list[0];
      PushNew(if x.qualifiedName in f.visited then f
              else Frontier(f.visited + {x.qualifiedName}, f.stack + [x]), list[1..])
  }

  ghost function Work(s: Snapshot, f: Frontier): nat {
    |AllNames(s.index.symbols) - f.visited| + |f.stack|
  }

  lemma {:induction false} PushNewWork(s: Snapshot, f: Frontier, list: seq<IndexedSymbol>)
    requires forall x :: x in list ==> x in s.index.symbols
    ensures Work(s, PushNew(f, list)) <= Work(s, f)
    decreases |list|
  {
    if list != [] {
      var x, all := list[0], AllNames(s.index.symbols);
      assert x in list;
      var g := if x.qualifiedName in f.visited then f else Frontier(f.visited + {x.qualifiedName}, f.stack + [x]);
      if x.qualifiedName !in f.visited {
        assert all - g.visited == (all - f.visited) - {x.qualifiedName};
      }
      PushNewWork(s, g, list[1..]);
    }
  }

  predicate Provides(s: Snapshot, symbol: IndexedSymbol, member: string) {
    IsDefinition(symbol.kind) && MemberOf(s, symbol, member).Some?
  }

  function MemberOf(s: Snapshot, symbol: IndexedSymbol, member: string): Option<IndexedSymbol> {
    Find(s, symbol.qualifiedName + "::" + member)
  }

  /** Takes a type off the stack; a definition that has the member answers, otherwise the type's own supertypes
      are pushed. Other kinds are passed through without being searched. */
  function Search(s: Snapshot, f: Frontier, member: string): (r: Option<IndexedSymbol>)
    ensures r.Some? ==> r.value in s.index.symbols
    decreases Work(s, f)
  {
    if f.stack == [] then None
    else
      var current := f.stack[|f.stack| - 1];
      var rest := Frontier(f.visited, f.stack[..|f.stack| - 1]);
      if Provides(s, current, member) then MemberOf(s, current, member)
      else
        PushNewWork(s, rest, Supers(s, current));
        Search(s, PushNew(rest, Supers(s, current)), member)
  }

  function StartFrontier(s: Snapshot, memo: Memo, symbol: IndexedSymbol): Frontier {
    PushNew(Frontier({symbol.qualifiedName}, []), StartTypes(s, memo, symbol))
  }

  function Inherited(s: Snapshot, memo: Memo, symbol: IndexedSymbol, member: string): (r: Option<IndexedSymbol>)
    ensures r.Some? ==> r.value in s.index.symbols
  {
    Search(s, StartFrontier(s, memo, symbol), member)
  }

  // ---------------------------------------------------------------------------------------------
  // Full resolution
  // ---------------------------------------------------------------------------------------------

  /** One enclosing scope: what is visible in it, or else what its symbol inherits. */
  function Hit(s: Snapshot, memo: Memo, scope: string, name: string): (r: Option<IndexedSymbol>)
    ensures r.Some? ==> r.value in s.index.symbols
  {
    var visible := VisibleIn(s, scope, name);
    if visible.Some? then visible
    else
      var symbol := if scope == "" then None else Find(s, scope);
      if symbol.Some? && (symbol.value.supertypes != [] || symbol.value.annotations != [])
      then Inherited(s, memo, symbol.value, name) else None
  }

  function Walk(s: Snapshot, memo: Memo, scope: string, name: string): (r: Option<IndexedSymbol>)
    ensures r.Some? ==> r.value in s.index.symbols
    decreases |scope|
  {
    var hit := Hit(s, memo, scope, name);
    if hit.Some? then hit
    else
      var up := Up(scope);
      if up.Some? then Walk(s, memo, up.value, name) else Find(s, name)
  }

  /** The scope that a symbol stands for; aliases stand for what they name. */
  function TargetScope(symbol: IndexedSymbol): string {
    if symbol.kind == SymAlias && symbol.supertypes != [] then symbol.supertypes[0] else symbol.qualifiedName
  }

  function Resolve(s: Snapshot, memo: Memo, scope: string, name: string): (r: Option<IndexedSymbol>)
    ensures r.Some? ==> r.value in s.index.symbols
    decreases |name|, 1
  {
    if !IsPath(name) then Walk(s, memo, scope, name)
    else
      var exact := Find(s, name);
      if exact.Some? then exact else ResolvePath(s, memo, scope, name)
  }

  function ResolvePath(s: Snapshot, memo: Memo, scope: string, path: string): (r: Option<IndexedSymbol>)
    requires IsPath(path)
    ensures r.Some? ==> r.value in s.index.symbols
    decreases |path|, 0
  {
    var (first, rest) := SplitFirst(path);
    var start := Resolve(s, memo, scope, first);
    if start.None? then None
    else if IsPath(rest) then Resolve(s, memo, TargetScope(start.value), rest)
    else LastStep(s, TargetScope(start.value), rest)
  }

  // ---------------------------------------------------------------------------------------------
  // Answers are live
  // ---------------------------------------------------------------------------------------------

  /** A symbol that the index leads to by its own name. */
  ghost predicate IsLive(s: Snapshot, x: IndexedSymbol) {
    Find(s, x.qualifiedName) == Some(x)
  }

  ghost predicate LiveIfFound(s: Snapshot, r: Option<IndexedSymbol>) {
    r.Some? ==> IsLive(s, r.value)
  }

  lemma FindIsLive(s: Snapshot, name: string)
    requires Keyed(s)
    ensures LiveIfFound(s, Find(s, name))
    ensures Find(s, name).Some? ==> Find(s, name).value.qualifiedName == name
  {
  }

  lemma VisibleIsLive(s: Snapshot, scope: string, name: string)
    requires Keyed(s)
    ensures LiveIfFound(s, VisibleIn(s, scope, name)) && LiveIfFound(s, LastStep(s, scope, name))
  {
    hide Keyed, LiveIfFound, Find;
    FindIsLive(s, scope + "::" + name);
    NothingFoundIsLive(s);
    if scope in s.visibility {
      var v := s.visibility[scope];
      if name in v.directDefs {
        FindIsLive(s, v.directDefs[name]);
      }
      if name in v.imports {
        FindIsLive(s, v.imports[name]);
      }
    }
  }

  lemma NothingFoundIsLive(s: Snapshot)
    ensures LiveIfFound(s, None)
  {
  }

  lemma {:induction false} PlainWalkIsLive(s: Snapshot, scope: string, name: string)
    requires Keyed(s)
    ensures LiveIfFound(s, PlainWalk(s, scope, name))
    decreases |scope|
  {
    hide Keyed, LiveIfFound, Find, VisibleIn;
    VisibleIsLive(s, scope, name);
    FindIsLive(s, name);
    if Up(scope).Some? {
      PlainWalkIsLive(s, Up(scope).value, name);
    }
  }

  lemma {:induction false} PlainIsLive(s: Snapshot, scope: string, name: string)
    requires Keyed(s)
    ensures LiveIfFound(s, Plain(s, scope, name))
    decreases |name|, 1
  {
    hide Keyed, LiveIfFound, Find, PlainWalk;
    PlainWalkIsLive(s, scope, name);
    FindIsLive(s, name);
    if IsPath(name) {
      PlainPathIsLive(s, scope, name);
    }
  }

  lemma {:induction false} PlainPathIsLive(s: Snapshot, scope: string, path: string)
    requires Keyed(s) && IsPath(path)
    ensures LiveIfFound(s, PlainPath(s, scope, path))
    decreases |path|, 0
  {
    hide Keyed, LiveIfFound, LastStep, Plain;
    NothingFoundIsLive(s);
    var (first, rest) := SplitFirst(path);
    var start := Plain(s, scope, first);
    if start.Some? {
      VisibleIsLive(s, start.value.qualifiedName, rest);
      if IsPath(rest) {
        PlainPathIsLive(s, start.value.qualifiedName, rest);
      }
    }
  }

  ghost predicate AllLive(s: Snapshot, list: seq<IndexedSymbol>) {
    forall x :: x in list ==> IsLive(s, x)
  }

  lemma {:induction false} PlainAllIsLive(s: Snapshot, scope: string, names: seq<string>)
    requires Keyed(s)
    ensures AllLive(s, PlainAll(s, scope, names))
  {
    hide Keyed, Plain, Find;
    if names != [] {
      PlainIsLive(s, scope, names[0]);
      PlainAllIsLive(s, scope, names[1..]);
    }
  }

  lemma SupersAreLive(s: Snapshot, memo: Memo, symbol: IndexedSymbol)
    requires Keyed(s)
    ensures AllLive(s, Supers(s, symbol)) && AllLive(s, StartTypes(s, memo, symbol))
  {
    hide Keyed, PlainAll, IsLive, ScopeOf;
    PlainAllIsLive(s, ScopeOf(symbol), symbol.supertypes);
    PlainAllIsLive(s, ScopeOf(symbol), BasesOf(s, memo, symbol.annotations));
  }

  lemma {:induction false} SearchIsLive(s: Snapshot, f: Frontier, member: string)
    requires Keyed(s)
    ensures LiveIfFound(s, Search(s, f, member))
    decreases Work(s, f)
  {
    hide Keyed, LiveIfFound, Find, Supers, PushNew, Work;
    NothingFoundIsLive(s);
    if f.stack != [] {
      var current := f.stack[|f.stack| - 1];
      var rest := Frontier(f.visited, f.stack[..|f.stack| - 1]);
      FindIsLive(s, current.qualifiedName + "::" + member);
      PushNewWork(s, rest, Supers(s, current));
      PoppedWork(s, f);
      SearchIsLive(s, PushNew(rest, Supers(s, current)), member);
    }
  }

  lemma PoppedWork(s: Snapshot, f: Frontier)
    requires f.stack != []
    ensures Work(s, Frontier(f.visited, f.stack[..|f.stack| - 1])) < Work(s, f)
  {
  }

  lemma {:induction false} WalkIsLive(s: Snapshot, memo: Memo, scope: string, name: string)
    requires Keyed(s)
    ensures LiveIfFound(s, Hit(s, memo, scope, name)) && LiveIfFound(s, Walk(s, memo, scope, name))
    decreases |scope|
  {
    hide Keyed, LiveIfFound, Find, VisibleIn, Search, StartFrontier;
    VisibleIsLive(s, scope, name);
    FindIsLive(s, name);
    NothingFoundIsLive(s);
    if Find(s, scope).Some? {
      SearchIsLive(s, StartFrontier(s, memo, Find(s, scope).value), name);
    }
    if Up(scope).Some? {
      WalkIsLive(s, memo, Up(scope).value, name);
    }
  }

  /** Resolution, which ends on every name and scope, returns only live symbols. */
  lemma {:induction false} ResolveIsLive(s: Snapshot, memo: Memo, scope: string, name: string)
    requires Keyed(s)
    ensures LiveIfFound(s, Resolve(s, memo, scope, name))
    decreases |name|, 1
  {
    hide Keyed, LiveIfFound, Find, Walk;
    WalkIsLive(s, memo, scope, name);
    FindIsLive(s, name);
    if IsPath(name) {
      ResolvePathIsLive(s, memo, scope, name);
    }
  }

  lemma {:induction false} ResolvePathIsLive(s: Snapshot, memo: Memo, scope: string, path: string)
    requires Keyed(s) && IsPath(path)
    ensures LiveIfFound(s, ResolvePath(s, memo, scope, path))
    decreases |path|, 0
  {
    hide Keyed, LiveIfFound, LastStep, Resolve, TargetScope;
    NothingFoundIsLive(s);
    var (first, rest) := SplitFirst(path);
    var start := Resolve(s, memo, scope, first);
    if start.Some? {
      VisibleIsLive(s, TargetScope(start.value), rest);
      ResolveIsLive(s, memo, TargetScope(start.value), rest);
    }
  }

  // ---------------------------------------------------------------------------------------------
  // Simple names: the first hit over the enclosing scopes
  // ---------------------------------------------------------------------------------------------

  /** Scope number `k` of the chain answers `r`, and no nearer scope answers. */
  ghost predicate IsFirstHit(s: Snapshot, memo: Memo, chain: seq<string>, name: string, k: nat,
          r: Option<IndexedSymbol>) {
    k < |chain| && r.Some? && r == Hit(s, memo, chain[k], name) && NoHitBefore(s, memo, chain, name, k)
  }

  ghost predicate NoHitBefore(s: Snapshot, memo: Memo, chain: seq<string>, name: string, k: nat)
    requires k <= |chain|
  {
    forall j :: 0 <= j < k ==> Hit(s, memo, chain[j], name).None?
  }

  /** The answer of the first scope that has one, or else the symbol of exactly that name. */
  ghost predicate IsLexicalAnswer(s: Snapshot, memo: Memo, chain: seq<string>, name: string, r: Option<IndexedSymbol>) {
    if NoHitBefore(s, memo, chain, name, |chain|) then r == Find(s, name)
    else exists k: nat :: IsFirstHit(s, memo, chain, name, k, r)
  }

  lemma {:induction false} WalkIsLexical(s: Snapshot, memo: Memo, scope: string, name: string)
    ensures IsLexicalAnswer(s, memo, LexicalChain(scope), name, Walk(s, memo, scope, name))
    decreases |scope|
  {
    hide Hit, Find;
    var chain, up, r := LexicalChain(scope), Up(scope), Walk(s, memo, scope, name);
    if Hit(s, memo, scope, name).Some? {
      assert IsFirstHit(s, memo, chain, name, 0, r);
      assert Hit(s, memo, chain[0], name).Some?;
    } else if up.Some? {
      WalkIsLexical(s, memo, up.value, name);
      LexicalStep(s, memo, scope, LexicalChain(up.value), name, r);
    } else {
      assert chain == [scope];
    }
  }

  lemma LexicalStep(s: Snapshot, memo: Memo, scope: string, above: seq<string>, name: string, r: Option<IndexedSymbol>)
    requires Hit(s, memo, scope, name).None? && IsLexicalAnswer(s, memo, above, name, r)
    ensures IsLexicalAnswer(s, memo, [scope] + above, name, r)
  {
    hide Hit, Find;
    var chain := [scope] + above;
    assert forall k :: 0 <= k < |above| ==> above[k] == chain[k + 1];
    assert forall k :: 1 <= k < |chain| ==> chain[k] == above[k - 1];
    if !NoHitBefore(s, memo, above, name, |above|) {
      var k: nat :| IsFirstHit(s, memo, above, name, k, r);
      forall j | 0 <= j < k + 1 ensures Hit(s, memo, chain[j], name).None? {
        if j > 0 {
          assert Hit(s, memo, above[j - 1], name).None?;
        }
      }
      assert IsFirstHit(s, memo, chain, name, k + 1, r);
      assert Hit(s, memo, chain[k + 1], name).Some?;
    }
  }

  /** A simple name resolves to the first answer over the enclosing scopes, each asked for a direct definition,
      then an import, then an inherited member, and failing that to the symbol of exactly that name. */
  lemma ResolveIsLexical(s: Snapshot, memo: Memo, scope: string, name: string)
    requires !IsPath(name)
    ensures IsLexicalAnswer(s, memo, LexicalChain(scope), name, Resolve(s, memo, scope, name))
  {
    WalkIsLexical(s, memo, scope, name);
  }
}
