/** What resolution depends on: not on resolved targets, and on base types only for the annotations it asks
    about. So an answer stays right while targets are written and base types are memoised. */
module ResolutionStability {
  import opened Wrappers
  import opened IndexData
  import opened Scopes
  import opened Indexing
  import opened Resolver

  // ---------------------------------------------------------------------------------------------
  // The annotations that resolution asks about
  // ---------------------------------------------------------------------------------------------

  function HitAsks(s: Snapshot, scope: string, name: string): set<string> {
    var symbol := if scope == "" then None else Find(s, scope);
    if VisibleIn(s, scope, name).None? && symbol.Some? then set a | a in symbol.value.annotations else {}
  }

  function WalkAsks(s: Snapshot, memo: Memo, scope: string, name: string): set<string>
    decreases |scope|
  {
    HitAsks(s, scope, name)
    + (if Hit(s, memo, scope, name).None? && Up(scope).Some? then WalkAsks(s, memo, Up(scope).value, name) else {})
  }

  function ResolveAsks(s: Snapshot, memo: Memo, scope: string, name: string): set<string>
    decreases |name|
  {
    if !IsPath(name) then WalkAsks(s, memo, scope, name)
    else if Find(s, name).Some? then {}
    else
      var (first, rest) := SplitFirst(name);
      var start := Resolve(s, memo, scope, first);
      ResolveAsks(s, memo, scope, first)
      + (if start.Some? && IsPath(rest) then ResolveAsks(s, memo, TargetScope(start.value), rest) else {})
  }

  // ---------------------------------------------------------------------------------------------
  // Memos that agree
  // ---------------------------------------------------------------------------------------------

  /** Two memos that give the same base types for a set of annotations. */
  ghost predicate Agree(s: Snapshot, m: Memo, n: Memo, asked: set<string>) {
    forall a :: a in asked ==> BaseOf(s, m, a) == BaseOf(s, n, a)
  }

  lemma {:induction false} BasesAgree(s: Snapshot, m: Memo, n: Memo, annotations: seq<string>)
    requires Agree(s, m, n, set a | a in annotations)
    ensures BasesOf(s, m, annotations) == BasesOf(s, n, annotations)
  {
    hide BaseOf;
    if annotations != [] {
      assert forall a :: a in annotations[1..] ==> a in annotations;
      BasesAgree(s, m, n, annotations[1..]);
      assert annotations[0] in annotations;
    }
  }

  lemma HitAgrees(s: Snapshot, m: Memo, n: Memo, scope: string, name: string)
    requires Agree(s, m, n, HitAsks(s, scope, name))
    ensures Hit(s, m, scope, name) == Hit(s, n, scope, name)
  {
    hide BaseOf, BasesOf, VisibleIn, Search, PushNew, PlainAll, Find;
    if VisibleIn(s, scope, name).None? && scope != "" && Find(s, scope).Some? {
      BasesAgree(s, m, n, Find(s, scope).value.annotations);
    }
  }

  lemma {:induction false} WalkAgrees(s: Snapshot, m: Memo, n: Memo, scope: string, name: string)
    requires Agree(s, m, n, WalkAsks(s, m, scope, name))
    ensures Walk(s, m, scope, name) == Walk(s, n, scope, name)
    ensures WalkAsks(s, m, scope, name) == WalkAsks(s, n, scope, name)
    decreases |scope|
  {
    hide BaseOf, Hit, HitAsks, Find;
    HitAgrees(s, m, n, scope, name);
    if Hit(s, m, scope, name).None? && Up(scope).Some? {
      WalkAgrees(s, m, n, Up(scope).value, name);
    }
  }

  /** Memos that agree on what resolution asks about give the same answer. */
  lemma {:induction false} ResolveAgrees(s: Snapshot, m: Memo, n: Memo, scope: string, name: string)
    requires Agree(s, m, n, ResolveAsks(s, m, scope, name))
    ensures Resolve(s, m, scope, name) == Resolve(s, n, scope, name)
    ensures ResolveAsks(s, m, scope, name) == ResolveAsks(s, n, scope, name)
    decreases |name|
  {
    hide BaseOf, Walk, WalkAsks, Find, LastStep, TargetScope;
    if !IsPath(name) {
      WalkAgrees(s, m, n, scope, name);
    } else if Find(s, name).None? {
      var (first, rest) := SplitFirst(name);
      ResolveAgrees(s, m, n, scope, first);
      var start := Resolve(s, m, scope, first);
      if start.Some? && IsPath(rest) {
        ResolveAgrees(s, m, n, TargetScope(start.value), rest);
      }
    }
  }

  /** A memo that has grown by computed base types. */
  ghost predicate Grown(s: Snapshot, m: Memo, n: Memo) {
    && Extended(m, n)
    && (forall a :: a in n && a !in m ==> n[a] == ComputeBase(s.index, a))
  }

  ghost predicate Extended(m: Memo, n: Memo) {
    forall a :: a in m ==> a in n && n[a] == m[a]
  }

  lemma GrownAgrees(s: Snapshot, m: Memo, n: Memo, asked: set<string>)
    requires Grown(s, m, n)
    ensures Agree(s, m, n, asked)
  {
  }

  lemma GrownTrans(s: Snapshot, a: Memo, b: Memo, c: Memo)
    requires Grown(s, a, b) && Grown(s, b, c)
    ensures Grown(s, a, c)
  {
  }

  lemma AskedGrows(s: Snapshot, m: Memo, n: Memo, scope: string, name: string)
    requires Grown(s, m, n)
    ensures Resolve(s, n, scope, name) == Resolve(s, m, scope, name)
    ensures ResolveAsks(s, n, scope, name) == ResolveAsks(s, m, scope, name)
    ensures Walk(s, n, scope, name) == Walk(s, m, scope, name)
    ensures WalkAsks(s, n, scope, name) == WalkAsks(s, m, scope, name)
    ensures Hit(s, n, scope, name) == Hit(s, m, scope, name)
  {
    hide Resolve, ResolveAsks, Walk, WalkAsks, Hit, HitAsks, Grown, Agree;
    GrownAgrees(s, m, n, ResolveAsks(s, m, scope, name));
    ResolveAgrees(s, m, n, scope, name);
    GrownAgrees(s, m, n, WalkAsks(s, m, scope, name));
    WalkAgrees(s, m, n, scope, name);
    GrownAgrees(s, m, n, HitAsks(s, scope, name));
    HitAgrees(s, m, n, scope, name);
  }

  // ---------------------------------------------------------------------------------------------
  // Symbols without their references
  // ---------------------------------------------------------------------------------------------

  function Erase(x: IndexedSymbol): IndexedSymbol { x.(typeRefs := []) }

  function EraseFound(r: Option<IndexedSymbol>): Option<IndexedSymbol> {
    if r.Some? then Some(Erase(r.value)) else None
  }

  function EraseAll(list: seq<IndexedSymbol>): (r: seq<IndexedSymbol>)
    ensures |r| == |list| && forall i :: 0 <= i < |r| ==> r[i] == Erase(list[i])
  {
    seq(|list|, i requires 0 <= i < |list| => Erase(list[i]))
  }

  function Erased(s: Snapshot): Snapshot {
    s.(index := s.index.(symbols := EraseAll(s.index.symbols)))
  }

  lemma FindErased(s: Snapshot, name: string)
    ensures Find(Erased(s), name) == EraseFound(Find(s, name))
  {
  }

  lemma VisibleErased(s: Snapshot, scope: string, name: string)
    ensures VisibleIn(Erased(s), scope, name) == EraseFound(VisibleIn(s, scope, name))
    ensures LastStep(Erased(s), scope, name) == EraseFound(LastStep(s, scope, name))
  {
    hide Find;
    FindErased(s, scope + "::" + name);
    if scope in s.visibility {
      var v := s.visibility[scope];
      if name in v.directDefs {
        FindErased(s, v.directDefs[name]);
      }
      if name in v.imports {
        FindErased(s, v.imports[name]);
      }
    }
  }

  lemma {:induction false} PlainWalkErased(s: Snapshot, scope: string, name: string)
    ensures PlainWalk(Erased(s), scope, name) == EraseFound(PlainWalk(s, scope, name))
    decreases |scope|
  {
    hide Find, VisibleIn;
    VisibleErased(s, scope, name);
    FindErased(s, name);
    if Up(scope).Some? {
      PlainWalkErased(s, Up(scope).value, name);
    }
  }

  lemma {:induction false} PlainErased(s: Snapshot, scope: string, name: string)
    ensures Plain(Erased(s), scope, name) == EraseFound(Plain(s, scope, name))
    decreases |name|, 1
  {
    hide Find, PlainWalk;
    PlainWalkErased(s, scope, name);
    FindErased(s, name);
    if IsPath(name) {
      PlainPathErased(s, scope, name);
    }
  }

  lemma {:induction false} PlainPathErased(s: Snapshot, scope: string, path: string)
    requires IsPath(path)
    ensures PlainPath(Erased(s), scope, path) == EraseFound(PlainPath(s, scope, path))
    decreases |path|, 0
  {
    hide Find, Plain, LastStep;
    var (first, rest) := SplitFirst(path);
    PlainErased(s, scope, first);
    var start := Plain(s, scope, first);
    if start.Some? {
      VisibleErased(s, start.value.qualifiedName, rest);
      if IsPath(rest) {
        PlainPathErased(s, start.value.qualifiedName, rest);
      }
    }
  }

  lemma EraseAllConcat(a: seq<IndexedSymbol>, b: seq<IndexedSymbol>)
    ensures EraseAll(a + b) == EraseAll(a) + EraseAll(b)
  {
  }

  lemma {:induction false} PlainAllErased(s: Snapshot, scope: string, names: seq<string>)
    ensures PlainAll(Erased(s), scope, names) == EraseAll(PlainAll(s, scope, names))
  {
    hide Plain;
    if names != [] {
      PlainErased(s, scope, names[0]);
      PlainAllErased(s, scope, names[1..]);
      var found := Plain(s, scope, names[0]);
      EraseAllConcat(if found.Some? then [found.value] else [], PlainAll(s, scope, names[1..]));
    }
  }

  lemma SupersErased(s: Snapshot, x: IndexedSymbol)
    ensures Supers(Erased(s), Erase(x)) == EraseAll(Supers(s, x))
  {
    hide PlainAll;
    PlainAllErased(s, ScopeOf(x), x.supertypes);
  }

  lemma {:induction false} BasesErased(s: Snapshot, memo: Memo, annotations: seq<string>)
    requires forall a :: a in annotations ==> a in memo
    ensures BasesOf(Erased(s), memo, annotations) == BasesOf(s, memo, annotations)
  {
    if annotations != [] {
      assert annotations[0] in annotations;
      BasesErased(s, memo, annotations[1..]);
    }
  }

  lemma StartTypesErased(s: Snapshot, memo: Memo, x: IndexedSymbol)
    requires forall a :: a in x.annotations ==> a in memo
    ensures StartTypes(Erased(s), memo, Erase(x)) == EraseAll(StartTypes(s, memo, x))
  {
    hide PlainAll, BasesOf, Supers;
    SupersErased(s, x);
    BasesErased(s, memo, x.annotations);
    PlainAllErased(s, ScopeOf(x), BasesOf(s, memo, x.annotations));
    EraseAllConcat(Supers(s, x), PlainAll(s, ScopeOf(x), BasesOf(s, memo, x.annotations)));
  }

  function EraseFrontier(f: Frontier): Frontier { Frontier(f.visited, EraseAll(f.stack)) }

  lemma {:induction false} PushNewErased(f: Frontier, list: seq<IndexedSymbol>)
    ensures PushNew(EraseFrontier(f), EraseAll(list)) == EraseFrontier(PushNew(f, list))
    decreases |list|
  {
    if list != [] {
      var x := list[0];
      var g := if x.qualifiedName in f.visited then f else Frontier(f.visited + {x.qualifiedName}, f.stack + [x]);
      PushNewErased(g, list[1..]);
      assert EraseAll(list)[1..] == EraseAll(list[1..]);
      EraseAllConcat(f.stack, [x]);
      assert EraseAll([x]) == [Erase(x)];
    }
  }

  lemma ProvidesErased(s: Snapshot, x: IndexedSymbol, member: string)
    ensures Provides(Erased(s), Erase(x), member) == Provides(s, x, member)
    ensures MemberOf(Erased(s), Erase(x), member) == EraseFound(MemberOf(s, x, member))
  {
    hide Find;
    FindErased(s, x.qualifiedName + "::" + member);
  }

  lemma {:induction false} SearchErased(s: Snapshot, f: Frontier, member: string)
    ensures Search(Erased(s), EraseFrontier(f), member) == EraseFound(Search(s, f, member))
    decreases Work(s, f)
  {
    hide Provides, MemberOf, Supers, PushNew, Work;
    if f.stack != [] {
      var current := f.stack[|f.stack| - 1];
      var rest := Frontier(f.visited, f.stack[..|f.stack| - 1]);
      ProvidesErased(s, current, member);
      SupersErased(s, current);
      assert EraseFrontier(rest) == Frontier(f.visited, EraseAll(f.stack)[..|f.stack| - 1]);
      PushNewErased(rest, Supers(s, current));
      if !Provides(s, current, member) {
        PushNewWork(s, rest, Supers(s, current));
        PoppedWork(s, f);
        SearchErased(s, PushNew(rest, Supers(s, current)), member);
      }
    }
  }

  lemma InheritedErased(s: Snapshot, memo: Memo, x: IndexedSymbol, member: string)
    requires forall a :: a in x.annotations ==> a in memo
    ensures Inherited(Erased(s), memo, Erase(x), member) == EraseFound(Inherited(s, memo, x, member))
  {
    hide Search, PushNew, StartTypes;
    StartTypesErased(s, memo, x);
    var empty := Frontier({x.qualifiedName}, []);
    PushNewErased(empty, StartTypes(s, memo, x));
    assert EraseFrontier(empty) == empty;
    SearchErased(s, StartFrontier(s, memo, x), member);
  }

  lemma HitErased(s: Snapshot, memo: Memo, scope: string, name: string)
    ensures HitAsks(Erased(s), scope, name) == HitAsks(s, scope, name)
    ensures HitAsks(s, scope, name) <= memo.Keys ==>
              Hit(Erased(s), memo, scope, name) == EraseFound(Hit(s, memo, scope, name))
  {
    hide VisibleIn, Find, Inherited;
    VisibleErased(s, scope, name);
    FindErased(s, scope);
    if VisibleIn(s, scope, name).None? && scope != "" && Find(s, scope).Some? && HitAsks(s, scope, name) <= memo.Keys {
      assert forall a :: a in Find(s, scope).value.annotations ==> a in HitAsks(s, scope, name);
      InheritedErased(s, memo, Find(s, scope).value, name);
    }
  }

  lemma {:induction false} WalkErased(s: Snapshot, memo: Memo, scope: string, name: string)
    requires WalkAsks(s, memo, scope, name) <= memo.Keys || WalkAsks(Erased(s), memo, scope, name) <= memo.Keys
    ensures Walk(Erased(s), memo, scope, name) == EraseFound(Walk(s, memo, scope, name))
    ensures WalkAsks(Erased(s), memo, scope, name) == WalkAsks(s, memo, scope, name)
    decreases |scope|
  {
    hide Hit, HitAsks, Find;
    HitErased(s, memo, scope, name);
    FindErased(s, name);
    if Hit(s, memo, scope, name).None? && Up(scope).Some? {
      WalkErased(s, memo, Up(scope).value, name);
    }
  }

  lemma {:induction false} ResolveErased(s: Snapshot, memo: Memo, scope: string, name: string)
    requires ResolveAsks(s, memo, scope, name) <= memo.Keys || ResolveAsks(Erased(s), memo, scope, name) <= memo.Keys
    ensures Resolve(Erased(s), memo, scope, name) == EraseFound(Resolve(s, memo, scope, name))
    ensures ResolveAsks(Erased(s), memo, scope, name) == ResolveAsks(s, memo, scope, name)
    decreases |name|
  {
    hide Walk, WalkAsks, Find, LastStep;
    FindErased(s, name);
    if !IsPath(name) {
      WalkErased(s, memo, scope, name);
    } else if Find(s, name).None? {
      var (first, rest) := SplitFirst(name);
      ResolveErased(s, memo, scope, first);
      var start := Resolve(s, memo, scope, first);
      if start.Some? {
        VisibleErased(s, TargetScope(start.value), rest);
        if IsPath(rest) {
          ResolveErased(s, memo, TargetScope(start.value), rest);
        }
      }
    }
  }

  // ---------------------------------------------------------------------------------------------
  // Settled answers
  // ---------------------------------------------------------------------------------------------

  function NameOf(r: Option<IndexedSymbol>): Option<string> {
    if r.Some? then Some(r.value.qualifiedName) else None
  }

  /** An answer whose base types are all in the memo. */
  ghost predicate IsSettled(s: Snapshot, memo: Memo, scope: string, name: string) {
    ResolveAsks(s, memo, scope, name) <= memo.Keys
  }

  lemma ExtendedAgrees(s: Snapshot, m: Memo, n: Memo, asked: set<string>)
    requires Extended(m, n) && asked <= m.Keys
    ensures Agree(s, m, n, asked)
  {
  }

  /** A settled answer stays the same, and stays settled, however the references change and the memo grows. */
  lemma SettledIsStable(s: Snapshot, m: Memo, t: Snapshot, n: Memo, scope: string, name: string)
    requires Erased(s) == Erased(t) && Extended(m, n) && IsSettled(s, m, scope, name)
    ensures IsSettled(t, n, scope, name)
    ensures NameOf(Resolve(t, n, scope, name)) == NameOf(Resolve(s, m, scope, name))
  {
    hide Resolve, ResolveAsks, Erased;
    ResolveErased(s, m, scope, name);
    ExtendedAgrees(Erased(s), m, n, ResolveAsks(s, m, scope, name));
    ResolveAgrees(Erased(s), m, n, scope, name);
    ResolveErased(t, n, scope, name);
  }
}
