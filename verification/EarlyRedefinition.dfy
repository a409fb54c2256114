/** A redefinition that the first pass answers before the reference that its context depends on. */
module EarlyRedefinition {
  import opened Wrappers
  import opened ElementKinds
  import opened IndexData
  import opened Scopes
  import opened Indexing
  import opened Resolver
  import opened ResolutionStability
  import opened RedefinitionContext
  import opened ResolutionCache
  import Names

  /** The simple names of a part, of a redefining child and then a sibling in it, and of a requirement with a
      member. */
  datatype Cast = Cast(part: string, child: string, sibling: string, requirement: string, member: string)
  {
    function Child(): string { part + "::" + child }

    function Sibling(): string { part + "::" + sibling }

    function Inner(): string { requirement + "::" + member }
  }

  function Symbol(name: string, qualifiedName: string, kind: SymbolKind, supertypes: seq<string>,
          refs: seq<TypeRefKind>): IndexedSymbol
  {
    IndexedSymbol(name, None, qualifiedName, kind, true, supertypes, [], refs)
  }

  /** The child redefines the member; the sibling subsets the requirement. */
  function Symbols(c: Cast): seq<IndexedSymbol> {
    [Symbol(c.part, c.part, SymUsage(SymPartUsage), [], []),
     Symbol(c.child, c.Child(), SymUsage(SymRequirementUsage), [c.member],
            [Simple(TypeRef(c.member, RedefinesRef, None))]),
     Symbol(c.sibling, c.Sibling(), SymUsage(SymRequirementUsage), [c.requirement],
            [Simple(TypeRef(c.requirement, SubsetsRef, None))]),
     Symbol(c.requirement, c.requirement, SymDefinition(SymRequirementDefinition), [], []),
     Symbol(c.member, c.Inner(), SymUsage(SymAttributeUsage), [], [])]
  }

  /** The index of these symbols. */
  function Indexed(c: Cast): IndexState {
    IndexState(
      Symbols(c),
      map[c.part := 0, c.Child() := 1, c.Sibling() := 2, c.requirement := 3, c.Inner() := 4],
      map[c.part := [0], c.child := [1], c.sibling := [2], c.requirement := [3], c.member := [4]],
      map[],
      map[0 := [0, 1, 2, 3, 4]],
      map[c.requirement := 3])
  }

  function Defining(names: map<string, string>): ScopeVisibility {
    ScopeVisibility(names, map[], [])
  }

  /** What each scope defines. The sibling has inherited the requirement's member; the child's supertype names
      nothing that is visible to it. */
  function Visibility(c: Cast): map<string, ScopeVisibility> {
    map["" := Defining(map[c.part := c.part, c.requirement := c.requirement]),
        c.part := Defining(map[c.child := c.Child(), c.sibling := c.Sibling()]),
        c.Child() := Defining(map[]),
        c.Sibling() := Defining(map[c.member := c.Inner()]),
        c.requirement := Defining(map[c.member := c.Inner()]),
        c.Inner() := Defining(map[])]
  }

  function Model(c: Cast): Snapshot {
    Snapshot(Indexed(c), Visibility(c))
  }

  /** The names are distinct and stand inside one another as they should. */
  predicate NamesFit(c: Cast) {
    && SimpleNamesDiffer(c) && QualifiedNamesDiffer(c)
    && ParentScope(c.Child()) == Some(c.part) && ParentScope(c.Sibling()) == Some(c.part)
    && ParentScope(c.part) == Some("") && ParentScope(c.requirement) == Some("")
    && ParentScope(c.Inner()) == Some(c.requirement)
    && Up(c.Child()) == Some(c.part) && Up(c.Sibling()) == Some(c.part) && Names.RSplitOnce(c.part) == None
    && !IsPath(c.member) && !IsPath(c.requirement)
    && ReferenceScope(c.Child()) == c.Child() && ReferenceScope(c.Sibling()) == c.Sibling()
  }

  predicate SimpleNamesDiffer(c: Cast) {
    && c.part != "" && c.requirement != ""
    && c.part !in [c.child, c.sibling, c.requirement, c.member] && c.child !in [c.sibling, c.requirement, c.member]
    && c.sibling !in [c.requirement, c.member] && c.requirement != c.member
  }

  predicate QualifiedNamesDiffer(c: Cast) {
    && c.part !in [c.Child(), c.Sibling(), c.requirement, c.Inner()]
    && c.Child() !in [c.Sibling(), c.requirement, c.Inner()]
    && c.Sibling() !in [c.requirement, c.Inner()] && c.requirement != c.Inner()
    && c.member !in [c.part, c.Child(), c.Sibling(), c.requirement, c.Inner()]
    && c.requirement + "::" + c.requirement !in [c.part, c.Child(), c.Sibling(), c.requirement, c.Inner()]
  }

  // ---------------------------------------------------------------------------------------------
  // The scopes of the child and of the sibling
  // ---------------------------------------------------------------------------------------------

  lemma PartScopes(c: Cast, name: string)
    requires NamesFit(c) && name in [c.member, c.requirement]
    ensures var s := Model(c);
      && VisibleIn(s, c.Child(), name) == None && VisibleIn(s, c.part, name) == None
      && VisibleIn(s, "", name) == (if name == c.member then None else Some(Symbols(c)[3]))
      && (name == c.requirement ==> VisibleIn(s, c.Sibling(), name) == None)
      && Find(s, c.member) == None
      && Plain(s, c.part, name) == if name == c.member then None else Some(Symbols(c)[3])
  {
    hide ParentScope, IsPath, ReferenceScope, Names.RSplitOnce;
    var s := Model(c);
    assert Up(c.part) == Some("");
    assert Up("") == None by {
      RootIsTop();
    }
    assert c.member !in Indexed(c).byQualifiedName;
    assert PlainWalk(s, c.part, name) == PlainWalk(s, "", name);
  }

  lemma RootIsTop()
    ensures Up("") == None
  {
  }

  /** The child inherits nothing of the member's name, as its only supertype is not found. */
  lemma ChildInheritsNothing(c: Cast, memo: Memo)
    requires NamesFit(c)
    ensures Inherited(Model(c), memo, Symbols(c)[1], c.member) == None
  {
    hide ParentScope, IsPath, ReferenceScope, Names.RSplitOnce, Plain, Visibility, Indexed, SimpleNamesDiffer,
         QualifiedNamesDiffer;
    var s, child := Model(c), Symbols(c)[1];
    PartScopes(c, c.member);
    OneSupertype(s, memo, child, c.part, c.member);
    EmptySearch(s, {c.Child()}, c.member);
  }

  /** The sibling inherits nothing of the requirement's name, as the requirement has no such member. */
  lemma SiblingInheritsNothing(c: Cast, memo: Memo)
    requires NamesFit(c)
    ensures Inherited(Model(c), memo, Symbols(c)[2], c.requirement) == None
  {
    hide ParentScope, IsPath, ReferenceScope, Names.RSplitOnce, Plain, Visibility, SimpleNamesDiffer;
    var s, sibling, target := Model(c), Symbols(c)[2], Symbols(c)[3];
    PartScopes(c, c.requirement);
    OneSupertype(s, memo, sibling, c.part, c.requirement);
    assert MemberOf(s, target, c.requirement) == None;
    SearchOfOne(s, {c.Sibling(), c.requirement}, target, c.requirement);
  }

  /** Where the search starts for a symbol with one supertype and no annotations. */
  lemma OneSupertype(s: Snapshot, memo: Memo, x: IndexedSymbol, scope: string, supertype: string)
    requires x.supertypes == [supertype] && x.annotations == [] && ScopeOf(x) == scope
    ensures var found := Plain(s, scope, supertype);
      StartFrontier(s, memo, x) ==
        if found.Some? && found.value.qualifiedName != x.qualifiedName
        then Frontier({x.qualifiedName, found.value.qualifiedName}, [found.value])
        else Frontier({x.qualifiedName}, [])
  {
    hide Plain, ScopeOf;
    var found := Plain(s, scope, supertype);
    assert [supertype][1..] == [];
    assert BasesOf(s, memo, []) == [] && PlainAll(s, scope, []) == [];
    assert StartTypes(s, memo, x) == if found.Some? then [found.value] else [];
    var start := Frontier({x.qualifiedName}, []);
    if found.Some? {
      assert [found.value][1..] == [];
      assert PushNew(start, [found.value]) ==
        if found.value.qualifiedName in start.visited then start
        else Frontier(start.visited + {found.value.qualifiedName}, start.stack + [found.value]);
      assert {x.qualifiedName} + {found.value.qualifiedName} == {x.qualifiedName, found.value.qualifiedName};
    }
  }

  lemma EmptySearch(s: Snapshot, visited: set<string>, member: string)
    ensures Search(s, Frontier(visited, []), member) == None
  {
  }

  /** A lone type without supertypes that does not have the member. */
  lemma SearchOfOne(s: Snapshot, visited: set<string>, x: IndexedSymbol, member: string)
    requires x.supertypes == [] && MemberOf(s, x, member) == None
    ensures Search(s, Frontier(visited, [x]), member) == None
  {
    hide ScopeOf, Plain;
    assert Supers(s, x) == [];
    assert [x][..0] == [];
    EmptySearch(s, visited, member);
  }

  lemma ChildWalks(c: Cast, memo: Memo)
    requires NamesFit(c)
    ensures Resolve(Model(c), memo, c.Child(), c.member) == None
    ensures Resolve(Model(c), memo, c.Sibling(), c.requirement) == Some(Symbols(c)[3])
  {
    hide ParentScope, IsPath, ReferenceScope, Names.RSplitOnce, Inherited, VisibleIn;
    var s := Model(c);
    PartScopes(c, c.member);
    PartScopes(c, c.requirement);
    ChildInheritsNothing(c, memo);
    SiblingInheritsNothing(c, memo);
    RootIsTop();
    assert Up(c.part) == Some("");
    assert Find(s, c.Child()) == Some(Symbols(c)[1]) && Find(s, c.Sibling()) == Some(Symbols(c)[2]);
    assert Find(s, c.part) == Some(Symbols(c)[0]);
    assert Walk(s, memo, "", c.member) == None && Walk(s, memo, c.part, c.member) == None;
    assert Walk(s, memo, "", c.requirement) == Some(Symbols(c)[3]) == Walk(s, memo, c.part, c.requirement);
  }

  // ---------------------------------------------------------------------------------------------
  // The context of the child
  // ---------------------------------------------------------------------------------------------

  lemma ChildrenNext(s: IndexState, n: nat, scope: string)
    requires n < |s.symbols| && s.symbols[n].qualifiedName in s.byQualifiedName
    ensures Children(s, n + 1, scope) == Children(s, n, scope) + (if ParentOf(s.symbols[n]) == scope then [n] else [])
  {
    hide ParentOf;
  }

  lemma Parents(c: Cast)
    requires NamesFit(c)
    ensures var list := Symbols(c);
      && ParentOf(list[0]) != c.part && ParentOf(list[1]) == c.part && ParentOf(list[2]) == c.part
      && ParentOf(list[3]) != c.part && ParentOf(list[4]) != c.part
  {
    hide ParentScope, Names.RSplitOnce, IsPath, ReferenceScope, QualifiedNamesDiffer, Up;
  }

  lemma ChildrenOfPart(c: Cast)
    requires NamesFit(c)
    ensures SiblingSlots(Model(c), c.part) == [1, 2]
  {
    hide NamesFit, Children, ParentOf, Visibility;
    var i := Indexed(c);
    Parents(c);
    assert Children(i, 0, c.part) == [] by {
      NoChildren(i, c.part);
    }
    ChildrenNext(i, 0, c.part);
    ChildrenNext(i, 1, c.part);
    ChildrenNext(i, 2, c.part);
    ChildrenNext(i, 3, c.part);
    ChildrenNext(i, 4, c.part);
    assert [1] + [2] == [1, 2];
  }

  lemma NoChildren(s: IndexState, scope: string)
    ensures Children(s, 0, scope) == []
  {
  }

  lemma ChildReadings(c: Cast)
    requires NamesFit(c)
    ensures Readings(Model(c), c.Child()) == [Reading(Satisfying, 2, 0)]
  {
    hide ParentScope, Names.RSplitOnce, IsPath, ReferenceScope, Visibility, Children, SimpleNamesDiffer, Up;
    var s := Model(c);
    ChildrenOfPart(c);
    assert [1, 2][1..] == [2] && [2][1..] == [];
    assert SiblingReadings(s, [], c.Child()) == [];
    assert SiblingReadings(s, [2], c.Child()) == [Reading(Satisfying, 2, 0)];
    assert SlotOf(s, c.part) == Some(0);
  }

  /** Before the sibling's reference is resolved the context says nothing, afterwards it says the member. */
  lemma ChildContext(c: Cast, memo: Memo)
    requires NamesFit(c)
    ensures InContext(Model(c), memo, c.Child(), c.member) == None
    ensures InContext(Written(Model(c), 2, 0, 0, Some(c.requirement)), memo, c.Child(), c.member) == Some(c.Inner())
  {
    hide ParentScope, Names.RSplitOnce, IsPath, ReferenceScope, Readings, Erased, Visibility;
    var s, t := Model(c), Written(Model(c), 2, 0, 0, Some(c.requirement));
    ChildReadings(c);
    WrittenKeepsRefs(s, 2, 0, 0, Some(c.requirement));
    ReadingsSame(s, t, c.Child());
    var r := Reading(Satisfying, 2, 0);
    assert Says(s, memo, r, c.member) == None;
    assert MemberIn(t, c.requirement, c.member) == Some(c.Inner());
    assert Says(t, memo, r, c.member) == Some(c.Inner());
    assert [r][1..] == [];
  }

  /** A redefinition that comes before the sibling it depends on: at its turn nothing is found, while redoing it
      after the pass would find the requirement's member. */
  lemma EarlyChildMissesMember(c: Cast, memo: Memo)
    requires NamesFit(c)
    ensures var s := Model(c);
      var work := [WorkItem(1, 0, 0, c.Child(), c.member, true), WorkItem(2, 0, 0, c.Sibling(), c.requirement, false)];
      && AnswerTo(s, memo, work[0]) == None
      && AnswerTo(AllWritten(s, work[..1], [None]), memo, work[1]) == Some(c.requirement)
      && AnswerTo(AllWritten(s, work, [None, Some(c.requirement)]), memo, work[0]) == Some(c.Inner())
  {
    hide ParentScope, Names.RSplitOnce, IsPath, InContext, Resolve, Model;
    var s := Model(c);
    var first, second :=
        WorkItem(1, 0, 0, c.Child(), c.member, true), WorkItem(2, 0, 0, c.Sibling(), c.requirement, false);
    var work, none, some := [first, second], [None], [None, Some(c.requirement)];
    ChildWalks(c, memo);
    ChildContext(c, memo);
    assert work[..1] == [first] && work[..1][..0] == [] && some[..1] == none && none[..0] == [];
    assert AllWritten(s, work[..1], none) == Written(s, 1, 0, 0, None) == s by {
      NothingWrittenYet(c);
    }
    assert AllWritten(s, work, some) == Written(s, 2, 0, 0, Some(c.requirement));
  }

  lemma NothingWrittenYet(c: Cast)
    ensures Written(Model(c), 1, 0, 0, None) == Model(c)
  {
    var s := Model(c);
    var x := s.index.symbols[1];
    assert x.typeRefs[0 := WithTarget(x.typeRefs[0], 0, None)] == x.typeRefs;
    assert s.index.symbols[1 := x] == s.index.symbols;
  }

  // ---------------------------------------------------------------------------------------------
  // There is such a model
  // ---------------------------------------------------------------------------------------------

  lemma AddFresh(s: IndexState, x: IndexedSymbol)
    requires x.shortName == None && x.name !in s.bySimpleName
    ensures AddOne(s, x) ==
      var i := |s.symbols|;
      IndexState(s.symbols + [x], s.byQualifiedName[x.qualifiedName := i], s.bySimpleName[x.name := [i]], s.byShortName,
                 s.byFile, if IsDefinition(x.kind) then s.definitions[x.qualifiedName := i] else s.definitions)
  {
    hide IsDefinition;
    assert [] + [|s.symbols|] == [|s.symbols|];
  }

  lemma AddNext(s: IndexState, list: seq<IndexedSymbol>, n: nat)
    requires n < |list|
    ensures AddAll(s, list[..n + 1]) == AddOne(AddAll(s, list[..n]), list[n])
  {
    assert list[..n + 1][..n] == list[..n] && list[..n + 1][n] == list[n];
  }

  /** The index after the first `n` symbols. */
  function IndexedUpTo(c: Cast, n: nat): IndexState
    requires n <= 5
  {
    if n == 0 then EMPTY
    else
      var s, x := IndexedUpTo(c, n - 1), Symbols(c)[n - 1];
      IndexState(s.symbols + [x], s.byQualifiedName[x.qualifiedName := n - 1], s.bySimpleName[x.name := [n - 1]],
                 map[], map[],
                 if IsDefinition(x.kind) then s.definitions[x.qualifiedName := n - 1] else s.definitions)
  }

  lemma {:induction false} AddedUpTo(c: Cast, n: nat)
    requires SimpleNamesDiffer(c) && n <= 5
    ensures AddAll(EMPTY, Symbols(c)[..n]) == IndexedUpTo(c, n)
    ensures |IndexedUpTo(c, n).symbols| == n
    ensures forall name :: name in IndexedUpTo(c, n).bySimpleName ==>
              exists k :: 0 <= k < n && Symbols(c)[k].name == name
  {
    hide IsDefinition, AddOne;
    if n == 0 {
      assert Symbols(c)[..0] == [];
    } else {
      AddedUpTo(c, n - 1);
      AddNext(EMPTY, Symbols(c), n - 1);
      AddFresh(IndexedUpTo(c, n - 1), Symbols(c)[n - 1]);
    }
  }

  /** The index is the one that adding the symbols as one file builds. */
  lemma IndexedByAdding(c: Cast)
    requires SimpleNamesDiffer(c)
    ensures WithFile(EMPTY, 0, Symbols(c)) == Indexed(c)
  {
    hide AddAll;
    AddedUpTo(c, 5);
    assert Symbols(c)[..5] == Symbols(c);
    assert SlotRange(0, 5) == [0, 1, 2, 3, 4];
    var list := Symbols(c);
    assert IndexedUpTo(c, 1).symbols == list[..1];
    assert IndexedUpTo(c, 2).symbols == list[..2] && IndexedUpTo(c, 3).symbols == list[..3];
    assert IndexedUpTo(c, 4).symbols == list[..4] && IndexedUpTo(c, 5).symbols == list;
  }

  /** Names that fit. */
  lemma FittingNames(c: Cast)
    requires c == Cast("P", "c", "S", "R", "m")
    ensures NamesFit(c)
  {
    hide SimpleNamesDiffer, QualifiedNamesDiffer, ParentScope, Up, IsPath, ReferenceScope, Names.RSplitOnce;
    DifferentNames(c);
    RootScopes(c.part, c.requirement, c.member);
    InnerScopes(c.Child(), c.Sibling(), c.Inner());
  }

  lemma DifferentNames(c: Cast)
    requires c == Cast("P", "c", "S", "R", "m")
    ensures SimpleNamesDiffer(c) && QualifiedNamesDiffer(c)
    ensures c.Child() == "P::c" && c.Sibling() == "P::S" && c.Inner() == "R::m"
  {
    assert c.Child()[3] == 'c' && c.Sibling()[3] == 'S' && c.Inner()[3] == 'm' && c.Inner()[0] == 'R';
    assert |c.part| == |c.requirement| == |c.member| == 1;
    assert (c.requirement + "::" + c.requirement)[0] == 'R' && (c.requirement + "::" + c.requirement)[3] == 'R';
  }

  lemma RootScopes(p: string, r: string, m: string)
    requires p == "P" && r == "R" && m == "m"
    ensures ParentScope(p) == Some("") && ParentScope(r) == Some("") && Names.RSplitOnce(p) == None
    ensures !IsPath(m) && !IsPath(r)
  {
    assert Names.LastSeparator(p) == None;
  }

  lemma InnerScopes(child: string, sibling: string, inner: string)
    requires child == "P::c" && sibling == "P::S" && inner == "R::m"
    ensures ParentScope(child) == Some("P") && ParentScope(sibling) == Some("P") && ParentScope(inner) == Some("R")
    ensures ReferenceScope(child) == child && ReferenceScope(sibling) == sibling
    ensures Up(child) == Some("P") && Up(sibling) == Some("P")
  {
    assert "P::c"[..1] == "P" && "P::S"[..1] == "P" && "R::m"[..1] == "R";
    assert ParentScope("P::c") == Some("P") && ParentScope("P::S") == Some("P") && ParentScope("R::m") == Some("R");
    assert ReferenceScope("P::c") == "P::c" && ReferenceScope("P::S") == "P::S";
    assert Up("P::c") == Some("P") && Up("P::S") == Some("P");
  }
}
