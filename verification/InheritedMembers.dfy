/** Which members a symbol inherits, told from the meaning of its supertypes and of its annotations' base types. */
module InheritedMembers {
  import opened Wrappers
  import opened ElementKinds
  import opened IndexData
  import opened Scopes
  import opened Indexing
  import opened Resolver
  import opened InheritedSearch
  import opened Segments
  import opened NameLookup
  import opened BaseTypes

  /** The scope that a symbol stands in. */
  ghost function Around(x: IndexedSymbol): string {
    if ParentScope(x.qualifiedName).Some? then ParentScope(x.qualifiedName).value else ""
  }

  /** One of the symbol's supertypes means the other symbol. */
  ghost predicate HasSuper(s: Snapshot, x: IndexedSymbol, y: IndexedSymbol) {
    exists j :: 0 <= j < |x.supertypes| && MeansPlainly(s, Around(x), x.supertypes[j], y)
  }

  /** An annotation's base type, as it has been memoised or else as it is. */
  ghost predicate HasBase(s: Snapshot, memo: Memo, annotation: string, t: string) {
    if annotation in memo then memo[annotation] == Some(t) else IsBaseType(s.index, annotation, t)
  }

  /** The base type of one of the symbol's annotations means the other symbol. */
  ghost predicate HasBaseType(s: Snapshot, memo: Memo, x: IndexedSymbol, y: IndexedSymbol) {
    exists j, t :: 0 <= j < |x.annotations| && HasBase(s, memo, x.annotations[j], t) && MeansPlainly(s, Around(x), t, y)
  }

  /** Types one after the other: a supertype or base type of the symbol, and then supertypes of the one before. */
  ghost predicate IsTypePath(s: Snapshot, memo: Memo, x: IndexedSymbol, path: seq<IndexedSymbol>) {
    && path != [] && (HasSuper(s, x, path[0]) || HasBaseType(s, memo, x, path[0]))
    && forall k :: 0 <= k < |path| - 1 ==> HasSuper(s, path[k], path[k + 1])
  }

  /** The kinds of definitions that members are inherited from. */
  const DEFINITION_KINDS: set<SymbolKind> := {
    SymDefinition(SymPackage), SymDefinition(SymPartDefinition), SymDefinition(SymItemDefinition),
    SymDefinition(SymActionDefinition), SymDefinition(SymPortDefinition), SymDefinition(SymAttributeDefinition),
    SymDefinition(SymConnectionDefinition), SymDefinition(SymInterfaceDefinition),
    SymDefinition(SymAllocationDefinition), SymDefinition(SymRequirementDefinition),
    SymDefinition(SymConstraintDefinition), SymDefinition(SymStateDefinition), SymDefinition(SymCalculationDefinition),
    SymDefinition(SymOccurrenceDefinition), SymDefinition(SymUseCaseDefinition),
    SymDefinition(SymAnalysisCaseDefinition), SymDefinition(SymVerificationCaseDefinition),
    SymDefinition(SymConcernDefinition), SymDefinition(SymViewDefinition), SymDefinition(SymViewpointDefinition),
    SymDefinition(SymRenderingDefinition), SymDefinition(SymEnumerationDefinition),
    SymDefinition(SymMetadataDefinition), SymDefinition(SymInteraction)
  }

  /** A definition has the member that stands in it under that name. */
  ghost predicate HasMember(s: Snapshot, d: IndexedSymbol, member: string, m: IndexedSymbol) {
    d.kind in DEFINITION_KINDS && LeadsTo(s.index, d.qualifiedName + "::" + member, m)
  }

  /** A member of a definition, other than the symbol itself, that a path of types leads to. */
  ghost predicate CanInherit(s: Snapshot, memo: Memo, x: IndexedSymbol, member: string, m: IndexedSymbol) {
    exists path: seq<IndexedSymbol> ::
      && IsTypePath(s, memo, x, path)
      && path[|path| - 1].qualifiedName != x.qualifiedName && HasMember(s, path[|path| - 1], member, m)
  }

  // ---------------------------------------------------------------------------------------------
  // Steps from type to type
  // ---------------------------------------------------------------------------------------------

  lemma {:induction false} AllMeant(s: Snapshot, scope: string, names: seq<string>, y: IndexedSymbol)
    ensures y in PlainAll(s, scope, names) <==> exists j :: 0 <= j < |names| && MeansPlainly(s, scope, names[j], y)
  {
    hide MeansPlainly, Plain;
    if names != [] {
      AllMeant(s, scope, names[1..], y);
      PlainMeans(s, scope, names[0], y);
      assert forall j :: 1 <= j < |names| ==> names[j] == names[1..][j - 1];
      assert forall j :: 0 <= j < |names[1..]| ==> names[1..][j] == names[j + 1];
    }
  }

  lemma SupersAreMeant(s: Snapshot, x: IndexedSymbol, y: IndexedSymbol)
    ensures y in Supers(s, x) <==> HasSuper(s, x, y)
  {
    hide MeansPlainly, PlainAll, ParentScope;
    AllMeant(s, ScopeOf(x), x.supertypes, y);
  }

  lemma BaseIsKnown(s: Snapshot, memo: Memo, annotation: string, t: string)
    ensures BaseOf(s, memo, annotation) == Some(t) <==> HasBase(s, memo, annotation, t)
  {
    hide ComputeBase, IsBaseType;
    BaseTypeIsComputed(s.index, annotation, t);
  }

  lemma {:induction false} BasesAreKnown(s: Snapshot, memo: Memo, annotations: seq<string>, t: string)
    ensures t in BasesOf(s, memo, annotations) <==>
              exists j :: 0 <= j < |annotations| && HasBase(s, memo, annotations[j], t)
  {
    hide BaseOf, HasBase;
    if annotations != [] {
      BasesAreKnown(s, memo, annotations[1..], t);
      BaseIsKnown(s, memo, annotations[0], t);
      assert forall j :: 1 <= j < |annotations| ==> annotations[j] == annotations[1..][j - 1];
      assert forall j :: 0 <= j < |annotations[1..]| ==> annotations[1..][j] == annotations[j + 1];
    }
  }

  lemma StartsAreMeant(s: Snapshot, memo: Memo, x: IndexedSymbol, y: IndexedSymbol)
    ensures y in StartTypes(s, memo, x) <==> HasSuper(s, x, y) || HasBaseType(s, memo, x, y)
  {
    hide MeansPlainly, PlainAll, ParentScope, BasesOf, HasBase;
    SupersAreMeant(s, x, y);
    var bases := BasesOf(s, memo, x.annotations);
    AllMeant(s, ScopeOf(x), bases, y);
    forall t ensures t in bases <==> exists j :: 0 <= j < |x.annotations| && HasBase(s, memo, x.annotations[j], t) {
      BasesAreKnown(s, memo, x.annotations, t);
    }
    if HasBaseType(s, memo, x, y) {
      var j, t :| 0 <= j < |x.annotations| && HasBase(s, memo, x.annotations[j], t) && MeansPlainly(s, Around(x), t, y);
      assert t in bases;
    }
    if k :| 0 <= k < |bases| && MeansPlainly(s, ScopeOf(x), bases[k], y) {
      var t := bases[k];
      assert t in bases;
      var j :| 0 <= j < |x.annotations| && HasBase(s, memo, x.annotations[j], t);
      assert HasBase(s, memo, x.annotations[j], t) && MeansPlainly(s, Around(x), t, y);
    }
  }

  lemma PathIsChain(s: Snapshot, memo: Memo, x: IndexedSymbol, path: seq<IndexedSymbol>)
    ensures IsTypePath(s, memo, x, path) <==> IsChain(s, memo, x, path)
  {
    hide HasSuper, HasBaseType, Supers, StartTypes;
    if path != [] {
      StartsAreMeant(s, memo, x, path[0]);
    }
    forall k | 0 <= k < |path| - 1 ensures path[k + 1] in Supers(s, path[k]) <==> HasSuper(s, path[k], path[k + 1]) {
      SupersAreMeant(s, path[k], path[k + 1]);
    }
  }

  lemma DefinitionKinds(kind: SymbolKind)
    ensures IsDefinition(kind) <==> kind in DEFINITION_KINDS
  {
  }

  lemma ProvidesMember(s: Snapshot, d: IndexedSymbol, member: string, m: IndexedSymbol)
    ensures Provides(s, d, member) && MemberOf(s, d, member) == Some(m) <==> HasMember(s, d, member, m)
  {
    hide LeadsTo, Resolver.Find, IsDefinition;
    DefinitionKinds(d.kind);
    FindLeads(s, d.qualifiedName + "::" + member, m);
  }

  lemma SourceCanInherit(s: Snapshot, memo: Memo, x: IndexedSymbol, d: IndexedSymbol, member: string, m: IndexedSymbol)
    requires IsSource(s, memo, x, d, member) && MemberOf(s, d, member) == Some(m)
    ensures CanInherit(s, memo, x, member, m)
  {
    hide HasSuper, HasBaseType, Supers, StartTypes, Provides, MemberOf, HasMember;
    var path :| IsChain(s, memo, x, path) && path[|path| - 1] == d;
    PathIsChain(s, memo, x, path);
    ProvidesMember(s, d, member, m);
  }

  lemma InheritedFrom(s: Snapshot, memo: Memo, x: IndexedSymbol, member: string, m: IndexedSymbol)
    returns (d: IndexedSymbol)
    requires CanInherit(s, memo, x, member, m)
    ensures IsSource(s, memo, x, d, member)
  {
    hide HasSuper, HasBaseType, Supers, StartTypes, Provides, MemberOf, HasMember;
    var path: seq<IndexedSymbol> :| IsTypePath(s, memo, x, path)
      && path[|path| - 1].qualifiedName != x.qualifiedName && HasMember(s, path[|path| - 1], member, m);
    d := path[|path| - 1];
    PathIsChain(s, memo, x, path);
    ProvidesMember(s, d, member, m);
  }

  /** A live symbol inherits something under a name exactly if some definition that its types lead to has it there, and
      what it inherits is a member of such a definition. */
  lemma InheritsMembers(s: Snapshot, memo: Memo, x: IndexedSymbol, member: string)
    requires Keyed(s) && IsLive(s, x)
    ensures Inherited(s, memo, x, member).Some? <==> exists m :: CanInherit(s, memo, x, member, m)
    ensures Inherited(s, memo, x, member).Some? ==> CanInherit(s, memo, x, member, Inherited(s, memo, x, member).value)
  {
    hide Keyed, IsLive, Inherited, IsSource, CanInherit, MemberOf;
    InheritedIsComplete(s, memo, x, member);
    var r := Inherited(s, memo, x, member);
    if r.Some? {
      var d :| IsSource(s, memo, x, d, member) && r == MemberOf(s, d, member);
      SourceCanInherit(s, memo, x, d, member, r.value);
    }
    if m :| CanInherit(s, memo, x, member, m) {
      var d := InheritedFrom(s, memo, x, member, m);
    }
  }

  // ---------------------------------------------------------------------------------------------
  // Members that reach a symbol through an annotation
  // ---------------------------------------------------------------------------------------------

  /** A symbol that has no supertypes and one annotation inherits a member of the definition that the annotation's base
      type means. */
  lemma AnnotationBringsMember(s: Snapshot, memo: Memo, x: IndexedSymbol, annotation: string, t: string,
          d: IndexedSymbol, member: string, m: IndexedSymbol)
    requires x.supertypes == [] && x.annotations == [annotation] && HasBase(s, memo, annotation, t)
    requires MeansPlainly(s, Around(x), t, d) && d.qualifiedName != x.qualifiedName && HasMember(s, d, member, m)
    ensures Inherited(s, memo, x, member) == Some(m)
  {
    hide MeansPlainly, HasBase, BaseOf, Plain, ParentScope, Provides, MemberOf, HasMember;
    BaseIsKnown(s, memo, annotation, t);
    PlainMeans(s, Around(x), t, d);
    ProvidesMember(s, d, member, m);
    assert [annotation][1..] == [] && [t][1..] == [] && [d][1..] == [];
    assert BasesOf(s, memo, []) == [] && BasesOf(s, memo, [annotation]) == [t];
    assert PlainAll(s, Around(x), []) == [] && PlainAll(s, Around(x), [t]) == [d];
    assert StartTypes(s, memo, x) == [d];
    var start := Frontier({x.qualifiedName}, []);
    assert PushNew(start, [d]) == PushNew(Frontier(start.visited + {d.qualifiedName}, [d]), []);
    SearchAnswers(s, start.visited + {d.qualifiedName}, d, member);
  }

  lemma SearchAnswers(s: Snapshot, visited: set<string>, d: IndexedSymbol, member: string)
    requires Provides(s, d, member)
    ensures Search(s, Frontier(visited, [d]), member) == MemberOf(s, d, member)
  {
    hide Provides, MemberOf;
  }

  /** So a simple name that the symbol's own scope does not show resolves to that member from inside the symbol. */
  lemma AnnotatedScopeFindsMember(s: Snapshot, memo: Memo, x: IndexedSymbol, annotation: string, t: string,
          d: IndexedSymbol, member: string, m: IndexedSymbol)
    requires x.qualifiedName != "" && LeadsTo(s.index, x.qualifiedName, x) && !HasSeparator(member)
    requires x.supertypes == [] && x.annotations == [annotation] && HasBase(s, memo, annotation, t)
    requires MeansPlainly(s, Around(x), t, d) && d.qualifiedName != x.qualifiedName && HasMember(s, d, member, m)
    requires forall y :: !ShowsHere(s, x.qualifiedName, member, y)
    ensures Resolve(s, memo, x.qualifiedName, member) == Some(m)
  {
    hide MeansPlainly, HasBase, HasMember, Inherited, ShowsHere, LeadsTo, Around, HasSeparator, IsOutward;
    AnnotationBringsMember(s, memo, x, annotation, t, d, member, m);
    ChainIsOutward(x.qualifiedName);
    var chain := LexicalChain(x.qualifiedName);
    assert InheritsHere(s, memo, chain[0], member, m);
    assert AnswersHere(s, Some(memo), chain[0], member, m);
    assert SilentBefore(s, Some(memo), chain, member, 0);
    SimpleNameIsLookedUp(s, memo, x.qualifiedName, chain, member, m);
  }
}
