/** What the context of a redefinition answers, told from the references, the index and the visibility maps alone. */
module RedefinitionLookup {
  import opened Wrappers
  import opened ElementKinds
  import opened IndexData
  import opened Scopes
  import opened Indexing
  import opened Resolver
  import opened ResolutionStability
  import opened Segments
  import opened NameLookup
  import opened ImportTargets
  import opened RedefinitionContext
  import Names

  // ---------------------------------------------------------------------------------------------
  // What one reference offers
  // ---------------------------------------------------------------------------------------------

  ghost predicate IsKnown(s: Snapshot, q: string) {
    exists x :: LeadsTo(s.index, q, x)
  }

  /** A member of a scope: the symbol inside it of that name, or else what the scope's map shows, if that is known. */
  ghost predicate OffersMember(s: Snapshot, scope: string, member: string, q: string) {
    if IsKnown(s, scope + "::" + member) then q == scope + "::" + member
    else Shows(s.visibility, scope, member, q) && IsKnown(s, q)
  }

  const REQUIREMENT_KINDS: set<SymbolKind> := {
    SymDefinition(SymRequirementDefinition), SymUsage(SymRequirementUsage), SymUsage(SymSatisfyRequirementUsage),
    SymDefinition(SymConstraintDefinition), SymUsage(SymConstraintUsage), SymUsage(SymAssertConstraintUsage)
  }

  /** Reference `j` of a symbol is simple, or a chain that begins with the part given. */
  ghost predicate RefersBy(x: IndexedSymbol, j: nat, ref: TypeRef) {
    j < |x.typeRefs| &&
      match x.typeRefs[j]
      case Simple(r) => ref == r
      case Chain(parts) => |parts| > 0 && ref == parts[0]
  }

  /** A reference that has been resolved to a requirement or a constraint offers the members of that. */
  ghost predicate SatisfiesWith(s: Snapshot, x: IndexedSymbol, j: nat, member: string, q: string) {
    exists ref: TypeRef, target: string, r: IndexedSymbol ::
      && RefersBy(x, j, ref) && ref.resolvedTarget == Some(target) && LeadsTo(s.index, target, r)
      && r.kind in REQUIREMENT_KINDS && OffersMember(s, target, member, q)
  }

  /** The scope in which the types of a symbol are looked up. */
  ghost predicate StandsIn(name: string, scope: string) {
    if HasSeparator(name) then exists last: string :: InitAndLast(name, scope, last) else scope == ""
  }

  /** The type that a reference names: what it has been resolved to, or if it has not been resolved, what its name means
      where the symbol stands, or else the symbol of exactly that name. */
  ghost predicate NamesType(s: Snapshot, memo: Memo, x: IndexedSymbol, ref: TypeRef, t: IndexedSymbol) {
    match ref.resolvedTarget
    case Some(target) => LeadsTo(s.index, target, t)
    case None => exists scope ::
      StandsIn(x.qualifiedName, scope) &&
        if exists y :: Means(s, memo, scope, ref.target, y) then Means(s, memo, scope, ref.target, t)
        else LeadsTo(s.index, ref.target, t)
  }

  /** A typing or a subsetting offers the members of the type that it names. */
  ghost predicate TypesWith(s: Snapshot, memo: Memo, x: IndexedSymbol, j: nat, member: string, q: string) {
    exists ref: TypeRef, t: IndexedSymbol ::
      && RefersBy(x, j, ref) && (ref.kind.TypedByRef? || ref.kind.SubsetsRef?)
      && NamesType(s, memo, x, ref, t) && OffersMember(s, t.qualifiedName, member, q)
  }

  // ---------------------------------------------------------------------------------------------
  // The order in which references are asked
  // ---------------------------------------------------------------------------------------------

  ghost predicate OffersAt(s: Snapshot, memo: Memo, mode: Mode, x: IndexedSymbol, j: nat, member: string, q: string) {
    match mode
    case Satisfying => SatisfiesWith(s, x, j, member, q)
    case Typing => TypesWith(s, memo, x, j, member, q)
  }

  /** What the first reference of a symbol offers that offers anything. */
  ghost predicate FirstOffers(s: Snapshot, memo: Memo, mode: Mode, x: IndexedSymbol, member: string, q: string) {
    exists j: nat ::
      && OffersAt(s, memo, mode, x, j, member, q)
      && forall i: nat, p :: i < j ==> !OffersAt(s, memo, mode, x, i, member, p)
  }

  /** A slot holds a child of the parent, other than the one that asks, whose name is in the index. */
  ghost predicate IsSibling(s: Snapshot, parent: string, self: string, k: nat) {
    && k < |s.index.symbols| && s.index.symbols[k].qualifiedName != self
    && s.index.symbols[k].qualifiedName in s.index.byQualifiedName && ParentOf(s.index.symbols[k]) == parent
  }

  /** The sibling in a slot offers something. */
  ghost predicate SiblingAt(s: Snapshot, memo: Memo, parent: string, self: string, k: nat, member: string, q: string) {
    IsSibling(s, parent, self, k) && FirstOffers(s, memo, Satisfying, s.index.symbols[k], member, q)
  }

  ghost predicate SilentBelow(s: Snapshot, memo: Memo, parent: string, self: string, n: nat, member: string) {
    forall k: nat, p :: k < n ==> !SiblingAt(s, memo, parent, self, k, member, p)
  }

  /** The siblings are asked in the order of their slots, here those below `n`. */
  ghost predicate SiblingOffers(s: Snapshot, memo: Memo, parent: string, self: string, n: nat, member: string,
          q: string) {
    exists k: nat ::
      k < n && SiblingAt(s, memo, parent, self, k, member, q) && SilentBelow(s, memo, parent, self, k, member)
  }

  /** The type of the grandparent, where the parent has one that is known. */
  ghost predicate GrandparentOffers(s: Snapshot, memo: Memo, parent: string, member: string, q: string) {
    exists outer: string, last: string, x :: InitAndLast(parent, outer, last) && LeadsTo(s.index, outer, x)
      && FirstOffers(s, memo, Typing, x, member, q)
  }

  /** In order: the parent's references, the siblings', the parent's types and the grandparent's types. */
  ghost predicate ContextOffers(s: Snapshot, memo: Memo, self: string, member: string, q: string) {
    exists parent: string, x :: ParentScope(self) == Some(parent) && LeadsTo(s.index, parent, x) &&
      if exists p :: FirstOffers(s, memo, Satisfying, x, member, p) then FirstOffers(s, memo, Satisfying, x, member, q)
      else if exists p :: SiblingOffers(s, memo, parent, self, |s.index.symbols|, member, p)
      then SiblingOffers(s, memo, parent, self, |s.index.symbols|, member, q)
      else if exists p :: FirstOffers(s, memo, Typing, x, member, p) then FirstOffers(s, memo, Typing, x, member, q)
      else GrandparentOffers(s, memo, parent, member, q)
  }

  // ---------------------------------------------------------------------------------------------
  // One reference
  // ---------------------------------------------------------------------------------------------

  lemma FoundIsKnown(s: Snapshot, q: string)
    ensures Resolver.Find(s, q).Some? <==> IsKnown(s, q)
  {
    if Resolver.Find(s, q).Some? {
      FindLeads(s, q, Resolver.Find(s, q).value);
    }
  }

  lemma MemberIsOffered(s: Snapshot, scope: string, member: string, q: string)
    ensures MemberIn(s, scope, member) == Some(q) <==> OffersMember(s, scope, member, q)
  {
    hide Resolver.Find, IsKnown, Shows, ScopeVisibility.Lookup;
    FoundIsKnown(s, scope + "::" + member);
    FoundIsKnown(s, q);
    if scope in s.visibility {
      LookupShows(s.visibility, scope, member, q);
    } else {
      UnknownShowsNothing(s.visibility, scope, member, q);
    }
  }

  lemma RequirementKinds(kind: SymbolKind)
    ensures IsRequirementLike(kind) <==> kind in REQUIREMENT_KINDS
  {
  }

  lemma PartIsReferred(x: IndexedSymbol, j: nat, ref: TypeRef)
    requires j < |x.typeRefs|
    ensures FirstPart(x.typeRefs[j]) == Some(ref) <==> RefersBy(x, j, ref)
  {
  }

  lemma SatisfiedIsOffered(s: Snapshot, x: IndexedSymbol, j: nat, member: string, q: string)
    requires j < |x.typeRefs|
    ensures FirstPart(x.typeRefs[j]).Some? && SatisfiedSays(s, FirstPart(x.typeRefs[j]).value, member) == Some(q)
            <==> SatisfiesWith(s, x, j, member, q)
  {
    hide Resolver.Find, LeadsTo, MemberIn, OffersMember, IsRequirementLike, FirstPart, RefersBy;
    forall ref ensures FirstPart(x.typeRefs[j]) == Some(ref) <==> RefersBy(x, j, ref) {
      PartIsReferred(x, j, ref);
    }
    if FirstPart(x.typeRefs[j]).Some? {
      var ref := FirstPart(x.typeRefs[j]).value;
      assert RefersBy(x, j, ref);
      if ref.resolvedTarget.Some? {
        var target := ref.resolvedTarget.value;
        MemberIsOffered(s, target, member, q);
        forall r ensures Resolver.Find(s, target) == Some(r) <==> LeadsTo(s.index, target, r) {
          FindLeads(s, target, r);
        }
        if Resolver.Find(s, target).Some? {
          RequirementKinds(Resolver.Find(s, target).value.kind);
        }
      }
    }
  }

  lemma OuterIsAround(name: string, scope: string)
    ensures OuterScope(name) == scope <==> StandsIn(name, scope)
  {
    hide HasSeparator, InitAndLast, Names.RSplitOnce;
    RSplitIsLast(name);
    if last: string :| InitAndLast(name, scope, last) {
      LastIsUnique(name, scope, last);
    }
  }

  lemma TypeIsNamed(s: Snapshot, memo: Memo, x: IndexedSymbol, ref: TypeRef, q: string)
    ensures TypeName(s, memo, x.qualifiedName, ref) == Some(q) <==>
            exists t :: NamesType(s, memo, x, ref, t) && t.qualifiedName == q
  {
    hide Resolver.Find, LeadsTo, Resolve, Means, OuterScope, StandsIn;
    forall p, t ensures Resolver.Find(s, p) == Some(t) <==> LeadsTo(s.index, p, t) {
      FindLeads(s, p, t);
    }
    var scope := OuterScope(x.qualifiedName);
    forall o ensures o == scope <==> StandsIn(x.qualifiedName, o) {
      OuterIsAround(x.qualifiedName, o);
    }
    forall t ensures Resolve(s, memo, scope, ref.target) == Some(t) <==> Means(s, memo, scope, ref.target, t) {
      ResolveMeans(s, memo, scope, ref.target, t);
    }
    TypeIsNamedBy(s, memo, x, ref, scope, q);
  }

  lemma TypeIsNamedBy(s: Snapshot, memo: Memo, x: IndexedSymbol, ref: TypeRef, scope: string, q: string)
    requires scope == OuterScope(x.qualifiedName) && forall o :: o == scope <==> StandsIn(x.qualifiedName, o)
    requires forall p, t :: Resolver.Find(s, p) == Some(t) <==> LeadsTo(s.index, p, t)
    requires forall t :: Resolve(s, memo, scope, ref.target) == Some(t) <==> Means(s, memo, scope, ref.target, t)
    ensures TypeName(s, memo, x.qualifiedName, ref) == Some(q) <==>
            exists t :: NamesType(s, memo, x, ref, t) && t.qualifiedName == q
  {
    hide Resolver.Find, LeadsTo, Resolve, Means, OuterScope, StandsIn;
    assert StandsIn(x.qualifiedName, scope);
    var found := if ref.resolvedTarget.Some? then Resolver.Find(s, ref.resolvedTarget.value)
                 else if Resolve(s, memo, scope, ref.target).Some? then Resolve(s, memo, scope, ref.target)
                 else Resolver.Find(s, ref.target);
    assert TypeName(s, memo, x.qualifiedName, ref) == NameOf(found);
    forall t ensures NamesType(s, memo, x, ref, t) <==> found == Some(t) {
      if ref.resolvedTarget.None? && Resolve(s, memo, scope, ref.target).Some? {
        assert Means(s, memo, scope, ref.target, Resolve(s, memo, scope, ref.target).value);
      }
    }
  }

  lemma TypeIsOffered(s: Snapshot, memo: Memo, x: IndexedSymbol, j: nat, member: string, q: string)
    requires j < |x.typeRefs|
    ensures FirstPart(x.typeRefs[j]).Some?
              && TypeSays(s, memo, x.qualifiedName, FirstPart(x.typeRefs[j]).value, member) == Some(q)
            <==> TypesWith(s, memo, x, j, member, q)
  {
    hide MemberIn, OffersMember, FirstPart, RefersBy, TypeName, NamesType;
    forall ref ensures FirstPart(x.typeRefs[j]) == Some(ref) <==> RefersBy(x, j, ref) {
      PartIsReferred(x, j, ref);
    }
    if FirstPart(x.typeRefs[j]).Some? {
      var ref := FirstPart(x.typeRefs[j]).value;
      assert RefersBy(x, j, ref);
      forall p ensures TypeName(s, memo, x.qualifiedName, ref) == Some(p) <==>
                       exists t :: NamesType(s, memo, x, ref, t) && t.qualifiedName == p {
        TypeIsNamed(s, memo, x, ref, p);
      }
      var name := TypeName(s, memo, x.qualifiedName, ref);
      forall t | NamesType(s, memo, x, ref, t) ensures name == Some(t.qualifiedName) {
      }
      if name.Some? {
        MemberIsOffered(s, name.value, member, q);
        var t :| NamesType(s, memo, x, ref, t) && t.qualifiedName == name.value;
        assert IsTyping(ref) && OffersMember(s, t.qualifiedName, member, q) ==> TypesWith(s, memo, x, j, member, q);
      }
    }
  }

  // ---------------------------------------------------------------------------------------------
  // Lists of references
  // ---------------------------------------------------------------------------------------------

  lemma ReadingOffers(s: Snapshot, memo: Memo, mode: Mode, slot: nat, j: nat, member: string, q: string)
    requires slot < |s.index.symbols|
    ensures Says(s, memo, Reading(mode, slot, j), member) == Some(q) <==>
            OffersAt(s, memo, mode, s.index.symbols[slot], j, member, q)
  {
    hide SatisfiedSays, TypeSays, SatisfiesWith, TypesWith, FirstPart;
    var x := s.index.symbols[slot];
    if j < |x.typeRefs| {
      SatisfiedIsOffered(s, x, j, member, q);
      TypeIsOffered(s, memo, x, j, member, q);
    } else {
      NoSuchReference(s, memo, mode, x, j, member, q);
    }
  }

  lemma NoSuchReference(s: Snapshot, memo: Memo, mode: Mode, x: IndexedSymbol, j: nat, member: string, q: string)
    requires j >= |x.typeRefs|
    ensures !OffersAt(s, memo, mode, x, j, member, q)
  {
  }

  lemma SymbolOffers(s: Snapshot, memo: Memo, mode: Mode, slot: nat, member: string, q: string)
    requires slot < |s.index.symbols|
    ensures FirstSaying(s, memo, ReadingsOf(s, mode, slot), member) == Some(q) <==>
            FirstOffers(s, memo, mode, s.index.symbols[slot], member, q)
  {
    hide Says, OffersAt, DecidedAt;
    var x, readings := s.index.symbols[slot], ReadingsOf(s, mode, slot);
    forall j: nat, p ensures Says(s, memo, Reading(mode, slot, j), member) == Some(p) <==>
                             OffersAt(s, memo, mode, x, j, member, p) {
      ReadingOffers(s, memo, mode, slot, j, member, p);
    }
    forall j: nat, p | j >= |x.typeRefs| ensures !OffersAt(s, memo, mode, x, j, member, p) {
      NoSuchReference(s, memo, mode, x, j, member, p);
    }
    var d := DecidedAt(s, memo, readings, member);
    if d < |readings| {
      assert OffersAt(s, memo, mode, x, d, member, Says(s, memo, readings[d], member).value);
    }
    if FirstOffers(s, memo, mode, x, member, q) {
      var j: nat :| OffersAt(s, memo, mode, x, j, member, q)
        && forall i: nat, p :: i < j ==> !OffersAt(s, memo, mode, x, i, member, p);
      assert d <= j;
      assert d == j;
    }
  }

  lemma FirstSayingIs(s: Snapshot, memo: Memo, mode: Mode, slot: nat, member: string)
    requires slot < |s.index.symbols|
    ensures forall q :: FirstSaying(s, memo, ReadingsOf(s, mode, slot), member) == Some(q) <==>
                        FirstOffers(s, memo, mode, s.index.symbols[slot], member, q)
  {
    hide FirstSaying, FirstOffers, ReadingsOf;
    forall q ensures FirstSaying(s, memo, ReadingsOf(s, mode, slot), member) == Some(q) <==>
                     FirstOffers(s, memo, mode, s.index.symbols[slot], member, q) {
      SymbolOffers(s, memo, mode, slot, member, q);
    }
  }

  lemma {:induction false} SiblingsConcat(s: Snapshot, slots: seq<nat>, k: nat, self: string)
    ensures SiblingReadings(s, slots + [k], self) == SiblingReadings(s, slots, self) + SiblingReadings(s, [k], self)
    decreases |slots|
  {
    hide ReadingsOf;
    if slots == [] {
      assert slots + [k] == [k];
    } else {
      assert (slots + [k])[1..] == slots[1..] + [k];
      SiblingsConcat(s, slots[1..], k, self);
    }
  }

  lemma {:induction false} SilentOrOffers(s: Snapshot, memo: Memo, parent: string, self: string, n: nat, member: string)
    ensures SilentBelow(s, memo, parent, self, n, member) <==>
            forall q :: !SiblingOffers(s, memo, parent, self, n, member, q)
  {
    hide SiblingAt;
    if n > 0 {
      var m := n - 1;
      SilentOrOffers(s, memo, parent, self, m, member);
      if q :| SiblingOffers(s, memo, parent, self, m, member, q) {
        assert SiblingOffers(s, memo, parent, self, n, member, q);
      } else if q :| SiblingAt(s, memo, parent, self, m, member, q) {
        assert SiblingOffers(s, memo, parent, self, n, member, q);
      }
    }
  }

  /** One slot more at the end. */
  lemma SiblingsFurther(s: Snapshot, memo: Memo, parent: string, self: string, n: nat, member: string, q: string)
    ensures SiblingOffers(s, memo, parent, self, n + 1, member, q) <==>
      || SiblingOffers(s, memo, parent, self, n, member, q)
      || (SiblingAt(s, memo, parent, self, n, member, q)
            && forall p :: !SiblingOffers(s, memo, parent, self, n, member, p))
  {
    hide SiblingAt;
    SilentOrOffers(s, memo, parent, self, n, member);
  }

  lemma {:induction false} SiblingsOffer(s: Snapshot, memo: Memo, parent: string, self: string, n: nat, member: string)
    requires n <= |s.index.symbols|
    ensures forall q :: FirstSaying(s, memo, SiblingReadings(s, Children(s.index, n, parent), self), member) == Some(q)
                        <==> SiblingOffers(s, memo, parent, self, n, member, q)
  {
    hide FirstOffers, ReadingsOf, FirstSaying, SiblingOffers, SiblingReadings, Children;
    if n == 0 {
      NoneSays(s, memo, parent, self, member);
    } else {
      SiblingsOffer(s, memo, parent, self, n - 1, member);
      FirstSayingIs(s, memo, Satisfying, n - 1, member);
      SiblingsSnoc(s, memo, parent, self, n - 1, member);
      forall q ensures FirstSaying(s, memo, SiblingReadings(s, Children(s.index, n, parent), self), member) == Some(q)
                       <==> SiblingOffers(s, memo, parent, self, n, member, q) {
        SiblingsFurther(s, memo, parent, self, n - 1, member, q);
      }
      SomeIsParticular(FirstSaying(s, memo, SiblingReadings(s, Children(s.index, n - 1, parent), self), member));
    }
  }

  lemma SomeIsParticular(r: Option<string>)
    ensures r.Some? <==> exists q :: r == Some(q)
  {
    assert r.Some? ==> r == Some(r.value);
  }

  /** What the list of readings says with one slot more. */
  lemma SiblingsSnoc(s: Snapshot, memo: Memo, parent: string, self: string, n: nat, member: string)
    requires n < |s.index.symbols|
    ensures var before := FirstSaying(s, memo, SiblingReadings(s, Children(s.index, n, parent), self), member);
      FirstSaying(s, memo, SiblingReadings(s, Children(s.index, n + 1, parent), self), member) ==
        if before.Some? || !IsSibling(s, parent, self, n) then before
        else FirstSaying(s, memo, ReadingsOf(s, Satisfying, n), member)
  {
    hide FirstSaying, ReadingsOf, ParentOf, Children, SiblingReadings;
    var slots := Children(s.index, n, parent);
    ChildrenFurther(s, parent, n);
    SiblingsConcat(s, slots, n, self);
    OneSibling(s, n, self);
    assert SiblingReadings(s, slots, self) + [] == SiblingReadings(s, slots, self);
    if IsSibling(s, parent, self, n) {
      DecidedConcat(s, memo, SiblingReadings(s, slots, self), ReadingsOf(s, Satisfying, n), member);
    }
  }

  lemma OneSibling(s: Snapshot, n: nat, self: string)
    requires n < |s.index.symbols|
    ensures SiblingReadings(s, [n], self) ==
            if s.index.symbols[n].qualifiedName == self then [] else ReadingsOf(s, Satisfying, n)
  {
    hide ReadingsOf;
    assert SiblingReadings(s, [n][1..], self) == [];
  }

  lemma ChildrenFurther(s: Snapshot, parent: string, n: nat)
    requires n < |s.index.symbols|
    ensures var x, before := s.index.symbols[n], Children(s.index, n, parent);
      Children(s.index, n + 1, parent) ==
        if x.qualifiedName in s.index.byQualifiedName && ParentOf(x) == parent then before + [n] else before
  {
    hide ParentOf;
    var before := Children(s.index, n, parent);
    assert before + [] == before;
  }

  lemma NoneSays(s: Snapshot, memo: Memo, parent: string, self: string, member: string)
    ensures FirstSaying(s, memo, [], member) == None && SiblingReadings(s, Children(s.index, 0, parent), self) == []
    ensures forall q :: !SiblingOffers(s, memo, parent, self, 0, member, q)
  {
  }

  // ---------------------------------------------------------------------------------------------
  // The whole context
  // ---------------------------------------------------------------------------------------------

  lemma SlotHolds(s: Snapshot, name: string, x: IndexedSymbol)
    ensures LeadsTo(s.index, name, x) <==> SlotOf(s, name).Some? && s.index.symbols[SlotOf(s, name).value] == x
  {
  }

  lemma GrandparentIsAsked(s: Snapshot, memo: Memo, parent: string, member: string, q: string)
    ensures var split := Names.RSplitOnce(parent);
      var grandparent := if split.Some? then SlotOf(s, split.value.0) else None;
      GrandparentOffers(s, memo, parent, member, q) <==>
        grandparent.Some? && FirstSaying(s, memo, ReadingsOf(s, Typing, grandparent.value), member) == Some(q)
  {
    hide FirstSaying, FirstOffers, InitAndLast, LeadsTo, SlotOf, Names.RSplitOnce, ReadingsOf;
    RSplitIsLast(parent);
    forall outer, last | InitAndLast(parent, outer, last) ensures Names.RSplitOnce(parent) == Some((outer, last)) {
      LastIsUnique(parent, outer, last);
    }
    var split := Names.RSplitOnce(parent);
    if split.Some? {
      forall x ensures LeadsTo(s.index, split.value.0, x) <==>
          SlotOf(s, split.value.0).Some? && s.index.symbols[SlotOf(s, split.value.0).value] == x {
        SlotHolds(s, split.value.0, x);
      }
      if SlotOf(s, split.value.0).Some? {
        FirstSayingIs(s, memo, Typing, SlotOf(s, split.value.0).value, member);
      }
    }
  }

  /** What the search in the context of a redefinition finds is what that context offers. */
  lemma ContextIsAsked(s: Snapshot, memo: Memo, self: string, member: string, q: string)
    ensures InContext(s, memo, self, member) == Some(q) <==> ContextOffers(s, memo, self, member, q)
  {
    hide FirstSaying, FirstOffers, LeadsTo, SlotOf, Names.RSplitOnce, ReadingsOf, ParentScope, SiblingReadings,
      SiblingOffers, GrandparentOffers, Children;
    var parent := ParentScope(self);
    NoneSays(s, memo, "", self, member);
    if parent.Some? {
      forall x ensures LeadsTo(s.index, parent.value, x) <==>
          SlotOf(s, parent.value).Some? && s.index.symbols[SlotOf(s, parent.value).value] == x {
        SlotHolds(s, parent.value, x);
      }
      if SlotOf(s, parent.value).Some? {
        var slot := SlotOf(s, parent.value).value;
        ContextOf(s, memo, self, parent.value, slot, member, q);
        OffersInContext(s, memo, self, parent.value, s.index.symbols[slot], member, q);
      }
    }
  }

  /** The parent and its symbol are given. */
  lemma OffersInContext(s: Snapshot, memo: Memo, self: string, parent: string, x: IndexedSymbol, member: string,
          q: string)
    requires ParentScope(self) == Some(parent) && LeadsTo(s.index, parent, x)
    ensures ContextOffers(s, memo, self, member, q) <==>
      if exists p :: FirstOffers(s, memo, Satisfying, x, member, p) then FirstOffers(s, memo, Satisfying, x, member, q)
      else if exists p :: SiblingOffers(s, memo, parent, self, |s.index.symbols|, member, p)
      then SiblingOffers(s, memo, parent, self, |s.index.symbols|, member, q)
      else if exists p :: FirstOffers(s, memo, Typing, x, member, p) then FirstOffers(s, memo, Typing, x, member, q)
      else GrandparentOffers(s, memo, parent, member, q)
  {
    hide FirstOffers, SiblingOffers, GrandparentOffers, LeadsTo;
    OneSymbol(s.index, parent, x, x);
    forall y ensures LeadsTo(s.index, parent, y) <==> y == x {
      OneSymbol(s.index, parent, y, x);
    }
  }

  lemma ContextOf(s: Snapshot, memo: Memo, self: string, parent: string, slot: nat, member: string, q: string)
    requires ParentScope(self) == Some(parent) && SlotOf(s, parent) == Some(slot)
    ensures var x := s.index.symbols[slot];
      InContext(s, memo, self, member) == Some(q) <==>
        if exists p :: FirstOffers(s, memo, Satisfying, x, member, p)
        then FirstOffers(s, memo, Satisfying, x, member, q)
        else if exists p :: SiblingOffers(s, memo, parent, self, |s.index.symbols|, member, p)
        then SiblingOffers(s, memo, parent, self, |s.index.symbols|, member, q)
        else if exists p :: FirstOffers(s, memo, Typing, x, member, p) then FirstOffers(s, memo, Typing, x, member, q)
        else GrandparentOffers(s, memo, parent, member, q)
  {
    hide FirstSaying, FirstOffers, LeadsTo, SlotOf, Names.RSplitOnce, ReadingsOf, ParentScope, SiblingReadings,
      SiblingOffers, GrandparentOffers, Children;
    var split := Names.RSplitOnce(parent);
    var grandparent := if split.Some? then SlotOf(s, split.value.0) else None;
    var a, b := ReadingsOf(s, Satisfying, slot), SiblingReadings(s, SiblingSlots(s, parent), self);
    var c := ReadingsOf(s, Typing, slot);
    var d := if grandparent.Some? then ReadingsOf(s, Typing, grandparent.value) else [];
    FirstSayingIs(s, memo, Satisfying, slot, member);
    SiblingsOffer(s, memo, parent, self, |s.index.symbols|, member);
    FirstSayingIs(s, memo, Typing, slot, member);
    GrandparentIsAsked(s, memo, parent, member, q);
    NoneSays(s, memo, parent, self, member);
    DecidedConcat(s, memo, a + b + c, d, member);
    DecidedConcat(s, memo, a + b, c, member);
    DecidedConcat(s, memo, a, b, member);
    SomeIsParticular(FirstSaying(s, memo, a, member));
    SomeIsParticular(FirstSaying(s, memo, b, member));
    SomeIsParticular(FirstSaying(s, memo, c, member));
  }
}
