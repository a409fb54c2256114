/** Resolving type references: base types memoised inside lookups, answers cached across references, and
    resolved targets written into the very symbols that resolution reads. */
module ResolutionCache {
  import opened Wrappers
  import opened ElementKinds
  import opened IndexData
  import opened Scopes
  import opened Indexing
  import opened Resolver
  import opened ResolutionStability
  import opened RedefinitionContext
  import Names

  // ---------------------------------------------------------------------------------------------
  // Writing targets
  // ---------------------------------------------------------------------------------------------

  function WithTarget(kind: TypeRefKind, part: nat, target: Option<string>): TypeRefKind {
    match kind
    case Simple(ref) => Simple(ref.(resolvedTarget := target))
    case Chain(parts) =>
      if part < |parts| then Chain(parts[part := parts[part].(resolvedTarget := target)]) else kind
  }

  function Written(s: Snapshot, symbol: nat, ref: nat, part: nat, target: Option<string>): Snapshot {
    if symbol < |s.index.symbols| && ref < |s.index.symbols[symbol].typeRefs| then
      var x := s.index.symbols[symbol];
      s.(index := s.index.(symbols :=
        s.index.symbols[symbol := x.(typeRefs := x.typeRefs[ref := WithTarget(x.typeRefs[ref], part, target)])]))
    else s
  }

  /** Writing a target changes nothing but what a reference has been resolved to. */
  lemma WrittenKeepsRefs(s: Snapshot, symbol: nat, ref: nat, part: nat, target: Option<string>)
    ensures Erased(Written(s, symbol, ref, part, target)) == Erased(s)
    ensures SameRefs(s, Written(s, symbol, ref, part, target))
  {
    hide Erased;
    var t := Written(s, symbol, ref, part, target);
    assert Erased(t) == Erased(s) by {
      WrittenErased(s, symbol, ref, part, target);
    }
    forall i | 0 <= i < |s.index.symbols| ensures RefsMatch(s.index.symbols[i], t.index.symbols[i]) {
      if i == symbol && ref < |s.index.symbols[i].typeRefs| {
        WithTargetIsBare(s.index.symbols[i].typeRefs[ref], part, target);
      }
    }
  }

  lemma WithTargetIsBare(kind: TypeRefKind, part: nat, target: Option<string>)
    ensures Bare(FirstPart(WithTarget(kind, part, target))) == Bare(FirstPart(kind))
  {
  }

  lemma WrittenErased(s: Snapshot, symbol: nat, ref: nat, part: nat, target: Option<string>)
    ensures Erased(Written(s, symbol, ref, part, target)) == Erased(s)
  {
  }

  /** The scope that a symbol's references are resolved from; imports use the scope they stand in. */
  function ReferenceScope(containing: string): string {
    var mark := Names.Find(containing, "::import:");
    if mark.Some? then containing[..mark.value]
    else if Names.StartsWith(containing, "import:") then ""
    else containing
  }

  // ---------------------------------------------------------------------------------------------
  // The work of the first pass
  // ---------------------------------------------------------------------------------------------

  /** A reference to resolve, with the name of the symbol that it stands in. */
  datatype WorkItem = WorkItem(symbol: nat, ref: nat, part: nat, containing: string, target: string, isRedefines: bool)

  /** The answer for an item: for redefinitions what the context gives, and else what its scopes give. */
  function AnswerTo(s: Snapshot, memo: Memo, item: WorkItem): Option<string> {
    var context := if item.isRedefines then InContext(s, memo, item.containing, item.target) else None;
    if context.Some? then context else NameOf(Resolve(s, memo, ReferenceScope(item.containing), item.target))
  }

  /** The snapshot after the answers have been written, in order. */
  function AllWritten(s: Snapshot, work: seq<WorkItem>, answers: seq<Option<string>>): Snapshot
    requires |work| == |answers|
  {
    if work == [] then s
    else
      var n := |work| - 1;
      Written(AllWritten(s, work[..n], answers[..n]), work[n].symbol, work[n].ref, work[n].part, answers[n])
  }

  /** An item whose answer no longer depends on the memo. */
  ghost predicate ItemSettled(s: Snapshot, memo: Memo, item: WorkItem) {
    && (item.isRedefines ==> SettledUpTo(s, memo, Readings(s, item.containing), item.target))
    && (!item.isRedefines || InContext(s, memo, item.containing, item.target).None? ==>
          IsSettled(s, memo, ReferenceScope(item.containing), item.target))
  }

  /** Answers that come from scopes are stable. */
  lemma AnswerIsStable(s: Snapshot, m: Memo, t: Snapshot, n: Memo, item: WorkItem)
    requires Erased(s) == Erased(t) && Extended(m, n) && ItemSettled(s, m, item) && !item.isRedefines
    ensures AnswerTo(t, n, item) == AnswerTo(s, m, item)
  {
    hide Resolve, IsSettled, Erased, ReferenceScope;
    SettledIsStable(s, m, t, n, ReferenceScope(item.containing), item.target);
  }

  /** A redefinition's decision is the same later exactly when the references up to the one that decided it, as
      far as they have been rewritten since, say what they said then; and then its answer is the same too. */
  lemma RedefinitionIsStable(s: Snapshot, m: Memo, t: Snapshot, n: Memo, item: WorkItem)
    requires SameRefs(s, t) && Extended(m, n) && ItemSettled(s, m, item) && item.isRedefines
    ensures DecisionOn(t, n, item.containing, item.target) == DecisionOn(s, m, item.containing, item.target)
            <==> RewritesSayTheSame(s, m, t, n, item.containing, item.target)
    ensures RewritesSayTheSame(s, m, t, n, item.containing, item.target) ==>
              AnswerTo(t, n, item) == AnswerTo(s, m, item)
  {
    hide Resolve, IsSettled, Erased, ReferenceScope, Says, Readings, SettledUpTo, RewritesSayTheSame;
    DecisionStays(s, m, t, n, item.containing, item.target);
    if InContext(s, m, item.containing, item.target).None? {
      SettledIsStable(s, m, t, n, ReferenceScope(item.containing), item.target);
    }
  }

  /** Every cached answer is what resolving its name from its scope gives now, and will go on giving. */
  ghost predicate Coherent(s: Snapshot, memo: Memo, cache: map<(string, string), Option<string>>) {
    forall key :: key in cache ==>
      IsSettled(s, memo, key.1, key.0) && cache[key] == NameOf(Resolve(s, memo, key.1, key.0))
  }

  lemma CoherentStays(s: Snapshot, m: Memo, t: Snapshot, n: Memo, cache: map<(string, string), Option<string>>)
    requires Erased(s) == Erased(t) && Extended(m, n) && Coherent(s, m, cache)
    ensures Coherent(t, n, cache)
  {
    hide Resolve, IsSettled, Erased, Extended;
    forall key | key in cache
      ensures IsSettled(t, n, key.1, key.0) && cache[key] == NameOf(Resolve(t, n, key.1, key.0))
    {
      SettledIsStable(s, m, t, n, key.1, key.0);
    }
  }

  lemma GrownFromItself(s: Snapshot, m: Memo)
    ensures Grown(s, m, m)
  {
  }

  // ---------------------------------------------------------------------------------------------
  // The pass in place
  // ---------------------------------------------------------------------------------------------

  class TypeRefPass {
    var snapshot: Snapshot
    /** Filled by lookups as they meet annotations. */
    var baseTypes: Memo
    var cache: map<(string, string), Option<string>>

    constructor (s: Snapshot, memo: Memo)
      ensures snapshot == s && baseTypes == memo && cache == map[]
    {
      snapshot, baseTypes, cache := s, memo, map[];
    }

    method GetMetadataBaseType(annotation: string) returns (r: Option<string>)
      modifies `baseTypes
      ensures r == BaseOf(snapshot, old(baseTypes), annotation)
      ensures Grown(snapshot, old(baseTypes), baseTypes) && annotation in baseTypes
    {
      if annotation in baseTypes {
        return baseTypes[annotation];
      }
      r := ComputeBase(snapshot.index, annotation);
      baseTypes := baseTypes[annotation := r];
    }

    /** The base types of a symbol's annotations, resolved from its enclosing scope, pushed after its supertypes. */
    method StartSearch(symbol: IndexedSymbol) returns (f: Frontier)
      modifies `baseTypes
      ensures f == StartFrontier(snapshot, old(baseTypes), symbol)
      ensures Grown(snapshot, old(baseTypes), baseTypes) && (set a | a in symbol.annotations) <= baseTypes.Keys
    {
      hide Plain, PlainAll, PushNew, Grown, BaseOf, ComputeBase;
      ghost var s, memo := snapshot, baseTypes;
      var scope := ScopeOf(symbol);
      var bases := [];
      var annotations := symbol.annotations;
      GrownFromItself(s, memo);
      for i := 0 to |annotations|
        invariant snapshot == s && Grown(s, memo, baseTypes)
        invariant bases + BasesOf(s, memo, annotations[i..]) == BasesOf(s, memo, annotations)
        invariant forall a :: a in annotations[..i] ==> a in baseTypes
      {
        assert annotations[i..][0] == annotations[i] && annotations[i..][1..] == annotations[i + 1..];
        assert annotations[..i + 1] == annotations[..i] + [annotations[i]];
        ghost var before := baseTypes;
        var base := GetMetadataBaseType(annotations[i]);
        assert base == BaseOf(s, memo, annotations[i]) by {
          GrownAgrees(s, memo, before, {annotations[i]});
        }
        GrownKeys(s, before, baseTypes);
        GrownTrans(s, memo, before, baseTypes);
        if base.Some? {
          bases := bases + [base.value];
        }
      }
      assert annotations[|annotations|..] == [] && annotations[..|annotations|] == annotations;
      assert bases + [] == bases;
      var types := PlainAll(snapshot, scope, symbol.supertypes) + PlainAll(snapshot, scope, bases);
      f := PushNew(Frontier({symbol.qualifiedName}, []), types);
    }

    /** The worklist: the type on top of the stack answers or gives way to its own supertypes. */
    method ResolveInheritedMember(symbol: IndexedSymbol, member: string) returns (r: Option<IndexedSymbol>)
      modifies `baseTypes
      ensures r == Inherited(snapshot, old(baseTypes), symbol, member)
      ensures Grown(snapshot, old(baseTypes), baseTypes) && (set a | a in symbol.annotations) <= baseTypes.Keys
    {
      hide Plain, Grown, Provides, MemberOf, Supers, PushNew, Work;
      var f := StartSearch(symbol);
      ghost var goal, known := Search(snapshot, f, member), baseTypes;
      while f.stack != []
        invariant baseTypes == known
        invariant Search(snapshot, f, member) == goal
        decreases Work(snapshot, f)
      {
        var current := f.stack[|f.stack| - 1];
        var rest := Frontier(f.visited, f.stack[..|f.stack| - 1]);
        PoppedWork(snapshot, f);
        PushNewWork(snapshot, rest, Supers(snapshot, current));
        if Provides(snapshot, current, member) {
          return MemberOf(snapshot, current, member);
        }
        f := PushNew(rest, Supers(snapshot, current));
      }
      return None;
    }

    method ResolveInScope(scope: string, name: string) returns (r: Option<IndexedSymbol>)
      modifies `baseTypes
      ensures r == Hit(snapshot, old(baseTypes), scope, name)
      ensures Grown(snapshot, old(baseTypes), baseTypes) && HitAsks(snapshot, scope, name) <= baseTypes.Keys
    {
      hide VisibleIn, Grown, Inherited, Resolver.Find;
      GrownFromItself(snapshot, baseTypes);
      r := VisibleIn(snapshot, scope, name);
      if r.Some? || scope == "" {
        return;
      }
      var symbol := Resolver.Find(snapshot, scope);
      if symbol.Some? && (symbol.value.supertypes != [] || symbol.value.annotations != []) {
        r := ResolveInheritedMember(symbol.value, name);
      }
    }

    /** Simple names: up the enclosing scopes until one answers. */
    method WalkScopes(start: string, name: string) returns (r: Option<IndexedSymbol>)
      modifies `baseTypes
      ensures r == Walk(snapshot, old(baseTypes), start, name)
      ensures Grown(snapshot, old(baseTypes), baseTypes)
      ensures WalkAsks(snapshot, old(baseTypes), start, name) <= baseTypes.Keys
    {
      hide VisibleIn, Grown, Hit, HitAsks, Resolver.Find;
      ghost var s, memo := snapshot, baseTypes;
      ghost var asked := WalkAsks(s, memo, start, name);
      var current := start;
      GrownFromItself(s, memo);
      while true
        invariant snapshot == s && Grown(s, memo, baseTypes)
        invariant Walk(s, memo, current, name) == Walk(s, memo, start, name)
        invariant asked <= baseTypes.Keys + WalkAsks(s, memo, current, name)
        decreases |current|
      {
        ghost var before := baseTypes;
        r := ResolveInScope(current, name);
        AskedGrows(s, memo, before, current, name);
        GrownKeys(s, before, baseTypes);
        GrownTrans(s, memo, before, baseTypes);
        if r.Some? {
          return;
        }
        var up := Up(current);
        if up.None? {
          break;
        }
        current := up.value;
      }
      r := Resolver.Find(snapshot, name);
    }

    /** Resolution of any name: paths by their first segment and then onwards, simple names by walking. */
    method ResolveName(scope: string, name: string) returns (r: Option<IndexedSymbol>)
      modifies `baseTypes
      decreases |name|
      ensures r == Resolve(snapshot, old(baseTypes), scope, name)
      ensures Grown(snapshot, old(baseTypes), baseTypes)
      ensures ResolveAsks(snapshot, old(baseTypes), scope, name) <= baseTypes.Keys
    {
      hide Grown, Walk, WalkAsks, Resolver.Find, LastStep, TargetScope;
      ghost var s, memo := snapshot, baseTypes;
      if !IsPath(name) {
        r := WalkScopes(scope, name);
        return;
      }
      GrownFromItself(s, memo);
      r := Resolver.Find(snapshot, name);
      if r.Some? {
        return;
      }
      var (first, rest) := SplitFirst(name);
      var start := ResolveName(scope, first);
      if start.None? {
        return None;
      }
      var target := TargetScope(start.value);
      if IsPath(rest) {
        ghost var before := baseTypes;
        r := ResolveName(target, rest);
        AskedGrows(s, memo, before, target, rest);
        GrownKeys(s, before, baseTypes);
        GrownTrans(s, memo, before, baseTypes);
      } else {
        r := LastStep(snapshot, target, rest);
      }
    }

    ghost predicate Valid()
      reads this
    {
      Coherent(snapshot, baseTypes, cache)
    }

    /** The cached lookup answers what the uncached one would. */
    method ResolveTypeRefCached(containing: string, target: string) returns (r: Option<string>)
      requires Valid()
      modifies `baseTypes, `cache
      ensures Valid() && Grown(snapshot, old(baseTypes), baseTypes)
      ensures r == NameOf(Resolve(snapshot, baseTypes, ReferenceScope(containing), target))
      ensures IsSettled(snapshot, baseTypes, ReferenceScope(containing), target)
    {
      hide Grown, Resolve, ResolveAsks, Erased;
      GrownFromItself(snapshot, baseTypes);
      var scope := ReferenceScope(containing);
      var key := (target, scope);
      if key in cache {
        return cache[key];
      }
      ghost var memo := baseTypes;
      var symbol := ResolveName(scope, target);
      r := NameOf(symbol);
      AskedGrows(snapshot, memo, baseTypes, scope, target);
      GrownKeys(snapshot, memo, baseTypes);
      CoherentStays(snapshot, memo, snapshot, baseTypes, cache);
      cache := cache[key := r];
    }

    /** A symbol's references as ones that may satisfy: the first resolved one that knows the member answers. */
    method CheckSatisfyContext(slot: nat, member: string) returns (r: Option<string>)
      requires slot < |snapshot.index.symbols|
      ensures r == FirstSaying(snapshot, baseTypes, ReadingsOf(snapshot, Satisfying, slot), member)
      ensures SettledUpTo(snapshot, baseTypes, ReadingsOf(snapshot, Satisfying, slot), member)
    {
      hide SatisfiedSays, DecidedAt;
      var refs := snapshot.index.symbols[slot].typeRefs;
      ghost var readings := ReadingsOf(snapshot, Satisfying, slot);
      for i := 0 to |refs|
        invariant forall k :: 0 <= k < i ==> Says(snapshot, baseTypes, readings[k], member).None?
      {
        var part := FirstPart(refs[i]);
        if part.Some? {
          r := SatisfiedSays(snapshot, part.value, member);
          if r.Some? {
            DecidedIs(snapshot, baseTypes, readings, member, i);
            return;
          }
        }
      }
      DecidedIs(snapshot, baseTypes, readings, member, |refs|);
      r := None;
    }

    /** The type that a reference names; what has not been resolved yet is resolved now. */
    method TypeOfRef(holder: string, ref: TypeRef) returns (r: Option<string>)
      modifies `baseTypes
      ensures r == TypeName(snapshot, old(baseTypes), holder, ref)
      ensures Grown(snapshot, old(baseTypes), baseTypes)
      ensures ref.resolvedTarget.None? ==> IsSettled(snapshot, baseTypes, OuterScope(holder), ref.target)
    {
      hide Grown, Resolve, ResolveAsks, Resolver.Find;
      GrownFromItself(snapshot, baseTypes);
      if ref.resolvedTarget.Some? {
        return NameOf(Resolver.Find(snapshot, ref.resolvedTarget.value));
      }
      ghost var memo := baseTypes;
      var resolved := ResolveName(OuterScope(holder), ref.target);
      AskedGrows(snapshot, memo, baseTypes, OuterScope(holder), ref.target);
      r := NameOf(if resolved.Some? then resolved else Resolver.Find(snapshot, ref.target));
    }

    /** A symbol's typings and subsettings: the first type that knows the member answers. */
    method ResolveInParentType(slot: nat, member: string) returns (r: Option<string>)
      requires slot < |snapshot.index.symbols|
      modifies `baseTypes
      ensures r == FirstSaying(snapshot, old(baseTypes), ReadingsOf(snapshot, Typing, slot), member)
      ensures Grown(snapshot, old(baseTypes), baseTypes)
      ensures SettledUpTo(snapshot, baseTypes, ReadingsOf(snapshot, Typing, slot), member)
    {
      hide Grown, DecidedAt, MemberIn, TypeName, IsSettled;
      ghost var s, memo := snapshot, baseTypes;
      var symbol := snapshot.index.symbols[slot];
      ghost var readings := ReadingsOf(s, Typing, slot);
      GrownFromItself(s, memo);
      for i := 0 to |symbol.typeRefs|
        invariant snapshot == s && Grown(s, memo, baseTypes)
        invariant forall k :: 0 <= k < i ==>
                    Says(s, memo, readings[k], member).None? && IsSettledReading(s, baseTypes, readings[k])
      {
        ghost var before := baseTypes;
        var part := FirstPart(symbol.typeRefs[i]);
        r := None;
        if part.Some? && IsTyping(part.value) {
          var name := TypeOfRef(symbol.qualifiedName, part.value);
          GrownTrans(s, memo, before, baseTypes);
          TypeNameGrown(s, memo, before, symbol.qualifiedName, part.value);
          if name.Some? {
            r := MemberIn(snapshot, name.value, member);
          }
        } else {
          GrownFromItself(s, baseTypes);
        }
        assert r == Says(s, memo, readings[i], member) && IsSettledReading(s, baseTypes, readings[i]);
        SettledReadingsGrow(s, before, baseTypes, readings[..i], member);
        assert forall k :: 0 <= k < i ==> readings[..i][k] == readings[k];
        if r.Some? {
          DecidedIs(s, memo, readings, member, i);
          DecidedGrown(s, memo, baseTypes, readings, member);
          return;
        }
      }
      DecidedIs(s, memo, readings, member, |readings|);
      DecidedGrown(s, memo, baseTypes, readings, member);
      r := None;
    }

    /** The siblings in the order of the parent index, the redefining symbol itself left out. */
    method CheckSiblings(slots: seq<nat>, self: string, member: string) returns (r: Option<string>)
      ensures r == FirstSaying(snapshot, baseTypes, SiblingReadings(snapshot, slots, self), member)
      ensures SettledUpTo(snapshot, baseTypes, SiblingReadings(snapshot, slots, self), member)
    {
      hide DecidedAt, Says, IsSettledReading, ReadingsOf, SettledUpTo, FirstSaying;
      NothingRead(snapshot, baseTypes, member);
      ghost var read := [];
      for i := 0 to |slots|
        invariant read + SiblingReadings(snapshot, slots[i..], self) == SiblingReadings(snapshot, slots, self)
        invariant FirstSaying(snapshot, baseTypes, read, member).None? && SettledUpTo(snapshot, baseTypes, read, member)
      {
        var slot := slots[i];
        assert slots[i..][0] == slot && slots[i..][1..] == slots[i + 1..];
        ghost var rest := SiblingReadings(snapshot, slots[i + 1..], self);
        if slot < |snapshot.index.symbols| && snapshot.index.symbols[slot].qualifiedName != self {
          r := CheckSatisfyContext(slot, member);
          ghost var here := ReadingsOf(snapshot, Satisfying, slot);
          assert read + (here + rest) == (read + here) + rest;
          SettledConcat(snapshot, baseTypes, read, here, member);
          DecidedConcat(snapshot, baseTypes, read, here, member);
          read := read + here;
          if r.Some? {
            SettledConcat(snapshot, baseTypes, read, rest, member);
            DecidedConcat(snapshot, baseTypes, read, rest, member);
            return;
          }
        } else {
          assert [] + rest == rest;
        }
      }
      assert read + SiblingReadings(snapshot, slots[|slots|..], self) == read;
      r := None;
    }

    /** The search in context: the parent, the siblings, the parent's types, the grandparent's types. */
    method ResolveRedefinesInContext(containing: string, member: string) returns (r: Option<string>)
      modifies `baseTypes
      ensures r == InContext(snapshot, old(baseTypes), containing, member)
      ensures Grown(snapshot, old(baseTypes), baseTypes)
      ensures SettledUpTo(snapshot, baseTypes, Readings(snapshot, containing), member)
    {
      hide Grown, DecidedAt, Says, IsSettledReading, ReadingsOf, SettledUpTo, FirstSaying, SiblingReadings,
           SiblingSlots;
      ghost var s, memo := snapshot, baseTypes;
      GrownFromItself(s, memo);
      NothingRead(s, memo, member);
      r := None;
      var parent := ParentScope(containing);
      if parent.None? {
        return;
      }
      var slot := SlotOf(snapshot, parent.value);
      if slot.None? {
        return;
      }
      var siblings := SiblingSlots(snapshot, parent.value);
      var split := Names.RSplitOnce(parent.value);
      var grandparent := if split.Some? then SlotOf(snapshot, split.value.0) else None;
      ghost var a, b := ReadingsOf(s, Satisfying, slot.value), SiblingReadings(s, siblings, containing);
      ghost var c := ReadingsOf(s, Typing, slot.value);
      ghost var d := if grandparent.Some? then ReadingsOf(s, Typing, grandparent.value) else [];
      assert Readings(s, containing) == a + b + c + d;
      r := CheckSatisfyContext(slot.value, member);
      if r.Some? {
        DecidesEarly(s, memo, a, b + c + d, member);
        assert a + (b + c + d) == a + b + c + d;
        return;
      }
      r := CheckSiblings(siblings, containing, member);
      SettledConcat(s, memo, a, b, member);
      DecidedConcat(s, memo, a, b, member);
      if r.Some? {
        DecidesEarly(s, memo, a + b, c + d, member);
        assert a + b + (c + d) == a + b + c + d;
        return;
      }
      r := ResolveInParentType(slot.value, member);
      Continue(s, memo, baseTypes, a + b, c, member);
      if r.Some? {
        DecidesEarly(s, baseTypes, a + b + c, d, member);
        DecidedGrown(s, memo, baseTypes, a + b + c + d, member);
        return;
      }
      ghost var known := baseTypes;
      if grandparent.Some? {
        r := ResolveInParentType(grandparent.value, member);
        GrownTrans(s, memo, known, baseTypes);
      } else {
        NothingRead(s, known, member);
        GrownFromItself(s, known);
      }
      Continue(s, known, baseTypes, a + b + c, d, member);
      DecidedGrown(s, memo, known, a + b + c, member);
      DecidedGrown(s, memo, baseTypes, a + b + c + d, member);
    }

    /** One reference: context first for redefinitions, then the cache, then context again, which by then has
        nothing new to say. */
    method ResolveItem(item: WorkItem) returns (r: Option<string>)
      requires Valid()
      modifies `baseTypes, `cache
      ensures Valid() && Grown(snapshot, old(baseTypes), baseTypes)
      ensures r == AnswerTo(snapshot, old(baseTypes), item) && r == AnswerTo(snapshot, baseTypes, item)
      ensures ItemSettled(snapshot, baseTypes, item)
    {
      hide Grown, Resolve, ResolveAsks, Coherent, Erased, ReferenceScope, Readings, SettledUpTo, FirstSaying, Extended;
      ghost var s, memo := snapshot, baseTypes;
      GrownFromItself(s, memo);
      r := None;
      if item.isRedefines {
        r := ResolveRedefinesInContext(item.containing, item.target);
        GrownKeys(s, memo, baseTypes);
        CoherentStays(s, memo, s, baseTypes, cache);
        DecidedGrown(s, memo, baseTypes, Readings(s, item.containing), item.target);
      }
      if r.None? {
        ghost var before := baseTypes;
        r := ResolveTypeRefCached(item.containing, item.target);
        GrownTrans(s, memo, before, baseTypes);
        DecidedGrown(s, before, baseTypes, Readings(s, item.containing), item.target);
        AskedGrows(s, memo, baseTypes, ReferenceScope(item.containing), item.target);
        if r.None? && item.isRedefines {
          ghost var known := baseTypes;
          r := ResolveRedefinesInContext(item.containing, item.target);
          GrownKeys(s, known, baseTypes);
          CoherentStays(s, known, s, baseTypes, cache);
          GrownTrans(s, memo, known, baseTypes);
          DecidedGrown(s, known, baseTypes, Readings(s, item.containing), item.target);
          AskedGrows(s, known, baseTypes, ReferenceScope(item.containing), item.target);
        }
      }
    }

    /** The first pass. Every answer is right at its turn. Answers that come from scopes are still what resolving
        the reference anew gives at the end; a redefinition is still decided the same way exactly when no
        reference up to the one that decided it has been rewritten to say something else. The cache stays right
        while its symbols change underneath. */
    method ResolveFirstPass(work: seq<WorkItem>) returns (answers: seq<Option<string>>, ghost memos: seq<Memo>)
      requires Valid()
      modifies this
      ensures Valid() && |answers| == |memos| == |work|
      ensures snapshot == AllWritten(old(snapshot), work, answers) && Erased(snapshot) == Erased(old(snapshot))
      ensures forall k :: 0 <= k < |work| ==>
        answers[k] == AnswerTo(AllWritten(old(snapshot), work[..k], answers[..k]), memos[k], work[k])
      ensures forall k :: 0 <= k < |work| && !work[k].isRedefines ==>
                answers[k] == AnswerTo(snapshot, baseTypes, work[k])
      ensures forall k :: 0 <= k < |work| && work[k].isRedefines ==>
        DecidedStill(AllWritten(old(snapshot), work[..k], answers[..k]), memos[k], snapshot, baseTypes, work[k],
            answers[k])
    {
      hide Grown, AnswerTo, ItemSettled, Coherent, Erased, Written, Extended, SameRefs, DecidedStill, AllWritten;
      ghost var start := snapshot;
      answers, memos := [], [];
      NothingWritten(start, work[..0], answers);
      for i := 0 to |work|
        invariant Valid() && |answers| == |memos| == i
        invariant snapshot == AllWritten(start, work[..i], answers) && SameRefs(start, snapshot)
        invariant forall k :: 0 <= k < i ==>
                    InTurn(AllWritten(start, work[..k], answers[..k]), memos[k], snapshot, baseTypes, work[k],
                        answers[k])
      {
        ghost var before, memo, earlier := snapshot, baseTypes, answers;
        var item := work[i];
        var r := ResolveItem(item);
        ghost var m := baseTypes;
        GrownKeys(before, memo, m);
        snapshot := Written(snapshot, item.symbol, item.ref, item.part, r);
        WrittenKeepsRefs(before, item.symbol, item.ref, item.part, r);
        ExtendedItself(m);
        CoherentStays(before, m, snapshot, m, cache);
        SameRefsTrans(start, before, snapshot);
        answers, memos := answers + [r], memos + [m];
        assert work[..i + 1][..i] == work[..i] && answers[..i] == earlier;
        WrittenNext(start, work[..i + 1], answers);
        forall k | 0 <= k < i + 1
          ensures InTurn(AllWritten(start, work[..k], answers[..k]), memos[k], snapshot, baseTypes, work[k], answers[k])
        {
          if k < i {
            assert answers[..k] == earlier[..k];
            InTurnStays(AllWritten(start, work[..k], answers[..k]), memos[k], before, memo, snapshot, m, work[k],
                answers[k]);
          }
        }
      }
      assert work[..|work|] == work;
      SameRefsAreErased(start, snapshot);
      forall k | 0 <= k < |work|
        ensures !work[k].isRedefines ==> answers[k] == AnswerTo(snapshot, baseTypes, work[k])
        ensures work[k].isRedefines ==>
          DecidedStill(AllWritten(start, work[..k], answers[..k]), memos[k], snapshot, baseTypes, work[k], answers[k])
      {
        InTurnDecides(AllWritten(start, work[..k], answers[..k]), memos[k], snapshot, baseTypes, work[k], answers[k]);
      }
    }
  }

  // ---------------------------------------------------------------------------------------------
  // Answers given at their turn
  // ---------------------------------------------------------------------------------------------

  /** An item was answered on an earlier snapshot, which has only had targets written since. */
  ghost predicate InTurn(s: Snapshot, m: Memo, t: Snapshot, n: Memo, item: WorkItem, answer: Option<string>) {
    answer == AnswerTo(s, m, item) && ItemSettled(s, m, item) && SameRefs(s, t) && Extended(m, n)
  }

  /** Exactly when a redefinition that was answered earlier is still decided the same way. */
  ghost predicate DecidedStill(s: Snapshot, m: Memo, t: Snapshot, n: Memo, item: WorkItem, answer: Option<string>) {
    && (DecisionOn(t, n, item.containing, item.target) == DecisionOn(s, m, item.containing, item.target)
        <==> RewritesSayTheSame(s, m, t, n, item.containing, item.target))
    && (RewritesSayTheSame(s, m, t, n, item.containing, item.target) ==> answer == AnswerTo(t, n, item))
  }

  lemma InTurnStays(s: Snapshot, m: Memo, t: Snapshot, n: Memo, u: Snapshot, k: Memo, item: WorkItem,
          answer: Option<string>)
    requires InTurn(s, m, t, n, item, answer) && SameRefs(t, u) && Extended(n, k)
    ensures InTurn(s, m, u, k, item, answer)
  {
    hide AnswerTo, ItemSettled, SameRefs;
    SameRefsTrans(s, t, u);
  }

  lemma InTurnDecides(s: Snapshot, m: Memo, t: Snapshot, n: Memo, item: WorkItem, answer: Option<string>)
    requires InTurn(s, m, t, n, item, answer)
    ensures !item.isRedefines ==> answer == AnswerTo(t, n, item)
    ensures item.isRedefines ==> DecidedStill(s, m, t, n, item, answer)
  {
    hide AnswerTo, ItemSettled, Extended, Erased, RewritesSayTheSame, DecisionOn;
    if item.isRedefines {
      RedefinitionIsStable(s, m, t, n, item);
    } else {
      AnswerIsStable(s, m, t, n, item);
    }
  }

  lemma SameRefsAreErased(s: Snapshot, t: Snapshot)
    requires SameRefs(s, t)
    ensures Erased(s) == Erased(t)
  {
  }

  lemma NothingWritten(s: Snapshot, work: seq<WorkItem>, answers: seq<Option<string>>)
    requires work == [] && answers == []
    ensures AllWritten(s, work, answers) == s && SameRefs(s, s)
  {
  }

  lemma WrittenNext(s: Snapshot, work: seq<WorkItem>, answers: seq<Option<string>>)
    requires |work| == |answers| && work != []
    ensures var n := |work| - 1;
      AllWritten(s, work, answers) ==
      Written(AllWritten(s, work[..n], answers[..n]), work[n].symbol, work[n].ref, work[n].part, answers[n])
  {
    hide Written;
  }

  // ---------------------------------------------------------------------------------------------
  // Steps of the search in context
  // ---------------------------------------------------------------------------------------------

  lemma NothingRead(s: Snapshot, memo: Memo, member: string)
    ensures FirstSaying(s, memo, [], member).None? && SettledUpTo(s, memo, [], member)
  {
  }

  lemma TypeNameGrown(s: Snapshot, m: Memo, n: Memo, holder: string, ref: TypeRef)
    requires Grown(s, m, n)
    ensures TypeName(s, n, holder, ref) == TypeName(s, m, holder, ref)
  {
    hide Grown, Resolve, ResolveAsks, Walk, WalkAsks, Hit, Resolver.Find;
    AskedGrows(s, m, n, OuterScope(holder), ref.target);
  }

  lemma SettledReadingsGrow(s: Snapshot, m: Memo, n: Memo, readings: seq<Reading>, member: string)
    requires Grown(s, m, n)
    ensures forall k :: 0 <= k < |readings| && IsSettledReading(s, m, readings[k]) ==>
              IsSettledReading(s, n, readings[k])
  {
    hide Grown, IsSettledReading, Says;
    forall k | 0 <= k < |readings| && IsSettledReading(s, m, readings[k]) ensures IsSettledReading(s, n, readings[k]) {
      SaysGrown(s, m, n, readings[k], member);
    }
  }

  /** What follows a decision does not matter. */
  lemma DecidesEarly(s: Snapshot, memo: Memo, a: seq<Reading>, b: seq<Reading>, member: string)
    requires FirstSaying(s, memo, a, member).Some? && SettledUpTo(s, memo, a, member)
    ensures FirstSaying(s, memo, a + b, member) == FirstSaying(s, memo, a, member)
    ensures SettledUpTo(s, memo, a + b, member)
  {
    hide FirstSaying, SettledUpTo, Says;
    SettledConcat(s, memo, a, b, member);
    DecidedConcat(s, memo, a, b, member);
  }

  /** Reading on after nothing has been said. */
  lemma Continue(s: Snapshot, m: Memo, n: Memo, a: seq<Reading>, b: seq<Reading>, member: string)
    requires Grown(s, m, n) && FirstSaying(s, m, a, member).None? && SettledUpTo(s, m, a, member)
    requires SettledUpTo(s, n, b, member)
    ensures SettledUpTo(s, n, a + b, member)
    ensures FirstSaying(s, n, a + b, member) == FirstSaying(s, n, b, member) == FirstSaying(s, m, b, member)
    ensures FirstSaying(s, m, a + b, member) == FirstSaying(s, m, b, member)
  {
    hide FirstSaying, SettledUpTo, Says, Grown, DecidedAt;
    DecidedGrown(s, m, n, a, member);
    DecidedGrown(s, m, n, b, member);
    SettledConcat(s, n, a, b, member);
    DecidedConcat(s, n, a, b, member);
    DecidedConcat(s, m, a, b, member);
  }

  lemma GrownKeys(s: Snapshot, m: Memo, n: Memo)
    requires Grown(s, m, n)
    ensures m.Keys <= n.Keys && Extended(m, n)
  {
  }

  lemma ExtendedItself(m: Memo)
    ensures Extended(m, m)
  {
  }

  // ---------------------------------------------------------------------------------------------
  // Redefinitions and the order of the work
  // ---------------------------------------------------------------------------------------------

  ghost predicate Writes(item: WorkItem, r: Reading) {
    item.symbol == r.slot && item.ref == r.ref
  }

  lemma {:induction false} UnwrittenTarget(s: Snapshot, work: seq<WorkItem>, answers: seq<Option<string>>, k: nat,
          r: Reading)
    requires |work| == |answers| && k <= |work|
    requires forall l :: k <= l < |work| ==> !Writes(work[l], r)
    ensures TargetRead(AllWritten(s, work, answers), r) == TargetRead(AllWritten(s, work[..k], answers[..k]), r)
  {
    hide AllWritten, TargetRead, Written;
    if k == |work| {
      assert work[..k] == work && answers[..k] == answers;
    } else {
      var n := |work| - 1;
      assert work[..n][..k] == work[..k] && answers[..n][..k] == answers[..k];
      UnwrittenTarget(s, work[..n], answers[..n], k, r);
      WrittenNext(s, work, answers);
      WrittenElsewhere(AllWritten(s, work[..n], answers[..n]), work[n], answers[n], r);
    }
  }

  lemma WrittenElsewhere(s: Snapshot, item: WorkItem, answer: Option<string>, r: Reading)
    requires !Writes(item, r)
    ensures TargetRead(Written(s, item.symbol, item.ref, item.part, answer), r) == TargetRead(s, r)
  {
  }

  /** If none of the references that a redefinition's context reads is written at its turn or later, redoing it at
      the end gives the answer it got. */
  lemma OrderedRedefinitionIsStable(s: Snapshot, work: seq<WorkItem>, answers: seq<Option<string>>, k: nat, m: Memo,
          t: Snapshot, n: Memo)
    requires |work| == |answers| && k < |work| && t == AllWritten(s, work, answers)
    requires DecidedStill(AllWritten(s, work[..k], answers[..k]), m, t, n, work[k], answers[k])
    requires var past := AllWritten(s, work[..k], answers[..k]);
      forall r, l :: r in Readings(past, work[k].containing) && k <= l < |work| ==> !Writes(work[l], r)
    ensures answers[k] == AnswerTo(t, n, work[k])
  {
    hide AllWritten, AnswerTo, DecisionOn, Says, Readings, Writes, TargetRead;
    var past := AllWritten(s, work[..k], answers[..k]);
    forall r | r in Readings(past, work[k].containing) ensures TargetRead(past, r) == TargetRead(t, r) {
      UnwrittenTarget(s, work, answers, k, r);
    }
    assert RewritesSayTheSame(past, m, t, n, work[k].containing, work[k].target);
  }
}
