/** Where a redefinition looks before its own scopes: at what its parent and its siblings refer to, and in what
    its parent and grandparent are typed by. This search reads resolved targets, which the pass that runs it
    writes, so its answers can change; the module says exactly when. */
module RedefinitionContext {
  import opened Wrappers
  import opened ElementKinds
  import opened IndexData
  import opened Scopes
  import opened Indexing
  import opened Resolver
  import opened ResolutionStability
  import Names

  // ---------------------------------------------------------------------------------------------
  // What one reference says
  // ---------------------------------------------------------------------------------------------

  predicate IsRequirementLike(kind: SymbolKind) {
    || kind == SymDefinition(SymRequirementDefinition) || kind == SymUsage(SymRequirementUsage)
    || kind == SymUsage(SymSatisfyRequirementUsage) || kind == SymDefinition(SymConstraintDefinition)
    || kind == SymUsage(SymConstraintUsage) || kind == SymUsage(SymAssertConstraintUsage)
  }

  /** The part of a reference that the search reads: chains count by their first part. */
  function FirstPart(kind: TypeRefKind): Option<TypeRef> {
    match kind
    case Simple(ref) => Some(ref)
    case Chain(parts) => if parts == [] then None else Some(parts[0])
  }

  /** The name of a live member: inside a scope, or else visible in it. */
  function MemberIn(s: Snapshot, scope: string, member: string): Option<string> {
    var inside := scope + "::" + member;
    if Find(s, inside).Some? then Some(inside)
    else if scope !in s.visibility then None
    else
      var q := s.visibility[scope].Lookup(member);
      if q.Some? && Find(s, q.value).Some? then q else None
  }

  /** A resolved reference to a requirement or a constraint says what the member is there. */
  function SatisfiedSays(s: Snapshot, ref: TypeRef, member: string): Option<string> {
    if ref.resolvedTarget.None? then None
    else
      var target := Find(s, ref.resolvedTarget.value);
      if target.Some? && IsRequirementLike(target.value.kind) then MemberIn(s, ref.resolvedTarget.value, member)
      else None
  }

  /** The scope that a parent's own types are resolved from. */
  function OuterScope(name: string): string {
    var split := Names.RSplitOnce(name);
    if split.Some? then split.value.0 else ""
  }

  /** The type that a typing or a subsetting names: as resolved, or else resolved now, or else as written. */
  function TypeName(s: Snapshot, memo: Memo, holder: string, ref: TypeRef): Option<string> {
    if ref.resolvedTarget.Some? then NameOf(Find(s, ref.resolvedTarget.value))
    else
      var resolved := NameOf(Resolve(s, memo, OuterScope(holder), ref.target));
      if resolved.Some? then resolved else NameOf(Find(s, ref.target))
  }

  predicate IsTyping(ref: TypeRef) {
    ref.kind == TypedByRef || ref.kind == SubsetsRef
  }

  function TypeSays(s: Snapshot, memo: Memo, holder: string, ref: TypeRef, member: string): Option<string> {
    var name := if IsTyping(ref) then TypeName(s, memo, holder, ref) else None;
    if name.Some? then MemberIn(s, name.value, member) else None
  }

  // ---------------------------------------------------------------------------------------------
  // The references that a redefinition reads
  // ---------------------------------------------------------------------------------------------

  datatype Mode = Satisfying | Typing

  /** A reference of a symbol, read as one that may satisfy or as one that may type. */
  datatype Reading = Reading(mode: Mode, slot: nat, ref: nat)

  function SlotOf(s: Snapshot, name: string): (r: Option<nat>)
    ensures r.Some? ==> r.value < |s.index.symbols|
  {
    if name in s.index.byQualifiedName && s.index.byQualifiedName[name] < |s.index.symbols|
    then Some(s.index.byQualifiedName[name]) else None
  }

  function ReadingsOf(s: Snapshot, mode: Mode, slot: nat): (r: seq<Reading>)
    requires slot < |s.index.symbols|
    ensures |r| == |s.index.symbols[slot].typeRefs| && forall k :: 0 <= k < |r| ==> r[k] == Reading(mode, slot, k)
  {
    seq(|s.index.symbols[slot].typeRefs|,
        k requires 0 <= k < |s.index.symbols[slot].typeRefs| => Reading(mode, slot, k))
  }

  function SiblingReadings(s: Snapshot, slots: seq<nat>, self: string): seq<Reading> {
    if slots == [] then []
    else
      (if slots[0] < |s.index.symbols| && s.index.symbols[slots[0]].qualifiedName != self
       then ReadingsOf(s, Satisfying, slots[0]) else [])
      + SiblingReadings(s, slots[1..], self)
  }

  function SiblingSlots(s: Snapshot, parent: string): seq<nat> {
    Children(s.index, |s.index.symbols|, parent)
  }

  /** In order: the parent's references, the siblings', and the typings of the parent and of its parent. */
  function Readings(s: Snapshot, containing: string): seq<Reading> {
    var parent := ParentScope(containing);
    var slot := if parent.Some? then SlotOf(s, parent.value) else None;
    if slot.None? then []
    else
      var split := Names.RSplitOnce(parent.value);
      var grandparent := if split.Some? then SlotOf(s, split.value.0) else None;
      ReadingsOf(s, Satisfying, slot.value) + SiblingReadings(s, SiblingSlots(s, parent.value), containing)
      + ReadingsOf(s, Typing, slot.value)
      + (if grandparent.Some? then ReadingsOf(s, Typing, grandparent.value) else [])
  }

  function PartRead(s: Snapshot, r: Reading): Option<TypeRef> {
    if r.slot < |s.index.symbols| && r.ref < |s.index.symbols[r.slot].typeRefs|
    then FirstPart(s.index.symbols[r.slot].typeRefs[r.ref]) else None
  }

  function Says(s: Snapshot, memo: Memo, r: Reading, member: string): Option<string> {
    var part := PartRead(s, r);
    if part.None? then None
    else if r.mode.Satisfying? then SatisfiedSays(s, part.value, member)
    else TypeSays(s, memo, s.index.symbols[r.slot].qualifiedName, part.value, member)
  }

  /** The position of the first reference that says something, or the end. */
  function DecidedAt(s: Snapshot, memo: Memo, readings: seq<Reading>, member: string): (d: nat)
    ensures d <= |readings|
    ensures d < |readings| ==> Says(s, memo, readings[d], member).Some?
    ensures forall k :: 0 <= k < d ==> Says(s, memo, readings[k], member).None?
  {
    if readings == [] then 0
    else if Says(s, memo, readings[0], member).Some? then 0
    else 1 + DecidedAt(s, memo, readings[1..], member)
  }

  function FirstSaying(s: Snapshot, memo: Memo, readings: seq<Reading>, member: string): Option<string> {
    var d := DecidedAt(s, memo, readings, member);
    if d < |readings| then Says(s, memo, readings[d], member) else None
  }

  function InContext(s: Snapshot, memo: Memo, containing: string, member: string): Option<string> {
    FirstSaying(s, memo, Readings(s, containing), member)
  }

  // ---------------------------------------------------------------------------------------------
  // Settled readings
  // ---------------------------------------------------------------------------------------------

  /** What a reading says no longer depends on the memo. */
  ghost predicate IsSettledReading(s: Snapshot, memo: Memo, r: Reading) {
    var part := PartRead(s, r);
    part.Some? && r.mode.Typing? && IsTyping(part.value) && part.value.resolvedTarget.None? ==>
      IsSettled(s, memo, OuterScope(s.index.symbols[r.slot].qualifiedName), part.value.target)
  }

  /** All readings up to the one that decides are settled. */
  ghost predicate SettledUpTo(s: Snapshot, memo: Memo, readings: seq<Reading>, member: string) {
    forall k :: 0 <= k < |readings| && k <= DecidedAt(s, memo, readings, member) ==>
        IsSettledReading(s, memo, readings[k])
  }

  /** The decision is at a position that says something, with nothing said before it. */
  lemma {:induction false} DecidedIs(s: Snapshot, memo: Memo, readings: seq<Reading>, member: string, d: nat)
    requires d <= |readings| && (d < |readings| ==> Says(s, memo, readings[d], member).Some?)
    requires forall k :: 0 <= k < d ==> Says(s, memo, readings[k], member).None?
    ensures DecidedAt(s, memo, readings, member) == d
  {
    hide Says;
    if d > 0 {
      assert Says(s, memo, readings[0], member).None?;
      DecidedIs(s, memo, readings[1..], member, d - 1);
    }
  }

  lemma DecidedConcat(s: Snapshot, memo: Memo, a: seq<Reading>, b: seq<Reading>, member: string)
    ensures DecidedAt(s, memo, a + b, member) ==
            if DecidedAt(s, memo, a, member) < |a| then DecidedAt(s, memo, a, member)
            else |a| + DecidedAt(s, memo, b, member)
    ensures FirstSaying(s, memo, a + b, member) ==
            if FirstSaying(s, memo, a, member).Some? then FirstSaying(s, memo, a, member)
            else FirstSaying(s, memo, b, member)
  {
    hide Says;
    var d, e := DecidedAt(s, memo, a, member), DecidedAt(s, memo, b, member);
    DecidedIs(s, memo, a + b, member, if d < |a| then d else |a| + e);
  }

  lemma SettledConcat(s: Snapshot, memo: Memo, a: seq<Reading>, b: seq<Reading>, member: string)
    requires SettledUpTo(s, memo, a, member)
    requires FirstSaying(s, memo, a, member).None? ==> SettledUpTo(s, memo, b, member)
    ensures SettledUpTo(s, memo, a + b, member)
  {
    hide Says, IsSettledReading, DecidedAt;
    DecidedConcat(s, memo, a, b, member);
    assert forall k :: |a| <= k < |a + b| ==> (a + b)[k] == b[k - |a|];
  }

  /** A grown memo changes nothing that is said, and leaves settled what was settled. */
  lemma SaysGrown(s: Snapshot, m: Memo, n: Memo, r: Reading, member: string)
    requires Grown(s, m, n)
    ensures Says(s, n, r, member) == Says(s, m, r, member)
    ensures IsSettledReading(s, m, r) ==> IsSettledReading(s, n, r)
  {
    hide Grown, Resolve, ResolveAsks, Walk, WalkAsks, Hit, MemberIn, Find;
    var part := PartRead(s, r);
    if part.Some? {
      AskedGrows(s, m, n, OuterScope(s.index.symbols[r.slot].qualifiedName), part.value.target);
      GrownIsExtended(s, m, n);
    }
  }

  lemma GrownIsExtended(s: Snapshot, m: Memo, n: Memo)
    requires Grown(s, m, n)
    ensures m.Keys <= n.Keys && Extended(m, n)
  {
  }

  lemma DecidedGrown(s: Snapshot, m: Memo, n: Memo, readings: seq<Reading>, member: string)
    requires Grown(s, m, n)
    ensures DecidedAt(s, n, readings, member) == DecidedAt(s, m, readings, member)
    ensures FirstSaying(s, n, readings, member) == FirstSaying(s, m, readings, member)
    ensures SettledUpTo(s, m, readings, member) ==> SettledUpTo(s, n, readings, member)
  {
    hide Says, IsSettledReading, Grown;
    forall k | 0 <= k < |readings|
      ensures Says(s, n, readings[k], member) == Says(s, m, readings[k], member)
      ensures IsSettledReading(s, m, readings[k]) ==> IsSettledReading(s, n, readings[k])
    {
      SaysGrown(s, m, n, readings[k], member);
    }
    DecidedIs(s, n, readings, member, DecidedAt(s, m, readings, member));
  }

  // ---------------------------------------------------------------------------------------------
  // Snapshots that differ in resolved targets
  // ---------------------------------------------------------------------------------------------

  function Bare(part: Option<TypeRef>): Option<TypeRef> {
    if part.Some? then Some(part.value.(resolvedTarget := None)) else None
  }

  /** The same symbols with the same references, but for what these have been resolved to. */
  ghost predicate SameRefs(s: Snapshot, t: Snapshot) {
    && Erased(s) == Erased(t)
    && (forall i :: 0 <= i < |s.index.symbols| && i < |t.index.symbols| ==>
          RefsMatch(s.index.symbols[i], t.index.symbols[i]))
  }

  predicate RefsMatch(x: IndexedSymbol, y: IndexedSymbol) {
    && |x.typeRefs| == |y.typeRefs|
    && (forall j :: 0 <= j < |x.typeRefs| ==> Bare(FirstPart(x.typeRefs[j])) == Bare(FirstPart(y.typeRefs[j])))
  }

  lemma SameRefsTrans(s: Snapshot, t: Snapshot, u: Snapshot)
    requires SameRefs(s, t) && SameRefs(t, u)
    ensures SameRefs(s, u)
  {
    hide FirstPart, Bare;
    SameShape(s, t);
    SameShape(t, u);
    forall i | 0 <= i < |s.index.symbols| && i < |u.index.symbols|
      ensures RefsMatch(s.index.symbols[i], u.index.symbols[i])
    {
      assert RefsMatch(s.index.symbols[i], t.index.symbols[i]) && RefsMatch(t.index.symbols[i], u.index.symbols[i]);
    }
  }

  /** What equal erasures have in common. */
  lemma SameShape(s: Snapshot, t: Snapshot)
    requires Erased(s) == Erased(t)
    ensures |s.index.symbols| == |t.index.symbols| && s.visibility == t.visibility
    ensures s.index.byQualifiedName == t.index.byQualifiedName
    ensures forall i :: 0 <= i < |s.index.symbols| ==> Erase(s.index.symbols[i]) == Erase(t.index.symbols[i])
  {
    assert Erased(s).index.symbols == Erased(t).index.symbols;
    assert forall i :: 0 <= i < |s.index.symbols| ==> EraseAll(s.index.symbols)[i] == EraseAll(t.index.symbols)[i];
    assert s.index.byQualifiedName == Erased(s).index.byQualifiedName;
  }

  lemma {:induction false} ChildrenSame(s: Snapshot, t: Snapshot, n: nat, scope: string)
    requires Erased(s) == Erased(t) && n <= |s.index.symbols| && n <= |t.index.symbols|
    ensures Children(s.index, n, scope) == Children(t.index, n, scope)
  {
    hide ParentScope, Erased;
    SameShape(s, t);
    if n > 0 {
      ChildrenSame(s, t, n - 1, scope);
      assert Erase(s.index.symbols[n - 1]).qualifiedName == Erase(t.index.symbols[n - 1]).qualifiedName;
    }
  }

  lemma ReadingsOfSame(s: Snapshot, t: Snapshot, mode: Mode, slot: nat)
    requires SameRefs(s, t) && slot < |s.index.symbols|
    ensures slot < |t.index.symbols| && ReadingsOf(t, mode, slot) == ReadingsOf(s, mode, slot)
    ensures s.index.symbols[slot].qualifiedName == t.index.symbols[slot].qualifiedName
  {
    hide FirstPart, Bare, Erased;
    SameShape(s, t);
    assert RefsMatch(s.index.symbols[slot], t.index.symbols[slot]);
    assert Erase(s.index.symbols[slot]).qualifiedName == Erase(t.index.symbols[slot]).qualifiedName;
  }

  lemma {:induction false} SiblingReadingsSame(s: Snapshot, t: Snapshot, slots: seq<nat>, self: string)
    requires SameRefs(s, t)
    ensures SiblingReadings(t, slots, self) == SiblingReadings(s, slots, self)
  {
    hide ReadingsOf, RefsMatch, Erased;
    SameShape(s, t);
    if slots != [] {
      SiblingReadingsSame(s, t, slots[1..], self);
      if slots[0] < |s.index.symbols| {
        ReadingsOfSame(s, t, Satisfying, slots[0]);
      }
    }
  }

  lemma ReadingsSame(s: Snapshot, t: Snapshot, containing: string)
    requires SameRefs(s, t)
    ensures Readings(t, containing) == Readings(s, containing)
  {
    hide ParentScope, ReadingsOf, SiblingReadings, Children, Names.RSplitOnce;
    SameShape(s, t);
    var parent := ParentScope(containing);
    if parent.Some? && SlotOf(s, parent.value).Some? {
      ChildrenSame(s, t, |s.index.symbols|, parent.value);
      ReadingsOfSame(s, t, Satisfying, SlotOf(s, parent.value).value);
      ReadingsOfSame(s, t, Typing, SlotOf(s, parent.value).value);
      SiblingReadingsSame(s, t, SiblingSlots(s, parent.value), containing);
      var split := Names.RSplitOnce(parent.value);
      if split.Some? && SlotOf(s, split.value.0).Some? {
        ReadingsOfSame(s, t, Typing, SlotOf(s, split.value.0).value);
      }
    }
  }

  lemma FoundSame(s: Snapshot, t: Snapshot, name: string)
    requires Erased(s) == Erased(t)
    ensures Find(s, name).Some? <==> Find(t, name).Some?
    ensures NameOf(Find(s, name)) == NameOf(Find(t, name))
    ensures Find(s, name).Some? ==> Find(s, name).value.kind == Find(t, name).value.kind
  {
    hide Find, Erased;
    FindErased(s, name);
    FindErased(t, name);
  }

  lemma MemberInSame(s: Snapshot, t: Snapshot, scope: string, member: string)
    requires Erased(s) == Erased(t)
    ensures MemberIn(s, scope, member) == MemberIn(t, scope, member)
  {
    hide Find, Erased;
    SameShape(s, t);
    FoundSame(s, t, scope + "::" + member);
    if scope in s.visibility && s.visibility[scope].Lookup(member).Some? {
      FoundSame(s, t, s.visibility[scope].Lookup(member).value);
    }
  }

  function TargetRead(s: Snapshot, r: Reading): Option<string> {
    if PartRead(s, r).Some? then PartRead(s, r).value.resolvedTarget else None
  }

  /** A settled reading says the same as long as its own target is not rewritten. */
  lemma SaysStays(s: Snapshot, m: Memo, t: Snapshot, n: Memo, r: Reading, member: string)
    requires SameRefs(s, t) && Extended(m, n) && IsSettledReading(s, m, r) && TargetRead(s, r) == TargetRead(t, r)
    ensures Says(t, n, r, member) == Says(s, m, r, member)
  {
    hide Resolve, IsSettled, Find, MemberIn, Erased;
    SameShape(s, t);
    PartSame(s, t, r);
    var part := PartRead(s, r);
    if part.Some? {
      var holder := s.index.symbols[r.slot].qualifiedName;
      assert Erase(s.index.symbols[r.slot]).qualifiedName == Erase(t.index.symbols[r.slot]).qualifiedName;
      if r.mode.Satisfying? {
        SatisfiedSame(s, t, part.value, member);
      } else {
        TypeSame(s, m, t, n, holder, part.value, member);
      }
    }
  }

  lemma PartSame(s: Snapshot, t: Snapshot, r: Reading)
    requires SameRefs(s, t) && TargetRead(s, r) == TargetRead(t, r)
    ensures PartRead(s, r) == PartRead(t, r)
  {
    hide FirstPart, Erased;
    SameShape(s, t);
    if r.slot < |s.index.symbols| {
      assert RefsMatch(s.index.symbols[r.slot], t.index.symbols[r.slot]);
    }
  }

  lemma SatisfiedSame(s: Snapshot, t: Snapshot, ref: TypeRef, member: string)
    requires Erased(s) == Erased(t)
    ensures SatisfiedSays(s, ref, member) == SatisfiedSays(t, ref, member)
  {
    hide Find, MemberIn, Erased;
    if ref.resolvedTarget.Some? {
      FoundSame(s, t, ref.resolvedTarget.value);
      MemberInSame(s, t, ref.resolvedTarget.value, member);
    }
  }

  lemma TypeSame(s: Snapshot, m: Memo, t: Snapshot, n: Memo, holder: string, ref: TypeRef, member: string)
    requires Erased(s) == Erased(t) && Extended(m, n)
    requires IsTyping(ref) && ref.resolvedTarget.None? ==> IsSettled(s, m, OuterScope(holder), ref.target)
    ensures TypeSays(s, m, holder, ref, member) == TypeSays(t, n, holder, ref, member)
  {
    hide Find, MemberIn, Erased, Resolve, IsSettled;
    if IsTyping(ref) {
      if ref.resolvedTarget.Some? {
        FoundSame(s, t, ref.resolvedTarget.value);
      } else {
        SettledIsStable(s, m, t, n, OuterScope(holder), ref.target);
        FoundSame(s, t, ref.target);
      }
      var name := TypeName(s, m, holder, ref);
      if name.Some? {
        MemberInSame(s, t, name.value, member);
      }
    }
  }

  // ---------------------------------------------------------------------------------------------
  // When the search goes on answering the same
  // ---------------------------------------------------------------------------------------------

  /** What decides a redefinition: the reading at a position with its answer, or nothing. */
  datatype Decision = Decided(position: nat, answer: string) | Undecided

  function DecisionOn(s: Snapshot, memo: Memo, containing: string, member: string): Decision {
    var readings := Readings(s, containing);
    var d := DecidedAt(s, memo, readings, member);
    if d < |readings| then Decided(d, Says(s, memo, readings[d], member).value) else Undecided
  }

  /** Every reference, up to the one that decided, whose target has been rewritten since says what it said then. */
  ghost predicate RewritesSayTheSame(s: Snapshot, m: Memo, t: Snapshot, n: Memo, containing: string, member: string) {
    var readings := Readings(s, containing);
    forall k ::
      && 0 <= k < |readings| && k <= DecidedAt(s, m, readings, member)
      && TargetRead(s, readings[k]) != TargetRead(t, readings[k]) ==>
        Says(t, n, readings[k], member) == Says(s, m, readings[k], member)
  }

  /** A decision is the same later exactly when the references up to the deciding one that have been rewritten
      since say what they said then; references behind it do not matter. */
  lemma DecisionStays(s: Snapshot, m: Memo, t: Snapshot, n: Memo, containing: string, member: string)
    requires SameRefs(s, t) && Extended(m, n) && SettledUpTo(s, m, Readings(s, containing), member)
    ensures DecisionOn(t, n, containing, member) == DecisionOn(s, m, containing, member)
            <==> RewritesSayTheSame(s, m, t, n, containing, member)
  {
    hide Says, Readings, IsSettledReading, SameRefs, Extended, TargetRead;
    ReadingsSame(s, t, containing);
    var readings := Readings(s, containing);
    var d, e := DecidedAt(s, m, readings, member), DecidedAt(t, n, readings, member);
    if RewritesSayTheSame(s, m, t, n, containing, member) {
      forall k | 0 <= k < |readings| && k <= d
        ensures Says(t, n, readings[k], member) == Says(s, m, readings[k], member)
      {
        if TargetRead(s, readings[k]) == TargetRead(t, readings[k]) {
          SaysStays(s, m, t, n, readings[k], member);
        }
      }
      DecidedIs(t, n, readings, member, d);
    }
  }
}
