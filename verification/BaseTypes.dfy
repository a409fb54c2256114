/** Base types of annotations, told from the index alone, and the members that reach a symbol through them. */
module BaseTypes {
  import opened Wrappers
  import opened ElementKinds
  import opened IndexData
  import opened Scopes
  import opened Indexing
  import opened Resolver
  import opened InheritedSearch
  import opened Segments
  import opened NameLookup

  // ---------------------------------------------------------------------------------------------
  // What the base type of an annotation is
  // ---------------------------------------------------------------------------------------------

  /** Position `k` of the list kept for a short name holds a symbol of a metadata kind. */
  ghost predicate MetadataAt(i: IndexState, shortName: string, k: nat) {
    && shortName in i.byShortName && k < |i.byShortName[shortName]| && i.byShortName[shortName][k] < |i.symbols|
    && (i.symbols[i.byShortName[shortName][k]].kind == SymDefinition(SymMetadataDefinition)
        || i.symbols[i.byShortName[shortName][k]].kind == SymOther)
  }

  /** The first symbol of a metadata kind that is listed for the short name. */
  ghost predicate IsMetadataOf(i: IndexState, shortName: string, x: IndexedSymbol) {
    exists k: nat ::
      && MetadataAt(i, shortName, k) && (forall j: nat :: j < k ==> !MetadataAt(i, shortName, j))
      && i.symbols[i.byShortName[shortName][k]] == x
  }

  /** What a value expression names: by what it has been resolved to, or else inside the scope, or else as written. */
  ghost predicate IsValueOf(i: IndexState, scope: string, ref: TypeRef, v: IndexedSymbol) {
    || (ref.resolvedTarget.Some? && LeadsTo(i, ref.resolvedTarget.value, v))
    || ((forall y :: !(ref.resolvedTarget.Some? && LeadsTo(i, ref.resolvedTarget.value, y)))
        && (LeadsTo(i, scope + "::" + ref.target, v)
            || ((forall y :: !LeadsTo(i, scope + "::" + ref.target, y)) && LeadsTo(i, ref.target, v))))
  }

  /** Reference `j` is a value expression that names `v`. */
  ghost predicate ValueAt(i: IndexState, scope: string, refs: seq<TypeRefKind>, j: nat, v: IndexedSymbol) {
    j < |refs| && refs[j].Simple? && refs[j].ref.kind.ExpressionRef? && IsValueOf(i, scope, refs[j].ref, v)
  }

  /** The symbol that the first value expression names which names any. */
  ghost predicate IsFirstValue(i: IndexState, scope: string, refs: seq<TypeRefKind>, v: IndexedSymbol) {
    exists j: nat :: ValueAt(i, scope, refs, j, v) && forall k: nat, w :: k < j ==> !ValueAt(i, scope, refs, k, w)
  }

  /** The base type of an annotation: the first supertype of the value that the `baseType` feature of its metadata
      definition names, looked for in the scope around that definition. */
  ghost predicate IsBaseType(i: IndexState, annotation: string, t: string) {
    exists metadata, feature, v ::
      && IsMetadataOf(i, annotation, metadata) && LeadsTo(i, metadata.qualifiedName + "::baseType", feature)
      && IsFirstValue(i, ParentScope(metadata.qualifiedName).GetOr(""), feature.typeRefs, v)
      && |v.supertypes| > 0 && v.supertypes[0] == t
  }

  lemma LooksUp(i: IndexState, q: string, x: IndexedSymbol)
    ensures LookupQualified(i, q) == Some(x) <==> LeadsTo(i, q, x)
  {
  }

  // ---------------------------------------------------------------------------------------------
  // The parts
  // ---------------------------------------------------------------------------------------------

  lemma ValueIsNamed(i: IndexState, scope: string, ref: TypeRef, v: IndexedSymbol)
    ensures ValueSymbol(i, scope, ref) == Some(v) <==> IsValueOf(i, scope, ref, v)
  {
    hide LeadsTo, LookupQualified;
    forall q, y ensures LookupQualified(i, q) == Some(y) <==> LeadsTo(i, q, y) {
      LooksUp(i, q, y);
    }
    assert ref.resolvedTarget.Some? && LookupQualified(i, ref.resolvedTarget.value).Some? ==>
      LeadsTo(i, ref.resolvedTarget.value, LookupQualified(i, ref.resolvedTarget.value).value);
    var inside := LookupQualified(i, scope + "::" + ref.target);
    assert inside.Some? ==> LeadsTo(i, scope + "::" + ref.target, inside.value);
  }

  /** One reference more at the front. */
  lemma FirstValueNext(i: IndexState, scope: string, refs: seq<TypeRefKind>, v: IndexedSymbol)
    requires refs != []
    ensures IsFirstValue(i, scope, refs, v) <==>
      || ValueAt(i, scope, refs, 0, v)
      || ((forall w :: !ValueAt(i, scope, refs, 0, w)) && IsFirstValue(i, scope, refs[1..], v))
  {
    hide IsValueOf;
    forall j: nat, w ensures ValueAt(i, scope, refs, j + 1, w) == ValueAt(i, scope, refs[1..], j, w) {
    }
    if IsFirstValue(i, scope, refs, v) {
      var j: nat :| ValueAt(i, scope, refs, j, v) && forall k: nat, w :: k < j ==> !ValueAt(i, scope, refs, k, w);
      if j > 0 {
        assert ValueAt(i, scope, refs[1..], j - 1, v);
        forall k: nat, w | k < j - 1 ensures !ValueAt(i, scope, refs[1..], k, w) {
          assert !ValueAt(i, scope, refs, k + 1, w);
        }
      }
    }
    if (forall w :: !ValueAt(i, scope, refs, 0, w)) && IsFirstValue(i, scope, refs[1..], v) {
      var j: nat :| ValueAt(i, scope, refs[1..], j, v) && forall k: nat, w :: k < j ==>
          !ValueAt(i, scope, refs[1..], k, w);
      assert ValueAt(i, scope, refs, j + 1, v);
      forall k: nat, w | k < j + 1 ensures !ValueAt(i, scope, refs, k, w) {
        if k > 0 {
          assert !ValueAt(i, scope, refs[1..], k - 1, w);
        }
      }
    }
  }

  lemma NoFirstValue(i: IndexState, scope: string, v: IndexedSymbol)
    ensures !IsFirstValue(i, scope, [], v)
  {
  }

  ghost predicate IsBaseOfValue(i: IndexState, scope: string, refs: seq<TypeRefKind>, t: string) {
    exists v :: IsFirstValue(i, scope, refs, v) && |v.supertypes| > 0 && v.supertypes[0] == t
  }

  lemma {:induction false} BaseIsOfFirstValue(i: IndexState, scope: string, refs: seq<TypeRefKind>, t: string)
    ensures BaseOfRefs(i, scope, refs) == Some(t) <==> IsBaseOfValue(i, scope, refs, t)
  {
    hide IsValueOf, ValueSymbol, IsFirstValue;
    if refs == [] {
      forall v ensures !IsFirstValue(i, scope, refs, v) {
        NoFirstValue(i, scope, v);
      }
    } else {
      BaseIsOfFirstValue(i, scope, refs[1..], t);
      forall v {
        FirstValueNext(i, scope, refs, v);
      }
      var isValue := refs[0].Simple? && refs[0].ref.kind == ExpressionRef;
      var found := if isValue then ValueSymbol(i, scope, refs[0].ref) else None;
      forall v ensures found == Some(v) <==> ValueAt(i, scope, refs, 0, v) {
        if isValue {
          ValueIsNamed(i, scope, refs[0].ref, v);
        }
      }
      if found.Some? {
        assert ValueAt(i, scope, refs, 0, found.value);
      }
    }
  }

  /** The first of the listed slots that holds a symbol of a metadata kind. */
  ghost predicate KindAt(i: IndexState, slots: seq<nat>, k: nat) {
    k < |slots| && slots[k] < |i.symbols|
    && (i.symbols[slots[k]].kind == SymDefinition(SymMetadataDefinition) || i.symbols[slots[k]].kind == SymOther)
  }

  ghost predicate IsFirstKind(i: IndexState, slots: seq<nat>, x: IndexedSymbol) {
    exists k: nat :: KindAt(i, slots, k) && (forall j: nat :: j < k ==> !KindAt(i, slots, j))
        && i.symbols[slots[k]] == x
  }

  lemma FirstKindNext(i: IndexState, slots: seq<nat>, x: IndexedSymbol)
    requires slots != []
    ensures IsFirstKind(i, slots, x) <==>
      if KindAt(i, slots, 0) then i.symbols[slots[0]] == x else IsFirstKind(i, slots[1..], x)
  {
    forall j: nat ensures KindAt(i, slots, j + 1) == KindAt(i, slots[1..], j) {
    }
    if IsFirstKind(i, slots, x) {
      var k: nat :| KindAt(i, slots, k) && (forall j: nat :: j < k ==> !KindAt(i, slots, j))
          && i.symbols[slots[k]] == x;
      if k > 0 {
        assert KindAt(i, slots[1..], k - 1);
        forall j: nat | j < k - 1 ensures !KindAt(i, slots[1..], j) {
          assert !KindAt(i, slots, j + 1);
        }
        }
    }
    if !KindAt(i, slots, 0) && IsFirstKind(i, slots[1..], x) {
      var k: nat :| KindAt(i, slots[1..], k) && (forall j: nat :: j < k ==> !KindAt(i, slots[1..], j))
        && i.symbols[slots[1..][k]] == x;
      assert KindAt(i, slots, k + 1);
      forall j: nat | j < k + 1 ensures !KindAt(i, slots, j) {
        assert j > 0 ==> !KindAt(i, slots[1..], j - 1);
      }
    }
  }

  lemma {:induction false} MetadataIsFirst(i: IndexState, slots: seq<nat>, x: IndexedSymbol)
    ensures FirstMetadata(SymbolsIn(i, slots)) == Some(x) <==> IsFirstKind(i, slots, x)
  {
    hide IsFirstKind;
    if slots == [] {
      assert !IsFirstKind(i, slots, x) by {
        NoFirstKind(i, x);
      }
    } else {
      MetadataIsFirst(i, slots[1..], x);
      FirstKindNext(i, slots, x);
      var rest := SymbolsIn(i, slots[1..]);
      if slots[0] < |i.symbols| {
        assert SymbolsIn(i, slots)[0] == i.symbols[slots[0]] && SymbolsIn(i, slots)[1..] == rest;
      } else {
        assert SymbolsIn(i, slots) == rest;
      }
    }
  }

  lemma NoFirstKind(i: IndexState, x: IndexedSymbol)
    ensures !IsFirstKind(i, [], x)
  {
  }

  lemma MetadataIsFound(i: IndexState, annotation: string, x: IndexedSymbol)
    ensures FirstMetadata(LookupByShortName(i, annotation)) == Some(x) <==> IsMetadataOf(i, annotation, x)
  {
    hide SymbolsIn, FirstMetadata;
    var slots := if annotation in i.byShortName then i.byShortName[annotation] else [];
    MetadataIsFirst(i, slots, x);
    forall k: nat ensures KindAt(i, slots, k) == MetadataAt(i, annotation, k) {
    }
    assert IsFirstKind(i, slots, x) == IsMetadataOf(i, annotation, x);
  }

  /** The base type that is computed for an annotation is its base type. */
  lemma BaseTypeIsComputed(i: IndexState, annotation: string, t: string)
    ensures ComputeBase(i, annotation) == Some(t) <==> IsBaseType(i, annotation, t)
  {
    hide IsMetadataOf, LeadsTo, LookupQualified, LookupByShortName, FirstMetadata, BaseOfRefs, IsFirstValue,
         ParentScope;
    var metadata := FirstMetadata(LookupByShortName(i, annotation));
    forall x ensures metadata == Some(x) <==> IsMetadataOf(i, annotation, x) {
      MetadataIsFound(i, annotation, x);
    }
    if metadata.Some? {
      var q := metadata.value.qualifiedName + "::baseType";
      var feature := LookupQualified(i, q);
      forall x ensures feature == Some(x) <==> LeadsTo(i, q, x) {
        LooksUp(i, q, x);
      }
      if feature.Some? {
        BaseIsOfFirstValue(i, ParentScope(metadata.value.qualifiedName).GetOr(""), feature.value.typeRefs, t);
        assert IsMetadataOf(i, annotation, metadata.value) && LeadsTo(i, q, feature.value);
      }
    }
  }
}
