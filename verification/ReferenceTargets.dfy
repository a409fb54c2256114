/** Where references are resolved from and where their answers are written, told position by position. */
module ReferenceTargets {
  import opened Wrappers
  import opened IndexData
  import opened Indexing
  import opened Resolver
  import opened ResolutionCache
  import opened Segments
  import opened ParentScopes
  import Names

  /** References are resolved where their symbol stands; those of an import, where the import stands. */
  ghost predicate IsResolvedFrom(containing: string, scope: string) {
    if exists k: nat :: ImportMarkAt(containing, k) then
      exists k: nat :: ImportMarkAt(containing, k) && scope == containing[..k]
                       && forall j: nat :: j < k ==> !ImportMarkAt(containing, j)
    else if "import:" <= containing then scope == ""
    else scope == containing
  }

  lemma ReferenceIsResolvedFrom(containing: string, scope: string)
    ensures ReferenceScope(containing) == scope <==> IsResolvedFrom(containing, scope)
  {
    hide ImportMarkAt;
    MarkIsFirst(containing);
  }

  /** A simple reference is its own only part; a chain has parts. */
  ghost predicate HasPart(kind: TypeRefKind, k: nat, ref: TypeRef) {
    match kind
    case Simple(r) => k == 0 && ref == r
    case Chain(parts) => k < |parts| && ref == parts[k]
  }

  lemma PartIsWritten(kind: TypeRefKind, part: nat, target: Option<string>, k: nat, ref: TypeRef)
    ensures var after := WithTarget(kind, part, target);
      && (after.Chain? <==> kind.Chain?)
      && (HasPart(after, k, ref) <==>
            if kind.Chain? && k != part then HasPart(kind, k, ref)
            else
              && ref.resolvedTarget == target
              && exists was: Option<string> :: HasPart(kind, k, ref.(resolvedTarget := was)))
  {
    if kind.Simple? {
      assert ref.(resolvedTarget := kind.ref.resolvedTarget) == kind.ref ==>
          HasPart(kind, 0, ref.(resolvedTarget := kind.ref.resolvedTarget));
    } else if k < |kind.parts| {
      assert ref.(resolvedTarget := kind.parts[k].resolvedTarget) == kind.parts[k] ==>
          HasPart(kind, k, ref.(resolvedTarget := kind.parts[k].resolvedTarget));
    }
  }

  ghost predicate IsPlace(s: Snapshot, i: nat, j: nat) {
    i < |s.index.symbols| && j < |s.index.symbols[i].typeRefs|
  }

  ghost predicate RefersAt(s: Snapshot, i: nat, j: nat, k: nat, ref: TypeRef) {
    IsPlace(s, i, j) && HasPart(s.index.symbols[i].typeRefs[j], k, ref)
  }

  /** Writing an answer sets the target of the one part of the one reference that was asked for; every other reference,
      and everything else about the symbols, the index and the visibility maps, stays. */
  lemma TargetIsWritten(s: Snapshot, symbol: nat, ref: nat, part: nat, target: Option<string>, i: nat, j: nat, k: nat,
          r: TypeRef)
    ensures var t := Written(s, symbol, ref, part, target);
      && (IsPlace(t, i, j) <==> IsPlace(s, i, j))
      && (RefersAt(t, i, j, k, r) <==>
            if IsPlace(s, i, j) && i == symbol && j == ref && (s.index.symbols[i].typeRefs[j].Chain? ==> k == part)
            then r.resolvedTarget == target
              && exists was: Option<string> :: RefersAt(s, i, j, k, r.(resolvedTarget := was))
            else RefersAt(s, i, j, k, r))
      && t == s.(index := s.index.(symbols := t.index.symbols)) && |t.index.symbols| == |s.index.symbols|
      && (i < |s.index.symbols| ==>
            t.index.symbols[i] == s.index.symbols[i].(typeRefs := t.index.symbols[i].typeRefs))
  {
    hide WithTarget, HasPart;
    if IsPlace(s, i, j) {
      PartIsWritten(s.index.symbols[i].typeRefs[j], part, target, k, r);
    }
  }
}
