/** What name resolution reads of HIR symbols, and the visibility map of one scope. */
module IndexData {
  import opened Wrappers
  import opened ElementKinds

  datatype RefKind = TypedByRef | SpecializesRef | RedefinesRef | SubsetsRef | ExpressionRef | OtherRef

  datatype TypeRef = TypeRef(target: string, kind: RefKind, resolvedTarget: Option<string>)

  datatype TypeRefKind = Simple(ref: TypeRef) | Chain(parts: seq<TypeRef>)

  datatype IndexedSymbol = IndexedSymbol(
    name: string,
    shortName: Option<string>,
    qualifiedName: string,
    kind: SymbolKind,
    isPublic: bool,
    supertypes: seq<string>,
    annotations: seq<string>,
    typeRefs: seq<TypeRefKind>)

  /** Definition kinds; the KerML classifiers other than interactions do not count. */
  predicate IsDefinition(kind: SymbolKind) {
    match kind
    case SymDefinition(d) =>
      !d.SymDataType? && !d.SymClass? && !d.SymStructure? && !d.SymBehavior? && !d.SymFunction? && !d.SymAssociation?
    case _ => false
  }

  /** What is visible in a scope: simple names to qualified names, defined there or imported. */
  datatype ScopeVisibility = ScopeVisibility(
    directDefs: map<string, string>,
    imports: map<string, string>,
    publicReexports: seq<string>)
  {
    function Lookup(name: string): Option<string> {
      if name in directDefs then Some(directDefs[name])
      else if name in imports then Some(imports[name])
      else None
    }

    /** Imports do not replace direct definitions. */
    function AddImport(name: string, qualifiedName: string): ScopeVisibility {
      if name in directDefs then this else this.(imports := imports[name := qualifiedName])
    }

    function AddPublicReexport(namespace: string): ScopeVisibility {
      if namespace in publicReexports then this else this.(publicReexports := publicReexports + [namespace])
    }
  }
}
