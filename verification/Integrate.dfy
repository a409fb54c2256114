/** Translating HIR symbols to an interchange model and back. */
module Integrate {
  import opened Wrappers
  import opened ElementKinds
  import opened ModelGraph
  import opened Wrapping
  import opened Names

  // ---------------------------------------------------------------------------------------------
  // Symbols
  // ---------------------------------------------------------------------------------------------

  datatype HirRelKind =
    | Specializes | TypedBy | Redefines | Subsets | References
    | Satisfies | Performs | Exhibits | Includes | Asserts | Assumes | Requires | Verifies
  {
    /** The eight keywords that encode as a reference subsetting. */
    predicate IsSpecial() {
      !Specializes? && !TypedBy? && !Redefines? && !Subsets? && !References?
    }

    /** The three keywords whose slot sits in a specialised wrapper. */
    predicate IsGroupB() {
      Requires? || Assumes? || Verifies?
    }
  }

  datatype HirRelationship = HirRelationship(kind: HirRelKind, target: string, resolvedTarget: Option<string>)

  /** A literal value with the element kind and the property it is stored as. */
  datatype Literal = Literal(kind: FeatureKind, property: PropertyValue)

  datatype HirSymbol = HirSymbol(
    name: string,
    qualifiedName: string,
    elementId: Id,
    kind: SymbolKind,
    supertypes: seq<string>,
    relationships: seq<HirRelationship>,
    terminalRef: Option<string>,
    value: Option<Literal>)
  {
    predicate IsImport() { kind == SymImport }
  }

  // ---------------------------------------------------------------------------------------------
  // Symbols to model
  // ---------------------------------------------------------------------------------------------

  /** What the translation looks names up in. `scan` is the outcome of the scan for a name that merely ends
      in the target: ties there depend on hash order, so every outcome is allowed. */
  datatype Context = Context(names: map<string, Id>, scan: map<(string, string), Id>)

  datatype Build = Build(g: Graph, counter: nat)

  function NameMap(symbols: seq<HirSymbol>): map<string, Id> {
    if symbols == [] then map[]
    else
      var last := symbols[|symbols| - 1];
      NameMap(symbols[..|symbols| - 1])[last.qualifiedName := last.elementId]
  }

  function RelId(n: nat): Id { "rel_" + Decimal(n) }

  function ExternalId(target: string): Id { "_ext_" + target }

  function ValueId(id: Id): Id { id + "-fv" }

  function LiteralId(id: Id): Id { id + "-fv-lit" }

  /** The name of the namespace that encloses a symbol; imports carry it before their `::import:` mark. */
  function ParentName(symbol: HirSymbol): Option<string> {
    if symbol.IsImport() then
      var k := Find(symbol.qualifiedName, "::import:");
      if k.Some? then Some(symbol.qualifiedName[..k.value]) else None
    else
      var split := RSplitOnce(symbol.qualifiedName);
      if split.Some? then Some(split.value.0) else None
  }

  /** The id of the element owning a symbol: its enclosing symbol by name, if there is one. */
  function OwnerId(names: map<string, Id>, symbol: HirSymbol): Option<Id> {
    var parent := ParentName(symbol);
    if parent.Some? && parent.value in names then Some(names[parent.value]) else None
  }

  function EdgeKindOf(kind: HirRelKind): Option<RelationKind> {
    match kind
    case Specializes => Some(Specialization)
    case TypedBy => Some(FeatureTyping)
    case Redefines => Some(Redefinition)
    case Subsets => Some(Subsetting)
    case References => None
    case _ => Some(ReferenceSubsetting)
  }

  function TargetProperty(kind: RelationKind): Option<string> {
    match kind
    case FeatureTyping => Some("type")
    case Specialization => Some("general")
    case Redefinition => Some("redefinedFeature")
    case Subsetting => Some("subsettedFeature")
    case _ => None
  }

  function TargetName(symbol: HirSymbol, rel: HirRelationship): Option<string> {
    if rel.kind.IsSpecial() then
      if rel.resolvedTarget.Some? then rel.resolvedTarget else symbol.terminalRef
    else Some(rel.resolvedTarget.GetOr(rel.target))
  }

  /** The target as a member of an enclosing namespace, innermost first. */
  function FindInAncestors(names: map<string, Id>, ns: string, target: string): Option<Id>
    decreases |ns|
  {
    var split := RSplitOnce(ns);
    if split.None? then None
    else
      var candidate := split.value.0 + "::" + target;
      if candidate in names then Some(names[candidate]) else FindInAncestors(names, split.value.0, target)
  }

  function FindTarget(ctx: Context, symbol: HirSymbol, target: string): Option<Id> {
    if target in ctx.names then Some(ctx.names[target])
    else
      var found := FindInAncestors(ctx.names, symbol.qualifiedName, target);
      if found.Some? then found
      else if (symbol.qualifiedName, target) in ctx.scan then Some(ctx.scan[(symbol.qualifiedName, target)])
      else None
  }

  /** The stand-in for a target that no symbol provides. */
  function Stub(target: string): Element {
    NewElement(ExternalId(target), General(Other)).(name := Some(target), properties := map["_external" := Flag(true)])
  }

  function WithStub(g: Graph, target: string): Graph {
    if ExternalId(target) in g.elements then g else g.Add(Stub(target))
  }

  function Edge(id: Id, kind: RelationKind, source: Id, target: Id): Element {
    NewElement(id, Relation(kind)).(owner := Some(source), relationship := Some(RelationshipData([source], [target])))
  }

  /** The edge as it is stored, with the property that names its target in the metamodel. */
  function PlainEdge(id: Id, kind: RelationKind, source: Id, target: Id): Element {
    var property := TargetProperty(kind);
    var edge := Edge(id, kind, source, target);
    if property.Some? then edge.(properties := map[property.value := Reference(target)]) else edge
  }

  function EmitPlain(g: Graph, id: Id, kind: RelationKind, target: Id, relId: Id): Graph {
    var h := g.Insert(PlainEdge(relId, kind, id, target));
    h.SetOwned(id, h.OwnedOf(id) + [relId])
  }

  function SpecialWrapper(kind: HirRelKind, slot: Id, parent: Id): Element {
    var wrap :=
        NewElement(WrapId(slot), Relation(if kind.Verifies? then Verification else RequirementConstraintMembership))
                  .(owner := Some(parent), owned := [slot]);
    if kind.Verifies? then wrap
    else wrap.(properties := map["kind" := Text(if kind.Requires? then "requirement" else "assumption")])
  }

  /** Wraps the slot in its specialised membership, in place of a plain wrapper. */
  function WrapSlot(g: Graph, kind: HirRelKind, slot: Id, parent: Id): Graph {
    var w := WrapId(slot);
    var h := g.Add(SpecialWrapper(kind, slot, parent)).SetOwner(slot, w);
    var owned := h.OwnedOf(parent);
    h.SetOwned(parent, if slot in owned then owned[IndexOf(owned, slot) := w] else owned + [w])
  }

  function EmitGroupB(g: Graph, kind: HirRelKind, slot: Id, target: Id, parent: Id, relId: Id): Graph {
    var h := WrapSlot(g, kind, slot, parent).Insert(Edge(relId, ReferenceSubsetting, slot, target));
    if relId in h.OwnedOf(slot) then h else h.SetOwned(slot, h.OwnedOf(slot) + [relId])
  }

  function EmitTo(g: Graph, symbol: HirSymbol, owner: Option<Id>, kind: HirRelKind, edge: RelationKind, target: Id,
          relId: Id): Graph {
    if kind.IsGroupB() && owner.Some? then EmitGroupB(g, kind, symbol.elementId, target, owner.value, relId)
    else EmitPlain(g, symbol.elementId, edge, target, relId)
  }

  function TargetId(ctx: Context, symbol: HirSymbol, target: string): Id {
    FindTarget(ctx, symbol, target).GetOr(ExternalId(target))
  }

  function WithTarget(g: Graph, ctx: Context, symbol: HirSymbol, target: string): Graph {
    if FindTarget(ctx, symbol, target).Some? then g else WithStub(g, target)
  }

  function EmitRelationship(b: Build, ctx: Context, symbol: HirSymbol, rel: HirRelationship): Build {
    var edge := EdgeKindOf(rel.kind);
    if edge.None? then b
    else
      var counter := b.counter + 1;
      var target := TargetName(symbol, rel);
      if target.None? then b.(counter := counter)
      else
        Build(EmitTo(WithTarget(b.g, ctx, symbol, target.value), symbol, OwnerId(ctx.names, symbol), rel.kind,
                     edge.value, TargetId(ctx, symbol, target.value), RelId(counter)), counter)
  }

  function EmitRelationships(b: Build, ctx: Context, symbol: HirSymbol, rels: seq<HirRelationship>): Build
    decreases |rels|
  {
    if rels == [] then b else EmitRelationships(EmitRelationship(b, ctx, symbol, rels[0]), ctx, symbol, rels[1..])
  }

  function EmitValue(g: Graph, id: Id, value: Literal): Graph {
    var literal := NewElement(LiteralId(id), FeatureOnly(value.kind))
                     .(owner := Some(ValueId(id)), properties := map["value" := value.property]);
    var feature := NewElement(ValueId(id), Relation(FeatureValue)).(owner := Some(id), owned := [LiteralId(id)]);
    var h := g.Add(literal).Add(feature);
    h.SetOwned(id, h.OwnedOf(id) + [ValueId(id)])
  }

  /** The keys whose owner pointer leads to `p`, in key order. */
  function ChildrenOf(g: Graph, ids: seq<Id>, p: Id): (r: seq<Id>)
    ensures forall c :: c in r <==> c in ids && c in g.elements && g.elements[c].owner == Some(p)
  {
    if ids == [] then []
    else
      assert ids == [ids[0]] + ids[1..];
      (if ids[0] in g.elements && g.elements[ids[0]].owner == Some(p) then [ids[0]] else [])
          + ChildrenOf(g, ids[1..], p)
  }

  /** All owned lists rebuilt from the owner pointers. */
  function RebuildOwned(g: Graph): Graph {
    g.(elements := map p | p in g.elements :: g.elements[p].(owned := ChildrenOf(g, g.order, p)))
  }

  function SymbolElement(symbol: HirSymbol, owner: Option<Id>): Element {
    var e := NewElement(symbol.elementId, ElementKindOf(symbol.kind))
               .(name := Some(symbol.name), qualifiedName := Some(symbol.qualifiedName), owner := owner);
    if symbol.kind == SymAlias && symbol.supertypes != [] then
      e.(properties := map["aliasTarget" := Text(symbol.supertypes[0])])
    else e
  }

  function ImportElement(symbol: HirSymbol, owner: Option<Id>): (e: Element)
    ensures e.id == symbol.elementId && e.owner == owner && e.owned == [] && e.kind.IsRelationship()
  {
    var wildcard := EndsWith(symbol.name, "::*");
    var namespace := if wildcard then TrimEnd(symbol.name, "::*") else symbol.name;
    NewElement(symbol.elementId, Relation(if wildcard then NamespaceImport else MembershipImport))
      .(owner := owner,
        properties := map[(if wildcard then "importedNamespace" else "importedMembership") := Text(namespace)],
        relationship := Some(RelationshipData([owner.GetOr(symbol.elementId)], [namespace])))
  }

  /** Inserts an element and lists it under its owner unless it is listed there already. */
  function InsertListed(g: Graph, e: Element): Graph {
    var h := g.Insert(e);
    if e.owner.Some? && e.id !in h.OwnedOf(e.owner.value)
    then h.SetOwned(e.owner.value, h.OwnedOf(e.owner.value) + [e.id])
    else h
  }

  function EncodeImport(g: Graph, symbol: HirSymbol, owner: Option<Id>): Graph {
    InsertListed(g, ImportElement(symbol, owner))
  }

  function EncodeSymbol(b: Build, ctx: Context, symbol: HirSymbol): Build {
    var owner := OwnerId(ctx.names, symbol);
    if symbol.IsImport() then b.(g := EncodeImport(b.g, symbol, owner))
    else
      var placed := RebuildOwned(b.g.Add(SymbolElement(symbol, owner)));
      var linked := EmitRelationships(b.(g := placed), ctx, symbol, symbol.relationships);
      // Two identical blocks store the value, one after the other.
      if symbol.value.Some? then
        linked.(g := EmitValue(EmitValue(linked.g, symbol.elementId, symbol.value.value),
                               symbol.elementId, symbol.value.value))
      else linked
  }

  function EncodeSymbols(ctx: Context, symbols: seq<HirSymbol>): Build {
    if symbols == [] then Build(Graph([], map[], []), 0)
    else EncodeSymbol(EncodeSymbols(ctx, symbols[..|symbols| - 1]), ctx, symbols[|symbols| - 1])
  }

  function ModelFromSymbols(symbols: seq<HirSymbol>, scan: map<(string, string), Id>): Graph {
    WrapChildren(EncodeSymbols(Context(NameMap(symbols), scan), symbols).g)
  }

  // ---------------------------------------------------------------------------------------------
  // Model to symbols
  // ---------------------------------------------------------------------------------------------

  datatype Result<T> = Ok(value: T) | InvalidAttribute(message: string)

  function RequirementKind(wrap: Element): Result<Option<HirRelKind>> {
    if "kind" in wrap.properties && wrap.properties["kind"].Text? then
      var k := wrap.properties["kind"].text;
      if k == "assumption" then Ok(Some(Assumes))
      else if k == "requirement" then Ok(Some(Requires))
      else InvalidAttribute("expected assumption or requirement, got " + k)
    else InvalidAttribute("missing valid kind")
  }

  /** The keyword of a reference subsetting, from what wraps its source or else from its source's kind. */
  function SpecialKind(g: Graph, source: Element): Result<Option<HirRelKind>> {
    var wrap :=
        if source.owner.Some? && source.owner.value in g.elements then Some(g.elements[source.owner.value]) else None;
    if wrap.Some? && wrap.value.kind == Relation(RequirementConstraintMembership) then RequirementKind(wrap.value)
    else if wrap.Some? && wrap.value.kind == Relation(Verification) then Ok(Some(Verifies))
    else
      match source.kind
      case Usage(PerformActionUsage) => Ok(Some(Performs))
      case Usage(IncludeUseCaseUsage) => Ok(Some(Includes))
      case Usage(ExhibitStateUsage) => Ok(Some(Exhibits))
      case Usage(AssertConstraintUsage) => Ok(Some(Asserts))
      case Usage(Satisfaction) => Ok(Some(Satisfies))
      case _ => Ok(None)
  }

  function DecodeKind(g: Graph, edge: Element, source: Element): Result<Option<HirRelKind>> {
    match edge.kind
    case Relation(RequirementConstraintMembership) => RequirementKind(edge)
    case Relation(Verification) => Ok(Some(Verifies))
    case Relation(ReferenceSubsetting) => SpecialKind(g, source)
    case Relation(Specialization) => Ok(Some(Specializes))
    case Relation(FeatureTyping) => Ok(Some(TypedBy))
    case Relation(Redefinition) => Ok(Some(Redefines))
    case Relation(Subsetting) => Ok(Some(Subsets))
    case _ => Ok(None)
  }

  function DecodedTarget(g: Graph, edge: Element): string {
    if edge.relationship.None? || edge.relationship.value.target == [] then ""
    else
      var id := edge.relationship.value.target[0];
      if id !in g.elements then id
      else
        var e := g.elements[id];
        if e.qualifiedName.Some? then e.qualifiedName.value else e.name.GetOr(id)
  }

  /** The edges with `x` among their sources, in key order. */
  function EdgesFrom(g: Graph, ids: seq<Id>, x: Id): seq<Element> {
    if ids == [] then []
    else
      (if ids[0] in g.elements && g.elements[ids[0]].relationship.Some?
          && x in g.elements[ids[0]].relationship.value.source
       then [g.elements[ids[0]]] else [])
      + EdgesFrom(g, ids[1..], x)
  }

  function DecodeEdges(g: Graph, source: Element, edges: seq<Element>): Result<seq<HirRelationship>> {
    if edges == [] then Ok([])
    else
      var kind := DecodeKind(g, edges[0], source);
      if kind.InvalidAttribute? then InvalidAttribute(kind.message)
      else
        var rest := DecodeEdges(g, source, edges[1..]);
        if rest.InvalidAttribute? then rest
        else if kind.value.None? then rest
        else
          var target := DecodedTarget(g, edges[0]);
          Ok([HirRelationship(kind.value.value, target, Some(target))] + rest.value)
  }

  function SpecializedTargets(rels: seq<HirRelationship>): seq<string> {
    if rels == [] then []
    else (if rels[0].kind == Specializes then [rels[0].target] else []) + SpecializedTargets(rels[1..])
  }

  function DecodeElement(g: Graph, e: Element): Result<HirSymbol> {
    var qualifiedName := if e.qualifiedName.Some? then e.qualifiedName.value else e.name.GetOr(e.id);
    var rels := DecodeEdges(g, e, EdgesFrom(g, g.order, e.id));
    if rels.InvalidAttribute? then InvalidAttribute(rels.message)
    else
      Ok(HirSymbol(e.name.GetOr(LastSegment(qualifiedName)), qualifiedName, e.id, SymbolKindOf(e.kind),
                   SpecializedTargets(rels.value), rels.value, None, None))
  }

  function DecodeElements(g: Graph, ids: seq<Id>): Result<seq<HirSymbol>> {
    if ids == [] then Ok([])
    else if !IsContentIn(g, ids[0]) then DecodeElements(g, ids[1..])
    else
      var symbol := DecodeElement(g, g.elements[ids[0]]);
      if symbol.InvalidAttribute? then InvalidAttribute(symbol.message)
      else
        var rest := DecodeElements(g, ids[1..]);
        if rest.InvalidAttribute? then rest else Ok([symbol.value] + rest.value)
  }

  function SymbolsFromModel(g: Graph): Result<seq<HirSymbol>> {
    DecodeElements(g, g.order)
  }
}
