/** The translation as it runs: a model updated in place, symbol by symbol, and symbols collected from a
    model, both proved equal to the functions that the round trip is stated for. */
module Translate {
  import opened Wrappers
  import opened ElementKinds
  import opened ModelGraph
  import opened Wrapping
  import opened Names
  import opened Integrate

  // ---------------------------------------------------------------------------------------------
  // Rebuilding the owned lists
  // ---------------------------------------------------------------------------------------------

  /** The children among `pairs` whose owner is `p`, in order. */
  function ChildrenIn(pairs: seq<(Id, Id)>, p: Id): seq<Id> {
    if pairs == [] then []
    else
      var n := |pairs| - 1;
      ChildrenIn(pairs[..n], p) + (if pairs[n].1 == p then [pairs[n].0] else [])
  }

  lemma ChildrenInSnoc(pairs: seq<(Id, Id)>, pair: (Id, Id), p: Id)
    ensures ChildrenIn(pairs + [pair], p) == ChildrenIn(pairs, p) + (if pair.1 == p then [pair.0] else [])
  {
    assert (pairs + [pair])[..|pairs|] == pairs;
  }

  lemma ChildrenOfSnoc(g: Graph, ids: seq<Id>, id: Id, p: Id)
    ensures ChildrenOf(g, ids + [id], p) == ChildrenOf(g, ids, p) + ChildrenOf(g, [id], p)
    decreases |ids|
  {
    if ids == [] {
      assert ids + [id] == [id];
    } else {
      assert (ids + [id])[0] == ids[0] && (ids + [id])[1..] == ids[1..] + [id];
      ChildrenOfSnoc(g, ids[1..], id, p);
    }
  }

  /** One pass over the elements records each child with its owner. */
  method CollectOwnerPairs(model: Model) returns (pairs: seq<(Id, Id)>)
    ensures forall p :: ChildrenIn(pairs, p) == ChildrenOf(model.Value(), model.order, p)
  {
    ghost var g := model.Value();
    pairs := [];
    for i := 0 to |model.order|
      invariant forall p :: ChildrenIn(pairs, p) == ChildrenOf(g, g.order[..i], p)
    {
      var id := model.order[i];
      ghost var before := pairs;
      if id in model.elements && model.elements[id].owner.Some? {
        pairs := pairs + [(id, model.elements[id].owner.value)];
      }
      assert g.order[..i + 1] == g.order[..i] + [id];
      forall p ensures ChildrenIn(pairs, p) == ChildrenOf(g, g.order[..i + 1], p) {
        ChildrenOfSnoc(g, g.order[..i], id, p);
        assert [id][1..] == [] && ChildrenOf(g, [], p) == [];
        if pairs != before {
          ChildrenInSnoc(before, pairs[|pairs| - 1], p);
        }
      }
    }
    assert g.order[..|g.order|] == g.order;
  }

  /** The elements of a graph with other owned lists. */
  ghost predicate OnlyOwnedDiffers(g: Graph, h: Graph) {
    && h.order == g.order && h.roots == g.roots && h.elements.Keys == g.elements.Keys
    && (forall x :: x in g.elements ==> h.elements[x] == g.elements[x].(owned := h.elements[x].owned))
  }

  method ClearOwned(model: Model)
    requires forall x :: x in model.elements ==> x in model.order
    modifies model
    ensures OnlyOwnedDiffers(old(model.Value()), model.Value())
    ensures forall x :: x in model.elements ==> model.elements[x].owned == []
  {
    ghost var g := model.Value();
    for i := 0 to |model.order|
      invariant OnlyOwnedDiffers(g, model.Value())
      invariant forall x :: x in g.order[..i] && x in model.elements ==> model.elements[x].owned == []
    {
      assert g.order[..i + 1] == g.order[..i] + [model.order[i]];
      model.SetOwned(model.order[i], []);
    }
    assert g.order[..|g.order|] == g.order;
  }

  lemma RebuiltElements(g: Graph, h: Graph, pairs: seq<(Id, Id)>)
    requires OnlyOwnedDiffers(g, h) && forall p :: ChildrenIn(pairs, p) == ChildrenOf(g, g.order, p)
    requires forall p :: p in h.elements ==> h.elements[p].owned == ChildrenIn(pairs, p)
    ensures h == RebuildOwned(g)
  {
    assert h.elements == RebuildOwned(g).elements;
  }

  method RebuildOwnedLists(model: Model)
    requires forall x :: x in model.elements ==> x in model.order
    modifies model
    ensures model.Value() == RebuildOwned(old(model.Value()))
  {
    ghost var g := model.Value();
    var pairs := CollectOwnerPairs(model);
    ClearOwned(model);
    for i := 0 to |pairs|
      invariant OnlyOwnedDiffers(g, model.Value())
      invariant forall p :: p in model.elements ==> model.elements[p].owned == ChildrenIn(pairs[..i], p)
    {
      assert pairs[..i + 1] == pairs[..i] + [pairs[i]];
      forall p
        ensures ChildrenIn(pairs[..i + 1], p) ==
                  ChildrenIn(pairs[..i], p) + (if pairs[i].1 == p then [pairs[i].0] else [])
      {
        ChildrenInSnoc(pairs[..i], pairs[i], p);
      }
      if pairs[i].1 in model.elements {
        model.SetOwned(pairs[i].1, model.elements[pairs[i].1].owned + [pairs[i].0]);
      }
    }
    assert pairs[..|pairs|] == pairs;
    RebuiltElements(g, model.Value(), pairs);
  }

  // ---------------------------------------------------------------------------------------------
  // Keys
  // ---------------------------------------------------------------------------------------------

  /** Every key is in the key order: what the element map guarantees by itself. */
  ghost predicate KeysListed(g: Graph) {
    forall x :: x in g.elements ==> x in g.order
  }

  lemma EmitToKeepsKeys(g: Graph, s: HirSymbol, owner: Option<Id>, kind: HirRelKind, edge: RelationKind, target: Id,
          relId: Id)
    requires KeysListed(g)
    ensures KeysListed(EmitTo(g, s, owner, kind, edge, target, relId))
  {
    hide PlainEdge, SpecialWrapper;
    if kind.IsGroupB() && owner.Some? {
      WrapSlotKeepsKeys(g, kind, s.elementId, owner.value);
    }
  }

  lemma WrapSlotKeepsKeys(g: Graph, kind: HirRelKind, slot: Id, parent: Id)
    requires KeysListed(g)
    ensures KeysListed(WrapSlot(g, kind, slot, parent))
  {
  }

  lemma EmitRelationshipKeepsKeys(b: Build, ctx: Context, s: HirSymbol, rel: HirRelationship)
    requires KeysListed(b.g)
    ensures KeysListed(EmitRelationship(b, ctx, s, rel).g)
  {
    hide EmitTo, FindTarget, OwnerId, NameMap;
    var edge, target := EdgeKindOf(rel.kind), TargetName(s, rel);
    if edge.Some? && target.Some? {
      EmitToKeepsKeys(WithTarget(b.g, ctx, s, target.value), s, OwnerId(ctx.names, s), rel.kind, edge.value,
                      TargetId(ctx, s, target.value), RelId(b.counter + 1));
    }
  }

  lemma {:induction false} EmitRelationshipsKeepKeys(b: Build, ctx: Context, s: HirSymbol, rels: seq<HirRelationship>)
    requires KeysListed(b.g)
    ensures KeysListed(EmitRelationships(b, ctx, s, rels).g)
    decreases |rels|
  {
    hide EmitRelationship, KeysListed;
    if rels != [] {
      EmitRelationshipKeepsKeys(b, ctx, s, rels[0]);
      EmitRelationshipsKeepKeys(EmitRelationship(b, ctx, s, rels[0]), ctx, s, rels[1..]);
    }
  }

  lemma EncodeSymbolKeepsKeys(b: Build, ctx: Context, s: HirSymbol)
    requires KeysListed(b.g)
    ensures KeysListed(EncodeSymbol(b, ctx, s).g)
  {
    hide EmitRelationships, OwnerId, KeysListed, RebuildOwned, EmitValue, ImportElement, SymbolElement, InsertListed;
    InsertListedKeepsKeys(b.g, ImportElement(s, OwnerId(ctx.names, s)));
    if !s.IsImport() {
      PlacedKeepsKeys(b.g, SymbolElement(s, OwnerId(ctx.names, s)));
      var placed := RebuildOwned(b.g.Add(SymbolElement(s, OwnerId(ctx.names, s))));
      EmitRelationshipsKeepKeys(b.(g := placed), ctx, s, s.relationships);
      if s.value.Some? {
        var g := EmitRelationships(b.(g := placed), ctx, s, s.relationships).g;
        EmitValueKeepsKeys(g, s.elementId, s.value.value);
        EmitValueKeepsKeys(EmitValue(g, s.elementId, s.value.value), s.elementId, s.value.value);
      }
    }
  }

  lemma InsertListedKeepsKeys(g: Graph, e: Element)
    requires KeysListed(g)
    ensures KeysListed(InsertListed(g, e))
  {
  }

  lemma PlacedKeepsKeys(g: Graph, e: Element)
    requires KeysListed(g)
    ensures KeysListed(RebuildOwned(g.Add(e)))
  {
  }

  lemma EmitValueKeepsKeys(g: Graph, id: Id, value: Literal)
    requires KeysListed(g)
    ensures KeysListed(EmitValue(g, id, value))
  {
  }

  // ---------------------------------------------------------------------------------------------
  // Symbols to model
  // ---------------------------------------------------------------------------------------------

  method BuildNameMap(symbols: seq<HirSymbol>) returns (names: map<string, Id>)
    ensures names == NameMap(symbols)
  {
    names := map[];
    for i := 0 to |symbols|
      invariant names == NameMap(symbols[..i])
    {
      assert symbols[..i + 1][..i] == symbols[..i];
      names := names[symbols[i].qualifiedName := symbols[i].elementId];
    }
    assert symbols[..|symbols|] == symbols;
  }

  /** Walks up the enclosing namespaces, innermost first. */
  method SearchAncestors(names: map<string, Id>, qualifiedName: string, target: string) returns (found: Option<Id>)
    ensures found == FindInAncestors(names, qualifiedName, target)
  {
    var ns := qualifiedName;
    var split := RSplitOnce(ns);
    while split.Some?
      invariant split == RSplitOnce(ns)
      invariant FindInAncestors(names, ns, target) == FindInAncestors(names, qualifiedName, target)
      decreases |ns|
    {
      var candidate := split.value.0 + "::" + target;
      if candidate in names {
        return Some(names[candidate]);
      }
      ns := split.value.0;
      split := RSplitOnce(ns);
    }
    return None;
  }

  method ResolveTarget(ctx: Context, symbol: HirSymbol, target: string) returns (found: Option<Id>)
    ensures found == FindTarget(ctx, symbol, target)
  {
    if target in ctx.names {
      return Some(ctx.names[target]);
    }
    found := SearchAncestors(ctx.names, symbol.qualifiedName, target);
    if found.None? && (symbol.qualifiedName, target) in ctx.scan {
      found := Some(ctx.scan[(symbol.qualifiedName, target)]);
    }
  }

  /** The target's id; a stand-in is added when nothing provides the name. */
  method RequireTarget(model: Model, ctx: Context, symbol: HirSymbol, target: string) returns (id: Id)
    modifies model
    ensures id == TargetId(ctx, symbol, target)
    ensures model.Value() == WithTarget(old(model.Value()), ctx, symbol, target)
  {
    var found := ResolveTarget(ctx, symbol, target);
    if found.Some? {
      return found.value;
    }
    id := ExternalId(target);
    if id !in model.elements {
      model.AddElement(Stub(target));
    }
  }

  method EmitGroupBMembership(model: Model, kind: HirRelKind, slot: Id, target: Id, parent: Id, relId: Id)
    modifies model
    ensures model.Value() == EmitGroupB(old(model.Value()), kind, slot, target, parent, relId)
  {
    model.AddElement(SpecialWrapper(kind, slot, parent));
    model.SetOwner(slot, WrapId(slot));
    if parent in model.elements {
      var owned := model.elements[parent].owned;
      if slot in owned {
        model.SetOwned(parent, owned[IndexOf(owned, slot) := WrapId(slot)]);
      } else {
        model.SetOwned(parent, owned + [WrapId(slot)]);
      }
    }
    assert model.Value() == WrapSlot(old(model.Value()), kind, slot, parent);
    model.AddRel(relId, Relation(ReferenceSubsetting), slot, target, Some(slot));
    if slot in model.elements && relId !in model.elements[slot].owned {
      model.SetOwned(slot, model.elements[slot].owned + [relId]);
    }
  }

  method EmitPlainEdge(model: Model, id: Id, kind: RelationKind, target: Id, relId: Id)
    modifies model
    ensures model.Value() == EmitPlain(old(model.Value()), id, kind, target, relId)
  {
    model.AddRel(relId, Relation(kind), id, target, Some(id));
    var property := TargetProperty(kind);
    if property.Some? {
      model.Insert(model.elements[relId].(properties := map[property.value := Reference(target)]));
    }
    assert model.Value() == old(model.Value()).Insert(PlainEdge(relId, kind, id, target));
    if id in model.elements {
      model.SetOwned(id, model.elements[id].owned + [relId]);
    }
  }

  /** One relationship of a symbol. */
  method EmitOne(model: Model, counter: nat, ctx: Context, symbol: HirSymbol, owner: Option<Id>,
          rel: HirRelationship) returns (next: nat)
    requires owner == OwnerId(ctx.names, symbol)
    modifies model
    ensures Build(model.Value(), next) == EmitRelationship(Build(old(model.Value()), counter), ctx, symbol, rel)
  {
    next := counter;
    hide EmitGroupB, EmitPlain, FindTarget, OwnerId;
    var edge := EdgeKindOf(rel.kind);
    if edge.None? {
      return;
    }
    next := counter + 1;
    var name :=
        if rel.kind.IsSpecial() then (if rel.resolvedTarget.Some? then rel.resolvedTarget else symbol.terminalRef)
                else Some(rel.resolvedTarget.GetOr(rel.target));
    if name.None? {
      return;
    }
    var target := RequireTarget(model, ctx, symbol, name.value);
    if rel.kind.IsGroupB() && owner.Some? {
      EmitGroupBMembership(model, rel.kind, symbol.elementId, target, owner.value, RelId(next));
    } else {
      EmitPlainEdge(model, symbol.elementId, edge.value, target, RelId(next));
    }
  }

  method EmitAll(model: Model, counter: nat, ctx: Context, symbol: HirSymbol, owner: Option<Id>) returns (next: nat)
    requires owner == OwnerId(ctx.names, symbol)
    modifies model
    ensures Build(model.Value(), next) ==
              EmitRelationships(Build(old(model.Value()), counter), ctx, symbol, symbol.relationships)
  {
    next := counter;
    ghost var all := EmitRelationships(Build(model.Value(), counter), ctx, symbol, symbol.relationships);
    var rels := symbol.relationships;
    for i := 0 to |rels|
      invariant EmitRelationships(Build(model.Value(), next), ctx, symbol, rels[i..]) == all
    {
      assert rels[i..][0] == rels[i] && rels[i..][1..] == rels[i + 1..];
      next := EmitOne(model, next, ctx, symbol, owner, rels[i]);
    }
  }

  method EmitValueBlock(model: Model, id: Id, value: Literal)
    modifies model
    ensures model.Value() == EmitValue(old(model.Value()), id, value)
  {
    model.AddElement(NewElement(LiteralId(id), FeatureOnly(value.kind))
                       .(owner := Some(ValueId(id)), properties := map["value" := value.property]));
    model.AddElement(NewElement(ValueId(id), Relation(FeatureValue)).(owner := Some(id), owned := [LiteralId(id)]));
    if id in model.elements {
      model.SetOwned(id, model.elements[id].owned + [ValueId(id)]);
    }
  }

  method EmitImport(model: Model, symbol: HirSymbol, names: map<string, Id>)
    requires symbol.IsImport()
    modifies model
    ensures model.Value() == EncodeImport(old(model.Value()), symbol, OwnerId(names, symbol))
  {
    var id := symbol.elementId;
    var wildcard := EndsWith(symbol.name, "::*");
    var namespace := if wildcard then TrimEnd(symbol.name, "::*") else symbol.name;
    var owner := None;
    var mark := Find(symbol.qualifiedName, "::import:");
    if mark.Some? && symbol.qualifiedName[..mark.value] in names {
      owner := Some(names[symbol.qualifiedName[..mark.value]]);
    }
    model.AddRel(id, Relation(if wildcard then NamespaceImport else MembershipImport), owner.GetOr(id), namespace,
        owner);
    model.Insert(model.elements[id].(properties :=
      map[(if wildcard then "importedNamespace" else "importedMembership") := Text(namespace)]));
    assert model.Value() == old(model.Value()).Insert(ImportElement(symbol, OwnerId(names, symbol)));
    if owner.Some? && owner.value in model.elements && id !in model.elements[owner.value].owned {
      model.SetOwned(owner.value, model.elements[owner.value].owned + [id]);
    }
  }

  /** One round of the translation loop. */
  method EncodeInPlace(model: Model, counter: nat, ctx: Context, symbol: HirSymbol) returns (next: nat)
    requires KeysListed(model.Value())
    modifies model
    ensures Build(model.Value(), next) == EncodeSymbol(Build(old(model.Value()), counter), ctx, symbol)
  {
    next := counter;
    if symbol.IsImport() {
      EmitImport(model, symbol, ctx.names);
      return;
    }
    var owner := None;
    var split := RSplitOnce(symbol.qualifiedName);
    if split.Some? && split.value.0 in ctx.names {
      owner := Some(ctx.names[split.value.0]);
    }
    model.AddElement(SymbolElement(symbol, owner));
    RebuildOwnedLists(model);
    next := EmitAll(model, next, ctx, symbol, owner);
    if symbol.value.Some? {
      EmitValueBlock(model, symbol.elementId, symbol.value.value);
      EmitValueBlock(model, symbol.elementId, symbol.value.value);
    }
  }

  method TranslateSymbols(symbols: seq<HirSymbol>, scan: map<(string, string), Id>) returns (model: Model)
    ensures fresh(model) && model.Value() == ModelFromSymbols(symbols, scan)
  {
    model := new Model();
    var counter := 0;
    var names := BuildNameMap(symbols);
    var ctx := Context(names, scan);
    for i := 0 to |symbols|
      invariant fresh(model) && KeysListed(model.Value())
      invariant Build(model.Value(), counter) == EncodeSymbols(ctx, symbols[..i])
    {
      assert symbols[..i + 1][..i] == symbols[..i];
      EncodeSymbolKeepsKeys(Build(model.Value(), counter), ctx, symbols[i]);
      counter := EncodeInPlace(model, counter, ctx, symbols[i]);
    }
    assert symbols[..|symbols|] == symbols;
    WrapChildrenInMemberships(model);
  }

  // ---------------------------------------------------------------------------------------------
  // Model to symbols
  // ---------------------------------------------------------------------------------------------

  /** What has been collected, followed by what is still to come. */
  function After<T>(done: seq<T>, rest: Result<seq<T>>): Result<seq<T>> {
    if rest.Ok? then Result.Ok(done + rest.value) else rest
  }

  lemma AfterNothing<T>(rest: Result<seq<T>>)
    ensures After([], rest) == rest
  {
    assert rest.Ok? ==> [] + rest.value == rest.value;
  }

  lemma AfterOne<T>(done: seq<T>, x: T, rest: Result<seq<T>>)
    ensures After(done, After([x], rest)) == After(done + [x], rest)
  {
    assert rest.Ok? ==> done + ([x] + rest.value) == (done + [x]) + rest.value;
  }

  /** The relationships of one element, read off the edges that start at it. */
  method CollectRelationships(model: Model, e: Element) returns (r: Result<seq<HirRelationship>>)
    ensures r == DecodeEdges(model.Value(), e, EdgesFrom(model.Value(), model.order, e.id))
  {
    ghost var g := model.Value();
    ghost var all := DecodeEdges(g, e, EdgesFrom(g, g.order, e.id));
    var rels := [];
    AfterNothing(all);
    for i := 0 to |model.order|
      invariant all == After(rels, DecodeEdges(g, e, EdgesFrom(g, g.order[i..], e.id)))
    {
      var id := model.order[i];
      assert g.order[i..][0] == id && g.order[i..][1..] == g.order[i + 1..];
      if id in model.elements && model.elements[id].relationship.Some?
          && e.id in model.elements[id].relationship.value.source {
        var edge := model.elements[id];
        assert EdgesFrom(g, g.order[i..], e.id)[0] == edge;
        assert EdgesFrom(g, g.order[i..], e.id)[1..] == EdgesFrom(g, g.order[i + 1..], e.id);
        var kind := DecodeKind(model.Value(), edge, e);
        if kind.InvalidAttribute? {
          return InvalidAttribute(kind.message);
        }
        if kind.value.Some? {
          var target := DecodedTarget(model.Value(), edge);
          AfterOne(rels, HirRelationship(kind.value.value, target, Some(target)),
              DecodeEdges(g, e, EdgesFrom(g, g.order[i + 1..], e.id)));
          rels := rels + [HirRelationship(kind.value.value, target, Some(target))];
        }
      } else {
        assert EdgesFrom(g, g.order[i..], e.id) == EdgesFrom(g, g.order[i + 1..], e.id);
      }
    }
    assert g.order[|g.order|..] == [] && rels + [] == rels;
    return Result.Ok(rels);
  }

  method CollectSymbols(model: Model) returns (r: Result<seq<HirSymbol>>)
    ensures r == SymbolsFromModel(model.Value())
  {
    ghost var g := model.Value();
    var symbols := [];
    AfterNothing(SymbolsFromModel(g));
    for i := 0 to |model.order|
      invariant SymbolsFromModel(g) == After(symbols, DecodeElements(g, g.order[i..]))
    {
      var id := model.order[i];
      assert g.order[i..][0] == id && g.order[i..][1..] == g.order[i + 1..];
      if id !in model.elements || model.elements[id].kind.IsRelationship() {
        continue;
      }
      var e := model.elements[id];
      var qualifiedName := if e.qualifiedName.Some? then e.qualifiedName.value else e.name.GetOr(e.id);
      var rels := CollectRelationships(model, e);
      if rels.InvalidAttribute? {
        return InvalidAttribute(rels.message);
      }
      hide DecodeEdges, EdgesFrom, LastSegment, SymbolKindOf;
      var symbol := HirSymbol(e.name.GetOr(LastSegment(qualifiedName)), qualifiedName, e.id, SymbolKindOf(e.kind),
                              SpecializedTargets(rels.value), rels.value, None, None);
      AfterOne(symbols, symbol, DecodeElements(g, g.order[i + 1..]));
      symbols := symbols + [symbol];
    }
    assert g.order[|g.order|..] == [] && symbols + [] == symbols;
    return Result.Ok(symbols);
  }
}
