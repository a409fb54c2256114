/** Symbols in the built model: the element of each symbol is what its turn makes of it, whoever owns it then and
    whatever comes to be owned by it, and an alias keeps what it stands for. */
module SymbolEncoding {
  import opened Wrappers
  import opened ElementKinds
  import opened ModelGraph
  import opened Wrapping
  import opened Names
  import opened Integrate
  import opened GeneratedIds
  import opened EncodeSteps
  import opened EncodeSound
  import opened BuildFrames

  /** The element carries the symbol's id, names and kind, and for an alias of something the name of that. */
  ghost predicate EncodesSymbol(e: Element, s: HirSymbol) {
    && e.id == s.elementId && e.name == Some(s.name) && e.qualifiedName == Some(s.qualifiedName)
    && e.kind == ElementKindOf(s.kind) && e.relationship == None
    && e.properties == if s.kind.SymAlias? && |s.supertypes| > 0 then map["aliasTarget" := Text(s.supertypes[0])]
                       else map[]
  }

  /** Nothing but the owner and the owned list has changed at an id. */
  ghost predicate Endures(g: Graph, h: Graph, x: Id) {
    x in g.elements && x in h.elements
    && h.elements[x].(owner := g.elements[x].owner, owned := g.elements[x].owned) == g.elements[x]
  }

  lemma EnduresTrans(g: Graph, h: Graph, k: Graph, x: Id)
    requires Endures(g, h, x) && Endures(h, k, x)
    ensures Endures(g, k, x)
  {
  }

  lemma StayingEndures(g: Graph, h: Graph, x: Id)
    requires Stays(g, h, x)
    ensures Endures(g, h, x)
  {
  }

  lemma WrapSlotEndures(g: Graph, kind: HirRelKind, slot: Id, parent: Id, x: Id)
    requires x in g.elements && x != WrapId(slot)
    ensures Endures(g, WrapSlot(g, kind, slot, parent), x)
  {
    hide WrapId;
    var h := g.Add(SpecialWrapper(kind, slot, parent)).SetOwner(slot, WrapId(slot));
    assert Endures(g, h, x);
    assert Endures(h, WrapSlot(g, kind, slot, parent), x);
  }

  lemma EmitGroupBEndures(g: Graph, kind: HirRelKind, slot: Id, target: Id, parent: Id, relId: Id, x: Id)
    requires x in g.elements && x != relId && x != WrapId(slot)
    ensures Endures(g, EmitGroupB(g, kind, slot, target, parent, relId), x)
  {
    hide WrapId, WrapSlot;
    WrapSlotEndures(g, kind, slot, parent, x);
    assert Endures(WrapSlot(g, kind, slot, parent), EmitGroupB(g, kind, slot, target, parent, relId), x);
  }

  lemma EmitRelationshipEndures(b: Build, ctx: Context, s: HirSymbol, rel: HirRelationship, x: Id)
    requires x in b.g.elements && Outlives(x, b.counter) && ClassOf(s.elementId) == Ordinary
    ensures Endures(b.g, EmitRelationship(b, ctx, s, rel).g, x)
  {
    hide EmitPlain, EmitGroupB, Stays, Endures, ClassOf, TargetName, FindTarget, OwnerId, EdgeKindOf,
      HirRelKind.IsGroupB, RelId, WrapId, ExternalId, Outlives;
    var edge, target := EdgeKindOf(rel.kind), TargetName(s, rel);
    NothingStays(b.g, x);
    StayingEndures(b.g, b.g, x);
    if edge.Some? && target.Some? {
      var h, c := WithTarget(b.g, ctx, s, target.value), EmitRelationship(b, ctx, s, rel);
      StubStays(b.g, ctx, s, target.value, x);
      StaysIn(b.g, h, x);
      StayingEndures(b.g, h, x);
      OutlivingDiffers(x, b.counter, s.elementId);
      var owner := OwnerId(ctx.names, s);
      if rel.kind.IsGroupB() && owner.Some? {
        EmitGroupBEndures(h, rel.kind, s.elementId, TargetId(ctx, s, target.value), owner.value, RelId(b.counter + 1),
            x);
      } else {
        EmitPlainStays(h, s.elementId, edge.value, TargetId(ctx, s, target.value), RelId(b.counter + 1), x);
        StayingEndures(h, c.g, x);
      }
      EnduresTrans(b.g, h, c.g, x);
    }
  }

  lemma EnduresIn(g: Graph, h: Graph, x: Id)
    requires Endures(g, h, x)
    ensures x in h.elements
  {
  }

  lemma {:induction false} EmitRelationshipsEndure(b: Build, ctx: Context, s: HirSymbol, rels: seq<HirRelationship>,
                                                 x: Id)
    requires x in b.g.elements && ClassOf(x) == Ordinary && ClassOf(s.elementId) == Ordinary
    ensures Endures(b.g, EmitRelationships(b, ctx, s, rels).g, x)
    decreases |rels|
  {
    hide Stays, Endures, ClassOf, EmitRelationship, Outlives;
    if rels == [] {
      NothingStays(b.g, x);
      StayingEndures(b.g, b.g, x);
    } else {
      var c := EmitRelationship(b, ctx, s, rels[0]);
      OutlivesAsSymbol(x, b.counter);
      EmitRelationshipEndures(b, ctx, s, rels[0], x);
      EnduresIn(b.g, c.g, x);
      EmitRelationshipsEndure(c, ctx, s, rels[1..], x);
      EnduresTrans(b.g, c.g, EmitRelationships(b, ctx, s, rels).g, x);
    }
  }

  lemma EnduresEncoded(g: Graph, h: Graph, s: HirSymbol)
    requires Endures(g, h, s.elementId) && EncodesSymbol(g.elements[s.elementId], s)
    ensures EncodesSymbol(h.elements[s.elementId], s)
  {
    hide ElementKindOf;
  }

  lemma PlacedIsEncoded(g: Graph, s: HirSymbol, owner: Option<Id>)
    ensures var h := RebuildOwned(g.Add(SymbolElement(s, owner)));
      s.elementId in h.elements && EncodesSymbol(h.elements[s.elementId], s)
  {
    hide ElementKindOf;
  }

  /** At its turn a symbol is encoded. */
  lemma TurnEncodes(b: Build, ctx: Context, s: HirSymbol)
    requires !s.IsImport() && ClassOf(s.elementId) == Ordinary
    ensures var h := EncodeSymbol(b, ctx, s).g;
      s.elementId in h.elements && EncodesSymbol(h.elements[s.elementId], s)
  {
    hide Stays, Endures, ClassOf, EmitRelationships, EmitValue, RebuildOwned, OwnerId, EncodesSymbol, SymbolElement,
      Outlives;
    var x, owner := s.elementId, OwnerId(ctx.names, s);
    var placed := b.(g := RebuildOwned(b.g.Add(SymbolElement(s, owner))));
    PlacedIsEncoded(b.g, s, owner);
    var linked := EmitRelationships(placed, ctx, s, s.relationships);
    EmitRelationshipsEndure(placed, ctx, s, s.relationships, x);
    EnduresEncoded(placed.g, linked.g, s);
    EnduresIn(placed.g, linked.g, x);
    if s.value.Some? {
      OutlivesAsSymbol(x, 0);
      var once := EmitValue(linked.g, x, s.value.value);
      EmitValueStays(linked.g, x, s.value.value, x, 0);
      StayingEndures(linked.g, once, x);
      EnduresEncoded(linked.g, once, s);
      StaysIn(linked.g, once, x);
      EmitValueStays(once, x, s.value.value, x, 0);
      StayingEndures(once, EmitValue(once, x, s.value.value), x);
      EnduresEncoded(once, EmitValue(once, x, s.value.value), s);
      EnduresIn(once, EmitValue(once, x, s.value.value), x);
    }
  }

  lemma {:induction false} PrefixEncodesSymbol(symbols: seq<HirSymbol>, ctx: Context, n: nat, i: nat)
    requires Proper(symbols) && i < n <= |symbols| && !symbols[i].IsImport()
    ensures var g := EncodeSymbols(ctx, symbols[..n]).g;
      symbols[i].elementId in g.elements && EncodesSymbol(g.elements[symbols[i].elementId], symbols[i])
  {
    hide EncodesSymbol, EncodeSymbol, ClassOf, Outlives, Stays, Endures;
    assert symbols[..n][..n - 1] == symbols[..n - 1] && symbols[..n][n - 1] == symbols[n - 1];
    var b, x := EncodeSymbols(ctx, symbols[..n - 1]), symbols[i].elementId;
    if i == n - 1 {
      TurnEncodes(b, ctx, symbols[i]);
    } else {
      PrefixEncodesSymbol(symbols, ctx, n - 1, i);
      var c := EncodeSymbol(b, ctx, symbols[n - 1]);
      OutlivesAsSymbol(x, b.counter);
      EncodeSymbolStays(b, ctx, symbols[n - 1], x);
      StaysIn(b.g, c.g, x);
      StayingEndures(b.g, c.g, x);
      EnduresEncoded(b.g, c.g, symbols[i]);
    }
  }

  lemma WrapOneEndures(g: Graph, it: WrapItem, x: Id)
    requires Sound(g) && Applies(g, it) && x in g.elements
    ensures Endures(g, WrapOne(g, it), x)
  {
    hide WrapOne, Sound;
    WrapOneShape(g, it);
  }

  lemma {:induction false} WrapListEndures(g: Graph, items: seq<WrapItem>, x: Id)
    requires Sound(g) && AllApply(g, items) && x in g.elements
    ensures Endures(g, WrapList(g, items), x)
    decreases |items|
  {
    hide Sound, WrapOne, Endures, Stays, Applies;
    if items == [] {
      NothingStays(g, x);
      StayingEndures(g, g, x);
    } else {
      AllApplyRest(g, items);
      WrapOneEndures(g, items[0], x);
      EnduresIn(g, WrapOne(g, items[0]), x);
      WrapListEndures(WrapOne(g, items[0]), items[1..], x);
      EnduresTrans(g, WrapOne(g, items[0]), WrapList(g, items), x);
    }
  }

  /** In the finished model every symbol that is no import has its element, as it was encoded. */
  lemma SymbolIsEncoded(symbols: seq<HirSymbol>, scan: map<(string, string), Id>, i: nat)
    requires Proper(symbols) && i < |symbols| && !symbols[i].IsImport()
    ensures var m := ModelFromSymbols(symbols, scan);
      symbols[i].elementId in m.elements && EncodesSymbol(m.elements[symbols[i].elementId], symbols[i])
  {
    hide EncodesSymbol, Built, Sound, EncodeSymbols, WrapList, AllApply, Endures, NeedsWrap, ItemsToWrap;
    var g, x := Unwrapped(symbols, scan), symbols[i].elementId;
    assert symbols[..|symbols|] == symbols;
    PrefixEncodesSymbol(symbols, Context(NameMap(symbols), scan), |symbols|, i);
    UnwrappedIsBuilt(symbols, scan);
    BuiltIsSound(symbols, g);
    BuiltWrapIdsFree(symbols, g);
    SoundIsKeyed(g);
    ItemsToWrapComplete(g, g.order);
    WrapListEndures(g, ItemsToWrap(g, g.order), x);
    EnduresIn(g, ModelFromSymbols(symbols, scan), x);
    EnduresEncoded(g, ModelFromSymbols(symbols, scan), symbols[i]);
  }
}
