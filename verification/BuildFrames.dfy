/** What later steps of the build, and the final wrapping, leave as it is. */
module BuildFrames {
  import opened Wrappers
  import opened ElementKinds
  import opened ModelGraph
  import opened Wrapping
  import opened Names
  import opened Integrate
  import opened GeneratedIds
  import opened EncodeSteps
  import opened EncodeSound

  // ---------------------------------------------------------------------------------------------
  // Steps of the build
  // ---------------------------------------------------------------------------------------------

  /** Nothing but an owned list has changed at an id. */
  ghost predicate Stays(g: Graph, h: Graph, x: Id) {
    x in g.elements && x in h.elements && h.elements[x].(owned := g.elements[x].owned) == g.elements[x]
  }

  /** An id that later steps do not write: a symbol's own, a stand-in's, or that of an edge that has its number. */
  ghost predicate Outlives(x: Id, counter: nat) {
    ClassOf(x) == Ordinary || ClassOf(x) == ExternalClass || exists k: nat :: k <= counter && x == RelId(k)
  }

  lemma OutlivesLonger(x: Id, counter: nat, later: nat)
    requires Outlives(x, counter) && counter <= later
    ensures Outlives(x, later)
  {
  }

  /** It is no generated id that a later step could use. */
  lemma OutlivingDiffers(x: Id, counter: nat, id: Id)
    requires Outlives(x, counter) && ClassOf(id) == Ordinary
    ensures x != RelId(counter + 1) && x != WrapId(id) && x != ValueId(id) && x != LiteralId(id)
  {
    hide ClassOf, RelId, WrapId, ValueId, LiteralId;
    ClassOfRel(counter + 1);
    ClassOfWrap(id);
    ClassOfValue(id);
    ClassOfLiteral(id);
    if k: nat :| k <= counter && x == RelId(k) {
      ClassOfRel(k);
      if x == RelId(counter + 1) {
        RelIdIsInjective(k, counter + 1);
      }
    }
  }

  lemma OutlivesAsSymbol(x: Id, counter: nat)
    requires ClassOf(x) == Ordinary
    ensures Outlives(x, counter)
  {
  }

  lemma StaysTrans(g: Graph, h: Graph, k: Graph, x: Id)
    requires Stays(g, h, x) && Stays(h, k, x)
    ensures Stays(g, k, x)
  {
  }

  lemma EmitPlainStays(g: Graph, id: Id, kind: RelationKind, target: Id, relId: Id, x: Id)
    requires x in g.elements && x != relId
    ensures Stays(g, EmitPlain(g, id, kind, target, relId), x)
  {
  }

  lemma EmitGroupBStays(g: Graph, kind: HirRelKind, slot: Id, target: Id, parent: Id, relId: Id, x: Id)
    requires x in g.elements && x != relId && x != slot && x != WrapId(slot)
    ensures Stays(g, EmitGroupB(g, kind, slot, target, parent, relId), x)
  {
    hide WrapId;
    var h := g.Add(SpecialWrapper(kind, slot, parent)).SetOwner(slot, WrapId(slot));
    assert Stays(g, h, x);
    assert Stays(h, WrapSlot(g, kind, slot, parent), x);
  }

  lemma EmitRelationshipStays(b: Build, ctx: Context, s: HirSymbol, rel: HirRelationship, x: Id)
    requires x in b.g.elements && Outlives(x, b.counter) && x != s.elementId && ClassOf(s.elementId) == Ordinary
    ensures Stays(b.g, EmitRelationship(b, ctx, s, rel).g, x) && b.counter <= EmitRelationship(b, ctx, s, rel).counter
  {
    hide EmitPlain, EmitGroupB, Stays, ClassOf, TargetName, FindTarget, OwnerId, EdgeKindOf, HirRelKind.IsGroupB,
         RelId, WrapId, ExternalId, Outlives;
    var edge, target := EdgeKindOf(rel.kind), TargetName(s, rel);
    NothingStays(b.g, x);
    if edge.Some? && target.Some? {
      var h := WithTarget(b.g, ctx, s, target.value);
      StubStays(b.g, ctx, s, target.value, x);
      OutlivingDiffers(x, b.counter, s.elementId);
      StaysIn(b.g, h, x);
      var owner := OwnerId(ctx.names, s);
      if owner.Some? {
        EmitGroupBStays(h, rel.kind, s.elementId, TargetId(ctx, s, target.value), owner.value, RelId(b.counter + 1), x);
      }
      EmitPlainStays(h, s.elementId, edge.value, TargetId(ctx, s, target.value), RelId(b.counter + 1), x);
      StaysTrans(b.g, h, EmitRelationship(b, ctx, s, rel).g, x);
    }
  }

  lemma NothingStays(g: Graph, x: Id)
    requires x in g.elements
    ensures Stays(g, g, x)
  {
  }

  lemma StaysIn(g: Graph, h: Graph, x: Id)
    requires Stays(g, h, x)
    ensures x in h.elements
  {
  }

  lemma StubStays(g: Graph, ctx: Context, s: HirSymbol, target: string, x: Id)
    requires x in g.elements
    ensures Stays(g, WithTarget(g, ctx, s, target), x)
  {
    hide FindTarget;
  }

  lemma {:induction false} EmitRelationshipsStay(b: Build, ctx: Context, s: HirSymbol, rels: seq<HirRelationship>,
                                               x: Id)
    requires x in b.g.elements && Outlives(x, b.counter) && x != s.elementId && ClassOf(s.elementId) == Ordinary
    ensures Stays(b.g, EmitRelationships(b, ctx, s, rels).g, x)
    ensures b.counter <= EmitRelationships(b, ctx, s, rels).counter
    decreases |rels|
  {
    hide Stays, ClassOf, EmitRelationship, Outlives;
    if rels == [] {
      NothingStays(b.g, x);
    } else {
      var c := EmitRelationship(b, ctx, s, rels[0]);
      EmitRelationshipStays(b, ctx, s, rels[0], x);
      StaysIn(b.g, c.g, x);
      OutlivesLonger(x, b.counter, c.counter);
      EmitRelationshipsStay(c, ctx, s, rels[1..], x);
      StaysTrans(b.g, c.g, EmitRelationships(b, ctx, s, rels).g, x);
    }
  }

  lemma EmitValueStays(g: Graph, id: Id, value: Literal, x: Id, counter: nat)
    requires x in g.elements && Outlives(x, counter) && ClassOf(id) == Ordinary
    ensures Stays(g, EmitValue(g, id, value), x)
  {
    hide ClassOf, Outlives;
    OutlivingDiffers(x, counter, id);
  }

  lemma PlaceStays(g: Graph, e: Element, x: Id)
    requires x in g.elements && x != e.id
    ensures Stays(g, RebuildOwned(g.Add(e)), x)
  {
  }

  lemma InsertListedStays(g: Graph, e: Element, x: Id)
    requires x in g.elements && x != e.id
    ensures Stays(g, InsertListed(g, e), x)
  {
  }

  lemma EncodeSymbolStays(b: Build, ctx: Context, s: HirSymbol, x: Id)
    requires x in b.g.elements && Outlives(x, b.counter) && x != s.elementId && ClassOf(s.elementId) == Ordinary
    ensures Stays(b.g, EncodeSymbol(b, ctx, s).g, x) && b.counter <= EncodeSymbol(b, ctx, s).counter
  {
    hide Stays, Outlives, ClassOf, EmitRelationships, EmitValue, RebuildOwned, InsertListed, OwnerId, ElementKindOf;
    var owner := OwnerId(ctx.names, s);
    if s.IsImport() {
      InsertListedStays(b.g, ImportElement(s, owner), x);
    } else {
      var placed := RebuildOwned(b.g.Add(SymbolElement(s, owner)));
      PlaceStays(b.g, SymbolElement(s, owner), x);
      StaysIn(b.g, placed, x);
      var linked := EmitRelationships(b.(g := placed), ctx, s, s.relationships);
      EmitRelationshipsStay(b.(g := placed), ctx, s, s.relationships, x);
      StaysTrans(b.g, placed, linked.g, x);
      if s.value.Some? {
        StaysIn(b.g, linked.g, x);
        var once := EmitValue(linked.g, s.elementId, s.value.value);
        EmitValueStays(linked.g, s.elementId, s.value.value, x, b.counter);
        StaysIn(linked.g, once, x);
        EmitValueStays(once, s.elementId, s.value.value, x, b.counter);
        StaysTrans(b.g, linked.g, once, x);
        StaysTrans(b.g, once, EmitValue(once, s.elementId, s.value.value), x);
      }
    }
  }

  // ---------------------------------------------------------------------------------------------
  // The final wrapping
  // ---------------------------------------------------------------------------------------------

  lemma SoundIsKeyed(g: Graph)
    requires Sound(g)
    ensures NoDuplicates(g.order)
  {
  }

  lemma WrapOneStays(g: Graph, it: WrapItem, x: Id)
    requires Sound(g) && Applies(g, it) && x in g.elements && !NeedsWrap(g, x)
    ensures Stays(g, WrapOne(g, it), x) && !NeedsWrap(WrapOne(g, it), x)
  {
    hide WrapOne, Sound;
    WrapOneShape(g, it);
  }

  lemma {:induction false} WrapListStays(g: Graph, items: seq<WrapItem>, x: Id)
    requires Sound(g) && AllApply(g, items) && x in g.elements && !NeedsWrap(g, x)
    ensures Stays(g, WrapList(g, items), x)
    decreases |items|
  {
    hide Sound, WrapOne, NeedsWrap, Stays, Applies;
    if items == [] {
      NothingStays(g, x);
    } else {
      AllApplyRest(g, items);
      WrapOneStays(g, items[0], x);
      StaysIn(g, WrapOne(g, items[0]), x);
      WrapListStays(WrapOne(g, items[0]), items[1..], x);
      StaysTrans(g, WrapOne(g, items[0]), WrapList(g, items), x);
    }
  }

  /** The finished model keeps what the build has put at an id that is not wrapped. */
  lemma FinishedStays(symbols: seq<HirSymbol>, scan: map<(string, string), Id>, x: Id)
    requires Proper(symbols) && x in Unwrapped(symbols, scan).elements && !NeedsWrap(Unwrapped(symbols, scan), x)
    ensures Stays(Unwrapped(symbols, scan), ModelFromSymbols(symbols, scan), x)
  {
    hide Built, Sound, EncodeSymbols, WrapList, AllApply, Stays, Proper, NeedsWrap;
    var g := Unwrapped(symbols, scan);
    UnwrappedIsBuilt(symbols, scan);
    BuiltIsSound(symbols, g);
    BuiltWrapIdsFree(symbols, g);
    SoundIsKeyed(g);
    ItemsToWrapComplete(g, g.order);
    WrapListStays(g, ItemsToWrap(g, g.order), x);
  }
}
