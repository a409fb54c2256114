/** The model built from symbols is sound: its keys are unique, its owner pointers and owned lists agree, it
    is acyclic, and every symbol's element computes the symbol's qualified name. */
module EncodeSound {
  import opened Wrappers
  import opened ElementKinds
  import opened ModelGraph
  import opened Wrapping
  import opened EditSpec
  import opened Recompile
  import opened Names
  import opened Integrate
  import opened GeneratedIds
  import opened EncodeSteps

  // ---------------------------------------------------------------------------------------------
  // One symbol
  // ---------------------------------------------------------------------------------------------

  lemma ProgressKeepsInvariant(symbols: seq<HirSymbol>, at: Progress, next: Progress, g: Graph)
    requires BuildInvariant(symbols, at, g) && Reaches(at, next) && OnlyImports(symbols, at, next)
    ensures BuildInvariant(symbols, next, g)
  {
    AheadGrows(symbols, at, g, next, g);
  }

  lemma RelHasCome(symbols: seq<HirSymbol>, at: Progress)
    requires Proper(symbols) && at.edges > 0
    ensures HasCome(symbols, at, RelId(at.edges)) && ClassOf(RelId(at.edges)) == RelClass
  {
    var x := RelId(at.edges);
    ClassOfRel(at.edges);
    forall k | k > at.edges ensures RelId(k) != x {
      if RelId(k) == x {
        RelIdIsInjective(k, at.edges);
      }
    }
    forall i | 0 <= i < |symbols|
      ensures x != WrapId(symbols[i].elementId) && x != ValueId(symbols[i].elementId)
      ensures x != LiteralId(symbols[i].elementId)
    {
      ClassOfWrap(symbols[i].elementId);
      ValueIdsDiffer(symbols[i].elementId);
    }
  }

  /** The symbol being encoded: placed, with its edges still being added. */
  ghost predicate IsCurrent(symbols: seq<HirSymbol>, at: Progress, g: Graph, i: nat) {
    && i < |symbols| && at.symbols == i + 1 && at.values == i && !symbols[i].IsImport()
    && BuildInvariant(symbols, at, g)
  }

  lemma NextEdgeIsLeaf(symbols: seq<HirSymbol>, at: Progress, g: Graph, i: nat, e: Element)
    requires Proper(symbols) && IsCurrent(symbols, at, g, i)
    requires e.id == RelId(at.edges + 1) && e.kind.IsRelationship() && e.owned == []
    requires e.owner == Some(symbols[i].elementId)
    ensures IsLeaf(symbols, g, e) && e.id != symbols[i].elementId
  {
    ClassOfRel(at.edges + 1);
    assert IsAhead(symbols, at, e.id);
    assert IsSymbolId(symbols, symbols[i].elementId);
  }

  lemma AttachEdgeKeepsInvariant(symbols: seq<HirSymbol>, at: Progress, g: Graph, i: nat, e: Element)
    requires Proper(symbols) && IsCurrent(symbols, at, g, i)
    requires e.id == RelId(at.edges + 1) && e.kind.IsRelationship() && e.owned == []
    requires e.owner == Some(symbols[i].elementId)
    ensures IsCurrent(symbols, at.(edges := at.edges + 1), Attach(g, e), i)
  {
    var next := at.(edges := at.edges + 1);
    NextEdgeIsLeaf(symbols, at, g, i, e);
    RelHasCome(symbols, next);
    AttachKeepsInvariant(symbols, at, next, g, e);
  }

  lemma EmitPlainIsAttach(g: Graph, id: Id, kind: RelationKind, target: Id, relId: Id)
    requires id in g.elements && relId != id
    ensures EmitPlain(g, id, kind, target, relId) == Attach(g, PlainEdge(relId, kind, id, target))
  {
  }

  lemma EmitGroupBIsAttach(g: Graph, kind: HirRelKind, slot: Id, target: Id, parent: Id, relId: Id)
    requires var h := WrapSlot(g, kind, slot, parent); slot in h.elements && relId !in h.elements[slot].owned
    requires relId != slot
    ensures EmitGroupB(g, kind, slot, target, parent, relId)
            == Attach(WrapSlot(g, kind, slot, parent), Edge(relId, ReferenceSubsetting, slot, target))
  {
  }

  lemma CurrentIsPlaced(symbols: seq<HirSymbol>, at: Progress, g: Graph, i: nat)
    requires IsCurrent(symbols, at, g, i)
    ensures SymbolPlaced(symbols, g, i) && symbols[i].elementId in g.elements
  {
  }

  lemma EmitGroupBKeepsCurrent(symbols: seq<HirSymbol>, at: Progress, g: Graph, i: nat, kind: HirRelKind, target: Id)
    requires Proper(symbols) && IsCurrent(symbols, at, g, i) && OwnerId(NameMap(symbols), symbols[i]).Some?
    ensures IsCurrent(symbols, at.(edges := at.edges + 1),
              EmitGroupB(g, kind, symbols[i].elementId, target, ParentId(symbols, i), RelId(at.edges + 1)), i)
  {
    var x, relId, parent := symbols[i].elementId, RelId(at.edges + 1), ParentId(symbols, i);
    var e, h := Edge(relId, ReferenceSubsetting, x, target), WrapSlot(g, kind, x, parent);
    CurrentIsPlaced(symbols, at, g, i);
    WrapSlotKeepsInvariant(symbols, at, g, kind, i);
    CurrentIsPlaced(symbols, at, h, i);
    NextEdgeIsLeaf(symbols, at, h, i, e);
    assert ListsRightly(h, x, relId);
    EmitGroupBIsAttach(g, kind, x, target, parent, relId);
    AttachEdgeKeepsInvariant(symbols, at, h, i, e);
  }

  lemma EmitPlainKeepsCurrent(symbols: seq<HirSymbol>, at: Progress, g: Graph, i: nat, edge: RelationKind, target: Id)
    requires Proper(symbols) && IsCurrent(symbols, at, g, i)
    ensures IsCurrent(symbols, at.(edges := at.edges + 1),
              EmitPlain(g, symbols[i].elementId, edge, target, RelId(at.edges + 1)), i)
  {
    var x, relId := symbols[i].elementId, RelId(at.edges + 1);
    var e := PlainEdge(relId, edge, x, target);
    CurrentIsPlaced(symbols, at, g, i);
    NextEdgeIsLeaf(symbols, at, g, i, e);
    EmitPlainIsAttach(g, x, edge, target, relId);
    AttachEdgeKeepsInvariant(symbols, at, g, i, e);
  }

  lemma EmitToKeepsCurrent(symbols: seq<HirSymbol>, at: Progress, g: Graph, i: nat, kind: HirRelKind,
          edge: RelationKind, target: Id)
    requires Proper(symbols) && IsCurrent(symbols, at, g, i)
    ensures IsCurrent(symbols, at.(edges := at.edges + 1),
              EmitTo(g, symbols[i], OwnerId(NameMap(symbols), symbols[i]), kind, edge, target, RelId(at.edges + 1)), i)
  {
    if kind.IsGroupB() && OwnerId(NameMap(symbols), symbols[i]).Some? {
      EmitGroupBKeepsCurrent(symbols, at, g, i, kind, target);
    } else {
      EmitPlainKeepsCurrent(symbols, at, g, i, edge, target);
    }
  }

  lemma WithTargetKeepsCurrent(symbols: seq<HirSymbol>, at: Progress, g: Graph, ctx: Context, i: nat, target: string)
    requires Proper(symbols) && IsCurrent(symbols, at, g, i)
    ensures IsCurrent(symbols, at, WithTarget(g, ctx, symbols[i], target), i)
  {
    if FindTarget(ctx, symbols[i], target).None? {
      StubKeepsInvariant(symbols, at, g, target);
    }
  }

  lemma EmitTargetKeepsCurrent(symbols: seq<HirSymbol>, at: Progress, g: Graph, ctx: Context, i: nat,
                               kind: HirRelKind, edge: RelationKind, target: string)
    requires Proper(symbols) && IsCurrent(symbols, at, g, i)
    ensures IsCurrent(symbols, at.(edges := at.edges + 1),
              EmitTo(WithTarget(g, ctx, symbols[i], target), symbols[i], OwnerId(NameMap(symbols), symbols[i]), kind,
                     edge, TargetId(ctx, symbols[i], target), RelId(at.edges + 1)), i)
  {
    WithTargetKeepsCurrent(symbols, at, g, ctx, i, target);
    EmitToKeepsCurrent(symbols, at, WithTarget(g, ctx, symbols[i], target), i, kind, edge,
        TargetId(ctx, symbols[i], target));
  }

  /** The three outcomes of one relationship: nothing, a number used up, or an edge. */
  lemma EmitRelationshipOutcome(b: Build, ctx: Context, s: HirSymbol, rel: HirRelationship)
    ensures var c, edge, target := EmitRelationship(b, ctx, s, rel), EdgeKindOf(rel.kind), TargetName(s, rel);
      if edge.None? then c == b
      else if target.None? then c == b.(counter := b.counter + 1)
      else c.counter == b.counter + 1 &&
           c.g == EmitTo(WithTarget(b.g, ctx, s, target.value), s, OwnerId(ctx.names, s), rel.kind, edge.value,
                         TargetId(ctx, s, target.value), RelId(b.counter + 1))
  {
  }

  lemma EmitRelationshipKeepsCurrent(symbols: seq<HirSymbol>, scan: map<(string, string), Id>, b: Build, c: Build,
          i: nat, rel: HirRelationship)
    requires Proper(symbols) && IsCurrent(symbols, Progress(i + 1, i, b.counter), b.g, i)
    requires c == EmitRelationship(b, Context(NameMap(symbols), scan), symbols[i], rel)
    ensures IsCurrent(symbols, Progress(i + 1, i, c.counter), c.g, i)
  {
    hide BuildInvariant, Proper, EmitTo, WithTarget, TargetId, OwnerId, NameMap, EmitRelationship;
    var at, ctx, s := Progress(i + 1, i, b.counter), Context(NameMap(symbols), scan), symbols[i];
    var edge, target := EdgeKindOf(rel.kind), TargetName(s, rel);
    EmitRelationshipOutcome(b, ctx, s, rel);
    if edge.None? {
    } else if target.None? {
      ProgressKeepsInvariant(symbols, at, at.(edges := b.counter + 1), b.g);
    } else {
      EmitTargetKeepsCurrent(symbols, at, b.g, ctx, i, rel.kind, edge.value, target.value);
    }
  }

  lemma {:induction false} EmitRelationshipsKeepCurrent(symbols: seq<HirSymbol>, scan: map<(string, string), Id>,
          b: Build, i: nat, rels: seq<HirRelationship>)
    requires Proper(symbols) && IsCurrent(symbols, Progress(i + 1, i, b.counter), b.g, i)
    ensures var c := EmitRelationships(b, Context(NameMap(symbols), scan), symbols[i], rels);
      IsCurrent(symbols, Progress(i + 1, i, c.counter), c.g, i)
    decreases |rels|
  {
    if rels != [] {
      var c := EmitRelationship(b, Context(NameMap(symbols), scan), symbols[i], rels[0]);
      EmitRelationshipKeepsCurrent(symbols, scan, b, c, i, rels[0]);
      EmitRelationshipsKeepCurrent(symbols, scan, c, i, rels[1..]);
    }
  }

  lemma EmitValuesKeepInvariant(symbols: seq<HirSymbol>, at: Progress, g: Graph, i: nat, value: Literal)
    requires Proper(symbols) && IsCurrent(symbols, at, g, i)
    ensures BuildInvariant(symbols, at.(values := i + 1),
                      EmitValue(EmitValue(g, symbols[i].elementId, value), symbols[i].elementId, value))
  {
    var x, next := symbols[i].elementId, at.(values := i + 1);
    CurrentIsPlaced(symbols, at, g, i);
    ValueIdsAreFree(symbols, at, g, i);
    EmitValueKeepsInvariant(symbols, at, next, g, i, value);
    EmitValueTwice(g, x, value);
    EmitValueShape(g, x, value);
    RelistKeepsInvariant(symbols, next, EmitValue(g, x, value), x, ValueId(x));
  }

  // ---------------------------------------------------------------------------------------------
  // The whole list
  // ---------------------------------------------------------------------------------------------

  /** An element that could be the import whose turn it is. */
  ghost predicate IsNextImport(symbols: seq<HirSymbol>, at: Progress, i: nat, e: Element) {
    && i < |symbols| && at.symbols == i && symbols[i].IsImport()
    && e.id == symbols[i].elementId && e.owner == OwnerId(NameMap(symbols), symbols[i])
    && e.owned == [] && e.kind.IsRelationship()
  }

  lemma ImportIsLeaf(symbols: seq<HirSymbol>, at: Progress, g: Graph, i: nat, e: Element)
    requires Proper(symbols) && IsNextImport(symbols, at, i, e) && Ahead(symbols, at, g) && OwnersAreProper(symbols, g)
    ensures IsLeaf(symbols, g, e)
  {
    if e.owner.Some? {
      var j := OwnerIsSymbol(symbols, i);
    }
    ImportIsNoOwner(symbols, i);
  }

  lemma ImportIsNoOwner(symbols: seq<HirSymbol>, i: nat)
    requires Proper(symbols) && i < |symbols| && symbols[i].IsImport()
    ensures !IsProperOwner(symbols, symbols[i].elementId) && !IsSymbolId(symbols, symbols[i].elementId)
  {
    assert ClassOf(symbols[i].elementId) == Ordinary;
  }

  lemma InsertListedIsAttach(g: Graph, e: Element)
    requires Structured(g) && Free(g, e.id) && e.owner != Some(e.id)
    ensures InsertListed(g, e) == Attach(g, e)
  {
    if e.owner.Some? {
      assert ListsRightly(g, e.owner.value, e.id);
    }
  }

  lemma SymbolIdHasCome(symbols: seq<HirSymbol>, at: Progress, i: nat)
    requires Proper(symbols) && i < |symbols| && i < at.symbols
    ensures HasCome(symbols, at, symbols[i].elementId)
  {
    if IsAhead(symbols, at, symbols[i].elementId) {
      AheadIsGenerated(symbols, at, symbols[i].elementId);
    }
  }

  lemma InsertListedKeepsInvariant(symbols: seq<HirSymbol>, at: Progress, g: Graph, i: nat, e: Element)
    requires Proper(symbols) && BuildInvariant(symbols, at, g) && IsNextImport(symbols, at, i, e)
    ensures BuildInvariant(symbols, at.(symbols := i + 1), InsertListed(g, e))
  {
    hide Structured, Leveled, AllPlaced, ContentIsSymbol, OwnerId, HasCome, Attach, InsertListed, IsAhead;
    ImportIsLeaf(symbols, at, g, i, e);
    InsertListedIsAttach(g, e);
    SymbolIdHasCome(symbols, at.(symbols := i + 1), i);
    AttachKeepsInvariant(symbols, at, at.(symbols := i + 1), g, e);
  }

  lemma EncodeImportKeepsInvariant(symbols: seq<HirSymbol>, at: Progress, g: Graph, i: nat)
    requires Proper(symbols) && i < |symbols| && at.symbols == i && symbols[i].IsImport()
    requires BuildInvariant(symbols, at, g)
    ensures BuildInvariant(symbols, at.(symbols := i + 1),
              EncodeImport(g, symbols[i], OwnerId(NameMap(symbols), symbols[i])))
  {
    InsertListedKeepsInvariant(symbols, at, g, i, ImportElement(symbols[i], OwnerId(NameMap(symbols), symbols[i])));
  }

  lemma EncodeSymbolKeepsInvariant(symbols: seq<HirSymbol>, scan: map<(string, string), Id>, b: Build, i: nat)
    requires Proper(symbols) && i < |symbols| && BuildInvariant(symbols, Progress(i, i, b.counter), b.g)
    ensures var c := EncodeSymbol(b, Context(NameMap(symbols), scan), symbols[i]);
      BuildInvariant(symbols, Progress(i + 1, i + 1, c.counter), c.g)
  {
    var at, ctx, s := Progress(i, i, b.counter), Context(NameMap(symbols), scan), symbols[i];
    var owner := OwnerId(ctx.names, s);
    if s.IsImport() {
      EncodeImportKeepsInvariant(symbols, at, b.g, i);
      ProgressKeepsInvariant(symbols, Progress(i + 1, i, b.counter), Progress(i + 1, i + 1, b.counter),
          EncodeImport(b.g, s, owner));
    } else {
      var placed := RebuildOwned(b.g.Add(SymbolElement(s, owner)));
      PlaceSymbolKeepsInvariant(symbols, at, b.g, i);
      EmitRelationshipsKeepCurrent(symbols, scan, b.(g := placed), i, s.relationships);
      var linked := EmitRelationships(b.(g := placed), ctx, s, s.relationships);
      if s.value.Some? {
        EmitValuesKeepInvariant(symbols, Progress(i + 1, i, linked.counter), linked.g, i, s.value.value);
      } else {
        ProgressKeepsInvariant(symbols, Progress(i + 1, i, linked.counter), Progress(i + 1, i + 1, linked.counter),
            linked.g);
      }
    }
  }

  lemma EmptyIsInvariant(symbols: seq<HirSymbol>)
    ensures BuildInvariant(symbols, Progress(0, 0, 0), Graph([], map[], []))
  {
    var g := Graph([], map[], []);
    forall p, c ensures ListsRightly(g, p, c) {
    }
    assert Leveled(symbols, g, map[]);
  }

  lemma {:induction false} EncodePrefixKeepsInvariant(symbols: seq<HirSymbol>, scan: map<(string, string), Id>, n: nat)
    requires Proper(symbols) && n <= |symbols|
    ensures var b := EncodeSymbols(Context(NameMap(symbols), scan), symbols[..n]);
      BuildInvariant(symbols, Progress(n, n, b.counter), b.g)
  {
    if n == 0 {
      EmptyIsInvariant(symbols);
    } else {
      EncodePrefixKeepsInvariant(symbols, scan, n - 1);
      assert symbols[..n][..n - 1] == symbols[..n - 1] && symbols[..n][n - 1] == symbols[n - 1];
      EncodeSymbolKeepsInvariant(symbols, scan, EncodeSymbols(Context(NameMap(symbols), scan), symbols[..n - 1]),
          n - 1);
    }
  }

  /** The graph as it is before the final wrapping pass. */
  function Unwrapped(symbols: seq<HirSymbol>, scan: map<(string, string), Id>): Graph {
    EncodeSymbols(Context(NameMap(symbols), scan), symbols).g
  }

  ghost predicate Built(symbols: seq<HirSymbol>, g: Graph) {
    && Structured(g)
    && (exists rank: map<Id, nat> :: Leveled(symbols, g, rank))
    && AllPlaced(symbols, |symbols|, g)
    && ContentIsSymbol(symbols, g)
  }

  lemma UnwrappedIsBuilt(symbols: seq<HirSymbol>, scan: map<(string, string), Id>)
    requires Proper(symbols)
    ensures Built(symbols, Unwrapped(symbols, scan))
  {
    EncodePrefixKeepsInvariant(symbols, scan, |symbols|);
    assert symbols[..|symbols|] == symbols;
  }

  lemma StructuredOwnershipAgrees(g: Graph)
    requires Structured(g)
    ensures OwnershipAgrees(g)
  {
    forall c | c in g.elements && g.PresentOwner(c).Some? ensures c in g.OwnedOf(g.elements[c].owner.value) {
      assert ListsRightly(g, g.elements[c].owner.value, c);
    }
    forall p, c | p in g.elements && c in g.elements[p].owned && c in g.elements
      ensures g.elements[c].owner == Some(p)
    {
      assert ListsRightly(g, p, c);
    }
  }

  lemma BuiltIsSound(symbols: seq<HirSymbol>, g: Graph)
    requires Built(symbols, g)
    ensures Sound(g)
  {
    StructuredOwnershipAgrees(g);
    var rank: map<Id, nat> :| Leveled(symbols, g, rank);
    LeveledIsAcyclic(symbols, g, rank);
  }

  lemma FreeIsUnmentioned(g: Graph, x: Id)
    requires Structured(g) && Free(g, x)
    ensures Unmentioned(g, x)
  {
    forall p | p in g.elements ensures x !in g.elements[p].owned {
      assert ListsRightly(g, p, x);
    }
  }

  lemma BuiltWrapIdsFree(symbols: seq<HirSymbol>, g: Graph)
    requires Built(symbols, g)
    ensures WrapIdsFree(g)
  {
    forall c | NeedsWrap(g, c) ensures Unmentioned(g, WrapId(c)) {
      var i := SymbolIdIndex(symbols, c);
      assert SymbolPlaced(symbols, g, i);
      FreeIsUnmentioned(g, WrapId(c));
    }
  }

  /** The model built from any proper symbol list, in any order: keys are unique, owner pointers and owned
      lists agree, ownership is acyclic, and every owned content element sits under a relationship. */
  lemma ModelFromSymbolsIsSound(symbols: seq<HirSymbol>, scan: map<(string, string), Id>, x: Id)
    requires Proper(symbols)
    ensures Sound(ModelFromSymbols(symbols, scan))
    ensures !NeedsWrap(ModelFromSymbols(symbols, scan), x)
  {
    var g := Unwrapped(symbols, scan);
    UnwrappedIsBuilt(symbols, scan);
    BuiltIsSound(symbols, g);
    BuiltWrapIdsFree(symbols, g);
    WrapChildrenPreservesTree(g, x);
    WrapChildrenWrapsAll(g, x);
  }
}
