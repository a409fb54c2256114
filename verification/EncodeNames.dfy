/** Qualified names computed on the encoded model, and why restoring ids from the symbols changes nothing. */
module EncodeNames {
  import opened Wrappers
  import opened ElementKinds
  import opened ModelGraph
  import opened Wrapping
  import opened Recompile
  import opened Names
  import opened Integrate
  import opened GeneratedIds
  import opened EncodeSteps
  import opened EncodeSound

  /** Every content symbol is called by the last segment of its name, and its parent is in the list. */
  ghost predicate WellNamed(symbols: seq<HirSymbol>) {
    forall i :: 0 <= i < |symbols| && !symbols[i].IsImport() ==>
      var s := symbols[i];
      var split := RSplitOnce(s.qualifiedName);
      if split.None? then s.name == s.qualifiedName
      else s.name == split.value.1 && split.value.0 in NameMap(symbols)
  }

  /** In the graph before wrapping, a symbol's element computes the symbol's qualified name. */
  lemma {:induction false} BuiltQualifiedName(symbols: seq<HirSymbol>, g: Graph, i: nat)
    requires Proper(symbols) && WellNamed(symbols) && Built(symbols, g) && Acyclic(g)
    requires i < |symbols| && !symbols[i].IsImport()
    ensures symbols[i].elementId in g.elements
    ensures ComputeQualifiedName(g, symbols[i].elementId) == symbols[i].qualifiedName
    decreases |symbols[i].qualifiedName|
  {
    var s, w := symbols[i], WrapId(symbols[i].elementId);
    assert SymbolPlaced(symbols, g, i);
    SymbolElementIsContent(s.kind);
    var owner := OwnerId(NameMap(symbols), s);
    if owner.Some? {
      var j := OwnerIsSymbol(symbols, i);
      BuiltQualifiedName(symbols, g, j);
      if SlotWrapped(symbols, g, i) {
        assert ComputeQualifiedName(g, w) == ComputeQualifiedName(g, owner.value);
      }
    }
  }

  /** Every symbol's element in the finished model computes the symbol's qualified name. */
  lemma ModelQualifiedName(symbols: seq<HirSymbol>, scan: map<(string, string), Id>, i: nat)
    requires Proper(symbols) && WellNamed(symbols) && i < |symbols| && !symbols[i].IsImport()
    ensures var m := ModelFromSymbols(symbols, scan);
      && Acyclic(m) && symbols[i].elementId in m.elements
      && ComputeQualifiedName(m, symbols[i].elementId) == symbols[i].qualifiedName
  {
    var g := Unwrapped(symbols, scan);
    UnwrappedIsBuilt(symbols, scan);
    BuiltIsSound(symbols, g);
    BuiltWrapIdsFree(symbols, g);
    BuiltQualifiedName(symbols, g, i);
    WrapChildrenPreservesTree(g, symbols[i].elementId);
  }

  // ---------------------------------------------------------------------------------------------
  // Content that is no symbol's
  // ---------------------------------------------------------------------------------------------

  /** A stand-in: unowned, under a name that no symbol has. */
  predicate IsStandIn(names: map<string, Id>, e: Element) {
    e.owner.None? && e.name.Some? && e.name.value !in names
  }

  predicate HasValue(symbols: seq<HirSymbol>, i: nat) {
    i < |symbols| && !symbols[i].IsImport() && symbols[i].value.Some?
  }

  /** The literal of symbol `i`: nameless, under the feature value that the symbol's element owns. */
  ghost predicate IsLiteralOf(symbols: seq<HirSymbol>, g: Graph, i: nat, c: Id)
    requires c in g.elements
  {
    && HasValue(symbols, i) && c == LiteralId(symbols[i].elementId)
    && g.elements[c].name.None? && g.elements[c].owner == Some(ValueId(symbols[i].elementId))
    && (var v := ValueId(symbols[i].elementId);
        v in g.elements && g.elements[v].kind == Relation(FeatureValue)
            && g.elements[v].owner == Some(symbols[i].elementId))
  }

  ghost predicate IsLiteral(symbols: seq<HirSymbol>, g: Graph, c: Id)
    requires c in g.elements
  {
    exists i :: IsLiteralOf(symbols, g, i, c)
  }

  ghost predicate OnlyStandIns(symbols: seq<HirSymbol>, g: Graph) {
    forall c :: IsContentIn(g, c) && !IsSymbolId(symbols, c) ==>
      IsStandIn(NameMap(symbols), g.elements[c]) || IsLiteral(symbols, g, c)
  }

  /** Outside the symbols' elements, `h` has no content that `g` has not, and that with owner and name kept. */
  ghost predicate NoNewContent(symbols: seq<HirSymbol>, g: Graph, h: Graph) {
    forall c :: IsContentIn(h, c) && !IsSymbolId(symbols, c) ==>
      IsContentIn(g, c) && h.elements[c].owner == g.elements[c].owner && h.elements[c].name == g.elements[c].name
  }

  ghost predicate IsValueId(x: Id) {
    ClassOf(x) == ValueClass || ClassOf(x) == LiteralClass
  }

  /** Values and literals that are there stay as they are. */
  ghost predicate ValuesKept(g: Graph, h: Graph) {
    forall x :: x in g.elements && IsValueId(x) ==> KeptAt(g, h, x)
  }

  ghost predicate KeptAt(g: Graph, h: Graph, x: Id)
    requires x in g.elements
  {
    x in h.elements && h.elements[x].(owned := g.elements[x].owned) == g.elements[x]
  }

  ghost predicate CarriesOver(symbols: seq<HirSymbol>, g: Graph, h: Graph) {
    NoNewContent(symbols, g, h) && ValuesKept(g, h)
  }

  lemma CarriesOverTrans(symbols: seq<HirSymbol>, g: Graph, h: Graph, k: Graph)
    requires CarriesOver(symbols, g, h) && CarriesOver(symbols, h, k)
    ensures CarriesOver(symbols, g, k)
  {
    forall x | x in g.elements && IsValueId(x) ensures KeptAt(g, k, x) {
      assert KeptAt(g, h, x) && KeptAt(h, k, x);
    }
  }

  lemma ValueIdClasses(symbols: seq<HirSymbol>, i: nat)
    requires Proper(symbols) && i < |symbols|
    ensures IsValueId(ValueId(symbols[i].elementId)) && IsValueId(LiteralId(symbols[i].elementId))
  {
    ClassOfValue(symbols[i].elementId);
    ClassOfLiteral(symbols[i].elementId);
  }

  lemma LiteralCarriesOver(symbols: seq<HirSymbol>, g: Graph, h: Graph, i: nat, c: Id)
    requires Proper(symbols) && ValuesKept(g, h) && c in g.elements && IsLiteralOf(symbols, g, i, c)
    ensures c in h.elements && IsLiteralOf(symbols, h, i, c)
  {
    ValueIdClasses(symbols, i);
    assert KeptAt(g, h, c) && KeptAt(g, h, ValueId(symbols[i].elementId));
  }

  lemma StandInsCarryOver(symbols: seq<HirSymbol>, g: Graph, h: Graph)
    requires Proper(symbols) && OnlyStandIns(symbols, g) && CarriesOver(symbols, g, h)
    ensures OnlyStandIns(symbols, h)
  {
    forall c | IsContentIn(h, c) && !IsSymbolId(symbols, c)
      ensures IsStandIn(NameMap(symbols), h.elements[c]) || IsLiteral(symbols, h, c)
    {
      if IsLiteral(symbols, g, c) {
        var i :| IsLiteralOf(symbols, g, i, c);
        LiteralCarriesOver(symbols, g, h, i, c);
      }
    }
  }

  // ---------------------------------------------------------------------------------------------
  // What the steps carry over
  // ---------------------------------------------------------------------------------------------

  lemma EmitPlainCarriesOver(symbols: seq<HirSymbol>, g: Graph, id: Id, kind: RelationKind, target: Id, n: nat)
    ensures CarriesOver(symbols, g, EmitPlain(g, id, kind, target, RelId(n)))
  {
    var h := g.Insert(PlainEdge(RelId(n), kind, id, target));
    ClassOfRel(n);
    CarriesOverTrans(symbols, g, h, EmitPlain(g, id, kind, target, RelId(n)));
  }

  lemma WrapSlotCarriesOver(symbols: seq<HirSymbol>, g: Graph, kind: HirRelKind, slot: Id, parent: Id)
    requires Proper(symbols) && IsSymbolId(symbols, slot)
    ensures CarriesOver(symbols, g, WrapSlot(g, kind, slot, parent))
  {
    hide CarriesOver, IsSymbolId, Proper;
    var wrapped := g.Insert(SpecialWrapper(kind, slot, parent));
    var h := wrapped.SetOwner(slot, WrapId(slot));
    SymbolIdIsOrdinary(symbols, slot);
    ClassOfWrap(slot);
    CarriesOverTrans(symbols, g, wrapped, h);
    var owned := h.OwnedOf(parent);
    var after := if slot in owned then owned[IndexOf(owned, slot) := WrapId(slot)] else owned + [WrapId(slot)];
    CarriesOverTrans(symbols, g, h, h.SetOwned(parent, after));
  }

  lemma EmitGroupBCarriesOver(symbols: seq<HirSymbol>, g: Graph, kind: HirRelKind, slot: Id, target: Id, parent: Id,
          n: nat)
    requires Proper(symbols) && IsSymbolId(symbols, slot)
    ensures CarriesOver(symbols, g, EmitGroupB(g, kind, slot, target, parent, RelId(n)))
  {
    hide CarriesOver, IsSymbolId, Proper, WrapSlot;
    WrapSlotCarriesOver(symbols, g, kind, slot, parent);
    var wrapped := WrapSlot(g, kind, slot, parent);
    var h := wrapped.Insert(Edge(RelId(n), ReferenceSubsetting, slot, target));
    ClassOfRel(n);
    CarriesOverTrans(symbols, g, wrapped, h);
    CarriesOverTrans(symbols, g, h, h.SetOwned(slot, h.OwnedOf(slot) + [RelId(n)]));
  }

  lemma EmitToCarriesOver(symbols: seq<HirSymbol>, g: Graph, s: HirSymbol, owner: Option<Id>, kind: HirRelKind,
                          edge: RelationKind, target: Id, n: nat)
    requires Proper(symbols) && IsSymbolId(symbols, s.elementId)
    ensures CarriesOver(symbols, g, EmitTo(g, s, owner, kind, edge, target, RelId(n)))
  {
    hide CarriesOver, IsSymbolId, Proper;
    if kind.IsGroupB() && owner.Some? {
      EmitGroupBCarriesOver(symbols, g, kind, s.elementId, target, owner.value, n);
    } else {
      EmitPlainCarriesOver(symbols, g, s.elementId, edge, target, n);
    }
  }

  /** What a build step carries over: the stand-ins stay the only content beside symbols and literals. */
  ghost predicate KeepsContent(symbols: seq<HirSymbol>, g: Graph, h: Graph) {
    (OnlyStandIns(symbols, g) ==> OnlyStandIns(symbols, h)) && ValuesKept(g, h)
  }

  lemma CarriedIsKept(symbols: seq<HirSymbol>, g: Graph, h: Graph)
    requires Proper(symbols) && CarriesOver(symbols, g, h)
    ensures KeepsContent(symbols, g, h)
  {
    if OnlyStandIns(symbols, g) {
      StandInsCarryOver(symbols, g, h);
    }
  }

  lemma StubIsKept(symbols: seq<HirSymbol>, g: Graph, target: string)
    requires Proper(symbols) && target !in NameMap(symbols)
    ensures KeepsContent(symbols, g, WithStub(g, target))
  {
    var h := WithStub(g, target);
    ClassOfExternal(target);
    forall x | x in g.elements && IsValueId(x) ensures KeptAt(g, h, x) {
    }
    if OnlyStandIns(symbols, g) {
      forall c | IsContentIn(h, c) && !IsSymbolId(symbols, c)
        ensures IsStandIn(NameMap(symbols), h.elements[c]) || IsLiteral(symbols, h, c)
      {
        if c in g.elements && IsContentIn(g, c) && IsLiteral(symbols, g, c) {
          var i :| IsLiteralOf(symbols, g, i, c);
          LiteralCarriesOver(symbols, g, h, i, c);
        }
      }
    }
  }

  lemma WithTargetIsKept(symbols: seq<HirSymbol>, g: Graph, scan: map<(string, string), Id>, s: HirSymbol,
          target: string)
    requires Proper(symbols)
    ensures KeepsContent(symbols, g, WithTarget(g, Context(NameMap(symbols), scan), s, target))
  {
    hide OnlyStandIns, WithStub, Proper;
    if FindTarget(Context(NameMap(symbols), scan), s, target).None? {
      StubIsKept(symbols, g, target);
    }
  }

  lemma EmitRelationshipIsKept(symbols: seq<HirSymbol>, scan: map<(string, string), Id>, b: Build, s: HirSymbol,
          rel: HirRelationship)
    requires Proper(symbols) && IsSymbolId(symbols, s.elementId)
    ensures KeepsContent(symbols, b.g, EmitRelationship(b, Context(NameMap(symbols), scan), s, rel).g)
  {
    hide OnlyStandIns, Proper, IsSymbolId, CarriesOver, EmitTo, WithTarget, EmitRelationship, TargetId, NameMap,
         OwnerId;
    var ctx, edge, target := Context(NameMap(symbols), scan), EdgeKindOf(rel.kind), TargetName(s, rel);
    EmitRelationshipOutcome(b, ctx, s, rel);
    if edge.Some? && target.Some? {
      var h := WithTarget(b.g, ctx, s, target.value);
      var k := EmitTo(h, s, OwnerId(ctx.names, s), rel.kind, edge.value, TargetId(ctx, s, target.value),
          RelId(b.counter + 1));
      WithTargetIsKept(symbols, b.g, scan, s, target.value);
      EmitToCarriesOver(symbols, h, s, OwnerId(ctx.names, s), rel.kind, edge.value, TargetId(ctx, s, target.value),
          b.counter + 1);
      CarriedIsKept(symbols, h, k);
    }
  }

  lemma {:induction false} EmitRelationshipsAreKept(symbols: seq<HirSymbol>, scan: map<(string, string), Id>,
          b: Build, s: HirSymbol, rels: seq<HirRelationship>)
    requires Proper(symbols) && IsSymbolId(symbols, s.elementId)
    ensures KeepsContent(symbols, b.g, EmitRelationships(b, Context(NameMap(symbols), scan), s, rels).g)
    decreases |rels|
  {
    hide OnlyStandIns, Proper, IsSymbolId, EmitRelationship, NameMap;
    if rels != [] {
      var c := EmitRelationship(b, Context(NameMap(symbols), scan), s, rels[0]);
      EmitRelationshipIsKept(symbols, scan, b, s, rels[0]);
      EmitRelationshipsAreKept(symbols, scan, c, s, rels[1..]);
    }
  }

  lemma PlaceSymbolIsKept(symbols: seq<HirSymbol>, g: Graph, e: Element)
    requires Proper(symbols) && IsSymbolId(symbols, e.id)
    ensures KeepsContent(symbols, g, RebuildOwned(g.Add(e)))
  {
    var h := RebuildOwned(g.Add(e));
    SymbolIdIsOrdinary(symbols, e.id);
    forall x | x in g.elements && IsValueId(x) ensures KeptAt(g, h, x) {
    }
    CarriedIsKept(symbols, g, h);
  }

  lemma InsertListedIsKept(symbols: seq<HirSymbol>, g: Graph, e: Element)
    requires Proper(symbols) && e.kind.IsRelationship() && ClassOf(e.id) == Ordinary
    ensures KeepsContent(symbols, g, InsertListed(g, e))
  {
    var h := InsertListed(g, e);
    forall x | x in g.elements && IsValueId(x) ensures KeptAt(g, h, x) {
    }
    CarriedIsKept(symbols, g, h);
  }

  // ---------------------------------------------------------------------------------------------
  // Values
  // ---------------------------------------------------------------------------------------------

  lemma EmitValuePlaces(symbols: seq<HirSymbol>, g: Graph, i: nat, value: Literal)
    requires Proper(symbols) && HasValue(symbols, i)
    ensures var h, c := EmitValue(g, symbols[i].elementId, value), LiteralId(symbols[i].elementId);
      IsContentIn(h, c) && IsLiteralOf(symbols, h, i, c)
  {
    ValueIdsDiffer(symbols[i].elementId);
  }

  /** The literals of the first `n` symbols are there. */
  ghost predicate LiteralsPresent(symbols: seq<HirSymbol>, n: nat, g: Graph) {
    forall i :: 0 <= i < n && HasValue(symbols, i) ==> LiteralPresent(symbols, i, g)
  }

  ghost predicate LiteralPresent(symbols: seq<HirSymbol>, i: nat, g: Graph)
    requires i < |symbols|
  {
    IsContentIn(g, LiteralId(symbols[i].elementId)) && IsLiteralOf(symbols, g, i, LiteralId(symbols[i].elementId))
  }

  lemma LiteralsStay(symbols: seq<HirSymbol>, n: nat, g: Graph, h: Graph)
    requires Proper(symbols) && LiteralsPresent(symbols, n, g) && ValuesKept(g, h)
    ensures LiteralsPresent(symbols, n, h)
  {
    forall i | 0 <= i < n && HasValue(symbols, i) ensures LiteralPresent(symbols, i, h) {
      assert LiteralPresent(symbols, i, g);
      LiteralCarriesOver(symbols, g, h, i, LiteralId(symbols[i].elementId));
      ValueIdClasses(symbols, i);
      assert KeptAt(g, h, LiteralId(symbols[i].elementId));
    }
  }

  /** A literal beside the one that is being stored is untouched. */
  lemma OtherValueKept(symbols: seq<HirSymbol>, g: Graph, i: nat, value: Literal, k: nat, c: Id)
    requires Proper(symbols) && HasValue(symbols, i) && k != i && c in g.elements && IsLiteralOf(symbols, g, k, c)
    ensures var h := EmitValue(g, symbols[i].elementId, value);
      c in h.elements && IsLiteralOf(symbols, h, k, c) && (IsContentIn(g, c) ==> IsContentIn(h, c))
  {
    hide EmitValue, ClassOf, ValueId, LiteralId;
    var x, y := symbols[i].elementId, symbols[k].elementId;
    ValueIdsDiffer(x);
    ClassOfValue(x);
    ClassOfLiteral(x);
    ClassOfValue(y);
    ClassOfLiteral(y);
    ValueIdsApart(x, y);
    EmitValueElsewhere(g, x, value, c);
    EmitValueElsewhere(g, x, value, ValueId(y));
  }

  lemma ValueIdsApart(x: Id, y: Id)
    requires x != y
    ensures ValueId(x) != ValueId(y) && LiteralId(x) != LiteralId(y)
  {
    if ValueId(x) == ValueId(y) {
      AppendIsInjective(x, y, "-fv");
    }
    if LiteralId(x) == LiteralId(y) {
      AppendIsInjective(x, y, "-fv-lit");
    }
  }

  lemma EmitValueElsewhere(g: Graph, id: Id, value: Literal, c: Id)
    requires c in g.elements && c != LiteralId(id) && c != ValueId(id)
    ensures var h := EmitValue(g, id, value);
      c in h.elements && h.elements[c].(owned := g.elements[c].owned) == g.elements[c]
  {
  }

  lemma EmitValueKeepsStandIns(symbols: seq<HirSymbol>, g: Graph, i: nat, value: Literal)
    requires Proper(symbols) && HasValue(symbols, i) && OnlyStandIns(symbols, g)
    ensures OnlyStandIns(symbols, EmitValue(g, symbols[i].elementId, value))
  {
    hide Proper, NameMap, EmitValue;
    var x, h := symbols[i].elementId, EmitValue(g, symbols[i].elementId, value);
    forall c | IsContentIn(h, c) && !IsSymbolId(symbols, c)
      ensures IsStandIn(NameMap(symbols), h.elements[c]) || IsLiteral(symbols, h, c)
    {
      if c == LiteralId(x) {
        EmitValuePlaces(symbols, g, i, value);
      } else {
        EmitValueContent(g, x, value, c);
        if IsLiteral(symbols, g, c) {
          var k :| IsLiteralOf(symbols, g, k, c);
          OtherValueKept(symbols, g, i, value, k, c);
        }
      }
    }
  }

  lemma EmitValueContent(g: Graph, id: Id, value: Literal, c: Id)
    requires IsContentIn(EmitValue(g, id, value), c) && c != LiteralId(id)
    ensures var h := EmitValue(g, id, value);
      IsContentIn(g, c) && h.elements[c].owner == g.elements[c].owner && h.elements[c].name == g.elements[c].name
  {
  }

  lemma EmitValueKeepsLiterals(symbols: seq<HirSymbol>, n: nat, g: Graph, i: nat, value: Literal)
    requires Proper(symbols) && HasValue(symbols, i) && LiteralsPresent(symbols, n, g)
    ensures LiteralsPresent(symbols, n, EmitValue(g, symbols[i].elementId, value))
    ensures LiteralPresent(symbols, i, EmitValue(g, symbols[i].elementId, value))
  {
    hide Proper, EmitValue, IsLiteralOf;
    EmitValuePlaces(symbols, g, i, value);
    forall k | 0 <= k < n && HasValue(symbols, k)
      ensures LiteralPresent(symbols, k, EmitValue(g, symbols[i].elementId, value))
    {
      assert LiteralPresent(symbols, k, g);
      if k != i {
        OtherValueKept(symbols, g, i, value, k, LiteralId(symbols[k].elementId));
      }
    }
  }

  // ---------------------------------------------------------------------------------------------
  // The whole list
  // ---------------------------------------------------------------------------------------------

  ghost predicate ContentSoFar(symbols: seq<HirSymbol>, n: nat, g: Graph) {
    OnlyStandIns(symbols, g) && LiteralsPresent(symbols, n, g)
  }

  lemma KeptContentSoFar(symbols: seq<HirSymbol>, n: nat, g: Graph, h: Graph)
    requires Proper(symbols) && ContentSoFar(symbols, n, g) && KeepsContent(symbols, g, h)
    ensures ContentSoFar(symbols, n, h)
  {
    LiteralsStay(symbols, n, g, h);
  }

  lemma ValuesContentSoFar(symbols: seq<HirSymbol>, g: Graph, i: nat, value: Literal)
    requires Proper(symbols) && HasValue(symbols, i) && ContentSoFar(symbols, i, g)
    ensures ContentSoFar(symbols, i + 1,
              EmitValue(EmitValue(g, symbols[i].elementId, value), symbols[i].elementId, value))
  {
    hide OnlyStandIns, EmitValue, LiteralPresent;
    var once := EmitValue(g, symbols[i].elementId, value);
    EmitValueKeepsStandIns(symbols, g, i, value);
    EmitValueKeepsLiterals(symbols, i, g, i, value);
    EmitValueKeepsStandIns(symbols, once, i, value);
    EmitValueKeepsLiterals(symbols, i, once, i, value);
  }

  lemma LinkedContentSoFar(symbols: seq<HirSymbol>, scan: map<(string, string), Id>, b: Build, i: nat)
    requires Proper(symbols) && i < |symbols| && !symbols[i].IsImport() && ContentSoFar(symbols, i, b.g)
    ensures var ctx, s := Context(NameMap(symbols), scan), symbols[i];
      var placed := RebuildOwned(b.g.Add(SymbolElement(s, OwnerId(ctx.names, s))));
      ContentSoFar(symbols, i, EmitRelationships(b.(g := placed), ctx, s, s.relationships).g)
  {
    hide ContentSoFar, KeepsContent, NameMap, OwnerId, EmitRelationships, RebuildOwned;
    var ctx, s := Context(NameMap(symbols), scan), symbols[i];
    var placed := RebuildOwned(b.g.Add(SymbolElement(s, OwnerId(ctx.names, s))));
    var linked := EmitRelationships(b.(g := placed), ctx, s, s.relationships);
    assert IsSymbolId(symbols, s.elementId);
    PlaceSymbolIsKept(symbols, b.g, SymbolElement(s, OwnerId(ctx.names, s)));
    EmitRelationshipsAreKept(symbols, scan, b.(g := placed), s, s.relationships);
    KeptContentSoFar(symbols, i, b.g, placed);
    KeptContentSoFar(symbols, i, placed, linked.g);
  }

  lemma EncodeSymbolKeepsContent(symbols: seq<HirSymbol>, scan: map<(string, string), Id>, b: Build, i: nat)
    requires Proper(symbols) && i < |symbols| && ContentSoFar(symbols, i, b.g)
    ensures ContentSoFar(symbols, i + 1, EncodeSymbol(b, Context(NameMap(symbols), scan), symbols[i]).g)
  {
    hide OnlyStandIns, LiteralPresent, NameMap, OwnerId, EmitValue, EmitRelationships, KeepsContent, RebuildOwned;
    var ctx, s := Context(NameMap(symbols), scan), symbols[i];
    var owner := OwnerId(ctx.names, s);
    if s.IsImport() {
      InsertListedIsKept(symbols, b.g, ImportElement(s, owner));
      KeptContentSoFar(symbols, i, b.g, InsertListed(b.g, ImportElement(s, owner)));
    } else {
      LinkedContentSoFar(symbols, scan, b, i);
      if s.value.Some? {
        var placed := RebuildOwned(b.g.Add(SymbolElement(s, owner)));
        ValuesContentSoFar(symbols, EmitRelationships(b.(g := placed), ctx, s, s.relationships).g, i, s.value.value);
      }
    }
  }

  lemma {:induction false} PrefixContent(symbols: seq<HirSymbol>, scan: map<(string, string), Id>, n: nat)
    requires Proper(symbols) && n <= |symbols|
    ensures ContentSoFar(symbols, n, EncodeSymbols(Context(NameMap(symbols), scan), symbols[..n]).g)
  {
    hide LiteralPresent, NameMap, Proper, EncodeSymbol;
    if n > 0 {
      PrefixContent(symbols, scan, n - 1);
      assert symbols[..n][..n - 1] == symbols[..n - 1] && symbols[..n][n - 1] == symbols[n - 1];
      EncodeSymbolKeepsContent(symbols, scan, EncodeSymbols(Context(NameMap(symbols), scan), symbols[..n - 1]), n - 1);
    }
  }

  lemma UnwrappedContent(symbols: seq<HirSymbol>, scan: map<(string, string), Id>)
    requires Proper(symbols)
    ensures OnlyStandIns(symbols, Unwrapped(symbols, scan))
    ensures LiteralsPresent(symbols, |symbols|, Unwrapped(symbols, scan))
  {
    PrefixContent(symbols, scan, |symbols|);
    assert symbols[..|symbols|] == symbols;
  }

  /** Wrapping neither adds nor takes content. */
  lemma {:induction false} WrapListKeepsContent(g: Graph, items: seq<WrapItem>, c: Id)
    requires Sound(g) && AllApply(g, items)
    ensures IsContentIn(WrapList(g, items), c) <==> IsContentIn(g, c)
    decreases |items|
  {
    hide Sound, WrapOne;
    if items != [] {
      AllApplyRest(g, items);
      WrapListKeepsContent(WrapOne(g, items[0]), items[1..], c);
      WrapOneShape(g, items[0]);
    }
  }

  /** Content and names of the finished model, read off the unwrapped one. */
  lemma FinishedContent(symbols: seq<HirSymbol>, scan: map<(string, string), Id>, c: Id)
    requires Proper(symbols)
    ensures var m, g := ModelFromSymbols(symbols, scan), Unwrapped(symbols, scan);
      && Sound(m) && Sound(g) && Built(symbols, g)
      && (IsContentIn(m, c) <==> IsContentIn(g, c))
      && (IsContentIn(m, c) ==> ComputeQualifiedName(m, c) == ComputeQualifiedName(g, c))
  {
    hide Structured, ComputeQualifiedName, EncodeSymbols, WrapList, AllApply;
    var g := Unwrapped(symbols, scan);
    UnwrappedIsBuilt(symbols, scan);
    BuiltIsSound(symbols, g);
    BuiltWrapIdsFree(symbols, g);
    ItemsToWrapComplete(g, g.order);
    WrapListKeepsContent(g, ItemsToWrap(g, g.order), c);
    WrapChildrenPreservesTree(g, c);
  }

  /** The name that a literal's element computes. */
  function LiteralName(s: HirSymbol): string {
    s.qualifiedName + "::" + LiteralId(s.elementId)
  }

  lemma BuiltLiteralName(symbols: seq<HirSymbol>, g: Graph, i: nat, c: Id)
    requires Proper(symbols) && WellNamed(symbols) && Built(symbols, g) && Acyclic(g)
    requires IsContentIn(g, c) && IsLiteralOf(symbols, g, i, c)
    ensures ComputeQualifiedName(g, c) == LiteralName(symbols[i])
  {
    hide Proper, WellNamed, Built, Acyclic;
    BuiltQualifiedName(symbols, g, i);
    assert ComputeQualifiedName(g, ValueId(symbols[i].elementId)) == symbols[i].qualifiedName;
  }

  /** No symbol is called what a literal's element computes as its name. */
  ghost predicate LiteralNamesUnused(symbols: seq<HirSymbol>) {
    forall i: nat :: HasValue(symbols, i) ==> LiteralName(symbols[i]) !in NameMap(symbols)
  }

  lemma ModelNamesAreRecorded(symbols: seq<HirSymbol>, scan: map<(string, string), Id>, c: Id)
    requires Proper(symbols) && WellNamed(symbols) && LiteralNamesUnused(symbols)
    requires Acyclic(ModelFromSymbols(symbols, scan)) && IsContentIn(ModelFromSymbols(symbols, scan), c)
    ensures var q := ComputeQualifiedName(ModelFromSymbols(symbols, scan), c);
      q in NameMap(symbols) ==> NameMap(symbols)[q] == c
  {
    hide WellNamed, Built, NameMap, ModelFromSymbols, Unwrapped;
    if IsSymbolId(symbols, c) {
      var i := SymbolIdIndex(symbols, c);
      ModelQualifiedName(symbols, scan, i);
      NameMapAt(symbols, i);
    } else {
      var g := Unwrapped(symbols, scan);
      FinishedContent(symbols, scan, c);
      UnwrappedContent(symbols, scan);
      if IsLiteral(symbols, g, c) {
        var i :| IsLiteralOf(symbols, g, i, c);
        BuiltLiteralName(symbols, g, i, c);
      }
    }
  }

  /** An id that is renamed away, and that nothing is renamed to, is gone. */
  lemma RenamedAway(m: map<Id, Id>, g: Graph, c: Id)
    requires WellKeyed(g) && c in m && forall x :: x in m ==> m[x] != c
    ensures c !in ApplyMapping(m, g).elements
  {
    if c in ApplyMapping(m, g).elements {
      var i := RenamedKeysPreimage(m, g, |g.order|, c);
    }
  }

  lemma LiteralIsRenamed(symbols: seq<HirSymbol>, scan: map<(string, string), Id>, i: nat)
    requires Proper(symbols) && WellNamed(symbols) && HasValue(symbols, i)
    requires LiteralName(symbols[i]) in NameMap(symbols)
    requires Acyclic(ModelFromSymbols(symbols, scan))
    ensures RestoreIds(ModelFromSymbols(symbols, scan), NameMap(symbols)) != ModelFromSymbols(symbols, scan)
  {
    hide WellNamed, Built, NameMap, ModelFromSymbols, Unwrapped, ApplyMapping;
    var m, g, c, names :=
        ModelFromSymbols(symbols, scan), Unwrapped(symbols, scan), LiteralId(symbols[i].elementId), NameMap(symbols);
    UnwrappedContent(symbols, scan);
    assert LiteralPresent(symbols, i, g);
    FinishedContent(symbols, scan, c);
    BuiltLiteralName(symbols, g, i, c);
    var mapping := IdMapping(m, names);
    IdMappingAt(m, names, c);
    forall x | x in mapping ensures mapping[x] != c {
      IdMappingAt(m, names, x);
      var j := NameMapKeys(symbols, ComputeQualifiedName(m, x));
      ClassOfLiteral(symbols[i].elementId);
    }
    RenamedAway(mapping, m, c);
  }

  /** For well-named symbols in any order, restoring ids from the symbols leaves the encoded model as it is,
      exactly when no symbol has the name that the element of another symbol's literal computes. */
  lemma RestoreFromSymbolsIsIdentity(symbols: seq<HirSymbol>, scan: map<(string, string), Id>)
    requires Proper(symbols) && WellNamed(symbols)
    ensures var m := ModelFromSymbols(symbols, scan);
      Acyclic(m) && (RestoreIds(m, NameMap(symbols)) == m <==> LiteralNamesUnused(symbols))
  {
    hide Proper, WellNamed, NameMap, ModelFromSymbols;
    var m := ModelFromSymbols(symbols, scan);
    ModelFromSymbolsIsSound(symbols, scan, "");
    if LiteralNamesUnused(symbols) {
      forall c | IsContentIn(m, c) && ComputeQualifiedName(m, c) in NameMap(symbols)
        ensures NameMap(symbols)[ComputeQualifiedName(m, c)] == c
      {
        ModelNamesAreRecorded(symbols, scan, c);
      }
      RestoreIsIdentity(m, NameMap(symbols));
    } else {
      var i: nat :| HasValue(symbols, i) && LiteralName(symbols[i]) in NameMap(symbols);
      LiteralIsRenamed(symbols, scan, i);
    }
  }

  /** A symbol with a literal value, and below it a symbol that is called like the literal's id. */
  function ClashingNames(): seq<HirSymbol> {
    [HirSymbol("A", "A", "a", SymUsage(SymAttributeUsage), [], [], None, Some(Literal(LiteralInteger, Text("1")))),
     HirSymbol("a-fv-lit", "A::a-fv-lit", "b", SymUsage(SymAttributeUsage), [], [], None, None)]
  }

  lemma ClashingSegments()
    ensures RSplitOnce("A") == None && RSplitOnce("A::a-fv-lit") == Some(("A", "a-fv-lit"))
  {
    var s := "A::a-fv-lit";
    assert LastSeparator("A") == None;
    assert SeparatorAt(s, 1) && forall k :: 2 <= k < |s| ==> s[k] != ':' || k == 2;
    assert s[..1] == "A" && s[3..] == "a-fv-lit";
    var k := LastSeparator(s);
    assert k == Some(1);
  }

  lemma ClashingNameMap(symbols: seq<HirSymbol>)
    requires symbols == ClashingNames()
    ensures NameMap(symbols) == map["A" := "a", "A::a-fv-lit" := "b"]
  {
    assert symbols[..1] == [symbols[0]] && symbols[..1][..0] == [];
  }

  lemma ClashingAreProper(symbols: seq<HirSymbol>)
    requires symbols == ClashingNames()
    ensures Proper(symbols) && WellNamed(symbols)
  {
    hide RSplitOnce, NameMap;
    ClashingSegments();
    ClashingNameMap(symbols);
    assert ClassOf("a") == Ordinary && ClassOf("b") == Ordinary;
  }

  /** Restoring ids from these symbols takes the literal's element for the second symbol. */
  lemma ClashingNameIsRenamed(symbols: seq<HirSymbol>, scan: map<(string, string), Id>)
    requires symbols == ClashingNames()
    ensures Proper(symbols) && WellNamed(symbols)
    ensures var m := ModelFromSymbols(symbols, scan); Acyclic(m) && RestoreIds(m, NameMap(symbols)) != m
  {
    hide Proper, WellNamed, NameMap, ModelFromSymbols, RestoreIds;
    ClashingAreProper(symbols);
    ClashingNameMap(symbols);
    assert LiteralName(symbols[0]) == "A::a-fv-lit";
    assert HasValue(symbols, 0);
    RestoreFromSymbolsIsIdentity(symbols, scan);
  }
}
