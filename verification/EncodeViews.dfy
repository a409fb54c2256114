/** The encoded model as decoding sees it: which edges each symbol has, and what its wrapper says. */
module EncodeViews {
  import opened Wrappers
  import opened ElementKinds
  import opened ModelGraph
  import opened Wrapping
  import opened Names
  import opened Integrate
  import opened GeneratedIds
  import opened EncodeSteps
  import opened EncodeSound

  // ---------------------------------------------------------------------------------------------
  // What decoding sees of a graph
  // ---------------------------------------------------------------------------------------------

  /** An edge without the parts that decoding ignores. */
  function EdgeView(e: Element): Element {
    e.(id := "", owner := None, owned := [])
  }

  predicate IsEdgeFrom(e: Element, x: Id) {
    e.relationship.Some? && x in e.relationship.value.source
  }

  /** The edges with `x` among their sources, in key order, as views. */
  function ViewsFrom(g: Graph, ids: seq<Id>, x: Id): seq<Element> {
    if ids == [] then []
    else
      (if ids[0] in g.elements && IsEdgeFrom(g.elements[ids[0]], x) then [EdgeView(g.elements[ids[0]])] else [])
      + ViewsFrom(g, ids[1..], x)
  }

  /** `h` continues `g` by the keys `extra`: earlier elements keep their edges and their nature. */
  ghost predicate Continues(g: Graph, h: Graph, extra: seq<Id>) {
    && h.order == g.order + extra
    && (forall id :: id in g.order ==> SameSight(g, h, id))
  }

  ghost predicate SameSight(g: Graph, h: Graph, id: Id) {
    && id in g.elements && id in h.elements
    && (IsContentIn(g, id) <==> IsContentIn(h, id))
    && g.elements[id].relationship == h.elements[id].relationship
    && (g.elements[id].relationship.Some? ==> EdgeView(g.elements[id]) == EdgeView(h.elements[id]))
  }

  lemma {:induction false} ViewsConcat(g: Graph, a: seq<Id>, b: seq<Id>, x: Id)
    ensures ViewsFrom(g, a + b, x) == ViewsFrom(g, a, x) + ViewsFrom(g, b, x)
  {
    if a == [] {
      assert a + b == b;
    } else {
      assert (a + b)[0] == a[0] && (a + b)[1..] == a[1..] + b;
      ViewsConcat(g, a[1..], b, x);
    }
  }

  lemma {:induction false} SameSightViews(g: Graph, h: Graph, ids: seq<Id>, x: Id)
    requires forall id :: id in ids ==> SameSight(g, h, id)
    ensures ViewsFrom(g, ids, x) == ViewsFrom(h, ids, x) && ContentOf(g, ids) == ContentOf(h, ids)
  {
    if ids != [] {
      assert SameSight(g, h, ids[0]);
      SameSightViews(g, h, ids[1..], x);
    }
  }

  lemma ContinuesViews(g: Graph, h: Graph, extra: seq<Id>, x: Id)
    requires Continues(g, h, extra)
    ensures ViewsFrom(h, h.order, x) == ViewsFrom(g, g.order, x) + ViewsFrom(h, extra, x)
    ensures ContentOf(h, h.order) == ContentOf(g, g.order) + ContentOf(h, extra)
  {
    SameSightViews(g, h, g.order, x);
    ViewsConcat(h, g.order, extra, x);
    ContentOfConcat(h, g.order, extra);
  }

  /** What the wrapper around a slot says, when the slot sits in its own wrapper. */
  function SlotMark(g: Graph, x: Id): Option<(ElementKind, map<string, PropertyValue>)> {
    var w := WrapId(x);
    if x in g.elements && g.elements[x].owner == Some(w) && w in g.elements
    then Some((g.elements[w].kind, g.elements[w].properties)) else None
  }

  // ---------------------------------------------------------------------------------------------
  // Encoding a resolved relationship
  // ---------------------------------------------------------------------------------------------

  /** Symbols without imports and values whose relationships all have targets in the list. */
  ghost predicate Resolved(symbols: seq<HirSymbol>) {
    forall i :: 0 <= i < |symbols| ==>
      !symbols[i].IsImport() && symbols[i].value.None? && AllResolved(NameMap(symbols), symbols[i].relationships)
  }

  ghost predicate AllResolved(names: map<string, Id>, rels: seq<HirRelationship>) {
    forall k :: 0 <= k < |rels| && rels[k].kind != References ==>
      rels[k].resolvedTarget.Some? && rels[k].resolvedTarget.value in names
  }

  /** The views of the edges that a list of relationships turns into. */
  function EncodedViews(names: map<string, Id>, s: HirSymbol, rels: seq<HirRelationship>): seq<Element>
    requires AllResolved(names, rels)
  {
    if rels == [] then []
    else
      assert AllResolved(names, rels[1..]) by {
        assert forall k :: 0 <= k < |rels[1..]| ==> rels[1..][k] == rels[k + 1];
      }
      (if rels[0].kind == References then [] else [EncodedView(names, s, rels[0])]) + EncodedViews(names, s, rels[1..])
  }

  ghost predicate IsResolved(names: map<string, Id>, rel: HirRelationship) {
    rel.kind != References && rel.resolvedTarget.Some? && rel.resolvedTarget.value in names
  }

  function EncodedView(names: map<string, Id>, s: HirSymbol, rel: HirRelationship): Element
    requires IsResolved(names, rel)
  {
    var target := names[rel.resolvedTarget.value];
    EdgeView(if rel.kind.IsGroupB() && OwnerId(names, s).Some? then Edge("", ReferenceSubsetting, s.elementId, target)
             else PlainEdge("", EdgeKindOf(rel.kind).value, s.elementId, target))
  }

  lemma AttachMarks(g: Graph, e: Element, x: Id)
    requires WellKeyed(g) && Free(g, e.id) && e.owner != Some(e.id) && e.id != x && e.id != WrapId(x)
    ensures SlotMark(Attach(g, e), x) == SlotMark(g, x)
  {
    AttachShape(g, e);
  }

  /** An attached edge adds one view at its source and nothing elsewhere. */
  lemma AttachViews(g: Graph, e: Element, source: Id, target: Id, x: Id)
    requires WellKeyed(g) && Free(g, e.id) && e.owner != Some(e.id) && e.kind.IsRelationship()
    requires e.relationship == Some(RelationshipData([source], [target]))
    ensures var h := Attach(g, e);
      && ViewsFrom(h, h.order, x) == ViewsFrom(g, g.order, x) + (if x == source then [EdgeView(e)] else [])
      && ContentOf(h, h.order) == ContentOf(g, g.order)
  {
    var h := Attach(g, e);
    AttachShape(g, e);
    ContinuesViews(g, h, [e.id], x);
    assert ViewsFrom(h, [e.id], x) == (if x == source then [EdgeView(e)] else []) + ViewsFrom(h, [], x);
    assert ContentOf(h, [e.id]) == [] + ContentOf(h, []);
  }

  /** The id of a slot's wrapper is unused or holds a wrapper, which is no edge. */
  ghost predicate WrapperIdUsable(g: Graph, w: Id) {
    w in g.elements ==> g.elements[w].kind.Relation? && g.elements[w].relationship.None?
  }

  lemma WrapSlotContinues(g: Graph, kind: HirRelKind, slot: Id, parent: Id)
    requires WellKeyed(g) && slot in g.elements && slot != parent && parent != WrapId(slot) && slot != WrapId(slot)
    requires WrapperIdUsable(g, WrapId(slot))
    ensures Continues(g, WrapSlot(g, kind, slot, parent), if WrapId(slot) in g.elements then [] else [WrapId(slot)])
  {
    WrapSlotShape(g, kind, slot, parent);
    assert g.order + [] == g.order;
    forall id | id in g.order ensures SameSight(g, WrapSlot(g, kind, slot, parent), id) {
    }
  }

  lemma WrapSlotViews(g: Graph, kind: HirRelKind, slot: Id, parent: Id, x: Id)
    requires WellKeyed(g) && slot in g.elements && slot != parent && parent != WrapId(slot) && slot != WrapId(slot)
    requires WrapperIdUsable(g, WrapId(slot))
    ensures var h := WrapSlot(g, kind, slot, parent);
      && ViewsFrom(h, h.order, x) == ViewsFrom(g, g.order, x)
      && ContentOf(h, h.order) == ContentOf(g, g.order)
  {
    var h, w := WrapSlot(g, kind, slot, parent), WrapId(slot);
    WrapSlotContinues(g, kind, slot, parent);
    ContinuesViews(g, h, if w in g.elements then [] else [w], x);
    WrapSlotShape(g, kind, slot, parent);
    assert ViewsFrom(h, [w], x) == [] + ViewsFrom(h, [], x);
    assert ContentOf(h, [w]) == [] + ContentOf(h, []);
  }

  lemma WrapSlotMarks(g: Graph, kind: HirRelKind, slot: Id, parent: Id, x: Id)
    requires slot in g.elements && slot != parent && parent != WrapId(slot) && slot != WrapId(slot)
    requires x != slot ==> x != WrapId(slot) && WrapId(x) != WrapId(slot) && WrapId(x) != slot
    ensures var h := WrapSlot(g, kind, slot, parent);
      SlotMark(h, x) ==
        if x == slot then Some((SpecialWrapper(kind, slot, parent).kind, SpecialWrapper(kind, slot, parent).properties))
                        else SlotMark(g, x)
  {
    WrapSlotShape(g, kind, slot, parent);
  }

  // ---------------------------------------------------------------------------------------------
  // The build, as decoding will see it
  // ---------------------------------------------------------------------------------------------

  /** One step of encoding symbol `i`: the edges it adds there, the mark it leaves there, nothing elsewhere. */
  ghost predicate StepSight(symbols: seq<HirSymbol>, i: nat, g: Graph, h: Graph, added: seq<Element>,
                            mark: Option<(ElementKind, map<string, PropertyValue>)>)
    requires i < |symbols|
  {
    && ContentOf(h, h.order) == ContentOf(g, g.order)
    && (forall j :: 0 <= j < |symbols| ==> SightAt(symbols, i, g, h, added, mark, j))
  }

  ghost predicate SightAt(symbols: seq<HirSymbol>, i: nat, g: Graph, h: Graph, added: seq<Element>,
                          mark: Option<(ElementKind, map<string, PropertyValue>)>, j: nat)
    requires i < |symbols| && j < |symbols|
  {
    var x := symbols[j].elementId;
    && ViewsFrom(h, h.order, x) == ViewsFrom(g, g.order, x) + (if j == i then added else [])
    && SlotMark(h, x) == (if j == i && mark.Some? then mark else SlotMark(g, x))
  }

  lemma StepsCompose(symbols: seq<HirSymbol>, i: nat, g: Graph, h: Graph, k: Graph, added: seq<Element>,
          more: seq<Element>,
                     mark: Option<(ElementKind, map<string, PropertyValue>)>,
                     next: Option<(ElementKind, map<string, PropertyValue>)>)
    requires i < |symbols| && StepSight(symbols, i, g, h, added, mark) && StepSight(symbols, i, h, k, more, next)
    ensures StepSight(symbols, i, g, k, added + more, if next.Some? then next else mark)
  {
    var last, all := if next.Some? then next else mark, added + more;
    forall j | 0 <= j < |symbols| ensures SightAt(symbols, i, g, k, all, last, j) {
      assert SightAt(symbols, i, g, h, added, mark, j) && SightAt(symbols, i, h, k, more, next, j);
    }
  }

  lemma AttachStep(symbols: seq<HirSymbol>, g: Graph, i: nat, e: Element, target: Id)
    requires Proper(symbols) && i < |symbols| && WellKeyed(g)
    requires Free(g, e.id) && ClassOf(e.id) == RelClass && e.kind.IsRelationship()
    requires e.owner == Some(symbols[i].elementId)
    requires e.relationship == Some(RelationshipData([symbols[i].elementId], [target]))
    ensures StepSight(symbols, i, g, Attach(g, e), [EdgeView(e)], None)
  {
    AttachViews(g, e, symbols[i].elementId, target, symbols[i].elementId);
    forall j | 0 <= j < |symbols| ensures SightAt(symbols, i, g, Attach(g, e), [EdgeView(e)], None, j) {
      var x := symbols[j].elementId;
      ClassOfWrap(x);
      AttachViews(g, e, symbols[i].elementId, target, x);
      AttachMarks(g, e, x);
    }
  }

  /** The mark that a wrapper for `kind` leaves. */
  function MarkOf(kind: HirRelKind): (ElementKind, map<string, PropertyValue>) {
    (SpecialWrapper(kind, "", "").kind, SpecialWrapper(kind, "", "").properties)
  }

  lemma WrapSlotStepAt(symbols: seq<HirSymbol>, g: Graph, i: nat, kind: HirRelKind, j: nat)
    requires Proper(symbols) && WellKeyed(g) && CanWrapSlot(symbols, g, i) && j < |symbols|
    requires WrapperIdUsable(g, WrapId(symbols[i].elementId))
    ensures SightAt(symbols, i, g, WrapSlot(g, kind, symbols[i].elementId, ParentId(symbols, i)), [],
              Some(MarkOf(kind)), j)
  {
    var x, y, p := symbols[i].elementId, symbols[j].elementId, ParentId(symbols, i);
    var k := SlotIdsDiffer(symbols, i);
    ClassOfWrap(y);
    if j != i && WrapId(y) == WrapId(x) {
      AppendIsInjective(y, x, "-m");
    }
    WrapSlotViews(g, kind, x, p, y);
    WrapSlotMarks(g, kind, x, p, y);
  }

  lemma WrapSlotStep(symbols: seq<HirSymbol>, g: Graph, i: nat, kind: HirRelKind)
    requires Proper(symbols) && WellKeyed(g) && CanWrapSlot(symbols, g, i)
    requires WrapperIdUsable(g, WrapId(symbols[i].elementId))
    ensures StepSight(symbols, i, g, WrapSlot(g, kind, symbols[i].elementId, ParentId(symbols, i)), [],
              Some(MarkOf(kind)))
  {
    var k := SlotIdsDiffer(symbols, i);
    WrapSlotViews(g, kind, symbols[i].elementId, ParentId(symbols, i), "");
    forall j | 0 <= j < |symbols|
      ensures SightAt(symbols, i, g, WrapSlot(g, kind, symbols[i].elementId, ParentId(symbols, i)), [],
                Some(MarkOf(kind)), j)
    {
      WrapSlotStepAt(symbols, g, i, kind, j);
    }
  }

  /** The wrapper id of the current symbol is unused, or used by its wrapper and nothing else. */
  ghost predicate SlotIsUsable(symbols: seq<HirSymbol>, g: Graph, i: nat)
    requires i < |symbols|
  {
    WrapperIdUsable(g, WrapId(symbols[i].elementId))
  }

  /** The last keyword that wraps the slot. */
  function LastGroupB(rels: seq<HirRelationship>): Option<HirRelKind> {
    if rels == [] then None
    else
      var later := LastGroupB(rels[1..]);
      if later.Some? then later else if rels[0].kind.IsGroupB() then Some(rels[0].kind) else None
  }

  function MarkAfter(names: map<string, Id>, s: HirSymbol,
          rels: seq<HirRelationship>): Option<(ElementKind, map<string, PropertyValue>)> {
    if OwnerId(names, s).Some? && LastGroupB(rels).Some? then Some(MarkOf(LastGroupB(rels).value)) else None
  }

  /** Wrapping the slot keeps the build going, and the edge is then attached to the wrapped slot. */
  lemma EmitGroupBSplits(symbols: seq<HirSymbol>, at: Progress, g: Graph, i: nat, kind: HirRelKind, target: Id)
    requires Proper(symbols) && IsCurrent(symbols, at, g, i) && OwnerId(NameMap(symbols), symbols[i]).Some?
    ensures var x, p, relId := symbols[i].elementId, ParentId(symbols, i), RelId(at.edges + 1);
      var h, e := WrapSlot(g, kind, x, p), Edge(relId, ReferenceSubsetting, x, target);
      && CanWrapSlot(symbols, g, i) && WellKeyed(g)
      && WellKeyed(h) && Free(h, relId) && relId != x && ClassOf(relId) == RelClass
      && EmitGroupB(g, kind, x, target, p, relId) == Attach(h, e)
  {
    var x, p, relId := symbols[i].elementId, ParentId(symbols, i), RelId(at.edges + 1);
    var h, e := WrapSlot(g, kind, x, p), Edge(relId, ReferenceSubsetting, x, target);
    CurrentIsPlaced(symbols, at, g, i);
    WrapSlotKeepsInvariant(symbols, at, g, kind, i);
    CurrentIsPlaced(symbols, at, h, i);
    NextEdgeIsLeaf(symbols, at, h, i, e);
    assert ListsRightly(h, x, relId);
    EmitGroupBIsAttach(g, kind, x, target, p, relId);
    ClassOfRel(at.edges + 1);
  }

  lemma WrapThenAttachStep(symbols: seq<HirSymbol>, g: Graph, h: Graph, i: nat, kind: HirRelKind, e: Element,
          target: Id)
    requires Proper(symbols) && WellKeyed(g) && CanWrapSlot(symbols, g, i) && SlotIsUsable(symbols, g, i)
    requires h == WrapSlot(g, kind, symbols[i].elementId, ParentId(symbols, i)) && WellKeyed(h)
    requires Free(h, e.id) && ClassOf(e.id) == RelClass
    requires e == Edge(e.id, ReferenceSubsetting, symbols[i].elementId, target)
    ensures StepSight(symbols, i, g, Attach(h, e), [EdgeView(e)], Some(MarkOf(kind)))
  {
    WrapSlotStep(symbols, g, i, kind);
    AttachStep(symbols, h, i, e, target);
    StepsCompose(symbols, i, g, h, Attach(h, e), [], [EdgeView(e)], Some(MarkOf(kind)), None);
    assert [] + [EdgeView(e)] == [EdgeView(e)];
  }

  lemma EmitGroupBStep(symbols: seq<HirSymbol>, at: Progress, g: Graph, i: nat, kind: HirRelKind, target: Id)
    requires Proper(symbols) && IsCurrent(symbols, at, g, i) && OwnerId(NameMap(symbols), symbols[i]).Some?
    requires SlotIsUsable(symbols, g, i)
    ensures var x := symbols[i].elementId;
      var h := EmitGroupB(g, kind, x, target, ParentId(symbols, i), RelId(at.edges + 1));
      && StepSight(symbols, i, g, h, [EdgeView(Edge("", ReferenceSubsetting, x, target))], Some(MarkOf(kind)))
      && SlotIsUsable(symbols, h, i)
  {
    var x := symbols[i].elementId;
    var e, h := Edge(RelId(at.edges + 1), ReferenceSubsetting, x, target), WrapSlot(g, kind, x, ParentId(symbols, i));
    EmitGroupBSplits(symbols, at, g, i, kind, target);
    WrapThenAttachStep(symbols, g, h, i, kind, e, target);
    assert EdgeView(e) == EdgeView(Edge("", ReferenceSubsetting, x, target));
    UsableAfterAttach(symbols, g, kind, i, e);
  }

  lemma UsableAfterAttach(symbols: seq<HirSymbol>, g: Graph, kind: HirRelKind, i: nat, e: Element)
    requires Proper(symbols) && CanWrapSlot(symbols, g, i)
    requires Free(WrapSlot(g, kind, symbols[i].elementId, ParentId(symbols, i)), e.id) && e.owner != Some(e.id)
    ensures SlotIsUsable(symbols, Attach(WrapSlot(g, kind, symbols[i].elementId, ParentId(symbols, i)), e), i)
  {
    var k := SlotIdsDiffer(symbols, i);
    WrapSlotShape(g, kind, symbols[i].elementId, ParentId(symbols, i));
    AttachShape(WrapSlot(g, kind, symbols[i].elementId, ParentId(symbols, i)), e);
  }

  lemma EmitPlainStep(symbols: seq<HirSymbol>, at: Progress, g: Graph, i: nat, edge: RelationKind, target: Id)
    requires Proper(symbols) && IsCurrent(symbols, at, g, i) && SlotIsUsable(symbols, g, i)
    ensures var x := symbols[i].elementId;
      var h := EmitPlain(g, x, edge, target, RelId(at.edges + 1));
      && StepSight(symbols, i, g, h, [EdgeView(PlainEdge("", edge, x, target))], None)
      && SlotIsUsable(symbols, h, i)
  {
    var x, relId := symbols[i].elementId, RelId(at.edges + 1);
    var e := PlainEdge(relId, edge, x, target);
    CurrentIsPlaced(symbols, at, g, i);
    NextEdgeIsLeaf(symbols, at, g, i, e);
    EmitPlainIsAttach(g, x, edge, target, relId);
    ClassOfRel(at.edges + 1);
    AttachStep(symbols, g, i, e, target);
    assert EdgeView(e) == EdgeView(PlainEdge("", edge, x, target));
    ClassOfWrap(x);
    ClassOfRel(at.edges + 1);
    AttachShape(g, e);
  }

  /** The graph with the edge of a resolved relationship. */
  function EmitResolved(g: Graph, names: map<string, Id>, s: HirSymbol, rel: HirRelationship, relId: Id): Graph
    requires IsResolved(names, rel)
  {
    EmitTo(g, s, OwnerId(names, s), rel.kind, EdgeKindOf(rel.kind).value, names[rel.resolvedTarget.value], relId)
  }

  /** The edge view that one relationship adds. */
  lemma EmitToStep(symbols: seq<HirSymbol>, at: Progress, g: Graph, i: nat, rel: HirRelationship)
    requires Proper(symbols) && IsCurrent(symbols, at, g, i) && SlotIsUsable(symbols, g, i)
    requires IsResolved(NameMap(symbols), rel)
    ensures var h := EmitResolved(g, NameMap(symbols), symbols[i], rel, RelId(at.edges + 1));
      && StepSight(symbols, i, g, h, [EncodedView(NameMap(symbols), symbols[i], rel)],
            MarkAfter(NameMap(symbols), symbols[i], [rel]))
      && SlotIsUsable(symbols, h, i)
  {
    hide StepSight, SlotIsUsable, Proper;
    var names, s := NameMap(symbols), symbols[i];
    var target := names[rel.resolvedTarget.value];
    assert LastGroupB([rel]) == if rel.kind.IsGroupB() then Some(rel.kind) else None by {
      assert LastGroupB([rel][1..]) == None;
    }
    if rel.kind.IsGroupB() && OwnerId(names, s).Some? {
      EmitGroupBStep(symbols, at, g, i, rel.kind, target);
    } else {
      EmitPlainStep(symbols, at, g, i, EdgeKindOf(rel.kind).value, target);
    }
  }

  /** What encoding a relationship with a resolved target comes to. */
  ghost predicate EncodesTo(names: map<string, Id>, b: Build, c: Build, s: HirSymbol, rel: HirRelationship)
    requires AllResolved(names, [rel])
  {
    assert [rel][0] == rel;
    if rel.kind == References then c == b
    else
      && c.counter == b.counter + 1
      && c.g == EmitResolved(b.g, names, s, rel, RelId(b.counter + 1))
  }

  lemma ResolvedOutcome(names: map<string, Id>, scan: map<(string, string), Id>, b: Build, s: HirSymbol,
          rel: HirRelationship)
    requires AllResolved(names, [rel])
    ensures EncodesTo(names, b, EmitRelationship(b, Context(names, scan), s, rel), s, rel)
  {
    assert [rel][0] == rel;
    EmitRelationshipOutcome(b, Context(names, scan), s, rel);
  }

  lemma NothingStep(symbols: seq<HirSymbol>, i: nat, g: Graph)
    requires i < |symbols|
    ensures StepSight(symbols, i, g, g, [], None)
  {
    forall j | 0 <= j < |symbols| ensures SightAt(symbols, i, g, g, [], None, j) {
      assert ViewsFrom(g, g.order, symbols[j].elementId) + [] == ViewsFrom(g, g.order, symbols[j].elementId);
    }
  }

  lemma SingleViews(names: map<string, Id>, s: HirSymbol, rel: HirRelationship)
    requires AllResolved(names, [rel])
    ensures rel.kind != References ==> IsResolved(names, rel)
    ensures EncodedViews(names, s, [rel]) == if rel.kind == References then [] else [EncodedView(names, s, rel)]
    ensures rel.kind == References ==> MarkAfter(names, s, [rel]) == None
  {
    assert [rel][0] == rel && [rel][1..] == [];
    assert EncodedViews(names, s, []) == [];
    assert LastGroupB([]) == None;
  }

  lemma EmitRelationshipStep(symbols: seq<HirSymbol>, b: Build, c: Build, i: nat, rel: HirRelationship)
    requires i < |symbols| && Proper(symbols) && IsCurrent(symbols, Progress(i + 1, i, b.counter), b.g, i)
    requires SlotIsUsable(symbols, b.g, i)
    requires AllResolved(NameMap(symbols), [rel]) && EncodesTo(NameMap(symbols), b, c, symbols[i], rel)
    ensures StepSight(symbols, i, b.g, c.g, EncodedViews(NameMap(symbols), symbols[i], [rel]),
              MarkAfter(NameMap(symbols), symbols[i], [rel]))
    ensures SlotIsUsable(symbols, c.g, i)
  {
    hide StepSight, IsCurrent, SlotIsUsable, Proper, EncodedViews, EncodedView, MarkAfter, EmitResolved;
    SingleViews(NameMap(symbols), symbols[i], rel);
    if rel.kind == References {
      NothingStep(symbols, i, b.g);
    } else {
      EmitToStep(symbols, Progress(i + 1, i, b.counter), b.g, i, rel);
    }
  }

  lemma {:induction false} EmitRelationshipsStep(symbols: seq<HirSymbol>, scan: map<(string, string), Id>, b: Build,
          c: Build, i: nat, rels: seq<HirRelationship>)
    requires Proper(symbols) && IsCurrent(symbols, Progress(i + 1, i, b.counter), b.g, i)
    requires SlotIsUsable(symbols, b.g, i)
    requires AllResolved(NameMap(symbols), rels)
    requires c == EmitRelationships(b, Context(NameMap(symbols), scan), symbols[i], rels)
    ensures StepSight(symbols, i, b.g, c.g, EncodedViews(NameMap(symbols), symbols[i], rels),
              MarkAfter(NameMap(symbols), symbols[i], rels))
    decreases |rels|
  {
    var names, s := NameMap(symbols), symbols[i];
    if rels == [] {
      NothingStep(symbols, i, b.g);
    } else {
      var next := EmitRelationship(b, Context(names, scan), s, rels[0]);
      FirstResolved(names, s, rels);
      ResolvedOutcome(names, scan, b, s, rels[0]);
      EmitRelationshipStep(symbols, b, next, i, rels[0]);
      EmitRelationshipKeepsCurrent(symbols, scan, b, next, i, rels[0]);
      EmitRelationshipsStep(symbols, scan, next, c, i, rels[1..]);
      StepsCompose(symbols, i, b.g, next.g, c.g, EncodedViews(names, s, [rels[0]]), EncodedViews(names, s, rels[1..]),
                   MarkAfter(names, s, [rels[0]]), MarkAfter(names, s, rels[1..]));
    }
  }

  lemma FirstResolved(names: map<string, Id>, s: HirSymbol, rels: seq<HirRelationship>)
    requires AllResolved(names, rels) && rels != []
    ensures AllResolved(names, [rels[0]]) && AllResolved(names, rels[1..])
    ensures EncodedViews(names, s, rels) == EncodedViews(names, s, [rels[0]]) + EncodedViews(names, s, rels[1..])
    ensures MarkAfter(names, s, rels) ==
            if MarkAfter(names, s, rels[1..]).Some? then MarkAfter(names, s, rels[1..])
            else MarkAfter(names, s, [rels[0]])
  {
    assert [rels[0]][0] == rels[0] && [rels[0]][1..] == [];
    assert forall k :: 0 <= k < |rels[1..]| ==> rels[1..][k] == rels[k + 1];
    assert EncodedViews(names, s, []) == [];
    assert LastGroupB([]) == None;
  }

  // ---------------------------------------------------------------------------------------------
  // The whole list
  // ---------------------------------------------------------------------------------------------

  /** Placing symbol `i` appends it to the content and changes nothing else that decoding sees. */
  ghost predicate PlacedSight(symbols: seq<HirSymbol>, i: nat, g: Graph, h: Graph)
    requires i < |symbols|
  {
    && ContentOf(h, h.order) == ContentOf(g, g.order) + [symbols[i].elementId]
    && (forall j :: 0 <= j < |symbols| ==> SightAt(symbols, i, g, h, [], None, j))
  }

  lemma PlaceContinues(symbols: seq<HirSymbol>, at: Progress, g: Graph, i: nat)
    requires Proper(symbols) && BuildInvariant(symbols, at, g) && IsNext(symbols, at, i)
    ensures Continues(g, RebuildOwned(g.Add(NextElement(symbols, i))), [symbols[i].elementId])
  {
    hide Proper, Leveled, Ahead, AllPlaced, ContentIsSymbol, OwnersAreProper, Lists, ContentListedOnce, ElementKindOf,
         OwnerId;
    AddSymbolShape(symbols, at, g, i);
  }

  lemma PlacedLast(symbols: seq<HirSymbol>, at: Progress, g: Graph, i: nat, x: Id)
    requires Proper(symbols) && BuildInvariant(symbols, at, g) && IsNext(symbols, at, i)
    ensures var h, id := RebuildOwned(g.Add(NextElement(symbols, i))), symbols[i].elementId;
      ViewsFrom(h, [id], x) == [] && ContentOf(h, [id]) == [id]
  {
    var h, id := RebuildOwned(g.Add(NextElement(symbols, i))), symbols[i].elementId;
    AddSymbolShape(symbols, at, g, i);
    SymbolElementIsContent(symbols[i].kind);
    assert ViewsFrom(h, [id], x) == [] + ViewsFrom(h, [], x);
    assert ContentOf(h, [id]) == [id] + ContentOf(h, []);
  }

  lemma PlaceViews(symbols: seq<HirSymbol>, at: Progress, g: Graph, i: nat, x: Id)
    requires Proper(symbols) && BuildInvariant(symbols, at, g) && IsNext(symbols, at, i)
    ensures var h := RebuildOwned(g.Add(NextElement(symbols, i)));
      && ViewsFrom(h, h.order, x) == ViewsFrom(g, g.order, x)
      && ContentOf(h, h.order) == ContentOf(g, g.order) + [symbols[i].elementId]
  {
    var h, id := RebuildOwned(g.Add(NextElement(symbols, i))), symbols[i].elementId;
    hide BuildInvariant, Proper, NextElement;
    PlaceContinues(symbols, at, g, i);
    ContinuesViews(g, h, [id], x);
    PlacedLast(symbols, at, g, i, x);
  }

  lemma PlaceMarks(symbols: seq<HirSymbol>, at: Progress, g: Graph, i: nat, j: nat)
    requires Proper(symbols) && BuildInvariant(symbols, at, g) && IsNext(symbols, at, i) && j < |symbols|
    ensures SlotMark(RebuildOwned(g.Add(NextElement(symbols, i))), symbols[j].elementId) ==
              SlotMark(g, symbols[j].elementId)
  {
    AddSymbolShape(symbols, at, g, i);
    ClassOfWrap(symbols[j].elementId);
    if OwnerId(NameMap(symbols), symbols[i]).Some? {
      var k := SlotIdsDiffer(symbols, i);
    }
  }

  lemma PlaceStep(symbols: seq<HirSymbol>, at: Progress, g: Graph, i: nat)
    requires Proper(symbols) && BuildInvariant(symbols, at, g) && IsNext(symbols, at, i)
    ensures PlacedSight(symbols, i, g, RebuildOwned(g.Add(NextElement(symbols, i))))
    ensures SlotIsUsable(symbols, RebuildOwned(g.Add(NextElement(symbols, i))), i)
  {
    hide Proper, Leveled, AllPlaced, ContentIsSymbol, OwnersAreProper, Lists, ContentListedOnce, ElementKindOf,
         OwnerId, ViewsFrom, SlotMark;
    var h := RebuildOwned(g.Add(NextElement(symbols, i)));
    PlaceViews(symbols, at, g, i, "");
    forall j | 0 <= j < |symbols| ensures SightAt(symbols, i, g, h, [], None, j) {
      PlaceViews(symbols, at, g, i, symbols[j].elementId);
      PlaceMarks(symbols, at, g, i, j);
    }
    assert IsAhead(symbols, at, WrapId(symbols[i].elementId));
    AddSymbolShape(symbols, at, g, i);
  }

  function IdsOf(symbols: seq<HirSymbol>): seq<Id> {
    if symbols == [] then [] else IdsOf(symbols[..|symbols| - 1]) + [symbols[|symbols| - 1].elementId]
  }

  /** What decoding sees at symbol `j` once the first `n` symbols are encoded. */
  ghost predicate EncodedAt(symbols: seq<HirSymbol>, n: nat, g: Graph, j: nat)
    requires j < |symbols| && AllResolved(NameMap(symbols), symbols[j].relationships)
  {
    var s, names := symbols[j], NameMap(symbols);
    && ViewsFrom(g, g.order, s.elementId) == (if j < n then EncodedViews(names, s, s.relationships) else [])
    && SlotMark(g, s.elementId) == (if j < n then MarkAfter(names, s, s.relationships) else None)
  }

  ghost predicate EncodedSight(symbols: seq<HirSymbol>, n: nat, g: Graph)
    requires Resolved(symbols) && n <= |symbols|
  {
    && ContentOf(g, g.order) == IdsOf(symbols[..n])
    && (forall j :: 0 <= j < |symbols| ==> EncodedAt(symbols, n, g, j))
  }

  lemma EncodeSymbolAt(symbols: seq<HirSymbol>, g: Graph, p: Graph, h: Graph, i: nat, j: nat, added: seq<Element>,
                       mark: Option<(ElementKind, map<string, PropertyValue>)>)
    requires i < |symbols| && j < |symbols| && AllResolved(NameMap(symbols), symbols[j].relationships)
    requires EncodedAt(symbols, i, g, j) && SightAt(symbols, i, g, p, [], None, j)
    requires SightAt(symbols, i, p, h, added, mark, j)
    requires j == i ==> added == EncodedViews(NameMap(symbols), symbols[j], symbols[j].relationships)
    requires j == i ==> mark == MarkAfter(NameMap(symbols), symbols[j], symbols[j].relationships)
    ensures EncodedAt(symbols, i + 1, h, j)
  {
    hide ViewsFrom, SlotMark, EncodedViews, MarkAfter, AllResolved;
  }

  lemma EncodePlaced(symbols: seq<HirSymbol>, scan: map<(string, string), Id>, b: Build, p: Build, i: nat)
    requires Proper(symbols) && Resolved(symbols) && i < |symbols| && p.counter == b.counter
    requires EncodedSight(symbols, i, b.g) && PlacedSight(symbols, i, b.g, p.g)
    requires IsCurrent(symbols, Progress(i + 1, i, p.counter), p.g, i) && SlotIsUsable(symbols, p.g, i)
    ensures EncodedSight(symbols, i + 1,
              EmitRelationships(p, Context(NameMap(symbols), scan), symbols[i], symbols[i].relationships).g)
  {
    hide IsCurrent, SlotIsUsable, Proper, SightAt, EncodedAt;
    var names, s := NameMap(symbols), symbols[i];
    var c := EmitRelationships(p, Context(names, scan), s, s.relationships);
    EmitRelationshipsStep(symbols, scan, p, c, i, s.relationships);
    forall j {:trigger EncodedAt(symbols, i + 1, c.g, j)} | 0 <= j < |symbols|
      ensures EncodedAt(symbols, i + 1, c.g, j)
    {
      assert EncodedAt(symbols, i, b.g, j);
      EncodeSymbolAt(symbols, b.g, p.g, c.g, i, j, EncodedViews(names, s, s.relationships),
          MarkAfter(names, s, s.relationships));
    }
    assert symbols[..i + 1][..i] == symbols[..i];
  }

  lemma EncodeSymbolStep(symbols: seq<HirSymbol>, scan: map<(string, string), Id>, b: Build, i: nat)
    requires Proper(symbols) && Resolved(symbols) && i < |symbols|
    requires BuildInvariant(symbols, Progress(i, i, b.counter), b.g) && EncodedSight(symbols, i, b.g)
    ensures EncodedSight(symbols, i + 1, EncodeSymbol(b, Context(NameMap(symbols), scan), symbols[i]).g)
  {
    hide BuildInvariant, EncodedSight, PlacedSight, SlotIsUsable, Proper, EmitRelationships, RebuildOwned;
    var p := b.(g := RebuildOwned(b.g.Add(NextElement(symbols, i))));
    PlaceStep(symbols, Progress(i, i, b.counter), b.g, i);
    PlaceSymbolKeepsInvariant(symbols, Progress(i, i, b.counter), b.g, i);
    EncodePlaced(symbols, scan, b, p, i);
  }

  lemma NothingEncoded(symbols: seq<HirSymbol>)
    requires Resolved(symbols)
    ensures EncodedSight(symbols, 0, Graph([], map[], []))
  {
    forall j | 0 <= j < |symbols| ensures EncodedAt(symbols, 0, Graph([], map[], []), j) {
    }
  }

  lemma {:induction false} PrefixSight(symbols: seq<HirSymbol>, scan: map<(string, string), Id>, n: nat)
    requires Proper(symbols) && Resolved(symbols) && n <= |symbols|
    ensures EncodedSight(symbols, n, EncodeSymbols(Context(NameMap(symbols), scan), symbols[..n]).g)
  {
    hide Proper, Resolved, EncodedSight, BuildInvariant;
    if n == 0 {
      NothingEncoded(symbols);
    } else {
      PrefixSight(symbols, scan, n - 1);
      EncodePrefixKeepsInvariant(symbols, scan, n - 1);
      assert symbols[..n][..n - 1] == symbols[..n - 1] && symbols[..n][n - 1] == symbols[n - 1];
      EncodeSymbolStep(symbols, scan, EncodeSymbols(Context(NameMap(symbols), scan), symbols[..n - 1]), n - 1);
    }
  }
}
