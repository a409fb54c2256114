/** The change tracker: edits a model in place and records which elements it created, changed and removed. */
module ChangeTracking {
  import opened Wrappers
  import opened ElementKinds
  import opened ModelGraph
  import opened Wrapping
  import opened EditSpec
  import opened Reparenting

  /** The owners whose lists an edit at `id` rewrites: its owner and, across a wrapper, the wrapper's owner. */
  ghost function OwnersTouched(g: Graph, id: Id, wrapper: Option<Id>): set<Id> {
    (if g.PresentOwner(id).Some? then {g.PresentOwner(id).value} else {})
    + (if wrapper.Some? && g.PresentOwner(wrapper.value).Some? then {g.PresentOwner(wrapper.value).value} else {})
  }

  /** What a removal finds under the id once lists and edges have been cleared, and gives back. */
  function TakenOut(g: Graph, id: Id): Option<Element> {
    var u := Unlinked(g, id);
    var swept := SwapRemoveAll(u, EdgesAt(u, u.order, id));
    if id in swept.elements then Some(swept.elements[id]) else None
  }

  /** What a removal records as removed: the wrapper it empties, and the element if there was one to give back. */
  ghost function RecordedAsRemoved(g: Graph, id: Id): set<Id> {
    (if EmptiedWrapper(g, id).Some? then {EmptiedWrapper(g, id).value} else {})
    + (if TakenOut(g, id).Some? then {id} else {})
  }

  class ChangeTracker {
    var modified: set<Id>
    var created: set<Id>
    var removed: set<Id>
    var addedRelationships: set<Id>

    constructor ()
      ensures modified == created == removed == addedRelationships == {}
    {
      modified, created, removed, addedRelationships := {}, {}, {}, {};
    }

    method AddElement(model: Model, e: Element, owner: Option<Id>) returns (id: Id)
      modifies this, model
      ensures id == e.id && model.Value() == AddUnder(old(model.Value()), e, owner)
      ensures created == old(created) + {id}
      ensures modified == old(modified) + {id} +
                (if owner.Some? && owner.value in old(model.elements) then {owner.value} else {})
      ensures removed == old(removed) && addedRelationships == old(addedRelationships)
    {
      id := e.id;
      var element := e;
      if owner.Some? {
        var parent := owner.value;
        var needsWrap := !e.kind.IsRelationship() && !e.kind.IsMembership() && parent in model.elements
          && !model.elements[parent].kind.IsMembership() && !model.elements[parent].kind.IsRelationship();
        var listed := if needsWrap then WrapId(id) else id;
        if parent in model.elements {
          model.SetOwned(parent, model.elements[parent].owned + [listed]);
          modified := modified + {parent};
        }
        if needsWrap {
          element := element.(owner := Some(listed));
          model.AddElement(Wrapper(WrapItem(id, e.kind, parent)));
        } else {
          element := element.(owner := owner);
        }
      }
      model.AddElement(element);
      created, modified := created + {id}, modified + {id};
    }

    /** Takes an id off the owned list of its owner and records the owner. */
    method DetachFromOwner(model: Model, id: Id)
      modifies this`modified, model
      ensures model.Value() == Detach(old(model.Value()), id)
      ensures modified == old(modified) + OwnersTouched(old(model.Value()), id, None)
    {
      if id in model.elements && model.elements[id].owner.Some? {
        var owner := model.elements[id].owner.value;
        if owner in model.elements {
          model.SetOwned(owner, Without(model.elements[owner].owned, id));
          modified := modified + {owner};
        }
      }
    }

    method RemoveKey(model: Model, id: Id)
      modifies model
      ensures model.Value() == SwapRemove(old(model.Value()), id)
    {
      if id in model.elements {
        model.order := SwapOut(model.order, id);
        model.elements := model.elements - {id};
      }
    }

    method SweepEdges(model: Model, id: Id)
      modifies model
      ensures var g := old(model.Value()); model.Value() == SwapRemoveAll(g, EdgesAt(g, g.order, id))
    {
      var edges := EdgesAt(model.Value(), model.order, id);
      for i := 0 to |edges|
        invariant SwapRemoveAll(model.Value(), edges[i..]) == SwapRemoveAll(old(model.Value()), edges)
      {
        assert edges[i..][0] == edges[i] && edges[i..][1..] == edges[i + 1..];
        RemoveKey(model, edges[i]);
      }
    }

    /** Takes the element, and the wrapper it would leave empty, out of lists and roots. */
    method Unlink(model: Model, id: Id)
      modifies this, model
      ensures var g := old(model.Value());
        && model.Value() == Unlinked(g, id)
        && modified == old(modified) + OwnersTouched(g, id, EmptiedWrapper(g, id))
        && removed == old(removed) + (if EmptiedWrapper(g, id).Some? then {EmptiedWrapper(g, id).value} else {})
      ensures created == old(created) && addedRelationships == old(addedRelationships)
    {
      var wrapper := EmptiedWrapper(model.Value(), id);
      DetachFromOwner(model, id);
      if wrapper.Some? {
        var m := wrapper.value;
        assert model.Value().PresentOwner(m) == old(model.Value()).PresentOwner(m);
        DetachFromOwner(model, m);
        model.roots := Without(model.roots, m);
        RemoveKey(model, m);
        removed := removed + {m};
      }
      model.roots := Without(model.roots, id);
    }

    method RemoveElement(model: Model, id: Id) returns (element: Option<Element>)
      modifies this, model
      ensures model.Value() == RemoveFrom(old(model.Value()), id)
      ensures element == TakenOut(old(model.Value()), id)
      ensures var g := old(model.Value());
        var wrapper, gone := EmptiedWrapper(g, id), if element.Some? then {id} else {};
        && removed == old(removed) + RecordedAsRemoved(g, id)
        && modified == old(modified) + OwnersTouched(g, id, wrapper) - gone
        && created == old(created) - gone
      ensures addedRelationships == old(addedRelationships)
    {
      hide Unlinked, SwapRemoveAll, EdgesAt, OwnersTouched, EmptiedWrapper;
      Unlink(model, id);
      SweepEdges(model, id);
      element := if id in model.elements then Some(model.elements[id]) else None;
      RemoveKey(model, id);
      if element.Some? {
        removed, modified, created := removed + {id}, modified - {id}, created - {id};
      }
    }

    method AddRelationship(model: Model, id: Id, kind: ElementKind, source: Id, target: Id)
      modifies this, model
      ensures model.Value() == old(model.Value()).Insert(
        NewElement(id, kind).(relationship := Some(RelationshipData([source], [target]))))
      ensures addedRelationships == old(addedRelationships) + {id} && modified == old(modified) + {source}
      ensures created == old(created) && removed == old(removed)
    {
      model.AddRel(id, kind, source, target, None);
      addedRelationships, modified := addedRelationships + {id}, modified + {source};
    }

    /** Points `x` at a new owner and lists `y` there. */
    method RelinkTo(model: Model, x: Id, owner: Id, newOwner: Id, y: Id)
      modifies this`modified, model
      ensures model.Value() == Relink(old(model.Value()), x, owner, newOwner, y)
      ensures modified == old(modified) + OwnersTouched(old(model.Value()), x, None) +
                (if newOwner in old(model.elements) then {newOwner} else {})
    {
      DetachFromOwner(model, x);
      model.roots := Without(model.roots, x);
      model.SetOwner(x, owner);
      if newOwner in model.elements {
        model.SetOwned(newOwner, model.elements[newOwner].owned + [y]);
        modified := modified + {newOwner};
      }
    }

    method Reparent(model: Model, id: Id, newOwner: Id)
      modifies this, model
      ensures model.Value() == MoveTo(old(model.Value()), id, newOwner)
      ensures created == old(created) && removed == old(removed) && addedRelationships == old(addedRelationships)
      ensures modified == old(modified) + {id} + OwnersTouched(old(model.Value()), Moved(old(model.Value()), id), None)
                          + (if newOwner in old(model.elements) then {newOwner} else {})
    {
      var carrier := CarryingWrapper(model.Value(), id);
      if carrier.Some? {
        RelinkTo(model, carrier.value, newOwner, newOwner, carrier.value);
      } else if id in model.elements && WrapsUnder(model.Value(), model.elements[id].kind, newOwner) {
        var item := WrapItem(id, model.elements[id].kind, newOwner);
        RelinkTo(model, id, WrapId(id), newOwner, WrapId(id));
        model.AddElement(Wrapper(item));
      } else {
        RelinkTo(model, id, newOwner, newOwner, id);
      }
      modified := modified + {id};
    }
  }

  // ---------------------------------------------------------------------------------------------
  // The recorded ids cover the changes
  // ---------------------------------------------------------------------------------------------

  /** A removal gives back the element as it was; only an edge that touches itself has been swept before. */
  lemma RemovedIsGivenBack(g: Graph, id: Id)
    requires Sound(g)
    ensures TakenOut(g, id) == if id in g.elements && !Touches(g.elements[id], id) then Some(g.elements[id]) else None
  {
    hide Unlinked, EdgesAt, SwapRemoveAll, OwnershipAgrees, ContentListedOnce;
    UnlinkedShape(g, id);
    var u, w := Unlinked(g, id), EmptiedWrapper(g, id);
    SwapRemoveAllKeys(u, EdgesAt(u, u.order, id));
    if g.PresentOwner(id).Some? {
      NotItsOwnOwner(g, id);
    }
    if w.Some? && g.PresentOwner(w.value) == Some(id) {
      OwnEachOther(g, id, w.value);
    }
    if id in g.elements {
      assert g.elements[id] == g.elements[id].(owned := g.elements[id].owned);
    }
  }

  /** An element that survives a removal with a changed value is one of the recorded owners. */
  lemma RemoveIsRecorded(g: Graph, id: Id, x: Id)
    requires Sound(g) && x in g.elements && x in RemoveFrom(g, id).elements
    requires RemoveFrom(g, id).elements[x] != g.elements[x]
    ensures x in OwnersTouched(g, id, EmptiedWrapper(g, id))
  {
    RemoveShape(g, id);
    assert g.elements[x] == g.elements[x].(owned := g.elements[x].owned);
  }

  /** Of what a removal deletes, exactly the emptied wrapper and the element itself are recorded; the edges at the
      element go unrecorded. */
  lemma SweptIsUnrecorded(g: Graph, id: Id, x: Id)
    requires Sound(g) && x in g.elements && x !in RemoveFrom(g, id).elements
    ensures x in RecordedAsRemoved(g, id) <==>
              EmptiedWrapper(g, id) == Some(x) || (x == id && !Touches(g.elements[x], id))
    ensures x !in RecordedAsRemoved(g, id) ==> Touches(g.elements[x], id)
  {
    hide Touches, TakenOut, RemoveFrom, EmptiedWrapper, OwnershipAgrees, ContentListedOnce, Acyclic;
    RemovedIsGivenBack(g, id);
    RemoveShape(g, id);
  }

  /** So the record tells all that a removal deletes exactly when no edge but the emptied wrapper is at the
      element. */
  lemma RemovalIsToldExactly(g: Graph, id: Id)
    requires Sound(g)
    ensures g.elements.Keys - RemoveFrom(g, id).elements.Keys == RecordedAsRemoved(g, id) <==>
              forall x :: x in g.elements && Touches(g.elements[x], id) ==> EmptiedWrapper(g, id) == Some(x)
  {
    hide Touches, TakenOut, RemoveFrom, EmptiedWrapper, OwnershipAgrees, ContentListedOnce, Acyclic;
    var gone, told := g.elements.Keys - RemoveFrom(g, id).elements.Keys, RecordedAsRemoved(g, id);
    RemovedIsGivenBack(g, id);
    RemoveShape(g, id);
    EmptiedIsPresent(g, id);
    assert gone == Deleted(g, id) * g.elements.Keys;
    forall x | x in gone
      ensures x in told <==> EmptiedWrapper(g, id) == Some(x) || (x == id && !Touches(g.elements[x], id))
    {
      SweptIsUnrecorded(g, id, x);
    }
    assert told <= gone;
    if gone == told {
      forall x | x in g.elements && Touches(g.elements[x], id) ensures EmptiedWrapper(g, id) == Some(x) {
        assert x in gone;
      }
    }
  }

  function OneEdge(a: Id, b: Id, edge: Id): Graph {
    var dependency := NewElement(edge, Relation(Dependency)).(relationship := Some(RelationshipData([a], [b])));
    Graph([a, b, edge],
          map[a := NewElement(a, Usage(PartUsage)), b := NewElement(b, Usage(PartUsage)), edge := dependency], [a, b])
  }

  lemma OneEdgeIsSound(a: Id, b: Id, edge: Id)
    requires a != b && a != edge && b != edge
    ensures Sound(OneEdge(a, b, edge))
  {
    hide Sound;
    UnownedIsSound(OneEdge(a, b, edge));
  }

  /** Elements that own nothing and have no owners. */
  lemma UnownedIsSound(g: Graph)
    requires WellKeyed(g) && forall x :: x in g.elements ==> g.elements[x].owner == None && g.elements[x].owned == []
    ensures Sound(g)
  {
    var rank: map<Id, nat> := map x | x in g.elements :: 0;
    assert Ranks(g, rank);
  }

  /** Two elements and an edge between them: removing the first deletes the edge too, which no set records. */
  lemma SweptEdgeIsLost(a: Id, b: Id, edge: Id)
    requires a != b && a != edge && b != edge
    ensures var g := OneEdge(a, b, edge);
      && Sound(g) && RemoveFrom(g, a).elements.Keys == {b} && RecordedAsRemoved(g, a) == {a}
  {
    hide Sound, RemoveFrom, TakenOut;
    var g := OneEdge(a, b, edge);
    OneEdgeIsSound(a, b, edge);
    RemovedIsGivenBack(g, a);
    RemoveKeys(g, a);
    assert Deleted(g, a) == {a, edge};
  }

  lemma RemoveKeys(g: Graph, id: Id)
    requires Sound(g)
    ensures RemoveFrom(g, id).elements.Keys == g.elements.Keys - Deleted(g, id)
  {
    hide RemoveFrom, Deleted;
    RemoveShape(g, id);
  }

  lemma EmptiedIsPresent(g: Graph, id: Id)
    ensures EmptiedWrapper(g, id).Some? ==> EmptiedWrapper(g, id).value in g.elements
  {
  }

  lemma MoveUntouched(g: Graph, id: Id, newOwner: Id, x: Id)
    requires CanMove(g, id, newOwner) && x in g.elements && x != Moved(g, id) && x != newOwner
    ensures x in MoveTo(g, id, newOwner).elements
    ensures g.PresentOwner(Moved(g, id)) != Some(x) ==> MoveTo(g, id, newOwner).elements[x] == g.elements[x]
  {
    hide WellKeyed, OwnershipAgrees, ContentListedOnce;
    assert g.elements[x] == g.elements[x].(owned := g.elements[x].owned + []);
    if Moved(g, id) == newOwner {
      DetachShape(g, newOwner);
    } else if Generates(g, id, newOwner) {
      MoveWrapShape(g, id, newOwner);
    } else {
      MoveRelinkShape(g, id, newOwner);
    }
  }

  /** An element whose value a move changes is recorded, except for the membership that carries it: the move
      rewrites that wrapper's owner without recording it. */
  lemma MoveIsRecorded(g: Graph, id: Id, newOwner: Id, x: Id)
    requires CanMove(g, id, newOwner) && x in g.elements && x in MoveTo(g, id, newOwner).elements
    requires MoveTo(g, id, newOwner).elements[x] != g.elements[x]
    ensures x in OwnersTouched(g, Moved(g, id), None) + {newOwner, id} || Some(x) == CarryingWrapper(g, id)
  {
    if x != Moved(g, id) && x != newOwner {
      MoveUntouched(g, id, newOwner, x);
    }
  }
}
