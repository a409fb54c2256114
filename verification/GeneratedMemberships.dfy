/** The memberships that wrapping, adding and moving generate: what they carry, where they hang, of which kind. */
module GeneratedMemberships {
  import opened Wrappers
  import opened ElementKinds
  import opened ModelGraph
  import opened Wrapping
  import opened EditSpec
  import opened Reparenting

  /** A membership that carries one element under a parent: a feature membership exactly if the element is a usage or
      another feature, and an owning membership otherwise. */
  ghost predicate Carries(h: Graph, w: Id, c: Id, parent: Id) {
    && w in h.elements && c in h.elements && h.elements[w].owned == [c] && h.elements[c].owner == Some(w)
    && h.elements[w].owner == Some(parent) && h.elements[w].relationship == None
    && (h.elements[w].kind == Member(FeatureMembership) <==>
          h.elements[c].kind.Usage? || h.elements[c].kind.FeatureOnly?)
    && (h.elements[w].kind == Member(FeatureMembership) || h.elements[w].kind == Member(OwningMembership))
  }

  // ---------------------------------------------------------------------------------------------
  // Wrapping
  // ---------------------------------------------------------------------------------------------

  lemma WrapOneCarries(g: Graph, it: WrapItem)
    requires Sound(g) && Applies(g, it)
    ensures Carries(WrapOne(g, it), WrapId(it.child), it.child, it.parent)
    ensures WrapOne(g, it).elements.Keys == g.elements.Keys + {WrapId(it.child)}
  {
    WrapOneShape(g, it);
  }

  lemma WrapOneKeepsCarrier(g: Graph, it: WrapItem, w: Id, c: Id, parent: Id)
    requires Sound(g) && Applies(g, it) && Carries(g, w, c, parent) && c != it.child
    ensures Carries(WrapOne(g, it), w, c, parent)
  {
    WrapOneShape(g, it);
    assert g.PresentOwner(it.child) == Some(it.parent);
  }

  lemma {:induction false} WrapListKeepsCarrier(g: Graph, items: seq<WrapItem>, w: Id, c: Id, parent: Id)
    requires Sound(g) && AllApply(g, items) && Carries(g, w, c, parent) && !IsItem(items, c)
    ensures Carries(WrapList(g, items), w, c, parent)
    decreases |items|
  {
    hide Carries, Sound, Applies, WrapOne;
    if items != [] {
      assert items[0].child != c;
      WrapOneKeepsCarrier(g, items[0], w, c, parent);
      AllApplyRest(g, items);
      IsItemCons(items, c);
      WrapListKeepsCarrier(WrapOne(g, items[0]), items[1..], w, c, parent);
    }
  }

  lemma FirstIsNoOther(items: seq<WrapItem>)
    requires items != [] && forall i, j :: 0 <= i < j < |items| ==> items[i].child != items[j].child
    ensures !IsItem(items[1..], items[0].child)
  {
  }

  lemma {:induction false} WrapListCarries(g: Graph, items: seq<WrapItem>, i: nat)
    requires Sound(g) && AllApply(g, items) && i < |items|
    ensures Carries(WrapList(g, items), WrapId(items[i].child), items[i].child, items[i].parent)
    decreases |items|
  {
    hide Carries, Sound, Applies, WrapOne, WrapId;
    AllApplyRest(g, items);
    if i == 0 {
      WrapOneCarries(g, items[0]);
      FirstIsNoOther(items);
      WrapListKeepsCarrier(WrapOne(g, items[0]), items[1..], WrapId(items[0].child), items[0].child, items[0].parent);
    } else {
      WrapListCarries(WrapOne(g, items[0]), items[1..], i - 1);
    }
  }

  lemma {:induction false} WrapListKeys(g: Graph, items: seq<WrapItem>, w: Id)
    requires Sound(g) && AllApply(g, items)
    ensures w in WrapList(g, items).elements ==>
              w in g.elements || exists i :: 0 <= i < |items| && w == WrapId(items[i].child)
    decreases |items|
  {
    hide Carries, Sound, Applies, WrapOne, WrapId;
    if items != [] {
      AllApplyRest(g, items);
      WrapOneCarries(g, items[0]);
      WrapListKeys(WrapOne(g, items[0]), items[1..], w);
      assert forall i :: 0 <= i < |items[1..]| ==> items[1..][i] == items[i + 1];
    }
  }

  /** Items are made from the elements they wrap. */
  lemma {:induction false} ItemsDescribe(g: Graph, ids: seq<Id>, i: nat)
    requires i < |ItemsToWrap(g, ids)|
    ensures var it := ItemsToWrap(g, ids)[i]; NeedsWrap(g, it.child) && g.elements[it.child].owner == Some(it.parent)
  {
    var rest := ItemsToWrap(g, ids[1..]);
    var own := |ItemsToWrap(g, ids)| - |rest|;
    if i >= own {
      ItemsDescribe(g, ids[1..], i - own);
      assert ItemsToWrap(g, ids)[i] == rest[i - own];
    }
  }

  /** After the pass, every element that had to be wrapped is carried, under the owner that it had, by a membership of
      the kind that fits it. */
  lemma WrappedIsCarried(g: Graph, c: Id)
    requires Sound(g) && WrapIdsFree(g) && NeedsWrap(g, c)
    ensures g.elements[c].owner.Some? && Carries(WrapChildren(g), WrapId(c), c, g.elements[c].owner.value)
  {
    hide Carries, NeedsWrap, WrapOne, WrapId, OwnershipAgrees, ContentListedOnce, Acyclic;
    var items := ItemsToWrap(g, g.order);
    assert c in g.order by {
      NeededIsKey(g, c);
    }
    ItemsToWrapComplete(g, g.order);
    var i :| 0 <= i < |items| && items[i].child == c;
    ItemsDescribe(g, g.order, i);
    WrapListCarries(g, items, i);
  }

  lemma NeededIsKey(g: Graph, c: Id)
    requires NeedsWrap(g, c) && WellKeyed(g)
    ensures c in g.order
  {
  }

  /** Nothing else is generated. */
  lemma GeneratedCarries(g: Graph, w: Id)
    requires Sound(g) && WrapIdsFree(g) && w in WrapChildren(g).elements && w !in g.elements
    ensures exists c :: NeedsWrap(g, c) && g.elements[c].owner.Some? && w == WrapId(c)
                        && Carries(WrapChildren(g), w, c, g.elements[c].owner.value)
  {
    hide Carries, NeedsWrap, WrapOne, WrapId, OwnershipAgrees, ContentListedOnce, Acyclic;
    var items := ItemsToWrap(g, g.order);
    ItemsToWrapComplete(g, g.order);
    WrapListKeys(g, items, w);
    var i :| 0 <= i < |items| && w == WrapId(items[i].child);
    ItemsDescribe(g, g.order, i);
    WrappedIsCarried(g, items[i].child);
  }

  // ---------------------------------------------------------------------------------------------
  // Edits
  // ---------------------------------------------------------------------------------------------

  /** Content that is added under an owner that is no relationship is carried by one new membership, listed last. */
  lemma AddedIsCarried(g: Graph, e: Element, parent: Id)
    requires WellKeyed(g) && FreshContent(g, e) && parent in g.elements && !g.elements[parent].kind.IsRelationship()
    ensures var h := AddUnder(g, e, Some(parent));
      && Carries(h, WrapId(e.id), e.id, parent) && h.elements[parent].owned == g.elements[parent].owned + [WrapId(e.id)]
      && h.elements.Keys == g.elements.Keys + {e.id, WrapId(e.id)}
  {
    AddWrappedShape(g, e, parent);
  }

  /** Content that is moved without its membership to an owner that is no relationship is carried by one new
      membership. */
  lemma MovedIsCarried(g: Graph, id: Id, newOwner: Id)
    requires CanMove(g, id, newOwner) && Generates(g, id, newOwner) && id != newOwner
    ensures Carries(MoveTo(g, id, newOwner), WrapId(id), id, newOwner)
    ensures MoveTo(g, id, newOwner).elements.Keys == g.elements.Keys + {WrapId(id)}
  {
    hide WellKeyed, OwnershipAgrees, ContentListedOnce, Acyclic;
    MoveWrapShape(g, id, newOwner);
  }
}
