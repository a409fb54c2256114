/** The edits of the change tracker, as functions on graphs, with what each keeps and what undoes it. */
module EditSpec {
  import opened Wrappers
  import opened ElementKinds
  import opened ModelGraph
  import opened Wrapping

  /** A list without any occurrence of an id. */
  function Without(s: seq<Id>, x: Id): (r: seq<Id>)
    ensures forall y :: y in r <==> y in s && y != x
    ensures x !in s ==> r == s
  {
    if s == [] then []
    else
      assert s == [s[0]] + s[1..];
      if s[0] == x then Without(s[1..], x) else [s[0]] + Without(s[1..], x)
  }

  /** Removing an entry moves the last one into its place. */
  function SwapOut(s: seq<Id>, x: Id): seq<Id> {
    if x in s then s[IndexOf(s, x) := s[|s| - 1]][..|s| - 1] else s
  }

  function SwapRemove(g: Graph, id: Id): Graph {
    if id in g.elements then g.(order := SwapOut(g.order, id), elements := g.elements - {id}) else g
  }

  function SwapRemoveAll(g: Graph, ids: seq<Id>): Graph
    decreases |ids|
  {
    if ids == [] then g else SwapRemoveAll(SwapRemove(g, ids[0]), ids[1..])
  }

  function WrapsUnder(g: Graph, kind: ElementKind, parent: Id): bool {
    kind.IsContent() && parent in g.elements && !g.elements[parent].kind.IsRelationship()
  }

  // ---------------------------------------------------------------------------------------------
  // The edits
  // ---------------------------------------------------------------------------------------------

  function AddUnder(g: Graph, e: Element, owner: Option<Id>): Graph {
    if owner.None? then g.Add(e)
    else if WrapsUnder(g, e.kind, owner.value) then
      var w := WrapId(e.id);
      g.SetOwned(owner.value, g.OwnedOf(owner.value) + [w])
       .Add(Wrapper(WrapItem(e.id, e.kind, owner.value)))
       .Add(e.(owner := Some(w)))
    else
      g.SetOwned(owner.value, g.OwnedOf(owner.value) + [e.id]).Add(e.(owner := owner))
  }

  /** The membership that would be left empty without the element. */
  function EmptiedWrapper(g: Graph, id: Id): Option<Id> {
    var owner := g.PresentOwner(id);
    if owner.Some? && g.elements[owner.value].kind.IsMembership() && |g.elements[owner.value].owned| <= 1
    then owner else None
  }

  predicate Touches(e: Element, id: Id) {
    e.relationship.Some? && (id in e.relationship.value.source || id in e.relationship.value.target)
  }

  /** The ids of the edges at an element, in key order. */
  function EdgesAt(g: Graph, ids: seq<Id>, id: Id): (r: seq<Id>)
    ensures forall x :: x in r <==> x in ids && x in g.elements && Touches(g.elements[x], id)
  {
    if ids == [] then []
    else
      assert ids == [ids[0]] + ids[1..];
      (if ids[0] in g.elements && Touches(g.elements[ids[0]], id) then [ids[0]] else []) + EdgesAt(g, ids[1..], id)
  }

  /** Takes an id off the owned list of its present owner. */
  function Detach(g: Graph, id: Id): Graph {
    var owner := g.PresentOwner(id);
    if owner.None? then g else g.SetOwned(owner.value, Without(g.OwnedOf(owner.value), id))
  }

  function DropRoot(g: Graph, id: Id): Graph {
    g.(roots := Without(g.roots, id))
  }

  /** The graph once the element and the wrapper it empties have left the owned lists and the roots. */
  function Unlinked(g: Graph, id: Id): Graph {
    var wrapper := EmptiedWrapper(g, id);
    var detached := Detach(g, id);
    DropRoot(
      if wrapper.None? then detached
      else SwapRemove(DropRoot(Detach(detached, wrapper.value), wrapper.value), wrapper.value), id)
  }

  function RemoveFrom(g: Graph, id: Id): Graph {
    var u := Unlinked(g, id);
    SwapRemove(SwapRemoveAll(u, EdgesAt(u, u.order, id)), id)
  }

  /** The membership that carries an element, if it sits in one. */
  function CarryingWrapper(g: Graph, id: Id): Option<Id> {
    var owner := g.PresentOwner(id);
    if owner.Some? && g.elements[owner.value].kind.IsMembership() then owner else None
  }

  /** Takes `x` off its old owner and the roots, points it at `owner`, and lists `y` under `newOwner`. */
  function Relink(g: Graph, x: Id, owner: Id, newOwner: Id, y: Id): Graph {
    var moved := DropRoot(Detach(g, x), x).SetOwner(x, owner);
    moved.SetOwned(newOwner, moved.OwnedOf(newOwner) + [y])
  }

  function MoveTo(g: Graph, id: Id, newOwner: Id): Graph {
    var carrier := CarryingWrapper(g, id);
    if carrier.Some? then Relink(g, carrier.value, newOwner, newOwner, carrier.value)
    else if id in g.elements && WrapsUnder(g, g.elements[id].kind, newOwner) then
      Relink(g, id, WrapId(id), newOwner, WrapId(id)).Add(Wrapper(WrapItem(id, g.elements[id].kind, newOwner)))
    else Relink(g, id, newOwner, newOwner, id)
  }

  // ---------------------------------------------------------------------------------------------
  // Removal undoes addition
  // ---------------------------------------------------------------------------------------------

  ghost predicate NoEdgeAt(g: Graph, id: Id) {
    forall x :: x in g.elements ==> !Touches(g.elements[x], id)
  }

  /** A new content element with no children, as a caller builds it, under an id nothing mentions. */
  ghost predicate FreshContent(g: Graph, e: Element) {
    && e.kind.IsContent() && e.owner.None? && e.owned == [] && e.relationship.None?
    && Unmentioned(g, e.id) && NoEdgeAt(g, e.id)
    && Unmentioned(g, WrapId(e.id))
  }

  lemma NonEmptyHasMember(s: seq<Id>)
    ensures s == [] || exists x :: x in s
  {
    assert s != [] ==> s[0] in s;
  }

  lemma NoEdgesToSweep(g: Graph, id: Id)
    requires NoEdgeAt(g, id)
    ensures EdgesAt(g, g.order, id) == []
  {
    NonEmptyHasMember(EdgesAt(g, g.order, id));
  }

  /** Removing the key that was inserted last, when nothing refers to it. */
  lemma RemoveLastFresh(g: Graph, e: Element, roots: seq<Id>)
    requires WellKeyed(g) && e.id !in g.elements && NoEdgeAt(g, e.id) && e.relationship.None?
    requires Without(roots, e.id) == g.roots
    ensures var h := DropRoot(Graph(g.order + [e.id], g.elements[e.id := e], roots), e.id);
      SwapRemove(SwapRemoveAll(h, EdgesAt(h, h.order, e.id)), e.id) == g
  {
    var h := DropRoot(Graph(g.order + [e.id], g.elements[e.id := e], roots), e.id);
    assert NoEdgeAt(h, e.id);
    NoEdgesToSweep(h, e.id);
    assert h.elements - {e.id} == g.elements;
  }

  lemma AddRootThenRemove(g: Graph, e: Element)
    requires WellKeyed(g) && FreshContent(g, e)
    ensures RemoveFrom(AddUnder(g, e, None), e.id) == g
  {
    var h := AddUnder(g, e, None);
    assert h == Graph(g.order + [e.id], g.elements[e.id := e], g.roots + [e.id]);
    assert EmptiedWrapper(h, e.id).None? && Detach(h, e.id) == h;
    WithoutAppended(g.roots, e.id);
    RemoveLastFresh(g, e, g.roots + [e.id]);
  }

  lemma {:induction false} WithoutAppended(s: seq<Id>, x: Id)
    requires x !in s
    ensures Without(s + [x], x) == s
  {
    if s == [] {
      assert s + [x] == [x];
      assert Without([x], x) == Without([x][1..], x);
    } else {
      assert (s + [x])[0] == s[0] && (s + [x])[1..] == s[1..] + [x];
      WithoutAppended(s[1..], x);
    }
  }

  lemma SwapOutNextToLast(s: seq<Id>, x: Id, y: Id)
    requires x !in s && x != y
    ensures SwapOut(s + [x, y], x) == s + [y]
  {
    assert (s + [x, y])[|s|] == x;
    assert forall j :: 0 <= j < |s| ==> (s + [x, y])[j] == s[j] != x;
    assert IndexOf(s + [x, y], x) == |s|;
  }

  lemma AddWrappedShape(g: Graph, e: Element, parent: Id)
    requires WellKeyed(g) && FreshContent(g, e) && WrapsUnder(g, e.kind, parent)
    ensures var h, w := AddUnder(g, e, Some(parent)), WrapId(e.id);
      && h.order == g.order + [w, e.id] && h.roots == g.roots
      && h.elements == g.elements[parent := g.elements[parent].(owned := g.elements[parent].owned + [w])]
                                 [w := Wrapper(WrapItem(e.id, e.kind, parent))][e.id := e.(owner := Some(w))]
  {
    assert g.order + [WrapId(e.id), e.id] == g.order + [WrapId(e.id)] + [e.id];
  }

  lemma DetachFromWrapper(g: Graph, e: Element, parent: Id)
    requires WellKeyed(g) && FreshContent(g, e) && WrapsUnder(g, e.kind, parent)
    ensures var h, w := AddUnder(g, e, Some(parent)), WrapId(e.id);
      && EmptiedWrapper(h, e.id) == Some(w)
      && Detach(h, e.id) == h.(elements := h.elements[w := h.elements[w].(owned := [])])
  {
    AddWrappedShape(g, e, parent);
    WithoutAppended([], e.id);
    assert [] + [e.id] == [e.id];
  }

  /** Taking the element out of its new wrapper takes the wrapper with it. */
  lemma AddWrappedThenUnwrap(g: Graph, e: Element, parent: Id)
    requires WellKeyed(g) && FreshContent(g, e) && WrapsUnder(g, e.kind, parent)
    ensures var h, w := AddUnder(g, e, Some(parent)), WrapId(e.id);
      SwapRemove(DropRoot(Detach(Detach(h, e.id), w), w), w)
        == Graph(g.order + [e.id], g.elements[e.id := e.(owner := Some(w))], g.roots)
  {
    AddWrappedShape(g, e, parent);
    DetachFromWrapper(g, e, parent);
    var h, w := AddUnder(g, e, Some(parent)), WrapId(e.id);
    var d := Detach(h, e.id);
    WithoutAppended(g.elements[parent].owned, w);
    assert d.PresentOwner(w) == Some(parent);
    assert Detach(d, w).elements - {w} == g.elements[e.id := e.(owner := Some(w))] by {
      assert g.elements[parent].(owned := g.elements[parent].owned) == g.elements[parent];
    }
    SwapOutNextToLast(g.order, w, e.id);
  }

  lemma AddWrappedThenRemove(g: Graph, e: Element, parent: Id)
    requires WellKeyed(g) && FreshContent(g, e) && WrapsUnder(g, e.kind, parent)
    ensures RemoveFrom(AddUnder(g, e, Some(parent)), e.id) == g
  {
    DetachFromWrapper(g, e, parent);
    AddWrappedThenUnwrap(g, e, parent);
    RemoveLastFresh(g, e.(owner := Some(WrapId(e.id))), g.roots);
  }

  /** Under an owner that takes the child directly, removal restores the graph unless it deletes the owner. */
  lemma AddDirectThenRemove(g: Graph, e: Element, parent: Id)
    requires WellKeyed(g) && FreshContent(g, e) && !WrapsUnder(g, e.kind, parent) && parent != e.id
    requires !(parent in g.elements && g.elements[parent].kind.IsMembership() && g.elements[parent].owned == [])
    ensures RemoveFrom(AddUnder(g, e, Some(parent)), e.id) == g
  {
    var h := AddUnder(g, e, Some(parent));
    assert EmptiedWrapper(h, e.id).None?;
    var d := Detach(h, e.id);
    if parent in g.elements {
      WithoutAppended(g.elements[parent].owned, e.id);
      assert g.elements[parent].(owned := g.elements[parent].owned) == g.elements[parent];
      assert d.elements == g.elements[e.id := e.(owner := Some(parent))];
    }
    assert d == Graph(g.order + [e.id], g.elements[e.id := e.(owner := Some(parent))], g.roots);
    RemoveLastFresh(g, e.(owner := Some(parent)), g.roots);
  }

  lemma RemoveDeletesEmptiedWrapper(g: Graph, id: Id)
    requires EmptiedWrapper(g, id).Some?
    ensures EmptiedWrapper(g, id).value !in RemoveFrom(g, id).elements
  {
    var u := Unlinked(g, id);
    SwapRemoveAllKeys(u, EdgesAt(u, u.order, id));
  }

  /** Removing a fresh childless content element right after adding it restores the whole model, order and
      roots included, exactly when the owner was not a membership with an empty owned list. */
  lemma AddThenRemoveRestores(g: Graph, e: Element, owner: Option<Id>)
    requires WellKeyed(g) && FreshContent(g, e) && owner != Some(e.id)
    ensures RemoveFrom(AddUnder(g, e, owner), e.id) == g <==>
      !(owner.Some? && owner.value in g.elements && g.elements[owner.value].kind.IsMembership()
        && g.elements[owner.value].owned == [])
  {
    if owner.None? {
      AddRootThenRemove(g, e);
    } else if WrapsUnder(g, e.kind, owner.value) {
      AddWrappedThenRemove(g, e, owner.value);
    } else if owner.value in g.elements && g.elements[owner.value].kind.IsMembership()
              && g.elements[owner.value].owned == [] {
      RemoveDeletesEmptiedWrapper(AddUnder(g, e, owner), e.id);
    } else {
      AddDirectThenRemove(g, e, owner.value);
    }
  }

  /** A model that is one empty membership: adding an element under it and removing that again deletes it. */
  lemma EmptyMembershipIsLost(m: Id, x: Id)
    requires m != x && m != WrapId(x)
    ensures var g := Graph([m], map[m := NewElement(m, Member(OwningMembership))], [m]);
      var e := NewElement(x, Usage(PartUsage));
      WellKeyed(g) && FreshContent(g, e) && RemoveFrom(AddUnder(g, e, Some(m)), x) != g
  {
    hide WrapId, AddUnder, RemoveFrom;
    var g := Graph([m], map[m := NewElement(m, Member(OwningMembership))], [m]);
    AddThenRemoveRestores(g, NewElement(x, Usage(PartUsage)), Some(m));
  }

  // ---------------------------------------------------------------------------------------------
  // Removal keeps the ownership graph sound and leaves no edge behind
  // ---------------------------------------------------------------------------------------------

  lemma {:induction false} SwapRemoveAllKeys(g: Graph, ids: seq<Id>)
    ensures SwapRemoveAll(g, ids).elements == g.elements - (set x | x in ids)
    ensures SwapRemoveAll(g, ids).roots == g.roots
    decreases |ids|
  {
    if ids != [] {
      SwapRemoveAllKeys(SwapRemove(g, ids[0]), ids[1..]);
      assert (set x | x in ids) == {ids[0]} + (set x | x in ids[1..]) by {
        assert ids == [ids[0]] + ids[1..];
      }
    }
  }

  lemma SwapOutMembers(s: seq<Id>, x: Id)
    requires NoDuplicates(s)
    ensures NoDuplicates(SwapOut(s, x))
    ensures forall y :: y in SwapOut(s, x) <==> y in s && y != x
  {
    if x in s {
      var k, last := IndexOf(s, x), |s| - 1;
      var r := SwapOut(s, x);
      assert forall j :: 0 <= j < last ==> r[j] == if j == k then s[last] else s[j];
      forall y | y in s && y != x ensures y in r {
        var j :| 0 <= j < |s| && s[j] == y;
        assert r[if j == last then k else j] == y;
      }
    }
  }

  lemma SwapRemoveWellKeyed(g: Graph, id: Id)
    requires WellKeyed(g)
    ensures WellKeyed(SwapRemove(g, id))
  {
    SwapOutMembers(g.order, id);
  }

  lemma {:induction false} SwapRemoveAllWellKeyed(g: Graph, ids: seq<Id>)
    requires WellKeyed(g)
    ensures WellKeyed(SwapRemoveAll(g, ids))
    decreases |ids|
  {
    if ids != [] {
      SwapRemoveWellKeyed(g, ids[0]);
      SwapRemoveAllWellKeyed(SwapRemove(g, ids[0]), ids[1..]);
    }
  }

  /** A graph with fewer elements, each as before except that owned lists may have lost the ids `gone`. */
  ghost predicate Shrinks(g: Graph, h: Graph, gone: set<Id>) {
    && (forall x :: x in h.elements ==> x in g.elements && x !in gone)
    && (forall x :: x in h.elements ==> h.elements[x].(owned := g.elements[x].owned) == g.elements[x])
    && (forall x, y :: x in h.elements && y in h.elements[x].owned ==> y in g.elements[x].owned)
    && (forall x, y :: x in h.elements && y in g.elements[x].owned && y !in gone ==> y in h.elements[x].owned)
    && (forall x :: x in h.elements ==> ListsContentOnce(g, h.elements[x].owned))
  }

  ghost predicate ListsContentOnce(g: Graph, s: seq<Id>) {
    forall i, j :: 0 <= i < j < |s| && s[i] == s[j] ==> !IsContentIn(g, s[i])
  }

  lemma ListsOnceEverywhere(g: Graph, h: Graph)
    requires forall p, x :: p in h.elements && x in h.elements[p].owned && IsContentIn(h, x) ==> IsContentIn(g, x)
    requires forall p :: p in h.elements ==> ListsContentOnce(g, h.elements[p].owned)
    ensures ContentListedOnce(h)
  {
    forall p, i, j | p in h.elements && 0 <= i < j < |h.elements[p].owned| &&
                     h.elements[p].owned[i] == h.elements[p].owned[j]
      ensures !IsContentIn(h, h.elements[p].owned[i])
    {
      assert ListsContentOnce(g, h.elements[p].owned);
      assert h.elements[p].owned[i] in h.elements[p].owned;
    }
  }

  lemma {:induction false} WithoutListsContentOnce(g: Graph, s: seq<Id>, x: Id)
    requires ListsContentOnce(g, s)
    ensures ListsContentOnce(g, Without(s, x))
  {
    if s != [] {
      assert ListsContentOnce(g, s[1..]) by {
        forall i, j | 0 <= i < j < |s[1..]| && s[1..][i] == s[1..][j] ensures !IsContentIn(g, s[1..][i]) {
          assert s[i + 1] == s[j + 1];
        }
      }
      WithoutListsContentOnce(g, s[1..], x);
      var rest := Without(s[1..], x);
      if s[0] != x && IsContentIn(g, s[0]) {
        assert s[0] !in s[1..];
      }
    }
  }

  lemma ShrinksKeepsOwners(g: Graph, h: Graph, gone: set<Id>)
    requires Sound(g) && Shrinks(g, h, gone)
    ensures OwnershipAgrees(h) && ContentListedOnce(h)
  {
    forall c | c in h.elements && h.PresentOwner(c).Some?
      ensures c in h.OwnedOf(h.elements[c].owner.value)
    {
      assert g.PresentOwner(c) == g.elements[c].owner;
    }
    forall p, i, j | p in h.elements && 0 <= i < j < |h.elements[p].owned| &&
                     h.elements[p].owned[i] == h.elements[p].owned[j]
      ensures !IsContentIn(h, h.elements[p].owned[i])
    {
    }
  }

  lemma ShrinksKeepsAcyclic(g: Graph, h: Graph, gone: set<Id>)
    requires Sound(g) && Shrinks(g, h, gone)
    ensures Acyclic(h)
  {
    var rank: map<Id, nat> :| Ranks(g, rank);
    forall c | c in h.elements && h.PresentOwner(c).Some?
      ensures rank[h.elements[c].owner.value] < rank[c]
    {
      assert g.PresentOwner(c) == g.elements[c].owner;
    }
    assert Ranks(h, rank);
  }

  /** What removal deletes: the element, the wrapper it empties and every edge at the element. */
  ghost function Deleted(g: Graph, id: Id): set<Id> {
    {id} + (if EmptiedWrapper(g, id).Some? then {EmptiedWrapper(g, id).value} else {})
    + (set x | x in g.elements && Touches(g.elements[x], id))
  }

  /** The owned list an element has after the removal of `id`. */
  ghost function OwnedAfter(g: Graph, id: Id, x: Id): seq<Id>
    requires x in g.elements
  {
    var w := EmptiedWrapper(g, id);
    var s := if g.PresentOwner(id) == Some(x) then Without(g.elements[x].owned, id) else g.elements[x].owned;
    if w.Some? && g.PresentOwner(w.value) == Some(x) then Without(s, w.value) else s
  }

  lemma DetachShape(g: Graph, id: Id)
    ensures var h := Detach(g, id);
      && h.order == g.order && h.roots == g.roots && h.elements.Keys == g.elements.Keys
      && (forall x :: x in g.elements ==> h.elements[x] == g.elements[x].(owned :=
            if g.PresentOwner(id) == Some(x) then Without(g.elements[x].owned, id) else g.elements[x].owned))
  {
  }

  lemma UnlinkedShape(g: Graph, id: Id)
    requires WellKeyed(g)
    ensures var w, u := EmptiedWrapper(g, id), Unlinked(g, id);
      && WellKeyed(u)
      && (forall x :: x in u.elements <==> x in g.elements && w != Some(x))
      && (forall x :: x in u.elements ==> u.elements[x] == g.elements[x].(owned := OwnedAfter(g, id, x)))
  {
    hide Without, SwapOut, NoDuplicates;
    DetachShape(g, id);
    var w, d := EmptiedWrapper(g, id), Detach(g, id);
    if w.Some? {
      DetachShape(d, w.value);
      SwapRemoveWellKeyed(DropRoot(Detach(d, w.value), w.value), w.value);
      assert d.PresentOwner(w.value) == g.PresentOwner(w.value);
    }
  }

  lemma SweepShape(u: Graph, id: Id)
    requires WellKeyed(u)
    ensures var h := SwapRemove(SwapRemoveAll(u, EdgesAt(u, u.order, id)), id);
      && WellKeyed(h)
      && (forall x :: x in h.elements <==> x in u.elements && x != id && !Touches(u.elements[x], id))
      && (forall x :: x in h.elements ==> h.elements[x] == u.elements[x])
  {
    var edges := EdgesAt(u, u.order, id);
    SwapRemoveAllKeys(u, edges);
    SwapRemoveAllWellKeyed(u, edges);
    SwapRemoveWellKeyed(SwapRemoveAll(u, edges), id);
  }

  lemma RemoveShape(g: Graph, id: Id)
    requires WellKeyed(g)
    ensures var h := RemoveFrom(g, id);
      && WellKeyed(h)
      && (forall x :: x in h.elements <==> x in g.elements && x !in Deleted(g, id))
      && (forall x :: x in h.elements ==> h.elements[x] == g.elements[x].(owned := OwnedAfter(g, id, x)))
  {
    hide Unlinked, SwapRemoveAll, SwapRemove, EdgesAt, OwnedAfter, WellKeyed, EmptiedWrapper;
    UnlinkedShape(g, id);
    SweepShape(Unlinked(g, id), id);
  }

  lemma OwnedAfterShrinks(g: Graph, id: Id, x: Id)
    requires Sound(g) && x in g.elements
    ensures ListsContentOnce(g, OwnedAfter(g, id, x))
    ensures forall y :: y in OwnedAfter(g, id, x) ==> y in g.elements[x].owned
    ensures forall y :: y in g.elements[x].owned && y !in Deleted(g, id) ==> y in OwnedAfter(g, id, x)
  {
    var owned := g.elements[x].owned;
    assert ListsContentOnce(g, owned);
    var s := if g.PresentOwner(id) == Some(x) then Without(owned, id) else owned;
    WithoutListsContentOnce(g, owned, id);
    if EmptiedWrapper(g, id).Some? {
      WithoutListsContentOnce(g, s, EmptiedWrapper(g, id).value);
    }
  }

  lemma RemoveShrinks(g: Graph, id: Id)
    requires Sound(g)
    ensures Shrinks(g, RemoveFrom(g, id), Deleted(g, id))
  {
    RemoveShape(g, id);
    var h := RemoveFrom(g, id);
    forall x | x in h.elements
      ensures ListsContentOnce(g, h.elements[x].owned)
      ensures forall y :: y in h.elements[x].owned ==> y in g.elements[x].owned
      ensures forall y :: y in g.elements[x].owned && y !in Deleted(g, id) ==> y in h.elements[x].owned
    {
      OwnedAfterShrinks(g, id, x);
    }
  }

  /** Removing any element keeps ownership sound over the ids that remain, and no remaining edge has the
      removed id as an endpoint. */
  lemma RemoveKeepsSound(g: Graph, id: Id)
    requires Sound(g)
    ensures Sound(RemoveFrom(g, id))
    ensures id !in RemoveFrom(g, id).elements && NoEdgeAt(RemoveFrom(g, id), id)
    ensures forall x :: x in g.elements && x !in Deleted(g, id) ==> x in RemoveFrom(g, id).elements
  {
    RemoveShape(g, id);
    RemoveShrinks(g, id);
    ShrinksKeepsOwners(g, RemoveFrom(g, id), Deleted(g, id));
    ShrinksKeepsAcyclic(g, RemoveFrom(g, id), Deleted(g, id));
  }
}
