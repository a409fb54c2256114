/** Wrapping owned content in generated memberships: the pass that turns a plain ownership tree into the
    metamodel's shape, and the proof that the logical tree does not notice. */
module Wrapping {
  import opened Wrappers
  import opened ElementKinds
  import opened ModelGraph

  /** The id of the membership generated around a child. */
  function WrapId(child: Id): (w: Id)
    ensures |w| == |child| + 2 && w[..|child|] == child
  {
    child + "-m"
  }

  function IndexOf<T(==)>(s: seq<T>, x: T): (i: nat)
    requires x in s
    ensures i < |s| && s[i] == x
    ensures forall j :: 0 <= j < i ==> s[j] != x
  {
    if s[0] == x then 0 else 1 + IndexOf(s[1..], x)
  }

  function ReplaceFirst<T(==)>(s: seq<T>, x: T, y: T): seq<T> {
    if x in s then s[IndexOf(s, x) := y] else s
  }

  /** A child to wrap, with the kind and the owner it had when the pass started. */
  datatype WrapItem = WrapItem(child: Id, kind: ElementKind, parent: Id)

  function Wrapper(it: WrapItem): Element {
    NewElement(WrapId(it.child), MembershipKindFor(it.kind)).(owner := Some(it.parent), owned := [it.child])
  }

  /** Content whose owner is present and is no relationship. */
  predicate NeedsWrap(g: Graph, id: Id) {
    && IsContentIn(g, id)
    && g.PresentOwner(id).Some?
    && !g.elements[g.elements[id].owner.value].kind.IsRelationship()
  }

  function ItemsToWrap(g: Graph, ids: seq<Id>): seq<WrapItem> {
    if ids == [] then []
    else
      (if NeedsWrap(g, ids[0])
       then [WrapItem(ids[0], g.elements[ids[0]].kind, g.elements[ids[0]].owner.value)] else [])
      + ItemsToWrap(g, ids[1..])
  }

  function WrapOne(g: Graph, it: WrapItem): Graph {
    var w := WrapId(it.child);
    var moved := g.SetOwner(it.child, w);
    moved.SetOwned(it.parent, ReplaceFirst(moved.OwnedOf(it.parent), it.child, w)).Insert(Wrapper(it))
  }

  function WrapList(g: Graph, items: seq<WrapItem>): Graph
    decreases |items|
  {
    if items == [] then g else WrapList(WrapOne(g, items[0]), items[1..])
  }

  function WrapChildren(g: Graph): Graph {
    WrapList(g, ItemsToWrap(g, g.order))
  }

  /** No id that the pass would generate is in use. */
  ghost predicate WrapIdsFree(g: Graph) {
    forall c :: NeedsWrap(g, c) ==> Unmentioned(g, WrapId(c))
  }

  // ---------------------------------------------------------------------------------------------
  // One wrap
  // ---------------------------------------------------------------------------------------------

  /** An item that describes the graph it is about to be applied to. */
  ghost predicate Applies(g: Graph, it: WrapItem) {
    && NeedsWrap(g, it.child)
    && g.elements[it.child].kind == it.kind
    && g.elements[it.child].owner == Some(it.parent)
    && Unmentioned(g, WrapId(it.child))
  }

  lemma WrapOneShape(g: Graph, it: WrapItem)
    requires Sound(g) && Applies(g, it)
    ensures var h, w, owned := WrapOne(g, it), WrapId(it.child), g.elements[it.parent].owned;
      && it.child != it.parent
      && it.child in owned
      && h.order == g.order + [w]
      && h.roots == g.roots
      && h.elements.Keys == g.elements.Keys + {w}
      && h.elements[w] == Wrapper(it)
      && h.elements[it.child] == g.elements[it.child].(owner := Some(w))
      && h.elements[it.parent] == g.elements[it.parent].(owned := owned[IndexOf(owned, it.child) := w])
      && (forall x :: x in g.elements && x != it.child && x != it.parent ==> h.elements[x] == g.elements[x])
  {
    assert g.PresentOwner(it.child) == Some(it.parent);
    NotItsOwnOwner(g, it.child);
  }

  lemma WrapOneKeepsKeys(g: Graph, it: WrapItem)
    requires Sound(g) && Applies(g, it)
    ensures WellKeyed(WrapOne(g, it))
  {
    hide WrapOne;
    WrapOneShape(g, it);
  }

  /** The owner's list with the child replaced: the wrapper in, the child out, nothing else touched. */
  lemma ReplacedOnce(g: Graph, it: WrapItem)
    requires Sound(g) && Applies(g, it)
    requires it.child in g.elements[it.parent].owned
    ensures var w, owned := WrapId(it.child), g.elements[it.parent].owned;
      var replaced := owned[IndexOf(owned, it.child) := w];
      forall x :: x in replaced <==> x == w || (x in owned && x != it.child)
  {
    var w, owned := WrapId(it.child), g.elements[it.parent].owned;
    var k := IndexOf(owned, it.child);
    var replaced := owned[k := w];
    assert replaced[k] == w;
    forall x | x in owned && x != it.child ensures x in replaced {
      var j :| 0 <= j < |owned| && owned[j] == x;
      assert replaced[j] == x;
    }
    assert forall j :: k < j < |owned| ==> owned[j] != it.child;
  }

  lemma WrapOneKeepsOwners(g: Graph, it: WrapItem)
    requires Sound(g) && Applies(g, it)
    ensures OwnershipAgrees(WrapOne(g, it))
  {
    hide WrapOne;
    WrapOneShape(g, it);
    ReplacedOnce(g, it);
    var h, w := WrapOne(g, it), WrapId(it.child);
    forall c | c in h.elements && h.PresentOwner(c).Some?
      ensures c in h.OwnedOf(h.elements[c].owner.value)
    {
      if c != w && c != it.child {
        assert g.PresentOwner(c) == g.elements[c].owner;
      }
    }
    forall p, c | p in h.elements && c in h.elements[p].owned && c in h.elements
      ensures h.elements[c].owner == Some(p)
    {
      if p != w && c != w {
        assert c in g.elements[p].owned;
      }
    }
  }

  lemma WrapOneKeepsListing(g: Graph, it: WrapItem)
    requires Sound(g) && Applies(g, it)
    ensures ContentListedOnce(WrapOne(g, it))
  {
    hide WrapOne;
    WrapOneShape(g, it);
    var h, w := WrapOne(g, it), WrapId(it.child);
    assert forall x :: x != w ==> (IsContentIn(h, x) <==> IsContentIn(g, x));
    assert !IsContentIn(h, w);
  }

  lemma WrapOneKeepsAcyclic(g: Graph, it: WrapItem)
    requires Sound(g) && Applies(g, it)
    ensures Acyclic(WrapOne(g, it))
  {
    hide WrapOne;
    WrapOneShape(g, it);
    var h, w := WrapOne(g, it), WrapId(it.child);
    var rank: map<Id, nat> :| Ranks(g, rank);
    var spread: map<Id, nat> := map x | x in h.elements :: if x == w then 2 * rank[it.child] else 2 * rank[x] + 1;
    forall c | c in h.elements && h.PresentOwner(c).Some?
      ensures spread[h.elements[c].owner.value] < spread[c]
    {
      if c == w {
        assert g.PresentOwner(it.child).Some?;
      } else if c != it.child {
        assert g.PresentOwner(c).Some?;
      }
    }
    assert Ranks(h, spread);
  }

  lemma WrapOneKeepsContribution(g: Graph, it: WrapItem, y: Id)
    requires Sound(g) && Applies(g, it) && y != it.child && y != WrapId(it.child)
    ensures Contribution(WrapOne(g, it), y) == Contribution(g, y)
  {
    hide WrapOne;
    WrapOneShape(g, it);
    var h := WrapOne(g, it);
    if y in g.elements && g.elements[y].kind.IsMembership() {
      assert y != it.parent;
      ContentOfPointwise(g, h, g.elements[y].owned);
    }
  }

  lemma WrapperContributes(g: Graph, it: WrapItem)
    requires Sound(g) && Applies(g, it)
    ensures Contribution(g, it.child) == [it.child] == Contribution(WrapOne(g, it), WrapId(it.child))
  {
    hide WrapOne, Sound, Unmentioned;
    WrapOneShape(g, it);
    assert ContentOf(WrapOne(g, it), [it.child]) == [it.child] + ContentOf(WrapOne(g, it), []);
  }

  /** Wherever an element lists something, it lists the same after the wrap, with the wrapper in place of the child. */
  lemma WrapOneListsAt(g: Graph, it: WrapItem, x: Id, i: nat)
    requires Sound(g) && Applies(g, it) && x in g.elements && i < |g.elements[x].owned|
    ensures var before, h := g.elements[x].owned, WrapOne(g, it);
      && x in h.elements && |h.elements[x].owned| == |before|
      && before[i] != WrapId(it.child)
      && h.elements[x].owned[i] == if before[i] == it.child then WrapId(it.child) else before[i]
  {
    hide WrapOne, Acyclic, WellKeyed;
    WrapOneShape(g, it);
    var before := g.elements[x].owned;
    assert before[i] in before;
    if before[i] == it.child {
      assert x == it.parent;
    }
  }

  lemma WrapOneKeepsMembers(g: Graph, it: WrapItem, x: Id)
    requires Sound(g) && Applies(g, it) && x in g.elements
    ensures OwnedMembers(WrapOne(g, it), x) == OwnedMembers(g, x)
  {
    hide WrapOne, Sound, Applies, Contribution, WrapId;
    WrapOneShape(g, it);
    var h := WrapOne(g, it);
    assert x in h.elements;
    var before, after := g.elements[x].owned, h.elements[x].owned;
    if before == [] {
      assert |after| == 0 by {
        NothingListed(g, it, x);
      }
    }
    forall i | 0 <= i < |before|
      ensures |after| == |before| && Contribution(g, before[i]) == Contribution(h, after[i])
    {
      WrapOneListsAt(g, it, x, i);
      if before[i] == it.child {
        WrapperContributes(g, it);
      } else {
        WrapOneKeepsContribution(g, it, before[i]);
      }
    }
    MembersOfPointwise(g, before, h, after);
  }

  lemma NothingListed(g: Graph, it: WrapItem, x: Id)
    requires Sound(g) && Applies(g, it) && x in g.elements && g.elements[x].owned == []
    ensures x in WrapOne(g, it).elements && WrapOne(g, it).elements[x].owned == []
  {
    hide WrapOne, Sound;
    WrapOneShape(g, it);
  }

  lemma {:induction false} WrapOneKeepsQualifiedName(g: Graph, it: WrapItem, x: Id)
    requires Sound(g) && Applies(g, it) && x != WrapId(it.child)
    requires Acyclic(WrapOne(g, it))
    ensures ComputeQualifiedName(WrapOne(g, it), x) == ComputeQualifiedName(g, x)
    decreases RankOf(g, x)
  {
    hide WrapOne;
    WrapOneShape(g, it);
    var h, w := WrapOne(g, it), WrapId(it.child);
    if x in g.elements && g.elements[x].owner.Some? {
      var owner := g.elements[x].owner.value;
      assert owner != w;
      OwnerRanksLower(g, x);
      WrapOneKeepsQualifiedName(g, it, owner);
      if x == it.child {
        assert ComputeQualifiedName(h, w) == ComputeQualifiedName(h, it.parent);
      }
    }
  }

  lemma WrapOneKeepsSound(g: Graph, it: WrapItem)
    requires Sound(g) && Applies(g, it)
    ensures Sound(WrapOne(g, it))
  {
    WrapOneKeepsKeys(g, it);
    WrapOneKeepsOwners(g, it);
    WrapOneKeepsListing(g, it);
    WrapOneKeepsAcyclic(g, it);
  }

  /** After one wrap the child no longer needs one and every other item still applies. */
  lemma WrapOneKeepsOthers(g: Graph, it: WrapItem, other: WrapItem)
    requires Sound(g) && Applies(g, it) && Applies(g, other) && other.child != it.child
    ensures Applies(WrapOne(g, it), other)
  {
    hide WrapOne;
    WrapOneShape(g, it);
    var h, w, v := WrapOne(g, it), WrapId(it.child), WrapId(other.child);
    assert w != v by {
      assert |w| == |v| ==> w[..|it.child|] == it.child && v[..|it.child|] == v[..|other.child|];
    }
    var owned := g.elements[it.parent].owned;
    assert v !in owned[IndexOf(owned, it.child) := w];
  }

  lemma WrapOneNeeds(g: Graph, it: WrapItem, x: Id)
    requires Sound(g) && Applies(g, it)
    ensures NeedsWrap(WrapOne(g, it), x) <==> NeedsWrap(g, x) && x != it.child
  {
    hide WrapOne;
    WrapOneShape(g, it);
  }

  // ---------------------------------------------------------------------------------------------
  // The whole pass
  // ---------------------------------------------------------------------------------------------

  ghost predicate AllApply(g: Graph, items: seq<WrapItem>) {
    && (forall i :: 0 <= i < |items| ==> Applies(g, items[i]))
    && (forall i, j :: 0 <= i < j < |items| ==> items[i].child != items[j].child)
  }

  ghost predicate IsItem(items: seq<WrapItem>, x: Id) {
    exists i :: 0 <= i < |items| && items[i].child == x
  }

  lemma ItemApplies(g: Graph, id: Id)
    requires NeedsWrap(g, id) && WrapIdsFree(g)
    ensures g.elements[id].owner.Some?
    ensures Applies(g, WrapItem(id, g.elements[id].kind, g.elements[id].owner.value))
  {
    hide Unmentioned, WrapId;
  }

  lemma {:induction false} ItemsToWrapComplete(g: Graph, ids: seq<Id>)
    requires NoDuplicates(ids) && WrapIdsFree(g)
    ensures AllApply(g, ItemsToWrap(g, ids))
    ensures forall i :: 0 <= i < |ItemsToWrap(g, ids)| ==> ItemsToWrap(g, ids)[i].child in ids
    ensures forall x :: x in ids && NeedsWrap(g, x) ==> IsItem(ItemsToWrap(g, ids), x)
  {
    hide NeedsWrap, Applies, WrapIdsFree;
    if ids != [] {
      var rest := ItemsToWrap(g, ids[1..]);
      assert NoDuplicates(ids[1..]) by {
        forall i, j | 0 <= i < j < |ids[1..]| ensures ids[1..][i] != ids[1..][j] {
          assert ids[i + 1] != ids[j + 1];
        }
      }
      ItemsToWrapComplete(g, ids[1..]);
      if NeedsWrap(g, ids[0]) {
        ItemApplies(g, ids[0]);
      }
      var items := ItemsToWrap(g, ids);
      assert ids[0] !in ids[1..];
      forall x | x in ids && NeedsWrap(g, x) ensures IsItem(items, x) {
        if x == ids[0] {
          assert items[0].child == x;
        } else {
          assert x in ids[1..];
          var k :| 0 <= k < |rest| && rest[k].child == x;
          assert items[|items| - |rest| + k].child == x;
        }
      }
    }
  }

  lemma AllApplyRest(g: Graph, items: seq<WrapItem>)
    requires Sound(g) && items != [] && AllApply(g, items)
    ensures Sound(WrapOne(g, items[0])) && AllApply(WrapOne(g, items[0]), items[1..])
  {
    WrapOneKeepsSound(g, items[0]);
    forall i | 0 <= i < |items[1..]| ensures Applies(WrapOne(g, items[0]), items[1..][i]) {
      WrapOneKeepsOthers(g, items[0], items[i + 1]);
    }
  }

  lemma {:induction false} WrapListKeepsSound(g: Graph, items: seq<WrapItem>)
    requires Sound(g) && AllApply(g, items)
    ensures Sound(WrapList(g, items))
    ensures forall x :: x in g.elements ==> x in WrapList(g, items).elements
    decreases |items|
  {
    if items != [] {
      AllApplyRest(g, items);
      WrapOneShape(g, items[0]);
      WrapListKeepsSound(WrapOne(g, items[0]), items[1..]);
    }
  }

  lemma {:induction false} WrapListKeepsTree(g: Graph, items: seq<WrapItem>, x: Id)
    requires Sound(g) && AllApply(g, items) && x in g.elements
    requires Acyclic(WrapList(g, items))
    ensures OwnedMembers(WrapList(g, items), x) == OwnedMembers(g, x)
    ensures ComputeQualifiedName(WrapList(g, items), x) == ComputeQualifiedName(g, x)
    decreases |items|
  {
    if items != [] {
      AllApplyRest(g, items);
      WrapOneShape(g, items[0]);
      WrapOneKeepsMembers(g, items[0], x);
      WrapOneKeepsQualifiedName(g, items[0], x);
      WrapListKeepsTree(WrapOne(g, items[0]), items[1..], x);
    }
  }

  lemma IsItemCons(items: seq<WrapItem>, x: Id)
    requires items != []
    ensures IsItem(items, x) <==> items[0].child == x || IsItem(items[1..], x)
  {
    if IsItem(items[1..], x) {
      var k :| 0 <= k < |items[1..]| && items[1..][k].child == x;
      assert items[k + 1].child == x;
    }
    if IsItem(items, x) && items[0].child != x {
      var k :| 0 <= k < |items| && items[k].child == x;
      assert items[1..][k - 1].child == x;
    }
  }

  lemma {:induction false} WrapListNeeds(g: Graph, items: seq<WrapItem>, x: Id)
    requires Sound(g) && AllApply(g, items)
    ensures NeedsWrap(WrapList(g, items), x) <==> NeedsWrap(g, x) && !IsItem(items, x)
    decreases |items|
  {
    if items != [] {
      AllApplyRest(g, items);
      WrapOneNeeds(g, items[0], x);
      WrapListNeeds(WrapOne(g, items[0]), items[1..], x);
      IsItemCons(items, x);
    }
  }

  /** Wrapping preserves meaning: ownership stays consistent and acyclic, and every element that was there
      keeps the sequence of its members and its computed qualified name. */
  lemma WrapChildrenPreservesTree(g: Graph, x: Id)
    requires Sound(g) && WrapIdsFree(g)
    ensures Sound(WrapChildren(g))
    ensures x in g.elements ==>
      && x in WrapChildren(g).elements
      && OwnedMembers(WrapChildren(g), x) == OwnedMembers(g, x)
      && ComputeQualifiedName(WrapChildren(g), x) == ComputeQualifiedName(g, x)
  {
    ItemsToWrapComplete(g, g.order);
    WrapListKeepsSound(g, ItemsToWrap(g, g.order));
    if x in g.elements {
      WrapListKeepsTree(g, ItemsToWrap(g, g.order), x);
    }
  }

  /** Afterwards every content element with a present owner sits under a relationship. */
  lemma WrapChildrenWrapsAll(g: Graph, x: Id)
    requires Sound(g) && WrapIdsFree(g)
    ensures !NeedsWrap(WrapChildren(g), x)
  {
    ItemsToWrapComplete(g, g.order);
    WrapListNeeds(g, ItemsToWrap(g, g.order), x);
  }

  lemma {:induction false} NothingToWrap(g: Graph, ids: seq<Id>)
    requires forall x :: x in ids ==> !NeedsWrap(g, x)
    ensures ItemsToWrap(g, ids) == []
  {
    if ids != [] {
      assert ids[0] in ids;
      NothingToWrap(g, ids[1..]);
    }
  }

  /** The pass is idempotent. */
  lemma WrapChildrenIdempotent(g: Graph)
    requires Sound(g) && WrapIdsFree(g)
    ensures WrapChildren(WrapChildren(g)) == WrapChildren(g)
  {
    var h := WrapChildren(g);
    forall x ensures !NeedsWrap(h, x) {
      WrapChildrenWrapsAll(g, x);
    }
    NothingToWrap(h, h.order);
  }

  // ---------------------------------------------------------------------------------------------
  // The pass in place
  // ---------------------------------------------------------------------------------------------

  method CollectItems(model: Model) returns (items: seq<WrapItem>)
    ensures items == ItemsToWrap(model.Value(), model.order)
  {
    items := [];
    ghost var g := model.Value();
    for i := 0 to |model.order|
      invariant items + ItemsToWrap(g, g.order[i..]) == ItemsToWrap(g, g.order)
    {
      var id := model.order[i];
      assert g.order[i..][0] == id && g.order[i..][1..] == g.order[i + 1..];
      if id in model.elements {
        var e := model.elements[id];
        if e.owner.Some? && !e.kind.IsRelationship() && !e.kind.IsMembership() && e.owner.value in model.elements {
          var owner := model.elements[e.owner.value];
          if !owner.kind.IsMembership() && !owner.kind.IsRelationship() {
            items := items + [WrapItem(id, e.kind, e.owner.value)];
          }
        }
      }
    }
  }

  method WrapItemInPlace(model: Model, it: WrapItem)
    modifies model
    ensures model.Value() == WrapOne(old(model.Value()), it)
  {
    var w := WrapId(it.child);
    model.SetOwner(it.child, w);
    if it.parent in model.elements && it.child in model.elements[it.parent].owned {
      var owned := model.elements[it.parent].owned;
      model.SetOwned(it.parent, owned[IndexOf(owned, it.child) := w]);
    }
    model.Insert(Wrapper(it));
  }

  method WrapChildrenInMemberships(model: Model)
    modifies model
    ensures model.Value() == WrapChildren(old(model.Value()))
  {
    var items := CollectItems(model);
    for i := 0 to |items|
      invariant WrapList(model.Value(), items[i..]) == WrapChildren(old(model.Value()))
    {
      assert items[i..][0] == items[i] && items[i..][1..] == items[i + 1..];
      WrapItemInPlace(model, items[i]);
    }
  }
}
