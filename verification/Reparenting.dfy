/** Moving an element to another owner: what the logical tree looks like afterwards, and when the ownership
    graph stays acyclic and consistent. */
module Reparenting {
  import opened Wrappers
  import opened ElementKinds
  import opened ModelGraph
  import opened Wrapping
  import opened EditSpec

  /** The element or the membership that carries it: what changes hands in the move. */
  function Moved(g: Graph, id: Id): Id {
    if CarryingWrapper(g, id).Some? then CarryingWrapper(g, id).value else id
  }

  /** The content that the move takes along as members. */
  function Carried(g: Graph, id: Id): seq<Id> {
    if CarryingWrapper(g, id).Some? then ContentOf(g, g.OwnedOf(CarryingWrapper(g, id).value)) else [id]
  }

  /** Ownership leads from `id` up to `ancestor`. */
  ghost predicate Descends(g: Graph, id: Id, ancestor: Id)
    requires Acyclic(g)
    decreases RankOf(g, id)
  {
    id == ancestor || (g.PresentOwner(id).Some? && Descends(g, g.PresentOwner(id).value, ancestor))
  }

  /** The move generates a wrapper: the element has none, and both it and the new owner are content. */
  predicate Generates(g: Graph, id: Id, newOwner: Id) {
    CarryingWrapper(g, id).None? && id in g.elements && WrapsUnder(g, g.elements[id].kind, newOwner)
  }

  /** What any move needs: the element, the owner, and a free id for a wrapper that has to be generated. */
  ghost predicate CanMove(g: Graph, id: Id, newOwner: Id) {
    && Sound(g) && id in g.elements && newOwner in g.elements
    && (Generates(g, id, newOwner) ==> Unmentioned(g, WrapId(id)))
  }

  /** What a move between content elements needs: a content element, a content owner, and, without
      a wrapper yet, a free id for one. */
  ghost predicate MoveReady(g: Graph, id: Id, newOwner: Id) {
    && Sound(g) && IsContentIn(g, id) && IsContentIn(g, newOwner)
    && (CarryingWrapper(g, id).None? ==> Unmentioned(g, WrapId(id)))
  }

  /** The owned list an element has after a relink. */
  function OwnedAfterMove(g: Graph, x: Id, newOwner: Id, y: Id, p: Id): seq<Id> {
    (if g.PresentOwner(x) == Some(p) then Without(g.OwnedOf(p), x) else g.OwnedOf(p))
    + (if p == newOwner then [y] else [])
  }

  // ---------------------------------------------------------------------------------------------
  // Shape of the two branches
  // ---------------------------------------------------------------------------------------------

  lemma RelinkShape(g: Graph, x: Id, owner: Id, newOwner: Id, y: Id)
    requires x in g.elements && newOwner in g.elements && x != newOwner && g.PresentOwner(x) != Some(x)
    ensures var h := Relink(g, x, owner, newOwner, y);
      && h.order == g.order && h.elements.Keys == g.elements.Keys && h.roots == Without(g.roots, x)
      && h.elements[x] == g.elements[x].(owner := Some(owner))
      && (forall p :: p in g.elements && p != x ==>
            h.elements[p] == g.elements[p].(owned := OwnedAfterMove(g, x, newOwner, y, p)))
  {
    hide Detach, Without;
    DetachShape(g, x);
    var h := Relink(g, x, owner, newOwner, y);
    RelinkAt(g, x, owner, newOwner, y, x);
    forall p | p in g.elements && p != x
      ensures h.elements[p] == g.elements[p].(owned := OwnedAfterMove(g, x, newOwner, y, p))
    {
      RelinkAt(g, x, owner, newOwner, y, p);
    }
  }

  lemma RelinkAt(g: Graph, x: Id, owner: Id, newOwner: Id, y: Id, p: Id)
    requires x in g.elements && newOwner in g.elements && x != newOwner && g.PresentOwner(x) != Some(x)
    requires p in g.elements
    ensures var h := Relink(g, x, owner, newOwner, y);
      && h.elements.Keys == g.elements.Keys
      && h.elements[p] == (if p == x then g.elements[x].(owner := Some(owner))
                           else g.elements[p].(owned := OwnedAfterMove(g, x, newOwner, y, p)))
  {
    hide Detach, Without;
    DetachShape(g, x);
  }

  lemma MoveRelinkShape(g: Graph, id: Id, newOwner: Id)
    requires CanMove(g, id, newOwner) && !Generates(g, id, newOwner) && Moved(g, id) != newOwner
    ensures var h, m := MoveTo(g, id, newOwner), Moved(g, id);
      && m in g.elements && (CarryingWrapper(g, id).Some? ==> m != id && g.elements[m].kind.IsMembership())
      && h.order == g.order && h.elements.Keys == g.elements.Keys && h.roots == Without(g.roots, m)
      && h.elements[m] == g.elements[m].(owner := Some(newOwner))
      && (forall p :: p in g.elements && p != m ==>
            h.elements[p] == g.elements[p].(owned := OwnedAfterMove(g, m, newOwner, m, p)))
  {
    var m := Moved(g, id);
    if g.PresentOwner(m).Some? {
      NotItsOwnOwner(g, m);
    }
    RelinkShape(g, m, newOwner, newOwner, m);
  }

  lemma MoveWrapShape(g: Graph, id: Id, newOwner: Id)
    requires CanMove(g, id, newOwner) && Generates(g, id, newOwner) && id != newOwner
    ensures var h, w := MoveTo(g, id, newOwner), WrapId(id);
      && w !in g.elements
      && h.order == g.order + [w] && h.elements.Keys == g.elements.Keys + {w} && h.roots == Without(g.roots, id)
      && h.elements[w] == Wrapper(WrapItem(id, g.elements[id].kind, newOwner))
      && h.elements[id] == g.elements[id].(owner := Some(w))
      && (forall p :: p in g.elements && p != id ==>
            h.elements[p] == g.elements[p].(owned := OwnedAfterMove(g, id, newOwner, w, p)))
  {
    if g.PresentOwner(id).Some? {
      NotItsOwnOwner(g, id);
    }
    RelinkShape(g, id, WrapId(id), newOwner, WrapId(id));
  }

  /** The id that the new owner lists after the move. */
  function Listed(g: Graph, id: Id, newOwner: Id): Id {
    if Generates(g, id, newOwner) then WrapId(id) else Moved(g, id)
  }

  /** One element of the moved graph, whichever branch was taken. */
  lemma MovePoint(g: Graph, id: Id, newOwner: Id, p: Id)
    requires CanMove(g, id, newOwner) && Moved(g, id) != newOwner
    ensures var h, m := MoveTo(g, id, newOwner), Moved(g, id);
      && (p in g.elements ==>
            && p in h.elements
            && h.elements[p].kind == g.elements[p].kind
            && h.elements[p].owned == OwnedAfterMove(g, m, newOwner, Listed(g, id, newOwner), p)
            && (p != m ==> h.elements[p].owner == g.elements[p].owner))
      && (p in h.elements && p !in g.elements ==>
            Generates(g, id, newOwner) && p == WrapId(id)
            && h.elements[p] == Wrapper(WrapItem(id, g.elements[id].kind, newOwner)))
  {
    hide MoveTo, WellKeyed, OwnershipAgrees, ContentListedOnce;
    if !Generates(g, id, newOwner) {
      MoveRelinkShape(g, id, newOwner);
      if g.PresentOwner(Moved(g, id)).Some? {
        NotItsOwnOwner(g, Moved(g, id));
      }
    } else {
      MoveWrapShape(g, id, newOwner);
      if g.PresentOwner(id).Some? {
        NotItsOwnOwner(g, id);
      }
    }
  }

  // ---------------------------------------------------------------------------------------------
  // Consistency
  // ---------------------------------------------------------------------------------------------

  lemma MoveKeepsKeys(g: Graph, id: Id, newOwner: Id)
    requires CanMove(g, id, newOwner) && Moved(g, id) != newOwner
    ensures WellKeyed(MoveTo(g, id, newOwner))
    ensures forall x :: x in g.elements ==> x in MoveTo(g, id, newOwner).elements
  {
    hide MoveTo, OwnedAfterMove, OwnershipAgrees, Acyclic, ContentListedOnce;
    if !Generates(g, id, newOwner) {
      MoveRelinkShape(g, id, newOwner);
    } else {
      MoveWrapShape(g, id, newOwner);
    }
  }

  lemma OwnedAfterMoveMembers(g: Graph, x: Id, newOwner: Id, y: Id, p: Id, z: Id)
    requires OwnershipAgrees(g) && x in g.elements && p in g.elements
    ensures z in OwnedAfterMove(g, x, newOwner, y, p) <==>
            (z in g.elements[p].owned && z != x) || (p == newOwner && z == y)
  {
    if x in g.elements[p].owned {
      assert g.elements[x].owner == Some(p);
    }
  }

  lemma MovedIsListed(g: Graph, id: Id, newOwner: Id, c: Id)
    requires CanMove(g, id, newOwner) && Moved(g, id) != newOwner
    requires var h := MoveTo(g, id, newOwner); c in h.elements && h.PresentOwner(c).Some?
    ensures var h := MoveTo(g, id, newOwner); c in h.OwnedOf(h.elements[c].owner.value)
  {
    hide MoveTo, OwnedAfterMove, WellKeyed, Acyclic, ContentListedOnce;
    var h := MoveTo(g, id, newOwner);
    var o := h.elements[c].owner.value;
    if !Generates(g, id, newOwner) {
      MoveRelinkShape(g, id, newOwner);
      if o in g.elements && o != Moved(g, id) {
        OwnedAfterMoveMembers(g, Moved(g, id), newOwner, Moved(g, id), o, c);
      }
    } else {
      MoveWrapShape(g, id, newOwner);
      if o in g.elements && o != id {
        OwnedAfterMoveMembers(g, id, newOwner, WrapId(id), o, c);
      }
    }
    assert c in g.elements && g.PresentOwner(c).Some? ==> c in g.OwnedOf(g.elements[c].owner.value);
  }

  lemma ListedIsOwned(g: Graph, id: Id, newOwner: Id, p: Id, c: Id)
    requires CanMove(g, id, newOwner) && Moved(g, id) != newOwner
    requires var h := MoveTo(g, id, newOwner); p in h.elements && c in h.elements && c in h.elements[p].owned
    ensures MoveTo(g, id, newOwner).elements[c].owner == Some(p)
  {
    if !Generates(g, id, newOwner) {
      MoveRelinkShape(g, id, newOwner);
      OwnedAfterMoveMembers(g, Moved(g, id), newOwner, Moved(g, id), p, c);
    } else {
      MoveWrapShape(g, id, newOwner);
      if p in g.elements {
        OwnedAfterMoveMembers(g, id, newOwner, WrapId(id), p, c);
      }
    }
    assert p in g.elements && c in g.elements && c in g.elements[p].owned ==> g.elements[c].owner == Some(p);
  }

  lemma MoveKeepsOwners(g: Graph, id: Id, newOwner: Id)
    requires CanMove(g, id, newOwner) && Moved(g, id) != newOwner
    ensures OwnershipAgrees(MoveTo(g, id, newOwner))
  {
    var h := MoveTo(g, id, newOwner);
    forall c | c in h.elements && h.PresentOwner(c).Some?
      ensures c in h.OwnedOf(h.elements[c].owner.value)
    {
      MovedIsListed(g, id, newOwner, c);
    }
    forall p, c | p in h.elements && c in h.elements[p].owned && c in h.elements
      ensures h.elements[c].owner == Some(p)
    {
      ListedIsOwned(g, id, newOwner, p, c);
    }
  }

  lemma OwnedAfterMoveListsOnce(g: Graph, x: Id, newOwner: Id, y: Id, p: Id)
    requires ContentListedOnce(g) && OwnershipAgrees(g) && x in g.elements && p in g.elements
    requires y == x || !IsContentIn(g, y)
    ensures ListsContentOnce(g, OwnedAfterMove(g, x, newOwner, y, p))
  {
    var kept := if g.PresentOwner(x) == Some(p) then Without(g.OwnedOf(p), x) else g.OwnedOf(p);
    assert ListsContentOnce(g, g.elements[p].owned);
    WithoutListsContentOnce(g, g.elements[p].owned, x);
    assert x in g.elements[p].owned ==> g.elements[x].owner == Some(p);
    assert x !in kept;
  }

  lemma MoveKeepsContent(g: Graph, id: Id, newOwner: Id, x: Id)
    requires CanMove(g, id, newOwner) && Moved(g, id) != newOwner
    ensures IsContentIn(MoveTo(g, id, newOwner), x) <==> IsContentIn(g, x)
  {
    MovePoint(g, id, newOwner, x);
  }

  lemma MoveListsOnce(g: Graph, id: Id, newOwner: Id, p: Id)
    requires CanMove(g, id, newOwner) && Moved(g, id) != newOwner
    requires p in MoveTo(g, id, newOwner).elements
    ensures ListsContentOnce(g, MoveTo(g, id, newOwner).elements[p].owned)
  {
    hide MoveTo, OwnedAfterMove, ContentListedOnce, OwnershipAgrees, Acyclic;
    MovePoint(g, id, newOwner, p);
    if p in g.elements {
      OwnedAfterMoveListsOnce(g, Moved(g, id), newOwner, Listed(g, id, newOwner), p);
    }
  }

  lemma MoveKeepsListing(g: Graph, id: Id, newOwner: Id)
    requires CanMove(g, id, newOwner) && Moved(g, id) != newOwner
    ensures ContentListedOnce(MoveTo(g, id, newOwner))
  {
    var h := MoveTo(g, id, newOwner);
    forall x ensures IsContentIn(h, x) ==> IsContentIn(g, x) {
      MoveKeepsContent(g, id, newOwner, x);
    }
    forall p | p in h.elements ensures ListsContentOnce(g, h.elements[p].owned) {
      MoveListsOnce(g, id, newOwner, p);
    }
    ListsOnceEverywhere(g, h);
  }

  // ---------------------------------------------------------------------------------------------
  // Acyclicity
  // ---------------------------------------------------------------------------------------------

  lemma MoveKeepsOwnerOf(g: Graph, id: Id, newOwner: Id, c: Id)
    requires CanMove(g, id, newOwner) && Moved(g, id) != newOwner && c in g.elements && c != Moved(g, id)
    ensures MoveTo(g, id, newOwner).PresentOwner(c) == g.PresentOwner(c)
  {
    hide OwnedAfterMove, WellKeyed, OwnershipAgrees, ContentListedOnce, MoveTo;
    if !Generates(g, id, newOwner) {
      MoveRelinkShape(g, id, newOwner);
    } else {
      MoveWrapShape(g, id, newOwner);
    }
  }

  lemma MoveOwnersAfter(g: Graph, id: Id, newOwner: Id)
    requires CanMove(g, id, newOwner) && Moved(g, id) != newOwner
    ensures var h, m, w := MoveTo(g, id, newOwner), Moved(g, id), WrapId(id);
      && (forall c :: c in h.elements && c !in g.elements ==> c == w && m == id && h.PresentOwner(w) == Some(newOwner))
      && (h.PresentOwner(m) == Some(newOwner) ||
          (m == id && w !in g.elements && w in h.elements && h.PresentOwner(m) == Some(w)))
  {
    if !Generates(g, id, newOwner) {
      MoveRelinkShape(g, id, newOwner);
    } else {
      MoveWrapShape(g, id, newOwner);
    }
  }

  /** The ranks of a move: the subtree is lifted above the new owner, a new wrapper goes in between. */
  ghost function LiftedRank(g: Graph, rank: map<Id, nat>, m: Id, newOwner: Id, x: Id): nat
    requires Ranks(g, rank) && newOwner in g.elements && Acyclic(g)
  {
    if x !in g.elements then rank[newOwner] + 1
    else if Descends(g, x, m) then rank[x] + rank[newOwner] + 2
    else rank[x]
  }

  lemma LiftedRankDecreases(g: Graph, id: Id, newOwner: Id, rank: map<Id, nat>, c: Id)
    requires CanMove(g, id, newOwner) && !Descends(g, newOwner, Moved(g, id)) && Moved(g, id) != newOwner
    requires Ranks(g, rank)
    requires var h := MoveTo(g, id, newOwner); c in h.elements && h.PresentOwner(c).Some?
    ensures var h, m := MoveTo(g, id, newOwner), Moved(g, id);
      LiftedRank(g, rank, m, newOwner, h.PresentOwner(c).value) < LiftedRank(g, rank, m, newOwner, c)
  {
    MoveOwnersAfter(g, id, newOwner);
    if c in g.elements && c != Moved(g, id) {
      MoveKeepsOwnerOf(g, id, newOwner, c);
    }
  }

  lemma MoveOutsideIsAcyclic(g: Graph, id: Id, newOwner: Id)
    requires CanMove(g, id, newOwner) && !Descends(g, newOwner, Moved(g, id)) && Moved(g, id) != newOwner
    ensures Acyclic(MoveTo(g, id, newOwner))
  {
    var h, m := MoveTo(g, id, newOwner), Moved(g, id);
    var rank: map<Id, nat> :| Ranks(g, rank);
    var lifted: map<Id, nat> := map x | x in h.elements :: LiftedRank(g, rank, m, newOwner, x);
    forall c | c in h.elements && h.PresentOwner(c).Some?
      ensures lifted[h.elements[c].owner.value] < lifted[c]
    {
      LiftedRankDecreases(g, id, newOwner, rank, c);
    }
    assert Ranks(h, lifted);
  }

  lemma {:induction false} RanksAboveMoved(g: Graph, id: Id, newOwner: Id, rank: map<Id, nat>, x: Id)
    requires CanMove(g, id, newOwner) && Moved(g, id) != newOwner && Ranks(MoveTo(g, id, newOwner), rank)
    requires x in g.elements && Descends(g, x, Moved(g, id))
    ensures x in rank && Moved(g, id) in rank && rank[Moved(g, id)] <= rank[x]
    decreases RankOf(g, x)
  {
    MoveKeepsKeys(g, id, newOwner);
    if x != Moved(g, id) {
      RanksAboveMoved(g, id, newOwner, rank, g.PresentOwner(x).value);
      MoveKeepsOwnerOf(g, id, newOwner, x);
    }
  }

  /** Moving an element under its own subtree closes a cycle. */
  lemma MoveInsideIsCyclic(g: Graph, id: Id, newOwner: Id)
    requires CanMove(g, id, newOwner) && Descends(g, newOwner, Moved(g, id)) && Moved(g, id) != newOwner
    ensures !Acyclic(MoveTo(g, id, newOwner))
  {
    var h := MoveTo(g, id, newOwner);
    forall rank: map<Id, nat> ensures !Ranks(h, rank) {
      if Ranks(h, rank) {
        RanksAboveMoved(g, id, newOwner, rank, newOwner);
        MovedRanksAboveOwner(g, id, newOwner, rank);
        assert false;
      }
    }
  }

  lemma MovedRanksAboveOwner(g: Graph, id: Id, newOwner: Id, rank: map<Id, nat>)
    requires CanMove(g, id, newOwner) && Moved(g, id) != newOwner && Ranks(MoveTo(g, id, newOwner), rank)
    ensures newOwner in rank && Moved(g, id) in rank && rank[newOwner] < rank[Moved(g, id)]
  {
    MoveOwnersAfter(g, id, newOwner);
    MoveKeepsKeys(g, id, newOwner);
    var h, m := MoveTo(g, id, newOwner), Moved(g, id);
    var above := h.PresentOwner(m).value;
    assert rank[above] < rank[m];
    if above != newOwner {
      assert h.PresentOwner(above) == Some(newOwner);
    }
  }

  // ---------------------------------------------------------------------------------------------
  // Members
  // ---------------------------------------------------------------------------------------------

  function WithoutAll(s: seq<Id>, gone: seq<Id>): seq<Id> {
    if s == [] then [] else (if s[0] in gone then [] else [s[0]]) + WithoutAll(s[1..], gone)
  }

  lemma {:induction false} WithoutAllConcat(a: seq<Id>, b: seq<Id>, gone: seq<Id>)
    ensures WithoutAll(a + b, gone) == WithoutAll(a, gone) + WithoutAll(b, gone)
  {
    if a == [] {
      assert a + b == b;
    } else {
      assert (a + b)[0] == a[0] && (a + b)[1..] == a[1..] + b;
      WithoutAllConcat(a[1..], b, gone);
    }
  }

  lemma {:induction false} WithoutAllDisjoint(s: seq<Id>, gone: seq<Id>)
    requires forall x :: x in s ==> x !in gone
    ensures WithoutAll(s, gone) == s
  {
    if s != [] {
      assert s[0] in s;
      WithoutAllDisjoint(s[1..], gone);
    }
  }

  lemma {:induction false} WithoutAllCovered(s: seq<Id>, gone: seq<Id>)
    requires forall x :: x in s ==> x in gone
    ensures WithoutAll(s, gone) == []
  {
    if s != [] {
      assert s[0] in s;
      WithoutAllCovered(s[1..], gone);
    }
  }

  lemma {:induction false} ContentOfIsIn(g: Graph, ids: seq<Id>)
    ensures forall x :: x in ContentOf(g, ids) <==> x in ids && IsContentIn(g, x)
  {
    if ids != [] {
      assert ids == [ids[0]] + ids[1..];
      ContentOfIsIn(g, ids[1..]);
    }
  }

  /** Everything a listed child contributes is the child itself or has the child as its owner. */
  lemma ContributionOwner(g: Graph, y: Id, x: Id)
    requires OwnershipAgrees(g) && x in Contribution(g, y)
    ensures x in g.elements && (x == y || g.elements[x].owner == Some(y))
  {
    if g.elements[y].kind.IsMembership() {
      ContentOfIsIn(g, g.elements[y].owned);
    }
  }

  /** Taking the moved id off a list takes exactly the carried members off its members. */
  lemma {:induction false} MembersWithoutMoved(g: Graph, id: Id, ids: seq<Id>)
    requires Sound(g) && IsContentIn(g, id)
    requires CarryingWrapper(g, id).Some? ==> forall y :: y in ids ==> !(y in Carried(g, id))
    ensures MembersOf(g, Without(ids, Moved(g, id))) == WithoutAll(MembersOf(g, ids), Carried(g, id))
  {
    hide Sound, Moved, Carried, Contribution, CarryingWrapper;
    if ids != [] {
      assert ids[0] in ids;
      MembersWithoutMoved(g, id, ids[1..]);
      WithoutAllConcat(Contribution(g, ids[0]), MembersOf(g, ids[1..]), Carried(g, id));
      MovedContribution(g, id, ids[0]);
      if ids[0] != Moved(g, id) {
        var rest := Without(ids[1..], Moved(g, id));
        assert Without(ids, Moved(g, id)) == [ids[0]] + rest;
        assert ([ids[0]] + rest)[1..] == rest;
      }
    }
  }

  lemma MovedContribution(g: Graph, id: Id, y: Id)
    requires Sound(g) && IsContentIn(g, id)
    requires CarryingWrapper(g, id).Some? ==> y !in Carried(g, id)
    ensures WithoutAll(Contribution(g, y), Carried(g, id)) ==
            if y == Moved(g, id) then [] else Contribution(g, y)
  {
    var m := Moved(g, id);
    if CarryingWrapper(g, id).Some? {
      ContentOfIsIn(g, g.elements[m].owned);
    }
    if y == m {
      WithoutAllCovered(Contribution(g, y), Carried(g, id));
    } else {
      forall x | x in Contribution(g, y) ensures x !in Carried(g, id) {
        ContributionOwner(g, y, x);
      }
      WithoutAllDisjoint(Contribution(g, y), Carried(g, id));
    }
  }

  /** A carried element is listed by nobody but the wrapper that carries it. */
  lemma CarriedOnlyInWrapper(g: Graph, id: Id, p: Id)
    requires Sound(g) && IsContentIn(g, id) && CarryingWrapper(g, id).Some? && p in g.elements && p != Moved(g, id)
    ensures forall y :: y in g.elements[p].owned ==> y !in Carried(g, id)
  {
    hide WellKeyed, Acyclic, ContentListedOnce, ContentOf;
    ContentOfIsIn(g, g.elements[Moved(g, id)].owned);
  }

  lemma {:induction false} ContentOfWithout(g: Graph, s: seq<Id>, x: Id)
    requires !IsContentIn(g, x)
    ensures ContentOf(g, Without(s, x)) == ContentOf(g, s)
  {
    if s != [] {
      ContentOfWithout(g, s[1..], x);
      if s[0] != x {
        assert Without(s, x)[1..] == Without(s[1..], x);
      }
    }
  }

  /** The content a membership lists does not change: at most a nested membership leaves its list. */
  lemma MoveKeepsMembershipContent(g: Graph, id: Id, newOwner: Id, y: Id)
    requires MoveReady(g, id, newOwner) && y in g.elements && g.elements[y].kind.IsMembership()
    ensures ContentOf(g, OwnedAfterMove(g, Moved(g, id), newOwner, Listed(g, id, newOwner), y)) ==
              ContentOf(g, g.elements[y].owned)
  {
    var owned := g.elements[y].owned;
    assert Without(owned, Moved(g, id)) + [] == Without(owned, Moved(g, id)) && owned + [] == owned;
    if CarryingWrapper(g, id).Some? {
      ContentOfWithout(g, owned, Moved(g, id));
    }
  }

  /** What a child contributes does not depend on the move, and a new wrapper contributes what it wraps. */
  lemma MoveKeepsContribution(g: Graph, id: Id, newOwner: Id, y: Id)
    requires MoveReady(g, id, newOwner) && id != newOwner && y in g.elements
    ensures Contribution(MoveTo(g, id, newOwner), y) == Contribution(g, y)
  {
    var h := MoveTo(g, id, newOwner);
    MovePoint(g, id, newOwner, y);
    if g.elements[y].kind.IsMembership() {
      MoveContentOf(g, id, newOwner, h.elements[y].owned);
      MoveKeepsMembershipContent(g, id, newOwner, y);
    }
  }

  lemma MoveContentOf(g: Graph, id: Id, newOwner: Id, ids: seq<Id>)
    requires MoveReady(g, id, newOwner) && id != newOwner
    ensures ContentOf(MoveTo(g, id, newOwner), ids) == ContentOf(g, ids)
  {
    forall x | x in ids ensures IsContentIn(MoveTo(g, id, newOwner), x) <==> IsContentIn(g, x) {
      MoveKeepsContent(g, id, newOwner, x);
    }
    ContentOfPointwise(MoveTo(g, id, newOwner), g, ids);
  }

  lemma ListedContribution(g: Graph, id: Id, newOwner: Id)
    requires MoveReady(g, id, newOwner) && id != newOwner
    ensures Contribution(MoveTo(g, id, newOwner), Listed(g, id, newOwner)) == Carried(g, id)
  {
    if CarryingWrapper(g, id).Some? {
      MoveKeepsContribution(g, id, newOwner, Moved(g, id));
    } else {
      MoveWrapShape(g, id, newOwner);
      MoveContentOf(g, id, newOwner, [id]);
      assert ContentOf(g, [id]) == [id] + ContentOf(g, []);
    }
  }

  lemma MoveKeepsAnyContribution(g: Graph, id: Id, newOwner: Id, y: Id)
    requires MoveReady(g, id, newOwner) && id != newOwner
    requires CarryingWrapper(g, id).Some? || y != WrapId(id)
    ensures Contribution(MoveTo(g, id, newOwner), y) == Contribution(g, y)
  {
    MovePoint(g, id, newOwner, y);
    if y in g.elements {
      MoveKeepsContribution(g, id, newOwner, y);
    }
  }

  lemma MoveKeepsMembersOf(g: Graph, id: Id, newOwner: Id, ids: seq<Id>)
    requires MoveReady(g, id, newOwner) && id != newOwner
    requires CarryingWrapper(g, id).Some? || WrapId(id) !in ids
    ensures MembersOf(MoveTo(g, id, newOwner), ids) == MembersOf(g, ids)
  {
    var h := MoveTo(g, id, newOwner);
    forall i | 0 <= i < |ids| ensures Contribution(h, ids[i]) == Contribution(g, ids[i]) {
      MoveKeepsAnyContribution(g, id, newOwner, ids[i]);
    }
    MembersOfPointwise(h, ids, g, ids);
  }

  /** The list without its new last entry. */
  function KeptAfterMove(g: Graph, m: Id, p: Id): seq<Id> {
    if g.PresentOwner(m) == Some(p) then Without(g.OwnedOf(p), m) else g.OwnedOf(p)
  }

  lemma KeptIsWithout(g: Graph, m: Id, p: Id)
    requires OwnershipAgrees(g) && m in g.elements && p in g.elements
    ensures KeptAfterMove(g, m, p) == Without(g.elements[p].owned, m)
  {
    if m in g.elements[p].owned {
      assert g.PresentOwner(m) == Some(p);
    }
  }

  lemma MoveKeptMembers(g: Graph, id: Id, newOwner: Id, p: Id)
    requires MoveReady(g, id, newOwner) && id != newOwner && p in g.elements && CarryingWrapper(g, id) != Some(p)
    ensures MembersOf(MoveTo(g, id, newOwner), KeptAfterMove(g, Moved(g, id), p))
            == WithoutAll(OwnedMembers(g, p), Carried(g, id))
  {
    KeptIsWithout(g, Moved(g, id), p);
    if CarryingWrapper(g, id).Some? {
      CarriedOnlyInWrapper(g, id, p);
    }
    MembersWithoutMoved(g, id, g.elements[p].owned);
    MoveKeepsMembersOf(g, id, newOwner, KeptAfterMove(g, Moved(g, id), p));
  }

  /** What lists nothing that moves keeps its members. */
  lemma OtherMembersStay(g: Graph, id: Id, newOwner: Id, p: Id)
    requires MoveReady(g, id, newOwner) && id != newOwner && p in g.elements && CarryingWrapper(g, id) != Some(p)
    requires p != newOwner && g.PresentOwner(Moved(g, id)) != Some(p)
    ensures OwnedMembers(MoveTo(g, id, newOwner), p) == OwnedMembers(g, p)
  {
    hide MoveTo, ContentListedOnce, OwnershipAgrees, Acyclic, WellKeyed;
    MovePoint(g, id, newOwner, p);
    assert MoveTo(g, id, newOwner).elements[p].owned == g.elements[p].owned + [];
    assert g.elements[p].owned + [] == g.elements[p].owned;
    assert CarryingWrapper(g, id).None? ==> WrapId(id) !in g.elements[p].owned;
    MoveKeepsMembersOf(g, id, newOwner, g.elements[p].owned);
  }

  lemma MembersAfterMove(g: Graph, id: Id, newOwner: Id, p: Id)
    requires MoveReady(g, id, newOwner) && id != newOwner && p in g.elements && CarryingWrapper(g, id) != Some(p)
    ensures OwnedMembers(MoveTo(g, id, newOwner), p) ==
            WithoutAll(OwnedMembers(g, p), Carried(g, id)) + (if p == newOwner then Carried(g, id) else [])
  {
    hide MoveTo, ContentListedOnce, OwnershipAgrees, Acyclic, WellKeyed, Carried;
    var h, kept := MoveTo(g, id, newOwner), KeptAfterMove(g, Moved(g, id), p);
    MovePoint(g, id, newOwner, p);
    MoveKeptMembers(g, id, newOwner, p);
    var added := if p == newOwner then [Listed(g, id, newOwner)] else [];
    assert h.elements[p].owned == kept + added;
    MembersOfConcat(h, kept, added);
    ListedContribution(g, id, newOwner);
    assert MembersOf(h, [Listed(g, id, newOwner)]) == Contribution(h, Listed(g, id, newOwner)) + MembersOf(h, []);
  }

  /** The members of an element after the move: its old members without the carried ones, followed by the carried
      ones at the new owner; so only the old and the new logical parent change. Only the carrying wrapper is
      excepted, which keeps what it lists. */
  lemma MoveMembers(g: Graph, id: Id, newOwner: Id, p: Id)
    requires MoveReady(g, id, newOwner) && id != newOwner && p in g.elements && CarryingWrapper(g, id) != Some(p)
    ensures OwnedMembers(MoveTo(g, id, newOwner), p) ==
            WithoutAll(OwnedMembers(g, p), Carried(g, id)) + (if p == newOwner then Carried(g, id) else [])
    ensures p != newOwner && g.PresentOwner(Moved(g, id)) != Some(p) ==>
      OwnedMembers(MoveTo(g, id, newOwner), p) == OwnedMembers(g, p)
  {
    hide MoveTo, MoveReady, OwnedMembers;
    MembersAfterMove(g, id, newOwner, p);
    if p != newOwner && g.PresentOwner(Moved(g, id)) != Some(p) {
      OtherMembersStay(g, id, newOwner, p);
    }
  }

  // ---------------------------------------------------------------------------------------------
  // The move as a whole
  // ---------------------------------------------------------------------------------------------

  /** What is moved under itself owns itself afterwards, directly or through the generated wrapper. */
  lemma MoveToItselfIsCyclic(g: Graph, id: Id, newOwner: Id)
    requires CanMove(g, id, newOwner) && Moved(g, id) == newOwner
    ensures !Acyclic(MoveTo(g, id, newOwner))
    ensures forall x :: x in g.elements ==> x in MoveTo(g, id, newOwner).elements
  {
    hide WellKeyed, OwnershipAgrees, ContentListedOnce, Acyclic;
    var h, m := MoveTo(g, id, newOwner), Moved(g, id);
    if g.PresentOwner(m).Some? {
      NotItsOwnOwner(g, m);
    }
    DetachShape(g, m);
    if Generates(g, id, newOwner) {
      assert h.PresentOwner(id) == Some(WrapId(id)) && h.PresentOwner(WrapId(id)) == Some(id);
      OwnEachOther(h, id, WrapId(id));
    } else {
      assert h.PresentOwner(m) == Some(m);
      OwnEachOther(h, m, m);
    }
  }

  lemma OwnEachOther(g: Graph, a: Id, b: Id)
    requires g.PresentOwner(a) == Some(b) && g.PresentOwner(b) == Some(a)
    ensures !Acyclic(g)
  {
    forall rank: map<Id, nat> ensures !Ranks(g, rank) {
    }
  }

  /** A move loses no element, keeps keys and ownership consistent, and keeps the graph acyclic exactly when
      the new owner is outside the subtree that moves. */
  lemma MoveIsSound(g: Graph, id: Id, newOwner: Id)
    requires CanMove(g, id, newOwner)
    ensures Sound(MoveTo(g, id, newOwner)) <==> !Descends(g, newOwner, Moved(g, id))
    ensures forall x :: x in g.elements ==> x in MoveTo(g, id, newOwner).elements
  {
    hide MoveTo, WellKeyed, OwnershipAgrees, ContentListedOnce;
    if Moved(g, id) == newOwner {
      MoveToItselfIsCyclic(g, id, newOwner);
      return;
    }
    MoveKeepsKeys(g, id, newOwner);
    MoveKeepsOwners(g, id, newOwner);
    MoveKeepsListing(g, id, newOwner);
    if Descends(g, newOwner, Moved(g, id)) {
      MoveInsideIsCyclic(g, id, newOwner);
    } else {
      MoveOutsideIsAcyclic(g, id, newOwner);
    }
  }

  // ---------------------------------------------------------------------------------------------
  // Slots in specialised wrappers
  // ---------------------------------------------------------------------------------------------

  /** The slot of a `require`, `assume` or `verify`: its wrapper is no membership but already has the id that
      the move generates, and lists the slot alone. */
  ghost predicate IsSlot(g: Graph, id: Id) {
    var w := WrapId(id);
    IsContentIn(g, id) && g.PresentOwner(id) == Some(w) && !g.elements[w].kind.IsMembership()
        && g.elements[w].owned == [id]
  }

  lemma MoveSlotShape(g: Graph, id: Id, newOwner: Id)
    requires Sound(g) && IsSlot(g, id) && IsContentIn(g, newOwner) && id != newOwner && newOwner != WrapId(id)
    ensures var h, w := MoveTo(g, id, newOwner), WrapId(id);
      && h.elements.Keys == g.elements.Keys
      && h.elements[w] == Wrapper(WrapItem(id, g.elements[id].kind, newOwner))
      && h.elements[id] == g.elements[id].(owner := Some(w))
      && h.elements[newOwner] == g.elements[newOwner].(owned := g.elements[newOwner].owned + [w])
      && (forall p :: p in g.elements && p != id && p != w && p != newOwner ==> h.elements[p] == g.elements[p])
  {
    hide Relink, WellKeyed, Acyclic, ContentListedOnce;
    NotItsOwnOwner(g, id);
    RelinkShape(g, id, WrapId(id), newOwner, WrapId(id));
  }

  /** Moving a slot overwrites its specialised wrapper with a plain one, and ownership stays consistent
      exactly when the old wrapper's owner is absent or is the new owner itself. */
  lemma MoveOverwritesSpecialWrapper(g: Graph, id: Id, newOwner: Id)
    requires Sound(g) && IsSlot(g, id) && IsContentIn(g, newOwner) && id != newOwner && newOwner != WrapId(id)
    ensures var h, w := MoveTo(g, id, newOwner), WrapId(id);
      && h.elements[w] == Wrapper(WrapItem(id, g.elements[id].kind, newOwner))
      && (OwnershipAgrees(h) <==> g.PresentOwner(w).None? || g.PresentOwner(w) == Some(newOwner))
  {
    MoveSlotShape(g, id, newOwner);
    var h, w := MoveTo(g, id, newOwner), WrapId(id);
    if g.PresentOwner(w).None? || g.PresentOwner(w) == Some(newOwner) {
      forall c | c in h.elements && h.PresentOwner(c).Some?
        ensures c in h.OwnedOf(h.elements[c].owner.value)
      {
        SlotMovedIsListed(g, id, newOwner, c);
      }
      forall p, c | p in h.elements && c in h.elements[p].owned && c in h.elements
        ensures h.elements[c].owner == Some(p)
      {
        SlotListedIsOwned(g, id, newOwner, p, c);
      }
    } else {
      var former := g.PresentOwner(w).value;
      assert w in g.elements[former].owned;
      assert former != w by {
        NotItsOwnOwner(g, w);
      }
      assert w in h.elements[former].owned && h.elements[w].owner == Some(newOwner) != Some(former);
    }
  }

  lemma SlotMovedIsListed(g: Graph, id: Id, newOwner: Id, c: Id)
    requires Sound(g) && IsSlot(g, id) && IsContentIn(g, newOwner) && id != newOwner && newOwner != WrapId(id)
    requires var h := MoveTo(g, id, newOwner); c in h.elements && h.PresentOwner(c).Some?
    ensures var h := MoveTo(g, id, newOwner); c in h.OwnedOf(h.elements[c].owner.value)
  {
    MoveSlotShape(g, id, newOwner);
    assert g.PresentOwner(c).Some? ==> c in g.OwnedOf(g.elements[c].owner.value);
  }

  lemma SlotListedIsOwned(g: Graph, id: Id, newOwner: Id, p: Id, c: Id)
    requires Sound(g) && IsSlot(g, id) && IsContentIn(g, newOwner) && id != newOwner && newOwner != WrapId(id)
    requires g.PresentOwner(WrapId(id)).None? || g.PresentOwner(WrapId(id)) == Some(newOwner)
    requires var h := MoveTo(g, id, newOwner); p in h.elements && c in h.elements && c in h.elements[p].owned
    ensures MoveTo(g, id, newOwner).elements[c].owner == Some(p)
  {
    MoveSlotShape(g, id, newOwner);
    assert c in g.elements[p].owned ==> g.elements[c].owner == Some(p);
  }

  /** Two packages, and in the first one the slot of a `verify` in its specialised wrapper. */
  function VerifyModel(p: Id, q: Id, s: Id): Graph {
    Graph([p, q, WrapId(s), s],
          map[p := NewElement(p, Definition(Package)).(owned := [WrapId(s)]),
              q := NewElement(q, Definition(Package)),
              WrapId(s) := NewElement(WrapId(s), Relation(Verification)).(owner := Some(p), owned := [s]),
              s := NewElement(s, Usage(RequirementUsage)).(owner := Some(WrapId(s)))],
          [p, q])
  }

  /** The same graph, element by element, with `w` for the wrapper's id. */
  predicate IsVerifyModel(g: Graph, p: Id, q: Id, w: Id, s: Id) {
    && p != q && p != w && p != s && q != w && q != s && w != s
    && g.order == [p, q, w, s] && g.elements.Keys == {p, q, w, s}
    && g.elements[p] == NewElement(p, Definition(Package)).(owned := [w])
    && g.elements[q] == NewElement(q, Definition(Package))
    && g.elements[w] == NewElement(w, Relation(Verification)).(owner := Some(p), owned := [s])
    && g.elements[s] == NewElement(s, Usage(RequirementUsage)).(owner := Some(w))
  }

  lemma VerifyModelIsKeyed(g: Graph, p: Id, q: Id, w: Id, s: Id)
    requires IsVerifyModel(g, p, q, w, s)
    ensures WellKeyed(g) && ContentListedOnce(g)
  {
  }

  lemma VerifyModelOwnership(g: Graph, p: Id, q: Id, w: Id, s: Id)
    requires IsVerifyModel(g, p, q, w, s)
    ensures OwnershipAgrees(g) && Acyclic(g)
  {
    forall c | g.PresentOwner(c).Some? ensures c in g.OwnedOf(g.elements[c].owner.value) {
      assert c in {p, q, w, s};
    }
    forall x, c | x in g.elements && c in g.elements[x].owned && c in g.elements
      ensures g.elements[c].owner == Some(x)
    {
      assert x in {p, q, w, s};
    }
    var rank: map<Id, nat> := map[p := 0, q := 0, w := 1, s := 2];
    forall c | g.PresentOwner(c).Some? ensures rank[g.elements[c].owner.value] < rank[c] {
      assert c in {p, q, w, s};
    }
    assert Ranks(g, rank);
  }

  lemma VerifyModelIsSound(p: Id, q: Id, s: Id)
    requires p != q && p != s && q != s && WrapId(s) != p && WrapId(s) != q
    ensures Sound(VerifyModel(p, q, s)) && IsSlot(VerifyModel(p, q, s), s)
  {
    hide WrapId, WellKeyed, OwnershipAgrees, ContentListedOnce, Acyclic;
    var g, w := VerifyModel(p, q, s), WrapId(s);
    WrapIdIsOther(s);
    assert IsVerifyModel(g, p, q, w, s);
    VerifyModelIsKeyed(g, p, q, w, s);
    VerifyModelOwnership(g, p, q, w, s);
  }

  lemma WrapIdIsOther(s: Id)
    ensures WrapId(s) != s
  {
  }

  /** Moving that slot to the second package leaves its wrapper listed in both. */
  lemma MovedVerifySlotIsListedTwice(p: Id, q: Id, s: Id)
    requires p != q && p != s && q != s && WrapId(s) != p && WrapId(s) != q
    ensures var h := MoveTo(VerifyModel(p, q, s), s, q);
      Sound(VerifyModel(p, q, s)) && WrapId(s) in h.OwnedOf(p) && WrapId(s) in h.OwnedOf(q) && !OwnershipAgrees(h)
  {
    hide WrapId, MoveTo, Sound, OwnershipAgrees;
    VerifyModelIsSound(p, q, s);
    WrapIdIsOther(s);
    var g := VerifyModel(p, q, s);
    assert g.PresentOwner(WrapId(s)) == Some(p);
    MoveSlotShape(g, s, q);
    MoveOverwritesSpecialWrapper(g, s, q);
  }
}
