/** The interchange model: elements by id in insertion order, root ids, and the ownership graph that the
    `owner` pointers and the `owned` lists describe twice. */
module ModelGraph {
  import opened Wrappers
  import opened ElementKinds

  type Id = string

  datatype PropertyValue = Text(text: string) | Flag(flag: bool) | Reference(id: Id)

  datatype RelationshipData = RelationshipData(source: seq<Id>, target: seq<Id>)

  datatype Element = Element(
    id: Id,
    kind: ElementKind,
    name: Option<string>,
    qualifiedName: Option<string>,
    owner: Option<Id>,
    owned: seq<Id>,
    properties: map<string, PropertyValue>,
    relationship: Option<RelationshipData>)

  function NewElement(id: Id, kind: ElementKind): Element {
    Element(id, kind, None, None, None, [], map[], None)
  }

  /** The value of a model: the keys of its element map in insertion order, the map, and the roots. */
  datatype Graph = Graph(order: seq<Id>, elements: map<Id, Element>, roots: seq<Id>) {

    /** Inserting an id that is already there replaces the element and keeps its position. */
    function Insert(e: Element): Graph {
      this.(order := if e.id in elements then order else order + [e.id], elements := elements[e.id := e])
    }

    /** Adding an element also makes it a root when it has no owner. */
    function Add(e: Element): Graph {
      (if e.owner.None? then this.(roots := roots + [e.id]) else this).Insert(e)
    }

    function SetOwner(id: Id, owner: Id): Graph {
      if id in elements then this.(elements := elements[id := elements[id].(owner := Some(owner))]) else this
    }

    function SetOwned(id: Id, owned: seq<Id>): Graph {
      if id in elements then this.(elements := elements[id := elements[id].(owned := owned)]) else this
    }

    function OwnedOf(id: Id): seq<Id> {
      if id in elements then elements[id].owned else []
    }

    /** The element an owner pointer leads to, if it is present. */
    function PresentOwner(id: Id): Option<Id> {
      if id in elements && elements[id].owner.Some? && elements[id].owner.value in elements
      then elements[id].owner else None
    }
  }

  // ---------------------------------------------------------------------------------------------
  // Invariants
  // ---------------------------------------------------------------------------------------------

  ghost predicate NoDuplicates<T>(s: seq<T>) {
    forall i, j :: 0 <= i < j < |s| ==> s[i] != s[j]
  }

  /** The key order lists every key once, and every element is stored under its own id. */
  ghost predicate WellKeyed(g: Graph) {
    && NoDuplicates(g.order)
    && (forall id :: id in g.order <==> id in g.elements)
    && (forall id :: id in g.elements ==> g.elements[id].id == id)
  }

  /** Owner pointers and owned lists agree over the ids that are present. */
  ghost predicate OwnershipAgrees(g: Graph) {
    && (forall c {:trigger g.PresentOwner(c)} :: g.PresentOwner(c).Some? ==> c in g.OwnedOf(g.elements[c].owner.value))
    && (forall p, c :: p in g.elements && c in g.elements[p].owned && c in g.elements ==>
          g.elements[c].owner == Some(p))
  }

  /** A content element is listed at most once by its owner. */
  ghost predicate ContentListedOnce(g: Graph) {
    forall p, i, j :: p in g.elements && 0 <= i < j < |g.elements[p].owned| &&
                      g.elements[p].owned[i] == g.elements[p].owned[j] ==>
      !IsContentIn(g, g.elements[p].owned[i])
  }

  predicate IsContentIn(g: Graph, id: Id) {
    id in g.elements && g.elements[id].kind.IsContent()
  }

  /** Following owner pointers strictly decreases the rank, so the chains are finite. */
  ghost predicate Ranks(g: Graph, rank: map<Id, nat>) {
    && (forall id :: id in g.elements ==> id in rank)
    && (forall c {:trigger g.PresentOwner(c)} :: g.PresentOwner(c).Some? ==> rank[g.elements[c].owner.value] < rank[c])
  }

  ghost predicate Acyclic(g: Graph) {
    exists rank: map<Id, nat> :: Ranks(g, rank)
  }

  lemma NotItsOwnOwner(g: Graph, c: Id)
    requires Acyclic(g) && g.PresentOwner(c).Some?
    ensures g.elements[c].owner != Some(c)
  {
    var rank: map<Id, nat> :| Ranks(g, rank);
  }

  ghost predicate Sound(g: Graph) {
    WellKeyed(g) && OwnershipAgrees(g) && ContentListedOnce(g) && Acyclic(g)
  }

  /** An id that is neither a key nor mentioned by any ownership link. */
  ghost predicate Unmentioned(g: Graph, id: Id) {
    && id !in g.elements
    && id !in g.roots
    && (forall x :: x in g.elements ==> id !in g.elements[x].owned && g.elements[x].owner != Some(id))
  }

  // ---------------------------------------------------------------------------------------------
  // The logical tree: members and qualified names look through wrappers
  // ---------------------------------------------------------------------------------------------

  function ContentOf(g: Graph, ids: seq<Id>): seq<Id> {
    if ids == [] then []
    else (if IsContentIn(g, ids[0]) then [ids[0]] else []) + ContentOf(g, ids[1..])
  }

  /** What one owned id adds to the members of its owner: the content below it when it is a membership,
      itself when it is content, nothing when it is another relationship or absent. */
  function Contribution(g: Graph, child: Id): seq<Id> {
    if child !in g.elements then []
    else if g.elements[child].kind.IsMembership() then ContentOf(g, g.elements[child].owned)
    else if !g.elements[child].kind.IsRelationship() then [child]
    else []
  }

  function MembersOf(g: Graph, ids: seq<Id>): seq<Id> {
    if ids == [] then [] else Contribution(g, ids[0]) + MembersOf(g, ids[1..])
  }

  function OwnedMembers(g: Graph, id: Id): seq<Id> {
    MembersOf(g, g.OwnedOf(id))
  }

  ghost function RankOf(g: Graph, id: Id): nat
    requires Acyclic(g)
  {
    var rank: map<Id, nat> :| Ranks(g, rank);
    if id in g.elements then rank[id] + 1 else 0
  }

  lemma OwnerRanksLower(g: Graph, id: Id)
    requires Acyclic(g) && id in g.elements && g.elements[id].owner.Some?
    ensures RankOf(g, g.elements[id].owner.value) < RankOf(g, id)
  {
    assert g.elements[id].owner.value in g.elements ==> g.PresentOwner(id).Some?;
  }

  /** The qualified name by ownership, skipping relationship wrappers. */
  function ComputeQualifiedName(g: Graph, id: Id): string
    requires Acyclic(g)
    decreases RankOf(g, id)
  {
    if id !in g.elements then id
    else
      var e := g.elements[id];
      assert e.owner.Some? ==> RankOf(g, e.owner.value) < RankOf(g, id) by {
        if e.owner.Some? { OwnerRanksLower(g, id); }
      }
      if e.kind.IsRelationship() then
        if e.owner.Some? then ComputeQualifiedName(g, e.owner.value) else id
      else
        var name := e.name.GetOr(id);
        if e.owner.Some? then ComputeQualifiedName(g, e.owner.value) + "::" + name else name
  }

  // ---------------------------------------------------------------------------------------------
  // Members of lists
  // ---------------------------------------------------------------------------------------------

  lemma {:induction false} MembersOfConcat(g: Graph, a: seq<Id>, b: seq<Id>)
    ensures MembersOf(g, a + b) == MembersOf(g, a) + MembersOf(g, b)
  {
    if a == [] {
      assert a + b == b;
    } else {
      assert (a + b)[0] == a[0] && (a + b)[1..] == a[1..] + b;
      MembersOfConcat(g, a[1..], b);
    }
  }

  lemma MembersOfSnoc(g: Graph, ids: seq<Id>, i: nat)
    requires i < |ids|
    ensures MembersOf(g, ids[..i + 1]) == MembersOf(g, ids[..i]) + Contribution(g, ids[i])
  {
    assert ids[..i + 1] == ids[..i] + [ids[i]];
    MembersOfConcat(g, ids[..i], [ids[i]]);
    assert MembersOf(g, [ids[i]]) == Contribution(g, ids[i]) + MembersOf(g, []);
  }

  lemma {:induction false} ContentOfConcat(g: Graph, a: seq<Id>, b: seq<Id>)
    ensures ContentOf(g, a + b) == ContentOf(g, a) + ContentOf(g, b)
  {
    if a == [] {
      assert a + b == b;
    } else {
      assert (a + b)[0] == a[0] && (a + b)[1..] == a[1..] + b;
      ContentOfConcat(g, a[1..], b);
    }
  }

  /** Two lists whose entries contribute the same, position by position, have the same members. */
  lemma {:induction false} MembersOfPointwise(g: Graph, a: seq<Id>, h: Graph, b: seq<Id>)
    requires |a| == |b|
    requires forall i :: 0 <= i < |a| ==> Contribution(g, a[i]) == Contribution(h, b[i])
    ensures MembersOf(g, a) == MembersOf(h, b)
  {
    if a != [] {
      MembersOfPointwise(g, a[1..], h, b[1..]);
    }
  }

  lemma {:induction false} ContentOfPointwise(g: Graph, h: Graph, ids: seq<Id>)
    requires forall x :: x in ids ==> (IsContentIn(g, x) <==> IsContentIn(h, x))
    ensures ContentOf(g, ids) == ContentOf(h, ids)
  {
    if ids != [] {
      assert ids[0] in ids;
      ContentOfPointwise(g, h, ids[1..]);
    }
  }

  // ---------------------------------------------------------------------------------------------
  // The mutable model
  // ---------------------------------------------------------------------------------------------

  class Model {
    var order: seq<Id>
    var elements: map<Id, Element>
    var roots: seq<Id>

    function Value(): Graph
      reads this
    {
      Graph(order, elements, roots)
    }

    constructor ()
      ensures Value() == Graph([], map[], [])
    {
      order, elements, roots := [], map[], [];
    }

    method Insert(e: Element)
      modifies this
      ensures Value() == old(Value()).Insert(e)
    {
      if e.id !in elements {
        order := order + [e.id];
      }
      elements := elements[e.id := e];
    }

    method AddElement(e: Element)
      modifies this
      ensures Value() == old(Value()).Add(e)
    {
      if e.owner.None? {
        roots := roots + [e.id];
      }
      Insert(e);
    }

    method AddRel(id: Id, kind: ElementKind, source: Id, target: Id, owner: Option<Id>)
      modifies this
      ensures Value() == old(Value()).Insert(
        NewElement(id, kind).(owner := owner, relationship := Some(RelationshipData([source], [target]))))
    {
      Insert(NewElement(id, kind).(owner := owner, relationship := Some(RelationshipData([source], [target]))));
    }

    method SetOwner(id: Id, owner: Id)
      modifies this
      ensures Value() == old(Value()).SetOwner(id, owner)
    {
      if id in elements {
        elements := elements[id := elements[id].(owner := Some(owner))];
      }
    }

    method SetOwned(id: Id, owned: seq<Id>)
      modifies this
      ensures Value() == old(Value()).SetOwned(id, owned)
    {
      if id in elements {
        elements := elements[id := elements[id].(owned := owned)];
      }
    }

    /** The content ids of a list, in order. */
    method ListContent(ids: seq<Id>) returns (content: seq<Id>)
      ensures content == ContentOf(Value(), ids)
    {
      content := [];
      var i := 0;
      while i < |ids|
        invariant 0 <= i <= |ids|
        invariant content + ContentOf(Value(), ids[i..]) == ContentOf(Value(), ids)
      {
        assert ids[i..][0] == ids[i] && ids[i..][1..] == ids[i + 1..];
        if ids[i] in elements && !elements[ids[i]].kind.IsRelationship() {
          content := content + [ids[i]];
        }
        i := i + 1;
      }
    }

    /** The read-only traversal: memberships are looked through, other relationships skipped. */
    method ListOwnedMembers(id: Id) returns (members: seq<Id>)
      ensures members == OwnedMembers(Value(), id)
    {
      ghost var g := Value();
      members := [];
      if id !in elements {
        return;
      }
      var owned := elements[id].owned;
      for i := 0 to |owned|
        invariant members == MembersOf(g, owned[..i])
      {
        var added := [];
        if owned[i] in elements {
          if elements[owned[i]].kind.IsMembership() {
            added := ListContent(elements[owned[i]].owned);
          } else if !elements[owned[i]].kind.IsRelationship() {
            added := [owned[i]];
          }
        }
        assert added == Contribution(g, owned[i]);
        members := members + added;
        MembersOfSnoc(g, owned, i);
      }
      assert owned[..|owned|] == owned;
    }
  }
}
